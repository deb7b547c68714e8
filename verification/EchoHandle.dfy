/** IPV4ThreadsClientHandle as the object its two threads share and update in place. Each
    method is one atomic action; Run interleaves them under an arbitrary schedule. Every
    update is proved to be the step of the relation in Echo. */
module EchoHandle {
  import opened Socket
  import opened Echo

  class IPV4ThreadsClientHandle {
    // the context's descriptor, the shared queue and the mutex that guards it
    var mClientFd: int
    var mMessageQueue: seq<seq<Byte>>
    var mMutexOwner: Option<Side>
    // the two threads
    var mReader: ReaderPc
    var mWriter: WriterPc
    // the socket
    var mIncoming: seq<Byte>
    var mReceived: seq<Byte>
    var mWire: seq<Byte>

    function View(): State
      reads this
    {
      State(mClientFd, mMessageQueue, mMutexOwner, mReader, mWriter, mIncoming, mReceived, mWire)
    }

    ghost predicate Valid()
      reads this
    {
      Inv(View())
    }

    constructor (fd: int)
      requires fd != INVALID_FD
      ensures Valid() && View() == Init(fd)
    {
      mClientFd, mMessageQueue, mMutexOwner := fd, [], None;
      mReader, mWriter := RRecv, WWantLock;
      mIncoming, mReceived, mWire := [], [], [];
    }

    /** mCond.notify_one(), with the write thread as the only possible sleeper. */
    method NotifyOne()
      modifies this`mWriter
      ensures mWriter == Notified(old(mWriter))
    {
      if mWriter == WAsleep {
        mWriter := WWoken;
      }
    }

    /** One action of handleReadEvent; false if it has to wait for the mutex or is over. */
    method HandleReadEvent(o: Outcome) returns (moved: bool)
      requires Valid()
      modifies this
      ensures moved <==> ReaderStep(old(View()), o).Some?
      ensures View() == if moved then ReaderStep(old(View()), o).value else old(View())
      ensures Valid()
    {
      ghost var before := View();
      hide Inv;
      moved := true;
      match mReader {
        case RRecv => mReader := RInRecv(mClientFd);
        case RInRecv(fd) =>
          var rb := OnFd(fd, RecvRet(o, MAX_MESSAGEBUFF_LEN, |mIncoming|));
          if rb.Again? {
            mReader := RRecv;
          } else if rb.Fail? || rb.count == 0 {
            mReader := RClose;
          } else {
            var chunk := mIncoming[..rb.count];
            mReceived := mReceived + chunk;
            mIncoming := mIncoming[rb.count..];
            mReader := RWantLock(chunk);
          }
        case RWantLock(chunk) =>
          if mMutexOwner.Some? {
            moved := false;
          } else {
            mMutexOwner := Some(Reader);
            mReader := RPush(chunk);
          }
        case RPush(chunk) =>
          mMessageQueue := mMessageQueue + [chunk];
          mReader := RUnlock;
        case RUnlock =>
          mMutexOwner := None;
          mReader := RNotify;
        case RNotify =>
          NotifyOne();
          mReader := RRecv;
        case RClose => mReader := RAssign;
        case RAssign =>
          mClientFd := INVALID_FD;
          mReader := RLastNotify;
        case RLastNotify =>
          NotifyOne();
          mReader := RDone;
        case RDone => moved := false;
      }
      if moved {
        StepKeepsInv(before, ReadThread(o));
      }
    }

    /** One action of handleWriteEvent; false if it has to wait for the mutex or is over. */
    method HandleWriteEvent(o: Outcome) returns (moved: bool)
      requires Valid()
      modifies this
      ensures moved <==> WriterStep(old(View()), o).Some?
      ensures View() == if moved then WriterStep(old(View()), o).value else old(View())
      ensures Valid()
    {
      ghost var before := View();
      assert mWriter == WPop ==> mMessageQueue != [];
      hide Inv;
      moved := true;
      match mWriter {
        case WWantLock =>
          moved := Relock();
        case WTest =>
          if mMessageQueue == [] {
            mMutexOwner := None;
            mWriter := WAsleep;
          } else {
            mWriter := WCheckFd;
          }
        case WAsleep => mWriter := WWoken;
        case WWoken =>
          moved := Relock();
        case WCheckFd => mWriter := if mClientFd == INVALID_FD then WBreak else WPop;
        case WPop =>
          var msg := mMessageQueue[0];
          mMessageQueue := mMessageQueue[1..];
          mWriter := WUnlock(msg);
        case WUnlock(left) =>
          mMutexOwner := None;
          mWriter := WSend(left);
        case WSend(left) => mWriter := if left != [] then WInSend(left, mClientFd) else WAfter(left);
        case WInSend(left, fd) => SendSome(left, fd, o);
        case WClose(left) => mWriter := WAssign(left);
        case WAssign(left) =>
          mClientFd := INVALID_FD;
          mWriter := WAfter(left);
        case WAfter(left) => mWriter := if mClientFd == INVALID_FD then WDone(left) else WWantLock;
        case WBreak =>
          mMutexOwner := None;
          mWriter := WDone([]);
        case WDone(_) => moved := false;
      }
      if moved {
        StepKeepsInv(before, WriteThread(o));
      }
    }

    /** One send() on what is left of the message. */
    method SendSome(left: seq<Byte>, fd: int, o: Outcome)
      requires mWriter == WInSend(left, fd)
      modifies this`mWriter, this`mWire
      ensures Some(View()) == WriterStep(old(View()), o)
    {
      var sb := OnFd(fd, SendRet(o, |left|));
      if sb.Again? {
        mWriter := WSend(left);
      } else if sb.Fail? || sb.count == 0 {
        mWriter := WClose(left);
      } else {
        mWire := mWire + left[..sb.count];
        mWriter := WSend(left[sb.count..]);
      }
    }

    /** The write thread takes the mutex, on entry to the wait or after a wakeup. */
    method Relock() returns (moved: bool)
      modifies this`mMutexOwner, this`mWriter
      ensures moved == old(mMutexOwner).None?
      ensures mMutexOwner == if moved then Some(Writer) else old(mMutexOwner)
      ensures mWriter == if moved then WTest else old(mWriter)
    {
      moved := mMutexOwner.None?;
      if moved {
        mMutexOwner := Some(Writer);
        mWriter := WTest;
      }
    }

    /** doWork(): the two threads and the peer, interleaved as the schedule says, up to the
        first action that cannot be taken. Echoed bytes are a prefix of received ones, and
        what is missing is in flight, queued or carried by the reader. */
    method Run(schedule: seq<Label>) returns (done: nat)
      requires Valid()
      modifies this
      ensures Valid() && done <= |schedule|
      ensures Exec(old(View()), schedule[..done]) == Some(View())
      ensures done < |schedule| ==> Step(View(), schedule[done]).None?
      ensures mReceived == mWire + Unsent(mWriter) + Concat(mMessageQueue) + Pending(mReader)
    {
      done := 0;
      while done < |schedule|
        invariant done <= |schedule| && Valid()
        invariant Exec(old(View()), schedule[..done]) == Some(View())
      {
        ghost var before := View();
        var l := schedule[done];
        var moved := true;
        match l {
          case ReadThread(o) => moved := HandleReadEvent(o);
          case WriteThread(o) => moved := HandleWriteEvent(o);
          case PeerSends(bytes) =>
            mIncoming := mIncoming + bytes;
            StepKeepsInv(before, l);
        }
        if !moved {
          return;
        }
        ExecSnoc(old(View()), schedule[..done], l);
        assert schedule[..done + 1] == schedule[..done] + [l];
        done := done + 1;
      }
    }
  }

  lemma ExecSnoc(s: State, ls: seq<Label>, l: Label)
    requires Exec(s, ls).Some?
    ensures Exec(s, ls + [l]) == Step(Exec(s, ls).value, l)
  {
    ExecAppend(s, ls, [l]);
    assert [l][1..] == [];
  }
}
