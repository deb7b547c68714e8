/** The echo threads as the loops they are: why they leave, over any run; what they do when left
    alone; and what the descriptor test and the last notification are worth. */
module EchoLoop {
  import opened Socket
  import opened Echo
  import IO = IOHelper
  import P = SendPath
  import ES = EchoShutdown

  // ---------- why the read thread leaves

  predicate ReaderLeaving(r: ReaderPc) { r == RClose || r == RAssign || r == RLastNotify || r == RDone }

  /** The step is a call of recv() on INVALID_FD, or one that fails or finds the peer closed. */
  predicate ReaderReason(s: State, l: Label) {
    l.ReadThread? && s.reader.RInRecv? && (s.reader.fd == INVALID_FD || l.o == Error || l.o == Moved(0))
  }

  predicate ReaderReasons(s: State, ls: seq<Label>)
    decreases |ls|
  {
    && ls != [] && Step(s, ls[0]).Some?
    && (ReaderReason(s, ls[0]) || ReaderReasons(Step(s, ls[0]).value, ls[1..]))
  }

  lemma ReaderStepReason(s: State, l: Label)
    requires Step(s, l).Some?
    ensures ReaderLeaving(Step(s, l).value.reader) <==> ReaderLeaving(s.reader) || ReaderReason(s, l)
  {
  }

  /** Over any run: would-blocks, however many, and bytes keep the read thread in its loop, and each
      of the reasons takes it out. */
  lemma {:induction false} ReaderLeavesExactlyWhen(s: State, ls: seq<Label>)
    requires Exec(s, ls).Some?
    ensures ReaderLeaving(Exec(s, ls).value.reader) <==> ReaderLeaving(s.reader) || ReaderReasons(s, ls)
    decreases |ls|
  {
    hide Step, ReaderReason;
    if ls != [] {
      ReaderStepReason(s, ls[0]);
      ReaderLeavesExactlyWhen(Step(s, ls[0]).value, ls[1..]);
    }
  }

  // ---------- why the write thread leaves

  /** Closing, or past a test that found the descriptor closed. */
  predicate WriterLeaving(w: WriterPc) {
    w.WClose? || w.WAssign? || w.WBreak? || w.WDone? || (w.WAfter? && w.left != [])
  }

  /** The step is a call of send() on INVALID_FD, or one that fails or moves nothing; or one of the
      two tests of mClientFd, which finds INVALID_FD. */
  predicate WriterReason(s: State, l: Label) {
    && l.WriteThread?
    && ((s.writer.WInSend? && (s.writer.fd == INVALID_FD || l.o == Error || l.o == Moved(0)))
        || ((s.writer.WCheckFd? || s.writer.WAfter?) && s.clientFd == INVALID_FD))
  }

  predicate WriterReasons(s: State, ls: seq<Label>)
    decreases |ls|
  {
    && ls != [] && Step(s, ls[0]).Some?
    && (WriterReason(s, ls[0]) || WriterReasons(Step(s, ls[0]).value, ls[1..]))
  }

  lemma WriterStepReason(s: State, l: Label)
    requires Shape(s) && (s.writer.WClose? || s.writer.WAssign? ==> s.writer.left != []) && Step(s, l).Some?
    ensures
      var t := Step(s, l).value;
      && (WriterLeaving(t.writer) <==> WriterLeaving(s.writer) || WriterReason(s, l))
      && (t.writer.WClose? || t.writer.WAssign? ==> t.writer.left != [])
  {
  }

  lemma {:induction false} WriterLeaves(s: State, ls: seq<Label>)
    requires Inv(s) && (s.writer.WClose? || s.writer.WAssign? ==> s.writer.left != []) && Exec(s, ls).Some?
    ensures
      var t := Exec(s, ls).value;
      && (WriterLeaving(t.writer) <==> WriterLeaving(s.writer) || WriterReasons(s, ls))
      && (t.writer.WClose? || t.writer.WAssign? ==> t.writer.left != [])
    decreases |ls|
  {
    hide Step, WriterReason, WriterLeaving;
    if ls != [] {
      WriterStepReason(s, ls[0]);
      StepKeepsInv(s, ls[0]);
      WriterLeaves(Step(s, ls[0]).value, ls[1..]);
    }
  }

  /** The same for the write thread: a send() that would block does not take it out. */
  lemma WriterLeavesExactlyWhen(fd: int, before: seq<Label>, ls: seq<Label>)
    requires fd != INVALID_FD && Exec(Init(fd), before).Some? && Exec(Exec(Init(fd), before).value, ls).Some?
    ensures
      var s := Exec(Init(fd), before).value;
      WriterLeaving(Exec(s, ls).value.writer) <==> WriterLeaving(s.writer) || WriterReasons(s, ls)
  {
    hide Step, WriterReason, WriterLeaving;
    ExecKeepsInv(Init(fd), before);
    WriterLeaves(Init(fd), before);
    WriterLeaves(Exec(Init(fd), before).value, ls);
  }

  // ---------- runs of one label

  function Copies(l: Label, n: nat): seq<Label> { seq(n, i => l) }

  ghost predicate Path(states: seq<State>, l: Label) {
    states != [] && forall i :: 0 <= i < |states| - 1 ==> Step(states[i], l) == Some(states[i + 1])
  }

  lemma {:induction false} PathRuns(states: seq<State>, l: Label)
    requires Path(states, l)
    ensures Exec(states[0], Copies(l, |states| - 1)) == Some(states[|states| - 1])
    decreases |states|
  {
    hide Step;
    var n: nat := |states| - 1;
    if n == 0 {
      assert Copies(l, n) == [];
    } else {
      var rest := states[1..];
      assert Step(states[0], l) == Some(states[0 + 1]);
      assert Path(rest, l) by {
        forall i | 0 <= i < |rest| - 1
          ensures Step(rest[i], l) == Some(rest[i + 1])
        {
          assert Step(states[i + 1], l) == Some(states[i + 1 + 1]);
        }
      }
      PathRuns(rest, l);
      assert Copies(l, n)[0] == l && Copies(l, n)[1..] == Copies(l, n - 1);
    }
  }

  lemma ExecThen(s: State, a: seq<Label>, t: State, b: seq<Label>)
    requires Exec(s, a) == Some(t)
    ensures Exec(s, a + b) == Exec(t, b)
  {
    hide Exec;
    ExecAppend(s, a, b);
  }

  // ---------- the read thread, left alone

  /** handleReadEvent's loop over the answers of recv(): whether it has been left, the messages it has
      queued, and what has not been received. */
  datatype Reads = Reads(left: bool, chunks: seq<seq<Byte>>, incoming: seq<Byte>)

  function ReadAll(fd: int, incoming: seq<Byte>, script: seq<Outcome>): Reads
    decreases |script|
  {
    if script == [] then Reads(false, [], incoming)
    else
      match OnFd(fd, RecvRet(script[0], MAX_MESSAGEBUFF_LEN, |incoming|))
      case Again => ReadAll(fd, incoming, script[1..])
      case Fail => Reads(true, [], incoming)
      case Bytes(k) =>
        if k == 0 then Reads(true, [], incoming)
        else
          var rest := ReadAll(fd, incoming[k..], script[1..]);
          rest.(chunks := [incoming[..k]] + rest.chunks)
  }

  /** Two steps to an answer, and four more to queue what came. */
  function ReadSteps(fd: int, incoming: seq<Byte>, script: seq<Outcome>): seq<Label>
    decreases |script|
  {
    if script == [] then []
    else
      var l := ReadThread(script[0]);
      match OnFd(fd, RecvRet(script[0], MAX_MESSAGEBUFF_LEN, |incoming|))
      case Again => Copies(l, 2) + ReadSteps(fd, incoming, script[1..])
      case Fail => Copies(l, 2)
      case Bytes(k) =>
        if k == 0 then Copies(l, 2) else Copies(l, 6) + ReadSteps(fd, incoming[k..], script[1..])
  }

  function AfterReads(s: State, r: Reads): State {
    s.(reader := if r.left then RClose else RRecv, queue := s.queue + r.chunks, incoming := r.incoming,
       received := s.received + Concat(r.chunks), writer := if r.chunks == [] then s.writer else Notified(s.writer))
  }

  /** One turn. */
  lemma ReadTurn(s: State, o: Outcome)
    requires s.reader == RRecv && s.holder.None?
    ensures
      var r := OnFd(s.clientFd, RecvRet(o, MAX_MESSAGEBUFF_LEN, |s.incoming|));
      var l := ReadThread(o);
      if r.Again? then Exec(s, Copies(l, 2)) == Some(s)
      else if Ends(r) then Exec(s, Copies(l, 2)) == Some(s.(reader := RClose))
      else Exec(s, Copies(l, 6)) == Some(Queued(s, r.count))
  {
    hide WriterStep, Exec;
    var l, s1 := ReadThread(o), s.(reader := RInRecv(s.clientFd));
    var r := OnFd(s.clientFd, RecvRet(o, MAX_MESSAGEBUFF_LEN, |s.incoming|));
    assert Step(s, l) == Some(s1);
    if Ends(r) || r.Again? {
      var s2 := s.(reader := if r.Again? then RRecv else RClose);
      assert Step(s1, l) == Some(s2);
      PathRuns([s, s1, s2], l);
    } else {
      var chunk := s.incoming[..r.count];
      var s2 := s.(reader := RWantLock(chunk), received := s.received + chunk, incoming := s.incoming[r.count..]);
      var s3 := s2.(reader := RPush(chunk), holder := Some(Reader));
      var s4 := s3.(reader := RUnlock, queue := s.queue + [chunk]);
      var s5 := s4.(reader := RNotify, holder := None);
      assert Step(s1, l) == Some(s2);
      assert Step(s2, l) == Some(s3);
      assert Step(s3, l) == Some(s4);
      assert Step(s4, l) == Some(s5);
      assert Step(s5, l) == Some(Queued(s, r.count));
      PathRuns([s, s1, s2, s3, s4, s5, Queued(s, r.count)], l);
    }
  }

  /** A chunk of k bytes received, queued as one message, and announced. */
  function Queued(s: State, k: nat): State
    requires k <= |s.incoming|
  {
    s.(queue := s.queue + [s.incoming[..k]], received := s.received + s.incoming[..k], incoming := s.incoming[k..],
       writer := Notified(s.writer))
  }

  lemma QueuedThen(s: State, k: nat, r: Reads)
    requires 0 < k <= |s.incoming| && s.reader == RRecv
    ensures AfterReads(Queued(s, k), r) == AfterReads(s, r.(chunks := [s.incoming[..k]] + r.chunks))
  {
    var chunk := s.incoming[..k];
    assert ([chunk] + r.chunks)[1..] == r.chunks;
    assert s.received + chunk + Concat(r.chunks) == s.received + (chunk + Concat(r.chunks));
    assert s.queue + [chunk] + r.chunks == s.queue + ([chunk] + r.chunks);
  }

  /** Left alone, and whatever recv() answers, the read thread queues all that comes, a message for
      each answer, tries again after a would-block, and leaves when recv() fails or the peer has
      closed. */
  lemma {:induction false} ReadsAlone(s: State, script: seq<Outcome>)
    requires s.reader == RRecv && s.holder.None?
    ensures
      Exec(s, ReadSteps(s.clientFd, s.incoming, script))
        == Some(AfterReads(s, ReadAll(s.clientFd, s.incoming, script)))
    decreases |script|
  {
    hide Step, AfterReads, Queued;
    if script == [] {
      NothingRead(s);
    } else {
      var l := ReadThread(script[0]);
      var r := OnFd(s.clientFd, RecvRet(script[0], MAX_MESSAGEBUFF_LEN, |s.incoming|));
      ReadTurn(s, script[0]);
      if r.Again? {
        ReadsAlone(s, script[1..]);
        ExecThen(s, Copies(l, 2), s, ReadSteps(s.clientFd, s.incoming, script[1..]));
      } else if Ends(r) {
        NothingRead(s);
      } else {
        QueuedFields(s, r.count);
        var next := Queued(s, r.count);
        ReadsAlone(next, script[1..]);
        ExecThen(s, Copies(l, 6), next, ReadSteps(s.clientFd, next.incoming, script[1..]));
        QueuedThen(s, r.count, ReadAll(s.clientFd, next.incoming, script[1..]));
      }
    }
  }

  lemma NothingRead(s: State)
    ensures
      AfterReads(s, Reads(false, [], s.incoming)) == s.(reader := RRecv)
      && AfterReads(s, Reads(true, [], s.incoming)) == s.(reader := RClose)
  {
    assert s.queue + [] == s.queue && s.received + [] == s.received;
  }

  lemma QueuedFields(s: State, k: nat)
    requires k <= |s.incoming|
    ensures
      var t := Queued(s, k);
      t.reader == s.reader && t.holder == s.holder && t.clientFd == s.clientFd && t.incoming == s.incoming[k..]
  {
  }

  /** And having left, it closes the descriptor and notifies the write thread once more. */
  lemma ReaderEndsAlone(s: State, o: Outcome)
    requires s.reader == RClose
    ensures
      Exec(s, Copies(ReadThread(o), 3))
        == Some(s.(reader := RDone, clientFd := INVALID_FD, writer := Notified(s.writer)))
  {
    hide WriterStep, Exec;
    var l := ReadThread(o);
    var s1 := s.(reader := RAssign);
    var s2 := s.(reader := RLastNotify, clientFd := INVALID_FD);
    var s3 := s.(reader := RDone, clientFd := INVALID_FD, writer := Notified(s.writer));
    assert Step(s, l) == Some(s1);
    assert Step(s1, l) == Some(s2);
    assert Step(s2, l) == Some(s3);
    PathRuns([s, s1, s2, s3], l);
  }

  // ---------- the write thread, left alone

  /** Two steps to each answer of send(), number from up to number to. */
  function Twice(script: seq<Outcome>, from: nat, to: nat): seq<Label>
    requires from <= to <= |script|
    decreases |script| - from
  {
    if from == to then [] else Copies(WriteThread(script[from]), 2) + Twice(script, from + 1, to)
  }

  /** Where handleWriteEvent is after its sending loop has moved k more bytes. */
  function After(s: State, status: IO.Status, k: nat): State
    requires s.writer.WSend? && k <= |s.writer.left|
  {
    var rest := s.writer.left[k..];
    s.(writer := if status.Failed? then WClose(rest) else WSend(rest), wire := s.wire + s.writer.left[..k])
  }

  lemma OneCall(s: State, o: Outcome)
    requires s.writer.WSend? && s.writer.left != []
    ensures
      var r := SendRet(P.Answer(s.clientFd, o), |s.writer.left|);
      Exec(s, Copies(WriteThread(o), 2))
        == Some(if Ends(r) then After(s, IO.Failed, 0) else After(s, IO.Waiting, Count(r)))
  {
    hide ReaderStep, Exec;
    var l, left := WriteThread(o), s.writer.left;
    var r := SendRet(P.Answer(s.clientFd, o), |left|);
    var s1 := s.(writer := WInSend(left, s.clientFd));
    var s2 := if Ends(r) then After(s, IO.Failed, 0) else After(s, IO.Waiting, Count(r));
    assert left[..0] == [] && left[0..] == left && s.wire + [] == s.wire;
    assert Step(s, l) == Some(s1);
    assert Step(s1, l) == Some(s2);
    PathRuns([s, s1, s2], l);
  }

  lemma AfterTwice(s: State, k: nat, status: IO.Status, n: nat)
    requires s.writer.WSend? && k <= n <= |s.writer.left|
    ensures After(After(s, IO.Waiting, k), status, n - k) == After(s, status, n)
  {
    var wire, left := s.wire, s.writer.left;
    assert left[k..][n - k..] == left[n..];
    assert wire + left[..k] + left[k..][..n - k] == wire + left[..n];
  }

  lemma AfterNone(s: State, status: IO.Status)
    requires s.writer.WSend? && !status.Failed?
    ensures After(s, status, 0) == s
  {
    assert s.wire + s.writer.left[..0] == s.wire && s.writer.left[0..] == s.writer.left;
  }

  /** For any progress, any descriptor and any script, the write thread ends a message as the
      exact-length loop ends, with the same bytes on the wire after the same number of calls; it
      closes the descriptor exactly if that loop fails. */
  lemma {:induction false} TransmitsLikeSendBytes(s: State, total: nat, script: seq<Outcome>, at: nat)
    requires s.writer.WSend? && at <= |script|
    ensures
      var t := IO.SendLoop(total, total + |s.writer.left|, P.Answers(s.clientFd, script), at);
      Exec(s, Twice(script, at, t.next)) == Some(After(s, t.status, t.moved - total))
    decreases |script| - at
  {
    hide Step, After, IO.SendLoop, SendRet;
    var len, answers := total + |s.writer.left|, P.Answers(s.clientFd, script);
    var t := IO.SendLoop(total, len, answers, at);
    IO.SendTurn(total, len, answers, at);
    if s.writer.left == [] || at == |script| {
      AfterNone(s, t.status);
    } else {
      var r := SendRet(answers[at], |s.writer.left|);
      OneCall(s, script[at]);
      if Ends(r) {
        assert Twice(script, at, at + 1) == Copies(WriteThread(script[at]), 2) + [];
        assert Copies(WriteThread(script[at]), 2) + [] == Copies(WriteThread(script[at]), 2);
      } else {
        var next := After(s, IO.Waiting, Count(r));
        AfterFields(s, Count(r));
        TransmitsLikeSendBytes(next, total + Count(r), script, at + 1);
        ExecThen(s, Copies(WriteThread(script[at]), 2), next, Twice(script, at + 1, t.next));
        AfterTwice(s, Count(r), t.status, t.moved - total);
      }
    }
  }

  lemma AfterFields(s: State, k: nat)
    requires s.writer.WSend? && k <= |s.writer.left|
    ensures
      var t := After(s, IO.Waiting, k);
      t.writer == WSend(s.writer.left[k..]) && t.clientFd == s.clientFd
  {
  }

  /** The wait, the test of the descriptor and the pop: with a message queued and the descriptor open
      the write thread takes the first message; with the descriptor closed it takes none and ends;
      with nothing queued it sleeps. */
  lemma TakesAlone(s: State, o: Outcome)
    requires s.writer == WWantLock && s.holder.None?
    ensures
      var l := WriteThread(o);
      if s.queue == [] then Exec(s, Copies(l, 2)) == Some(s.(writer := WAsleep))
      else if s.clientFd == INVALID_FD then Exec(s, Copies(l, 4)) == Some(s.(writer := WDone([])))
      else Exec(s, Copies(l, 5)) == Some(s.(writer := WSend(s.queue[0]), queue := s.queue[1..]))
  {
    hide ReaderStep, Exec;
    var l := WriteThread(o);
    var s1 := s.(writer := WTest, holder := Some(Writer));
    assert Step(s, l) == Some(s1);
    if s.queue == [] {
      assert Step(s1, l) == Some(s.(writer := WAsleep));
      PathRuns([s, s1, s.(writer := WAsleep)], l);
    } else {
      var s2 := s1.(writer := WCheckFd);
      assert Step(s1, l) == Some(s2);
      if s.clientFd == INVALID_FD {
        var s3 := s1.(writer := WBreak);
        assert Step(s2, l) == Some(s3);
        assert Step(s3, l) == Some(s.(writer := WDone([])));
        PathRuns([s, s1, s2, s3, s.(writer := WDone([]))], l);
      } else {
        var s3 := s1.(writer := WPop);
        var s4 := s1.(writer := WUnlock(s.queue[0]), queue := s.queue[1..]);
        var s5 := s.(writer := WSend(s.queue[0]), queue := s.queue[1..]);
        assert Step(s2, l) == Some(s3);
        assert Step(s3, l) == Some(s4);
        assert Step(s4, l) == Some(s5);
        PathRuns([s, s1, s2, s3, s4, s5], l);
      }
    }
  }

  /** After the message: a failed sending closes the descriptor and ends the thread; otherwise it is
      back at its wait, or ends if the descriptor has been closed meanwhile. */
  lemma EndsMessageAlone(s: State, o: Outcome)
    requires s.writer.WClose? || s.writer == WSend([])
    ensures
      var l := WriteThread(o);
      if s.writer.WClose? then Exec(s, Copies(l, 3)) == Some(s.(writer := WDone(s.writer.left), clientFd := INVALID_FD))
      else Exec(s, Copies(l, 2)) == Some(s.(writer := if s.clientFd == INVALID_FD then WDone([]) else WWantLock))
  {
    hide ReaderStep, Exec;
    var l := WriteThread(o);
    if s.writer.WClose? {
      var s1 := s.(writer := WAssign(s.writer.left));
      var s2 := s.(writer := WAfter(s.writer.left), clientFd := INVALID_FD);
      var s3 := s.(writer := WDone(s.writer.left), clientFd := INVALID_FD);
      assert Step(s, l) == Some(s1);
      assert Step(s1, l) == Some(s2);
      assert Step(s2, l) == Some(s3);
      PathRuns([s, s1, s2, s3], l);
    } else {
      var s1 := s.(writer := WAfter([]));
      var s2 := s.(writer := if s.clientFd == INVALID_FD then WDone([]) else WWantLock);
      assert Step(s, l) == Some(s1);
      assert Step(s1, l) == Some(s2);
      PathRuns([s, s1, s2], l);
    }
  }

  // ---------- the closed descriptor and the last notification

  /** At its wait or past it, before a message has been popped. */
  predicate NotSending(w: WriterPc) {
    ES.AtWait(w) || w.WCheckFd? || w.WBreak? || w.WDone?
  }

  lemma StepPopsNone(s: State, l: Label)
    requires s.clientFd == INVALID_FD && NotSending(s.writer) && Step(s, l).Some?
    ensures
      var t := Step(s, l).value;
      t.clientFd == INVALID_FD && NotSending(t.writer) && t.wire == s.wire && s.queue <= t.queue
  {
  }

  /** Once the descriptor is closed no further message is popped: whatever is queued then, or later,
      stays queued, and nothing more is sent. */
  lemma {:induction false} NothingPoppedOnceClosed(s: State, ls: seq<Label>)
    requires s.clientFd == INVALID_FD && NotSending(s.writer) && Exec(s, ls).Some?
    ensures var t := Exec(s, ls).value; NotSending(t.writer) && t.wire == s.wire && s.queue <= t.queue
    decreases |ls|
  {
    hide Step, NotSending;
    if ls != [] {
      StepPopsNone(s, ls[0]);
      NothingPoppedOnceClosed(Step(s, ls[0]).value, ls[1..]);
    }
  }

  /** In the run the write thread tests the queue. */
  predicate TestsQueue(s: State, ls: seq<Label>)
    decreases |ls|
  {
    && ls != [] && Step(s, ls[0]).Some?
    && ((ls[0].WriteThread? && s.writer == WTest) || TestsQueue(Step(s, ls[0]).value, ls[1..]))
  }

  lemma {:induction false} SleepsAfterTest(s: State, ls: seq<Label>)
    requires s.writer != WAsleep && Exec(s, ls).Some? && Exec(s, ls).value.writer == WAsleep
    ensures TestsQueue(s, ls)
    decreases |ls|
  {
    if ls != [] {
      var next := Step(s, ls[0]).value;
      if next.writer != WAsleep {
        SleepsAfterTest(next, ls[1..]);
      }
    }
  }

  /** The read thread's last notification is not lost on a write thread that sleeps: if the thread is
      found asleep later, it has tested the queue again since. */
  lemma TestsAfterLastNotify(s: State, o: Outcome, ls: seq<Label>)
    requires s.reader == RLastNotify && Exec(s, [ReadThread(o)] + ls).Some?
    requires Exec(s, [ReadThread(o)] + ls).value.writer == WAsleep
    ensures TestsQueue(Step(s, ReadThread(o)).value, ls)
  {
    assert ([ReadThread(o)] + ls)[1..] == ls;
    SleepsAfterTest(Step(s, ReadThread(o)).value, ls);
  }
}
