/** The echo pipeline of IPV4ThreadsClientHandle: a read thread that queues what it
    receives and a write thread that sends it back, as a step relation. A label names the
    thread that moves and the adversary's answer to the system call it may be making; a
    spurious wakeup is a step of a sleeping thread. */
module Echo {
  import opened Socket

  const MAX_MESSAGEBUFF_LEN: nat := 1024 * 1024 * 1

  datatype Side = Reader | Writer

  /** handleReadEvent: where the read thread is, with the chunk it carries. */
  datatype ReaderPc =
    | RRecv | RInRecv(fd: int)
    | RWantLock(chunk: seq<Byte>) | RPush(chunk: seq<Byte>) | RUnlock | RNotify
    | RClose | RAssign | RLastNotify | RDone

  /** handleWriteEvent: where the write thread is, with the part of the popped message that
      has not been sent, msg.data() + total_send. WDone keeps what it left unsent. */
  datatype WriterPc =
    | WWantLock | WTest | WAsleep | WWoken | WCheckFd | WPop | WUnlock(left: seq<Byte>)
    | WSend(left: seq<Byte>) | WInSend(left: seq<Byte>, fd: int)
    | WClose(left: seq<Byte>) | WAssign(left: seq<Byte>) | WAfter(left: seq<Byte>)
    | WBreak | WDone(left: seq<Byte>)

  /** incoming has been sent by the peer and not received yet, received has; wire is
      everything the kernel has accepted from the write thread. */
  datatype State = State(
    clientFd: int, queue: seq<seq<Byte>>, holder: Option<Side>,
    reader: ReaderPc, writer: WriterPc,
    incoming: seq<Byte>, received: seq<Byte>, wire: seq<Byte>)

  datatype Label = ReadThread(o: Outcome) | WriteThread(o: Outcome) | PeerSends(bytes: seq<Byte>)

  function Init(fd: int): State {
    State(fd, [], None, RRecv, WWantLock, [], [], [])
  }

  /** mCond.notify_one(): wakes the write thread if it sleeps, is lost otherwise. */
  function Notified(w: WriterPc): WriterPc {
    if w == WAsleep then WWoken else w
  }

  function ReaderStep(s: State, o: Outcome): Option<State> {
    match s.reader
    case RRecv => Some(s.(reader := RInRecv(s.clientFd)))
    case RInRecv(fd) =>
      (match OnFd(fd, RecvRet(o, MAX_MESSAGEBUFF_LEN, |s.incoming|))
       case Again => Some(s.(reader := RRecv))
       case Fail => Some(s.(reader := RClose))
       case Bytes(k) =>
         if k == 0 then Some(s.(reader := RClose))
         else Some(s.(reader := RWantLock(s.incoming[..k]), received := s.received + s.incoming[..k],
                      incoming := s.incoming[k..])))
    case RWantLock(chunk) =>
      if s.holder.Some? then None else Some(s.(reader := RPush(chunk), holder := Some(Reader)))
    case RPush(chunk) => Some(s.(reader := RUnlock, queue := s.queue + [chunk]))
    case RUnlock => Some(s.(reader := RNotify, holder := None))
    case RNotify => Some(s.(reader := RRecv, writer := Notified(s.writer)))
    case RClose => Some(s.(reader := RAssign))
    case RAssign => Some(s.(reader := RLastNotify, clientFd := INVALID_FD))
    case RLastNotify => Some(s.(reader := RDone, writer := Notified(s.writer)))
    case RDone => None
  }

  function WriterStep(s: State, o: Outcome): Option<State> {
    match s.writer
    case WWantLock => if s.holder.Some? then None else Some(s.(writer := WTest, holder := Some(Writer)))
    case WTest =>
      if s.queue == [] then Some(s.(writer := WAsleep, holder := None)) else Some(s.(writer := WCheckFd))
    case WAsleep => Some(s.(writer := WWoken))
    case WWoken => if s.holder.Some? then None else Some(s.(writer := WTest, holder := Some(Writer)))
    case WCheckFd => Some(s.(writer := if s.clientFd == INVALID_FD then WBreak else WPop))
    case WPop =>
      // front() and pop() of an empty queue are undefined: there is no such step
      if s.queue == [] then None else Some(s.(writer := WUnlock(s.queue[0]), queue := s.queue[1..]))
    case WUnlock(left) => Some(s.(writer := WSend(left), holder := None))
    case WSend(left) =>
      Some(s.(writer := if left != [] then WInSend(left, s.clientFd) else WAfter(left)))
    case WInSend(left, fd) =>
      (match OnFd(fd, SendRet(o, |left|))
       case Again => Some(s.(writer := WSend(left)))
       case Fail => Some(s.(writer := WClose(left)))
       case Bytes(k) =>
         if k == 0 then Some(s.(writer := WClose(left)))
         else Some(s.(writer := WSend(left[k..]), wire := s.wire + left[..k])))
    case WClose(left) => Some(s.(writer := WAssign(left)))
    case WAssign(left) => Some(s.(writer := WAfter(left), clientFd := INVALID_FD))
    case WAfter(left) => Some(s.(writer := if s.clientFd == INVALID_FD then WDone(left) else WWantLock))
    case WBreak => Some(s.(writer := WDone([]), holder := None))
    case WDone(_) => None
  }

  function Step(s: State, l: Label): Option<State> {
    match l
    case ReadThread(o) => ReaderStep(s, o)
    case WriteThread(o) => WriterStep(s, o)
    case PeerSends(bytes) => Some(s.(incoming := s.incoming + bytes))
  }

  /** The state after a schedule, if each of its steps can be taken. */
  function Exec(s: State, ls: seq<Label>): Option<State>
    decreases |ls|
  {
    if ls == [] then Some(s)
    else
      match Step(s, ls[0])
      case None => None
      case Some(next) => Exec(next, ls[1..])
  }

  ghost predicate Reachable(s: State) {
    exists fd, ls :: fd != INVALID_FD && Exec(Init(fd), ls) == Some(s)
  }

  lemma {:induction false} ExecAppend(s: State, a: seq<Label>, b: seq<Label>)
    requires Exec(s, a).Some?
    ensures Exec(s, a + b) == Exec(Exec(s, a).value, b)
    decreases |a|
  {
    if a == [] {
      assert a + b == b;
    } else {
      assert (a + b)[1..] == a[1..] + b;
      ExecAppend(Step(s, a[0]).value, a[1..], b);
    }
  }

  lemma ReachableStep(s: State, l: Label) returns (t: State)
    requires Reachable(s) && Step(s, l).Some?
    ensures Some(t) == Step(s, l) && Reachable(t)
  {
    t := Step(s, l).value;
    var fd, ls :| fd != INVALID_FD && Exec(Init(fd), ls) == Some(s);
    ExecAppend(Init(fd), ls, [l]);
    assert [l][1..] == [];
    assert Exec(s, [l]) == Some(t);
    assert Exec(Init(fd), ls + [l]) == Some(t);
  }

  lemma ReachableInit(fd: int)
    requires fd != INVALID_FD
    ensures Reachable(Init(fd))
  {
    assert Exec(Init(fd), []) == Some(Init(fd));
  }

  // ---------- where the bytes are

  /** The chunk received and not pushed yet. */
  function Pending(r: ReaderPc): seq<Byte> {
    if r.RWantLock? || r.RPush? then r.chunk else []
  }

  /** The part of the popped message that is not on the wire. */
  function Unsent(w: WriterPc): seq<Byte> {
    if HasMessage(w) then w.left else []
  }

  predicate HasMessage(w: WriterPc) {
    w.WUnlock? || w.WSend? || w.WInSend? || w.WClose? || w.WAssign? || w.WAfter? || w.WDone?
  }

  predicate Conserved(s: State) {
    s.received == s.wire + Unsent(s.writer) + Concat(s.queue) + Pending(s.reader)
  }

  // ---------- the invariant

  predicate ReaderLocks(r: ReaderPc) { r.RPush? || r.RUnlock? }

  predicate WriterLocks(w: WriterPc) {
    w.WTest? || w.WCheckFd? || w.WPop? || w.WUnlock? || w.WBreak?
  }

  predicate Locks(s: State) {
    && (s.holder == Some(Reader) <==> ReaderLocks(s.reader))
    && (s.holder == Some(Writer) <==> WriterLocks(s.writer))
  }

  /** A sleeping writer misses a message only while the reader is between its push and its
      notify, and then exactly one. */
  predicate NoLostWakeup(s: State) {
    s.writer == WAsleep && s.queue != [] ==> (s.reader == RUnlock || s.reader == RNotify) && |s.queue| == 1
  }

  predicate Shape(s: State) {
    && (s.writer == WCheckFd || s.writer == WPop ==> s.queue != [])
    && (s.writer.WInSend? ==> s.writer.left != [])
    && (s.writer.WAfter? && s.writer.left != [] ==> s.clientFd == INVALID_FD)
    && (s.writer.WDone? || s.writer.WBreak? ==> s.clientFd == INVALID_FD)
    && (s.reader.RLastNotify? || s.reader.RDone? ==> s.clientFd == INVALID_FD)
  }

  predicate Inv(s: State) {
    Locks(s) && NoLostWakeup(s) && Shape(s) && Conserved(s)
  }

  lemma ReaderStepKeepsControl(s: State, o: Outcome)
    requires Inv(s) && ReaderStep(s, o).Some?
    ensures var t := ReaderStep(s, o).value; Locks(t) && NoLostWakeup(t) && Shape(t)
  {
    hide Conserved;
    var t := ReaderStep(s, o).value;
    assert Locks(t);
    assert NoLostWakeup(t);
  }

  lemma ReaderStepConserves(s: State, o: Outcome)
    requires Inv(s) && ReaderStep(s, o).Some?
    ensures Conserved(ReaderStep(s, o).value)
  {
    hide Locks, NoLostWakeup, Shape;
    var t := ReaderStep(s, o).value;
    var before := s.wire + Unsent(s.writer) + Concat(s.queue);
    assert Unsent(t.writer) == Unsent(s.writer) && t.wire == s.wire;
    if s.reader.RPush? {
      var chunk := s.reader.chunk;
      ConcatAppend(s.queue, chunk);
      Regroup(s.wire + Unsent(s.writer), Concat(s.queue), chunk);
    } else if s.reader.RInRecv? && t.reader.RWantLock? {
      assert t.received == before + [] + Pending(t.reader);
    } else {
      assert Pending(t.reader) == Pending(s.reader) && t.received == s.received && t.queue == s.queue;
    }
  }

  lemma Regroup(a: seq<Byte>, b: seq<Byte>, c: seq<Byte>)
    ensures a + (b + c) == a + b + c == a + b + c + []
  {
  }

  lemma WriterStepKeepsControl(s: State, o: Outcome)
    requires Inv(s) && WriterStep(s, o).Some?
    ensures var t := WriterStep(s, o).value; Locks(t) && NoLostWakeup(t) && Shape(t)
  {
    hide Conserved;
    var t := WriterStep(s, o).value;
    assert Locks(t);
    assert NoLostWakeup(t);
  }

  lemma WriterStepConserves(s: State, o: Outcome)
    requires Inv(s) && WriterStep(s, o).Some?
    ensures Conserved(WriterStep(s, o).value)
  {
    hide Locks, NoLostWakeup;
    var t := WriterStep(s, o).value;
    assert Pending(t.reader) == Pending(s.reader) && t.received == s.received;
    if s.writer.WPop? {
      Regroup(s.wire, s.queue[0], Concat(t.queue));
      assert s.wire + [] == s.wire;
    } else if s.writer.WInSend? && t.writer.WSend? {
      var left, k := s.writer.left, |s.writer.left| - |t.writer.left|;
      assert left == left[..k] + t.writer.left;
      Regroup(s.wire, left[..k], t.writer.left);
      assert t.wire + t.writer.left == s.wire + left by {
        if t.wire == s.wire {
          assert t.writer.left == left;
        }
      }
    } else {
      assert Unsent(t.writer) == Unsent(s.writer) && t.wire == s.wire && t.queue == s.queue;
    }
  }

  lemma StepKeepsInv(s: State, l: Label)
    requires Inv(s) && Step(s, l).Some?
    ensures Inv(Step(s, l).value)
  {
    match l {
      case ReadThread(o) =>
        ReaderStepKeepsControl(s, o);
        ReaderStepConserves(s, o);
      case WriteThread(o) =>
        WriterStepKeepsControl(s, o);
        WriterStepConserves(s, o);
      case PeerSends(bytes) =>
    }
  }

  lemma {:induction false} ExecKeepsInv(s: State, ls: seq<Label>)
    requires Inv(s) && Exec(s, ls).Some?
    ensures Inv(Exec(s, ls).value)
    decreases |ls|
  {
    if ls != [] {
      StepKeepsInv(s, ls[0]);
      ExecKeepsInv(Step(s, ls[0]).value, ls[1..]);
    }
  }

  lemma ReachableInv(s: State)
    requires Reachable(s)
    ensures Inv(s)
  {
    var fd, ls :| fd != INVALID_FD && Exec(Init(fd), ls) == Some(s);
    ExecKeepsInv(Init(fd), ls);
  }

  // ---------- what holds in every reachable state

  function Arriving(l: Label): seq<Byte> {
    if l.PeerSends? then l.bytes else []
  }

  /** What the peer has sent in the course of a schedule. */
  function PeerSent(ls: seq<Label>): seq<Byte>
    decreases |ls|
  {
    if ls == [] then [] else Arriving(ls[0]) + PeerSent(ls[1..])
  }

  function Stream(s: State): seq<Byte> { s.received + s.incoming }

  lemma StreamStep(s: State, l: Label)
    requires Step(s, l).Some?
    ensures Stream(Step(s, l).value) == Stream(s) + Arriving(l)
  {
    var t := Step(s, l).value;
    if l.ReadThread? && s.reader.RInRecv? && t.reader.RWantLock? {
      assert s.incoming == t.reader.chunk + t.incoming;
    } else {
      assert t.received == s.received && t.incoming == s.incoming + Arriving(l);
    }
  }

  lemma {:induction false} StreamAccount(s: State, ls: seq<Label>)
    requires Exec(s, ls).Some?
    ensures Stream(Exec(s, ls).value) == Stream(s) + PeerSent(ls)
    decreases |ls|
  {
    if ls == [] {
      assert Stream(s) + [] == Stream(s);
    } else {
      StreamStep(s, ls[0]);
      StreamAccount(Step(s, ls[0]).value, ls[1..]);
      assert Stream(s) + Arriving(ls[0]) + PeerSent(ls[1..]) == Stream(s) + (Arriving(ls[0]) + PeerSent(ls[1..]));
    }
  }

  /** Whatever the fragmentation and the order of shutdown, every byte the peer has sent is
      on the wire, in flight, queued, in the reader's hands or not received yet, in this
      order; so what has been echoed is always a prefix of what was sent. */
  lemma Conservation(fd: int, ls: seq<Label>)
    requires fd != INVALID_FD && Exec(Init(fd), ls).Some?
    ensures
      var s := Exec(Init(fd), ls).value;
      PeerSent(ls) == s.wire + Unsent(s.writer) + Concat(s.queue) + Pending(s.reader) + s.incoming
      && s.wire <= PeerSent(ls)
  {
    var s := Exec(Init(fd), ls).value;
    assert Conserved(s) by {
      ExecKeepsInv(Init(fd), ls);
    }
    assert s.received + s.incoming == PeerSent(ls) by {
      StreamAccount(Init(fd), ls);
      assert Stream(Init(fd)) + PeerSent(ls) == PeerSent(ls);
    }
    IsPrefix(s.wire, Unsent(s.writer), Concat(s.queue), Pending(s.reader), s.incoming);
  }

  lemma IsPrefix(a: seq<Byte>, b: seq<Byte>, c: seq<Byte>, d: seq<Byte>, e: seq<Byte>)
    ensures a <= a + b + c + d + e
  {
  }

  lemma NoLostWakeups(s: State)
    requires Reachable(s) && s.queue != [] && s.writer == WAsleep
    ensures s.reader == RUnlock || s.reader == RNotify
    ensures |s.queue| == 1
  {
    ReachableInv(s);
  }

  /** Even after a spurious wakeup or a notification whose message is already gone, the
      writer finds a message when it pops. */
  lemma NeverPopsEmpty(s: State)
    requires Reachable(s) && s.writer == WPop
    ensures s.queue != [] && s.holder == Some(Writer)
  {
    ReachableInv(s);
  }

  /** If the reader has finished and the writer sleeps, everything received is echoed. */
  lemma QuiescentCompleteness(s: State)
    requires Reachable(s) && s.reader == RDone && s.writer == WAsleep
    ensures s.queue == [] && s.wire == s.received
  {
    ReachableInv(s);
    assert Concat([]) == [];
  }
}
