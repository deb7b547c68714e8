/** What becomes of the echo write thread once the read thread has finished. Its wait tests
    only that the queue is non-empty, so it does not always exit; it does exactly unless it
    is at that wait with nothing left to send. */
module EchoShutdown {
  import opened Socket
  import opened Echo

  predicate AtWait(w: WriterPc) {
    w.WWantLock? || w.WTest? || w.WAsleep? || w.WWoken?
  }

  /** The writer is at (or about to enter) its wait, and the queue is empty. */
  predicate Stranded(s: State) {
    AtWait(s.writer) && s.queue == []
  }

  function FrontSize(s: State): nat {
    if s.queue == [] then 0 else |s.queue[0]|
  }

  /** An upper bound on the steps the writer still takes, would-blocks apart, once the reader
      has finished and the writer is not stranded. */
  function Rank(s: State): nat {
    match s.writer
    case WDone(_) => 0
    case WBreak => 1
    case WAfter(_) => 1
    case WAssign(_) => 2
    case WClose(_) => 3
    case WInSend(left, _) => 4 + 2 * |left|
    case WSend(left) => 5 + 2 * |left|
    case WUnlock(left) => 6 + 2 * |left|
    case WPop => 7 + 2 * FrontSize(s)
    case WCheckFd => 8 + 2 * FrontSize(s)
    case WTest => 9 + 2 * FrontSize(s)
    case WWantLock => 10 + 2 * FrontSize(s)
    case WWoken => 10 + 2 * FrontSize(s)
    case WAsleep => 11 + 2 * FrontSize(s)
  }

  function WriterSteps(ls: seq<Label>): nat
    decreases |ls|
  {
    if ls == [] then 0 else (if ls[0].WriteThread? then 1 else 0) + WriterSteps(ls[1..])
  }

  function WouldBlocks(ls: seq<Label>): nat
    decreases |ls|
  {
    if ls == [] then 0
    else (if ls[0] == WriteThread(WouldBlock) then 1 else 0) + WouldBlocks(ls[1..])
  }

  /** Every step of the writer lowers the rank, except that a would-block raises it by one. */
  lemma StepAfterReader(s: State, l: Label)
    requires Inv(s) && s.reader == RDone && !Stranded(s) && Step(s, l).Some?
    ensures
      var t := Step(s, l).value;
      t.reader == RDone && !Stranded(t)
      && WriterSteps([l]) + Rank(t) <= Rank(s) + 2 * WouldBlocks([l])
  {
    var t := Step(s, l).value;
    if l.WriteThread? {
      WriterStepRank(s, l.o);
      assert [l][1..] == [];
    } else {
      assert l.PeerSends?;
      assert t.writer == s.writer && t.queue == s.queue;
      assert [l][1..] == [];
    }
  }

  lemma WriterStepRank(s: State, o: Outcome)
    requires Inv(s) && s.reader == RDone && !Stranded(s) && WriterStep(s, o).Some?
    ensures
      var t := WriterStep(s, o).value;
      !Stranded(t) && 1 + Rank(t) <= Rank(s) + if o == WouldBlock then 2 else 0
  {
    hide Conserved, Locks, NoLostWakeup;
    assert !Stranded(WriterStep(s, o).value);
  }

  /** Not stranded when the reader finishes: the writer never sleeps again, always has a step
      to take until it has exited, and exits within Rank steps plus two for each would-block,
      whatever the peer and the scheduler do. */
  lemma {:induction false} WriterExits(s: State, ls: seq<Label>)
    requires Inv(s) && s.reader == RDone && !Stranded(s) && Exec(s, ls).Some?
    ensures
      var t := Exec(s, ls).value;
      t.writer != WAsleep
      && (t.writer.WDone? || forall o :: WriterStep(t, o).Some?)
      && WriterSteps(ls) + Rank(t) <= Rank(s) + 2 * WouldBlocks(ls)
    decreases |ls|
  {
    if ls == [] {
      assert s.holder != Some(Reader);
      assert s.holder.None? || s.holder.value == Writer;
    } else {
      var next := Step(s, ls[0]).value;
      StepAfterReader(s, ls[0]);
      StepKeepsInv(s, ls[0]);
      WriterExits(next, ls[1..]);
      assert [ls[0]][1..] == [];
    }
  }

  /** Stranded when the reader finishes: the writer stays at its wait for ever, whatever
      happens, and nothing is lost, for everything received is already on the wire. */
  lemma {:induction false} StrandedForEver(s: State, ls: seq<Label>)
    requires Inv(s) && s.reader == RDone && Stranded(s) && Exec(s, ls).Some?
    ensures
      var t := Exec(s, ls).value;
      Stranded(t) && t.wire == s.wire && t.wire == t.received
    decreases |ls|
  {
    if ls == [] {
      assert Concat(s.queue) == [];
    } else {
      StepKeepsInv(s, ls[0]);
      StrandedForEver(Step(s, ls[0]).value, ls[1..]);
    }
  }

  /** So, once the reader has finished, the writer can still exit if and only if it is not
      stranded. */
  lemma WriterFate(s: State)
    requires Reachable(s) && s.reader == RDone
    ensures (exists ls :: Exec(s, ls).Some? && Exec(s, ls).value.writer.WDone?) <==> !Stranded(s)
  {
    ReachableInv(s);
    if !Stranded(s) {
      var ls := RunToExit(s);
      assert Exec(s, ls).value.writer.WDone?;
    } else {
      forall ls | Exec(s, ls).Some?
        ensures !Exec(s, ls).value.writer.WDone?
      {
        StrandedForEver(s, ls);
      }
    }
  }

  /** A schedule in which every send() fails takes the writer out. */
  lemma {:induction false} RunToExit(s: State) returns (ls: seq<Label>)
    requires Inv(s) && s.reader == RDone && !Stranded(s)
    ensures Exec(s, ls).Some? && Exec(s, ls).value.writer.WDone?
    decreases Rank(s)
  {
    if s.writer.WDone? {
      ls := [];
    } else {
      var l := WriteThread(Error);
      WriterExits(s, []);
      assert Step(s, l).Some?;
      WriterStepRank(s, Error);
      StepKeepsInv(s, l);
      var rest := RunToExit(Step(s, l).value);
      ls := [l] + rest;
      assert ls[1..] == rest;
    }
  }

  /** The writer waits on an empty queue. */
  lemma WriterWaits() returns (s: State)
    ensures Reachable(s) && s == Init(4).(writer := WAsleep)
  {
    var w := WriteThread(WouldBlock);
    ReachableInit(4);
    s := ReachableStep(Init(4), w);
    s := ReachableStep(s, w);
  }

  /** The peer closes. */
  lemma PeerCloses() returns (s: State)
    ensures Reachable(s) && s == Init(4).(reader := RClose, writer := WAsleep)
  {
    var r := ReadThread(Moved(0));
    s := WriterWaits();
    s := ReachableStep(s, r);
    s := ReachableStep(s, r);
  }

  /** The reader leaves, and its last notify wakes the writer. */
  lemma ReaderLeaves() returns (s: State)
    ensures Reachable(s) && s == Init(4).(clientFd := INVALID_FD, reader := RDone, writer := WWoken)
  {
    var r := ReadThread(Moved(0));
    s := PeerCloses();
    s := ReachableStep(s, r);
    s := ReachableStep(s, r);
    s := ReachableStep(s, r);
  }

  /** "The writer exits once the reader has" is false: here the writer is already waiting
      when the peer closes, the reader's last notify finds the queue empty, and the writer
      goes back to sleep. */
  lemma StrandedWitness()
    ensures exists s :: Reachable(s) && s.reader == RDone && Stranded(s) && s.writer == WAsleep
  {
    var w := WriteThread(WouldBlock);
    var s := ReaderLeaves();
    s := ReachableStep(s, w);
    s := ReachableStep(s, w);
    assert s.writer == WAsleep && s.queue == [];
  }
}
