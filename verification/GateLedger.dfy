/** The accounts of the two gates over whole runs: who raises a flag, who takes it down, and who passes
    on it. An enabling that is withdrawn is not spent, and a gate that has been disabled stays shut
    until somebody opens it. */
module GateLedger {
  import opened Socket
  import opened Worker
  import opened WorkerPredicates
  import opened WorkerInvariants
  import opened WorkerSafety
  import opened WorkerShutdown

  /** The step is the one in which a client, under the mutex, does op. */
  predicate Does(s: State, l: Label, op: Op) {
    l.ClientThread? && l.act.Go? && l.id in s.clients && s.clients[l.id] == CHolding(op)
  }

  // ---------- the write gate

  /** enableWriteEvent, by a client or by the receive thread's exit handler. */
  predicate Raises(s: State, l: Label) {
    Does(s, l, EnableWrite) || (l.RecvThread? && s.recv == RExit(XRaise))
  }

  predicate Withdraws(s: State, l: Label) { Does(s, l, DisableWrite) }

  /** The send thread passes its gate. */
  predicate Passes(s: State, l: Label) { l.SendThread? && s.send == SGate(GClear) }

  /** Enablings that find the flag down. */
  function Raisings(s: State, ls: seq<Label>): nat
    decreases |ls|
  {
    if ls == [] || Step(s, ls[0]).None? then 0
    else Bit(Raises(s, ls[0]) && !s.flags.write) + Raisings(Step(s, ls[0]).value, ls[1..])
  }

  /** Disablings that find it up. */
  function Withdrawals(s: State, ls: seq<Label>): nat
    decreases |ls|
  {
    if ls == [] || Step(s, ls[0]).None? then 0
    else Bit(Withdraws(s, ls[0]) && s.flags.write) + Withdrawals(Step(s, ls[0]).value, ls[1..])
  }

  function Passings(s: State, ls: seq<Label>): nat
    decreases |ls|
  {
    if ls == [] || Step(s, ls[0]).None? then 0
    else Bit(Passes(s, ls[0])) + Passings(Step(s, ls[0]).value, ls[1..])
  }

  /** How a step changes the write flag. */
  predicate WriteFlagFollows(s: State, l: Label, t: State) {
    t.flags.write == if Raises(s, l) then true else if Withdraws(s, l) || Passes(s, l) then false else s.flags.write
  }

  lemma GateWriteFlag(s: State, side: Side, g: GatePc)
    requires GateStep(s, side, g).Some?
    ensures
      var t := GateStep(s, side, g).value;
      && t.flags.read == s.flags.read
      && t.flags.write == if side == Send && g == GClear then false else s.flags.write
  {
  }

  lemma ExitFlags(s: State, side: Side, x: ExitPc)
    requires ExitStep(s, side, x).Some?
    ensures
      var t := ExitStep(s, side, x).value;
      && t.flags.write == (if side == Recv && x == XRaise then true else s.flags.write)
      && t.flags.read == if side == Send && x == XRaise then true else s.flags.read
  {
  }

  lemma RecvFlags(s: State, o: Outcome)
    requires RecvStep(s, o).Some?
    ensures
      var t := RecvStep(s, o).value;
      && t.flags.read == s.flags.read
      && t.flags.write == if s.recv == RExit(XRaise) then true else s.flags.write
  {
    hide GateStep, ExitStep;
    if s.recv.RGate? {
      GateWriteFlag(s, Recv, s.recv.g);
    } else if s.recv.RExit? {
      ExitFlags(s, Recv, s.recv.x);
    }
  }

  lemma SendFlags(s: State, o: Outcome)
    requires SendStep(s, o).Some?
    ensures
      var t := SendStep(s, o).value;
      && t.flags.write == (if s.send == SGate(GClear) then false else s.flags.write)
      && t.flags.read == if s.send == SExit(XRaise) then true else s.flags.read
  {
    hide GateStep, ExitStep;
    if s.send.SGate? {
      GateWriteFlag(s, Send, s.send.g);
    } else if s.send.SExit? {
      ExitFlags(s, Send, s.send.x);
    }
  }

  lemma ClientFlags(s: State, id: nat, act: ClientAct)
    requires ClientStep(s, id, act).Some?
    ensures
      var t, l := ClientStep(s, id, act).value, ClientThread(id, act);
      && t.flags.write
           == (if Does(s, l, EnableWrite) then true else if Does(s, l, DisableWrite) then false else s.flags.write)
      && t.flags.read
           == if Does(s, l, EnableRead) then true else if Does(s, l, DisableRead) then false else s.flags.read
  {
  }

  lemma StepWriteFlag(s: State, l: Label)
    requires Step(s, l).Some?
    ensures WriteFlagFollows(s, l, Step(s, l).value)
  {
    hide RecvStep, SendStep, ClientStep;
    match l {
      case RecvThread(o) => RecvFlags(s, o);
      case SendThread(o) => SendFlags(s, o);
      case ClientThread(id, act) => ClientFlags(s, id, act);
      case PeerSends(_) =>
    }
  }

  /** Over any run, what has been raised is passed on, withdrawn, or still up. */
  lemma {:induction false} WriteLedger(s: State, ls: seq<Label>)
    requires Inv(s) && Exec(s, ls).Some?
    ensures
      Bit(s.flags.write) + Raisings(s, ls)
        == Bit(Exec(s, ls).value.flags.write) + Passings(s, ls) + Withdrawals(s, ls)
    decreases |ls|
  {
    hide Step, Inv;
    if ls != [] {
      StepWriteFlag(s, ls[0]);
      PassesOnFlag(s, ls[0]);
      StepKeepsInv(s, ls[0]);
      WriteLedger(Step(s, ls[0]).value, ls[1..]);
    }
  }

  lemma PassesOnFlag(s: State, l: Label)
    requires Inv(s)
    ensures Passes(s, l) ==> s.flags.write
  {
  }

  /** Each passing takes one snapshot, the last one perhaps still to come. */
  lemma {:induction false} PassingsSnap(s: State, ls: seq<Label>)
    requires Inv(s) && Exec(s, ls).Some?
    ensures
      var t := Exec(s, ls).value;
      && Inv(t)
      && |t.log.snapshots| + Bit(Snapping(t.send)) == |s.log.snapshots| + Bit(Snapping(s.send)) + Passings(s, ls)
    decreases |ls|
  {
    hide Step;
    if ls != [] {
      StepLog(s, ls[0]);
      StepKeepsInv(s, ls[0]);
      PassingsSnap(Step(s, ls[0]).value, ls[1..]);
    }
  }

  /** Nobody raises the write flag in the run. */
  predicate NoneRaises(s: State, ls: seq<Label>)
    decreases |ls|
  {
    ls != [] && Step(s, ls[0]).Some? ==> !Raises(s, ls[0]) && NoneRaises(Step(s, ls[0]).value, ls[1..])
  }

  lemma {:induction false} NoRaisings(s: State, ls: seq<Label>)
    requires NoneRaises(s, ls)
    ensures Raisings(s, ls) == 0
    decreases |ls|
  {
    hide Step;
    if ls != [] && Step(s, ls[0]).Some? {
      NoRaisings(Step(s, ls[0]).value, ls[1..]);
    }
  }

  /** Once a client's disbaleWriteEvent has taken effect, and until somebody raises the flag, the send
      thread does not pass its gate; it takes at most the one snapshot it had passed for already. */
  lemma DisabledWriteStaysShut(s: State, l: Label, ls: seq<Label>)
    requires Reachable(s) && Does(s, l, DisableWrite) && Step(s, l).Some?
    requires Exec(Step(s, l).value, ls).Some? && NoneRaises(Step(s, l).value, ls)
    ensures
      var u := Exec(Step(s, l).value, ls).value;
      && Passings(Step(s, l).value, ls) == 0 && !u.flags.write
      && |u.log.snapshots| <= |s.log.snapshots| + Bit(Snapping(s.send))
      && (!Snapping(s.send) ==> u.log.snapshots == s.log.snapshots)
  {
    var t := Step(s, l).value;
    ReachableInv(s);
    StepKeepsInv(s, l);
    ClientFlags(s, l.id, l.act);
    ClientFrame(s, l.id, l.act);
    hide Step, Inv;
    WriteLedger(t, ls);
    NoRaisings(t, ls);
    PassingsSnap(t, ls);
    SnapshotsGrow(t, ls);
  }

  lemma {:induction false} SnapshotsGrow(s: State, ls: seq<Label>)
    requires Exec(s, ls).Some?
    ensures s.log.snapshots <= Exec(s, ls).value.log.snapshots
    decreases |ls|
  {
    hide RecvStep, SendStep, ClientStep;
    if ls != [] {
      match ls[0] {
        case RecvThread(o) => RecvLeavesWire(s, o);
        case SendThread(o) => SendSnapshots(s, o);
        case ClientThread(id, act) => ClientFrame(s, id, act);
        case PeerSends(_) =>
      }
      SnapshotsGrow(Step(s, ls[0]).value, ls[1..]);
    }
  }

  lemma SendSnapshots(s: State, o: Outcome)
    requires SendStep(s, o).Some?
    ensures s.log.snapshots <= SendStep(s, o).value.log.snapshots
  {
    hide GateStep, ExitStep;
    if s.send.SGate? {
      SendGateSameWire(s, s.send.g);
    } else if s.send.SExit? {
      SendExitSameWire(s, s.send.x);
    }
  }

  // ---------- the log

  /** Enablings, whether or not they find the flag down. */
  function Enablings(s: State, ls: seq<Label>): nat
    decreases |ls|
  {
    if ls == [] || Step(s, ls[0]).None? then 0
    else Bit(Raises(s, ls[0])) + Enablings(Step(s, ls[0]).value, ls[1..])
  }

  /** Between the handler's raising of the flag and its interrupt(), the send thread passes its gate. */
  predicate ConsumedEarly(s: State, ls: seq<Label>)
    decreases |ls|
  {
    && ls != [] && Step(s, ls[0]).Some?
    && ((Passes(s, ls[0]) && RaisedNotInterrupted(s.recv)) || ConsumedEarly(Step(s, ls[0]).value, ls[1..]))
  }

  /** Or a client disables the write event. */
  predicate WithdrawnEarly(s: State, ls: seq<Label>)
    decreases |ls|
  {
    && ls != [] && Step(s, ls[0]).Some?
    && ((Withdraws(s, ls[0]) && RaisedNotInterrupted(s.recv)) || WithdrawnEarly(Step(s, ls[0]).value, ls[1..]))
  }

  predicate LogFollows(s: State, l: Label, t: State) {
    && t.log.enables == s.log.enables + Bit(Raises(s, l))
    && t.log.passes == s.log.passes + Bit(Passes(s, l))
    && (t.log.consumedEarly <==> s.log.consumedEarly || (Passes(s, l) && RaisedNotInterrupted(s.recv)))
    && (t.log.withdrawnEarly <==> s.log.withdrawnEarly || (Withdraws(s, l) && RaisedNotInterrupted(s.recv)))
  }

  lemma GateLog(s: State, side: Side, g: GatePc)
    requires GateStep(s, side, g).Some?
    ensures
      var t, passes := GateStep(s, side, g).value, side == Send && g == GClear;
      && t.log.enables == s.log.enables && t.log.passes == s.log.passes + Bit(passes)
      && (t.log.consumedEarly <==> s.log.consumedEarly || (passes && RaisedNotInterrupted(s.recv)))
      && t.log.withdrawnEarly == s.log.withdrawnEarly
  {
  }

  lemma ExitLog(s: State, side: Side, x: ExitPc)
    requires ExitStep(s, side, x).Some?
    ensures
      var t := ExitStep(s, side, x).value;
      && t.log.enables == s.log.enables + Bit(side == Recv && x == XRaise) && t.log.passes == s.log.passes
      && t.log.consumedEarly == s.log.consumedEarly && t.log.withdrawnEarly == s.log.withdrawnEarly
  {
  }

  lemma RecvLog(s: State, o: Outcome)
    requires RecvStep(s, o).Some?
    ensures LogFollows(s, RecvThread(o), RecvStep(s, o).value)
  {
    hide GateStep, ExitStep;
    if s.recv.RGate? {
      GateLog(s, Recv, s.recv.g);
    } else if s.recv.RExit? {
      ExitLog(s, Recv, s.recv.x);
    }
  }

  lemma SendLog(s: State, o: Outcome)
    requires SendStep(s, o).Some?
    ensures LogFollows(s, SendThread(o), SendStep(s, o).value)
  {
    hide GateStep, ExitStep;
    if s.send.SGate? {
      GateLog(s, Send, s.send.g);
    } else if s.send.SExit? {
      ExitLog(s, Send, s.send.x);
    }
  }

  lemma ClientLog(s: State, id: nat, act: ClientAct)
    requires ClientStep(s, id, act).Some?
    ensures LogFollows(s, ClientThread(id, act), ClientStep(s, id, act).value)
  {
  }

  lemma StepLog(s: State, l: Label)
    requires Step(s, l).Some?
    ensures LogFollows(s, l, Step(s, l).value)
  {
    hide RecvStep, SendStep, ClientStep, LogFollows;
    match l {
      case RecvThread(o) => RecvLog(s, o);
      case SendThread(o) => SendLog(s, o);
      case ClientThread(id, act) => ClientLog(s, id, act);
      case PeerSends(bytes) => PeerLog(s, bytes);
    }
  }

  lemma PeerLog(s: State, bytes: seq<Byte>)
    ensures LogFollows(s, PeerSends(bytes), Step(s, PeerSends(bytes)).value)
  {
  }

  /** The log tells what has happened in the run, no more and no less. */
  lemma {:induction false} LogIsTrue(s: State, ls: seq<Label>)
    requires Exec(s, ls).Some?
    ensures
      var t := Exec(s, ls).value;
      && t.log.enables == s.log.enables + Enablings(s, ls)
      && t.log.passes == s.log.passes + Passings(s, ls)
      && (t.log.consumedEarly <==> s.log.consumedEarly || ConsumedEarly(s, ls))
      && (t.log.withdrawnEarly <==> s.log.withdrawnEarly || WithdrawnEarly(s, ls))
    decreases |ls|
  {
    hide Step, Raises, Passes, Withdraws;
    if ls != [] {
      StepLog(s, ls[0]);
      LogIsTrue(Step(s, ls[0]).value, ls[1..]);
    }
  }

  // ---------- the read gate

  /** enableReadEvent, by a client or by the send thread's exit handler. */
  predicate Opens(s: State, l: Label) {
    Does(s, l, EnableRead) || (l.SendThread? && s.send == SExit(XRaise))
  }

  predicate Shuts(s: State, l: Label) { Does(s, l, DisableRead) }

  /** The read flag as the run's enablings and disablings make it, from how it stood. */
  predicate ReadFlag(s: State, ls: seq<Label>, up: bool)
    decreases |ls|
  {
    if ls == [] || Step(s, ls[0]).None? then up
    else
      var now := if Opens(s, ls[0]) then true else if Shuts(s, ls[0]) then false else up;
      ReadFlag(Step(s, ls[0]).value, ls[1..], now)
  }

  lemma StepReadFlag(s: State, l: Label)
    requires Step(s, l).Some?
    ensures
      Step(s, l).value.flags.read == if Opens(s, l) then true else if Shuts(s, l) then false else s.flags.read
  {
    hide RecvStep, SendStep, ClientStep;
    match l {
      case RecvThread(o) => RecvFlags(s, o);
      case SendThread(o) => SendFlags(s, o);
      case ClientThread(id, act) => ClientFlags(s, id, act);
      case PeerSends(_) =>
    }
  }

  /** A new worker's read gate is open, and stays so until a client shuts it; passing it changes
      nothing. */
  lemma {:induction false} ReadFlagExactly(s: State, ls: seq<Label>)
    requires Exec(s, ls).Some?
    ensures Exec(s, ls).value.flags.read == ReadFlag(s, ls, s.flags.read)
    decreases |ls|
  {
    hide Step, Opens, Shuts;
    if ls != [] {
      StepReadFlag(s, ls[0]);
      ReadFlagExactly(Step(s, ls[0]).value, ls[1..]);
    }
  }

  /** A test of the read gate that finds it open. */
  predicate TestsOpen(s: State, l: Label) { l.RecvThread? && s.recv == RGate(GTest) && s.flags.read }

  /** recv() is called; it answers. */
  predicate Calls(s: State, l: Label) { l.RecvThread? && s.recv == RCall }

  predicate Answers(s: State, l: Label) { l.RecvThread? && s.recv.RInRecv? }

  /** Past its gate, before the call. */
  predicate AtCall(r: RecvPc) { r == RGate(GUnlock) || r == RCall }

  function Tests(s: State, ls: seq<Label>): nat
    decreases |ls|
  {
    if ls == [] || Step(s, ls[0]).None? then 0
    else Bit(TestsOpen(s, ls[0])) + Tests(Step(s, ls[0]).value, ls[1..])
  }

  function CallCount(s: State, ls: seq<Label>): nat
    decreases |ls|
  {
    if ls == [] || Step(s, ls[0]).None? then 0
    else Bit(Calls(s, ls[0])) + CallCount(Step(s, ls[0]).value, ls[1..])
  }

  function AnswerCount(s: State, ls: seq<Label>): nat
    decreases |ls|
  {
    if ls == [] || Step(s, ls[0]).None? then 0
    else Bit(Answers(s, ls[0])) + AnswerCount(Step(s, ls[0]).value, ls[1..])
  }

  lemma RecvGateCalls(s: State, g: GatePc)
    requires Accounts(s) && s.recv == RGate(g) && GateStep(s, Recv, g).Some?
    ensures
      var t := GateStep(s, Recv, g).value;
      Bit(AtCall(t.recv)) == Bit(AtCall(s.recv)) + Bit(g == GTest && s.flags.read) && !t.recv.RInRecv?
  {
  }

  lemma RecvExitCalls(s: State, x: ExitPc)
    requires s.recv == RExit(x) && ExitStep(s, Recv, x).Some?
    ensures var t := ExitStep(s, Recv, x).value; !AtCall(t.recv) && !t.recv.RInRecv?
  {
  }

  lemma RecvCalls(s: State, o: Outcome)
    requires Accounts(s) && RecvStep(s, o).Some?
    ensures
      var t, l := RecvStep(s, o).value, RecvThread(o);
      && Bit(AtCall(s.recv)) + Bit(TestsOpen(s, l)) == Bit(AtCall(t.recv)) + Bit(Calls(s, l))
      && Bit(s.recv.RInRecv?) + Bit(Calls(s, l)) == Bit(t.recv.RInRecv?) + Bit(Answers(s, l))
  {
    if s.recv.RGate? {
      hide ExitStep;
      RecvGateCalls(s, s.recv.g);
    } else if s.recv.RExit? {
      hide GateStep, ExitStep;
      RecvExitCalls(s, s.recv.x);
    } else {
      hide GateStep, ExitStep, Accounts;
    }
  }

  lemma SendExitLeavesCalls(s: State, x: ExitPc)
    requires s.send == SExit(x) && ExitStep(s, Send, x).Some?
    ensures
      var t := ExitStep(s, Send, x).value;
      AtCall(t.recv) == AtCall(s.recv) && t.recv.RInRecv? == s.recv.RInRecv?
  {
  }

  lemma SendLeavesCalls(s: State, o: Outcome)
    requires SendStep(s, o).Some?
    ensures
      var t := SendStep(s, o).value;
      AtCall(t.recv) == AtCall(s.recv) && t.recv.RInRecv? == s.recv.RInRecv?
  {
    if s.send.SExit? {
      hide ExitStep;
      SendExitLeavesCalls(s, s.send.x);
    } else if s.send.SGate? {
      hide ExitStep;
    } else {
      hide GateStep, ExitStep;
    }
  }

  lemma StepCalls(s: State, l: Label)
    requires Accounts(s) && Step(s, l).Some?
    ensures
      var t := Step(s, l).value;
      && Bit(AtCall(s.recv)) + Bit(TestsOpen(s, l)) == Bit(AtCall(t.recv)) + Bit(Calls(s, l))
      && Bit(s.recv.RInRecv?) + Bit(Calls(s, l)) == Bit(t.recv.RInRecv?) + Bit(Answers(s, l))
  {
    hide RecvStep, SendStep, ClientStep, Accounts;
    match l {
      case RecvThread(o) => RecvCalls(s, o);
      case SendThread(o) => SendLeavesCalls(s, o);
      case ClientThread(id, act) => ClientFrame(s, id, act);
      case PeerSends(_) =>
    }
  }

  /** Over any run, every call of recv() has had its own test of the gate that found it open, and its
      one answer: a call that would block is not repeated without passing the gate again. */
  lemma {:induction false} OneCallPerPass(s: State, ls: seq<Label>)
    requires Inv(s) && Exec(s, ls).Some?
    ensures
      var t := Exec(s, ls).value;
      && Bit(AtCall(s.recv)) + Tests(s, ls) == Bit(AtCall(t.recv)) + CallCount(s, ls)
      && Bit(s.recv.RInRecv?) + CallCount(s, ls) == Bit(t.recv.RInRecv?) + AnswerCount(s, ls)
    decreases |ls|
  {
    hide Step, AtCall, TestsOpen, Calls, Answers;
    if ls != [] {
      StepCalls(s, ls[0]);
      StepKeepsInv(s, ls[0]);
      OneCallPerPass(Step(s, ls[0]).value, ls[1..]);
    }
  }

  predicate NoneOpens(s: State, ls: seq<Label>)
    decreases |ls|
  {
    ls != [] && Step(s, ls[0]).Some? ==> !Opens(s, ls[0]) && NoneOpens(Step(s, ls[0]).value, ls[1..])
  }

  lemma {:induction false} NoTests(s: State, ls: seq<Label>)
    requires !s.flags.read && NoneOpens(s, ls) && Exec(s, ls).Some?
    ensures Tests(s, ls) == 0 && !Exec(s, ls).value.flags.read
    decreases |ls|
  {
    hide Step, Opens, Shuts;
    if ls != [] {
      StepReadFlag(s, ls[0]);
      NoTests(Step(s, ls[0]).value, ls[1..]);
    }
  }

  /** Once a client's disbaleReadEvent has taken effect, and until somebody opens the gate, the receive
      thread makes at most the one call it had passed for already. */
  lemma DisabledReadStaysShut(s: State, l: Label, ls: seq<Label>)
    requires Reachable(s) && Does(s, l, DisableRead) && Step(s, l).Some?
    requires Exec(Step(s, l).value, ls).Some? && NoneOpens(Step(s, l).value, ls)
    ensures CallCount(Step(s, l).value, ls) <= Bit(AtCall(s.recv))
    ensures !Exec(Step(s, l).value, ls).value.flags.read
  {
    var t := Step(s, l).value;
    ReachableInv(s);
    StepKeepsInv(s, l);
    ClientFlags(s, l.id, l.act);
    ClientFrame(s, l.id, l.act);
    hide Step, Inv;
    NoTests(t, ls);
    OneCallPerPass(t, ls);
  }
}
