/** The send thread after the receive thread's exit: when it can end, when it cannot, and runs
    that show the second case happens. */
module WorkerFate {
  import opened Socket
  import opened Worker
  import opened WorkerInvariants
  import opened WorkerPredicates
  import opened WorkerSafety
  import opened WorkerShutdown

  /** What becomes of the send thread is settled when interrupt() is called on it, by whether
      it is then waiting at a gate whose flag is down. */
  lemma SenderFate(s: State, o: Outcome, ls: seq<Label>, limit: nat)
    requires Reachable(s) && s.recv == RExit(XInterrupt)
    requires Exec(RecvStep(s, o).value, ls).Some?
    ensures
      var t := RecvStep(s, o).value;
      var u := Exec(t, ls).value;
      if AtGate(s.send) && !s.flags.write then
        && (t.log.consumedEarly || t.log.withdrawnEarly)
        && (Without(t, ls, EnableWrite) ==> AtGate(u.send) && !u.flags.write && u.net.wire == t.net.wire)
      else
        Without(t, ls, DisableWrite) && Fits(t, ls, limit) ==>
          && (u.recv == RDone ==> u.send != SGate(GAsleep))
          && (u.send == SDone || CanMove(u, Thread(Send)) || HeldByAMover(u, Thread(Send)))
          && SendSteps(ls) + SendRank(u.send, limit) <= SendRank(t.send, limit) + WouldBlocks(ls)
  {
    ReachableInv(s);
    InterruptDecides(s, o);
    var t := RecvStep(s, o).value;
    StepKeepsInv(s, RecvThread(o));
    if AtGate(s.send) && !s.flags.write {
      if Without(t, ls, EnableWrite) {
        DoomedForEver(t, ls);
      }
    } else if Without(t, ls, DisableWrite) && Fits(t, ls, limit) {
      SenderEnds(t, ls, limit);
    }
  }

  /** The receive thread after the send thread's exit handler has raised the read flag. */
  lemma ReceiverFate(s: State, o: Outcome, ls: seq<Label>)
    requires Reachable(s) && s.send == SExit(XRaise)
    requires Exec(SendStep(s, o).value, ls).Some? && Without(SendStep(s, o).value, ls, DisableRead)
    ensures
      var u := Exec(SendStep(s, o).value, ls).value;
      && (u.recv == RGate(GTest) ==> u.flags.read)
      && (u.send == SDone ==> u.recv != RGate(GAsleep))
      && (u.recv == RDone || CanMove(u, Thread(Recv)) || HeldByAMover(u, Thread(Recv)))
  {
    ReachableInv(s);
    RaiseBinds(s, o);
    StepKeepsInv(s, SendThread(o));
    ReceiverEnds(SendStep(s, o).value, ls);
  }

  // ---------- exactly when the send thread can still end

  /** No client opens or shuts the write gate. */
  predicate Quiet(s: State, ls: seq<Label>) {
    Without(s, ls, EnableWrite) && Without(s, ls, DisableWrite)
  }

  /** The steps a client still needs to release the mutex that the send thread waits for. */
  function HolderWork(s: State): nat {
    var m := WaitsFor(s, Thread(Send));
    if m.Some? && m.value in s.held && s.held[m.value].Client? && s.held[m.value].id in s.clients then
      (match s.clients[s.held[m.value].id]
       case CWaiting(_) => 0
       case CHolding(_) => 2
       case CApplied(_) => 1)
    else 0
  }

  predicate NoneBegins(ls: seq<Label>) {
    forall l :: l in ls && l.ClientThread? ==> l.act == Go
  }

  lemma GoKeepsQuiet(s: State, l: Label)
    requires Inv(s) && Quiet(s, []) && Step(s, l).Some? && NoneBegins([l])
    ensures var t := Step(s, l).value; Inv(t) && Quiet(t, [])
  {
    StepKeepsInv(s, l);
    assert l in [l];
    assert [l][1..] == [];
    WithoutStep(s, [l], EnableWrite);
    WithoutStep(s, [l], DisableWrite);
  }

  lemma GoKeepsFits(s: State, l: Label, limit: nat)
    requires Fits(s, [], limit) && Step(s, l).Some? && NoneBegins([l])
    ensures Fits(Step(s, l).value, [], limit)
  {
    assert l in [l];
    assert [l][1..] == [];
    FitsStep(s, [l], limit);
  }

  /** The client that holds the mutex the send thread waits for comes closer to releasing it. */
  lemma HolderHelps(s: State, id: nat)
    requires Inv(s) && Blocked(s, Thread(Send), Client(id))
    ensures ClientStep(s, id, Go).Some?
    ensures
      var t := ClientStep(s, id, Go).value;
      t.send == s.send && HolderWork(t) < HolderWork(s)
  {
    assert Holds(s, Client(id)) == WaitsFor(s, Thread(Send));
    HolderMoves(s, Client(id));
    ClientFrame(s, id, Go);
  }

  lemma NextTowardsEnd(s: State, limit: nat) returns (l: Label)
    requires Inv(s) && SendBound(s) && s.send != SDone && Quiet(s, []) && Fits(s, [], limit)
    ensures Step(s, l).Some? && NoneBegins([l])
    ensures
      var t := Step(s, l).value;
      SendBound(t)
      && (SendRank(t.send, limit) < SendRank(s.send, limit) || (t.send == s.send && HolderWork(t) < HolderWork(s)))
  {
    var m := WaitsFor(s, Thread(Send));
    if m.Some? && m.value in s.held {
      var u := s.held[m.value];
      HolderDoesNotWait(s, Thread(Send));
      assert Holds(s, u) == Some(m.value);
      l := ClientThread(u.id, Go);
      HolderHelps(s, u.id);
      SendStaysBound(s, [l], limit);
    } else {
      l := SendThread(Error);
      SendFree(s);
      SendDescends(s, Error, limit);
    }
  }

  lemma {:induction false} RunToEnd(s: State, limit: nat) returns (ls: seq<Label>)
    requires Inv(s) && SendBound(s) && Quiet(s, []) && Fits(s, [], limit)
    ensures NoneBegins(ls) && Exec(s, ls).Some? && Exec(s, ls).value.send == SDone
    decreases SendRank(s.send, limit), HolderWork(s)
  {
    if s.send == SDone {
      ls := [];
    } else {
      var l := NextTowardsEnd(s, limit);
      GoKeepsQuiet(s, l);
      GoKeepsFits(s, l, limit);
      var rest := RunToEnd(Step(s, l).value, limit);
      ls := [l] + rest;
      assert ls[1..] == rest;
    }
  }

  /** Once interrupted, with clients leaving the write gate alone, the send thread has a run to
      its end if and only if the interrupt did not find it at a shut gate. */
  lemma SenderCanEndExactlyWhen(s: State, o: Outcome, limit: nat)
    requires Reachable(s) && s.recv == RExit(XInterrupt)
    requires Quiet(RecvStep(s, o).value, []) && Fits(RecvStep(s, o).value, [], limit)
    ensures
      var t := RecvStep(s, o).value;
      (exists ls :: Quiet(t, ls) && Exec(t, ls).Some? && Exec(t, ls).value.send == SDone)
        <==> !(AtGate(s.send) && !s.flags.write)
  {
    ReachableInv(s);
    InterruptDecides(s, o);
    var t := RecvStep(s, o).value;
    StepKeepsInv(s, RecvThread(o));
    if Doomed(t) {
      forall ls | Quiet(t, ls) && Exec(t, ls).Some?
        ensures Exec(t, ls).value.send != SDone
      {
        DoomedForEver(t, ls);
      }
    } else {
      var ls := RunToEnd(t, limit);
      assert Quiet(t, ls);
    }
  }

  // ---------- a run that leaves the send thread asleep

  /** The send thread finds its gate shut and goes to sleep. */
  lemma Sleeps() returns (s: State)
    ensures Reachable(s) && s == Init(4, true).(send := SGate(GAsleep))
  {
    hide RecvStep, ClientStep, ExitStep;
    var w := SendThread(WouldBlock);
    ReachableInit(4, true);
    s := ReachableStep(Init(4, true), w);
    s := ReachableStep(s, w);
    s := ReachableStep(s, w);
    s := ReachableStep(s, w);
    assert s.held == map[];
  }

  /** The receive thread passes its gate, and recv() finds the peer gone. */
  lemma PeerGone() returns (s: State)
    ensures Reachable(s) && s == Init(4, true).(send := SGate(GAsleep), recv := RExit(XLock))
  {
    hide SendStep, ClientStep, ExitStep;
    var r := RecvThread(WouldBlock);
    s := Sleeps();
    s := ReachableStep(s, r);
    s := ReachableStep(s, r);
    s := ReachableStep(s, r);
    s := ReachableStep(s, r);
    s := ReachableStep(s, r);
    assert s.held == map[];
    s := ReachableStep(s, r);
    s := ReachableStep(s, RecvThread(Moved(0)));
  }

  /** Its exit handler closes the descriptor. */
  lemma Closed() returns (s: State)
    ensures Reachable(s)
    ensures s == Init(4, true).(
      recv := RExit(XLockGate), send := SGate(GAsleep), ctx := Context(INVALID_FD, [], []))
  {
    hide SendStep, ClientStep, GateStep;
    var r := RecvThread(WouldBlock);
    s := PeerGone();
    s := ReachableStep(s, r);
    s := ReachableStep(s, r);
    s := ReachableStep(s, r);
    s := ReachableStep(s, r);
    assert s.held == map[];
  }

  /** It raises the write flag. */
  lemma ToTheInterrupt() returns (s: State)
    ensures Reachable(s)
    ensures s == Init(4, true).(
      recv := RExit(XInterrupt), send := SGate(GAsleep), ctx := Context(INVALID_FD, [], []),
      flags := Flags(true, true, false, false), log := Log(1, 0, {[]}, [], false, false))
  {
    hide SendStep, ClientStep, GateStep;
    var r := RecvThread(WouldBlock);
    s := Closed();
    s := ReachableStep(s, r);
    s := ReachableStep(s, r);
    s := ReachableStep(s, r);
    assert s.held == map[];
  }

  /** The send thread, spuriously woken, consumes the flag. */
  lemma Consumes() returns (s: State)
    ensures Reachable(s)
    ensures s == Init(4, true).(
      recv := RExit(XInterrupt), send := SLockResponse, ctx := Context(INVALID_FD, [], []),
      flags := Flags(true, false, false, false), log := Log(1, 1, {[]}, [], true, false))
  {
    hide RecvStep, ClientStep, ExitStep;
    var w := SendThread(WouldBlock);
    s := ToTheInterrupt();
    s := ReachableStep(s, w);
    s := ReachableStep(s, w);
    s := ReachableStep(s, w);
    s := ReachableStep(s, w);
    s := ReachableStep(s, w);
    assert s.held == map[];
  }

  /** It sends the empty response, which succeeds although the descriptor is closed. */
  lemma SendsNothing() returns (s: State)
    ensures Reachable(s)
    ensures s == Init(4, true).(
      recv := RExit(XInterrupt), send := SGate(GPoint), ctx := Context(INVALID_FD, [], []),
      flags := Flags(true, false, false, false), log := Log(1, 1, {[]}, [[]], true, false))
  {
    hide RecvStep, ClientStep, ExitStep;
    var w := SendThread(WouldBlock);
    s := Consumes();
    s := ReachableStep(s, w);
    s := ReachableStep(s, w);
    s := ReachableStep(s, w);
    assert s.held == map[];
    s := ReachableStep(s, w);
    s := ReachableStep(s, w);
  }

  /** It passes its interruption point and sleeps again. */
  lemma SleepsAgain() returns (s: State)
    ensures Reachable(s)
    ensures s == Init(4, true).(
      recv := RExit(XInterrupt), send := SGate(GAsleep), ctx := Context(INVALID_FD, [], []),
      flags := Flags(true, false, false, false), log := Log(1, 1, {[]}, [[]], true, false))
  {
    hide RecvStep, ClientStep, ExitStep;
    var w := SendThread(WouldBlock);
    s := SendsNothing();
    s := ReachableStep(s, w);
    s := ReachableStep(s, w);
    s := ReachableStep(s, w);
    assert s.held == map[];
  }

  /** The interrupt and the notify come too late. */
  lemma WokenTooLate() returns (s: State)
    ensures Reachable(s)
    ensures s == Init(4, true).(
      recv := RDone, send := SGate(GWoken), ctx := Context(INVALID_FD, [], []),
      flags := Flags(true, false, false, true), log := Log(1, 1, {[]}, [[]], true, false))
  {
    hide SendStep, ClientStep, GateStep;
    var r := RecvThread(WouldBlock);
    s := SleepsAgain();
    s := ReachableStep(s, r);
    s := ReachableStep(s, r);
  }

  /** "Once the receive thread has left, so does the send thread" is false. The peer closes;
      the receive thread raises the write flag; the send thread, spuriously woken, consumes
      it, sends the empty response and is back at its gate before the interrupt. */
  lemma DoomWitness()
    ensures exists s ::
      Reachable(s) && s.recv == RDone && s.send == SGate(GAsleep) && Doomed(s)
      && s.log.consumedEarly && !s.log.withdrawnEarly && s.clients == map[]
  {
    var w := SendThread(WouldBlock);
    var s := WokenTooLate();
    s := ReachableStep(s, w);
    s := ReachableStep(s, w);
    assert s.send == SGate(GAsleep);
  }
}
