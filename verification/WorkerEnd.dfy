/** From which states both threads of a worker can still return: always, if a client may raise the
    write gate again; and if clients leave that gate alone, exactly unless the send thread is back
    at its gate with the flag that the receive thread's exit handler raised for it. */
module WorkerEnd {
  import opened Socket
  import opened Worker
  import opened WorkerPredicates
  import opened WorkerInvariants
  import opened WorkerSafety
  import opened WorkerShutdown
  import opened WorkerFate

  /** Both threads have returned. */
  predicate Over(s: State) { s.recv.RDone? && s.send.SDone? }

  predicate CanEnd(s: State, ls: seq<Label>) {
    Exec(s, ls).Some? && Over(Exec(s, ls).value)
  }

  /** The receive thread's handler has raised the write flag. */
  predicate Raised(r: RecvPc) {
    r == RExit(XUnlockGate) || r == RExit(XInterrupt) || r == RExit(XNotify) || r == RDone
  }

  /** The write flag has been raised for the last time, and the send thread waits for it again. */
  predicate Lost(s: State) {
    s.castOk && Raised(s.recv) && AtGate(s.send) && !s.flags.write
  }

  // ---------- lost for ever, unless a client helps

  lemma LostStep(s: State, l: Label)
    requires Lost(s) && Without(s, [l], EnableWrite) && Step(s, l).Some?
    ensures Lost(Step(s, l).value)
  {
    match l {
      case RecvThread(o) => RaisedSteps(s, o);
      case SendThread(o) => assert SendStep(s, o) == GateStep(s, Send, s.send.g);
      case ClientThread(id, act) =>
        hide ClientStep;
        ClientFrame(s, id, act);
      case PeerSends(_) =>
    }
  }

  /** What is left of the receive thread's handler changes the send thread's sleep at most. */
  lemma RaisedSteps(s: State, o: Outcome)
    requires Raised(s.recv) && RecvStep(s, o).Some?
    ensures
      var t := RecvStep(s, o).value;
      && Raised(t.recv) && t.flags.write == s.flags.write && t.castOk == s.castOk
      && (t.send == s.send || (s.send == SGate(GAsleep) && t.send == SGate(GWoken)))
  {
    hide GateStep;
    assert RecvStep(s, o) == ExitStep(s, Recv, s.recv.x);
  }

  lemma {:induction false} LostForEver(s: State, ls: seq<Label>)
    requires Lost(s) && Without(s, ls, EnableWrite) && Exec(s, ls).Some?
    ensures Lost(Exec(s, ls).value)
    decreases |ls|
  {
    hide Step, Lost;
    if ls != [] {
      LostStep(s, ls[0]);
      WithoutStep(s, ls, EnableWrite);
      LostForEver(Step(s, ls[0]).value, ls[1..]);
    }
  }

  // ---------- runs put together

  /** Clients only finish what they have begun, or enable the read event. */
  predicate Gentle(ls: seq<Label>) {
    forall l :: l in ls && l.ClientThread? ==> l.act == Go || l.act == Begin(EnableRead)
  }

  lemma GentleIsQuiet(s: State, ls: seq<Label>)
    requires Quiet(s, []) && Gentle(ls)
    ensures Quiet(s, ls)
  {
  }

  /** The run a to t, and then the run b. */
  lemma Then(s: State, a: seq<Label>, t: State, b: seq<Label>)
    requires Exec(s, a) == Some(t)
    ensures Exec(s, a + b) == Exec(t, b)
  {
    ExecAppend(s, a, b);
  }

  lemma First(s: State, l: Label, ls: seq<Label>)
    requires Step(s, l).Some?
    ensures Exec(s, [l] + ls) == Exec(Step(s, l).value, ls)
  {
    hide Step;
    assert ([l] + ls)[1..] == ls;
  }

  // ---------- clients let go of their mutexes

  /** No client holds a mutex. */
  predicate Unheld(s: State) {
    forall m :: m in s.held ==> s.held[m].Thread?
  }

  /** The steps a client still needs to release m. */
  function ClientWork(s: State, m: MutexId): nat {
    if m in s.held && s.held[m].Client? && s.held[m].id in s.clients then
      (match s.clients[s.held[m].id]
       case CWaiting(_) => 0
       case CHolding(_) => 2
       case CApplied(_) => 1)
    else 0
  }

  function AllWork(s: State): nat {
    ClientWork(s, ReadMutex) + ClientWork(s, WriteMutex) + ClientWork(s, ContextMutex)
      + ClientWork(s, RequestMutex) + ClientWork(s, ResponseMutex)
  }

  /** The client at id applies its operation, or has applied it and releases the mutex. */
  lemma GoStep(s: State, id: nat)
    requires id in s.clients && !s.clients[id].CWaiting?
    ensures ClientStep(s, id, Go).Some?
    ensures
      var t, op := ClientStep(s, id, Go).value, s.clients[id].op;
      if s.clients[id].CHolding? then t.held == s.held && t.clients == s.clients[id := CApplied(op)]
      else t.held == s.held - {MutexOf(op)} && t.clients == s.clients - {id}
  {
  }

  lemma ReleaseStep(s: State, m: MutexId)
    requires Locks(s) && m in s.held && s.held[m].Client?
    ensures ClientStep(s, s.held[m].id, Go).Some?
    ensures
      var t := ClientStep(s, s.held[m].id, Go).value;
      && ClientWork(t, m) < ClientWork(s, m)
      && forall n :: n != m ==> ClientWork(t, n) == ClientWork(s, n)
  {
    hide ClientStep;
    var id := s.held[m].id;
    assert Holds(s, Client(id)) == Some(m);
    GoStep(s, id);
    var t := ClientStep(s, id, Go).value;
    forall n | n != m
      ensures ClientWork(t, n) == ClientWork(s, n)
    {
      assert n in s.held ==> Holds(s, s.held[n]) == Some(n);
    }
  }

  lemma ReleaseLowers(s: State, m: MutexId)
    requires Inv(s) && m in s.held && s.held[m].Client?
    ensures ClientStep(s, s.held[m].id, Go).Some?
    ensures AllWork(ClientStep(s, s.held[m].id, Go).value) < AllWork(s)
  {
    hide ClientStep, ClientWork;
    ReleaseStep(s, m);
    var t := ClientStep(s, s.held[m].id, Go).value;
    assert forall n :: ClientWork(t, n) <= ClientWork(s, n);
    assert m == ReadMutex || m == WriteMutex || m == ContextMutex || m == RequestMutex || m == ResponseMutex;
  }

  /** Under Quiet the client has nothing to do with the write gate. */
  lemma ReleaseLeavesGate(s: State, id: nat)
    requires Inv(s) && ClientStep(s, id, Go).Some? && Quiet(s, [])
    ensures ClientStep(s, id, Go).value.flags.write == s.flags.write && Quiet(ClientStep(s, id, Go).value, [])
  {
    var l := ClientThread(id, Go);
    GoKeepsQuiet(s, l);
    hide ClientStep;
    ClientFrame(s, id, Go);
  }

  lemma {:induction false} Release(s: State) returns (ls: seq<Label>, t: State)
    requires Inv(s)
    ensures Gentle(ls) && Exec(s, ls) == Some(t) && Inv(t) && Unheld(t)
    ensures t.recv == s.recv && t.send == s.send && t.castOk == s.castOk
    ensures Quiet(s, []) ==> t.flags.write == s.flags.write
    decreases AllWork(s)
  {
    hide ClientStep, AllWork, Inv, Quiet;
    if Unheld(s) {
      ls, t := [], s;
    } else {
      var m :| m in s.held && s.held[m].Client?;
      var id := s.held[m].id;
      var l := ClientThread(id, Go);
      ReleaseLowers(s, m);
      ClientFrame(s, id, Go);
      StepKeepsInv(s, l);
      if Quiet(s, []) {
        ReleaseLeavesGate(s, id);
      }
      var rest;
      rest, t := Release(Step(s, l).value);
      ls := [l] + rest;
      First(s, l, rest);
    }
  }

  // ---------- a gate opened by a new client

  lemma {:induction false} Bound(ids: set<nat>) returns (bound: nat)
    ensures forall id :: id in ids ==> id < bound
    decreases ids
  {
    if ids == {} {
      bound := 0;
    } else {
      var id :| id in ids;
      bound := Bound(ids - {id});
      forall other | other in ids
        ensures other == id || other < bound
      {
        assert other == id || other in ids - {id};
      }
      bound := bound + id + 1;
    }
  }

  lemma Begins(s: State, id: nat, op: Op) returns (t: State)
    requires id !in s.clients
    ensures Step(s, ClientThread(id, Begin(op))) == Some(t) && t == s.(clients := s.clients[id := CWaiting(op)])
  {
    t := s.(clients := s.clients[id := CWaiting(op)]);
  }

  lemma Takes(s: State, id: nat, op: Op) returns (t: State)
    requires id in s.clients && s.clients[id] == CWaiting(op) && MutexOf(op) !in s.held
    ensures Step(s, ClientThread(id, Go)) == Some(t)
    ensures t == s.(held := s.held[MutexOf(op) := Client(id)], clients := s.clients[id := CHolding(op)])
  {
    t := Step(s, ClientThread(id, Go)).value;
  }

  lemma Applies(s: State, id: nat, op: Op) returns (t: State)
    requires id in s.clients && s.clients[id] == CHolding(op)
    ensures Step(s, ClientThread(id, Go)) == Some(t)
    ensures t == Apply(s, op).(clients := s.clients[id := CApplied(op)])
  {
    t := Step(s, ClientThread(id, Go)).value;
  }

  lemma Unlocks(s: State, id: nat, op: Op) returns (t: State)
    requires id in s.clients && s.clients[id] == CApplied(op)
    ensures Step(s, ClientThread(id, Go)) == Some(t)
    ensures t == s.(held := s.held - {MutexOf(op)}, clients := s.clients - {id})
  {
    t := Step(s, ClientThread(id, Go)).value;
  }

  /** A client that is new to the worker takes the mutex, applies op and releases the mutex. */
  lemma NewClient(s: State, op: Op) returns (ls: seq<Label>, t: State)
    requires Inv(s) && MutexOf(op) !in s.held && (op == EnableRead || op == EnableWrite)
    ensures Exec(s, ls) == Some(t) && Inv(t)
    ensures t == Apply(s, op)
    ensures op == EnableRead ==> Gentle(ls)
  {
    hide Step, Exec, Inv, Gentle, Apply;
    var id := Bound(s.clients.Keys);
    assert id !in s.clients;
    var s1 := Begins(s, id, op);
    var s2 := Takes(s1, id, op);
    var s3 := Applies(s2, id, op);
    t := Unlocks(s3, id, op);
    NewClientLeaves(s, op, id, s1, s2, s3, t);
    var begin, go := ClientThread(id, Begin(op)), ClientThread(id, Go);
    ls := [begin, go, go, go];
    NewClientRuns(s, begin, go, s1, s2, s3, t);
    ExecKeepsInv(s, ls);
    NewClientIsGentle(id, op);
  }

  /** The client has come and gone: its operation has been applied, and nothing else is different. */
  lemma NewClientLeaves(s: State, op: Op, id: nat, s1: State, s2: State, s3: State, t: State)
    requires id !in s.clients && MutexOf(op) !in s.held && (op == EnableRead || op == EnableWrite)
    requires s1 == s.(clients := s.clients[id := CWaiting(op)])
    requires s2 == s1.(held := s1.held[MutexOf(op) := Client(id)], clients := s1.clients[id := CHolding(op)])
    requires s3 == Apply(s2, op).(clients := s2.clients[id := CApplied(op)])
    requires t == s3.(held := s3.held - {MutexOf(op)}, clients := s3.clients - {id})
    ensures t == Apply(s, op)
  {
    assert t.clients == s.clients;
    assert t.held == s.held;
  }

  lemma NewClientIsGentle(id: nat, op: Op)
    ensures
      var begin, go := ClientThread(id, Begin(op)), ClientThread(id, Go);
      op == EnableRead ==> Gentle([begin, go, go, go])
  {
  }

  lemma NewClientRuns(s: State, a: Label, b: Label, s1: State, s2: State, s3: State, t: State)
    requires Step(s, a) == Some(s1) && Step(s1, b) == Some(s2) && Step(s2, b) == Some(s3) && Step(s3, b) == Some(t)
    ensures Exec(s, [a, b, b, b]) == Some(t)
  {
    hide Step;
    First(s, a, [b, b, b]);
    assert [a, b, b, b] == [a] + [b, b, b];
    First(s1, b, [b, b]);
    assert [b, b, b] == [b] + [b, b];
    First(s2, b, [b]);
    assert [b, b] == [b] + [b];
    First(s3, b, []);
    assert [b] == [b] + [];
  }

  // ---------- the send thread lets go of its mutex

  /** Steps to the release of the mutex the send thread holds. */
  function HoldRank(w: SendPc): nat {
    match w
    case SGate(g) => if g == GTest then 3 else if g == GClear then 2 else if g == GUnlock then 1 else 0
    case SSnapshot => 2
    case SUnlockResponse(_) => 1
    case SExit(x) =>
      if x == XClose then 3 else if x == XAssign || x == XRaise then 2
      else if x == XUnlock || x == XUnlockGate then 1 else 0
    case SLockResponse => 0
    case SCall(_) => 0
    case SSending(_, _) => 0
    case SDone => 0
  }

  lemma SettleGate(s: State, g: GatePc)
    requires Inv(s) && s.send == SGate(g) && GateHolds(Send, g).Some?
    ensures GateStep(s, Send, g).Some?
    ensures
      var t := GateStep(s, Send, g).value;
      HoldRank(t.send) < HoldRank(s.send) && t.recv == s.recv && t.castOk == s.castOk
  {
  }

  lemma SettleExit(s: State, x: ExitPc)
    requires s.send == SExit(x) && ExitHolds(Send, x).Some?
    ensures ExitStep(s, Send, x).Some?
    ensures
      var t := ExitStep(s, Send, x).value;
      HoldRank(t.send) < HoldRank(s.send) && t.recv == s.recv && t.castOk == s.castOk
  {
  }

  lemma SettleStep(s: State)
    requires Inv(s) && SendHolds(s.send).Some?
    ensures SendStep(s, Error).Some?
    ensures
      var t := SendStep(s, Error).value;
      HoldRank(t.send) < HoldRank(s.send) && t.recv == s.recv && t.castOk == s.castOk
  {
    hide GateStep, ExitStep, Inv;
    if s.send.SGate? {
      SettleGate(s, s.send.g);
    } else if s.send.SExit? {
      SettleExit(s, s.send.x);
    }
  }

  lemma {:induction false} SettleSend(s: State) returns (ls: seq<Label>, t: State)
    requires Inv(s) && Unheld(s)
    ensures Gentle(ls) && Exec(s, ls) == Some(t) && Inv(t) && Unheld(t)
    ensures SendHolds(t.send).None? && t.recv == s.recv && t.castOk == s.castOk
    decreases HoldRank(s.send)
  {
    if SendHolds(s.send).None? {
      ls, t := [], s;
    } else {
      SettleStep(s);
      StepKeepsInv(s, SendThread(Error));
      ThreadKeepsUnheld(s, SendThread(Error));
      var rest;
      rest, t := SettleSend(SendStep(s, Error).value);
      ls := [SendThread(Error)] + rest;
      First(s, SendThread(Error), rest);
    }
  }

  lemma ThreadKeepsUnheld(s: State, l: Label)
    requires Unheld(s) && (l.RecvThread? || l.SendThread?) && Step(s, l).Some?
    ensures Unheld(Step(s, l).value)
  {
    hide RecvStep, SendStep;
    if l.RecvThread? {
      RecvFollows(s, l.o);
    } else {
      SendFollows(s, l.o);
    }
  }

  // ---------- the receive thread goes to its end

  predicate OnlyRecvHolds(s: State) {
    forall m :: m in s.held ==> s.held[m] == Thread(Recv)
  }

  /** Steps the receive thread still takes, if recv() fails and its gate is open. */
  function RecvEndRank(r: RecvPc): nat {
    match r
    case RDone => 0
    case RExit(x) => ExitRank(x)
    case RInRecv(_) => 10
    case RCall => 11
    case RGate(g) =>
      (match g
       case GUnlock => 12
       case GClear => 13
       case GTest => 13
       case GLock => 14
       case GWoken => 14
       case GAsleep => 15
       case GPoint => 16
       case GStart => 17)
    case RUnlockRequest => 17
    case RAppend(_) => 18
    case RLockRequest(_) => 19
  }

  /** Nothing is in the receive thread's way. */
  predicate RecvClear(s: State) {
    s.castOk && (Raised(s.recv) || OnlyRecvHolds(s)) && (RecvLeaving(s.recv) || s.flags.read)
  }

  lemma RecvGateClear(s: State, g: GatePc)
    requires Inv(s) && RecvClear(s) && s.recv == RGate(g)
    ensures GateStep(s, Recv, g).Some?
    ensures
      var t := GateStep(s, Recv, g).value;
      && t.castOk && (RecvLeaving(t.recv) || t.flags.read) && !Raised(t.recv) && !Lost(t)
      && RecvEndRank(t.recv) < RecvEndRank(s.recv) && t.send == s.send
  {
    HolderDoesNotWait(s, Thread(Recv));
  }

  lemma RecvExitFree(s: State, x: ExitPc)
    requires Locks(s) && RecvClear(s) && s.recv == RExit(x)
    ensures ExitStep(s, Recv, x).Some?
  {
    HolderDoesNotWait(s, Thread(Recv));
  }

  lemma RecvExitLowers(s: State, x: ExitPc)
    requires s.recv == RExit(x) && ExitStep(s, Recv, x).Some?
    ensures
      var t := ExitStep(s, Recv, x).value;
      && t.castOk == s.castOk && RecvLeaving(t.recv) && RecvEndRank(t.recv) < RecvEndRank(s.recv)
      && (Lost(t) ==> Lost(s)) && (Raised(s.recv) ==> Raised(t.recv))
  {
  }

  lemma RecvExitClear(s: State, x: ExitPc)
    requires Inv(s) && RecvClear(s) && s.recv == RExit(x)
    ensures ExitStep(s, Recv, x).Some?
    ensures
      var t := ExitStep(s, Recv, x).value;
      && t.castOk && RecvLeaving(t.recv) && RecvEndRank(t.recv) < RecvEndRank(s.recv)
      && (Lost(t) ==> Lost(s)) && (Raised(s.recv) ==> Raised(t.recv))
  {
    hide ExitStep, Lost;
    RecvExitFree(s, x);
    RecvExitLowers(s, x);
  }

  lemma RecvPlainClear(s: State)
    requires Inv(s) && RecvClear(s) && !RecvLeaving(s.recv) && !s.recv.RGate?
    ensures RecvStep(s, Error).Some?
    ensures
      var t := RecvStep(s, Error).value;
      && t.castOk && (RecvLeaving(t.recv) || t.flags.read) && !Raised(t.recv) && !Lost(t)
      && RecvEndRank(t.recv) < RecvEndRank(s.recv) && t.send == s.send
  {
    hide GateStep, ExitStep;
    HolderDoesNotWait(s, Thread(Recv));
  }

  lemma RecvClearStep(s: State)
    requires Inv(s) && RecvClear(s) && s.recv != RDone
    ensures RecvStep(s, Error).Some?
    ensures
      var t := RecvStep(s, Error).value;
      Inv(t) && RecvClear(t) && RecvEndRank(t.recv) < RecvEndRank(s.recv) && (Lost(t) ==> Lost(s))
  {
    hide GateStep, ExitStep, Inv, Lost, RecvEndRank;
    if s.recv.RGate? {
      RecvGateClear(s, s.recv.g);
    } else if s.recv.RExit? {
      RecvExitClear(s, s.recv.x);
    } else {
      RecvPlainClear(s);
    }
    if OnlyRecvHolds(s) {
      RecvKeepsOnly(s);
    }
    StepKeepsInv(s, RecvThread(Error));
  }

  lemma RecvKeepsOnly(s: State)
    requires RecvStep(s, Error).Some? && OnlyRecvHolds(s)
    ensures OnlyRecvHolds(RecvStep(s, Error).value)
  {
    hide RecvStep;
    RecvFollows(s, Error);
  }

  lemma {:induction false} RecvAlone(s: State) returns (ls: seq<Label>, t: State)
    requires Inv(s) && RecvClear(s)
    ensures Gentle(ls) && Exec(s, ls) == Some(t) && Inv(t)
    ensures t.castOk && t.recv == RDone && (Lost(t) ==> Lost(s)) && (Unheld(s) ==> Unheld(t))
    decreases RecvEndRank(s.recv)
  {
    if s.recv == RDone {
      ls, t := [], s;
    } else {
      RecvClearStep(s);
      if Unheld(s) {
        ThreadKeepsUnheld(s, RecvThread(Error));
      }
      var rest;
      rest, t := RecvAlone(RecvStep(s, Error).value);
      ls := [RecvThread(Error)] + rest;
      First(s, RecvThread(Error), rest);
    }
  }

  /** The read gate opened, for a receive thread that still has to pass it. */
  lemma OpenRead(s: State) returns (ls: seq<Label>, t: State)
    requires Inv(s) && s.castOk && OnlyRecvHolds(s) && !Raised(s.recv)
    ensures Gentle(ls) && Exec(s, ls) == Some(t) && Inv(t)
    ensures RecvClear(t) && !Raised(t.recv) && OnlyRecvHolds(t)
  {
    if RecvLeaving(s.recv) || s.flags.read {
      ls, t := [], s;
    } else if ReadMutex !in s.held {
      ls, t := NewClient(s, EnableRead);
    } else {
      assert RecvHolds(s.recv) == Some(ReadMutex) by {
        assert Holds(s, s.held[ReadMutex]) == Some(ReadMutex);
      }
      var l := RecvThread(Error);
      var next := ReadMutexReleased(s);
      var rest;
      rest, t := NewClient(next, EnableRead);
      ls := [l] + rest;
      First(s, l, rest);
    }
  }

  /** The receive thread at its shut gate goes to sleep; past its test, it unlocks. */
  lemma ReadMutexReleased(s: State) returns (t: State)
    requires Inv(s) && OnlyRecvHolds(s) && !s.flags.read && !RecvLeaving(s.recv) && RecvHolds(s.recv) == Some(ReadMutex)
    ensures Step(s, RecvThread(Error)) == Some(t) && Inv(t)
    ensures t.castOk == s.castOk && OnlyRecvHolds(t) && ReadMutex !in t.held && !RecvLeaving(t.recv)
  {
    hide ExitStep;
    StepKeepsInv(s, RecvThread(Error));
    t := RecvStep(s, Error).value;
    RecvFollows(s, Error);
  }

  // ---------- the send thread goes to its end

  lemma SendNotBlocked(s: State)
    requires Inv(s) && Unheld(s) && s.recv == RDone && s.send != SDone
    ensures CanMove(s, Thread(Send))
  {
    var m := WaitsFor(s, Thread(Send));
    if m.Some? && m.value in s.held {
      assert Holds(s, s.held[m.value]) == m;
      HolderDoesNotWait(s, Thread(Send));
    }
    SendFree(s);
  }

  lemma {:induction false} SendAlone(s: State) returns (ls: seq<Label>)
    requires Inv(s) && SendBound(s) && s.recv == RDone && Unheld(s)
    ensures Gentle(ls) && CanEnd(s, ls)
    decreases SendRank(s.send, |s.ctx.response|)
  {
    if s.send == SDone {
      ls := [];
    } else {
      var l := SendThread(Error);
      SendNotBlocked(s);
      SendDescends(s, Error, |s.ctx.response|);
      SendSameResponse(s, Error);
      SendFollows(s, Error);
      ThreadKeepsUnheld(s, l);
      StepKeepsInv(s, l);
      BoundKeepsDone(s);
      var rest := SendAlone(SendStep(s, Error).value);
      ls := [l] + rest;
      First(s, l, rest);
    }
  }

  lemma BoundKeepsDone(s: State)
    requires s.recv == RDone && SendStep(s, Error).Some?
    ensures SendStep(s, Error).value.recv == RDone
  {
    if s.send.SGate? {
      hide ExitStep;
    } else if s.send.SExit? {
      hide GateStep;
    } else {
      hide GateStep, ExitStep;
    }
  }

  /** With the receive thread gone, and the flag up if it is still at its gate, the send thread
      ends: a spurious wakeup does where no notify will come. */
  lemma SendEnds(s: State) returns (ls: seq<Label>)
    requires Inv(s) && s.castOk && s.recv == RDone && Unheld(s) && !Lost(s)
    ensures Gentle(ls) && CanEnd(s, ls)
  {
    if s.send == SGate(GAsleep) {
      var l := SendThread(Error);
      StepKeepsInv(s, l);
      var rest := SendAlone(Step(s, l).value);
      ls := [l] + rest;
      First(s, l, rest);
    } else {
      ls := SendAlone(s);
    }
  }

  // ---------- results

  lemma OnlyRecvIsLeft(s: State)
    requires Inv(s) && Unheld(s) && SendHolds(s.send).None?
    ensures OnlyRecvHolds(s)
  {
    forall m | m in s.held
      ensures s.held[m] == Thread(Recv)
    {
      assert Holds(s, s.held[m]) == Some(m);
    }
  }

  /** The receive thread's way to its exit, before it has raised the write flag. */
  lemma RecvEnds(s: State) returns (ls: seq<Label>, t: State)
    requires Inv(s) && s.castOk && Unheld(s) && !Lost(s)
    ensures Gentle(ls) && Exec(s, ls) == Some(t) && Inv(t) && t.castOk && t.recv == RDone && Unheld(t) && !Lost(t)
  {
    if Raised(s.recv) {
      ls, t := RecvAlone(s);
    } else {
      var a, settled := SettleSend(s);
      OnlyRecvIsLeft(settled);
      var b, open := OpenRead(settled);
      var c;
      c, t := RecvAlone(open);
      Then(s, a, settled, b + c);
      Then(settled, b, open, c);
      ls := a + (b + c);
    }
  }

  lemma EndsUnlessLost(s: State) returns (ls: seq<Label>)
    requires Inv(s) && s.castOk && Unheld(s) && !Lost(s)
    ensures Gentle(ls) && CanEnd(s, ls)
  {
    var a, t := RecvEnds(s);
    var b := SendEnds(t);
    Then(s, a, t, b);
    ls := a + b;
  }

  /** Without an IPv4 context both threads return at once. */
  lemma EndsWithoutCast(s: State) returns (ls: seq<Label>)
    requires Inv(s) && !s.castOk
    ensures Gentle(ls) && CanEnd(s, ls)
  {
    hide RecvStep, SendStep;
    var a, t := RecvReturns(s);
    var b;
    b, t := SendReturns(t);
    ls := a + b;
    Then(s, a, Exec(s, a).value, b);
  }

  lemma RecvReturns(s: State) returns (ls: seq<Label>, t: State)
    requires Cast(s) && !s.castOk
    ensures Gentle(ls) && Exec(s, ls) == Some(t) && Cast(t) && !t.castOk && t.recv == RDone
  {
    ls, t := [], s;
    if s.recv != RDone {
      ls, t := [RecvThread(Error)], s.(recv := RDone);
      assert RecvStep(s, Error) == Some(t);
      First(s, RecvThread(Error), []);
      assert ls == ls + [];
    }
  }

  lemma SendReturns(s: State) returns (ls: seq<Label>, t: State)
    requires Cast(s) && !s.castOk && s.recv == RDone
    ensures Gentle(ls) && Exec(s, ls) == Some(t) && Over(t)
  {
    ls, t := [], s;
    if s.send != SDone {
      ls, t := [SendThread(Error)], s.(send := SDone);
      assert SendStep(s, Error) == Some(t);
      First(s, SendThread(Error), []);
      assert ls == ls + [];
    }
  }

  /** From any state that arises, the threads can still return, if clients may help. */
  lemma AlwaysCanEnd(s: State) returns (ls: seq<Label>)
    requires Reachable(s)
    ensures CanEnd(s, ls)
  {
    ReachableInv(s);
    var a, t := Release(s);
    var b;
    if !t.castOk {
      b := EndsWithoutCast(t);
    } else if !Lost(t) {
      b := EndsUnlessLost(t);
    } else {
      b := EndsWithHelp(t);
    }
    Then(s, a, t, b);
    ls := a + b;
  }

  /** A client raises the write gate once more. */
  lemma EndsWithHelp(s: State) returns (ls: seq<Label>)
    requires Inv(s) && Unheld(s) && Lost(s)
    ensures CanEnd(s, ls)
  {
    var a, left := RecvAlone(s);
    var b, settled := SettleSend(left);
    OnlyRecvIsLeft(settled);
    assert forall m :: m in settled.held ==> Holds(settled, settled.held[m]) == Some(m);
    var c, raised := NewClient(settled, EnableWrite);
    var d := SendEnds(raised);
    Then(s, a, left, b + (c + d));
    Then(left, b, settled, c + d);
    Then(settled, c, raised, d);
    ls := a + (b + (c + d));
  }

  /** With clients leaving the write gate alone, the two threads have a way to return if and only
      if the send thread is not at its gate with the flag down after the receive thread's handler
      has raised it. */
  lemma CanEndQuietlyExactlyWhen(s: State)
    requires Reachable(s)
    ensures (exists ls :: Quiet(s, ls) && CanEnd(s, ls)) <==> Quiet(s, []) && !Lost(s)
  {
    ReachableInv(s);
    if ls :| Quiet(s, ls) && CanEnd(s, ls) {
      if Lost(s) {
        LostForEver(s, ls);
      }
    }
    if Quiet(s, []) && !Lost(s) {
      var ls := EndsQuietly(s);
      assert Quiet(s, ls) && CanEnd(s, ls);
    }
  }

  lemma EndsQuietly(s: State) returns (ls: seq<Label>)
    requires Inv(s) && Quiet(s, []) && !Lost(s)
    ensures Quiet(s, ls) && CanEnd(s, ls)
  {
    var a, t := Release(s);
    var b;
    if t.castOk {
      b := EndsUnlessLost(t);
    } else {
      b := EndsWithoutCast(t);
    }
    Then(s, a, t, b);
    ls := a + b;
    GentleIsQuiet(s, ls);
  }
}
