/** What enableReadEvent achieves. Like the write gate's enabling it notifies nobody, so it leads to
    another recv() exactly if the receive thread is not asleep at its gate already. */
module ReadGate {
  import opened Socket
  import opened Worker
  import opened WorkerPredicates
  import opened WorkerInvariants
  import opened WorkerSafety
  import opened WorkerShutdown
  import opened WorkerFate
  import opened WorkerEnd

  /** What can end the receive thread's sleep: a spurious wakeup, and the notify that ends the send
      thread's exit handler. */
  predicate Wakes(s: State, l: Label) {
    (l.RecvThread? && s.recv == RGate(GAsleep)) || (l.SendThread? && s.send == SExit(XNotify))
  }

  /** Neither happens in the run ls from s. */
  predicate Unwoken(s: State, ls: seq<Label>)
    decreases |ls|
  {
    ls != [] && Step(s, ls[0]).Some? ==> !Wakes(s, ls[0]) && Unwoken(Step(s, ls[0]).value, ls[1..])
  }

  /** In the run ls from s the receive thread calls recv(). */
  predicate Calls(s: State, ls: seq<Label>)
    decreases |ls|
  {
    && ls != [] && Step(s, ls[0]).Some?
    && ((ls[0].RecvThread? && s.recv == RCall) || Calls(Step(s, ls[0]).value, ls[1..]))
  }

  // ---------- asleep

  predicate StillDeaf(s: State, t: State) {
    t.recv == s.recv && t.ctx.request == s.ctx.request && s.net.incoming <= t.net.incoming
  }

  lemma GateSleepsThrough(s: State, g: GatePc)
    requires s.send == SGate(g) && GateStep(s, Send, g).Some?
    ensures StillDeaf(s, GateStep(s, Send, g).value)
  {
  }

  lemma ExitSleepsThrough(s: State, x: ExitPc)
    requires s.send == SExit(x) && x != XNotify && ExitStep(s, Send, x).Some?
    ensures StillDeaf(s, ExitStep(s, Send, x).value)
  {
  }

  lemma SendSleepsThrough(s: State, o: Outcome)
    requires s.send != SExit(XNotify) && SendStep(s, o).Some?
    ensures StillDeaf(s, SendStep(s, o).value)
  {
    hide GateStep, ExitStep;
    match s.send {
      case SGate(g) => GateSleepsThrough(s, g);
      case SExit(x) => ExitSleepsThrough(s, x);
      case SLockResponse =>
      case SSnapshot =>
      case SUnlockResponse(_) =>
      case SCall(_) =>
      case SSending(_, _) =>
      case SDone =>
    }
  }

  lemma StepSleepsThrough(s: State, l: Label)
    requires s.recv == RGate(GAsleep) && Step(s, l).Some? && !Wakes(s, l)
    ensures StillDeaf(s, Step(s, l).value)
  {
    hide RecvStep, SendStep, ClientStep;
    match l {
      case SendThread(o) => SendSleepsThrough(s, o);
      case ClientThread(id, act) => ClientFrame(s, id, act);
      case PeerSends(_) =>
    }
  }

  /** A sleeping receive thread is not reached by any enabling: whatever clients and the peer do,
      and however far the send thread gets short of its last notify, the thread stays asleep and
      takes nothing of what arrives. */
  lemma {:induction false} SleepsThrough(s: State, ls: seq<Label>)
    requires s.recv == RGate(GAsleep) && Unwoken(s, ls) && Exec(s, ls).Some?
    ensures
      var t := Exec(s, ls).value;
      t.recv == RGate(GAsleep) && t.ctx.request == s.ctx.request && s.net.incoming <= t.net.incoming
    decreases |ls|
  {
    if ls != [] {
      StepSleepsThrough(s, ls[0]);
      SleepsThrough(Step(s, ls[0]).value, ls[1..]);
    }
  }

  /** A client shuts the read gate. */
  lemma Shut() returns (s: State)
    ensures Reachable(s) && s == Init(4, true).(flags := Flags(false, false, false, false))
  {
    hide RecvStep, SendStep;
    var go := ClientThread(0, Go);
    ReachableInit(4, true);
    s := ReachableStep(Init(4, true), ClientThread(0, Begin(DisableRead)));
    s := ReachableStep(s, go);
    s := ReachableStep(s, go);
    s := ReachableStep(s, go);
    assert s.clients == map[] && s.held == map[];
  }

  /** The receive thread goes to sleep at it. */
  lemma ShutOut() returns (s: State)
    ensures Reachable(s) && s == Init(4, true).(recv := RGate(GAsleep), flags := Flags(false, false, false, false))
  {
    hide SendStep, ClientStep, ExitStep;
    var r := RecvThread(WouldBlock);
    s := Shut();
    s := ReachableStep(s, r);
    s := ReachableStep(s, r);
    s := ReachableStep(s, r);
    s := ReachableStep(s, r);
    assert s.held == map[];
  }

  /** Enabling the read event again does not wake it. */
  lemma EnabledInVain()
    ensures exists s ::
      Reachable(s) && s.castOk && s.recv == RGate(GAsleep) && s.flags.read && s.send == SGate(GStart)
      && s.clients == map[] && s.held == map[]
  {
    hide RecvStep, SendStep;
    var go := ClientThread(0, Go);
    var s := ShutOut();
    s := ReachableStep(s, ClientThread(0, Begin(EnableRead)));
    s := ReachableStep(s, go);
    s := ReachableStep(s, go);
    s := ReachableStep(s, go);
    assert s.clients == map[] && s.held == map[];
  }

  // ---------- a connection in service

  predicate InService(s: State) { !RecvLeaving(s.recv) && !SendLeaving(s.send) }

  /** As long as no thread is leaving, the receive thread is not interrupted, and the descriptor it
      reads and the one it receives from are open. */
  predicate Serving(s: State) {
    InService(s) ==>
      && !s.flags.recvInterrupt && s.ctx.fd != INVALID_FD
      && (s.recv.RInRecv? ==> s.recv.fd != INVALID_FD)
  }

  lemma GateKeepsServing(s: State, side: Side, g: GatePc)
    requires Serving(s) && GateStep(s, side, g).Some?
    requires if side == Recv then s.recv == RGate(g) else s.send == SGate(g)
    ensures Serving(GateStep(s, side, g).value)
  {
  }

  lemma ExitKeepsServing(s: State, side: Side, x: ExitPc)
    requires ExitStep(s, side, x).Some?
    requires if side == Recv then s.recv == RExit(x) else s.send == SExit(x)
    ensures Serving(ExitStep(s, side, x).value)
  {
  }

  lemma RecvKeepsServing(s: State, o: Outcome)
    requires Serving(s) && RecvStep(s, o).Some?
    ensures Serving(RecvStep(s, o).value)
  {
    if s.recv.RExit? {
      ExitKeepsServing(s, Recv, s.recv.x);
    } else if s.recv.RGate? {
      GateKeepsServing(s, Recv, s.recv.g);
    } else {
      hide GateStep, ExitStep;
    }
  }

  lemma SendKeepsServing(s: State, o: Outcome)
    requires Serving(s) && SendStep(s, o).Some?
    ensures Serving(SendStep(s, o).value)
  {
    if s.send.SExit? {
      ExitKeepsServing(s, Send, s.send.x);
    } else if s.send.SGate? {
      GateKeepsServing(s, Send, s.send.g);
    } else {
      hide GateStep, ExitStep;
    }
  }

  lemma ClientKeepsServing(s: State, id: nat, act: ClientAct)
    requires Serving(s) && ClientStep(s, id, act).Some?
    ensures Serving(ClientStep(s, id, act).value)
  {
    hide ClientStep;
    ClientFrame(s, id, act);
  }

  lemma StepKeepsServing(s: State, l: Label)
    requires Serving(s) && Step(s, l).Some?
    ensures Serving(Step(s, l).value)
  {
    hide RecvStep, SendStep, ClientStep;
    match l {
      case RecvThread(o) => RecvKeepsServing(s, o);
      case SendThread(o) => SendKeepsServing(s, o);
      case ClientThread(id, act) => ClientKeepsServing(s, id, act);
      case PeerSends(_) =>
    }
  }

  lemma {:induction false} ExecKeepsServing(s: State, ls: seq<Label>)
    requires Serving(s) && Exec(s, ls).Some?
    ensures Serving(Exec(s, ls).value)
    decreases |ls|
  {
    if ls != [] {
      StepKeepsServing(s, ls[0]);
      ExecKeepsServing(Step(s, ls[0]).value, ls[1..]);
    }
  }

  lemma ReachableServing(s: State)
    requires Reachable(s)
    ensures Serving(s)
  {
    var fd, castOk, ls :| fd != INVALID_FD && Exec(Init(fd, castOk), ls) == Some(s);
    ExecKeepsServing(Init(fd, castOk), ls);
  }

  // ---------- awake

  /** No client opens or shuts the read gate. */
  predicate ReadQuiet(s: State, ls: seq<Label>) {
    Without(s, ls, EnableRead) && Without(s, ls, DisableRead)
  }

  lemma GoKeepsReadQuiet(s: State, l: Label)
    requires Inv(s) && ReadQuiet(s, []) && Step(s, l).Some? && NoneBegins([l])
    ensures var t := Step(s, l).value; Inv(t) && ReadQuiet(t, [])
  {
    hide Step, Inv;
    StepKeepsInv(s, l);
    assert l in [l];
    assert [l][1..] == [];
    WithoutStep(s, [l], EnableRead);
    WithoutStep(s, [l], DisableRead);
  }

  /** Steps the receive thread still takes at most before it calls recv(), when one in progress
      would block. */
  function CallRank(r: RecvPc): nat {
    match r
    case RCall => 1
    case RGate(g) =>
      (match g
       case GUnlock => 2
       case GTest => 3
       case GLock => 4
       case GWoken => 4
       case GPoint => 5
       case GStart => 6
       case GAsleep => 0
       case GClear => 0)
    case RInRecv(_) => 6
    case RUnlockRequest => 6
    case RAppend(_) => 7
    case RLockRequest(_) => 8
    case RExit(_) => 0
    case RDone => 0
  }

  predicate Awake(s: State) {
    s.castOk && InService(s) && Serving(s) && s.recv != RGate(GAsleep) && s.flags.read
  }

  lemma GateOnward(s: State, g: GatePc)
    requires Inv(s) && Awake(s) && s.recv == RGate(g) && GateStep(s, Recv, g).Some?
    ensures var t := GateStep(s, Recv, g).value; Awake(t) && CallRank(t.recv) < CallRank(s.recv)
  {
  }

  lemma StepOnward(s: State)
    requires Inv(s) && Awake(s) && s.recv != RCall && RecvStep(s, WouldBlock).Some?
    ensures var t := RecvStep(s, WouldBlock).value; Awake(t) && CallRank(t.recv) < CallRank(s.recv)
  {
    hide ExitStep;
    if s.recv.RGate? {
      GateOnward(s, s.recv.g);
    } else {
      hide GateStep, Inv;
    }
  }

  /** The steps a client still needs to release the mutex that the receive thread waits for. */
  function HoldersWork(s: State): nat {
    var m := WaitsFor(s, Thread(Recv));
    if m.Some? then ClientWork(s, m.value) else 0
  }

  lemma HolderOnward(s: State, m: MutexId)
    requires Inv(s) && Awake(s) && ReadQuiet(s, []) && WaitsFor(s, Thread(Recv)) == Some(m)
    requires m in s.held && s.held[m].Client?
    ensures ClientStep(s, s.held[m].id, Go).Some?
    ensures
      var t := ClientStep(s, s.held[m].id, Go).value;
      Awake(t) && t.recv == s.recv && HoldersWork(t) < HoldersWork(s)
  {
    hide ClientStep, ClientWork;
    var id := s.held[m].id;
    ReleaseStep(s, m);
    ClientFrame(s, id, Go);
    ClientKeepsServing(s, id, Go);
    assert Holds(s, Client(id)) == Some(m);
  }

  /** Nobody but a client can keep the receive thread from the mutex it needs, and not for long. */
  lemma NextOnward(s: State) returns (l: Label)
    requires Inv(s) && Awake(s) && ReadQuiet(s, []) && s.recv != RCall
    ensures Step(s, l).Some? && NoneBegins([l]) && !Wakes(s, l)
    ensures
      var t := Step(s, l).value;
      && Awake(t)
      && (CallRank(t.recv) < CallRank(s.recv) || (t.recv == s.recv && HoldersWork(t) < HoldersWork(s)))
  {
    var m := WaitsFor(s, Thread(Recv));
    if m.Some? && m.value in s.held {
      var u := s.held[m.value];
      HolderDoesNotWait(s, Thread(Recv));
      assert Holds(s, u) == Some(m.value);
      l := ClientThread(u.id, Go);
      HolderOnward(s, m.value);
    } else {
      l := RecvThread(WouldBlock);
      RecvFree(s);
      StepOnward(s);
    }
  }

  lemma {:induction false} RunToCall(s: State) returns (ls: seq<Label>)
    requires Inv(s) && Awake(s) && ReadQuiet(s, [])
    ensures NoneBegins(ls) && Unwoken(s, ls) && Exec(s, ls).Some? && Calls(s, ls)
    decreases CallRank(s.recv), HoldersWork(s)
  {
    if s.recv == RCall {
      ls := [RecvThread(WouldBlock)];
      assert ls[1..] == [];
    } else {
      hide Inv, Awake, CallRank, HoldersWork;
      var l := NextOnward(s);
      GoKeepsReadQuiet(s, l);
      var rest := RunToCall(Step(s, l).value);
      ls := [l] + rest;
      assert ls[1..] == rest;
    }
  }

  // ---------- when an enabling leads to another recv()

  /** Asleep, leaving, or without an IPv4 context. */
  predicate Deaf(s: State) {
    s.recv == RGate(GAsleep) || RecvLeaving(s.recv) || !s.castOk
  }

  lemma ExitStaysLeaving(s: State, x: ExitPc)
    requires s.recv == RExit(x) && ExitStep(s, Recv, x).Some?
    ensures RecvLeaving(ExitStep(s, Recv, x).value.recv)
  {
  }

  lemma RecvStaysDeaf(s: State, o: Outcome)
    requires Cast(s) && Deaf(s) && s.recv != RGate(GAsleep) && RecvStep(s, o).Some?
    ensures Deaf(RecvStep(s, o).value)
  {
    if s.recv.RExit? {
      ExitStaysLeaving(s, s.recv.x);
    } else {
      assert RecvStep(s, o) == Some(s.(recv := RDone));
    }
  }

  lemma StaysDeaf(s: State, l: Label)
    requires Inv(s) && Deaf(s) && Step(s, l).Some? && !Wakes(s, l)
    ensures Deaf(Step(s, l).value)
  {
    hide RecvStep, SendStep, ClientStep;
    StepKeepsCast(s, l);
    match l {
      case RecvThread(o) => RecvStaysDeaf(s, o);
      case SendThread(o) => SendSleepsThrough(s, o);
      case ClientThread(id, act) => ClientFrame(s, id, act);
      case PeerSends(_) =>
    }
  }

  lemma {:induction false} DeafNeverCalls(s: State, ls: seq<Label>)
    requires Inv(s) && Deaf(s) && Unwoken(s, ls) && Exec(s, ls).Some?
    ensures !Calls(s, ls)
    decreases |ls|
  {
    hide Step;
    if ls != [] {
      StaysDeaf(s, ls[0]);
      StepKeepsInv(s, ls[0]);
      DeafNeverCalls(Step(s, ls[0]).value, ls[1..]);
    }
  }

  /** "A raised read gate leads to another recv()" is false. While the send thread serves the
      connection and clients leave the gate alone, a run to another call in which nothing wakes the
      receive thread exists if and only if the thread is not asleep already (and has not left, and
      was not kept from starting for want of an IPv4 context). */
  lemma ReceivesExactlyWhenAwake(s: State)
    requires Reachable(s) && s.flags.read && ReadQuiet(s, []) && !SendLeaving(s.send)
    ensures
      (exists ls :: ReadQuiet(s, ls) && Unwoken(s, ls) && Exec(s, ls).Some? && Calls(s, ls))
        <==> s.castOk && s.recv != RGate(GAsleep) && !RecvLeaving(s.recv)
  {
    ReachableInv(s);
    ReachableServing(s);
    if Deaf(s) {
      forall ls | Unwoken(s, ls) && Exec(s, ls).Some?
        ensures !Calls(s, ls)
      {
        DeafNeverCalls(s, ls);
      }
    } else {
      var ls := RunToCall(s);
      assert ReadQuiet(s, ls);
    }
  }
}
