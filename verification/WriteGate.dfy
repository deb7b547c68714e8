/** What enableWriteEvent achieves. It raises the flag of the write gate and notifies nobody, so
    it leads to a transmission exactly if the send thread is not asleep at the gate already. */
module WriteGate {
  import opened Socket
  import opened Worker
  import opened WorkerPredicates
  import opened WorkerInvariants
  import opened WorkerSafety
  import opened WorkerShutdown
  import opened WorkerFate

  /** What can end the send thread's sleep: a spurious wakeup, and the notify that ends the
      receive thread's exit handler. */
  predicate Wakes(s: State, l: Label) {
    (l.SendThread? && s.send == SGate(GAsleep)) || (l.RecvThread? && s.recv == RExit(XNotify))
  }

  /** Neither happens in the run ls from s. */
  predicate Unwoken(s: State, ls: seq<Label>)
    decreases |ls|
  {
    ls != [] && Step(s, ls[0]).Some? ==> !Wakes(s, ls[0]) && Unwoken(Step(s, ls[0]).value, ls[1..])
  }

  // ---------- asleep

  predicate StillSilent(s: State, t: State) {
    t.send == s.send && t.net.wire == s.net.wire && t.log.snapshots == s.log.snapshots && t.log.passes == s.log.passes
  }

  lemma GateSleepsThrough(s: State, g: GatePc)
    requires s.recv == RGate(g) && GateStep(s, Recv, g).Some?
    ensures StillSilent(s, GateStep(s, Recv, g).value)
  {
  }

  lemma ExitSleepsThrough(s: State, x: ExitPc)
    requires s.recv == RExit(x) && x != XNotify && ExitStep(s, Recv, x).Some?
    ensures StillSilent(s, ExitStep(s, Recv, x).value)
  {
  }

  lemma RecvSleepsThrough(s: State, o: Outcome)
    requires s.recv != RExit(XNotify) && RecvStep(s, o).Some?
    ensures StillSilent(s, RecvStep(s, o).value)
  {
    hide GateStep, ExitStep;
    match s.recv {
      case RGate(g) => GateSleepsThrough(s, g);
      case RExit(x) => ExitSleepsThrough(s, x);
      case RCall =>
      case RInRecv(_) =>
      case RLockRequest(_) =>
      case RAppend(_) =>
      case RUnlockRequest =>
      case RDone =>
    }
  }

  lemma StepSleepsThrough(s: State, l: Label)
    requires s.send == SGate(GAsleep) && Step(s, l).Some? && !Wakes(s, l)
    ensures StillSilent(s, Step(s, l).value)
  {
    hide RecvStep, SendStep, ClientStep;
    match l {
      case RecvThread(o) => RecvSleepsThrough(s, o);
      case ClientThread(id, act) => ClientFrame(s, id, act);
      case PeerSends(_) =>
    }
  }

  /** A sleeping send thread is not reached by any enabling: whatever clients and the peer do, and
      however far the receive thread gets short of its last notify, the thread stays asleep,
      passes no gate, takes no snapshot and sends nothing. */
  lemma {:induction false} SleepsThrough(s: State, ls: seq<Label>)
    requires s.send == SGate(GAsleep) && Unwoken(s, ls) && Exec(s, ls).Some?
    ensures
      var t := Exec(s, ls).value;
      && t.send == SGate(GAsleep) && t.net.wire == s.net.wire
      && t.log.snapshots == s.log.snapshots && t.log.passes == s.log.passes
    decreases |ls|
  {
    if ls != [] {
      StepSleepsThrough(s, ls[0]);
      SleepsThrough(Step(s, ls[0]).value, ls[1..]);
    }
  }

  /** The send thread goes to sleep before the first client enables the write event. */
  lemma EnabledInVain()
    ensures exists s ::
      Reachable(s) && s.castOk && s.send == SGate(GAsleep) && s.flags.write && s.log.enables == 1
      && s.recv == RGate(GStart) && s.clients == map[] && s.held == map[]
  {
    var s := Sleeps();
    s := ReachableStep(s, ClientThread(0, Begin(EnableWrite)));
    s := ReachableStep(s, ClientThread(0, Go));
    s := ReachableStep(s, ClientThread(0, Go));
    s := ReachableStep(s, ClientThread(0, Go));
    assert s.clients == map[] && s.held == map[];
  }

  // ---------- a connection in service

  predicate InService(s: State) { !RecvLeaving(s.recv) && !SendLeaving(s.send) }

  /** As long as no thread is leaving, the send thread is not interrupted, and the descriptor it
      reads and the one it sends on are open. */
  predicate Serving(s: State) {
    InService(s) ==>
      && !s.flags.sendInterrupt && s.ctx.fd != INVALID_FD
      && (s.send.SSending? ==> s.send.fd != INVALID_FD)
  }

  lemma GateKeepsServing(s: State, side: Side, g: GatePc)
    requires Serving(s) && GateStep(s, side, g).Some?
    requires if side == Recv then s.recv == RGate(g) else s.send == SGate(g)
    ensures Serving(GateStep(s, side, g).value)
  {
  }

  lemma RecvKeepsServing(s: State, o: Outcome)
    requires Serving(s) && RecvStep(s, o).Some?
    ensures Serving(RecvStep(s, o).value)
  {
    if s.recv.RExit? {
      RecvStaysLeaving(s, s.recv.x);
    } else if s.recv.RGate? {
      GateKeepsServing(s, Recv, s.recv.g);
    } else {
      hide GateStep, ExitStep;
    }
  }

  lemma RecvStaysLeaving(s: State, x: ExitPc)
    requires s.recv == RExit(x) && ExitStep(s, Recv, x).Some?
    ensures RecvLeaving(ExitStep(s, Recv, x).value.recv)
  {
  }

  lemma SendKeepsServing(s: State, o: Outcome)
    requires Serving(s) && SendStep(s, o).Some?
    ensures Serving(SendStep(s, o).value)
  {
    if s.send.SExit? {
      SendStaysLeaving(s, s.send.x);
    } else if s.send.SGate? {
      GateKeepsServing(s, Send, s.send.g);
    } else {
      hide GateStep, ExitStep;
    }
  }

  lemma SendStaysLeaving(s: State, x: ExitPc)
    requires s.send == SExit(x) && ExitStep(s, Send, x).Some?
    ensures SendLeaving(ExitStep(s, Send, x).value.send)
  {
  }

  lemma StepKeepsServing(s: State, l: Label)
    requires Serving(s) && Step(s, l).Some?
    ensures Serving(Step(s, l).value)
  {
    match l {
      case RecvThread(o) => RecvKeepsServing(s, o);
      case SendThread(o) => SendKeepsServing(s, o);
      case ClientThread(id, act) => ClientKeepsServing(s, id, act);
      case PeerSends(_) =>
    }
  }

  lemma ClientKeepsServing(s: State, id: nat, act: ClientAct)
    requires Serving(s) && ClientStep(s, id, act).Some?
    ensures Serving(ClientStep(s, id, act).value)
  {
    hide ClientStep;
    ClientFrame(s, id, act);
  }

  lemma {:induction false} ExecKeepsServing(s: State, ls: seq<Label>)
    requires Serving(s) && Exec(s, ls).Some?
    ensures Serving(Exec(s, ls).value)
    decreases |ls|
  {
    if ls != [] {
      StepKeepsServing(s, ls[0]);
      ExecKeepsServing(Step(s, ls[0]).value, ls[1..]);
    }
  }

  lemma ReachableServing(s: State)
    requires Reachable(s)
    ensures Serving(s)
  {
    var fd, castOk, ls :| fd != INVALID_FD && Exec(Init(fd, castOk), ls) == Some(s);
    ExecKeepsServing(Init(fd, castOk), ls);
  }

  // ---------- awake

  /** Steps the send thread still takes at most to its next snapshot, once every send() takes all
      it is offered. */
  function SnapshotRank(w: SendPc): nat {
    match w
    case SUnlockResponse(left) => 10 + |left|
    case SCall(left) => 9 + |left|
    case SSending(left, _) => 8 + |left|
    case SGate(g) =>
      (match g
       case GStart => 8
       case GPoint => 7
       case GLock => 6
       case GWoken => 6
       case GTest => 5
       case GClear => 4
       case GUnlock => 3
       case GAsleep => 0)
    case SLockResponse => 2
    case SSnapshot => 1
    case SExit(_) => 0
    case SDone => 0
  }

  /** Awake, in service, and with the flag up or its own pass already taken. */
  predicate Awake(s: State) {
    && s.castOk && InService(s) && Serving(s) && s.send != SGate(GAsleep)
    && (s.flags.write || Snapping(s.send))
  }

  /** The send thread's next action, with a send() that takes all it is offered. */
  function Onward(s: State): Label {
    SendThread(Moved(if s.send.SSending? then |s.send.left| else 0))
  }

  lemma GateOnward(s: State, g: GatePc)
    requires Inv(s) && Awake(s) && s.send == SGate(g) && GateStep(s, Send, g).Some?
    ensures
      var t := GateStep(s, Send, g).value;
      Awake(t) && SnapshotRank(t.send) < SnapshotRank(s.send) && t.log.snapshots == s.log.snapshots
  {
  }

  lemma StepOnward(s: State)
    requires Inv(s) && Awake(s) && Step(s, Onward(s)).Some?
    ensures
      var t := Step(s, Onward(s)).value;
      if s.send == SSnapshot then |t.log.snapshots| == |s.log.snapshots| + 1
      else Awake(t) && SnapshotRank(t.send) < SnapshotRank(s.send) && t.log.snapshots == s.log.snapshots
  {
    if s.send.SGate? {
      GateOnward(s, s.send.g);
    } else {
      hide GateStep, ExitStep, Inv;
    }
  }

  lemma HolderOnward(s: State, id: nat)
    requires Inv(s) && Awake(s) && Quiet(s, []) && Blocked(s, Thread(Send), Client(id))
    ensures ClientStep(s, id, Go).Some?
    ensures
      var t := ClientStep(s, id, Go).value;
      Awake(t) && t.send == s.send && HolderWork(t) < HolderWork(s) && t.log.snapshots == s.log.snapshots
  {
    HolderHelps(s, id);
    ClientFrame(s, id, Go);
    StepKeepsServing(s, ClientThread(id, Go));
  }

  /** Nobody but a client can keep the send thread from the mutex it needs, and not for long. */
  lemma NextOnward(s: State) returns (l: Label)
    requires Inv(s) && Awake(s) && Quiet(s, [])
    ensures Step(s, l).Some? && NoneBegins([l]) && !Wakes(s, l)
    ensures
      var t := Step(s, l).value;
      if s.send == SSnapshot then |t.log.snapshots| == |s.log.snapshots| + 1
      else
        && Awake(t) && t.log.snapshots == s.log.snapshots
        && (SnapshotRank(t.send) < SnapshotRank(s.send) || (t.send == s.send && HolderWork(t) < HolderWork(s)))
  {
    var m := WaitsFor(s, Thread(Send));
    if m.Some? && m.value in s.held {
      var u := s.held[m.value];
      HolderDoesNotWait(s, Thread(Send));
      assert Holds(s, u) == Some(m.value);
      l := ClientThread(u.id, Go);
      HolderOnward(s, u.id);
    } else {
      l := Onward(s);
      SendFree(s);
      StepOnward(s);
    }
  }

  lemma {:induction false} RunToSnapshot(s: State) returns (ls: seq<Label>)
    requires Inv(s) && Awake(s) && Quiet(s, [])
    ensures NoneBegins(ls) && Unwoken(s, ls)
    ensures Exec(s, ls).Some? && |Exec(s, ls).value.log.snapshots| == |s.log.snapshots| + 1
    decreases SnapshotRank(s.send), HolderWork(s)
  {
    var l := NextOnward(s);
    var t := Step(s, l).value;
    var rest := [];
    if s.send != SSnapshot {
      GoKeepsQuiet(s, l);
      rest := RunToSnapshot(t);
    }
    ls := [l] + rest;
    assert ls[1..] == rest;
  }

  // ---------- when an enabling leads to a transmission

  lemma {:induction false} NoContextNoSnapshot(s: State, ls: seq<Label>)
    requires Inv(s) && !s.castOk && Exec(s, ls).Some?
    ensures Exec(s, ls).value.log.snapshots == s.log.snapshots
    decreases |ls|
  {
    if ls != [] {
      StepKeepsInv(s, ls[0]);
      StepKeepsCast(s, ls[0]);
      NoContextStep(s, ls[0]);
      NoContextNoSnapshot(Step(s, ls[0]).value, ls[1..]);
    }
  }

  lemma NoContextStep(s: State, l: Label)
    requires Cast(s) && !s.castOk && Step(s, l).Some?
    ensures Step(s, l).value.log.snapshots == s.log.snapshots
  {
    match l {
      case RecvThread(o) => RecvLeavesWire(s, o);
      case SendThread(o) => assert SendStep(s, o) == Some(s.(send := SDone));
      case ClientThread(id, act) =>
        hide ClientStep;
        ClientFrame(s, id, act);
      case PeerSends(_) =>
    }
  }

  /** "A raised write gate leads to a transmission" is false. While the receive thread serves the
      connection and clients leave the gate alone, a run to another snapshot in which nothing
      wakes the send thread exists if and only if the thread is not asleep already (and has not
      left, and was not kept from starting for want of an IPv4 context). */
  lemma ServedExactlyWhenAwake(s: State)
    requires Reachable(s) && s.flags.write && Quiet(s, []) && !RecvLeaving(s.recv)
    ensures
      (exists ls ::
         Quiet(s, ls) && Unwoken(s, ls) && Exec(s, ls).Some?
         && |Exec(s, ls).value.log.snapshots| > |s.log.snapshots|)
        <==> s.castOk && s.send != SGate(GAsleep) && !SendLeaving(s.send)
  {
    ReachableInv(s);
    ReachableServing(s);
    if s.castOk && s.send != SGate(GAsleep) && !SendLeaving(s.send) {
      var ls := RunToSnapshot(s);
      assert Quiet(s, ls);
    } else {
      forall ls | Unwoken(s, ls) && Exec(s, ls).Some?
        ensures Exec(s, ls).value.log.snapshots == s.log.snapshots
      {
        if s.send == SGate(GAsleep) {
          SleepsThrough(s, ls);
        } else if !s.castOk {
          NoContextNoSnapshot(s, ls);
        } else {
          NothingAfterFailure(s, ls);
        }
      }
    }
  }
}
