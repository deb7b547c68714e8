/** What every step of the worker's threads keeps: lock discipline, gate accounting, the
    transmission shape, untorn snapshots. */
module WorkerInvariants {
  import opened Socket
  import opened Worker
  import opened WorkerPredicates

  // ---------- lock discipline

  lemma OthersHoldTheSame(s: State, s': State, t: Tid, u: Tid)
    requires OthersUnmoved(s, s', t) && u != t
    ensures Holds(s', u) == Holds(s, u)
  {
    if t.Client? && u.Client? {
      assert u.id in s.clients <==> u.id in s.clients - {t.id};
      assert u.id in s'.clients <==> u.id in s'.clients - {t.id};
      if u.id in s.clients {
        assert (s'.clients - {t.id})[u.id] == (s.clients - {t.id})[u.id];
      }
    }
  }

  lemma FollowsKeepsLocks(s: State, s': State, t: Tid)
    requires Locks(s) && Follows(s, s', t)
    ensures Locks(s')
  {
    forall u: Tid | Holds(s', u).Some?
      ensures Holds(s', u).value in s'.held && s'.held[Holds(s', u).value] == u
    {
      if u != t {
        OthersHoldTheSame(s, s', t, u);
      }
    }
    forall m | m in s'.held
      ensures Holds(s', s'.held[m]) == Some(m)
    {
      if m in s.held && s.held[m] != t {
        OthersHoldTheSame(s, s', t, s.held[m]);
      }
    }
  }

  lemma RecvGateFollows(s: State, g: GatePc)
    requires s.recv == RGate(g) && GateStep(s, Recv, g).Some?
    ensures RecvMoved(s, GateStep(s, Recv, g).value)
  {
  }

  lemma SendGateFollows(s: State, g: GatePc)
    requires s.send == SGate(g) && GateStep(s, Send, g).Some?
    ensures SendMoved(s, GateStep(s, Send, g).value)
  {
  }

  lemma RecvExitTable(s: State, x: ExitPc)
    requires s.recv == RExit(x) && ExitStep(s, Recv, x).Some?
    ensures
      var t := ExitStep(s, Recv, x).value;
      TableFollows(s.held, t.held, Thread(Recv), RecvHolds(s.recv), RecvHolds(t.recv))
  {
  }

  lemma RecvExitFollows(s: State, x: ExitPc)
    requires s.recv == RExit(x) && ExitStep(s, Recv, x).Some?
    ensures RecvMoved(s, ExitStep(s, Recv, x).value)
  {
    hide TableFollows;
    RecvExitTable(s, x);
  }

  lemma SendExitTable(s: State, x: ExitPc)
    requires s.send == SExit(x) && ExitStep(s, Send, x).Some?
    ensures
      var t := ExitStep(s, Send, x).value;
      TableFollows(s.held, t.held, Thread(Send), SendHolds(s.send), SendHolds(t.send))
  {
  }

  lemma SendExitFollows(s: State, x: ExitPc)
    requires s.send == SExit(x) && ExitStep(s, Send, x).Some?
    ensures SendMoved(s, ExitStep(s, Send, x).value)
  {
    hide TableFollows;
    SendExitTable(s, x);
  }

  lemma RecvFollows(s: State, o: Outcome)
    requires RecvStep(s, o).Some?
    ensures RecvMoved(s, RecvStep(s, o).value)
  {
    hide GateStep, ExitStep;
    match s.recv {
      case RGate(g) => RecvGateFollows(s, g);
      case RCall =>
      case RInRecv(_) =>
      case RLockRequest(_) =>
      case RAppend(_) =>
      case RUnlockRequest =>
      case RExit(x) => RecvExitFollows(s, x);
      case RDone =>
    }
  }

  lemma SendFollows(s: State, o: Outcome)
    requires SendStep(s, o).Some?
    ensures SendMoved(s, SendStep(s, o).value)
  {
    hide GateStep, ExitStep;
    match s.send {
      case SGate(g) => SendGateFollows(s, g);
      case SLockResponse =>
      case SSnapshot =>
      case SUnlockResponse(_) =>
      case SCall(_) =>
      case SSending(_, _) =>
      case SExit(x) => SendExitFollows(s, x);
      case SDone =>
    }
  }

  lemma ClientFollows(s: State, id: nat, act: ClientAct)
    requires ClientStep(s, id, act).Some?
    ensures Follows(s, ClientStep(s, id, act).value, Client(id))
    ensures ClientStep(s, id, act).value.castOk == s.castOk
  {
    if id in s.clients && act.Go? && s.clients[id].CHolding? {
      match s.clients[id].op {
        case EnableRead =>
        case DisableRead =>
        case EnableWrite =>
        case DisableWrite =>
        case SetResponse(_) =>
        case PeekRequest =>
      }
    }
  }

  lemma StepKeepsCast(s: State, l: Label)
    requires Step(s, l).Some?
    ensures Step(s, l).value.castOk == s.castOk
  {
    match l {
      case RecvThread(o) => RecvFollows(s, o);
      case SendThread(o) => SendFollows(s, o);
      case ClientThread(id, act) => ClientFollows(s, id, act);
      case PeerSends(_) =>
    }
  }

  lemma StepKeepsLocks(s: State, l: Label)
    requires Locks(s) && Step(s, l).Some?
    ensures Locks(Step(s, l).value)
  {
    var s' := Step(s, l).value;
    match l {
      case RecvThread(o) =>
        RecvFollows(s, o);
        FollowsKeepsLocks(s, s', Thread(Recv));
      case SendThread(o) =>
        SendFollows(s, o);
        FollowsKeepsLocks(s, s', Thread(Send));
      case ClientThread(id, act) =>
        ClientFollows(s, id, act);
        FollowsKeepsLocks(s, s', Client(id));
      case PeerSends(_) =>
        assert forall t :: Holds(s', t) == Holds(s, t);
    }
  }

  // ---------- flags: the cast, the gates, the interrupts

  lemma RecvGateKeepsAccounts(s: State, g: GatePc)
    requires Accounts(s) && s.recv == RGate(g) && GateStep(s, Recv, g).Some?
    ensures Accounts(GateStep(s, Recv, g).value)
  {
  }

  lemma SendGateKeepsAccounts(s: State, g: GatePc)
    requires Accounts(s) && s.send == SGate(g) && GateStep(s, Send, g).Some?
    ensures Accounts(GateStep(s, Send, g).value)
  {
    var t := GateStep(s, Send, g).value;
    match g {
      case GStart =>
      case GPoint =>
      case GLock =>
      case GTest =>
      case GAsleep =>
      case GWoken =>
      case GClear =>
      case GUnlock =>
    }
    assert Cast(t) && Gate(t);
    assert Interrupts(t);
  }

  lemma RecvExitKeepsAccounts(s: State, x: ExitPc)
    requires Accounts(s) && s.recv == RExit(x) && ExitStep(s, Recv, x).Some?
    ensures Accounts(ExitStep(s, Recv, x).value)
  {
    var t := ExitStep(s, Recv, x).value;
    match x {
      case XLock =>
      case XClose =>
      case XAssign =>
      case XUnlock =>
      case XLockGate =>
      case XRaise =>
      case XUnlockGate =>
      case XInterrupt =>
      case XNotify =>
    }
    assert Cast(t) && Gate(t);
    assert Interrupts(t);
  }

  lemma SendExitKeepsAccounts(s: State, x: ExitPc)
    requires Accounts(s) && s.send == SExit(x) && ExitStep(s, Send, x).Some?
    ensures Accounts(ExitStep(s, Send, x).value)
  {
    var t := ExitStep(s, Send, x).value;
    match x {
      case XLock =>
      case XClose =>
      case XAssign =>
      case XUnlock =>
      case XLockGate =>
      case XRaise =>
      case XUnlockGate =>
      case XInterrupt =>
      case XNotify =>
    }
    assert Cast(t) && Gate(t);
    assert Interrupts(t);
  }

  /** Away from the gate and the exit handler. */
  lemma RecvPlainKeepsAccounts(s: State, o: Outcome)
    requires Accounts(s) && RecvStep(s, o).Some? && !s.recv.RGate? && !s.recv.RExit?
    ensures Accounts(RecvStep(s, o).value)
  {
    hide GateStep, ExitStep;
    var t := RecvStep(s, o).value;
    assert Cast(t) && Gate(t);
    assert Interrupts(t);
  }

  lemma RecvKeepsAccounts(s: State, o: Outcome)
    requires Accounts(s) && RecvStep(s, o).Some?
    ensures Accounts(RecvStep(s, o).value)
  {
    hide GateStep, ExitStep;
    if s.recv.RGate? {
      RecvGateKeepsAccounts(s, s.recv.g);
    } else if s.recv.RExit? {
      RecvExitKeepsAccounts(s, s.recv.x);
    } else {
      RecvPlainKeepsAccounts(s, o);
    }
  }

  /** Away from the gate and the exit handler. */
  lemma SendPlainKeepsAccounts(s: State, o: Outcome)
    requires Accounts(s) && SendStep(s, o).Some? && !s.send.SGate? && !s.send.SExit?
    ensures Accounts(SendStep(s, o).value)
  {
    hide GateStep, ExitStep;
    var t := SendStep(s, o).value;
    assert Cast(t) && Gate(t);
    assert Interrupts(t);
  }

  lemma SendKeepsAccounts(s: State, o: Outcome)
    requires Accounts(s) && SendStep(s, o).Some?
    ensures Accounts(SendStep(s, o).value)
  {
    hide GateStep, ExitStep;
    if s.send.SGate? {
      SendGateKeepsAccounts(s, s.send.g);
    } else if s.send.SExit? {
      SendExitKeepsAccounts(s, s.send.x);
    } else {
      SendPlainKeepsAccounts(s, o);
    }
  }

  /** A client can change a gate only while it holds the gate's mutex, so not between the
      send thread's test and its clearing of the flag. */
  lemma ClientKeepsAccounts(s: State, id: nat, act: ClientAct)
    requires Locks(s) && Accounts(s) && ClientStep(s, id, act).Some?
    ensures Accounts(ClientStep(s, id, act).value)
  {
    if id in s.clients && act.Go? && s.clients[id].CHolding? {
      assert Holds(s, Client(id)) == Some(MutexOf(s.clients[id].op));
      assert s.send == SGate(GClear) ==> Holds(s, Thread(Send)) == Some(WriteMutex);
      match s.clients[id].op {
        case EnableRead =>
        case DisableRead =>
        case EnableWrite =>
        case DisableWrite =>
        case SetResponse(_) =>
        case PeekRequest =>
      }
    }
  }

  // ---------- what is on the wire

  lemma SameWireKeepsWire(s: State, s': State)
    requires Wire(s) && SameWire(s, s')
    ensures Wire(s')
  {
  }

  lemma RecvGateSameWire(s: State, g: GatePc)
    requires s.recv == RGate(g) && GateStep(s, Recv, g).Some?
    ensures SameWire(s, GateStep(s, Recv, g).value)
  {
  }

  lemma SendGateSameWire(s: State, g: GatePc)
    requires s.send == SGate(g) && GateStep(s, Send, g).Some?
    ensures SameWire(s, GateStep(s, Send, g).value)
  {
    var t := GateStep(s, Send, g).value;
    match g {
      case GStart =>
      case GPoint =>
      case GLock =>
      case GTest =>
      case GAsleep =>
      case GWoken =>
      case GClear =>
      case GUnlock =>
    }
    assert t.clients == s.clients && t.ctx.response == s.ctx.response;
    assert Scribbling(t) <==> Scribbling(s);
  }

  lemma RecvExitSameWire(s: State, x: ExitPc)
    requires s.recv == RExit(x) && ExitStep(s, Recv, x).Some?
    ensures SameWire(s, ExitStep(s, Recv, x).value)
  {
  }

  lemma SendExitSameWire(s: State, x: ExitPc)
    requires s.send == SExit(x) && ExitStep(s, Send, x).Some?
    ensures SameWire(s, ExitStep(s, Send, x).value)
  {
    var t := ExitStep(s, Send, x).value;
    match x {
      case XLock =>
      case XClose =>
      case XAssign =>
      case XUnlock =>
      case XLockGate =>
      case XRaise =>
      case XUnlockGate =>
      case XInterrupt =>
      case XNotify =>
    }
    assert t.clients == s.clients && t.ctx.response == s.ctx.response;
    assert Scribbling(t) <==> Scribbling(s);
  }

  lemma RecvPlainSameWire(s: State, o: Outcome)
    requires RecvStep(s, o).Some? && !s.recv.RGate? && !s.recv.RExit?
    ensures SameWire(s, RecvStep(s, o).value)
  {
    hide GateStep, ExitStep;
    var t := RecvStep(s, o).value;
    assert t.clients == s.clients && t.ctx.response == s.ctx.response;
    assert Scribbling(t) <==> Scribbling(s);
  }

  lemma RecvSameWire(s: State, o: Outcome)
    requires RecvStep(s, o).Some?
    ensures SameWire(s, RecvStep(s, o).value)
  {
    hide GateStep, ExitStep;
    if s.recv.RGate? {
      RecvGateSameWire(s, s.recv.g);
    } else if s.recv.RExit? {
      RecvExitSameWire(s, s.recv.x);
    } else {
      RecvPlainSameWire(s, o);
    }
  }

  lemma SnapshotKeepsWire(s: State, o: Outcome)
    requires Locks(s) && Wire(s) && s.send == SSnapshot
    ensures Wire(SendStep(s, o).value)
  {
    hide GateStep, ExitStep;
    assert Holds(s, Thread(Send)) == Some(ResponseMutex);
    ConcatAppend(s.log.snapshots, s.ctx.response);
  }

  lemma Advance(wire: seq<Byte>, left: seq<Byte>, k: nat)
    requires k <= |left|
    ensures wire + left[..k] + left[k..] == wire + left
    ensures wire + left[..k] <= wire + left
  {
  }

  lemma CallKeepsWire(s: State, o: Outcome)
    requires Wire(s) && s.send.SSending?
    ensures Wire(SendStep(s, o).value)
  {
    hide GateStep, ExitStep;
    var left := s.send.left;
    if left == [] {
      assert s.net.wire + left == s.net.wire;
    } else {
      match OnFd(s.send.fd, SendRet(o, |left|)) {
        case Again =>
        case Fail =>
        case Bytes(k) => Advance(s.net.wire, left, k);
      }
    }
  }

  lemma SendKeepsWire(s: State, o: Outcome)
    requires Locks(s) && Wire(s) && SendStep(s, o).Some?
    ensures Wire(SendStep(s, o).value)
  {
    hide GateStep, ExitStep;
    var t := SendStep(s, o).value;
    match s.send {
      case SGate(g) =>
        SendGateSameWire(s, g);
        SameWireKeepsWire(s, t);
      case SLockResponse => SameWireKeepsWire(s, t);
      case SSnapshot => SnapshotKeepsWire(s, o);
      case SUnlockResponse(_) =>
        assert Holds(s, Thread(Send)) == Some(ResponseMutex);
      case SCall(_) =>
      case SSending(_, _) => CallKeepsWire(s, o);
      case SExit(x) =>
        SendExitSameWire(s, x);
        SameWireKeepsWire(s, t);
      case SDone =>
    }
  }

  lemma ClientKeepsWire(s: State, id: nat, act: ClientAct)
    requires Locks(s) && Wire(s) && ClientStep(s, id, act).Some?
    ensures Wire(ClientStep(s, id, act).value)
  {
    var t := ClientStep(s, id, act).value;
    if id in s.clients {
      assert Holds(s, Client(id)) == ClientHolds(s.clients[id]);
      match s.clients[id] {
        case CWaiting(op) =>
        case CHolding(op) =>
          match op {
            case EnableRead =>
            case DisableRead =>
            case EnableWrite =>
            case DisableWrite =>
            case SetResponse(_) =>
            case PeekRequest =>
          }
        case CApplied(op) =>
      }
    }
  }

  // ---------- every reachable state

  lemma StepKeepsInv(s: State, l: Label)
    requires Inv(s) && Step(s, l).Some?
    ensures Inv(Step(s, l).value)
  {
    StepKeepsLocks(s, l);
    match l {
      case RecvThread(o) =>
        RecvKeepsAccounts(s, o);
        RecvSameWire(s, o);
        SameWireKeepsWire(s, RecvStep(s, o).value);
      case SendThread(o) =>
        SendKeepsAccounts(s, o);
        SendKeepsWire(s, o);
      case ClientThread(id, act) =>
        ClientKeepsAccounts(s, id, act);
        ClientKeepsWire(s, id, act);
      case PeerSends(_) =>
    }
  }

  lemma InitInv(fd: int, castOk: bool)
    ensures Inv(Init(fd, castOk))
  {
  }

  lemma {:induction false} ExecKeepsInv(s: State, ls: seq<Label>)
    requires Inv(s) && Exec(s, ls).Some?
    ensures Inv(Exec(s, ls).value)
    decreases |ls|
  {
    if ls != [] {
      StepKeepsInv(s, ls[0]);
      ExecKeepsInv(Step(s, ls[0]).value, ls[1..]);
    }
  }

  lemma ReachableInv(s: State)
    requires Reachable(s)
    ensures Inv(s)
  {
    var fd, castOk, ls :| fd != INVALID_FD && Exec(Init(fd, castOk), ls) == Some(s);
    InitInv(fd, castOk);
    ExecKeepsInv(Init(fd, castOk), ls);
  }
}
