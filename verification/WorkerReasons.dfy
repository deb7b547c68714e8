/** Why a worker's threads leave their loops: over any run, a thread is leaving exactly if one of its
    calls gave it a reason or it passed its interruption point with a request pending. And the
    descriptor they use is the connection's own. */
module WorkerReasons {
  import opened Socket
  import opened Worker
  import opened WorkerPredicates
  import opened WorkerShutdown

  // ---------- the receive thread

  /** The step is a call of recv() on INVALID_FD, or one that fails or finds the peer closed; or it
      passes the interruption point with a request pending; or it is the failed cast. */
  predicate RecvReason(s: State, l: Label) {
    && l.RecvThread?
    && ((s.recv.RInRecv? && (s.recv.fd == INVALID_FD || l.o == Error || l.o == Moved(0)))
        || (s.recv == RGate(GPoint) && s.flags.recvInterrupt)
        || (s.recv == RGate(GStart) && !s.castOk))
  }

  predicate RecvReasons(s: State, ls: seq<Label>)
    decreases |ls|
  {
    && ls != [] && Step(s, ls[0]).Some?
    && (RecvReason(s, ls[0]) || RecvReasons(Step(s, ls[0]).value, ls[1..]))
  }

  lemma RecvGateReason(s: State, g: GatePc)
    requires s.recv == RGate(g) && GateStep(s, Recv, g).Some?
    ensures
      var leaves := RecvLeaving(GateStep(s, Recv, g).value.recv);
      leaves <==> (g == GPoint && s.flags.recvInterrupt) || (g == GStart && !s.castOk)
  {
  }

  lemma RecvLeavesOnce(s: State, x: ExitPc)
    requires s.recv == RExit(x) && ExitStep(s, Recv, x).Some?
    ensures RecvLeaving(ExitStep(s, Recv, x).value.recv)
  {
  }

  lemma RecvThreadReason(s: State, o: Outcome)
    requires RecvStep(s, o).Some?
    ensures RecvLeaving(RecvStep(s, o).value.recv) <==> RecvLeaving(s.recv) || RecvReason(s, RecvThread(o))
  {
    hide GateStep, ExitStep;
    match s.recv {
      case RGate(g) => RecvGateReason(s, g);
      case RExit(x) => RecvLeavesOnce(s, x);
      case RCall =>
      case RInRecv(_) =>
      case RLockRequest(_) =>
      case RAppend(_) =>
      case RUnlockRequest =>
      case RDone =>
    }
  }

  lemma SendExitLeavesRecv(s: State, x: ExitPc)
    requires s.send == SExit(x) && ExitStep(s, Send, x).Some?
    ensures RecvLeaving(ExitStep(s, Send, x).value.recv) <==> RecvLeaving(s.recv)
  {
  }

  lemma SendThreadLeavesRecv(s: State, o: Outcome)
    requires SendStep(s, o).Some?
    ensures RecvLeaving(SendStep(s, o).value.recv) <==> RecvLeaving(s.recv)
  {
    if s.send.SExit? {
      hide ExitStep;
      SendExitLeavesRecv(s, s.send.x);
    } else if s.send.SGate? {
      hide ExitStep;
    } else {
      hide GateStep, ExitStep;
    }
  }

  lemma RecvStepReason(s: State, l: Label)
    requires Step(s, l).Some?
    ensures RecvLeaving(Step(s, l).value.recv) <==> RecvLeaving(s.recv) || RecvReason(s, l)
  {
    hide RecvStep, SendStep, ClientStep;
    match l {
      case RecvThread(o) => RecvThreadReason(s, o);
      case SendThread(o) => SendThreadLeavesRecv(s, o);
      case ClientThread(id, act) => ClientFrame(s, id, act);
      case PeerSends(_) =>
    }
  }

  /** Whatever the other threads do meanwhile: would-blocks and bytes keep the receive thread in its
      loop, and each of the reasons takes it to its exit. */
  lemma {:induction false} RecvLeavesExactlyWhen(s: State, ls: seq<Label>)
    requires Exec(s, ls).Some?
    ensures RecvLeaving(Exec(s, ls).value.recv) <==> RecvLeaving(s.recv) || RecvReasons(s, ls)
    decreases |ls|
  {
    hide Step, RecvReason;
    if ls != [] {
      RecvStepReason(s, ls[0]);
      RecvLeavesExactlyWhen(Step(s, ls[0]).value, ls[1..]);
    }
  }

  // ---------- the send thread

  /** The step is a call of send(), with something left to send, on INVALID_FD, or one that fails or
      moves nothing; or it passes the interruption point with a request pending; or it is the
      failed cast. */
  predicate SendReason(s: State, l: Label) {
    && l.SendThread?
    && ((s.send.SSending? && s.send.left != [] && (s.send.fd == INVALID_FD || l.o == Error || l.o == Moved(0)))
        || (s.send == SGate(GPoint) && s.flags.sendInterrupt)
        || (s.send == SGate(GStart) && !s.castOk))
  }

  predicate SendReasons(s: State, ls: seq<Label>)
    decreases |ls|
  {
    && ls != [] && Step(s, ls[0]).Some?
    && (SendReason(s, ls[0]) || SendReasons(Step(s, ls[0]).value, ls[1..]))
  }

  lemma SendGateReason(s: State, g: GatePc)
    requires s.send == SGate(g) && GateStep(s, Send, g).Some?
    ensures
      var leaves := SendLeaving(GateStep(s, Send, g).value.send);
      leaves <==> (g == GPoint && s.flags.sendInterrupt) || (g == GStart && !s.castOk)
  {
  }

  lemma SendLeavesOnce(s: State, x: ExitPc)
    requires s.send == SExit(x) && ExitStep(s, Send, x).Some?
    ensures SendLeaving(ExitStep(s, Send, x).value.send)
  {
  }

  lemma SendThreadReason(s: State, o: Outcome)
    requires SendStep(s, o).Some?
    ensures SendLeaving(SendStep(s, o).value.send) <==> SendLeaving(s.send) || SendReason(s, SendThread(o))
  {
    hide GateStep, ExitStep;
    match s.send {
      case SGate(g) => SendGateReason(s, g);
      case SExit(x) => SendLeavesOnce(s, x);
      case SLockResponse =>
      case SSnapshot =>
      case SUnlockResponse(_) =>
      case SCall(_) =>
      case SSending(_, _) =>
      case SDone =>
    }
  }

  lemma RecvExitLeavesSend(s: State, x: ExitPc)
    requires s.recv == RExit(x) && ExitStep(s, Recv, x).Some?
    ensures SendLeaving(ExitStep(s, Recv, x).value.send) <==> SendLeaving(s.send)
  {
  }

  lemma RecvThreadLeavesSend(s: State, o: Outcome)
    requires RecvStep(s, o).Some?
    ensures SendLeaving(RecvStep(s, o).value.send) <==> SendLeaving(s.send)
  {
    if s.recv.RExit? {
      hide ExitStep;
      RecvExitLeavesSend(s, s.recv.x);
    } else if s.recv.RGate? {
      hide ExitStep;
    } else {
      hide GateStep, ExitStep;
    }
  }

  lemma SendStepReason(s: State, l: Label)
    requires Step(s, l).Some?
    ensures SendLeaving(Step(s, l).value.send) <==> SendLeaving(s.send) || SendReason(s, l)
  {
    hide RecvStep, SendStep, ClientStep;
    match l {
      case RecvThread(o) => RecvThreadLeavesSend(s, o);
      case SendThread(o) => SendThreadReason(s, o);
      case ClientThread(id, act) => ClientFrame(s, id, act);
      case PeerSends(_) =>
    }
  }

  /** The same for the send thread, over any run. */
  lemma {:induction false} SendLeavesExactlyWhen(s: State, ls: seq<Label>)
    requires Exec(s, ls).Some?
    ensures SendLeaving(Exec(s, ls).value.send) <==> SendLeaving(s.send) || SendReasons(s, ls)
    decreases |ls|
  {
    hide Step, SendReason;
    if ls != [] {
      SendStepReason(s, ls[0]);
      SendLeavesExactlyWhen(Step(s, ls[0]).value, ls[1..]);
    }
  }

  // ---------- the descriptor

  predicate Either(f: int, fd: int) { f == fd || f == INVALID_FD }

  predicate Own(s: State, fd: int) {
    && Either(s.ctx.fd, fd)
    && (s.recv.RInRecv? ==> Either(s.recv.fd, fd))
    && (s.send.SSending? ==> Either(s.send.fd, fd))
  }

  lemma ExitKeepsOwn(s: State, side: Side, x: ExitPc, fd: int)
    requires Own(s, fd) && ExitStep(s, side, x).Some?
    requires if side == Recv then s.recv == RExit(x) else s.send == SExit(x)
    ensures Own(ExitStep(s, side, x).value, fd)
  {
  }

  lemma GateKeepsOwn(s: State, side: Side, g: GatePc, fd: int)
    requires Own(s, fd) && GateStep(s, side, g).Some?
    requires if side == Recv then s.recv == RGate(g) else s.send == SGate(g)
    ensures Own(GateStep(s, side, g).value, fd)
  {
  }

  lemma RecvKeepsOwn(s: State, o: Outcome, fd: int)
    requires Own(s, fd) && RecvStep(s, o).Some?
    ensures Own(RecvStep(s, o).value, fd)
  {
    hide GateStep, ExitStep;
    match s.recv {
      case RGate(g) => GateKeepsOwn(s, Recv, g, fd);
      case RExit(x) => ExitKeepsOwn(s, Recv, x, fd);
      case RCall =>
      case RInRecv(_) =>
      case RLockRequest(_) =>
      case RAppend(_) =>
      case RUnlockRequest =>
      case RDone =>
    }
  }

  lemma SendKeepsOwn(s: State, o: Outcome, fd: int)
    requires Own(s, fd) && SendStep(s, o).Some?
    ensures Own(SendStep(s, o).value, fd)
  {
    hide GateStep, ExitStep;
    match s.send {
      case SGate(g) => GateKeepsOwn(s, Send, g, fd);
      case SExit(x) => ExitKeepsOwn(s, Send, x, fd);
      case SLockResponse =>
      case SSnapshot =>
      case SUnlockResponse(_) =>
      case SCall(_) =>
      case SSending(_, _) =>
      case SDone =>
    }
  }

  lemma {:induction false} RunKeepsOwn(s: State, ls: seq<Label>, fd: int)
    requires Own(s, fd) && Exec(s, ls).Some?
    ensures Own(Exec(s, ls).value, fd)
    decreases |ls|
  {
    hide RecvStep, SendStep, ClientStep;
    if ls != [] {
      match ls[0] {
        case RecvThread(o) => RecvKeepsOwn(s, o, fd);
        case SendThread(o) => SendKeepsOwn(s, o, fd);
        case ClientThread(id, act) => ClientFrame(s, id, act);
        case PeerSends(_) =>
      }
      RunKeepsOwn(Step(s, ls[0]).value, ls[1..], fd);
    }
  }

  /** A worker's threads call recv() and send() on the descriptor accepted for the connection, or on
      INVALID_FD, and mClientFd never shows another number. */
  lemma OwnDescriptor(fd: int, castOk: bool, ls: seq<Label>)
    requires Exec(Init(fd, castOk), ls).Some?
    ensures
      var s := Exec(Init(fd, castOk), ls).value;
      && (s.ctx.fd == fd || s.ctx.fd == INVALID_FD)
      && (s.recv.RInRecv? ==> s.recv.fd == fd || s.recv.fd == INVALID_FD)
      && (s.send.SSending? ==> s.send.fd == fd || s.send.fd == INVALID_FD)
  {
    RunKeepsOwn(Init(fd, castOk), ls, fd);
  }
}
