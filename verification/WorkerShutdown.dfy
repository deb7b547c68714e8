/** How one thread's exit ends the other. The receive thread's gate stays up once raised, so
    the send thread's exit always ends the receive thread. The send thread's gate is consumed
    when passed, and the exit handler raises it before it interrupts: the send thread is ended
    exactly unless, at the moment of the interrupt, it is back at its gate with the flag
    already consumed. */
module WorkerShutdown {
  import opened Socket
  import opened Worker
  import opened WorkerInvariants
  import opened WorkerPredicates
  import opened WorkerSafety

  // ---------- what clients may do meanwhile

  /** No client is performing op in s, and none starts to in ls. */
  predicate Without(s: State, ls: seq<Label>, op: Op) {
    && (forall id :: id in s.clients ==> s.clients[id].op != op)
    && forall l :: l in ls ==> !(l.ClientThread? && l.act == Begin(op))
  }

  /** No response in s or set in ls is longer than limit. */
  predicate Fits(s: State, ls: seq<Label>, limit: nat) {
    && |s.ctx.response| <= limit
    && (forall id :: id in s.clients && s.clients[id].op.SetResponse? ==> |s.clients[id].op.bytes| <= limit)
    && forall l :: l in ls && l.ClientThread? ==> ActFits(l.act, limit)
  }

  predicate ActFits(act: ClientAct, limit: nat) {
    match act
    case Begin(op) => op.SetResponse? ==> |op.bytes| <= limit
    case Scribble(bytes) => |bytes| <= limit
    case Go => true
  }

  lemma WithoutStep(s: State, ls: seq<Label>, op: Op)
    requires ls != [] && Without(s, ls, op) && Step(s, ls[0]).Some?
    ensures Without(Step(s, ls[0]).value, ls[1..], op)
  {
    match ls[0] {
      case RecvThread(o) => RecvKeepsClients(s, o);
      case SendThread(o) => SendKeepsClients(s, o);
      case ClientThread(id, act) => assert ls[0] in ls;
      case PeerSends(_) =>
    }
  }

  lemma FitsStep(s: State, ls: seq<Label>, limit: nat)
    requires ls != [] && Fits(s, ls, limit) && Step(s, ls[0]).Some?
    ensures Fits(Step(s, ls[0]).value, ls[1..], limit)
  {
    match ls[0] {
      case RecvThread(o) =>
        RecvKeepsClients(s, o);
        RecvSameResponse(s, o);
      case SendThread(o) =>
        SendKeepsClients(s, o);
        SendSameResponse(s, o);
      case ClientThread(id, act) => assert ls[0] in ls && ActFits(act, limit);
      case PeerSends(_) =>
    }
  }

  /** A client moves neither thread, passes no gate, takes no snapshot, and changes at most the
      flag of the operation it holds. */
  lemma ClientFrame(s: State, id: nat, act: ClientAct)
    requires ClientStep(s, id, act).Some?
    ensures
      var t := ClientStep(s, id, act).value;
      && t.recv == s.recv && t.send == s.send && t.castOk == s.castOk && t.net == s.net
      && t.ctx.fd == s.ctx.fd && t.ctx.request == s.ctx.request
      && t.log.passes == s.log.passes && t.log.snapshots == s.log.snapshots
      && (t.flags == s.flags || (id in s.clients && t.flags == Apply(s, s.clients[id].op).flags))
  {
  }

  lemma RecvSameResponse(s: State, o: Outcome)
    requires RecvStep(s, o).Some?
    ensures RecvStep(s, o).value.ctx.response == s.ctx.response
  {
    hide GateStep, ExitStep;
    match s.recv {
      case RGate(g) => RecvGateSameWire(s, g);
      case RExit(x) => RecvExitSameWire(s, x);
      case RCall =>
      case RInRecv(_) =>
      case RLockRequest(_) =>
      case RAppend(_) =>
      case RUnlockRequest =>
      case RDone =>
    }
  }

  lemma SendSameResponse(s: State, o: Outcome)
    requires SendStep(s, o).Some?
    ensures SendStep(s, o).value.ctx.response == s.ctx.response
  {
    hide GateStep, ExitStep;
    match s.send {
      case SGate(g) => SendGateSameWire(s, g);
      case SExit(x) => SendExitSameWire(s, x);
      case SLockResponse =>
      case SSnapshot =>
      case SUnlockResponse(_) =>
      case SCall(_) =>
      case SSending(_, _) =>
      case SDone =>
    }
  }

  // ---------- the end of the receive thread

  /** The send thread's handler has raised the read flag. */
  predicate ReadRaised(s: State) {
    && s.castOk
    && (s.send == SDone || s.send == SExit(XUnlockGate) || s.send == SExit(XInterrupt) || s.send == SExit(XNotify))
  }

  /** The flag is up, and a receive thread still asleep has its notify coming. */
  predicate RecvBound(s: State) {
    ReadRaised(s) && s.flags.read && (s.recv == RGate(GAsleep) ==> s.send != SDone)
  }

  function ExitRank(x: ExitPc): nat {
    match x
    case XNotify => 1
    case XInterrupt => 2
    case XUnlockGate => 3
    case XRaise => 4
    case XLockGate => 5
    case XUnlock => 6
    case XAssign => 7
    case XClose => 8
    case XLock => 9
  }

  /** Steps the receive thread still takes at most, once it has been interrupted. */
  function RecvRank(r: RecvPc): nat {
    match r
    case RDone => 0
    case RExit(x) => ExitRank(x)
    case RUnlockRequest => 12
    case RAppend(_) => 13
    case RLockRequest(_) => 14
    case RInRecv(_) => 15
    case RCall => 16
    case RGate(g) =>
      match g
      case GPoint => 10
      case GStart => 11
      case GClear => 18
      case GUnlock => 17
      case GTest => 18
      case GLock => 19
      case GWoken => 19
      case GAsleep => 20
  }

  function RecvSteps(ls: seq<Label>): nat
    decreases |ls|
  {
    if ls == [] then 0 else Bit(ls[0].RecvThread?) + RecvSteps(ls[1..])
  }

  /** Raising the flag is the moment from which the receive thread is bound to end. */
  lemma RaiseBinds(s: State, o: Outcome)
    requires Inv(s) && s.send == SExit(XRaise)
    ensures SendStep(s, o).Some? && RecvBound(SendStep(s, o).value)
  {
  }

  lemma RecvGateDescends(s: State, g: GatePc)
    requires Inv(s) && RecvBound(s) && s.recv == RGate(g) && GateStep(s, Recv, g).Some?
    ensures
      var t := GateStep(s, Recv, g).value;
      RecvBound(t) && (RecvInterrupted(s) ==> RecvInterrupted(t) && RecvRank(t.recv) < RecvRank(s.recv))
  {
  }

  lemma RecvExitDescends(s: State, x: ExitPc)
    requires Inv(s) && RecvBound(s) && s.recv == RExit(x) && ExitStep(s, Recv, x).Some?
    ensures
      var t := ExitStep(s, Recv, x).value;
      RecvBound(t) && (RecvInterrupted(s) ==> RecvInterrupted(t) && RecvRank(t.recv) < RecvRank(s.recv))
  {
  }

  /** Away from the gate and the exit handler. */
  lemma RecvPlainDescends(s: State, o: Outcome)
    requires RecvBound(s) && RecvStep(s, o).Some? && !s.recv.RGate? && !s.recv.RExit?
    ensures
      var t := RecvStep(s, o).value;
      RecvBound(t) && (RecvInterrupted(s) ==> RecvInterrupted(t) && RecvRank(t.recv) < RecvRank(s.recv))
  {
    var t := RecvStep(s, o).value;
    assert t.send == s.send && t.flags == s.flags && t.castOk == s.castOk;
  }

  lemma RecvDescends(s: State, o: Outcome)
    requires Inv(s) && RecvBound(s) && RecvStep(s, o).Some?
    ensures
      var t := RecvStep(s, o).value;
      RecvBound(t) && (RecvInterrupted(s) ==> RecvInterrupted(t) && RecvRank(t.recv) < RecvRank(s.recv))
  {
    hide GateStep, ExitStep, Inv, RecvBound, RecvInterrupted, RecvRank;
    if s.recv.RGate? {
      RecvGateDescends(s, s.recv.g);
    } else if s.recv.RExit? {
      RecvExitDescends(s, s.recv.x);
    } else {
      RecvPlainDescends(s, o);
    }
  }

  lemma SendExitKeepsRecvBound(s: State, x: ExitPc)
    requires Inv(s) && RecvBound(s) && s.send == SExit(x) && ExitStep(s, Send, x).Some?
    ensures
      var t := ExitStep(s, Send, x).value;
      RecvBound(t) && (RecvInterrupted(s) ==> RecvInterrupted(t) && RecvRank(t.recv) <= RecvRank(s.recv))
  {
  }

  /** Other threads keep it bound, unless a client shuts the gate again. */
  lemma RecvStaysBound(s: State, ls: seq<Label>)
    requires Inv(s) && RecvBound(s) && ls != [] && Without(s, ls, DisableRead)
    requires Step(s, ls[0]).Some? && !ls[0].RecvThread?
    ensures
      var t := Step(s, ls[0]).value;
      RecvBound(t) && (RecvInterrupted(s) ==> RecvInterrupted(t) && RecvRank(t.recv) <= RecvRank(s.recv))
  {
    match ls[0] {
      case SendThread(o) => SendExitKeepsRecvBound(s, s.send.x);
      case ClientThread(id, act) =>
        hide ClientStep;
        ClientFrame(s, id, act);
      case PeerSends(_) =>
    }
  }

  lemma {:induction false} RecvRun(s: State, ls: seq<Label>)
    requires Inv(s) && RecvBound(s) && Without(s, ls, DisableRead) && Exec(s, ls).Some?
    ensures
      var t := Exec(s, ls).value;
      Inv(t) && RecvBound(t)
      && (RecvInterrupted(s) ==> RecvSteps(ls) + RecvRank(t.recv) <= RecvRank(s.recv))
    decreases |ls|
  {
    if ls != [] {
      var next := Step(s, ls[0]).value;
      StepKeepsInv(s, ls[0]);
      WithoutStep(s, ls, DisableRead);
      if ls[0].RecvThread? {
        RecvDescends(s, ls[0].o);
      } else {
        RecvStaysBound(s, ls);
      }
      RecvRun(next, ls[1..]);
    }
  }

  /** After the send thread has raised the read flag, and with no later disabling, the
      receive thread finds its gate open whenever it tests it, is not left asleep once the
      handler is done, is never stuck on a mutex whose holder cannot move, and takes at most
      20 more steps after the interrupt, whatever recv() answers. */
  lemma ReceiverEnds(s: State, ls: seq<Label>)
    requires Inv(s) && RecvBound(s) && Without(s, ls, DisableRead) && Exec(s, ls).Some?
    ensures
      var t := Exec(s, ls).value;
      && (t.recv == RGate(GTest) ==> t.flags.read)
      && (t.send == SDone ==> t.recv != RGate(GAsleep))
      && (t.recv == RDone || CanMove(t, Thread(Recv)) || HeldByAMover(t, Thread(Recv)))
      && (RecvInterrupted(s) ==> RecvSteps(ls) + RecvRank(t.recv) <= 20)
  {
    RecvRun(s, ls);
    var t := Exec(s, ls).value;
    if t.recv != RDone {
      NotStuck(t, Recv);
    }
    RankBound(s.recv);
  }

  lemma RankBound(r: RecvPc)
    ensures RecvRank(r) <= 20
  {
  }

  /** t waits for a mutex whose holder can move (and holds nothing else). */
  ghost predicate HeldByAMover(s: State, t: Tid) {
    exists u :: Blocked(s, t, u) && CanMove(s, u)
  }

  lemma NotStuck(s: State, side: Side)
    requires Inv(s)
    requires if side == Recv then s.recv != RDone else s.send != SDone
    ensures CanMove(s, Thread(side)) || HeldByAMover(s, Thread(side))
  {
    var t := Thread(side);
    if WaitsFor(s, t).Some? && WaitsFor(s, t).value in s.held {
      var u := s.held[WaitsFor(s, t).value];
      HolderMoves(s, u);
      assert Blocked(s, t, u) && CanMove(s, u);
    } else if side == Recv {
      RecvFree(s);
    } else {
      SendFree(s);
    }
  }

  lemma RecvFree(s: State)
    requires Inv(s) && s.recv != RDone
    requires WaitsFor(s, Thread(Recv)).Some? ==> WaitsFor(s, Thread(Recv)).value !in s.held
    ensures CanMove(s, Thread(Recv))
  {
    match s.recv {
      case RGate(g) => assert GateStep(s, Recv, g).Some?;
      case RExit(x) => assert ExitStep(s, Recv, x).Some?;
      case RCall =>
      case RInRecv(_) =>
      case RLockRequest(_) =>
      case RAppend(_) =>
      case RUnlockRequest =>
      case RDone =>
    }
  }

  lemma SendFree(s: State)
    requires Inv(s) && s.send != SDone
    requires WaitsFor(s, Thread(Send)).Some? ==> WaitsFor(s, Thread(Send)).value !in s.held
    ensures CanMove(s, Thread(Send))
  {
    match s.send {
      case SGate(g) => assert GateStep(s, Send, g).Some?;
      case SExit(x) => assert ExitStep(s, Send, x).Some?;
      case SLockResponse =>
      case SSnapshot =>
      case SUnlockResponse(_) =>
      case SCall(_) =>
      case SSending(_, _) =>
      case SDone =>
    }
  }

  // ---------- the end of the send thread

  /** Past its interruption point, at or in the wait at its gate. */
  predicate AtGate(w: SendPc) {
    w == SGate(GLock) || w == SGate(GTest) || w == SGate(GAsleep) || w == SGate(GWoken)
  }

  /** Interrupted, but back at a shut gate: the wait is no interruption point. */
  predicate Doomed(s: State) {
    SendInterrupted(s) && AtGate(s.send) && !s.flags.write
  }

  predicate SendBound(s: State) {
    && SendInterrupted(s)
    && (AtGate(s.send) ==> s.flags.write)
    && (s.send == SGate(GAsleep) ==> s.recv == RExit(XNotify))
  }

  /** Steps the send thread still takes at most, would-blocks apart, when responses have at
      most limit bytes. */
  function SendRank(w: SendPc, limit: nat): nat {
    match w
    case SDone => 0
    case SExit(x) => ExitRank(x)
    case SSending(left, _) => 11 + |left|
    case SCall(left) => 12 + |left|
    case SUnlockResponse(left) => 13 + |left|
    case SSnapshot => 14 + limit
    case SLockResponse => 15 + limit
    case SGate(g) =>
      match g
      case GPoint => 10
      case GStart => 11
      case GUnlock => 16 + limit
      case GClear => 17 + limit
      case GTest => 18 + limit
      case GLock => 19 + limit
      case GWoken => 19 + limit
      case GAsleep => 20 + limit
  }

  function SendSteps(ls: seq<Label>): nat
    decreases |ls|
  {
    if ls == [] then 0 else Bit(ls[0].SendThread?) + SendSteps(ls[1..])
  }

  function WouldBlocks(ls: seq<Label>): nat
    decreases |ls|
  {
    if ls == [] then 0 else Bit(ls[0] == SendThread(WouldBlock)) + WouldBlocks(ls[1..])
  }

  /** The interrupt decides. If the send thread is doomed, the flag raised for it has been
      consumed by itself or withdrawn by a client before the interrupt was requested. */
  lemma InterruptDecides(s: State, o: Outcome)
    requires Inv(s) && s.recv == RExit(XInterrupt)
    ensures
      var t := RecvStep(s, o).value;
      && (Doomed(t) <==> AtGate(s.send) && !s.flags.write)
      && (SendBound(t) <==> !Doomed(t))
      && (Doomed(t) ==> t.log.consumedEarly || t.log.withdrawnEarly)
  {
  }

  lemma SendGateDescends(s: State, g: GatePc, limit: nat)
    requires Inv(s) && SendBound(s) && s.send == SGate(g) && GateStep(s, Send, g).Some?
    ensures
      var t := GateStep(s, Send, g).value;
      SendBound(t) && SendRank(t.send, limit) < SendRank(s.send, limit)
  {
  }

  lemma SendExitDescends(s: State, x: ExitPc, limit: nat)
    requires SendBound(s) && s.send == SExit(x) && ExitStep(s, Send, x).Some?
    ensures
      var t := ExitStep(s, Send, x).value;
      SendBound(t) && SendRank(t.send, limit) < SendRank(s.send, limit)
  {
  }

  lemma SendCallDescends(s: State, o: Outcome, limit: nat)
    requires SendBound(s) && s.send.SSending?
    ensures
      var t := SendStep(s, o).value;
      SendBound(t) && 1 + SendRank(t.send, limit) <= SendRank(s.send, limit) + Bit(o == WouldBlock)
  {
    hide GateStep, ExitStep;
  }

  lemma SendDescends(s: State, o: Outcome, limit: nat)
    requires Inv(s) && SendBound(s) && |s.ctx.response| <= limit && SendStep(s, o).Some?
    ensures
      var t := SendStep(s, o).value;
      SendBound(t) && 1 + SendRank(t.send, limit) <= SendRank(s.send, limit) + Bit(o == WouldBlock)
  {
    hide GateStep, ExitStep;
    match s.send {
      case SGate(g) => SendGateDescends(s, g, limit);
      case SExit(x) => SendExitDescends(s, x, limit);
      case SLockResponse =>
      case SSnapshot =>
      case SUnlockResponse(_) =>
      case SCall(_) =>
      case SSending(_, _) => SendCallDescends(s, o, limit);
      case SDone =>
    }
  }

  lemma SendStaysBound(s: State, ls: seq<Label>, limit: nat)
    requires Inv(s) && SendBound(s) && ls != [] && Without(s, ls, DisableWrite)
    requires Step(s, ls[0]).Some? && !ls[0].SendThread?
    ensures
      var t := Step(s, ls[0]).value;
      SendBound(t) && SendRank(t.send, limit) <= SendRank(s.send, limit)
  {
    match ls[0] {
      case RecvThread(o) => assert Step(s, ls[0]) == ExitStep(s, Recv, XNotify);
      case ClientThread(id, act) =>
        hide ClientStep;
        ClientFrame(s, id, act);
      case PeerSends(_) =>
    }
  }

  lemma {:induction false} SendRun(s: State, ls: seq<Label>, limit: nat)
    requires Inv(s) && SendBound(s) && Without(s, ls, DisableWrite) && Fits(s, ls, limit)
    requires Exec(s, ls).Some?
    ensures
      var t := Exec(s, ls).value;
      Inv(t) && SendBound(t)
      && SendSteps(ls) + SendRank(t.send, limit) <= SendRank(s.send, limit) + WouldBlocks(ls)
    decreases |ls|
  {
    if ls != [] {
      var next := Step(s, ls[0]).value;
      StepKeepsInv(s, ls[0]);
      WithoutStep(s, ls, DisableWrite);
      FitsStep(s, ls, limit);
      if ls[0].SendThread? {
        SendDescends(s, ls[0].o, limit);
      } else {
        SendStaysBound(s, ls, limit);
      }
      SendRun(next, ls[1..], limit);
    }
  }

  /** If the interrupt finds it anywhere but at a shut gate, and with no later disabling, the
      send thread is not left asleep once the handler is done, is never stuck on a mutex whose
      holder cannot move, and exits within a number of steps bounded by the size of the
      responses, plus one for each would-block. */
  lemma SenderEnds(s: State, ls: seq<Label>, limit: nat)
    requires Inv(s) && SendBound(s) && Without(s, ls, DisableWrite) && Fits(s, ls, limit)
    requires Exec(s, ls).Some?
    ensures
      var t := Exec(s, ls).value;
      && (t.recv == RDone ==> t.send != SGate(GAsleep))
      && (t.send == SDone || CanMove(t, Thread(Send)) || HeldByAMover(t, Thread(Send)))
      && SendSteps(ls) + SendRank(t.send, limit) <= SendRank(s.send, limit) + WouldBlocks(ls)
  {
    SendRun(s, ls, limit);
    var t := Exec(s, ls).value;
    if t.send != SDone {
      NotStuck(t, Send);
    }
  }

  lemma DoomedGateStep(s: State, g: GatePc)
    requires Doomed(s) && s.send == SGate(g) && GateStep(s, Send, g).Some?
    ensures
      var t := GateStep(s, Send, g).value;
      Doomed(t) && t.net.wire == s.net.wire
  {
  }

  lemma DoomedStep(s: State, ls: seq<Label>)
    requires Inv(s) && Doomed(s) && ls != [] && Without(s, ls, EnableWrite) && Step(s, ls[0]).Some?
    ensures
      var t := Step(s, ls[0]).value;
      Doomed(t) && t.net.wire == s.net.wire
  {
    match ls[0] {
      case RecvThread(o) => assert Step(s, ls[0]) == ExitStep(s, Recv, XNotify);
      case SendThread(o) => DoomedGateStep(s, s.send.g);
      case ClientThread(id, act) =>
        hide ClientStep;
        ClientFrame(s, id, act);
      case PeerSends(_) =>
    }
  }

  /** If the interrupt finds it at a shut gate, and with no later enabling, the send thread
      stays there for ever: it neither sends nor exits, however often it is woken. */
  lemma {:induction false} DoomedForEver(s: State, ls: seq<Label>)
    requires Inv(s) && Doomed(s) && Without(s, ls, EnableWrite) && Exec(s, ls).Some?
    ensures
      var t := Exec(s, ls).value;
      Doomed(t) && t.net.wire == s.net.wire
    decreases |ls|
  {
    if ls != [] {
      StepKeepsInv(s, ls[0]);
      WithoutStep(s, ls, EnableWrite);
      DoomedStep(s, ls);
      DoomedForEver(Step(s, ls[0]).value, ls[1..]);
    }
  }
}
