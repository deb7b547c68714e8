/** Every call of close() accounted for: each exit handler makes one, on the descriptor or on
    INVALID_FD, and the destructor makes one exactly if the descriptor has been left to it. */
module CloseCalls {
  import opened Socket
  import opened Connections
  import opened ConnectionSafety
  import W = Worker
  import WI = WorkerInvariants
  import WP = WorkerPredicates

  function CallsBy(closes: seq<Close>, i: nat): nat {
    if closes == [] then 0
    else CallsBy(closes[..|closes| - 1], i) + Bit(closes[|closes| - 1].conn == i)
  }

  lemma CallsSnoc(closes: seq<Close>, c: Close, i: nat)
    ensures CallsBy(closes + [c], i) == CallsBy(closes, i) + Bit(c.conn == i)
  {
    assert (closes + [c])[..|closes|] == closes;
  }

  predicate PastClose(x: W.ExitPc) { x != W.XLock && x != W.XClose }

  /** The exit handlers that have made their call. */
  function HandlerCalls(w: W.State): nat {
    if !w.castOk then 0
    else
      Bit(w.recv.RDone? || (w.recv.RExit? && PastClose(w.recv.x)))
        + Bit(w.send.SDone? || (w.send.SExit? && PastClose(w.send.x)))
  }

  lemma ExitCalls(w: W.State, side: W.Side, x: W.ExitPc)
    requires W.ExitStep(w, side, x).Some?
    requires if side == W.Recv then w.recv == W.RExit(x) else w.send == W.SExit(x)
    ensures HandlerCalls(W.ExitStep(w, side, x).value) == HandlerCalls(w) + Bit(w.castOk && x == W.XClose)
  {
  }

  lemma GateCalls(w: W.State, side: W.Side, g: W.GatePc)
    requires W.GateStep(w, side, g).Some?
    requires if side == W.Recv then w.recv == W.RGate(g) else w.send == W.SGate(g)
    ensures HandlerCalls(W.GateStep(w, side, g).value) == HandlerCalls(w)
  {
  }

  lemma RecvCalls(w: W.State, o: Outcome)
    requires W.RecvStep(w, o).Some?
    ensures
      HandlerCalls(W.RecvStep(w, o).value) == HandlerCalls(w) + Bit(w.castOk && w.recv == W.RExit(W.XClose))
  {
    hide W.GateStep, W.ExitStep;
    match w.recv {
      case RGate(g) => GateCalls(w, W.Recv, g);
      case RExit(x) => ExitCalls(w, W.Recv, x);
      case RCall =>
      case RInRecv(_) =>
      case RLockRequest(_) =>
      case RAppend(_) =>
      case RUnlockRequest =>
      case RDone =>
    }
  }

  lemma SendCalls(w: W.State, o: Outcome)
    requires W.SendStep(w, o).Some?
    ensures
      HandlerCalls(W.SendStep(w, o).value) == HandlerCalls(w) + Bit(w.castOk && w.send == W.SExit(W.XClose))
  {
    hide W.GateStep, W.ExitStep;
    match w.send {
      case SGate(g) => GateCalls(w, W.Send, g);
      case SExit(x) => ExitCalls(w, W.Send, x);
      case SLockResponse =>
      case SSnapshot =>
      case SUnlockResponse(_) =>
      case SCall(_) =>
      case SSending(_, _) =>
      case SDone =>
    }
  }

  lemma ClientCalls(w: W.State, id: nat, act: W.ClientAct)
    requires W.ClientStep(w, id, act).Some?
    ensures HandlerCalls(W.ClientStep(w, id, act).value) == HandlerCalls(w)
  {
    var t := W.ClientStep(w, id, act).value;
    assert t.recv == w.recv && t.send == w.send && t.castOk == w.castOk;
  }

  lemma WorkerCalls(w: W.State, l: W.Label)
    requires WP.Cast(w) && W.Step(w, l).Some?
    ensures HandlerCalls(W.Step(w, l).value) == HandlerCalls(w) + Bit(Closing(w, l))
  {
    hide W.RecvStep, W.SendStep, W.ClientStep;
    match l {
      case RecvThread(o) => RecvCalls(w, o);
      case SendThread(o) => SendCalls(w, o);
      case ClientThread(id, act) => ClientCalls(w, id, act);
      case PeerSends(_) =>
    }
  }

  // ---------- over all connections

  function CallsOf(c: Connection): nat {
    HandlerCalls(c.w) + Bit(c.life.Dead? && c.w.ctx.fd != INVALID_FD)
  }

  /** Connection i's calls: its handlers', and its destructor's if it found the descriptor. */
  predicate CallsOk(sys: System, i: nat)
    requires i < |sys.conns|
  {
    CallsBy(sys.closes, i) == CallsOf(sys.conns[i])
  }

  ghost predicate AllCalls(sys: System) {
    && (forall i :: 0 <= i < |sys.conns| ==> CallsOk(sys, i))
    && forall k :: 0 <= k < |sys.closes| ==> sys.closes[k].conn < |sys.conns|
  }

  lemma {:induction false} NoCallsYet(closes: seq<Close>, n: nat)
    requires forall k :: 0 <= k < |closes| ==> closes[k].conn < n
    ensures CallsBy(closes, n) == 0
  {
    if closes != [] {
      var front := closes[..|closes| - 1];
      forall k | 0 <= k < |front|
        ensures front[k].conn < n
      {
        assert front[k] == closes[k];
      }
      NoCallsYet(front, n);
    }
  }

  /** Connection j changes, with a call of close() or without. */
  lemma PutKeepsCalls(sys: System, t: System, j: nat, c: Connection, called: bool)
    requires AllCalls(sys) && j < |sys.conns|
    requires t.conns == sys.conns[j := c]
    requires if called then |t.closes| > 0 && t.closes[..|t.closes| - 1] == sys.closes else t.closes == sys.closes
    requires called ==> t.closes[|t.closes| - 1].conn == j
    requires CallsOf(c) == CallsOf(sys.conns[j]) + Bit(called)
    ensures AllCalls(t)
  {
    if called {
      assert t.closes == sys.closes + [t.closes[|sys.closes|]];
    }
    forall i | 0 <= i < |t.conns|
      ensures CallsOk(t, i)
    {
      assert CallsOk(sys, i);
      if called {
        CallsSnoc(sys.closes, t.closes[|sys.closes|], i);
      }
    }
  }

  lemma WorkKeepsCalls(sys: System, i: nat, l: W.Label)
    requires Inv(sys) && AllCalls(sys) && WorkStep(sys, i, l).Some?
    ensures AllCalls(WorkStep(sys, i, l).value)
  {
    hide W.Step, CallsOk, Closing;
    assert ConnOk(sys, i);
    var c, t := sys.conns[i], WorkStep(sys, i, l).value;
    WI.ReachableInv(c.w);
    WorkerCalls(c.w, l);
    assert Closing(c.w, l) ==> t.closes[..|t.closes| - 1] == sys.closes && |t.closes| == |sys.closes| + 1;
    PutKeepsCalls(sys, t, i, t.conns[i], Closing(c.w, l));
  }

  lemma NextKeepsCalls(sys: System, e: Event)
    requires Inv(sys) && AllCalls(sys) && Next(sys, e).Some?
    ensures AllCalls(Next(sys, e).value)
  {
    hide W.Step, UseCount, CallsOk;
    var t := Next(sys, e).value;
    match e {
      case Accept(fd, castOk) => AcceptKeepsCalls(sys, fd, castOk);
      case Work(i, l) => WorkKeepsCalls(sys, i, l);
      case DestructorGoes(i) =>
        assert ConnOk(sys, i);
        var left := sys.conns[i].w.ctx.fd != INVALID_FD;
        assert left ==> t.closes[..|t.closes| - 1] == sys.closes && |t.closes| == |sys.closes| + 1;
        PutKeepsCalls(sys, t, i, t.conns[i], left);
      case Join(i) => PutKeepsCalls(sys, t, i, t.conns[i], false);
      case Destroy(i) => PutKeepsCalls(sys, t, i, t.conns[i], false);
      case LoopGoes =>
        if sys.loop.Pushed? {
          PutKeepsCalls(sys, t, sys.loop.i, t.conns[sys.loop.i], false);
        } else {
          SameKeepsCalls(sys, t);
        }
      case AcceptFails => SameKeepsCalls(sys, t);
      case QueueDrops => SameKeepsCalls(sys, t);
      case ForeignOpen(_) => SameKeepsCalls(sys, t);
      case ForeignClose(_) => SameKeepsCalls(sys, t);
    }
  }

  lemma SameKeepsCalls(sys: System, t: System)
    requires AllCalls(sys) && t.conns == sys.conns && t.closes == sys.closes
    ensures AllCalls(t)
  {
    forall i | 0 <= i < |t.conns|
      ensures CallsOk(t, i)
    {
      assert CallsOk(sys, i);
    }
  }

  lemma AcceptKeepsCalls(sys: System, fd: int, castOk: bool)
    requires AllCalls(sys) && Next(sys, Accept(fd, castOk)).Some?
    ensures AllCalls(Next(sys, Accept(fd, castOk)).value)
  {
    var t := Next(sys, Accept(fd, castOk)).value;
    NoCallsYet(sys.closes, |sys.conns|);
    forall i | 0 <= i < |t.conns|
      ensures CallsOk(t, i)
    {
      if i < |sys.conns| {
        assert CallsOk(sys, i) && t.conns[i] == sys.conns[i];
      }
    }
  }

  lemma {:induction false} RunKeepsCalls(sys: System, es: seq<Event>)
    requires Inv(sys) && AllCalls(sys) && Run(sys, es).Some?
    ensures AllCalls(Run(sys, es).value)
    decreases |es|
  {
    hide Next, AllCalls, Inv;
    if es != [] {
      NextKeepsCalls(sys, es[0]);
      NextKeepsInv(sys, es[0]);
      RunKeepsCalls(Next(sys, es[0]).value, es[1..]);
    }
  }

  /** For every course of events: a connection's close() calls are those of its exit handlers, one
      each, and its destructor's, which makes one if and only if no handler has closed the
      descriptor before. */
  lemma CloseCallsExactly(sys: System, i: nat)
    requires Reachable(sys) && i < |sys.conns|
    ensures
      var c := sys.conns[i];
      CallsBy(sys.closes, i) == HandlerCalls(c.w) + Bit(c.life.Dead? && c.w.ctx.fd != INVALID_FD)
  {
    var es :| Run(Start(), es) == Some(sys);
    RunKeepsCalls(Start(), es);
    assert CallsOk(sys, i);
  }
}
