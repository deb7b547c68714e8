/** Close isolation over any number of connections: every descriptor accepted for a context is
    closed by that context's code, once, and no other descriptor ever is. */
module ConnectionSafety {
  import opened Socket
  import opened Connections
  import W = Worker
  import WI = WorkerInvariants
  import WP = WorkerPredicates

  // ---------- one worker's descriptor

  /** Between close() and the assignment of INVALID_FD. */
  predicate InWindow(w: W.State) {
    w.recv == W.RExit(W.XAssign) || w.send == W.SExit(W.XAssign)
  }

  /** The worker's code has closed the descriptor. */
  predicate Released(w: W.State) { w.ctx.fd == INVALID_FD || InWindow(w) }

  predicate Gone(c: Connection) { Released(c.w) || c.life.Dead? }

  /** A thread about to close, or in the window, holds the context mutex; so not both are. */
  lemma WindowIsExclusive(w: W.State)
    requires WP.Locks(w)
    ensures !(w.recv == W.RExit(W.XClose) && InWindow(w))
    ensures !(w.send == W.SExit(W.XClose) && InWindow(w))
    ensures !(w.recv == W.RExit(W.XAssign) && w.send == W.SExit(W.XAssign))
  {
    if w.recv == W.RExit(W.XClose) || w.recv == W.RExit(W.XAssign) {
      assert WP.Holds(w, W.Thread(W.Recv)) == Some(W.ContextMutex);
    }
    if w.send == W.SExit(W.XClose) || w.send == W.SExit(W.XAssign) {
      assert WP.Holds(w, W.Thread(W.Send)) == Some(W.ContextMutex);
    }
  }

  predicate Past(x: W.ExitPc) { x != W.XLock && x != W.XClose && x != W.XAssign }

  /** One of the two exit handlers has assigned INVALID_FD. */
  predicate HandlerRan(w: W.State) {
    && w.castOk
    && (w.recv.RDone? || w.send.SDone? || (w.recv.RExit? && Past(w.recv.x)) || (w.send.SExit? && Past(w.send.x)))
  }

  /** What a step of a worker does to its descriptor. */
  predicate FdFollows(w: W.State, w': W.State, closing: bool) {
    && (Released(w') <==> Released(w) || closing)
    && (!Released(w') ==> w'.ctx.fd == w.ctx.fd)
    && (closing ==> (Released(w) <==> w.ctx.fd == INVALID_FD))
    && (w'.ctx.fd == w.ctx.fd || w'.ctx.fd == INVALID_FD)
    && (HandlerRan(w') ==> HandlerRan(w) || w'.ctx.fd == INVALID_FD)
  }

  lemma RecvExitFd(w: W.State, x: W.ExitPc)
    requires WP.Locks(w) && w.recv == W.RExit(x) && W.ExitStep(w, W.Recv, x).Some?
    ensures FdFollows(w, W.ExitStep(w, W.Recv, x).value, x == W.XClose)
  {
    WindowIsExclusive(w);
    match x {
      case XLock =>
      case XClose =>
      case XAssign =>
      case XUnlock =>
      case XLockGate =>
      case XRaise =>
      case XUnlockGate =>
      case XInterrupt =>
      case XNotify =>
    }
  }

  lemma SendExitFd(w: W.State, x: W.ExitPc)
    requires WP.Locks(w) && w.send == W.SExit(x) && W.ExitStep(w, W.Send, x).Some?
    ensures FdFollows(w, W.ExitStep(w, W.Send, x).value, x == W.XClose)
  {
    WindowIsExclusive(w);
    match x {
      case XLock =>
      case XClose =>
      case XAssign =>
      case XUnlock =>
      case XLockGate =>
      case XRaise =>
      case XUnlockGate =>
      case XInterrupt =>
      case XNotify =>
    }
  }

  lemma GateFd(w: W.State, side: W.Side, g: W.GatePc)
    requires W.GateStep(w, side, g).Some?
    requires if side == W.Recv then w.recv == W.RGate(g) else w.send == W.SGate(g)
    ensures FdFollows(w, W.GateStep(w, side, g).value, false)
  {
  }

  lemma RecvFd(w: W.State, o: Outcome)
    requires WP.Locks(w) && W.RecvStep(w, o).Some?
    ensures FdFollows(w, W.RecvStep(w, o).value, w.recv == W.RExit(W.XClose))
  {
    hide W.GateStep, W.ExitStep;
    match w.recv {
      case RGate(g) => GateFd(w, W.Recv, g);
      case RExit(x) => RecvExitFd(w, x);
      case RCall =>
      case RInRecv(_) =>
      case RLockRequest(_) =>
      case RAppend(_) =>
      case RUnlockRequest =>
      case RDone =>
    }
  }

  lemma SendFd(w: W.State, o: Outcome)
    requires WP.Locks(w) && W.SendStep(w, o).Some?
    ensures FdFollows(w, W.SendStep(w, o).value, w.send == W.SExit(W.XClose))
  {
    hide W.GateStep, W.ExitStep;
    match w.send {
      case SGate(g) => GateFd(w, W.Send, g);
      case SExit(x) => SendExitFd(w, x);
      case SLockResponse =>
      case SSnapshot =>
      case SUnlockResponse(_) =>
      case SCall(_) =>
      case SSending(_, _) =>
      case SDone =>
    }
  }

  lemma ClientFd(w: W.State, id: nat, act: W.ClientAct)
    requires W.ClientStep(w, id, act).Some?
    ensures FdFollows(w, W.ClientStep(w, id, act).value, false)
  {
    var t := W.ClientStep(w, id, act).value;
    assert t.recv == w.recv && t.send == w.send && t.castOk == w.castOk;
    assert t.ctx.fd == w.ctx.fd;
  }

  lemma StepFd(w: W.State, l: W.Label)
    requires WP.Locks(w) && W.Step(w, l).Some?
    ensures FdFollows(w, W.Step(w, l).value, Closing(w, l))
  {
    match l {
      case RecvThread(o) => RecvFd(w, o);
      case SendThread(o) => SendFd(w, o);
      case ClientThread(id, act) => ClientFd(w, id, act);
      case PeerSends(_) =>
    }
  }

  // ---------- the invariant

  /** Calls of close() by connection i that closed something. */
  function CloseCount(closes: seq<Close>, i: nat): nat {
    if closes == [] then 0
    else
      var last := closes[|closes| - 1];
      CloseCount(closes[..|closes| - 1], i) + Bit(last.conn == i && last.hit.Some?)
  }

  lemma CountSnoc(closes: seq<Close>, c: Close, i: nat)
    ensures CloseCount(closes + [c], i) == CloseCount(closes, i) + Bit(c.conn == i && c.hit.Some?)
  {
    assert (closes + [c])[..|closes|] == closes;
  }

  ghost predicate WorkerOk(c: Connection) {
    && W.Reachable(c.w)
    && (!c.w.castOk ==> !Released(c.w))
    && (HandlerRan(c.w) ==> c.w.ctx.fd == INVALID_FD)
    && (c.phase.NoThread? ==> c.w.recv == W.RGate(W.GStart) && c.w.send == W.SGate(W.GStart))
    && (c.phase.Finished? ==> c.w.recv == W.RDone && c.w.send == W.SDone)
  }

  predicate LifeOk(sys: System, i: nat)
    requires i < |sys.conns|
  {
    var c := sys.conns[i];
    && (c.phase.NoThread? <==> sys.loop == Built(i) || sys.loop == Pushed(i))
    && (!c.life.Alive? ==> c.phase.Finished? && i !in sys.queue && !LoopHolds(sys.loop, i))
  }

  /** Open under its own number and never closed, or closed exactly once. */
  predicate FdOk(table: map<int, Owner>, closes: seq<Close>, i: nat, c: Connection) {
    && CloseCount(closes, i) == Bit(Gone(c))
    && (!Gone(c) ==> c.w.ctx.fd in table && table[c.w.ctx.fd] == Accepted(i))
  }

  predicate TableOk(table: map<int, Owner>, conns: seq<Connection>) {
    forall fd :: fd in table ==>
      fd >= 0 && (table[fd].Accepted? ==>
        table[fd].conn < |conns| && !Gone(conns[table[fd].conn]) && conns[table[fd].conn].w.ctx.fd == fd)
  }

  /** The call closed the caller's own descriptor, or was close(INVALID_FD), which closes
      nothing. */
  predicate CloseOk(c: Close, n: nat) {
    c.conn < n && c.hit == if c.fd == INVALID_FD then None else Some(Accepted(c.conn))
  }

  predicate QueueOk(sys: System) {
    && (forall i :: i in sys.queue ==> i < |sys.conns|)
    && (sys.loop.Built? || sys.loop.Pushed? || sys.loop.Started? ==> sys.loop.i < |sys.conns|)
    && (!sys.loop.Stopped? ==> forall i :: 0 <= i < |sys.conns| ==> i in sys.queue || sys.loop == Built(i))
  }

  ghost predicate ConnOk(sys: System, i: nat)
    requires i < |sys.conns|
  {
    WorkerOk(sys.conns[i]) && LifeOk(sys, i) && FdOk(sys.table, sys.closes, i, sys.conns[i])
  }

  ghost predicate Inv(sys: System) {
    && TableOk(sys.table, sys.conns)
    && (forall i :: 0 <= i < |sys.conns| ==> ConnOk(sys, i))
    && (forall k :: 0 <= k < |sys.closes| ==> CloseOk(sys.closes[k], |sys.conns|))
    && QueueOk(sys)
  }

  // ---------- events that leave descriptors alone

  lemma AcceptKeepsInv(sys: System, fd: int, castOk: bool)
    requires Inv(sys) && Next(sys, Accept(fd, castOk)).Some?
    ensures Inv(Next(sys, Accept(fd, castOk)).value)
  {
    var t, n := Next(sys, Accept(fd, castOk)).value, |sys.conns|;
    W.ReachableInit(fd, castOk);
    NoClosesYet(sys.closes, n);
    forall i | 0 <= i < |t.conns|
      ensures ConnOk(t, i)
    {
      if i < n {
        assert ConnOk(sys, i) && t.conns[i] == sys.conns[i];
      }
    }
  }

  lemma {:induction false} NoClosesYet(closes: seq<Close>, n: nat)
    requires forall k :: 0 <= k < |closes| ==> CloseOk(closes[k], n)
    ensures CloseCount(closes, n) == 0
  {
    if closes != [] {
      var front := closes[..|closes| - 1];
      forall k | 0 <= k < |front|
        ensures CloseOk(front[k], n)
      {
        assert front[k] == closes[k];
      }
      NoClosesYet(front, n);
    }
  }

  lemma LoopKeepsInv(sys: System)
    requires Inv(sys) && LoopStep(sys).Some?
    ensures Inv(LoopStep(sys).value)
  {
    var t := LoopStep(sys).value;
    forall i | 0 <= i < |t.conns|
      ensures ConnOk(t, i)
    {
      assert ConnOk(sys, i);
    }
    forall fd | fd in t.table && t.table[fd].Accepted?
      ensures !Gone(t.conns[t.table[fd].conn]) && t.conns[t.table[fd].conn].w.ctx.fd == fd
    {
      var c := sys.conns[sys.table[fd].conn];
    }
  }

  /** Only the accept loop or the queue has moved. */
  lemma ServerKeepsInv(sys: System, t: System)
    requires Inv(sys) && t == sys.(loop := t.loop, queue := t.queue) && t.loop.Stopped?
    requires forall i :: i in t.queue ==> i in sys.queue
    requires sys.loop.Accepting? || sys.loop.Stopped?
    ensures Inv(t)
  {
    forall i | 0 <= i < |t.conns|
      ensures ConnOk(t, i)
    {
      assert ConnOk(sys, i);
    }
  }

  /** Connection j changes only in what its descriptor does not depend on. */
  lemma PutKeepsInv(sys: System, j: nat, c: Connection)
    requires Inv(sys) && j < |sys.conns|
    requires WorkerOk(c) && LifeOk(Put(sys, j, c), j)
    requires Gone(c) == Gone(sys.conns[j]) && (!Gone(c) ==> c.w.ctx.fd == sys.conns[j].w.ctx.fd)
    ensures Inv(Put(sys, j, c))
  {
    var t := Put(sys, j, c);
    forall i | 0 <= i < |t.conns|
      ensures ConnOk(t, i)
    {
      assert ConnOk(sys, i);
    }
  }

  /** Connection j calls close() on its own number. */
  lemma CloseKeepsInv(sys: System, j: nat, c: Connection, fd: int)
    requires Inv(sys) && j < |sys.conns|
    requires WorkerOk(c) && LifeOk(Put(sys, j, c), j) && Gone(c)
    requires fd == sys.conns[j].w.ctx.fd && (Gone(sys.conns[j]) <==> fd == INVALID_FD)
    ensures Inv(CloseFd(Put(sys, j, c), j, fd))
  {
    var put := Put(sys, j, c);
    var t := CloseFd(put, j, fd);
    var event := t.closes[|sys.closes|];
    assert ConnOk(sys, j);
    assert event.hit == if fd == INVALID_FD then None else Some(Accepted(j));
    forall i | 0 <= i < |t.conns|
      ensures ConnOk(t, i)
    {
      assert ConnOk(sys, i);
      CountSnoc(sys.closes, event, i);
    }
    forall k | 0 <= k < |t.closes|
      ensures CloseOk(t.closes[k], |t.conns|)
    {
      if k < |sys.closes| {
        assert t.closes[k] == sys.closes[k];
      }
    }
  }

  lemma WorkKeepsInv(sys: System, i: nat, l: W.Label)
    requires Inv(sys) && WorkStep(sys, i, l).Some?
    ensures Inv(WorkStep(sys, i, l).value)
  {
    var c := sys.conns[i];
    assert ConnOk(sys, i);
    WI.ReachableInv(c.w);
    StepFd(c.w, l);
    WI.StepKeepsCast(c.w, l);
    var w := W.ReachableStep(c.w, l);
    if Closing(c.w, l) {
      CloseKeepsInv(sys, i, c.(w := w), c.w.ctx.fd);
    } else {
      PutKeepsInv(sys, i, c.(w := w));
    }
  }

  lemma DestructorKeepsInv(sys: System, i: nat)
    requires Inv(sys) && DestructorStep(sys, i).Some?
    ensures Inv(DestructorStep(sys, i).value)
  {
    var c := sys.conns[i];
    assert ConnOk(sys, i);
    if c.w.ctx.fd != INVALID_FD {
      CloseKeepsInv(sys, i, c.(life := Dead), c.w.ctx.fd);
    } else {
      PutKeepsInv(sys, i, c.(life := Dead));
    }
  }

  lemma ForeignKeepsInv(sys: System, e: Event)
    requires Inv(sys) && (e.ForeignOpen? || e.ForeignClose?) && Next(sys, e).Some?
    ensures Inv(Next(sys, e).value)
  {
    var t := Next(sys, e).value;
    forall i | 0 <= i < |t.conns|
      ensures ConnOk(t, i)
    {
      assert ConnOk(sys, i);
    }
  }

  lemma NextKeepsInv(sys: System, e: Event)
    requires Inv(sys) && Next(sys, e).Some?
    ensures Inv(Next(sys, e).value)
  {
    match e {
      case Accept(fd, castOk) => AcceptKeepsInv(sys, fd, castOk);
      case AcceptFails => ServerKeepsInv(sys, Next(sys, e).value);
      case LoopGoes => LoopKeepsInv(sys);
      case Work(i, l) => WorkKeepsInv(sys, i, l);
      case Join(i) =>
        assert ConnOk(sys, i);
        PutKeepsInv(sys, i, sys.conns[i].(phase := Finished));
      case QueueDrops => ServerKeepsInv(sys, Next(sys, e).value);
      case Destroy(i) =>
        assert ConnOk(sys, i);
        PutKeepsInv(sys, i, sys.conns[i].(life := Dying));
      case DestructorGoes(i) => DestructorKeepsInv(sys, i);
      case ForeignOpen(_) => ForeignKeepsInv(sys, e);
      case ForeignClose(_) => ForeignKeepsInv(sys, e);
    }
  }

  lemma {:induction false} RunKeepsInv(sys: System, es: seq<Event>)
    requires Inv(sys) && Run(sys, es).Some?
    ensures Inv(Run(sys, es).value)
    decreases |es|
  {
    if es != [] {
      NextKeepsInv(sys, es[0]);
      RunKeepsInv(Next(sys, es[0]).value, es[1..]);
    }
  }

  lemma ReachableInv(sys: System)
    requires Reachable(sys)
    ensures Inv(sys)
  {
    var es :| Run(Start(), es) == Some(sys);
    RunKeepsInv(Start(), es);
  }

  // ---------- results

  /** However connections interleave and numbers are reused, every close() a handler or a
      destructor makes either is close(INVALID_FD), or closes the descriptor that was accepted
      for that very connection: never another's, and never a number already closed. */
  lemma CloseIsolation(sys: System, k: nat)
    requires Reachable(sys) && k < |sys.closes|
    ensures sys.closes[k].hit == if sys.closes[k].fd == INVALID_FD then None else Some(Accepted(sys.closes[k].conn))
  {
    ReachableInv(sys);
    assert CloseOk(sys.closes[k], |sys.conns|);
  }

  /** A connection's descriptor is closed at most once; it is still open exactly as long as it
      has not been closed; and once the context is gone it has been. */
  lemma ClosedExactlyOnce(sys: System, i: nat)
    requires Reachable(sys) && i < |sys.conns|
    ensures CloseCount(sys.closes, i) <= 1
    ensures CloseCount(sys.closes, i) == 0 <==> exists fd :: fd in sys.table && sys.table[fd] == Accepted(i)
    ensures sys.conns[i].life.Dead? ==> CloseCount(sys.closes, i) == 1
  {
    ReachableInv(sys);
    var c := sys.conns[i];
    assert ConnOk(sys, i);
    if !Gone(c) {
      assert c.w.ctx.fd in sys.table && sys.table[c.w.ctx.fd] == Accepted(i);
    }
  }

  /** Whichever thread leaves first closes the descriptor: once a handler is past its
      assignment the count is one, and so whatever the other thread and the destructor do. */
  lemma FirstHandlerCloses(sys: System, i: nat)
    requires Reachable(sys) && i < |sys.conns| && HandlerRan(sys.conns[i].w)
    ensures CloseCount(sys.closes, i) == 1 && sys.conns[i].w.ctx.fd == INVALID_FD
    ensures forall fd :: fd in sys.table ==> sys.table[fd] != Accepted(i)
  {
    ReachableInv(sys);
    assert ConnOk(sys, i);
  }

  /** A live context that no exit handler is closing, and whose descriptor is not INVALID_FD,
      owns that open descriptor. Another context that is not gone can show the same number only
      between its own close() and its assignment of INVALID_FD, with its mutex held; so no other
      unlocked context does. */
  lemma UniqueOwner(sys: System, i: nat)
    requires Reachable(sys) && i < |sys.conns|
    requires !sys.conns[i].life.Dead? && W.ContextMutex !in sys.conns[i].w.held
    requires sys.conns[i].w.ctx.fd != INVALID_FD
    ensures
      var fd := sys.conns[i].w.ctx.fd;
      && fd in sys.table && sys.table[fd] == Accepted(i)
      && (forall n :: n in sys.table && sys.table[n] == Accepted(i) ==> n == fd)
      && forall j :: 0 <= j < |sys.conns| && j != i && !sys.conns[j].life.Dead? && sys.conns[j].w.ctx.fd == fd ==>
           InWindow(sys.conns[j].w) && W.ContextMutex in sys.conns[j].w.held
  {
    ReachableInv(sys);
    var c := sys.conns[i];
    assert ConnOk(sys, i);
    WindowIsLocked(c.w);
    forall j | 0 <= j < |sys.conns| && j != i && !sys.conns[j].life.Dead? && sys.conns[j].w.ctx.fd == c.w.ctx.fd
      ensures InWindow(sys.conns[j].w) && W.ContextMutex in sys.conns[j].w.held
    {
      assert ConnOk(sys, j);
      WindowIsLocked(sys.conns[j].w);
    }
  }

  lemma WindowIsLocked(w: W.State)
    requires W.Reachable(w)
    ensures InWindow(w) ==> W.ContextMutex in w.held
  {
    WI.ReachableInv(w);
    if InWindow(w) {
      assert
        || WP.Holds(w, W.Thread(W.Recv)) == Some(W.ContextMutex)
        || WP.Holds(w, W.Thread(W.Send)) == Some(W.ContextMutex);
    }
  }

  /** Each connection's worker is in a state of a run of its own, so all that is proved of one
      worker holds of every connection. */
  lemma EachIsAWorker(sys: System, i: nat)
    requires Reachable(sys) && i < |sys.conns|
    ensures W.Reachable(sys.conns[i].w)
  {
    ReachableInv(sys);
    assert ConnOk(sys, i);
  }

  /** Nothing takes contexts off the queue: as long as the server accepts connections no
      context is destroyed, however long ago its connection has ended. */
  lemma NoneDestroyedWhileServing(sys: System, i: nat)
    requires Reachable(sys) && i < |sys.conns| && !sys.loop.Stopped?
    ensures sys.conns[i].life.Alive? && (i in sys.queue || sys.loop == Built(i)) && UseCount(sys, i) > 0
  {
    ReachableInv(sys);
    assert ConnOk(sys, i);
    assert i in sys.queue || sys.loop == Built(i);
    assert i in sys.queue || LoopHolds(sys.loop, i);
  }

  /** A context that is not an IPv4 one is left to its destructor: until then, and so for as
      long as the server runs, its descriptor stays open. */
  lemma FailedCastStaysOpen(sys: System, i: nat)
    requires Reachable(sys) && i < |sys.conns| && !sys.conns[i].w.castOk
    ensures CloseCount(sys.closes, i) == if sys.conns[i].life.Dead? then 1 else 0
    ensures !sys.loop.Stopped? ==> CloseCount(sys.closes, i) == 0
  {
    ReachableInv(sys);
    assert ConnOk(sys, i);
  }

  /** When every context is gone, no accepted descriptor is open. */
  lemma NothingLeaks(sys: System)
    requires Reachable(sys) && forall i :: 0 <= i < |sys.conns| ==> sys.conns[i].life.Dead?
    ensures forall fd :: fd in sys.table ==> sys.table[fd] == Foreign
    ensures forall i :: 0 <= i < |sys.conns| ==> CloseCount(sys.closes, i) == 1
  {
    ReachableInv(sys);
    forall i | 0 <= i < |sys.conns|
      ensures CloseCount(sys.closes, i) == 1
    {
      assert ConnOk(sys, i);
    }
  }
}
