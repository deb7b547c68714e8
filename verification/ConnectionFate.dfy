/** Every connection of the server behaves as a worker on its own, and when its context can be
    destroyed. */
module ConnectionFate {
  import opened Socket
  import opened Connections
  import opened ConnectionSafety
  import W = Worker
  import WE = WorkerEnd
  import WF = WorkerFate
  import WI = WorkerInvariants
  import WS = WorkerShutdown

  // ---------- a connection's worker, seen alone

  /** The steps of connection i's worker in a course of events. */
  function WorkOf(es: seq<Event>, i: nat): seq<W.Label>
    decreases |es|
  {
    if es == [] then []
    else if es[0].Work? && es[0].i == i then [es[0].l] + WorkOf(es[1..], i)
    else WorkOf(es[1..], i)
  }

  lemma NextProjects(sys: System, e: Event, i: nat)
    requires Next(sys, e).Some? && i < |sys.conns|
    ensures
      var t := Next(sys, e).value;
      i < |t.conns|
      && if e.Work? && e.i == i then W.Step(sys.conns[i].w, e.l) == Some(t.conns[i].w)
         else t.conns[i].w == sys.conns[i].w
  {
    hide W.Step;
  }

  /** Whatever the other connections, the loop and the rest of the process do in between,
      connection i's worker has run its own steps and nothing else. */
  lemma {:induction false} RunProjects(sys: System, es: seq<Event>, i: nat)
    requires Run(sys, es).Some? && i < |sys.conns|
    ensures
      var t := Run(sys, es).value;
      i < |t.conns| && W.Exec(sys.conns[i].w, WorkOf(es, i)) == Some(t.conns[i].w)
    decreases |es|
  {
    hide Next, W.Step;
    if es != [] {
      var next := Next(sys, es[0]).value;
      NextProjects(sys, es[0], i);
      RunProjects(next, es[1..], i);
      if es[0].Work? && es[0].i == i {
        assert WorkOf(es, i)[1..] == WorkOf(es[1..], i);
      }
    }
  }

  function Works(i: nat, ls: seq<W.Label>): seq<Event> {
    seq(|ls|, k requires 0 <= k < |ls| => Work(i, ls[k]))
  }

  /** Conversely, every run of a started worker is open to it whatever state the server is in, and
      disturbs no other connection. */
  lemma {:induction false} RunLifts(sys: System, i: nat, ls: seq<W.Label>)
    requires i < |sys.conns| && sys.conns[i].phase.Working? && W.Exec(sys.conns[i].w, ls).Some?
    ensures Run(sys, Works(i, ls)).Some?
    ensures
      var t := Run(sys, Works(i, ls)).value;
      && t.conns == sys.conns[i := sys.conns[i].(w := W.Exec(sys.conns[i].w, ls).value)]
      && t.loop == sys.loop && t.queue == sys.queue
      && forall fd :: fd in t.table ==> fd in sys.table && t.table[fd] == sys.table[fd]
    decreases |ls|
  {
    hide W.Step, Closing;
    if ls == [] {
      assert Works(i, ls) == [];
      assert sys.conns == sys.conns[i := sys.conns[i]];
    } else {
      var next := WorkStep(sys, i, ls[0]).value;
      assert Works(i, ls)[1..] == Works(i, ls[1..]);
      RunLifts(next, i, ls[1..]);
    }
  }

  // ---------- when a context can be destroyed

  /** In the course es, in which accept() does not fail, connection i's context is destroyed. */
  predicate Destroys(sys: System, i: nat, es: seq<Event>) {
    AcceptFails !in es && Run(sys, es).Some? && i < |Run(sys, es).value.conns| && Run(sys, es).value.conns[i].life.Dead?
  }

  lemma {:induction false} StaysServing(sys: System, es: seq<Event>)
    requires !sys.loop.Stopped? && AcceptFails !in es && Run(sys, es).Some?
    ensures !Run(sys, es).value.loop.Stopped?
    decreases |es|
  {
    hide W.Step, Closing, UseCount;
    if es != [] {
      assert es[0] in es;
      StaysServing(Next(sys, es[0]).value, es[1..]);
    }
  }

  /** The destroyed queue lets go of every context. */
  lemma {:induction false} Drain(sys: System, i: nat) returns (es: seq<Event>)
    requires sys.loop.Stopped?
    ensures AcceptFails !in es && Run(sys, es) == Some(sys.(queue := [])) && WorkOf(es, i) == []
    decreases |sys.queue|
  {
    if sys.queue == [] {
      es := [];
    } else {
      var rest := Drain(sys.(queue := sys.queue[1..]), i);
      es := [QueueDrops] + rest;
      assert es[1..] == rest;
    }
  }

  lemma {:induction false} WorkOfBoth(a: seq<Event>, b: seq<Event>, i: nat)
    ensures WorkOf(a + b, i) == WorkOf(a, i) + WorkOf(b, i)
    decreases |a|
  {
    if a == [] {
      assert a + b == b;
    } else {
      assert (a + b)[1..] == a[1..] + b;
      WorkOfBoth(a[1..], b, i);
    }
  }

  lemma {:induction false} WorkOfWorks(i: nat, ls: seq<W.Label>)
    ensures WorkOf(Works(i, ls), i) == ls
    decreases |ls|
  {
    if ls != [] {
      assert Works(i, ls)[1..] == Works(i, ls[1..]);
      WorkOfWorks(i, ls[1..]);
    }
  }

  lemma NoWork(e: Event, i: nat)
    requires !e.Work?
    ensures WorkOf([e], i) == []
  {
    assert [e][1..] == [];
  }

  /** Two courses of events, one after the other. */
  lemma Then(sys: System, a: seq<Event>, b: seq<Event>, i: nat)
    requires Run(sys, a).Some? && Run(Run(sys, a).value, b).Some?
    requires AcceptFails !in a && AcceptFails !in b
    ensures AcceptFails !in a + b && Run(sys, a + b) == Run(Run(sys, a).value, b)
    ensures WorkOf(a + b, i) == WorkOf(a, i) + WorkOf(b, i)
  {
    RunAppend(sys, a, b);
    WorkOfBoth(a, b, i);
  }

  /** With the threads gone and the queue empty, the last reference goes, and the destructor runs. */
  lemma LetGo(sys: System, i: nat) returns (es: seq<Event>)
    requires i < |sys.conns| && sys.loop.Stopped? && sys.queue == [] && sys.conns[i].life.Alive?
    requires sys.conns[i].phase.Finished? && WE.Over(sys.conns[i].w)
    ensures Destroys(sys, i, es) && WorkOf(es, i) == []
  {
    assert UseCount(sys, i) == 0;
    var dying := Next(sys, Destroy(i)).value;
    RunOne(sys, Destroy(i));
    RunOne(dying, DestructorGoes(i));
    NoWork(Destroy(i), i);
    NoWork(DestructorGoes(i), i);
    Then(sys, [Destroy(i)], [DestructorGoes(i)], i);
    es := [Destroy(i)] + [DestructorGoes(i)];
  }

  lemma DestroyFinished(sys: System, i: nat) returns (es: seq<Event>)
    requires i < |sys.conns| && sys.loop.Stopped? && sys.conns[i].life.Alive?
    requires sys.conns[i].phase.Finished? && WE.Over(sys.conns[i].w)
    ensures Destroys(sys, i, es) && WorkOf(es, i) == []
  {
    var drain := Drain(sys, i);
    var rest := LetGo(sys.(queue := []), i);
    Then(sys, drain, rest, i);
    es := drain + rest;
  }

  lemma DestroyWorking(sys: System, i: nat, ls: seq<W.Label>) returns (es: seq<Event>)
    requires i < |sys.conns| && sys.loop.Stopped? && sys.conns[i].life.Alive?
    requires sys.conns[i].phase.Working? && WE.CanEnd(sys.conns[i].w, ls)
    ensures Destroys(sys, i, es) && WorkOf(es, i) == ls
  {
    hide W.Step, W.Exec;
    RunLifts(sys, i, ls);
    WorkOfWorks(i, ls);
    var ended := Run(sys, Works(i, ls)).value;
    var joined := Next(ended, Join(i)).value;
    RunOne(ended, Join(i));
    NoWork(Join(i), i);
    Then(sys, Works(i, ls), [Join(i)], i);
    var rest := DestroyFinished(joined, i);
    Then(sys, Works(i, ls) + [Join(i)], rest, i);
    es := Works(i, ls) + [Join(i)] + rest;
  }

  lemma DestroyDying(sys: System, i: nat) returns (es: seq<Event>)
    requires i < |sys.conns| && sys.conns[i].life.Dying?
    ensures Destroys(sys, i, es) && WorkOf(es, i) == []
  {
    es := [DestructorGoes(i)];
    RunOne(sys, DestructorGoes(i));
    NoWork(DestructorGoes(i), i);
  }

  /** After the loop has stopped, a way for the worker to end is a way to destroy the context. */
  lemma DestroyStopped(sys: System, i: nat, ls: seq<W.Label>) returns (es: seq<Event>)
    requires Reachable(sys) && i < |sys.conns| && !sys.conns[i].life.Dead?
    requires sys.loop.Stopped? && WE.CanEnd(sys.conns[i].w, ls)
    ensures Destroys(sys, i, es) && (WorkOf(es, i) == ls || WorkOf(es, i) == [])
  {
    hide Destroys, W.Step, W.Exec, Next;
    ReachableInv(sys);
    assert ConnOk(sys, i);
    if sys.conns[i].life.Dying? {
      es := DestroyDying(sys, i);
    } else if sys.conns[i].phase.Finished? {
      es := DestroyFinished(sys, i);
    } else {
      es := DestroyWorking(sys, i, ls);
    }
  }

  /** "A context is destroyed when its connection has ended" is false. Without accept() failing
      first, a context that is not gone can be destroyed if and only if the accept loop has stopped
      already; for then clients can see to it that the threads of its worker return. */
  lemma DestructibleExactlyWhen(sys: System, i: nat)
    requires Reachable(sys) && i < |sys.conns| && !sys.conns[i].life.Dead?
    ensures (exists es :: Destroys(sys, i, es)) <==> sys.loop.Stopped?
  {
    hide Destroys, WE.CanEnd;
    if es :| Destroys(sys, i, es) {
      NeedsStopAndEnd(sys, i, es);
    }
    if sys.loop.Stopped? {
      EachIsAWorker(sys, i);
      var ls := WE.AlwaysCanEnd(sys.conns[i].w);
      var es := DestroyStopped(sys, i, ls);
      assert Destroys(sys, i, es);
    }
  }

  /** If clients leave the connection's write gate alone, the send thread must not be waiting at it
      for the flag that the receive thread's handler has raised already. */
  lemma QuietlyDestructibleExactlyWhen(sys: System, i: nat)
    requires Reachable(sys) && i < |sys.conns| && !sys.conns[i].life.Dead?
    ensures
      var w := sys.conns[i].w;
      (exists es :: Destroys(sys, i, es) && WF.Quiet(w, WorkOf(es, i)))
        <==> sys.loop.Stopped? && WF.Quiet(w, []) && !WE.Lost(w)
  {
    hide Destroys, WE.CanEnd, WE.Lost;
    var w := sys.conns[i].w;
    EachIsAWorker(sys, i);
    WE.CanEndQuietlyExactlyWhen(w);
    if es :| Destroys(sys, i, es) && WF.Quiet(w, WorkOf(es, i)) {
      NeedsStopAndEnd(sys, i, es);
      assert WF.Quiet(w, WorkOf(es, i)) && WE.CanEnd(w, WorkOf(es, i));
    }
    if sys.loop.Stopped? && WF.Quiet(w, []) && !WE.Lost(w) {
      var ls :| WF.Quiet(w, ls) && WE.CanEnd(w, ls);
      var es := DestroyStopped(sys, i, ls);
      assert Destroys(sys, i, es) && WF.Quiet(w, WorkOf(es, i));
    }
  }

  lemma NeedsStopAndEnd(sys: System, i: nat, es: seq<Event>)
    requires Reachable(sys) && i < |sys.conns| && Destroys(sys, i, es)
    ensures sys.loop.Stopped? && WE.CanEnd(sys.conns[i].w, WorkOf(es, i))
  {
    var t := Run(sys, es).value;
    StillReachable(sys, es);
    ReachableInv(t);
    assert ConnOk(t, i);
    RunProjects(sys, es, i);
    if !sys.loop.Stopped? {
      StaysServing(sys, es);
      NoneDestroyedWhileServing(t, i);
    }
  }

  /** And with no later enabling of its write gate, a connection whose send thread was interrupted
      at the shut gate keeps its context for ever, also after the accept loop has stopped and the
      queue has been emptied. */
  lemma DoomedKeepsContext(sys: System, i: nat, es: seq<Event>)
    requires Reachable(sys) && i < |sys.conns| && WS.Doomed(sys.conns[i].w) && Run(sys, es).Some?
    requires WS.Without(sys.conns[i].w, WorkOf(es, i), W.EnableWrite)
    ensures
      var t := Run(sys, es).value;
      && i < |t.conns| && t.conns[i].life.Alive? && t.conns[i].phase.Working?
      && UseCount(t, i) >= 2 && WS.Doomed(t.conns[i].w)
  {
    var t := Run(sys, es).value;
    ReachableInv(sys);
    assert ConnOk(sys, i);
    WI.ReachableInv(sys.conns[i].w);
    RunProjects(sys, es, i);
    WS.DoomedForEver(sys.conns[i].w, WorkOf(es, i));
    StillReachable(sys, es);
    ReachableInv(t);
    assert ConnOk(t, i);
  }

  // ---------- runs that show it

  /** Accepted, queued, and with its worker started. */
  lemma Launched(fd: int, castOk: bool) returns (sys: System)
    requires fd >= 0
    ensures Reachable(sys)
    ensures sys == System(map[fd := Accepted(0)], [Connection(W.Init(fd, castOk), Working, Alive)], Accepting, [0], [])
  {
    ReachableStart();
    sys := ReachableNext(Start(), Accept(fd, castOk));
    sys := ReachableNext(sys, LoopGoes);
    sys := ReachableNext(sys, LoopGoes);
    sys := ReachableNext(sys, LoopGoes);
  }

  /** A context that fails the cast: both threads have returned, the server goes on, and the
      descriptor is open. */
  lemma FinishedStillOpen()
    ensures exists sys ::
      Reachable(sys) && sys.loop.Accepting? && |sys.conns| == 1 && sys.conns[0].phase.Finished?
      && sys.conns[0].life.Alive? && 4 in sys.table && sys.table[4] == Accepted(0)
  {
    var sys := Launched(4, false);
    sys := ReachableNext(sys, Work(0, W.RecvThread(Error)));
    sys := ReachableNext(sys, Work(0, W.SendThread(Error)));
    sys := ReachableNext(sys, Join(0));
    assert sys.table[4] == Accepted(0);
  }

  /** The peer closes, and the receive thread's exit handler is between close() and the assignment. */
  lemma ReaderInWindow() returns (ls: seq<W.Label>)
    ensures W.Exec(W.Init(4, true), ls)
      == Some(W.Init(4, true).(recv := W.RExit(W.XAssign), held := map[W.ContextMutex := W.Thread(W.Recv)]))
  {
    hide W.SendStep, W.ClientStep;
    var s, r := W.Init(4, true), W.RecvThread(Moved(0));
    ls := [];
    W.ExecSnoc(s, ls, r);
    ls := ls + [r];
    W.ExecSnoc(s, ls, r);
    ls := ls + [r];
    W.ExecSnoc(s, ls, r);
    ls := ls + [r];
    W.ExecSnoc(s, ls, r);
    ls := ls + [r];
    W.ExecSnoc(s, ls, r);
    ls := ls + [r];
    assert W.Exec(s, ls) == Some(s.(recv := W.RCall));
    W.ExecSnoc(s, ls, r);
    ls := ls + [r];
    W.ExecSnoc(s, ls, r);
    ls := ls + [r];
    W.ExecSnoc(s, ls, r);
    ls := ls + [r];
    W.ExecSnoc(s, ls, r);
    ls := ls + [r];
  }

  /** Two live contexts can show the same number: the first is in its window, and the number has
      been accepted again. */
  lemma SharedNumber()
    ensures exists sys ::
      Reachable(sys) && |sys.conns| == 2 && sys.conns[0].life.Alive? && sys.conns[1].life.Alive?
      && InWindow(sys.conns[0].w) && sys.conns[0].w.ctx.fd == 4 == sys.conns[1].w.ctx.fd
      && 4 in sys.table && sys.table[4] == Accepted(1)
  {
    hide W.Step, W.Exec;
    var sys := Launched(4, true);
    var ls := ReaderInWindow();
    RunLifts(sys, 0, ls);
    StillReachable(sys, Works(0, ls));
    var t := Run(sys, Works(0, ls)).value;
    ReachableInv(t);
    assert 4 !in t.table;
    t := ReachableNext(t, Accept(4, true));
    assert t.table[4] == Accepted(1);
  }
}
