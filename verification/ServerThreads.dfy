/** ThreadsTcpBroServer and the process around it: contexts and workers as the objects of
    WorkerThreads, one pair a connection, updated in place. Each method is one atomic action,
    proved to be the event of the relation in Connections and to leave the objects of all other
    connections alone; Run takes them in an arbitrary order. */
module ServerThreads {
  import opened Socket
  import opened Connections
  import opened ConnectionSafety
  import opened WorkerThreads
  import W = Worker
  import WI = WorkerInvariants

  /** A connection: its context, the worker its detached thread has made, and how far that thread
      and the context are. */
  datatype Slot = Slot(context: SocketContext, worker: ThreadsTcpBroWorker?, phase: Phase, life: Life)

  /** The slot's objects are what the relation says of the connection. */
  ghost predicate Shows(slot: Slot, c: Connection)
    reads slot.context, slot.worker
  {
    && slot.phase == c.phase && slot.life == c.life
    && if slot.worker == null then
         slot.phase.NoThread? && c.w == W.Init(slot.context.mClientFd, slot.context.mIsIPV4)
         && slot.context.mRequest == [] && slot.context.mResponse == []
       else
         !slot.phase.NoThread? && slot.worker.mContext == slot.context && c.w == slot.worker.View()
  }

  predicate Within(slot: Slot, repr: set<object>) {
    slot.context in repr && (slot.worker != null ==> slot.worker in repr)
  }

  /** No object belongs to two connections. */
  ghost predicate Apart(slots: seq<Slot>) {
    forall i, j :: 0 <= i < j < |slots| ==>
      slots[i].context != slots[j].context && (slots[i].worker != null ==> slots[i].worker != slots[j].worker)
  }

  ghost predicate AllShow(slots: seq<Slot>, conns: seq<Connection>, repr: set<object>)
    reads repr
  {
    && |slots| == |conns| && Apart(slots)
    && forall i :: 0 <= i < |slots| ==> Within(slots[i], repr) && Shows(slots[i], conns[i])
  }

  lemma AppendShows(slots: seq<Slot>, conns: seq<Connection>, repr: set<object>, slot: Slot, c: Connection)
    requires AllShow(slots, conns, repr) && Shows(slot, c)
    requires slot.context !in repr && slot.worker == null
    ensures AllShow(slots + [slot], conns + [c], repr + {slot.context})
  {
    hide Shows;
  }

  lemma ReplaceShows(slots: seq<Slot>, conns: seq<Connection>, repr: set<object>, i: nat, slot: Slot, c: Connection)
    requires AllShow(slots, conns, repr) && i < |slots| && Shows(slot, c)
    requires slot.context == slots[i].context
    requires slot.worker == slots[i].worker || (slot.worker != null && slot.worker !in repr)
    ensures AllShow(slots[i := slot], conns[i := c], if slot.worker == null then repr else repr + {slot.worker})
  {
    hide Shows;
  }

  /** The thread or the context has got further; the objects have not changed. */
  lemma MarkShows(slots: seq<Slot>, conns: seq<Connection>, repr: set<object>, i: nat, phase: Phase, life: Life)
    requires AllShow(slots, conns, repr) && i < |slots|
    requires phase.NoThread? <==> slots[i].phase.NoThread?
    ensures
      var slot, c := slots[i].(phase := phase, life := life), conns[i].(phase := phase, life := life);
      AllShow(slots[i := slot], conns[i := c], repr)
  {
    assert Within(slots[i], repr) && Shows(slots[i], conns[i]);
    var slot, c := slots[i].(phase := phase, life := life), conns[i].(phase := phase, life := life);
    ReplaceShows(slots, conns, repr, i, slot, c);
    assert slots[i].worker != null ==> repr + {slots[i].worker} == repr;
  }

  class ThreadsTcpBroServer {
    // the kernel's descriptor table, and every call of close() so far
    var mTable: map<int, Owner>
    var mCloses: seq<Close>
    // run()'s position, the queue it fills, and every connection so far
    var mLoop: LoopPc
    var mSocketContextQueue: seq<nat>
    var mSlots: seq<Slot>
    // the state of the relation, and the objects of all connections
    ghost var mModel: System
    ghost var mRepr: set<object>

    ghost predicate Valid()
      reads this, mRepr
    {
      && this !in mRepr && Reachable(mModel)
      && mModel == System(mTable, mModel.conns, mLoop, mSocketContextQueue, mCloses)
      && AllShow(mSlots, mModel.conns, mRepr)
    }

    /** What connection i's objects say of it. */
    lemma SlotFacts(i: nat)
      requires Valid()
      ensures |mSlots| == |mModel.conns|
      ensures i < |mSlots| ==>
        var slot, c := mSlots[i], mModel.conns[i];
        && slot.phase == c.phase && slot.life == c.life && Within(slot, mRepr)
        && slot.context.mClientFd == c.w.ctx.fd && (slot.worker == null <==> slot.phase.NoThread?)
        && if slot.worker == null then
             c.w == W.Init(slot.context.mClientFd, slot.context.mIsIPV4)
             && slot.context.mRequest == [] && slot.context.mResponse == []
           else
             slot.worker.mContext == slot.context && slot.worker.mRecv == c.w.recv && slot.worker.mSend == c.w.send
             && slot.worker.mHeld == c.w.held
    {
      assert i < |mSlots| ==> Within(mSlots[i], mRepr) && Shows(mSlots[i], mModel.conns[i]);
    }

    /** The objects of connection i. */
    ghost function Objects(i: nat): set<object>
      reads this
    {
      if i < |mSlots| && mSlots[i].worker != null then {mSlots[i].context, mSlots[i].worker} else {}
    }

    constructor ()
      ensures Valid() && mRepr == {} && mModel == Start()
    {
      mTable, mCloses, mLoop, mSocketContextQueue, mSlots := map[], [], Accepting, [], [];
      mModel, mRepr := Start(), {};
      new;
      ReachableStart();
    }

    /** close(2) on behalf of connection i. */
    method CloseDescriptor(i: nat, fd: int)
      modifies this`mTable, this`mCloses
      ensures mTable == old(mTable) - {fd}
      ensures mCloses == old(mCloses) + [Close(i, fd, if fd in old(mTable) then Some(old(mTable)[fd]) else None)]
    {
      var hit := if fd in mTable then Some(mTable[fd]) else None;
      mTable := mTable - {fd};
      mCloses := mCloses + [Close(i, fd, hit)];
    }

    /** accept() returns a number that is not open, and a context is built on it. */
    method AcceptConnection(fd: int, castOk: bool) returns (ok: bool)
      requires Valid()
      modifies this
      ensures Valid() && fresh(mRepr - old(mRepr))
      ensures ok <==> Next(old(mModel), Accept(fd, castOk)).Some?
      ensures mModel == if ok then Next(old(mModel), Accept(fd, castOk)).value else old(mModel)
    {
      assert |mSlots| == |mModel.conns|;
      hide Reachable, AllShow;
      ok := mLoop.Accepting? && fd >= 0 && fd !in mTable;
      if ok {
        var context := new SocketContext(fd, castOk);
        var slot := Slot(context, null, NoThread, Alive);
        ghost var next := ReachableNext(mModel, Accept(fd, castOk));
        AppendShows(mSlots, mModel.conns, mRepr, slot, Connection(W.Init(fd, castOk), NoThread, Alive));
        mTable := mTable[fd := Accepted(|mSlots|)];
        mLoop := Built(|mSlots|);
        mSlots := mSlots + [slot];
        mModel, mRepr := next, mRepr + {context};
      }
    }

    /** process(): a detached thread makes the worker of connection i and runs it. */
    method StartWorker(i: nat)
      requires Valid() && mLoop == Pushed(i) && i < |mSlots|
      modifies this
      ensures Valid() && fresh(mRepr - old(mRepr))
      ensures LoopStep(old(mModel)) == Some(mModel)
    {
      hide Reachable, AllShow, W.Init;
      SlotFacts(i);
      ghost var next := ReachableNext(mModel, LoopGoes);
      NotStartedYet(mModel, i);
      var worker := new ThreadsTcpBroWorker(mSlots[i].context);
      var slot := mSlots[i].(worker := worker, phase := Working);
      ReplaceShows(mSlots, mModel.conns, mRepr, i, slot, next.conns[i]);
      mSlots := mSlots[i := slot];
      mLoop := Started(i);
      mModel, mRepr := next, mRepr + {worker};
    }

    /** The rest of the loop body: push the context, start its worker, drop the local. */
    method LoopBody() returns (ok: bool)
      requires Valid()
      modifies this
      ensures Valid() && fresh(mRepr - old(mRepr))
      ensures ok <==> LoopStep(old(mModel)).Some?
      ensures mModel == if ok then LoopStep(old(mModel)).value else old(mModel)
    {
      assert |mSlots| == |mModel.conns|;
      hide Reachable, AllShow;
      ok := mLoop.Built? || mLoop.Started? || (mLoop.Pushed? && mLoop.i < |mSlots|);
      if mLoop.Pushed? && ok {
        StartWorker(mLoop.i);
      } else if ok {
        ghost var next := ReachableNext(mModel, LoopGoes);
        if mLoop.Built? {
          mSocketContextQueue := mSocketContextQueue + [mLoop.i];
          mLoop := Pushed(mLoop.i);
        } else {
          mLoop := Accepting;
        }
        mModel := next;
      }
    }

    /** One action of connection i's worker, on its own objects and no others. */
    method ActOn(i: nat, l: W.Label) returns (moved: bool)
      requires Valid() && i < |mSlots| && mSlots[i].worker != null
      modifies Objects(i)
      ensures moved <==> W.Step(mModel.conns[i].w, l).Some?
      ensures
        var c := mModel.conns[i];
        AllShow(mSlots, if moved then mModel.conns[i := c.(w := W.Step(c.w, l).value)] else mModel.conns, mRepr)
    {
      hide Reachable, W.Step, W.Init;
      assert Within(mSlots[i], mRepr) && Shows(mSlots[i], mModel.conns[i]);
      moved := mSlots[i].worker.Act(l);
    }

    /** That action, with the effect of close() on the process's table: every other owner's
        descriptor stays open. */
    method WorkerMoves(i: nat, l: W.Label) returns (ok: bool)
      requires Valid()
      modifies this`mTable, this`mCloses, this`mModel, Objects(i)
      ensures Valid()
      ensures ok <==> WorkStep(old(mModel), i, l).Some?
      ensures mModel == if ok then WorkStep(old(mModel), i, l).value else old(mModel)
      ensures OthersStayOpen(old(mTable), mTable, i)
    {
      hide Reachable, AllShow, W.Step, OthersStayOpen;
      SlotFacts(i);
      SameStaysOpen(mTable, i);
      ok := i < |mSlots| && mSlots[i].phase.Working?;
      if ok {
        var worker, fd := mSlots[i].worker, mSlots[i].context.mClientFd;
        var closing :=
          (l.RecvThread? && worker.mRecv == W.RExit(W.XClose)) || (l.SendThread? && worker.mSend == W.SExit(W.XClose));
        ok := ActOn(i, l);
        if ok {
          ghost var next := ReachableNext(mModel, Work(i, l));
          if closing {
            ClosesItsOwn(mModel, i, l);
            CloseDescriptor(i, fd);
          }
          mModel := next;
        }
      }
    }

    /** ~SocketContext: closes the context's own descriptor, and no other owner's. */
    method Destruct(i: nat) returns (ok: bool)
      requires Valid()
      modifies this`mTable, this`mCloses, this`mSlots, this`mModel
      ensures Valid()
      ensures ok <==> DestructorStep(old(mModel), i).Some?
      ensures mModel == if ok then DestructorStep(old(mModel), i).value else old(mModel)
      ensures OthersStayOpen(old(mTable), mTable, i)
    {
      hide Reachable, AllShow, OthersStayOpen;
      SlotFacts(i);
      SameStaysOpen(mTable, i);
      ok := i < |mSlots| && mSlots[i].life.Dying?;
      if ok {
        ghost var next := ReachableNext(mModel, DestructorGoes(i));
        DestroysItsOwn(mModel, i);
        MarkShows(mSlots, mModel.conns, mRepr, i, mSlots[i].phase, Dead);
        mSlots := mSlots[i := mSlots[i].(life := Dead)];
        if mSlots[i].context.mClientFd != INVALID_FD {
          CloseDescriptor(i, mSlots[i].context.mClientFd);
        }
        mModel := next;
      }
    }

    /** The detached thread returns after doWork() has joined both threads. */
    method JoinWorker(i: nat) returns (ok: bool)
      requires Valid()
      modifies this`mSlots, this`mModel
      ensures Valid()
      ensures ok <==> Next(old(mModel), Join(i)).Some?
      ensures mModel == if ok then Next(old(mModel), Join(i)).value else old(mModel)
    {
      hide Reachable, AllShow;
      SlotFacts(i);
      ok := i < |mSlots| && mSlots[i].phase.Working?;
      if ok {
        ok := mSlots[i].worker.mRecv.RDone? && mSlots[i].worker.mSend.SDone?;
        if ok {
          ghost var next := ReachableNext(mModel, Join(i));
          MarkShows(mSlots, mModel.conns, mRepr, i, Finished, mSlots[i].life);
          mSlots := mSlots[i := mSlots[i].(phase := Finished)];
          mModel := next;
        }
      }
    }

    /** The use count of connection i's context, as its owners stand. */
    function Uses(i: nat): nat
      requires i < |mSlots|
      reads this, mSlots[i].worker
    {
      var worker := mSlots[i].worker;
      Bit(LoopHolds(mLoop, i)) + Bit(i in mSocketContextQueue) + Bit(mSlots[i].phase.Working?)
        + if worker == null then 0
          else
            Bit(worker.mRecv != W.RGate(W.GStart) && !worker.mRecv.RDone?)
              + Bit(worker.mSend != W.SGate(W.GStart) && !worker.mSend.SDone?)
    }

    /** The last reference to a context is gone. */
    method DropContext(i: nat) returns (ok: bool)
      requires Valid()
      modifies this`mSlots, this`mModel
      ensures Valid()
      ensures ok <==> Next(old(mModel), Destroy(i)).Some?
      ensures mModel == if ok then Next(old(mModel), Destroy(i)).value else old(mModel)
    {
      hide Reachable, AllShow;
      SlotFacts(i);
      ok := i < |mSlots| && mSlots[i].life.Alive?;
      if ok {
        assert Uses(i) == UseCount(mModel, i);
        ok := Uses(i) == 0;
        if ok {
          ghost var next := ReachableNext(mModel, Destroy(i));
          MarkShows(mSlots, mModel.conns, mRepr, i, mSlots[i].phase, Dying);
          mSlots := mSlots[i := mSlots[i].(life := Dying)];
          mModel := next;
        }
      }
    }

    /** What else can happen: accept() fails, the stopped server's queue goes, the rest of the
        process opens or closes descriptors of its own. */
    method Elsewhere(e: Event) returns (ok: bool)
      requires Valid() && (e.AcceptFails? || e.QueueDrops? || e.ForeignOpen? || e.ForeignClose?)
      modifies this`mTable, this`mLoop, this`mSocketContextQueue, this`mModel
      ensures Valid()
      ensures ok <==> Next(old(mModel), e).Some?
      ensures mModel == if ok then Next(old(mModel), e).value else old(mModel)
    {
      hide Reachable, AllShow;
      ok := match e
        case AcceptFails => mLoop.Accepting?
        case QueueDrops => mLoop.Stopped? && mSocketContextQueue != []
        case ForeignOpen(fd) => fd >= 0 && fd !in mTable
        case ForeignClose(fd) => fd in mTable && mTable[fd] == Foreign
        case _ => false;
      if ok {
        ghost var next := ReachableNext(mModel, e);
        match e {
          case AcceptFails => mLoop := Stopped;
          case QueueDrops => mSocketContextQueue := mSocketContextQueue[1..];
          case ForeignOpen(fd) => mTable := mTable[fd := Foreign];
          case ForeignClose(fd) => mTable := mTable - {fd};
        }
        mModel := next;
      }
    }

    /** Any event; false if it cannot happen now. */
    method Happen(e: Event) returns (ok: bool)
      requires Valid()
      modifies this, mRepr
      ensures Valid() && fresh(mRepr - old(mRepr))
      ensures ok <==> Next(old(mModel), e).Some?
      ensures mModel == if ok then Next(old(mModel), e).value else old(mModel)
    {
      match e {
        case Accept(fd, castOk) => ok := AcceptConnection(fd, castOk);
        case LoopGoes => ok := LoopBody();
        case Work(i, l) => ok := WorkerMoves(i, l);
        case Join(i) => ok := JoinWorker(i);
        case Destroy(i) => ok := DropContext(i);
        case DestructorGoes(i) => ok := Destruct(i);
        case AcceptFails => ok := Elsewhere(e);
        case QueueDrops => ok := Elsewhere(e);
        case ForeignOpen(_) => ok := Elsewhere(e);
        case ForeignClose(_) => ok := Elsewhere(e);
      }
    }

    /** A context that is not gone and that no exit handler has locked shows INVALID_FD or the
        open descriptor accepted for it. */
    ghost predicate OwnsItsDescriptor(i: nat)
      requires i < |mSlots|
      reads this, mSlots[i].context, mSlots[i].worker
    {
      var slot := mSlots[i];
      var fd := slot.context.mClientFd;
      slot.life.Dead? || fd == INVALID_FD || (slot.worker != null && W.ContextMutex in slot.worker.mHeld)
      || (fd in mTable && mTable[fd] == Accepted(i))
    }

    /** The process over any course of events, up to the first that cannot happen. No close()
        call has hit a descriptor of another connection or of anyone else, and every unlocked
        context object holds INVALID_FD or the open descriptor accepted for it. */
    method Run(events: seq<Event>) returns (done: nat)
      requires Valid()
      modifies this, mRepr
      ensures Valid() && fresh(mRepr - old(mRepr)) && done <= |events|
      ensures Connections.Run(old(mModel), events[..done]) == Some(mModel)
      ensures done < |events| ==> Next(mModel, events[done]).None?
      ensures forall k :: 0 <= k < |mCloses| ==>
        mCloses[k].hit == if mCloses[k].fd == INVALID_FD then None else Some(Accepted(mCloses[k].conn))
      ensures forall i :: 0 <= i < |mSlots| ==> OwnsItsDescriptor(i)
    {
      hide Next, AllShow, Reachable;
      done := 0;
      while done < |events|
        invariant done <= |events| && Valid() && fresh(mRepr - old(mRepr))
        invariant Connections.Run(old(mModel), events[..done]) == Some(mModel)
      {
        var ok := Happen(events[done]);
        if !ok {
          break;
        }
        RunSnoc(old(mModel), events[..done], events[done]);
        assert events[..done + 1] == events[..done] + [events[done]];
        done := done + 1;
      }
      forall k | 0 <= k < |mCloses|
        ensures mCloses[k].hit == if mCloses[k].fd == INVALID_FD then None else Some(Accepted(mCloses[k].conn))
      {
        CloseIsolation(mModel, k);
      }
      forall i | 0 <= i < |mSlots|
        ensures OwnsItsDescriptor(i)
      {
        OwnDescriptor(i);
      }
    }

    lemma OwnDescriptor(i: nat)
      requires Valid() && i < |mSlots|
      ensures OwnsItsDescriptor(i)
    {
      hide Reachable, AllShow;
      SlotFacts(i);
      var slot := mSlots[i];
      var locked := slot.worker != null && W.ContextMutex in slot.worker.mHeld;
      if !slot.life.Dead? && slot.context.mClientFd != INVALID_FD && !locked {
        UniqueOwner(mModel, i);
      }
    }
  }

  /** Every entry of the table but connection i's is still there. */
  predicate OthersStayOpen(before: map<int, Owner>, after: map<int, Owner>, i: nat) {
    forall fd :: fd in before && before[fd] != Accepted(i) ==> fd in after && after[fd] == before[fd]
  }

  lemma SameStaysOpen(table: map<int, Owner>, i: nat)
    ensures OthersStayOpen(table, table, i)
  {
  }

  lemma RunSnoc(sys: System, es: seq<Event>, e: Event)
    requires Run(sys, es).Some?
    ensures Run(sys, es + [e]) == Next(Run(sys, es).value, e)
  {
    RunAppend(sys, es, [e]);
    RunOne(Run(sys, es).value, e);
  }

  /** A context just pushed has no worker yet. */
  lemma NotStartedYet(sys: System, i: nat)
    requires Reachable(sys) && sys.loop == Pushed(i) && i < |sys.conns|
    ensures sys.conns[i].phase.NoThread?
  {
    ReachableInv(sys);
    assert ConnOk(sys, i);
  }

  lemma ClosesItsOwn(sys: System, i: nat, l: W.Label)
    requires Reachable(sys) && WorkStep(sys, i, l).Some? && Closing(sys.conns[i].w, l)
    ensures OthersStayOpen(sys.table, sys.table - {sys.conns[i].w.ctx.fd}, i)
  {
    ReachableInv(sys);
    assert ConnOk(sys, i);
    WI.ReachableInv(sys.conns[i].w);
    WindowIsExclusive(sys.conns[i].w);
  }

  lemma DestroysItsOwn(sys: System, i: nat)
    requires Reachable(sys) && DestructorStep(sys, i).Some?
    ensures OthersStayOpen(sys.table, sys.table - {sys.conns[i].w.ctx.fd}, i)
  {
    ReachableInv(sys);
    assert ConnOk(sys, i);
  }
}
