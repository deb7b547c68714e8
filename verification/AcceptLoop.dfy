/** The accept loop: one turn of it, and the order of the queue it fills. */
module AcceptLoop {
  import opened Socket
  import opened Connections
  import W = Worker

  // ---------- one turn

  /** Connection i has been accepted, queued and handed to a worker of its own. */
  function Served(sys: System, fd: int, castOk: bool): System {
    var i := |sys.conns|;
    sys.(table := sys.table[fd := Accepted(i)], conns := sys.conns + [Connection(W.Init(fd, castOk), Working, Alive)],
         queue := sys.queue + [i])
  }

  /** From accept() to accept(), whatever the earlier connections are doing. */
  lemma AcceptTurn(sys: System, fd: int, castOk: bool)
    requires sys.loop.Accepting? && fd >= 0 && fd !in sys.table
    ensures Run(sys, [Accept(fd, castOk), LoopGoes, LoopGoes, LoopGoes]) == Some(Served(sys, fd, castOk))
  {
    var i := |sys.conns|;
    var s1 := Next(sys, Accept(fd, castOk)).value;
    var s2 := s1.(loop := Pushed(i), queue := sys.queue + [i]);
    var started := s1.conns[i].(phase := Working);
    assert s1.conns[i := started] == sys.conns + [started];
    var s3 := s2.(conns := sys.conns + [started], loop := Connections.Started(i));
    assert Next(s1, LoopGoes) == Some(s2);
    assert Next(s2, LoopGoes) == Some(s3);
    assert Next(s3, LoopGoes) == Some(Served(sys, fd, castOk));
    hide Next;
    RunFirst(sys, Accept(fd, castOk), s1, [LoopGoes, LoopGoes, LoopGoes]);
    RunFirst(s1, LoopGoes, s2, [LoopGoes, LoopGoes]);
    RunFirst(s2, LoopGoes, s3, [LoopGoes]);
    RunOne(s3, LoopGoes);
    assert [LoopGoes] + [LoopGoes, LoopGoes] == [LoopGoes, LoopGoes, LoopGoes];
    assert [LoopGoes] + [LoopGoes] == [LoopGoes, LoopGoes];
    assert [Accept(fd, castOk)] + [LoopGoes, LoopGoes, LoopGoes] == [Accept(fd, castOk), LoopGoes, LoopGoes, LoopGoes];
  }

  lemma RunFirst(sys: System, e: Event, next: System, es: seq<Event>)
    requires Next(sys, e) == Some(next)
    ensures Run(sys, [e] + es) == Run(next, es)
  {
    hide Next;
    assert ([e] + es)[1..] == es;
  }

  // ---------- the queue

  /** How many contexts have been queued. */
  function PushedCount(sys: System): nat {
    if sys.loop.Built? && |sys.conns| > 0 then |sys.conns| - 1 else |sys.conns|
  }

  /** The contexts from number lo on, in the order in which they were accepted. */
  predicate QueueFrom(sys: System, lo: nat) {
    && lo <= PushedCount(sys) && |sys.queue| == PushedCount(sys) - lo
    && (forall k :: 0 <= k < |sys.queue| ==> sys.queue[k] == lo + k)
    && (!sys.loop.Stopped? ==> lo == 0)
    && (sys.loop.Built? || sys.loop.Pushed? || sys.loop.Started? ==> sys.loop.i == |sys.conns| - 1)
  }

  lemma NextKeepsQueue(sys: System, e: Event, lo: nat) returns (lo': nat)
    requires QueueFrom(sys, lo) && Next(sys, e).Some?
    ensures QueueFrom(Next(sys, e).value, lo') && (!e.QueueDrops? ==> lo' == lo) && (e.QueueDrops? ==> lo' == lo + 1)
  {
    hide W.Step, Closing, UseCount;
    lo' := if e.QueueDrops? then lo + 1 else lo;
  }

  lemma {:induction false} RunKeepsQueue(sys: System, es: seq<Event>, lo: nat) returns (lo': nat)
    requires QueueFrom(sys, lo) && Run(sys, es).Some?
    ensures QueueFrom(Run(sys, es).value, lo')
    decreases |es|
  {
    hide Next, QueueFrom;
    lo' := lo;
    if es != [] {
      lo' := NextKeepsQueue(sys, es[0], lo);
      lo' := RunKeepsQueue(Next(sys, es[0]).value, es[1..], lo');
    }
  }

  /** While the server runs, the queue holds every context whose turn has got past the push, in the
      order in which they were accepted; afterwards, what is left of it, in that order. */
  lemma QueueInOrder(sys: System)
    requires Reachable(sys)
    ensures exists lo: nat :: QueueFrom(sys, lo)
  {
    var es :| Run(Start(), es) == Some(sys);
    var lo := RunKeepsQueue(Start(), es, 0);
    assert QueueFrom(sys, lo);
  }

  // ---------- the end of the loop

  /** Over any course of events, the loop has stopped if and only if it had, or accept() has failed. */
  lemma {:induction false} StopsExactlyWhen(sys: System, es: seq<Event>)
    requires Run(sys, es).Some?
    ensures Run(sys, es).value.loop.Stopped? <==> sys.loop.Stopped? || AcceptFails in es
    decreases |es|
  {
    hide W.Step, Closing, UseCount;
    if es != [] {
      StopsExactlyWhen(Next(sys, es[0]).value, es[1..]);
      assert es == [es[0]] + es[1..];
    }
  }

  /** And then no further connection is accepted. */
  lemma {:induction false} AcceptsNoMore(sys: System, es: seq<Event>)
    requires sys.loop.Stopped? && Run(sys, es).Some?
    ensures |Run(sys, es).value.conns| == |sys.conns|
    decreases |es|
  {
    hide W.Step, Closing, UseCount;
    if es != [] {
      AcceptsNoMore(Next(sys, es[0]).value, es[1..]);
    }
  }
}
