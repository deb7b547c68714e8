/** The accept loop, its context queue, one detached worker per connection, and the process's
    descriptor table. The kernel may hand out any number that is not open, so numbers are
    reused as soon as they are closed; other parts of the process open and close descriptors
    of their own. Closing a descriptor removes whatever the number denotes at that moment. */
module Connections {
  import opened Socket
  import W = Worker

  datatype Owner = Foreign | Accepted(conn: nat)

  /** The detached std::thread that runs process_client for a connection. */
  datatype Phase = NoThread | Working | Finished

  /** The SocketContext object: alive, inside its destructor, gone. */
  datatype Life = Alive | Dying | Dead

  datatype Connection = Connection(w: W.State, phase: Phase, life: Life)

  /** ThreadsTcpBroServer::run, with the index of the context the loop's own sock_context
      points to. */
  datatype LoopPc = Accepting | Built(i: nat) | Pushed(i: nat) | Started(i: nat) | Stopped

  /** One call of close(): by which connection's code, on which number, and what it hit. */
  datatype Close = Close(conn: nat, fd: int, hit: Option<Owner>)

  datatype System = System(
    table: map<int, Owner>, conns: seq<Connection>, loop: LoopPc, queue: seq<nat>, closes: seq<Close>)

  datatype Event =
    | Accept(fd: int, castOk: bool) | AcceptFails | LoopGoes
    | Work(i: nat, l: W.Label) | Join(i: nat)
    | QueueDrops | Destroy(i: nat) | DestructorGoes(i: nat)
    | ForeignOpen(fd: int) | ForeignClose(fd: int)

  function Start(): System { System(map[], [], Accepting, [], []) }

  /** close(fd), called for connection i. */
  function CloseFd(sys: System, i: nat, fd: int): System {
    var hit := if fd in sys.table then Some(sys.table[fd]) else None;
    sys.(table := sys.table - {fd}, closes := sys.closes + [Close(i, fd, hit)])
  }

  /** The step l of worker w calls close(). */
  predicate Closing(w: W.State, l: W.Label) {
    (l.RecvThread? && w.recv == W.RExit(W.XClose)) || (l.SendThread? && w.send == W.SExit(W.XClose))
  }

  function Put(sys: System, i: nat, c: Connection): System
    requires i < |sys.conns|
  {
    sys.(conns := sys.conns[i := c])
  }

  // ---------- shared ownership of a context

  predicate LoopHolds(loop: LoopPc, i: nat) {
    (loop.Built? || loop.Pushed? || loop.Started?) && loop.i == i
  }

  /** A thread's local socket_context, from the successful cast to its return. */
  predicate RecvHasContext(w: W.State) { w.recv != W.RGate(W.GStart) && !w.recv.RDone? }

  predicate SendHasContext(w: W.State) { w.send != W.SGate(W.GStart) && !w.send.SDone? }

  /** The use count: the accept loop, the queue, the detached thread with its worker, and the
      two threads' locals. */
  function UseCount(sys: System, i: nat): nat
    requires i < |sys.conns|
  {
    var c := sys.conns[i];
    Bit(LoopHolds(sys.loop, i)) + Bit(i in sys.queue) + Bit(c.phase.Working?)
      + Bit(RecvHasContext(c.w)) + Bit(SendHasContext(c.w))
  }

  // ---------- steps

  function LoopStep(sys: System): Option<System> {
    match sys.loop
    case Built(i) => Some(sys.(loop := Pushed(i), queue := sys.queue + [i]))
    case Pushed(i) =>
      if i < |sys.conns| then
        Some(Put(sys, i, sys.conns[i].(phase := Working)).(loop := Started(i)))
      else None
    case Started(i) => Some(sys.(loop := Accepting))
    case Accepting => None
    case Stopped => None
  }

  function WorkStep(sys: System, i: nat, l: W.Label): Option<System> {
    if i < |sys.conns| && sys.conns[i].phase.Working? then
      var c := sys.conns[i];
      match W.Step(c.w, l)
      case None => None
      case Some(w) =>
        var moved := Put(sys, i, c.(w := w));
        Some(if Closing(c.w, l) then CloseFd(moved, i, c.w.ctx.fd) else moved)
    else None
  }

  /** ~SocketContext: closes the descriptor unless it is INVALID_FD. */
  function DestructorStep(sys: System, i: nat): Option<System> {
    if i < |sys.conns| && sys.conns[i].life.Dying? then
      var c := sys.conns[i];
      var gone := Put(sys, i, c.(life := Dead));
      Some(if c.w.ctx.fd != INVALID_FD then CloseFd(gone, i, c.w.ctx.fd) else gone)
    else None
  }

  function Next(sys: System, e: Event): Option<System> {
    match e
    case Accept(fd, castOk) =>
      if sys.loop.Accepting? && fd >= 0 && fd !in sys.table then
        var i := |sys.conns|;
        Some(sys.(table := sys.table[fd := Accepted(i)],
                  conns := sys.conns + [Connection(W.Init(fd, castOk), NoThread, Alive)],
                  loop := Built(i)))
      else None
    case AcceptFails => if sys.loop.Accepting? then Some(sys.(loop := Stopped)) else None
    case LoopGoes => LoopStep(sys)
    case Work(i, l) => WorkStep(sys, i, l)
    case Join(i) =>
      if i < |sys.conns| && sys.conns[i].phase.Working? && sys.conns[i].w.recv.RDone? && sys.conns[i].w.send.SDone?
      then Some(Put(sys, i, sys.conns[i].(phase := Finished)))
      else None
    case QueueDrops =>  // the engine, and with it the queue, is destroyed after run() returns
      if sys.loop.Stopped? && sys.queue != [] then Some(sys.(queue := sys.queue[1..])) else None
    case Destroy(i) =>
      if i < |sys.conns| && sys.conns[i].life.Alive? && UseCount(sys, i) == 0
      then Some(Put(sys, i, sys.conns[i].(life := Dying)))
      else None
    case DestructorGoes(i) => DestructorStep(sys, i)
    case ForeignOpen(fd) =>
      if fd >= 0 && fd !in sys.table then Some(sys.(table := sys.table[fd := Foreign])) else None
    case ForeignClose(fd) =>
      if fd in sys.table && sys.table[fd] == Foreign then Some(sys.(table := sys.table - {fd})) else None
  }

  function Run(sys: System, es: seq<Event>): Option<System>
    decreases |es|
  {
    if es == [] then Some(sys)
    else
      match Next(sys, es[0])
      case None => None
      case Some(next) => Run(next, es[1..])
  }

  ghost predicate Reachable(sys: System) {
    exists es :: Run(Start(), es) == Some(sys)
  }

  lemma {:induction false} RunAppend(sys: System, a: seq<Event>, b: seq<Event>)
    requires Run(sys, a).Some?
    ensures Run(sys, a + b) == Run(Run(sys, a).value, b)
    decreases |a|
  {
    if a == [] {
      assert a + b == b;
    } else {
      assert (a + b)[1..] == a[1..] + b;
      RunAppend(Next(sys, a[0]).value, a[1..], b);
    }
  }

  lemma RunOne(sys: System, e: Event)
    ensures Run(sys, [e]) == Next(sys, e)
  {
    assert [e][1..] == [];
  }

  lemma StillReachable(sys: System, es: seq<Event>)
    requires Reachable(sys) && Run(sys, es).Some?
    ensures Reachable(Run(sys, es).value)
  {
    var before :| Run(Start(), before) == Some(sys);
    RunAppend(Start(), before, es);
  }

  lemma ReachableStart()
    ensures Reachable(Start())
  {
    assert Run(Start(), []) == Some(Start());
  }

  lemma ReachableNext(sys: System, e: Event) returns (t: System)
    requires Reachable(sys) && Next(sys, e).Some?
    ensures Some(t) == Next(sys, e) && Reachable(t)
  {
    t := Next(sys, e).value;
    RunOne(sys, e);
    StillReachable(sys, [e]);
  }
}
