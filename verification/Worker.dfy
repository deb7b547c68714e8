/** ThreadsTcpBroWorker and its SocketContext: a receive thread, a send thread, and any
    number of client threads that open and shut the two gates and publish responses, as a
    step relation. Every access to shared state is a step of its own. A label names the
    thread that moves and the adversary's answer to the system call it may be making; a
    spurious wakeup is a step of a sleeping thread. */
module Worker {
  import opened Socket

  const MAX_MESSAGEBUFF_LEN: nat := 1024 * 1024 * 1

  datatype MutexId = ReadMutex | WriteMutex | ContextMutex | RequestMutex | ResponseMutex

  datatype Side = Recv | Send

  datatype Tid = Thread(side: Side) | Client(id: nat)

  /** What a client thread may do, each under one mutex. */
  datatype Op =
    | EnableRead | DisableRead | EnableWrite | DisableWrite
    | SetResponse(bytes: seq<Byte>) | PeekRequest

  datatype ClientPc = CWaiting(op: Op) | CHolding(op: Op) | CApplied(op: Op)

  /** From the top of a thread's loop to where it has passed its gate. */
  datatype GatePc = GStart | GPoint | GLock | GTest | GAsleep | GWoken | GClear | GUnlock

  /** The scope-exit handler, the same in both threads. */
  datatype ExitPc = XLock | XClose | XAssign | XUnlock | XLockGate | XRaise | XUnlockGate | XInterrupt | XNotify

  /** handleReadEvent */
  datatype RecvPc =
    | RGate(g: GatePc) | RCall | RInRecv(fd: int)
    | RLockRequest(chunk: seq<Byte>) | RAppend(chunk: seq<Byte>) | RUnlockRequest
    | RExit(x: ExitPc) | RDone

  /** handleWriteEvent; left is the part of the response that send_bytes has not sent. */
  datatype SendPc =
    | SGate(g: GatePc) | SLockResponse | SSnapshot | SUnlockResponse(left: seq<Byte>)
    | SCall(left: seq<Byte>) | SSending(left: seq<Byte>, fd: int)
    | SExit(x: ExitPc) | SDone

  /** What has happened so far: completed enableWriteEvent calls, passes of the write gate,
      responses published and snapshots taken; and, for the time between the receive
      thread's raising of the write flag and its interrupt(), whether the flag has been
      consumed by the send thread or withdrawn by a client. */
  datatype Log = Log(
    enables: nat, passes: nat, published: set<seq<Byte>>, snapshots: seq<seq<Byte>>,
    consumedEarly: bool, withdrawnEarly: bool)

  /** The SocketContext fields the threads share. */
  datatype Context = Context(fd: int, request: seq<Byte>, response: seq<Byte>)

  /** mIsReadEnabled, mIsWriteEnabled, and the two threads' pending interrupt requests. */
  datatype Flags = Flags(read: bool, write: bool, recvInterrupt: bool, sendInterrupt: bool)

  /** incoming: sent by the peer, not received yet. wire: accepted from the send thread. */
  datatype Net = Net(incoming: seq<Byte>, wire: seq<Byte>)

  /** castOk: the context is an IPV4SocketContext. held: who holds which mutex. */
  datatype State = State(
    castOk: bool, ctx: Context, flags: Flags, held: map<MutexId, Tid>,
    recv: RecvPc, send: SendPc, clients: map<nat, ClientPc>, net: Net, log: Log)

  datatype ClientAct = Begin(op: Op) | Go | Scribble(bytes: seq<Byte>)

  datatype Label =
    | RecvThread(o: Outcome) | SendThread(o: Outcome)
    | ClientThread(id: nat, act: ClientAct) | PeerSends(bytes: seq<Byte>)

  function Init(fd: int, castOk: bool): State {
    State(castOk, Context(fd, [], []), Flags(true, false, false, false), map[],
          RGate(GStart), SGate(GStart), map[], Net([], []), Log(0, 0, {[]}, [], false, false))
  }

  // ---------- steps

  function Lock(s: State, m: MutexId, t: Tid): State { s.(held := s.held[m := t]) }

  function Unlock(s: State, m: MutexId): State { s.(held := s.held - {m}) }

  /** The mutex of a thread's own gate. */
  function GateMutex(side: Side): MutexId {
    if side == Recv then ReadMutex else WriteMutex
  }

  function Other(side: Side): Side {
    if side == Recv then Send else Recv
  }

  function ToGate(s: State, side: Side, g: GatePc): State {
    if side == Recv then s.(recv := RGate(g)) else s.(send := SGate(g))
  }

  function ToExit(s: State, side: Side, x: ExitPc): State {
    if side == Recv then s.(recv := RExit(x)) else s.(send := SExit(x))
  }

  function ToDone(s: State, side: Side): State {
    if side == Recv then s.(recv := RDone) else s.(send := SDone)
  }

  predicate Open(f: Flags, side: Side) { if side == Recv then f.read else f.write }

  predicate Interrupted(f: Flags, side: Side) {
    if side == Recv then f.recvInterrupt else f.sendInterrupt
  }

  function WithInterrupt(f: Flags, side: Side, b: bool): Flags {
    if side == Recv then f.(recvInterrupt := b) else f.(sendInterrupt := b)
  }

  /** The send thread's mIsWriteEnabled = false: it consumes the flag. */
  function Consume(s: State): State {
    s.(flags := s.flags.(write := false),
       log := s.log.(passes := s.log.passes + 1,
                     consumedEarly := s.log.consumedEarly || RaisedNotInterrupted(s.recv)))
  }

  /** The cast, the interruption point and the wait at the gate. The receive thread leaves its
      flag up, the send thread clears its own. */
  function GateStep(s: State, side: Side, g: GatePc): Option<State> {
    match g
    case GStart => Some(if s.castOk then ToGate(s, side, GPoint) else ToDone(s, side))
    case GPoint =>
      if Interrupted(s.flags, side) then Some(ToExit(s.(flags := WithInterrupt(s.flags, side, false)), side, XLock))
      else Some(ToGate(s, side, GLock))
    case GLock =>
      if GateMutex(side) in s.held then None
      else Some(ToGate(Lock(s, GateMutex(side), Thread(side)), side, GTest))
    case GTest =>
      if Open(s.flags, side) then Some(ToGate(s, side, if side == Recv then GUnlock else GClear))
      else Some(ToGate(Unlock(s, GateMutex(side)), side, GAsleep))
    case GAsleep => Some(ToGate(s, side, GWoken))
    case GWoken =>
      if GateMutex(side) in s.held then None
      else Some(ToGate(Lock(s, GateMutex(side), Thread(side)), side, GTest))
    case GClear => if side == Recv then None else Some(ToGate(Consume(s), side, GUnlock))
    case GUnlock =>
      if side == Recv then Some(Unlock(s, ReadMutex).(recv := RCall))
      else Some(Unlock(s, WriteMutex).(send := SLockResponse))
  }

  /** mIsWriteEnabled = true (enableWriteEvent). */
  function RaiseWrite(s: State): State {
    s.(flags := s.flags.(write := true), log := s.log.(enables := s.log.enables + 1))
  }

  /** mIsReadEnabled = true (enableReadEvent). */
  function RaiseRead(s: State): State { s.(flags := s.flags.(read := true)) }

  /** mReadCond.notify_one(), mWriteCond.notify_one(): wakes the one thread that can sleep
      there, if it does. */
  function Notify(s: State, side: Side): State {
    if side == Recv && s.recv == RGate(GAsleep) then s.(recv := RGate(GWoken))
    else if side == Send && s.send == SGate(GAsleep) then s.(send := SGate(GWoken))
    else s
  }

  /** close() and the assignment under the context mutex; then open the other thread's gate,
      interrupt that thread and notify it. */
  function ExitStep(s: State, side: Side, x: ExitPc): Option<State> {
    var gate := GateMutex(Other(side));
    match x
    case XLock =>
      if ContextMutex in s.held then None
      else Some(ToExit(Lock(s, ContextMutex, Thread(side)), side, XClose))
    case XClose => Some(ToExit(s, side, XAssign))  // the descriptor table is in Connections
    case XAssign => Some(ToExit(s.(ctx := s.ctx.(fd := INVALID_FD)), side, XUnlock))
    case XUnlock => Some(ToExit(Unlock(s, ContextMutex), side, XLockGate))
    case XLockGate =>
      if gate in s.held then None
      else Some(ToExit(Lock(s, gate, Thread(side)), side, XRaise))
    case XRaise => Some(ToExit(if side == Recv then RaiseWrite(s) else RaiseRead(s), side, XUnlockGate))
    case XUnlockGate => Some(ToExit(Unlock(s, gate), side, XInterrupt))
    case XInterrupt => Some(ToExit(s.(flags := WithInterrupt(s.flags, Other(side), true)), side, XNotify))
    case XNotify => Some(ToDone(Notify(s, Other(side)), side))
  }

  function RecvStep(s: State, o: Outcome): Option<State> {
    match s.recv
    case RGate(g) => GateStep(s, Recv, g)
    case RCall => Some(s.(recv := RInRecv(s.ctx.fd)))
    case RInRecv(fd) =>
      (match OnFd(fd, RecvRet(o, MAX_MESSAGEBUFF_LEN, |s.net.incoming|))
       case Again => Some(s.(recv := RGate(GPoint)))
       case Fail => Some(s.(recv := RExit(XLock)))
       case Bytes(k) =>
         if k == 0 then Some(s.(recv := RExit(XLock)))
         else Some(s.(recv := RLockRequest(s.net.incoming[..k]), net := s.net.(incoming := s.net.incoming[k..]))))
    case RLockRequest(chunk) =>
      if RequestMutex in s.held then None else Some(Lock(s, RequestMutex, Thread(Recv)).(recv := RAppend(chunk)))
    case RAppend(chunk) => Some(s.(ctx := s.ctx.(request := s.ctx.request + chunk), recv := RUnlockRequest))
    case RUnlockRequest => Some(Unlock(s, RequestMutex).(recv := RGate(GPoint)))
    case RExit(x) => ExitStep(s, Recv, x)
    case RDone => None
  }

  /** Between raising the write flag and interrupting the send thread. */
  predicate RaisedNotInterrupted(r: RecvPc) {
    r == RExit(XUnlockGate) || r == RExit(XInterrupt)
  }

  function SendStep(s: State, o: Outcome): Option<State> {
    match s.send
    case SGate(g) => GateStep(s, Send, g)
    case SLockResponse =>
      if ResponseMutex in s.held then None else Some(Lock(s, ResponseMutex, Thread(Send)).(send := SSnapshot))
    case SSnapshot =>
      Some(s.(send := SUnlockResponse(s.ctx.response),
              log := s.log.(snapshots := s.log.snapshots + [s.ctx.response])))
    case SUnlockResponse(left) => Some(Unlock(s, ResponseMutex).(send := SCall(left)))
    case SCall(left) => Some(s.(send := SSending(left, s.ctx.fd)))
    case SSending(left, fd) =>
      if left == [] then Some(s.(send := SGate(GPoint)))
      else
        (match OnFd(fd, SendRet(o, |left|))
         case Again => Some(s)
         case Fail => Some(s.(send := SExit(XLock)))
         case Bytes(k) =>
           if k == 0 then Some(s.(send := SExit(XLock)))
           else Some(s.(send := SSending(left[k..], fd), net := s.net.(wire := s.net.wire + left[..k]))))
    case SExit(x) => ExitStep(s, Send, x)
    case SDone => None
  }

  function MutexOf(op: Op): MutexId {
    match op
    case EnableRead => ReadMutex
    case DisableRead => ReadMutex
    case EnableWrite => WriteMutex
    case DisableWrite => WriteMutex
    case SetResponse(_) => ResponseMutex
    case PeekRequest => RequestMutex
  }

  function Apply(s: State, op: Op): State {
    match op
    case EnableRead => RaiseRead(s)
    case DisableRead => s.(flags := s.flags.(read := false))
    case EnableWrite => RaiseWrite(s)
    case DisableWrite =>
      s.(flags := s.flags.(write := false),
         log := s.log.(withdrawnEarly := s.log.withdrawnEarly || RaisedNotInterrupted(s.recv)))
    case SetResponse(bytes) =>
      s.(ctx := s.ctx.(response := bytes), log := s.log.(published := s.log.published + {bytes}))
    case PeekRequest => s
  }

  /** A client takes the mutex of its operation, applies it and releases the mutex. While it
      holds the response mutex it may write the response piecemeal. */
  function ClientStep(s: State, id: nat, act: ClientAct): Option<State> {
    if id !in s.clients then
      if act.Begin? then Some(s.(clients := s.clients[id := CWaiting(act.op)])) else None
    else
      match (s.clients[id], act)
      case (CWaiting(op), Go) =>
        if MutexOf(op) in s.held then None
        else Some(Lock(s, MutexOf(op), Client(id)).(clients := s.clients[id := CHolding(op)]))
      case (CHolding(op), Go) => Some(Apply(s, op).(clients := s.clients[id := CApplied(op)]))
      case (CHolding(op), Scribble(bytes)) =>
        if op.SetResponse? then Some(s.(ctx := s.ctx.(response := bytes))) else None
      case (CApplied(op), Go) => Some(Unlock(s, MutexOf(op)).(clients := s.clients - {id}))
      case _ => None
  }

  function Step(s: State, l: Label): Option<State> {
    match l
    case RecvThread(o) => RecvStep(s, o)
    case SendThread(o) => SendStep(s, o)
    case ClientThread(id, act) => ClientStep(s, id, act)
    case PeerSends(bytes) => Some(s.(net := s.net.(incoming := s.net.incoming + bytes)))
  }

  // ---------- runs

  function Exec(s: State, ls: seq<Label>): Option<State>
    decreases |ls|
  {
    if ls == [] then Some(s)
    else
      match Step(s, ls[0])
      case None => None
      case Some(next) => Exec(next, ls[1..])
  }

  ghost predicate Reachable(s: State) {
    exists fd, castOk, ls :: fd != INVALID_FD && Exec(Init(fd, castOk), ls) == Some(s)
  }

  lemma {:induction false} ExecAppend(s: State, a: seq<Label>, b: seq<Label>)
    requires Exec(s, a).Some?
    ensures Exec(s, a + b) == Exec(Exec(s, a).value, b)
    decreases |a|
  {
    if a == [] {
      assert a + b == b;
    } else {
      assert (a + b)[1..] == a[1..] + b;
      ExecAppend(Step(s, a[0]).value, a[1..], b);
    }
  }

  lemma ExecSnoc(s: State, ls: seq<Label>, l: Label)
    requires Exec(s, ls).Some?
    ensures Exec(s, ls + [l]) == Step(Exec(s, ls).value, l)
  {
    ExecAppend(s, ls, [l]);
    var t := Exec(s, ls).value;
    assert [l][1..] == [];
    assert Exec(t, [l]) == Step(t, l);
  }

  lemma ReachableStep(s: State, l: Label) returns (t: State)
    requires Reachable(s) && Step(s, l).Some?
    ensures Some(t) == Step(s, l) && Reachable(t)
  {
    t := Step(s, l).value;
    var fd, castOk, ls :| fd != INVALID_FD && Exec(Init(fd, castOk), ls) == Some(s);
    ExecSnoc(Init(fd, castOk), ls, l);
    assert Exec(Init(fd, castOk), ls + [l]) == Some(t);
  }

  lemma ReachableInit(fd: int, castOk: bool)
    requires fd != INVALID_FD
    ensures Reachable(Init(fd, castOk))
  {
    assert Exec(Init(fd, castOk), []) == Some(Init(fd, castOk));
  }
}
