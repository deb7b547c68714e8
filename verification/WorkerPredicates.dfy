/** What can be said of a state of the worker: who holds and waits for which mutex, how the
    gates and interrupts stand, what is on the wire, and the invariant made of these. */
module WorkerPredicates {
  import opened Socket
  import opened Worker

  // ---------- lock discipline

  function GateHolds(side: Side, g: GatePc): Option<MutexId> {
    if g == GTest || g == GClear || g == GUnlock then Some(GateMutex(side)) else None
  }

  function ExitHolds(side: Side, x: ExitPc): Option<MutexId> {
    if x == XClose || x == XAssign || x == XUnlock then Some(ContextMutex)
    else if x == XRaise || x == XUnlockGate then Some(GateMutex(Other(side)))
    else None
  }

  function RecvHolds(r: RecvPc): Option<MutexId> {
    if r.RGate? then GateHolds(Recv, r.g)
    else if r.RAppend? || r.RUnlockRequest? then Some(RequestMutex)
    else if r.RExit? then ExitHolds(Recv, r.x)
    else None
  }

  function SendHolds(w: SendPc): Option<MutexId> {
    if w.SGate? then GateHolds(Send, w.g)
    else if w.SSnapshot? || w.SUnlockResponse? then Some(ResponseMutex)
    else if w.SExit? then ExitHolds(Send, w.x)
    else None
  }

  function ClientHolds(c: ClientPc): Option<MutexId> {
    if c.CWaiting? then None else Some(MutexOf(c.op))
  }

  /** The one mutex a thread can hold, read off where it is in its code. */
  function Holds(s: State, t: Tid): Option<MutexId> {
    match t
    case Thread(side) => if side == Recv then RecvHolds(s.recv) else SendHolds(s.send)
    case Client(id) => if id in s.clients then ClientHolds(s.clients[id]) else None
  }

  function GateWaits(side: Side, g: GatePc): Option<MutexId> {
    if g == GLock || g == GWoken then Some(GateMutex(side)) else None
  }

  function ExitWaits(side: Side, x: ExitPc): Option<MutexId> {
    if x == XLock then Some(ContextMutex)
    else if x == XLockGate then Some(GateMutex(Other(side)))
    else None
  }

  /** The mutex a thread needs for its next action. */
  function WaitsFor(s: State, t: Tid): Option<MutexId> {
    match t
    case Thread(side) =>
      if side == Recv then
        if s.recv.RGate? then GateWaits(Recv, s.recv.g)
        else if s.recv.RLockRequest? then Some(RequestMutex)
        else if s.recv.RExit? then ExitWaits(Recv, s.recv.x)
        else None
      else
        if s.send.SGate? then GateWaits(Send, s.send.g)
        else if s.send.SLockResponse? then Some(ResponseMutex)
        else if s.send.SExit? then ExitWaits(Send, s.send.x)
        else None
    case Client(id) =>
      if id in s.clients && s.clients[id].CWaiting? then Some(MutexOf(s.clients[id].op)) else None
  }

  /** The lock table says exactly what the threads' positions say. */
  ghost predicate Locks(s: State) {
    && (forall m :: m in s.held ==> Holds(s, s.held[m]) == Some(m))
    && (forall t: Tid :: Holds(s, t).Some? ==> Holds(s, t).value in s.held && s.held[Holds(s, t).value] == t)
  }

  predicate OthersUnmoved(s: State, s': State, t: Tid) {
    match t
    case Thread(side) =>
      s'.clients == s.clients
      && if side == Recv then SendHolds(s'.send) == SendHolds(s.send) else RecvHolds(s'.recv) == RecvHolds(s.recv)
    case Client(id) =>
      s'.clients - {id} == s.clients - {id} && s'.recv == s.recv && s'.send == s.send
  }

  /** t alone has moved, and the table has followed what it now holds. */
  predicate Follows(s: State, s': State, t: Tid) {
    && OthersUnmoved(s, s', t)
    && TableFollows(s.held, s'.held, t, Holds(s, t), Holds(s', t))
  }

  predicate TableFollows(held: map<MutexId, Tid>, held': map<MutexId, Tid>, t: Tid,
                         had: Option<MutexId>, has: Option<MutexId>)
  {
    if had == has then held' == held
    else if had.None? then has.value !in held && held' == held[has.value := t]
    else has.None? && held' == held - {had.value}
  }

  predicate RecvMoved(s: State, s': State) {
    && s'.castOk == s.castOk && s'.clients == s.clients && SendHolds(s'.send) == SendHolds(s.send)
    && TableFollows(s.held, s'.held, Thread(Recv), RecvHolds(s.recv), RecvHolds(s'.recv))
  }

  predicate SendMoved(s: State, s': State) {
    && s'.castOk == s.castOk && s'.clients == s.clients && RecvHolds(s'.recv) == RecvHolds(s.recv)
    && TableFollows(s.held, s'.held, Thread(Send), SendHolds(s.send), SendHolds(s'.send))
  }

  // ---------- flags: the cast, the gates, the interrupts

  predicate Cast(s: State) {
    !s.castOk ==> (s.recv == RGate(GStart) || s.recv == RDone) && (s.send == SGate(GStart) || s.send == SDone)
  }

  /** Past the gate, before the snapshot. */
  predicate Snapping(w: SendPc) { w == SGate(GUnlock) || w == SLockResponse || w == SSnapshot }

  predicate Gate(s: State) {
    && s.log.passes + Bit(s.flags.write) <= s.log.enables
    && |s.log.snapshots| + Bit(Snapping(s.send)) == s.log.passes
    && (s.send == SGate(GClear) ==> s.flags.write)
    && s.recv != RGate(GClear)
  }

  /** The receive thread's handler has called interrupt() on the send thread. */
  predicate SendInterrupted(s: State) {
    s.castOk && (s.recv == RExit(XNotify) || s.recv == RDone)
  }

  predicate RecvInterrupted(s: State) {
    s.castOk && (s.send == SExit(XNotify) || s.send == SDone)
  }

  predicate SendLeaving(w: SendPc) { w.SExit? || w.SDone? }

  predicate RecvLeaving(r: RecvPc) { r.RExit? || r.RDone? }

  /** A requested interrupt stays pending until the thread takes its way out. */
  predicate Interrupts(s: State) {
    && (SendInterrupted(s) && !SendLeaving(s.send) ==> s.flags.sendInterrupt)
    && (RecvInterrupted(s) && !RecvLeaving(s.recv) ==> s.flags.recvInterrupt)
  }

  predicate Early(s: State) {
    RaisedNotInterrupted(s.recv) ==> s.flags.write || s.log.consumedEarly || s.log.withdrawnEarly
  }

  predicate Accounts(s: State) {
    Cast(s) && Gate(s) && Interrupts(s) && Early(s)
  }

  // ---------- what is on the wire

  function LastSize(snapshots: seq<seq<Byte>>): nat {
    if snapshots == [] then 0 else |snapshots[|snapshots| - 1]|
  }

  predicate Sending(w: SendPc) { w.SUnlockResponse? || w.SCall? || w.SSending? }

  /** The wire is the snapshots one after the other, less at most a part of the last one:
      the part being sent, or the part given up by a failed send. */
  predicate Transmission(s: State) {
    var all := Concat(s.log.snapshots);
    && s.net.wire <= all
    && |all| - |s.net.wire| <= LastSize(s.log.snapshots)
    && (Sending(s.send) ==> s.net.wire + s.send.left == all)
    && (!Sending(s.send) && !SendLeaving(s.send) ==> s.net.wire == all)
  }

  /** A client is in the middle of rewriting the response. */
  predicate Scribbling(s: State) {
    && ResponseMutex in s.held && s.held[ResponseMutex].Client?
    && s.held[ResponseMutex].id in s.clients
    && var c := s.clients[s.held[ResponseMutex].id]; c.CHolding? && c.op.SetResponse?
  }

  /** No snapshot is torn: each is a response some client had completed. */
  predicate Published(s: State) {
    && (!Scribbling(s) ==> s.ctx.response in s.log.published)
    && forall r :: r in s.log.snapshots ==> r in s.log.published
  }

  predicate Wire(s: State) { Transmission(s) && Published(s) }

  predicate SameWire(s: State, s': State) {
    && s'.net.wire == s.net.wire && s'.log.snapshots == s.log.snapshots
    && s'.log.published == s.log.published && s'.ctx.response == s.ctx.response
    && s'.clients == s.clients
    && (s'.send == s.send || (!Sending(s.send) && !Sending(s'.send) && (SendLeaving(s.send) ==> SendLeaving(s'.send))))
    && (Scribbling(s') <==> Scribbling(s))
  }

  // ---------- every reachable state

  ghost predicate Inv(s: State) {
    Locks(s) && Accounts(s) && Wire(s)
  }
}
