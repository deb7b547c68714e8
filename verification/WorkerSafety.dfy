/** What holds of one connection's worker in every reachable state, and over every run. */
module WorkerSafety {
  import opened Socket
  import opened Worker
  import opened WorkerInvariants
  import opened WorkerPredicates

  // ---------- mutexes

  lemma OneMutexAtATime(s: State, m: MutexId, n: MutexId)
    requires Reachable(s) && m in s.held && n in s.held && s.held[m] == s.held[n]
    ensures m == n
  {
    ReachableInv(s);
  }

  /** What the mutexes are for: while one thread is at a shared field, no other is. */
  lemma NoConflictingAccess(s: State, id: nat)
    requires Reachable(s) && id in s.clients && s.clients[id].CHolding?
    ensures s.clients[id].op.PeekRequest? ==> !s.recv.RAppend?
    ensures s.clients[id].op.SetResponse? ==> s.send != SSnapshot
    ensures s.clients[id].op.EnableWrite? || s.clients[id].op.DisableWrite? ==>
      s.send != SGate(GTest) && s.send != SGate(GClear) && s.recv != RExit(XRaise)
    ensures s.clients[id].op.EnableRead? || s.clients[id].op.DisableRead? ==>
      s.recv != RGate(GTest) && s.send != SExit(XRaise)
    ensures forall other :: other in s.clients && other != id && s.clients[other].CHolding? ==>
      MutexOf(s.clients[other].op) != MutexOf(s.clients[id].op)
  {
    ReachableInv(s);
    hide Accounts, Wire;
    var m := MutexOf(s.clients[id].op);
    assert Holds(s, Client(id)) == Some(m);
    assert s.held[m] == Client(id);
    assert Holds(s, Thread(Recv)) != Some(m) && Holds(s, Thread(Send)) != Some(m);
    forall other | other in s.clients && other != id && s.clients[other].CHolding?
      ensures MutexOf(s.clients[other].op) != m
    {
      assert Holds(s, Client(other)) == Some(MutexOf(s.clients[other].op));
    }
  }

  /** t cannot take its next step because u holds the mutex it needs. */
  predicate Blocked(s: State, t: Tid, u: Tid) {
    WaitsFor(s, t).Some? && WaitsFor(s, t).value in s.held && s.held[WaitsFor(s, t).value] == u
  }

  /** Whatever its system call answers, t has a step to take. */
  ghost predicate CanMove(s: State, t: Tid) {
    match t
    case Thread(side) =>
      if side == Recv then forall o :: RecvStep(s, o).Some? else forall o :: SendStep(s, o).Some?
    case Client(id) => ClientStep(s, id, Go).Some?
  }

  lemma HolderMoves(s: State, t: Tid)
    requires Inv(s) && Holds(s, t).Some?
    ensures CanMove(s, t)
  {
    match t {
      case Thread(side) =>
        if side == Recv {
          match s.recv {
            case RGate(g) => assert GateStep(s, Recv, g).Some?;
            case RExit(x) => assert ExitStep(s, Recv, x).Some?;
            case RAppend(_) =>
            case RUnlockRequest =>
            case RCall =>
            case RInRecv(_) =>
            case RLockRequest(_) =>
            case RDone =>
          }
        } else {
          match s.send {
            case SGate(g) => assert GateStep(s, Send, g).Some?;
            case SExit(x) => assert ExitStep(s, Send, x).Some?;
            case SSnapshot =>
            case SUnlockResponse(_) =>
            case SLockResponse =>
            case SCall(_) =>
            case SSending(_, _) =>
            case SDone =>
          }
        }
      case Client(id) =>
    }
  }

  /** Follow the threads blocked on one another's mutexes: after one hop the chain ends, at a
      thread that can move. So no set of threads waits in a circle. */
  lemma NoDeadlock(s: State, chain: seq<Tid>)
    requires Reachable(s) && |chain| >= 2
    requires forall i :: 0 <= i < |chain| - 1 ==> Blocked(s, chain[i], chain[i + 1])
    ensures |chain| == 2 && chain[0] != chain[1] && CanMove(s, chain[1])
  {
    ReachableInv(s);
    assert Blocked(s, chain[0], chain[0 + 1]);
    assert Holds(s, chain[1]).Some?;
    HolderMoves(s, chain[1]);
    HolderDoesNotWait(s, chain[1]);
    HolderDoesNotWait(s, chain[0]);
    assert |chain| > 2 ==> Blocked(s, chain[1], chain[1 + 1]);
  }

  lemma HolderDoesNotWait(s: State, t: Tid)
    ensures Holds(s, t).Some? ==> WaitsFor(s, t).None?
  {
  }

  // ---------- the request

  /** The chunk received and not appended yet. */
  function Pending(r: RecvPc): seq<Byte> {
    if r.RLockRequest? || r.RAppend? then r.chunk else []
  }

  function Stream(s: State): seq<Byte> {
    s.ctx.request + Pending(s.recv) + s.net.incoming
  }

  function Arriving(l: Label): seq<Byte> {
    if l.PeerSends? then l.bytes else []
  }

  function PeerSent(ls: seq<Label>): seq<Byte>
    decreases |ls|
  {
    if ls == [] then [] else Arriving(ls[0]) + PeerSent(ls[1..])
  }

  predicate SameStream(s: State, t: State) {
    t.ctx.request == s.ctx.request && Pending(t.recv) == Pending(s.recv) && t.net.incoming == s.net.incoming
  }

  lemma RecvExitKeepsStream(s: State, x: ExitPc)
    requires s.recv == RExit(x) && ExitStep(s, Recv, x).Some?
    ensures SameStream(s, ExitStep(s, Recv, x).value)
  {
  }

  lemma Received(request: seq<Byte>, chunk: seq<Byte>, rest: seq<Byte>)
    ensures request + chunk + rest == request + [] + (chunk + rest)
  {
  }

  lemma ReceiveKeepsStream(s: State, o: Outcome)
    requires s.recv.RInRecv? && RecvStep(s, o).Some?
    ensures Stream(RecvStep(s, o).value) == Stream(s)
  {
    hide GateStep, ExitStep;
    var t := RecvStep(s, o).value;
    if t.recv.RLockRequest? {
      assert s.net.incoming == t.recv.chunk + t.net.incoming && t.ctx.request == s.ctx.request;
      hide RecvStep;
      Received(s.ctx.request, t.recv.chunk, t.net.incoming);
    } else {
      assert SameStream(s, t);
    }
  }

  lemma AppendKeepsStream(s: State, o: Outcome)
    requires s.recv.RAppend?
    ensures Stream(RecvStep(s, o).value) == Stream(s)
  {
    hide GateStep, ExitStep;
    var appended := s.ctx.request + s.recv.chunk;
    assert appended + [] == appended;
  }

  lemma Assoc(a: seq<Byte>, b: seq<Byte>, c: seq<Byte>)
    ensures a + b + c == a + (b + c)
  {
  }

  lemma RecvKeepsStream(s: State, o: Outcome)
    requires RecvStep(s, o).Some?
    ensures Stream(RecvStep(s, o).value) == Stream(s)
  {
    var t := RecvStep(s, o).value;
    match s.recv {
      case RGate(g) => assert RecvStep(s, o) == GateStep(s, Recv, g) && SameStream(s, t);
      case RInRecv(fd) => ReceiveKeepsStream(s, o);
      case RAppend(chunk) => AppendKeepsStream(s, o);
      case RExit(x) => RecvExitKeepsStream(s, x);
      case RCall => assert SameStream(s, t);
      case RLockRequest(_) => assert SameStream(s, t);
      case RUnlockRequest => assert SameStream(s, t);
      case RDone =>
    }
  }

  lemma SendExitKeepsStream(s: State, x: ExitPc)
    requires s.send == SExit(x) && ExitStep(s, Send, x).Some?
    ensures SameStream(s, ExitStep(s, Send, x).value)
  {
  }

  lemma SendKeepsStream(s: State, o: Outcome)
    requires SendStep(s, o).Some?
    ensures SameStream(s, SendStep(s, o).value)
  {
    match s.send {
      case SGate(g) =>
        assert SendStep(s, o) == GateStep(s, Send, g);
      case SExit(x) => SendExitKeepsStream(s, x);
      case SLockResponse =>
      case SSnapshot =>
      case SUnlockResponse(_) =>
      case SCall(_) =>
      case SSending(_, _) =>
      case SDone =>
    }
  }

  lemma StepKeepsStream(s: State, l: Label)
    requires Step(s, l).Some?
    ensures Stream(Step(s, l).value) == Stream(s) + Arriving(l)
  {
    var t := Step(s, l).value;
    match l {
      case RecvThread(o) => RecvKeepsStream(s, o);
      case SendThread(o) => SendKeepsStream(s, o);
      case ClientThread(id, act) => assert SameStream(s, t);
      case PeerSends(bytes) =>
        assert Stream(t) == Stream(s) + bytes;
    }
    assert Stream(s) + [] == Stream(s);
  }

  lemma {:induction false} RunKeepsStream(s: State, ls: seq<Label>)
    requires Exec(s, ls).Some?
    ensures Stream(Exec(s, ls).value) == Stream(s) + PeerSent(ls)
    decreases |ls|
  {
    if ls == [] {
      assert Stream(s) + [] == Stream(s);
    } else {
      var next := Step(s, ls[0]).value;
      StepKeepsStream(s, ls[0]);
      RunKeepsStream(next, ls[1..]);
      Assoc(Stream(s), Arriving(ls[0]), PeerSent(ls[1..]));
    }
  }

  /** Whenever a run is stopped, and whichever thread is leaving, everything the peer has sent
      is in mRequest, in the one chunk on its way there, or not received yet, in order. */
  lemma RequestAccumulation(fd: int, castOk: bool, ls: seq<Label>)
    requires Exec(Init(fd, castOk), ls).Some?
    ensures
      var s := Exec(Init(fd, castOk), ls).value;
      s.ctx.request + Pending(s.recv) + s.net.incoming == PeerSent(ls) && s.ctx.request <= PeerSent(ls)
  {
    RunKeepsStream(Init(fd, castOk), ls);
    assert [] + [] + [] + PeerSent(ls) == PeerSent(ls);
    var s := Exec(Init(fd, castOk), ls).value;
    Prefix3(s.ctx.request, Pending(s.recv), s.net.incoming);
  }

  lemma Prefix3(a: seq<Byte>, b: seq<Byte>, c: seq<Byte>)
    ensures a <= a + b + c
  {
  }

  // ---------- the response

  lemma ConcatLast(ss: seq<seq<Byte>>)
    requires ss != []
    ensures Concat(ss) == Concat(ss[..|ss| - 1]) + ss[|ss| - 1]
  {
    assert ss == ss[..|ss| - 1] + [ss[|ss| - 1]];
    ConcatAppend(ss[..|ss| - 1], ss[|ss| - 1]);
  }

  /** All snapshots but the last, and a proper prefix of the last. */
  predicate CutAt(wire: seq<Byte>, snapshots: seq<seq<Byte>>, k: nat) {
    && snapshots != []
    && var n := |snapshots| - 1;
       k < |snapshots[n]| && wire == Concat(snapshots[..n]) + snapshots[n][..k]
  }

  ghost predicate Shaped(s: State) {
    || s.net.wire == Concat(s.log.snapshots)
    || ((Sending(s.send) || SendLeaving(s.send)) && exists k: nat :: CutAt(s.net.wire, s.log.snapshots, k))
  }

  /** The wire carries complete snapshots only, except that the last may be cut short, and
      then the send thread is sending it or has given up and is on its way out. */
  lemma TransmissionShape(s: State)
    requires Reachable(s)
    ensures Shaped(s)
  {
    ReachableInv(s);
    var all, n := Concat(s.log.snapshots), |s.log.snapshots|;
    assert n == 0 ==> all == [];
    if s.net.wire != all {
      var front, last := Concat(s.log.snapshots[..n - 1]), s.log.snapshots[n - 1];
      ConcatLast(s.log.snapshots);
      var k := |s.net.wire| - |front|;
      assert 0 <= k < |last|;
      assert s.net.wire == all[..|front| + k] == front + last[..k];
      assert CutAt(s.net.wire, s.log.snapshots, k);
    }
  }

  lemma LeavingStep(s: State, l: Label)
    requires SendLeaving(s.send) && Step(s, l).Some?
    ensures
      var t := Step(s, l).value;
      SendLeaving(t.send) && t.net.wire == s.net.wire && t.log.snapshots == s.log.snapshots
  {
    match l {
      case RecvThread(o) => RecvLeavesWire(s, o);
      case SendThread(o) =>
        if s.send.SExit? {
          SendExitSameWire(s, s.send.x);
        }
      case ClientThread(id, act) =>
      case PeerSends(_) =>
    }
  }

  lemma RecvLeavesWire(s: State, o: Outcome)
    requires RecvStep(s, o).Some?
    ensures
      var t := RecvStep(s, o).value;
      t.net.wire == s.net.wire && t.log.snapshots == s.log.snapshots
      && (SendLeaving(s.send) ==> t.send == s.send)
  {
    match s.recv {
      case RGate(g) => assert RecvStep(s, o) == GateStep(s, Recv, g);
      case RExit(x) => RecvExitLeavesWire(s, x);
      case RCall =>
      case RInRecv(_) =>
      case RLockRequest(_) =>
      case RAppend(_) =>
      case RUnlockRequest =>
      case RDone =>
    }
  }

  lemma RecvExitLeavesWire(s: State, x: ExitPc)
    requires s.recv == RExit(x) && ExitStep(s, Recv, x).Some?
    ensures
      var t := ExitStep(s, Recv, x).value;
      t.net.wire == s.net.wire && t.log.snapshots == s.log.snapshots
      && (SendLeaving(s.send) ==> t.send == s.send)
  {
  }

  /** A failed send ends the send thread: nothing follows the cut snapshot. */
  lemma {:induction false} NothingAfterFailure(s: State, ls: seq<Label>)
    requires SendLeaving(s.send) && Exec(s, ls).Some?
    ensures
      var t := Exec(s, ls).value;
      SendLeaving(t.send) && t.net.wire == s.net.wire && t.log.snapshots == s.log.snapshots
    decreases |ls|
  {
    if ls != [] {
      LeavingStep(s, ls[0]);
      NothingAfterFailure(Step(s, ls[0]).value, ls[1..]);
    }
  }

  /** Each enabling of the write gate, by a client or by the exit handler, lets at most one
      snapshot out, however enabling and disabling interleave. */
  lemma GateAccounting(s: State)
    requires Reachable(s)
    ensures s.log.passes + Bit(s.flags.write) <= s.log.enables
    ensures |s.log.snapshots| <= s.log.passes
  {
    ReachableInv(s);
  }

  // ---------- snapshots are not torn

  /** The responses clients have asked to set, in a run. */
  function Asked(ls: seq<Label>): set<seq<Byte>> {
    set l | l in ls && l.ClientThread? && l.act.Begin? && l.act.op.SetResponse? :: l.act.op.bytes
  }

  /** Those still being set. */
  function InHand(s: State): set<seq<Byte>> {
    set id | id in s.clients && s.clients[id].op.SetResponse? :: s.clients[id].op.bytes
  }

  lemma PublishStep(s: State, l: Label)
    requires Step(s, l).Some?
    ensures
      var t := Step(s, l).value;
      t.log.published + InHand(t) <= s.log.published + InHand(s) + Asked([l])
  {
    var t := Step(s, l).value;
    match l {
      case RecvThread(o) => RecvKeepsClients(s, o);
      case SendThread(o) => SendKeepsClients(s, o);
      case ClientThread(id, act) => ClientPublishes(s, id, act);
      case PeerSends(_) =>
    }
  }

  lemma ClientPublishes(s: State, id: nat, act: ClientAct)
    requires ClientStep(s, id, act).Some?
    ensures
      var t := ClientStep(s, id, act).value;
      t.log.published + InHand(t) <= s.log.published + InHand(s) + Asked([ClientThread(id, act)])
  {
    var l, t := ClientThread(id, act), ClientStep(s, id, act).value;
    forall r | r in t.log.published + InHand(t)
      ensures r in s.log.published + InHand(s) + Asked([l])
    {
      if id !in s.clients {
        assert l in [l];
      }
    }
  }

  lemma RecvKeepsClients(s: State, o: Outcome)
    requires RecvStep(s, o).Some?
    ensures
      var t := RecvStep(s, o).value;
      t.clients == s.clients && t.log.published == s.log.published
  {
    hide GateStep, ExitStep;
    RecvFollows(s, o);
    match s.recv {
      case RGate(g) => RecvGateSameWire(s, g);
      case RExit(x) => RecvExitSameWire(s, x);
      case RCall =>
      case RInRecv(_) =>
      case RLockRequest(_) =>
      case RAppend(_) =>
      case RUnlockRequest =>
      case RDone =>
    }
  }

  lemma SendKeepsClients(s: State, o: Outcome)
    requires SendStep(s, o).Some?
    ensures
      var t := SendStep(s, o).value;
      t.clients == s.clients && t.log.published == s.log.published
  {
    hide GateStep, ExitStep;
    SendFollows(s, o);
    match s.send {
      case SGate(g) => SendGateSameWire(s, g);
      case SExit(x) => SendExitSameWire(s, x);
      case SLockResponse =>
      case SSnapshot =>
      case SUnlockResponse(_) =>
      case SCall(_) =>
      case SSending(_, _) =>
      case SDone =>
    }
  }

  lemma {:induction false} PublishRun(s: State, ls: seq<Label>)
    requires Exec(s, ls).Some?
    ensures Exec(s, ls).value.log.published <= s.log.published + InHand(s) + Asked(ls)
    decreases |ls|
  {
    if ls != [] {
      var next := Step(s, ls[0]).value;
      PublishStep(s, ls[0]);
      PublishRun(next, ls[1..]);
      assert ls == [ls[0]] + ls[1..];
      assert Asked([ls[0]]) + Asked(ls[1..]) <= Asked(ls);
    }
  }

  /** Clients may write mResponse piece by piece, but what is transmitted is always a whole
      response that some client asked for, or the initial empty one. */
  lemma SnapshotsAreWhole(fd: int, castOk: bool, ls: seq<Label>)
    requires Exec(Init(fd, castOk), ls).Some?
    ensures forall r :: r in Exec(Init(fd, castOk), ls).value.log.snapshots ==> r == [] || r in Asked(ls)
  {
    InitInv(fd, castOk);
    ExecKeepsInv(Init(fd, castOk), ls);
    PublishRun(Init(fd, castOk), ls);
  }
}
