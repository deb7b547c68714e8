/** What the send thread transmits is current: each snapshot is the response that was set last. */
module Freshness {
  import opened Socket
  import opened Worker
  import opened WorkerPredicates
  import opened WorkerInvariants
  import opened WorkerShutdown

  /** The step completes a client's setting of the response. */
  function Sets(s: State, l: Label): Option<seq<Byte>> {
    if l.ClientThread? && l.act.Go? && l.id in s.clients && s.clients[l.id].CApplied? && s.clients[l.id].op.SetResponse?
    then Some(s.clients[l.id].op.bytes)
    else None
  }

  function Now(s: State, l: Label, last: seq<Byte>): seq<Byte> {
    if Sets(s, l).Some? then Sets(s, l).value else last
  }

  /** The response set last in the run ls from s, or last if there is none. */
  function LastSet(s: State, ls: seq<Label>, last: seq<Byte>): seq<Byte>
    decreases |ls|
  {
    if ls == [] || Step(s, ls[0]).None? then last
    else LastSet(Step(s, ls[0]).value, ls[1..], Now(s, ls[0], last))
  }

  predicate Snaps(s: State, l: Label) { l.SendThread? && s.send == SSnapshot }

  /** For each snapshot taken in the run, the response set last at that moment. */
  function Current(s: State, ls: seq<Label>, last: seq<Byte>): seq<seq<Byte>>
    decreases |ls|
  {
    if ls == [] || Step(s, ls[0]).None? then []
    else
      (if Snaps(s, ls[0]) then [last] else [])
        + Current(Step(s, ls[0]).value, ls[1..], Now(s, ls[0], last))
  }

  /** mResponse is the response set last, unless a client is in the middle of setting it. */
  predicate Fresh(s: State, last: seq<Byte>) {
    if ResponseMutex in s.held && s.held[ResponseMutex].Client? && s.held[ResponseMutex].id in s.clients then
      var c := s.clients[s.held[ResponseMutex].id];
      c.CApplied? && c.op.SetResponse? ==> s.ctx.response == c.op.bytes
    else s.ctx.response == last
  }

  predicate Held(s: State) {
    s.send == SSnapshot ==> ResponseMutex in s.held && s.held[ResponseMutex] == Thread(Send)
  }

  lemma SnapshotHolds(s: State)
    requires Locks(s)
    ensures Held(s)
  {
    assert s.send == SSnapshot ==> Holds(s, Thread(Send)) == Some(ResponseMutex);
  }

  /** What a thread of the worker can do to the response and its mutex. */
  predicate LeavesResponse(s: State, t: State, side: Side) {
    && t.ctx.response == s.ctx.response && t.clients == s.clients
    && (ResponseMutex in s.held && s.held[ResponseMutex].Client? ==>
          ResponseMutex in t.held && t.held[ResponseMutex] == s.held[ResponseMutex])
    && (ResponseMutex in t.held && t.held[ResponseMutex].Client? ==>
          ResponseMutex in s.held && s.held[ResponseMutex] == t.held[ResponseMutex])
  }

  lemma RecvLeavesResponse(s: State, o: Outcome)
    requires Locks(s) && RecvStep(s, o).Some?
    ensures LeavesResponse(s, RecvStep(s, o).value, Recv)
  {
    hide RecvStep;
    RecvFollows(s, o);
    RecvSameResponse(s, o);
    assert forall m :: m in s.held ==> Holds(s, s.held[m]) == Some(m);
  }

  lemma SendLeavesResponse(s: State, o: Outcome)
    requires Locks(s) && SendStep(s, o).Some?
    ensures LeavesResponse(s, SendStep(s, o).value, Send)
  {
    hide SendStep;
    SendFollows(s, o);
    SendSameResponse(s, o);
    assert Holds(s, Thread(Send)) == SendHolds(s.send);
    assert forall m :: m in s.held ==> Holds(s, s.held[m]) == Some(m);
  }

  lemma LeavesKeepsFresh(s: State, t: State, side: Side, last: seq<Byte>)
    requires Fresh(s, last) && LeavesResponse(s, t, side)
    ensures Fresh(t, last)
  {
  }

  lemma ClientKeepsFresh(s: State, id: nat, act: ClientAct, last: seq<Byte>)
    requires Locks(s) && Fresh(s, last) && ClientStep(s, id, act).Some?
    ensures Fresh(ClientStep(s, id, act).value, Now(s, ClientThread(id, act), last))
  {
    var t := ClientStep(s, id, act).value;
    if id in s.clients {
      assert Holds(s, Client(id)) == ClientHolds(s.clients[id]);
      assert forall m :: m in s.held ==> Holds(s, s.held[m]) == Some(m);
      match s.clients[id] {
        case CWaiting(op) =>
        case CHolding(op) =>
        case CApplied(op) =>
      }
    }
  }

  lemma StepKeepsFresh(s: State, l: Label, last: seq<Byte>)
    requires Locks(s) && Fresh(s, last) && Step(s, l).Some?
    ensures Fresh(Step(s, l).value, Now(s, l, last))
  {
    hide RecvStep, SendStep, ClientStep, Locks;
    match l {
      case RecvThread(o) =>
        RecvLeavesResponse(s, o);
        LeavesKeepsFresh(s, Step(s, l).value, Recv, last);
      case SendThread(o) =>
        SendLeavesResponse(s, o);
        LeavesKeepsFresh(s, Step(s, l).value, Send, last);
      case ClientThread(id, act) => ClientKeepsFresh(s, id, act, last);
      case PeerSends(_) =>
    }
  }

  // ---------- the snapshots

  lemma ExitTakesNone(s: State, side: Side, x: ExitPc)
    requires ExitStep(s, side, x).Some?
    ensures ExitStep(s, side, x).value.log.snapshots == s.log.snapshots
  {
  }

  lemma GateTakesNone(s: State, side: Side, g: GatePc)
    requires GateStep(s, side, g).Some?
    ensures GateStep(s, side, g).value.log.snapshots == s.log.snapshots
  {
  }

  lemma RecvTakesNone(s: State, o: Outcome)
    requires RecvStep(s, o).Some?
    ensures RecvStep(s, o).value.log.snapshots == s.log.snapshots
  {
    hide GateStep, ExitStep;
    if s.recv.RGate? {
      GateTakesNone(s, Recv, s.recv.g);
    } else if s.recv.RExit? {
      ExitTakesNone(s, Recv, s.recv.x);
    }
  }

  lemma SendTakes(s: State, o: Outcome)
    requires SendStep(s, o).Some?
    ensures
      SendStep(s, o).value.log.snapshots
        == if s.send == SSnapshot then s.log.snapshots + [s.ctx.response] else s.log.snapshots
  {
    hide GateStep, ExitStep;
    if s.send.SGate? {
      GateTakesNone(s, Send, s.send.g);
    } else if s.send.SExit? {
      ExitTakesNone(s, Send, s.send.x);
    }
  }

  lemma StepTakes(s: State, l: Label, last: seq<Byte>)
    requires Locks(s) && Fresh(s, last) && Step(s, l).Some?
    ensures Step(s, l).value.log.snapshots == s.log.snapshots + if Snaps(s, l) then [last] else []
  {
    SnapshotHolds(s);
    hide RecvStep, SendStep, ClientStep, Locks;
    match l {
      case RecvThread(o) => RecvTakesNone(s, o);
      case SendThread(o) => SendTakes(s, o);
      case ClientThread(id, act) => ClientFrame(s, id, act);
      case PeerSends(_) =>
    }
  }

  lemma {:induction false} RunTakes(s: State, ls: seq<Label>, last: seq<Byte>)
    requires Locks(s) && Fresh(s, last) && Exec(s, ls).Some?
    ensures
      var t := Exec(s, ls).value;
      && Locks(t) && Fresh(t, LastSet(s, ls, last))
      && t.log.snapshots == s.log.snapshots + Current(s, ls, last)
    decreases |ls|
  {
    hide Step, Locks, Fresh, Now, Snaps;
    if ls == [] {
      assert s.log.snapshots + [] == s.log.snapshots;
    } else {
      var next, now := Step(s, ls[0]).value, Now(s, ls[0], last);
      StepKeepsLocks(s, ls[0]);
      StepKeepsFresh(s, ls[0], last);
      StepTakes(s, ls[0], last);
      RunTakes(next, ls[1..], now);
      var taken := if Snaps(s, ls[0]) then [last] else [];
      var rest := Current(next, ls[1..], now);
      assert s.log.snapshots + taken + rest == s.log.snapshots + (taken + rest);
    }
  }

  /** Over every run, the snapshots are, one for one, the responses that were the last set when they
      were taken; the empty one before any was set. */
  lemma SnapshotsAreCurrent(fd: int, castOk: bool, ls: seq<Label>)
    requires Exec(Init(fd, castOk), ls).Some?
    ensures Exec(Init(fd, castOk), ls).value.log.snapshots == Current(Init(fd, castOk), ls, [])
  {
    InitInv(fd, castOk);
    RunTakes(Init(fd, castOk), ls, []);
  }

  predicate NoneSets(s: State, ls: seq<Label>)
    decreases |ls|
  {
    ls != [] && Step(s, ls[0]).Some? ==> Sets(s, ls[0]).None? && NoneSets(Step(s, ls[0]).value, ls[1..])
  }

  lemma {:induction false} CurrentStands(s: State, ls: seq<Label>, last: seq<Byte>)
    requires NoneSets(s, ls) && Exec(s, ls).Some?
    ensures forall r :: r in Current(s, ls, last) ==> r == last
    decreases |ls|
  {
    hide Step;
    if ls != [] {
      CurrentStands(Step(s, ls[0]).value, ls[1..], last);
    }
  }

  /** From a completed setting of the response on, and until the next is completed, every snapshot
      is that response. */
  lemma ResponseStands(s: State, id: nat, bytes: seq<Byte>, ls: seq<Label>)
    requires Reachable(s) && id in s.clients && s.clients[id] == CApplied(SetResponse(bytes))
    requires ClientStep(s, id, Go).Some? && Exec(ClientStep(s, id, Go).value, ls).Some?
    requires NoneSets(ClientStep(s, id, Go).value, ls)
    ensures
      var u := Exec(ClientStep(s, id, Go).value, ls).value;
      && |s.log.snapshots| <= |u.log.snapshots|
      && forall k :: |s.log.snapshots| <= k < |u.log.snapshots| ==> u.log.snapshots[k] == bytes
  {
    hide ClientStep, Fresh;
    var t := ClientStep(s, id, Go).value;
    ReachableInv(s);
    var last: seq<Byte> := FreshSomehow(s);
    StepKeepsFresh(s, ClientThread(id, Go), last);
    StepKeepsLocks(s, ClientThread(id, Go));
    ClientFrame(s, id, Go);
    RunTakes(t, ls, bytes);
    CurrentStands(t, ls, bytes);
    forall k | |s.log.snapshots| <= k < |Exec(t, ls).value.log.snapshots|
      ensures Exec(t, ls).value.log.snapshots[k] == bytes
    {
      var taken := Current(t, ls, bytes);
      assert Exec(t, ls).value.log.snapshots == s.log.snapshots + taken;
      assert taken[k - |s.log.snapshots|] in taken;
    }
  }

  lemma FreshSomehow(s: State) returns (last: seq<Byte>)
    requires Reachable(s)
    ensures Fresh(s, last)
  {
    var fd, castOk, ls :| fd != INVALID_FD && Exec(Init(fd, castOk), ls) == Some(s);
    InitInv(fd, castOk);
    RunTakes(Init(fd, castOk), ls, []);
    last := LastSet(Init(fd, castOk), ls, []);
  }
}
