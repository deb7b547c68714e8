/** The worker with send_bytes as the compiler reads it: the send thread's calls follow the literal
    loop of LiteralSend, whose size_t total takes a send() that returns -1 for progress. */
module LiteralWorker {
  import opened Socket
  import opened Worker
  import opened WorkerPredicates
  import opened WorkerSafety
  import opened WorkerShutdown
  import IO = IOHelper
  import L = LiteralSend
  import P = SendPath

  /** data: the response being sent. call: where the literal loop is with it. */
  datatype LState = LState(s: State, data: seq<Byte>, call: L.Literal)

  function Start(fd: int, castOk: bool): LState { LState(Init(fd, castOk), [], L.Begin(0)) }

  /** What the loop has still to send of data, as it sees it. */
  function Rest(data: seq<Byte>, total: nat): seq<Byte> {
    if total <= |data| then data[total..] else []
  }

  /** One test of the literal loop, and the call of send() it leads to. */
  function SendCall(x: LState, o: Outcome): LState
    requires x.s.send.SSending?
  {
    if x.call.total >= |x.data| then x.(s := x.s.(send := SGate(GPoint)))
    else
      var call := L.Call(x.data, x.call, P.Answer(x.s.send.fd, o));
      if call.status.Failed? then x.(s := x.s.(send := SExit(XLock)), call := call)
      else
        var sent := call.wire[|x.call.wire|..];
        x.(s := x.s.(send := SSending(Rest(x.data, call.total), x.s.send.fd),
                     net := x.s.net.(wire := x.s.net.wire + sent)),
           call := call)
  }

  /** Every other step is the worker's. */
  function LStep(x: LState, l: Label): Option<LState> {
    if l.SendThread? && x.s.send.SSending? then Some(SendCall(x, l.o))
    else
      match Step(x.s, l)
      case None => None
      case Some(t) =>
        Some(if l.SendThread? && x.s.send.SCall? then LState(t, x.s.send.left, L.Begin(0)) else x.(s := t))
  }

  function LExec(x: LState, ls: seq<Label>): Option<LState>
    decreases |ls|
  {
    if ls == [] then Some(x)
    else
      match LStep(x, ls[0])
      case None => None
      case Some(next) => LExec(next, ls[1..])
  }

  ghost predicate LReachable(x: LState) {
    exists fd, castOk, ls :: fd != INVALID_FD && LExec(Start(fd, castOk), ls) == Some(x)
  }

  // ---------- send_bytes

  /** Where handleWriteEvent is after the literal loop has got to e. */
  function Ended(x: LState, e: L.Literal): LState
    requires x.s.send.SSending? && |x.call.wire| <= |e.wire|
  {
    LState(
      x.s.(send := if e.status.Failed? then SExit(XLock) else SSending(Rest(x.data, e.total), x.s.send.fd),
           net := x.s.net.(wire := x.s.net.wire + e.wire[|x.call.wire|..])),
      x.data, if e.status.Failed? then e else e.(status := IO.Waiting))
  }

  lemma {:induction false} LoopGoesOn(data: seq<Byte>, l: L.Literal, script: seq<Outcome>)
    requires l.next <= |script|
    ensures var e := L.LiteralLoop(data, l, script); l.wire <= e.wire && l.next <= e.next <= |script|
    decreases |script| - l.next
  {
    if !l.status.Failed? && l.total < |data| && l.next < |script| {
      LoopGoesOn(data, L.Call(data, l, script[l.next]), script);
    }
  }

  lemma LExecFirst(x: LState, script: seq<Outcome>, from: nat, to: nat)
    requires from < to <= |script| && x.s.send.SSending?
    ensures LExec(x, P.Alone(script, from, to)) == LExec(SendCall(x, script[from]), P.Alone(script, from + 1, to))
  {
    hide SendCall;
    assert P.Alone(script, from, to)[1..] == P.Alone(script, from + 1, to);
  }

  lemma LExecNone(x: LState, script: seq<Outcome>, at: nat)
    requires at <= |script|
    ensures LExec(x, P.Alone(script, at, at)) == Some(x)
  {
  }

  lemma CallWire(data: seq<Byte>, l: L.Literal, o: Outcome)
    requires l.total < |data|
    ensures
      var call := L.Call(data, l, o);
      l.wire <= call.wire && (call.status.Failed? && l.status.Waiting? ==> call.wire == l.wire)
  {
  }

  lemma Slices(base: seq<Byte>, a: seq<Byte>, b: seq<Byte>, c: seq<Byte>)
    requires a <= b <= c
    ensures base + b[|a|..] + c[|b|..] == base + c[|a|..]
    ensures a == b == c ==> base + c[|a|..] == base
  {
  }

  /** One call, and then the rest of the loop. */
  lemma EndedTwice(x: LState, o: Outcome, e: L.Literal)
    requires x.s.send.SSending? && x.call.total < |x.data| && x.call.status.Waiting?
    requires
      var call := L.Call(x.data, x.call, P.Answer(x.s.send.fd, o));
      call.wire <= e.wire && if call.status.Failed? then e == call else true
    ensures
      var next := SendCall(x, o);
      x.call.wire <= e.wire && Ended(x, e) == if next.s.send.SSending? then Ended(next, e) else next
  {
    hide L.Call, Rest;
    var call := L.Call(x.data, x.call, P.Answer(x.s.send.fd, o));
    CallWire(x.data, x.call, P.Answer(x.s.send.fd, o));
    Slices(x.s.net.wire, x.call.wire, call.wire, e.wire);
  }

  /** Alone, and whatever the script, the send thread ends where the literal loop ends, with the same
      bytes on the wire, after the same number of calls. */
  lemma {:induction false} TransmitsLikeLiteralLoop(x: LState, script: seq<Outcome>)
    requires x.s.send.SSending? && x.s.send.left == Rest(x.data, x.call.total)
    requires x.call.status.Waiting? && x.call.next <= |script|
    ensures
      var e := L.LiteralLoop(x.data, x.call, P.Answers(x.s.send.fd, script));
      && x.call.next <= e.next <= |script| && x.call.wire <= e.wire
      && LExec(x, P.Alone(script, x.call.next, e.next)) == Some(Ended(x, e))
    decreases |script| - x.call.next
  {
    hide LStep, LExec, P.Alone;
    var answers, at := P.Answers(x.s.send.fd, script), x.call.next;
    var e := L.LiteralLoop(x.data, x.call, answers);
    LoopGoesOn(x.data, x.call, answers);
    if x.call.total >= |x.data| || at == |script| {
      LExecNone(x, script, at);
      assert x.s.net.wire + e.wire[|x.call.wire|..] == x.s.net.wire;
    } else {
      var next := SendCall(x, script[at]);
      var call := L.Call(x.data, x.call, answers[at]);
      LoopGoesOn(x.data, call, answers);
      LExecFirst(x, script, at, e.next);
      EndedTwice(x, script[at], e);
      if call.status.Failed? {
        LExecNone(next, script, at + 1);
      } else {
        TransmitsLikeLiteralLoop(next, script);
      }
    }
  }

  // ---------- the literal worker against the intended one

  /** The step calls send(), which returns -1. */
  predicate FailedCall(s: State, l: Label) {
    l.SendThread? && s.send.SSending? && s.send.left != [] && !P.Answer(s.send.fd, l.o).Moved?
  }

  predicate NoneFails(x: LState, ls: seq<Label>)
    decreases |ls|
  {
    ls != [] && LStep(x, ls[0]).Some? ==> !FailedCall(x.s, ls[0]) && NoneFails(LStep(x, ls[0]).value, ls[1..])
  }

  /** Every step of the run is the step of the intended worker. */
  predicate AgreeThroughout(x: LState, ls: seq<Label>)
    decreases |ls|
  {
    ls != [] && LStep(x, ls[0]).Some? ==>
      Step(x.s, ls[0]) == Some(LStep(x, ls[0]).value.s) && AgreeThroughout(LStep(x, ls[0]).value, ls[1..])
  }

  /** The two descriptions of a transmission in progress fit together, and no response is too long
      for a size_t that is read as signed. */
  predicate Coupled(x: LState) {
    match x.s.send
    case SUnlockResponse(left) => |left| < L.TWO_63
    case SCall(left) => |left| < L.TWO_63
    case SSending(left, _) =>
      |x.data| < L.TWO_63 && x.call.total < L.TWO_64 && x.call.status.Waiting? && left == Rest(x.data, x.call.total)
    case SGate(_) => true
    case SLockResponse => true
    case SSnapshot => true
    case SExit(_) => true
    case SDone => true
  }

  /** A call that moves bytes does so in both readings. */
  lemma MovedAgrees(x: LState, o: Outcome)
    requires Coupled(x) && x.s.send.SSending? && x.s.send.left != [] && P.Answer(x.s.send.fd, o).Moved?
    ensures SendStep(x.s, o) == Some(SendCall(x, o).s) && Coupled(SendCall(x, o))
  {
    hide GateStep, ExitStep;
    var r := SendRet(o, |x.s.send.left|);
    assert r.Bytes? && OnFd(x.s.send.fd, r) == r && P.Answer(x.s.send.fd, o) == o;
    var k, total := r.count, x.call.total;
    SmallSum(total, k, |x.data|);
    if k > 0 {
      Cut(x.data, total, k);
      assert L.Call(x.data, x.call, o).wire[|x.call.wire|..] == x.data[total..total + k];
    }
  }

  lemma Cut(data: seq<Byte>, total: nat, k: nat)
    requires total + k <= |data|
    ensures data[total..][..k] == data[total..total + k] && data[total..][k..] == data[total + k..]
  {
  }

  lemma SmallSum(total: nat, k: nat, len: nat)
    requires total + k <= len < L.TWO_63
    ensures (total + k) % L.TWO_64 == total + k
  {
  }

  /** A call that returns -1 gives the last byte back, or ends the loop as if all had been sent; the
      intended loop tries again or gives up. */
  lemma FailedDiffers(x: LState, o: Outcome)
    requires Coupled(x) && x.s.send.SSending? && x.s.send.left != [] && !P.Answer(x.s.send.fd, o).Moved?
    ensures SendStep(x.s, o).Some? && SendStep(x.s, o).value != SendCall(x, o).s && Coupled(SendCall(x, o))
  {
    hide GateStep, ExitStep;
    var total := x.call.total;
    L.WrapsAround(total);
    var call := L.Call(x.data, x.call, P.Answer(x.s.send.fd, o));
    assert call.total == if total == 0 then L.TWO_64 - 1 else total - 1;
    assert |Rest(x.data, call.total)| != |x.s.send.left|;
  }

  lemma LoopEnds(x: LState, o: Outcome)
    requires Coupled(x) && x.s.send.SSending? && x.s.send.left == []
    ensures SendStep(x.s, o) == Some(SendCall(x, o).s) && Coupled(SendCall(x, o))
  {
    hide GateStep, ExitStep;
  }

  lemma RecvLeavesSending(s: State, o: Outcome)
    requires RecvStep(s, o).Some?
    ensures var t := RecvStep(s, o).value; t.send == s.send || t.send.SGate?
  {
    if s.recv.RGate? {
      hide ExitStep;
    } else if s.recv.RExit? {
      RecvExitLeavesSending(s, s.recv.x);
    } else {
      hide GateStep, ExitStep;
    }
  }

  lemma RecvExitLeavesSending(s: State, x: ExitPc)
    requires s.recv == RExit(x) && ExitStep(s, Recv, x).Some?
    ensures var t := ExitStep(s, Recv, x).value; t.send == s.send || t.send.SGate?
  {
  }

  lemma SendReaches(x: LState, o: Outcome)
    requires Coupled(x) && !x.s.send.SSending? && |x.s.ctx.response| < L.TWO_63 && SendStep(x.s, o).Some?
    ensures Coupled(LStep(x, SendThread(o)).value)
  {
    hide GateStep, ExitStep;
    if x.s.send.SGate? {
      GateStaysOut(x.s, x.s.send.g);
    } else if x.s.send.SExit? {
      ExitStaysOut(x.s, x.s.send.x);
    } else if x.s.send.SCall? {
      assert x.s.send.left[0..] == x.s.send.left;
    }
  }

  lemma GateStaysOut(s: State, g: GatePc)
    requires s.send == SGate(g) && GateStep(s, Send, g).Some?
    ensures
      var w := GateStep(s, Send, g).value.send;
      w.SGate? || w.SExit? || w.SLockResponse? || w.SDone?
  {
  }

  lemma ExitStaysOut(s: State, x: ExitPc)
    requires s.send == SExit(x) && ExitStep(s, Send, x).Some?
    ensures SendLeaving(ExitStep(s, Send, x).value.send)
  {
  }

  lemma OthersKeepCoupled(x: LState, l: Label)
    requires Coupled(x) && !l.SendThread? && LStep(x, l).Some?
    ensures Coupled(LStep(x, l).value)
  {
    hide RecvStep, SendStep, ClientStep;
    match l {
      case RecvThread(o) => RecvLeavesSending(x.s, o);
      case ClientThread(id, act) => ClientFrame(x.s, id, act);
      case PeerSends(_) =>
    }
  }

  /** One step of the literal worker is the intended worker's exactly if it is not a send() that
      returns -1. */
  lemma StepAgrees(x: LState, l: Label)
    requires Coupled(x) && |x.s.ctx.response| < L.TWO_63 && LStep(x, l).Some?
    ensures Step(x.s, l) == Some(LStep(x, l).value.s) <==> !FailedCall(x.s, l)
    ensures Coupled(LStep(x, l).value)
  {
    hide RecvStep, ClientStep, SendStep, SendCall, Coupled;
    if !l.SendThread? {
      OthersKeepCoupled(x, l);
    } else if !x.s.send.SSending? {
      SendReaches(x, l.o);
    } else if x.s.send.left == [] {
      LoopEnds(x, l.o);
    } else if P.Answer(x.s.send.fd, l.o).Moved? {
      MovedAgrees(x, l.o);
    } else {
      FailedDiffers(x, l.o);
    }
  }

  /** Over a whole run, the literal worker does what the intended one does, step by step, if and only
      if no send() in it returns -1. */
  lemma {:induction false} AgreesExactlyWhen(x: LState, ls: seq<Label>)
    requires Coupled(x) && Fits(x.s, ls, L.TWO_63 - 1) && LExec(x, ls).Some?
    ensures AgreeThroughout(x, ls) <==> NoneFails(x, ls)
    ensures NoneFails(x, ls) ==> Exec(x.s, ls) == Some(LExec(x, ls).value.s)
    decreases |ls|
  {
    hide Step, LStep, Coupled, FailedCall;
    if ls != [] {
      StepAgrees(x, ls[0]);
      if !FailedCall(x.s, ls[0]) {
        FitsStep(x.s, ls, L.TWO_63 - 1);
        AgreesExactlyWhen(LStep(x, ls[0]).value, ls[1..]);
      }
    }
  }

  /** So all that is proved of the intended worker holds of the literal one in the runs in which no
      send() returns -1; of the wire, that it carries complete responses but for the last. */
  lemma ShapedIfNoneFails(fd: int, castOk: bool, ls: seq<Label>)
    requires fd != INVALID_FD && Fits(Init(fd, castOk), ls, L.TWO_63 - 1)
    requires LExec(Start(fd, castOk), ls).Some? && NoneFails(Start(fd, castOk), ls)
    ensures
      var s := LExec(Start(fd, castOk), ls).value.s;
      Reachable(s) && Shaped(s)
  {
    AgreesExactlyWhen(Start(fd, castOk), ls);
    var s := LExec(Start(fd, castOk), ls).value.s;
    assert Exec(Init(fd, castOk), ls) == Some(s);
    TransmissionShape(s);
  }

  // ---------- a response lost

  lemma {:induction false} LExecSnoc(x: LState, ls: seq<Label>, l: Label)
    requires LExec(x, ls).Some?
    ensures LExec(x, ls + [l]) == LStep(LExec(x, ls).value, l)
    decreases |ls|
  {
    hide LStep;
    if ls == [] {
      assert ls + [l] == [l] && [l][1..] == [];
    } else {
      assert (ls + [l])[1..] == ls[1..] + [l];
      LExecSnoc(LStep(x, ls[0]).value, ls[1..], l);
    }
  }

  lemma LReachableStep(x: LState, l: Label) returns (y: LState)
    requires LReachable(x) && LStep(x, l).Some?
    ensures Some(y) == LStep(x, l) && LReachable(y)
  {
    hide LStep;
    y := LStep(x, l).value;
    var fd, castOk, ls :| fd != INVALID_FD && LExec(Start(fd, castOk), ls) == Some(x);
    LExecSnoc(Start(fd, castOk), ls, l);
    assert LExec(Start(fd, castOk), ls + [l]) == Some(y);
  }

  /** A step away from send_bytes. */
  lemma LReachablePlain(x: LState, l: Label) returns (y: LState)
    requires LReachable(x) && !x.s.send.SSending? && !x.s.send.SCall? && Step(x.s, l).Some?
    ensures Step(x.s, l) == Some(y.s) && y == x.(s := y.s) && LReachable(y)
  {
    hide Step;
    y := LReachableStep(x, l);
  }

  lemma LReachableStart()
    ensures LReachable(Start(4, true))
  {
    assert LExec(Start(4, true), []) == Some(Start(4, true));
  }

  /** A client sets the response. */
  lemma Responds() returns (x: LState)
    ensures LReachable(x)
    ensures x == Start(4, true).(s := Init(4, true).(
      ctx := Context(4, [], [1]), log := Log(0, 0, {[], [1]}, [], false, false)))
  {
    var go := ClientThread(0, Go);
    LReachableStart();
    hide RecvStep, SendStep, LStep, LExec, LReachable;
    x := LReachablePlain(Start(4, true), ClientThread(0, Begin(SetResponse([1]))));
    x := LReachablePlain(x, go);
    x := LReachablePlain(x, go);
    x := LReachablePlain(x, go);
    assert x.s.clients == map[] && x.s.held == map[];
  }

  /** It enables the write event. */
  lemma Enables() returns (x: LState)
    ensures LReachable(x)
    ensures x == Start(4, true).(s := Init(4, true).(
      ctx := Context(4, [], [1]), flags := Flags(true, true, false, false),
      log := Log(1, 0, {[], [1]}, [], false, false)))
  {
    hide RecvStep, SendStep, LStep, LExec, LReachable;
    var go := ClientThread(0, Go);
    x := Responds();
    x := LReachablePlain(x, ClientThread(0, Begin(EnableWrite)));
    x := LReachablePlain(x, go);
    x := LReachablePlain(x, go);
    x := LReachablePlain(x, go);
    assert x.s.clients == map[] && x.s.held == map[];
  }

  /** The send thread finds its gate open. */
  lemma FindsOpen() returns (x: LState)
    ensures LReachable(x)
    ensures x == Start(4, true).(s := Init(4, true).(
      ctx := Context(4, [], [1]), flags := Flags(true, true, false, false), send := SGate(GClear),
      held := map[WriteMutex := Thread(Send)], log := Log(1, 0, {[], [1]}, [], false, false)))
  {
    hide RecvStep, ClientStep, ExitStep, LStep, LReachable;
    var w := SendThread(Error);
    x := Enables();
    x := LReachablePlain(x, w);
    x := LReachablePlain(x, w);
    x := LReachablePlain(x, w);
    x := LReachablePlain(x, w);
  }

  /** It passes. */
  lemma Passes() returns (x: LState)
    ensures LReachable(x)
    ensures x == Start(4, true).(s := Init(4, true).(
      ctx := Context(4, [], [1]), send := SLockResponse, log := Log(1, 1, {[], [1]}, [], false, false)))
  {
    hide RecvStep, ClientStep, ExitStep, LStep, LReachable;
    var w := SendThread(Error);
    x := FindsOpen();
    x := LReachablePlain(x, w);
    x := LReachablePlain(x, w);
    assert x.s.held == map[];
  }

  /** It takes the response, and calls send_bytes. */
  lemma CallsSendBytes() returns (x: LState)
    ensures LReachable(x)
    ensures x == LState(
      Init(4, true).(
        ctx := Context(4, [], [1]), send := SSending([1], 4), log := Log(1, 1, {[], [1]}, [[1]], false, false)),
      [1], L.Begin(0))
  {
    hide RecvStep, ClientStep, GateStep, ExitStep;
    var w := SendThread(Error);
    x := Passes();
    x := LReachableStep(x, w);
    x := LReachableStep(x, w);
    x := LReachableStep(x, w);
    assert x.s.held == map[];
    x := LReachableStep(x, w);
  }

  /** "The wire carries complete responses, the last one cut only when the send thread leaves" is
      false of the literal code: send() fails once, send_bytes returns true, and the thread goes on
      to its next turn with nothing on the wire. */
  lemma ResponseLost()
    ensures exists x ::
      LReachable(x) && x.s.log.snapshots == [[1]] && x.s.net.wire == [] && x.s.send == SGate(GPoint) && !Shaped(x.s)
  {
    hide RecvStep, ClientStep, GateStep, ExitStep;
    hide Shaped, LReachable;
    var w := SendThread(Error);
    var x := CallsSendBytes();
    L.WrapsAround(0);
    x := LReachableStep(x, w);
    x := LReachableStep(x, w);
    NotShaped(x.s);
  }

  lemma NotShaped(s: State)
    requires s.log.snapshots == [[1]] && s.net.wire == [] && s.send == SGate(GPoint)
    ensures !Shaped(s)
  {
    assert Concat([[1]]) == [1];
  }
}
