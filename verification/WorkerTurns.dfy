/** The worker's threads as the loops they are: left alone, handleReadEvent, handleWriteEvent and the
    exit handler do what one reads off their text. */
module WorkerTurns {
  import opened Socket
  import opened Worker
  import opened WorkerPredicates
  import IO = IOHelper
  import P = SendPath

  // ---------- runs of one label

  function Copies(l: Label, n: nat): seq<Label> { seq(n, i => l) }

  /** The states of a run of one label, one after the other. */
  ghost predicate Path(states: seq<State>, l: Label) {
    states != [] && forall i :: 0 <= i < |states| - 1 ==> Step(states[i], l) == Some(states[i + 1])
  }

  lemma {:induction false} PathRuns(states: seq<State>, l: Label)
    requires Path(states, l)
    ensures Exec(states[0], Copies(l, |states| - 1)) == Some(states[|states| - 1])
    decreases |states|
  {
    hide Step;
    var n: nat := |states| - 1;
    if n == 0 {
      assert Copies(l, n) == [];
    } else {
      var rest := states[1..];
      assert Step(states[0], l) == Some(states[0 + 1]);
      assert Path(rest, l) by {
        forall i | 0 <= i < |rest| - 1
          ensures Step(rest[i], l) == Some(rest[i + 1])
        {
          assert Step(states[i + 1], l) == Some(states[i + 1 + 1]);
        }
      }
      PathRuns(rest, l);
      assert Copies(l, n)[0] == l && Copies(l, n)[1..] == Copies(l, n - 1);
    }
  }

  lemma Extend(states: seq<State>, l: Label, t: State)
    requires Path(states, l) && Step(states[|states| - 1], l) == Some(t)
    ensures Path(states + [t], l)
  {
    hide Step;
  }

  lemma ExecThen(s: State, a: seq<Label>, t: State, b: seq<Label>)
    requires Exec(s, a) == Some(t)
    ensures Exec(s, a + b) == Exec(t, b)
  {
    hide Exec;
    ExecAppend(s, a, b);
  }

  // ---------- the receive thread

  /** handleReadEvent's loop over the answers of recv(): whether it has been left, what the request
      is, and what has not been received. */
  datatype Received = Received(left: bool, request: seq<Byte>, incoming: seq<Byte>)

  function Receive(fd: int, request: seq<Byte>, incoming: seq<Byte>, script: seq<Outcome>): Received
    decreases |script|
  {
    if script == [] then Received(false, request, incoming)
    else
      match OnFd(fd, RecvRet(script[0], MAX_MESSAGEBUFF_LEN, |incoming|))
      case Again => Receive(fd, request, incoming, script[1..])
      case Fail => Received(true, request, incoming)
      case Bytes(k) =>
        if k == 0 then Received(true, request, incoming)
        else Receive(fd, request + incoming[..k], incoming[k..], script[1..])
  }

  /** The thread's steps meanwhile: six to an answer, and three more to append what came. */
  function ReadSteps(fd: int, incoming: seq<Byte>, script: seq<Outcome>): seq<Label>
    decreases |script|
  {
    if script == [] then []
    else
      var l := RecvThread(script[0]);
      match OnFd(fd, RecvRet(script[0], MAX_MESSAGEBUFF_LEN, |incoming|))
      case Again => Copies(l, 6) + ReadSteps(fd, incoming, script[1..])
      case Fail => Copies(l, 6)
      case Bytes(k) =>
        if k == 0 then Copies(l, 6) else Copies(l, 9) + ReadSteps(fd, incoming[k..], script[1..])
  }

  function AfterReads(s: State, r: Received): State {
    s.(recv := if r.left then RExit(XLock) else RGate(GPoint),
       ctx := s.ctx.(request := r.request), net := s.net.(incoming := r.incoming))
  }

  /** At the top of the loop, with the gate open and nothing in the way. */
  predicate ReadyToRead(s: State) {
    && s.recv == RGate(GPoint) && s.flags.read && !s.flags.recvInterrupt
    && ReadMutex !in s.held && RequestMutex !in s.held
  }

  /** To the call of recv(). */
  lemma ToCall(s: State, o: Outcome) returns (states: seq<State>)
    requires ReadyToRead(s)
    ensures Path(states, RecvThread(o)) && |states| == 6 && states[0] == s
    ensures states[5] == s.(recv := RInRecv(s.ctx.fd))
  {
    hide SendStep, ClientStep, ExitStep;
    var l := RecvThread(o);
    var s1 := s.(recv := RGate(GLock));
    var s2 := s.(recv := RGate(GTest), held := s.held[ReadMutex := Thread(Recv)]);
    var s3 := s2.(recv := RGate(GUnlock));
    assert s.held[ReadMutex := Thread(Recv)] - {ReadMutex} == s.held;
    var s4 := s.(recv := RCall);
    var s5 := s.(recv := RInRecv(s.ctx.fd));
    assert Step(s, l) == Some(s1);
    assert Step(s1, l) == Some(s2);
    assert Step(s2, l) == Some(s3);
    assert Step(s3, l) == Some(s4);
    assert Step(s4, l) == Some(s5);
    states := [s, s1, s2, s3, s4, s5];
  }

  /** From the answer to the end of the turn. */
  lemma Answered(s: State, o: Outcome) returns (states: seq<State>)
    requires s.recv.RInRecv? && RequestMutex !in s.held
    ensures
      var r := OnFd(s.recv.fd, RecvRet(o, MAX_MESSAGEBUFF_LEN, |s.net.incoming|));
      && Path(states, RecvThread(o)) && states[0] == s
      && if r.Again? then |states| == 2 && states[1] == s.(recv := RGate(GPoint))
         else if Ends(r) then |states| == 2 && states[1] == s.(recv := RExit(XLock))
         else
           |states| == 5
           && states[4] == s.(recv := RGate(GPoint),
                              ctx := s.ctx.(request := s.ctx.request + s.net.incoming[..r.count]),
                              net := s.net.(incoming := s.net.incoming[r.count..]))
  {
    hide SendStep, ClientStep, ExitStep, GateStep;
    var l := RecvThread(o);
    var r := OnFd(s.recv.fd, RecvRet(o, MAX_MESSAGEBUFF_LEN, |s.net.incoming|));
    if r.Bytes? && r.count > 0 {
      var chunk, rest := s.net.incoming[..r.count], s.net.incoming[r.count..];
      var s1 := s.(recv := RLockRequest(chunk), net := s.net.(incoming := rest));
      var s2 := s1.(recv := RAppend(chunk), held := s.held[RequestMutex := Thread(Recv)]);
      var s3 := s2.(recv := RUnlockRequest, ctx := s.ctx.(request := s.ctx.request + chunk));
      assert s.held[RequestMutex := Thread(Recv)] - {RequestMutex} == s.held;
      var s4 := s3.(recv := RGate(GPoint), held := s.held);
      assert Step(s, l) == Some(s1);
      assert Step(s1, l) == Some(s2);
      assert Step(s2, l) == Some(s3);
      assert Step(s3, l) == Some(s4);
      states := [s, s1, s2, s3, s4];
    } else {
      var s1 := s.(recv := if r.Again? then RGate(GPoint) else RExit(XLock));
      assert Step(s, l) == Some(s1);
      states := [s, s1];
    }
  }

  /** One turn. */
  lemma ReadTurn(s: State, o: Outcome)
    requires ReadyToRead(s)
    ensures
      var r := OnFd(s.ctx.fd, RecvRet(o, MAX_MESSAGEBUFF_LEN, |s.net.incoming|));
      var l := RecvThread(o);
      if r.Again? then Exec(s, Copies(l, 6)) == Some(s)
      else if Ends(r) then Exec(s, Copies(l, 6)) == Some(s.(recv := RExit(XLock)))
      else
        Exec(s, Copies(l, 9))
          == Some(s.(ctx := s.ctx.(request := s.ctx.request + s.net.incoming[..r.count]),
                     net := s.net.(incoming := s.net.incoming[r.count..])))
  {
    var a := ToCall(s, o);
    var b := Answered(a[5], o);
    hide Step, Exec;
    PathRuns(a, RecvThread(o));
    PathRuns(b, RecvThread(o));
    ExecThen(s, Copies(RecvThread(o), 5), a[5], Copies(RecvThread(o), |b| - 1));
    assert Copies(RecvThread(o), 5) + Copies(RecvThread(o), |b| - 1) == Copies(RecvThread(o), 4 + |b|);
  }

  /** Left alone with its gate open, and whatever recv() answers, the receive thread does what
      handleReadEvent's loop does: it appends all that comes, tries again after a would-block, and
      leaves when recv() fails or the peer has closed. */
  lemma {:induction false} ReceivesAlone(s: State, script: seq<Outcome>)
    requires ReadyToRead(s)
    ensures
      Exec(s, ReadSteps(s.ctx.fd, s.net.incoming, script))
        == Some(AfterReads(s, Receive(s.ctx.fd, s.ctx.request, s.net.incoming, script)))
    decreases |script|
  {
    hide Step;
    if script != [] {
      var l := RecvThread(script[0]);
      var r := OnFd(s.ctx.fd, RecvRet(script[0], MAX_MESSAGEBUFF_LEN, |s.net.incoming|));
      ReadTurn(s, script[0]);
      if r.Again? {
        ReceivesAlone(s, script[1..]);
        ExecThen(s, Copies(l, 6), s, ReadSteps(s.ctx.fd, s.net.incoming, script[1..]));
      } else if !Ends(r) {
        var next := Exec(s, Copies(l, 9)).value;
        ReceivesAlone(next, script[1..]);
        ExecThen(s, Copies(l, 9), next, ReadSteps(s.ctx.fd, next.net.incoming, script[1..]));
      }
    }
  }

  /** A new worker receives without any client's doing. */
  lemma NewWorkerReceives(fd: int, bytes: seq<Byte>, script: seq<Outcome>)
    ensures
      Exec(Init(fd, true), [PeerSends(bytes), RecvThread(Error)] + ReadSteps(fd, bytes, script))
        == Some(AfterReads(Init(fd, true), Receive(fd, [], bytes, script)))
  {
    var s := Init(fd, true);
    var s1 := s.(net := s.net.(incoming := bytes));
    var s2 := s1.(recv := RGate(GPoint));
    assert [] + bytes == bytes;
    assert Step(s, PeerSends(bytes)) == Some(s1);
    assert Step(s1, RecvThread(Error)) == Some(s2);
    hide Step;
    var a := [PeerSends(bytes), RecvThread(Error)];
    assert a[1..] == [RecvThread(Error)] && a[1..][1..] == [];
    assert Exec(s1, a[1..]) == Some(s2);
    assert Exec(s, a) == Some(s2);
    ReceivesAlone(s2, script);
    ExecThen(s, a, s2, ReadSteps(fd, bytes, script));
  }

  // ---------- the send thread

  predicate ReadyToSend(s: State) {
    && s.send == SGate(GPoint) && s.flags.write && !s.flags.sendInterrupt
    && WriteMutex !in s.held && ResponseMutex !in s.held
  }

  /** The gate passed and the response taken: send_bytes is called. */
  function Taken(s: State): State {
    s.(send := SSending(s.ctx.response, s.ctx.fd), flags := s.flags.(write := false),
       log := s.log.(passes := s.log.passes + 1, snapshots := s.log.snapshots + [s.ctx.response],
                     consumedEarly := s.log.consumedEarly || RaisedNotInterrupted(s.recv)))
  }

  /** Through the gate. */
  lemma ThroughGate(s: State, o: Outcome) returns (states: seq<State>)
    requires ReadyToSend(s)
    ensures Path(states, SendThread(o)) && |states| == 6 && states[0] == s
    ensures states[5] == Consume(s).(send := SLockResponse)
  {
    hide RecvStep, ClientStep, ExitStep;
    var l := SendThread(o);
    var s1 := s.(send := SGate(GLock));
    var s2 := s.(send := SGate(GTest), held := s.held[WriteMutex := Thread(Send)]);
    var s3 := s2.(send := SGate(GClear));
    var s4 := Consume(s3).(send := SGate(GUnlock));
    assert s.held[WriteMutex := Thread(Send)] - {WriteMutex} == s.held;
    var s5 := s4.(send := SLockResponse, held := s.held);
    assert Step(s, l) == Some(s1);
    assert Step(s1, l) == Some(s2);
    assert Step(s2, l) == Some(s3);
    assert Step(s3, l) == Some(s4);
    assert Step(s4, l) == Some(s5);
    states := [s, s1, s2, s3, s4, s5];
  }

  /** The snapshot under its mutex. */
  lemma TakesResponse(s: State, o: Outcome) returns (states: seq<State>)
    requires s.send == SLockResponse && ResponseMutex !in s.held
    ensures Path(states, SendThread(o)) && |states| == 5 && states[0] == s
    ensures
      states[4] == s.(send := SSending(s.ctx.response, s.ctx.fd),
                      log := s.log.(snapshots := s.log.snapshots + [s.ctx.response]))
  {
    hide RecvStep, ClientStep, ExitStep, GateStep;
    var l := SendThread(o);
    var s1 := s.(send := SSnapshot, held := s.held[ResponseMutex := Thread(Send)]);
    var log := s.log.(snapshots := s.log.snapshots + [s.ctx.response]);
    var s2 := s1.(send := SUnlockResponse(s.ctx.response), log := log);
    assert s.held[ResponseMutex := Thread(Send)] - {ResponseMutex} == s.held;
    var s3 := s2.(send := SCall(s.ctx.response), held := s.held);
    var s4 := s3.(send := SSending(s.ctx.response, s.ctx.fd));
    assert Step(s, l) == Some(s1);
    assert Step(s1, l) == Some(s2);
    assert Step(s2, l) == Some(s3);
    assert Step(s3, l) == Some(s4);
    states := [s, s1, s2, s3, s4];
  }

  lemma ToSendBytes(s: State, o: Outcome)
    requires ReadyToSend(s)
    ensures Exec(s, Copies(SendThread(o), 9)) == Some(Taken(s))
  {
    var a := ThroughGate(s, o);
    var b := TakesResponse(a[5], o);
    hide Step, Exec;
    PathRuns(a, SendThread(o));
    PathRuns(b, SendThread(o));
    ExecThen(s, Copies(SendThread(o), 5), a[5], Copies(SendThread(o), 4));
    assert Copies(SendThread(o), 5) + Copies(SendThread(o), 4) == Copies(SendThread(o), 9);
  }

  /** Where the thread is after its turn: at the next one if send_bytes returned true, in its exit
      handler if false, or in the call. */
  function AfterSends(s: State, t: IO.Transfer): State
    requires t.moved <= |s.ctx.response|
  {
    var call := P.After(Taken(s), t.status, t.moved);
    if t.status.Done? then call.(send := SGate(GPoint)) else call
  }

  /** Left alone with its gate open, and whatever send() answers, the send thread takes the response
      and ends its turn as send_bytes ends. */
  lemma SendsAlone(s: State, script: seq<Outcome>)
    requires ReadyToSend(s)
    ensures
      var t := IO.SendLoop(0, |s.ctx.response|, P.Answers(s.ctx.fd, script), 0);
      var back := if t.status.Done? then [SendThread(Error)] else [];
      Exec(s, Copies(SendThread(Error), 9) + P.Alone(script, 0, t.next) + back)
        == Some(AfterSends(s, t))
  {
    hide Step, Exec, IO.SendLoop, P.After, P.Alone;
    var t := IO.SendLoop(0, |s.ctx.response|, P.Answers(s.ctx.fd, script), 0);
    ToSendBytes(s, Error);
    CallAlone(s, script);
    var call := P.After(Taken(s), t.status, t.moved);
    var a, b := Copies(SendThread(Error), 9), P.Alone(script, 0, t.next);
    ExecThen(s, a, Taken(s), b);
    if t.status.Done? {
      CallReturns(s, t);
      ExecThen(s, a + b, call, [SendThread(Error)]);
    } else {
      assert a + b + [] == a + b;
    }
  }

  lemma CallAlone(s: State, script: seq<Outcome>)
    ensures
      var t := IO.SendLoop(0, |s.ctx.response|, P.Answers(s.ctx.fd, script), 0);
      && (t.status.Done? <==> t.moved == |s.ctx.response|)
      && Exec(Taken(s), P.Alone(script, 0, t.next)) == Some(P.After(Taken(s), t.status, t.moved))
  {
    hide Step, Exec, P.After, P.Alone;
    P.TransmitsLikeSendBytes(Taken(s), 0, script, 0);
  }

  lemma CallReturns(s: State, t: IO.Transfer)
    requires t.status.Done? && t.moved == |s.ctx.response|
    ensures Exec(P.After(Taken(s), t.status, t.moved), [SendThread(Error)]) == Some(AfterSends(s, t))
  {
    Returns(P.After(Taken(s), t.status, t.moved), [SendThread(Error)]);
  }

  lemma Returns(s: State, ls: seq<Label>)
    requires s.send.SSending? && s.send.left == [] && ls == [SendThread(Error)]
    ensures Exec(s, ls) == Some(s.(send := SGate(GPoint)))
  {
    assert ls[1..] == [];
    assert Step(s, ls[0]) == Some(s.(send := SGate(GPoint)));
  }

  // ---------- the exit handler

  /** The thread on one side has left: the descriptor is closed, the other thread's gate is open, and
      that thread has been interrupted and notified. */
  function Left(s: State, side: Side): State {
    var closed := s.(ctx := s.ctx.(fd := INVALID_FD));
    if side == Recv then
      closed.(flags := s.flags.(write := true, sendInterrupt := true), log := s.log.(enables := s.log.enables + 1),
              recv := RDone, send := if s.send == SGate(GAsleep) then SGate(GWoken) else s.send)
    else
      closed.(flags := s.flags.(read := true, recvInterrupt := true),
              send := SDone, recv := if s.recv == RGate(GAsleep) then RGate(GWoken) else s.recv)
  }

  function Tick(side: Side): Label { if side == Recv then RecvThread(Error) else SendThread(Error) }

  function At(s: State, side: Side, x: ExitPc): State { ToExit(s, side, x) }

  /** The descriptor, under the context's mutex. */
  lemma ClosesAlone(s: State, side: Side) returns (states: seq<State>)
    requires s == At(s, side, XLock) && ContextMutex !in s.held
    ensures Path(states, Tick(side)) && |states| == 5 && states[0] == s
    ensures states[4] == At(s, side, XLockGate).(ctx := s.ctx.(fd := INVALID_FD))
  {
    hide ClientStep, GateStep;
    var l := Tick(side);
    var s1 := At(s, side, XClose).(held := s.held[ContextMutex := Thread(side)]);
    var s2 := At(s1, side, XAssign);
    var s3 := At(s1, side, XUnlock).(ctx := s.ctx.(fd := INVALID_FD));
    assert s.held[ContextMutex := Thread(side)] - {ContextMutex} == s.held;
    var s4 := At(s, side, XLockGate).(ctx := s.ctx.(fd := INVALID_FD));
    assert Step(s, l) == Some(s1);
    assert Step(s1, l) == Some(s2);
    assert Step(s2, l) == Some(s3);
    assert Step(s3, l) == Some(s4);
    states := [s, s1, s2, s3, s4];
  }

  function Opened(s: State, side: Side): State {
    if side == Recv then RaiseWrite(s) else RaiseRead(s)
  }

  /** The other thread's gate, under its mutex. */
  lemma OpensOther(s: State, side: Side) returns (states: seq<State>)
    requires s == At(s, side, XLockGate) && GateMutex(Other(side)) !in s.held
    ensures Path(states, Tick(side)) && |states| == 4 && states[0] == s
    ensures states[3] == At(Opened(s, side), side, XInterrupt)
  {
    hide ClientStep, GateStep;
    var l, m := Tick(side), GateMutex(Other(side));
    var s1 := At(s, side, XRaise).(held := s.held[m := Thread(side)]);
    var s2 := At(Opened(s1, side), side, XUnlockGate);
    assert s.held[m := Thread(side)] - {m} == s.held;
    var s3 := At(Opened(s, side), side, XInterrupt);
    assert Step(s, l) == Some(s1);
    assert Step(s1, l) == Some(s2);
    assert Step(s2, l) == Some(s3);
    states := [s, s1, s2, s3];
  }

  /** Its interruption and notification. */
  lemma InterruptsOther(s: State, side: Side) returns (states: seq<State>)
    requires s == At(s, side, XInterrupt)
    ensures Path(states, Tick(side)) && |states| == 3 && states[0] == s
    ensures states[2] == ToDone(Notify(s.(flags := WithInterrupt(s.flags, Other(side), true)), Other(side)), side)
  {
    hide ClientStep, GateStep;
    var l := Tick(side);
    var s1 := At(s.(flags := WithInterrupt(s.flags, Other(side), true)), side, XNotify);
    var s2 := ToDone(Notify(s.(flags := WithInterrupt(s.flags, Other(side), true)), Other(side)), side);
    assert Step(s, l) == Some(s1);
    assert Step(s1, l) == Some(s2);
    states := [s, s1, s2];
  }

  lemma LeftSoFar(s: State, side: Side)
    requires if side == Recv then s.recv == RExit(XLock) else s.send == SExit(XLock)
    ensures
      var open := At(Opened(At(s, side, XLockGate).(ctx := s.ctx.(fd := INVALID_FD)), side), side, XInterrupt);
      ToDone(Notify(open.(flags := WithInterrupt(open.flags, Other(side), true)), Other(side)), side) == Left(s, side)
  {
  }

  lemma HandlerPath(s: State, side: Side) returns (a: seq<State>, b: seq<State>, c: seq<State>)
    requires if side == Recv then s.recv == RExit(XLock) else s.send == SExit(XLock)
    requires ContextMutex !in s.held && GateMutex(Other(side)) !in s.held
    ensures Path(a, Tick(side)) && Path(b, Tick(side)) && Path(c, Tick(side))
    ensures |a| == 5 && |b| == 4 && |c| == 3 && a[0] == s && a[4] == b[0] && b[3] == c[0] && c[2] == Left(s, side)
  {
    hide Step, Path;
    a := ClosesAlone(s, side);
    b := OpensOther(a[4], side);
    c := InterruptsOther(b[3], side);
    LeftSoFar(s, side);
  }

  /** Left alone, the exit handler of either thread does all of this, whatever the other thread is
      doing. */
  lemma LeavesAlone(s: State, side: Side)
    requires if side == Recv then s.recv == RExit(XLock) else s.send == SExit(XLock)
    requires ContextMutex !in s.held && GateMutex(Other(side)) !in s.held
    ensures Exec(s, Copies(Tick(side), 9)) == Some(Left(s, side))
  {
    hide Step, Exec, Left, Path;
    var a, b, c := HandlerPath(s, side);
    var l := Tick(side);
    PathRuns(a, l);
    PathRuns(b, l);
    PathRuns(c, l);
    ExecThen(s, Copies(l, 4), a[4], Copies(l, 3) + Copies(l, 2));
    ExecThen(a[4], Copies(l, 3), b[3], Copies(l, 2));
    assert Copies(l, 4) + (Copies(l, 3) + Copies(l, 2)) == Copies(l, 9);
  }
}
