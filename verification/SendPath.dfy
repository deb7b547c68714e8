/** The send thread's transmission steps, taken without interruption, are send_bytes. */
module SendPath {
  import opened Socket
  import opened IOHelper
  import W = Worker

  /** The send thread alone, given answers number from up to number to. */
  function Alone(script: seq<Outcome>, from: nat, to: nat): seq<W.Label>
    requires from <= to <= |script|
  {
    seq(to - from, i requires 0 <= i < to - from => W.SendThread(script[from + i]))
  }

  /** What the kernel answers on the descriptor: on INVALID_FD, always an error. */
  function Answer(fd: int, o: Outcome): Outcome {
    if fd == INVALID_FD then Error else o
  }

  function Answers(fd: int, script: seq<Outcome>): seq<Outcome> {
    seq(|script|, i requires 0 <= i < |script| => Answer(fd, script[i]))
  }

  /** Where handleWriteEvent is after send_bytes has moved k more bytes: back at the top of the
      loop if it returned true (one more step leaves the loop of send_bytes), in the exit
      handler if false. */
  function After(s: W.State, status: Status, k: nat): W.State
    requires s.send.SSending? && k <= |s.send.left|
  {
    s.(send := if status.Failed? then W.SExit(W.XLock) else W.SSending(s.send.left[k..], s.send.fd),
       net := s.net.(wire := s.net.wire + s.send.left[..k]))
  }

  /** One call of send() is one step of the thread. */
  lemma OneCall(s: W.State, o: Outcome)
    requires s.send.SSending? && s.send.left != []
    ensures
      var r := SendRet(Answer(s.send.fd, o), |s.send.left|);
      W.Step(s, W.SendThread(o)) == Some(if Ends(r) then After(s, Failed, 0) else After(s, Waiting, Count(r)))
  {
    hide W.GateStep, W.ExitStep;
    NoneMoved(s, Waiting);
    NoneMoved(s, Failed);
  }

  lemma NoneMoved(s: W.State, status: Status)
    requires s.send.SSending?
    ensures After(s, status, 0) == if status.Failed? then s.(send := W.SExit(W.XLock)) else s
  {
    assert s.net.wire + s.send.left[..0] == s.net.wire && s.send.left[0..] == s.send.left;
  }

  lemma AfterTwice(s: W.State, k: nat, status: Status, n: nat)
    requires s.send.SSending? && k <= n <= |s.send.left|
    ensures After(After(s, Waiting, k), status, n - k) == After(s, status, n)
  {
    var wire, left := s.net.wire, s.send.left;
    assert left[k..][n - k..] == left[n..];
    assert wire + left[..k] + left[k..][..n - k] == wire + left[..n];
  }

  /** The run over one answer and then the others. */
  lemma ExecFirst(s: W.State, script: seq<Outcome>, from: nat, to: nat, next: W.State)
    requires from < to <= |script| && W.Step(s, W.SendThread(script[from])) == Some(next)
    ensures W.Exec(s, Alone(script, from, to)) == W.Exec(next, Alone(script, from + 1, to))
  {
    hide W.Step;
    assert Alone(script, from, to)[1..] == Alone(script, from + 1, to);
  }

  lemma ExecNone(s: W.State, script: seq<Outcome>, at: nat)
    requires at <= |script|
    ensures W.Exec(s, Alone(script, at, at)) == Some(s)
  {
  }

  /** For any progress, any descriptor and any script, the thread ends where send_bytes ends,
      with the same bytes on the wire, after the same number of calls. */
  lemma {:induction false} TransmitsLikeSendBytes(s: W.State, total: nat, script: seq<Outcome>, at: nat)
    requires s.send.SSending? && at <= |script|
    ensures
      var t := SendLoop(total, total + |s.send.left|, Answers(s.send.fd, script), at);
      W.Exec(s, Alone(script, at, t.next)) == Some(After(s, t.status, t.moved - total))
    decreases |script| - at
  {
    hide W.Step, W.Exec, Alone, SendLoop, SendRet;
    var len, answers := total + |s.send.left|, Answers(s.send.fd, script);
    var t := SendLoop(total, len, answers, at);
    SendTurn(total, len, answers, at);
    if s.send.left == [] || at == |script| {
      NoneMoved(s, t.status);
      ExecNone(s, script, at);
    } else {
      var r := SendRet(answers[at], |s.send.left|);
      var next := if Ends(r) then After(s, Failed, 0) else After(s, Waiting, Count(r));
      OneCall(s, script[at]);
      ExecFirst(s, script, at, t.next, next);
      if Ends(r) {
        ExecNone(next, script, at + 1);
      } else {
        TransmitsLikeSendBytes(next, total + Count(r), script, at + 1);
        AfterTwice(s, Count(r), t.status, t.moved - total);
      }
    }
  }
}
