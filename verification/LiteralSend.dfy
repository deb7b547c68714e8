/** send_bytes as the compiler reads it: the result of send() is stored in a size_t, so the
    test (sb < 0) is never true and a failed call adds 2^64 - 1 to total_send. */
module LiteralSend {
  import opened Socket
  import opened IOHelper

  const TWO_63: int := 0x8000_0000_0000_0000
  const TWO_64: int := 0x1_0000_0000_0000_0000

  /** The ssize_t result of send(), converted to size_t. */
  function SizeT(r: Ret): nat {
    if r.Bytes? then r.count else TWO_64 - 1
  }

  /** The loop's state at one of its tests, with counts of what has happened: total is
      total_send, accepted the bytes the kernel took, failures the calls that returned -1. */
  datatype Literal = Literal(status: Status, total: nat, accepted: nat, failures: nat, next: nat, wire: seq<Byte>)

  function Begin(at: nat): Literal { Literal(Waiting, 0, 0, 0, at, []) }

  /** One call of send() and the lines after it. */
  function Call(data: seq<Byte>, l: Literal, o: Outcome): Literal
    requires l.total < |data|
  {
    var r := SendRet(o, |data| - l.total);
    var sb := SizeT(r);
    if sb == 0 then l.(status := Failed, next := l.next + 1)
    else if r.Bytes? then
      l.(total := (l.total + sb) % TWO_64, accepted := l.accepted + r.count, next := l.next + 1,
         wire := l.wire + data[l.total..l.total + r.count])
    else l.(total := (l.total + sb) % TWO_64, failures := l.failures + 1, next := l.next + 1)
  }

  function LiteralLoop(data: seq<Byte>, l: Literal, script: seq<Outcome>): Literal
    requires l.next <= |script|
    decreases |script| - l.next
  {
    if l.status.Failed? then l
    else if l.total >= |data| then l.(status := Done)
    else if l.next == |script| then l.(status := Waiting)
    else LiteralLoop(data, Call(data, l, script[l.next]), script)
  }

  /** What every test of the loop finds. */
  predicate Accounted(data: seq<Byte>, l: Literal) {
    && -1 <= l.accepted - l.failures <= |data|
    && l.total == (l.accepted - l.failures) % TWO_64
    && |l.wire| == l.accepted
    && (l.failures == 0 ==> l.wire == data[..l.accepted])
  }

  /** Adding 2^64 - 1 in a size_t subtracts one. */
  lemma WrapsAround(d: int)
    requires -1 <= d < TWO_63
    ensures d % TWO_64 == if d == -1 then TWO_64 - 1 else d
    ensures d >= 0 ==> (d + TWO_64 - 1) % TWO_64 == (d - 1) % TWO_64
  {
  }

  lemma BytesAccounted(data: seq<Byte>, l: Literal, o: Outcome)
    requires |data| < TWO_63 && Accounted(data, l) && 0 <= l.accepted - l.failures == l.total < |data|
    requires SendRet(o, |data| - l.total).Bytes?
    ensures Accounted(data, Call(data, l, o))
  {
    var k := SendRet(o, |data| - l.total).count;
    WrapsAround(l.total + k);
    if l.failures == 0 {
      assert data[..l.accepted] + data[l.total..l.total + k] == data[..l.accepted + k];
    }
  }

  lemma CallAccounted(data: seq<Byte>, l: Literal, o: Outcome)
    requires |data| < TWO_63 && Accounted(data, l) && l.total < |data|
    ensures Accounted(data, Call(data, l, o))
  {
    WrapsAround(l.accepted - l.failures);
    if SendRet(o, |data| - l.total).Bytes? {
      BytesAccounted(data, l, o);
    } else {
      hide SendRet;
    }
  }

  /** At every test of the loop, total_send is (bytes accepted - failed calls) mod 2^64.
      As the script is arbitrary, each of its prefixes shows one such test. */
  lemma {:induction false} Accounting(data: seq<Byte>, l: Literal, script: seq<Outcome>)
    requires |data| < TWO_63 && l.next <= |script| && Accounted(data, l)
    ensures Accounted(data, LiteralLoop(data, l, script))
    decreases |script| - l.next
  {
    if !l.status.Failed? && l.total < |data| && l.next < |script| {
      CallAccounted(data, l, script[l.next]);
      Accounting(data, Call(data, l, script[l.next]), script);
    }
  }

  /** One turn of the literal loop. */
  lemma LiteralTurn(data: seq<Byte>, l: Literal, script: seq<Outcome>)
    requires l.next <= |script|
    ensures
      var e := LiteralLoop(data, l, script);
      if l.status.Failed? then e == l
      else if l.total >= |data| then e == l.(status := Done)
      else if l.next == |script| then e == l.(status := Waiting)
      else e == LiteralLoop(data, Call(data, l, script[l.next]), script)
  {
  }

  /** The literal method: same text as send_bytes, with size_t arithmetic. */
  method SendBytesLiteral(data: array<Byte>, len: nat, script: seq<Outcome>)
    returns (status: Status, wire: seq<Byte>, total: nat, next: nat)
    requires len <= data.Length && len < TWO_63
    ensures
      var l := LiteralLoop(data[..len], Begin(0), script);
      status == l.status && wire == l.wire && total == l.total && next == l.next
    ensures total < TWO_64 && (status.Done? <==> total >= len && !status.Failed?)
  {
    hide LiteralLoop;
    total, next, wire := 0, 0, [];
    ghost var bytes, l := data[..len], Begin(0);
    ghost var e := LiteralLoop(bytes, l, script);
    while total < len
      invariant next <= |script| && l.status.Waiting?
      invariant l.total == total < TWO_64 && l.next == next && l.wire == wire
      invariant e == LiteralLoop(bytes, l, script)
      decreases |script| - next
    {
      LiteralTurn(bytes, l, script);
      if next == |script| {
        return Waiting, wire, total, next;
      }
      l := Call(bytes, l, script[next]);
      LiteralTurn(bytes, l, script);
      var leftLen := len - total;
      var r := SendRet(script[next], leftLen);
      var sb := SizeT(r);  // a size_t: (sb < 0) is false, both error branches are dead
      next := next + 1;
      if sb == 0 {
        return Failed, wire, total, next;
      }
      if r.Bytes? {
        assert data[total..total + r.count] == bytes[total..total + r.count];
        wire := wire + data[total..total + r.count];
      }
      total := (total + sb) % TWO_64;
    }
    LiteralTurn(bytes, l, script);
    return Done, wire, total, next;
  }

  // ---------- the literal loop against the signed one

  predicate NoFailedCall(script: seq<Outcome>, at: nat, end: nat)
    requires at <= end <= |script|
  {
    forall i :: at <= i < end ==> script[i].Moved?
  }

  /** The two loops agree: same verdict, same number of send() calls, same bytes on the
      wire, same total_send at the end. */
  predicate Agree(data: seq<Byte>, l: Literal, t: Transfer) {
    t.moved <= |data| && l.status == t.status && l.next == t.next && l.wire == data[..t.moved] && l.total == t.moved
  }

  lemma {:induction false} SameUntilFailure(data: seq<Byte>, l: Literal, script: seq<Outcome>)
    requires |data| < TWO_63 && l.next <= |script| && l.status.Waiting?
    requires l.total == l.accepted <= |data| && l.failures == 0
    ensures
      var t, e := SendLoop(l.total, |data|, script, l.next), LiteralLoop(data, l, script);
      NoFailedCall(script, l.next, t.next) ==>
        e.status == t.status && e.next == t.next && e.failures == 0
        && e.total == e.accepted == t.moved
    decreases |script| - l.next
  {
    if l.total < |data| && l.next < |script| {
      var l' := Call(data, l, script[l.next]);
      if script[l.next].Moved? && l'.status.Waiting? {
        SameUntilFailure(data, l', script);
      }
    }
  }

  /** Failures never decrease, and a failed call among those made is counted. */
  lemma {:induction false} FailuresCounted(data: seq<Byte>, l: Literal, script: seq<Outcome>)
    requires l.next <= |script|
    ensures
      var e := LiteralLoop(data, l, script);
      l.next <= e.next <= |script| && l.failures <= e.failures
      && (e.failures == l.failures ==> NoFailedCall(script, l.next, e.next))
    decreases |script| - l.next
  {
    if !l.status.Failed? && l.total < |data| && l.next < |script| {
      FailuresCounted(data, Call(data, l, script[l.next]), script);
    }
  }

  /** The literal send_bytes does what the signed one does exactly on the scripts in which
      no send() it makes returns -1. */
  lemma AgreesExactlyWhen(data: seq<Byte>, script: seq<Outcome>)
    requires |data| < TWO_63
    ensures
      var t := SendLoop(0, |data|, script, 0);
      Agree(data, LiteralLoop(data, Begin(0), script), t) <==> NoFailedCall(script, 0, t.next)
  {
    var t := SendLoop(0, |data|, script, 0);
    var l := LiteralLoop(data, Begin(0), script);
    assert Accounted(data, Begin(0));
    SameUntilFailure(data, Begin(0), script);
    Accounting(data, Begin(0), script);
    FailuresCounted(data, Begin(0), script);
    if Agree(data, l, t) {
      assert l.accepted == t.moved <= |data|;
      assert l.failures <= |data| + 1 < TWO_64;
      assert l.total == (l.accepted - l.failures) % TWO_64 == l.accepted;
    }
  }

  lemma {:induction false} DoneMeansPast(data: seq<Byte>, l: Literal, script: seq<Outcome>)
    requires l.next <= |script| && l.status.Waiting?
    ensures LiteralLoop(data, l, script).status.Done? ==> LiteralLoop(data, l, script).total >= |data|
    decreases |script| - l.next
  {
    if l.total < |data| && l.next < |script| {
      var l' := Call(data, l, script[l.next]);
      if l'.status.Waiting? {
        DoneMeansPast(data, l', script);
      }
    }
  }

  /** What a true result of the literal code means: either every failed call cost one byte
      sent twice, or one failed call more than bytes accepted wrapped total_send around. As
      many bytes as the buffer has were accepted if and only if no call failed, or one call
      more than that number did; with no failed call they are the buffer. */
  lemma LiteralTrueMeans(data: seq<Byte>, script: seq<Outcome>)
    requires |data| < TWO_63
    requires LiteralLoop(data, Begin(0), script).status.Done?
    ensures
      var l := LiteralLoop(data, Begin(0), script);
      (l.accepted == |data| + l.failures || l.accepted + 1 == l.failures)
      && |l.wire| == l.accepted
      && (l.failures == 0 ==> l.wire == data)
      && (l.accepted == |data| <==> l.failures == 0 || l.failures == |data| + 1 == l.accepted + 1)
  {
    assert Accounted(data, Begin(0));
    Accounting(data, Begin(0), script);
    DoneMeansPast(data, Begin(0), script);
    var l := LiteralLoop(data, Begin(0), script);
    assert data[..|data|] == data;
  }

  /** The law "true means the whole buffer was accepted" is false of the literal code: for
      every non-empty buffer, a first call that fails makes it return true with nothing
      sent, where the signed loop fails or waits. */
  lemma TrueWithNothingSent(data: seq<Byte>, o: Outcome)
    requires 0 < |data| < TWO_63 && !o.Moved?
    ensures
      var l := LiteralLoop(data, Begin(0), [o]);
      l.status.Done? && l.wire == [] && !SendLoop(0, |data|, [o], 0).status.Done?
  {
    var l := Call(data, Begin(0), o);
    assert l.total == TWO_64 - 1;
    assert LiteralLoop(data, l, [o]) == l.(status := Done);
  }
}
