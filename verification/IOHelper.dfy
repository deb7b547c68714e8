/** IOHelper::send_bytes and IOHelper::recv_bytes over a socket whose every answer is
    chosen by an adversary. send() and recv() return signed counts here; LiteralSend has
    the code's own size_t arithmetic. */
module IOHelper {
  import opened Socket

  /** How a call ends. Waiting: the adversary's script is used up and the call has not
      returned yet. */
  datatype Status = Done | Failed | Waiting

  /** A finished or waiting call: how many bytes it moved, and how many answers of the
      script have been used by then. */
  datatype Transfer = Transfer(status: Status, moved: nat, next: nat)

  /** send_bytes's loop with total of len bytes sent, from answer number at on. */
  function SendLoop(total: nat, len: nat, script: seq<Outcome>, at: nat): (t: Transfer)
    requires total <= len && at <= |script|
    ensures at <= t.next <= |script| && total <= t.moved <= len
    ensures t.status.Done? <==> t.moved == len
    ensures t.status.Waiting? ==> t.next == |script|
    decreases |script| - at
  {
    if total == len then Transfer(Done, total, at)
    else if at == |script| then Transfer(Waiting, total, at)
    else
      var r := SendRet(script[at], len - total);
      if Ends(r) then Transfer(Failed, total, at + 1)
      else SendLoop(total + Count(r), len, script, at + 1)
  }

  /** recv_bytes's loop with total of len bytes received out of a stream of arrived bytes. */
  function RecvLoop(total: nat, len: nat, arrived: nat, script: seq<Outcome>, at: nat): (t: Transfer)
    requires total <= len && total <= arrived && at <= |script|
    ensures at <= t.next <= |script| && total <= t.moved <= len && t.moved <= arrived
    ensures t.status.Done? <==> t.moved == len
    ensures t.status.Waiting? ==> t.next == |script|
    decreases |script| - at
  {
    if total == len then Transfer(Done, total, at)
    else if at == |script| then Transfer(Waiting, total, at)
    else
      var r := RecvRet(script[at], len - total, arrived - total);
      if Ends(r) then Transfer(Failed, total, at + 1)
      else RecvLoop(total + Count(r), len, arrived, script, at + 1)
  }

  /** One end of a connection: the answers the kernel will give (at of them given so far),
      the bytes accepted onto the wire, and the arriving stream (read bytes of it taken). */
  class Connection {
    const script: seq<Outcome>
    const stream: seq<Byte>
    var at: nat
    var wire: seq<Byte>
    var read: nat

    ghost predicate Valid()
      reads this
    {
      at <= |script| && read <= |stream|
    }

    constructor (script: seq<Outcome>, stream: seq<Byte>)
      ensures Valid() && this.script == script && this.stream == stream
      ensures at == 0 && wire == [] && read == 0
    {
      this.script, this.stream := script, stream;
      at, wire, read := 0, [], 0;
    }

    /** send(2): accepts a prefix of data[from..len]. */
    method Send(data: array<Byte>, from: nat, len: nat) returns (r: Ret)
      requires Valid() && from <= len <= data.Length && at < |script|
      modifies this`at, this`wire
      ensures Valid() && at == old(at) + 1
      ensures r == SendRet(script[old(at)], len - from)
      ensures wire == old(wire) + if r.Bytes? then data[from..from + r.count] else []
    {
      r := SendRet(script[at], len - from);
      at := at + 1;
      if r.Bytes? {
        wire := wire + data[from..from + r.count];
      }
    }

    /** recv(2): moves a prefix of what has arrived into data[from..len]. */
    method Recv(data: array<Byte>, from: nat, len: nat) returns (r: Ret)
      requires Valid() && from <= len <= data.Length && at < |script|
      modifies this`at, this`read, data
      ensures Valid() && at == old(at) + 1
      ensures r == RecvRet(script[old(at)], len - from, |stream| - old(read))
      ensures read == old(read) + Count(r)
      ensures forall i :: from <= i < from + Count(r) ==> data[i] == stream[old(read) + i - from]
      ensures forall i :: 0 <= i < data.Length && !(from <= i < from + Count(r)) ==> data[i] == old(data[i])
    {
      r := RecvRet(script[at], len - from, |stream| - read);
      at := at + 1;
      if r.Bytes? {
        forall i | from <= i < from + r.count {
          data[i] := stream[read + i - from];
        }
        read := read + r.count;
      }
    }

    /** Sends exactly len bytes, or says it failed: on Done the whole buffer is on the wire,
        otherwise a proper prefix of it is. */
    method SendBytes(data: array<Byte>, len: nat) returns (status: Status)
      requires Valid() && len <= data.Length
      modifies this`at, this`wire
      ensures Valid()
      ensures
        var t := SendLoop(0, len, script, old(at));
        status == t.status && at == t.next
        && wire == old(wire) + data[..t.moved]
        && (status.Done? <==> t.moved == len)
    {
      hide SendLoop, SendRet;
      ghost var t := SendLoop(0, len, script, at);
      var total: nat := 0;
      while total < len
        invariant Valid() && total <= len
        invariant wire == old(wire) + data[..total]
        invariant t == SendLoop(total, len, script, at)
        decreases |script| - at
      {
        SendTurn(total, len, script, at);
        if at == |script| {
          return Waiting;
        }
        var sb := Send(data, total, len);
        if sb.Again? {
          continue;
        } else if sb.Fail? || sb.count == 0 {
          assert data[total..total] == [];
          return Failed;
        }
        assert data[..total] + data[total..total + sb.count] == data[..total + sb.count];
        total := total + sb.count;
      }
      SendTurn(total, len, script, at);
      return Done;
    }

    /** Fills data[..len] with the next len bytes of the stream, or says it failed: on false
        a proper prefix of data[..len] holds the bytes consumed, and the rest of the buffer
        is untouched. */
    method RecvBytes(data: array<Byte>, len: nat) returns (status: Status)
      requires Valid() && len <= data.Length
      modifies this`at, this`read, data
      ensures Valid()
      ensures
        var t := RecvLoop(0, len, |stream| - old(read), script, old(at));
        status == t.status && at == t.next && read == old(read) + t.moved
        && (status.Done? <==> t.moved == len)
        && Filled(data[..], old(data[..]), stream, old(read), t.moved)
    {
      hide RecvLoop, RecvRet;
      ghost var arrived := |stream| - read;
      ghost var t := RecvLoop(0, len, arrived, script, at);
      var total: nat := 0;
      status := Done;
      while total < len
        invariant Valid() && total <= len && read == old(read) + total
        invariant Filled(data[..], old(data[..]), stream, old(read), total)
        invariant t == RecvLoop(total, len, arrived, script, at)
        decreases |script| - at
      {
        RecvTurn(total, len, arrived, script, at);
        if at == |script| {
          status := Waiting;
          break;
        }
        var rb := Recv(data, total, len);
        if rb.Again? {
          continue;
        } else if rb.Fail? || rb.count == 0 {
          status := Failed;
          assert t == Transfer(Failed, total, at);
          break;
        }
        total := total + rb.count;
      }
      RecvTurn(total, len, arrived, script, at);
      assert t == Transfer(status, total, at);
    }

    /** send_bytes of a whole buffer. */
    method SendWhole(message: array<Byte>) returns (ok: bool)
      requires Valid()
      modifies this`at, this`wire
      ensures Valid()
      ensures
        var t := SendLoop(0, |message[..]|, script, old(at));
        at == t.next && (ok <==> t.status.Done?) && (ok ==> wire == old(wire) + message[..])
    {
      var status := SendBytes(message, message.Length);
      ok := status.Done?;
      assert message[..message.Length] == message[..];
    }

    /** One send_bytes call for each message, as long as they succeed. */
    method SendAll(messages: seq<array<Byte>>) returns (ok: bool)
      requires Valid()
      modifies this`at, this`wire
      ensures Valid()
      ensures
        var sent := SendMany(Texts(messages), script, old(at));
        (ok <==> sent.Some?) && (ok ==> wire == old(wire) + sent.value)
    {
      ghost var texts := Texts(messages);
      hide SendMany, SendLoop, Texts;
      ghost var all, sent, rest := SendMany(texts, script, at), [], texts;
      PrefixedNone(all);
      ok := true;
      var k := 0;
      while k < |messages|
        invariant Valid() && 0 <= k <= |messages| && wire == old(wire) + sent
        invariant rest == texts[k..] && all == Prefixed(sent, SendMany(rest, script, at))
      {
        SendManyTurn(rest, script, at);
        assert rest[0] == messages[k][..];
        ok := SendWhole(messages[k]);
        if !ok {
          return;
        }
        PrefixedTwice(sent, rest[0], SendMany(rest[1..], script, at));
        sent, rest := sent + rest[0], rest[1..];
        k := k + 1;
      }
      SendManyTurn(rest, script, at);
    }

    /** One recv_bytes call for each length, as long as they succeed. */
    method RecvAll(lens: seq<nat>) returns (ok: bool, buffers: seq<seq<Byte>>)
      requires Valid()
      modifies this`at, this`read
      ensures Valid()
      ensures
        var received := RecvMany(lens, stream[old(read)..], script, old(at));
        (ok <==> received.Some?) && (ok ==> buffers == received.value)
    {
      hide RecvMany, RecvLoop;
      ghost var all := RecvMany(lens, stream[read..], script, at);
      var k := 0;
      buffers := [];
      assert lens[0..] == lens;
      PrefixedNone(all);
      while k < |lens|
        invariant Valid() && 0 <= k <= |lens|
        invariant all == Prefixed(buffers, RecvMany(lens[k..], stream[read..], script, at))
      {
        RecvManyTurn(lens[k..], stream[read..], script, at);
        assert lens[k..][0] == lens[k] && lens[k..][1..] == lens[k + 1..];
        ghost var from := read;
        var data := new Byte[lens[k]];
        var status := RecvBytes(data, lens[k]);
        if !status.Done? {
          return false, buffers;
        }
        assert data[..] == stream[from..][..lens[k]];
        assert stream[from..][lens[k]..] == stream[read..];
        PrefixedTwice(buffers, [data[..]], RecvMany(lens[k + 1..], stream[read..], script, at));
        buffers := buffers + [data[..]];
        k := k + 1;
      }
      RecvManyTurn(lens[k..], stream[read..], script, at);
      return true, buffers;
    }
  }

  /** One turn of send_bytes's loop. */
  lemma SendTurn(total: nat, len: nat, script: seq<Outcome>, at: nat)
    requires total <= len && at <= |script|
    ensures
      var t := SendLoop(total, len, script, at);
      if total == len then t == Transfer(Done, total, at)
      else if at == |script| then t == Transfer(Waiting, total, at)
      else
        var r := SendRet(script[at], len - total);
        var k := Count(r);
        k <= len - total
        && if Ends(r) then t == Transfer(Failed, total, at + 1) else t == SendLoop(total + k, len, script, at + 1)
  {
  }

  /** One turn of recv_bytes's loop. */
  lemma RecvTurn(total: nat, len: nat, arrived: nat, script: seq<Outcome>, at: nat)
    requires total <= len && total <= arrived && at <= |script|
    ensures
      var t := RecvLoop(total, len, arrived, script, at);
      if total == len then t == Transfer(Done, total, at)
      else if at == |script| then t == Transfer(Waiting, total, at)
      else
        var r := RecvRet(script[at], len - total, arrived - total);
        var k := Count(r);
        k <= len - total && k <= arrived - total
        && if Ends(r) then t == Transfer(Failed, total, at + 1)
           else t == RecvLoop(total + k, len, arrived, script, at + 1)
  {
  }

  /** A buffer whose first k bytes are now the stream's, from offset read on. */
  predicate Filled(now: seq<Byte>, before: seq<Byte>, stream: seq<Byte>, read: nat, k: nat) {
    && |now| == |before| && k <= |now| && read + k <= |stream|
    && (forall i :: 0 <= i < k ==> now[i] == stream[read + i])
    && forall i :: k <= i < |now| ==> now[i] == before[i]
  }

  // ---------- when a call succeeds

  /** From answer at up to answer end, nothing ends a call early. */
  predicate Clean(script: seq<Outcome>, at: nat, end: nat)
    requires at <= end <= |script|
  {
    forall i :: at <= i < end ==> script[i] != Error && script[i] != Moved(0)
  }

  function Offered(script: seq<Outcome>, at: nat, end: nat): nat
    requires at <= end <= |script|
    decreases end - at
  {
    if at == end then 0
    else (if script[at].Moved? then script[at].n else 0) + Offered(script, at + 1, end)
  }

  predicate Enough(script: seq<Outcome>, at: nat, end: nat, len: nat) {
    at <= end <= |script| && Clean(script, at, end) && Offered(script, at, end) >= len
  }

  /** Some stretch of the script moves what is still missing of len bytes. */
  ghost predicate Supplied(script: seq<Outcome>, at: nat, missing: nat) {
    exists end: nat :: Enough(script, at, end, missing)
  }

  function Min(a: nat, b: nat): nat { if a < b then a else b }

  /** send_bytes succeeds exactly when the kernel accepts the rest of the bytes before it
      reports an error or a closed peer, however the bytes are cut and however often it would
      block. */
  lemma {:induction false} SendsExactlyWhen(total: nat, len: nat, script: seq<Outcome>, at: nat)
    requires total <= len && at <= |script|
    ensures SendLoop(total, len, script, at).status.Done? <==> Supplied(script, at, len - total)
    decreases |script| - at
  {
    var missing := len - total;
    if missing == 0 {
      assert Enough(script, at, at, missing);
    } else if at < |script| {
      var k := if script[at].Moved? then Min(script[at].n, missing) else 0;
      SendsExactlyWhen(total + k, len, script, at + 1);
      OneMore(script, at, missing, k);
    }
  }

  /** A stretch from at on is one answer that does not end the call, and the rest. */
  lemma OneMore(script: seq<Outcome>, at: nat, missing: nat, k: nat)
    requires at < |script| && missing > 0
    requires k == if script[at].Moved? then Min(script[at].n, missing) else 0
    ensures Supplied(script, at, missing)
      <==> script[at] != Error && script[at] != Moved(0) && Supplied(script, at + 1, missing - k)
  {
    var rest, after := missing - k, at + 1;
    if end: nat :| Enough(script, at, end, missing) {
      assert end > at;
      assert Enough(script, after, end, rest);
    }
    if script[at] != Error && script[at] != Moved(0) {
      if end: nat :| Enough(script, after, end, rest) {
        assert Enough(script, at, end, missing);
      }
    }
  }

  /** recv_bytes succeeds exactly when len bytes have arrived and the kernel delivers the rest
      of them before it reports an error or a closed peer. */
  lemma {:induction false} ReceivesExactlyWhen(total: nat, len: nat, arrived: nat, script: seq<Outcome>, at: nat)
    requires total <= len && total <= arrived && at <= |script|
    ensures RecvLoop(total, len, arrived, script, at).status.Done?
      <==> len <= arrived && Supplied(script, at, len - total)
    decreases |script| - at
  {
    var missing := len - total;
    if missing == 0 {
      assert Enough(script, at, at, missing);
    } else if at < |script| {
      var k := if script[at].Moved? then Min(Min(script[at].n, missing), arrived - total) else 0;
      ReceivesExactlyWhen(total + k, len, arrived, script, at + 1);
      if len <= arrived {
        OneMore(script, at, missing, k);
      }
    }
  }

  // ---------- composition: a byte stream, whatever the message boundaries

  /** A run of send_bytes calls on one connection: the wire, if every call succeeded. */
  function SendMany(messages: seq<seq<Byte>>, script: seq<Outcome>, at: nat): Option<seq<Byte>>
    requires at <= |script|
  {
    if messages == [] then Some([])
    else
      var t := SendLoop(0, |messages[0]|, script, at);
      if !t.status.Done? then None
      else
        match SendMany(messages[1..], script, t.next)
        case None => None
        case Some(rest) => Some(messages[0][..t.moved] + rest)
  }

  /** A run of recv_bytes calls on the other end: the buffers, if every call succeeded. */
  function RecvMany(lens: seq<nat>, stream: seq<Byte>, script: seq<Outcome>, at: nat): Option<seq<seq<Byte>>>
    requires at <= |script|
  {
    if lens == [] then Some([])
    else
      var t := RecvLoop(0, lens[0], |stream|, script, at);
      if !t.status.Done? then None
      else
        match RecvMany(lens[1..], stream[t.moved..], script, t.next)
        case None => None
        case Some(rest) => Some([stream[..t.moved]] + rest)
  }

  function Sum(lens: seq<nat>): nat {
    if lens == [] then 0 else lens[0] + Sum(lens[1..])
  }

  lemma {:induction false} SentIsConcat(messages: seq<seq<Byte>>, script: seq<Outcome>, at: nat)
    requires at <= |script| && SendMany(messages, script, at).Some?
    ensures SendMany(messages, script, at).value == Concat(messages)
  {
    if messages != [] {
      var t := SendLoop(0, |messages[0]|, script, at);
      SentIsConcat(messages[1..], script, t.next);
      assert messages[0][..t.moved] == messages[0];
    }
  }

  lemma {:induction false} ReceivedIsPrefix(lens: seq<nat>, stream: seq<Byte>, script: seq<Outcome>, at: nat)
    requires at <= |script| && RecvMany(lens, stream, script, at).Some?
    ensures Sum(lens) <= |stream|
    ensures
      var buffers := RecvMany(lens, stream, script, at).value;
      Concat(buffers) == stream[..Sum(lens)]
      && |buffers| == |lens|
      && forall i | 0 <= i < |lens| :: |buffers[i]| == lens[i]
  {
    if lens != [] {
      var t := RecvLoop(0, lens[0], |stream|, script, at);
      ReceivedIsPrefix(lens[1..], stream[t.moved..], script, t.next);
      var rest := RecvMany(lens[1..], stream[t.moved..], script, t.next).value;
      var buffers := [stream[..t.moved]] + rest;
      assert buffers[1..] == rest;
      assert stream[..Sum(lens)] == stream[..t.moved] + stream[t.moved..][..Sum(lens[1..])];
    }
  }

  /** What successful receives deliver is the sent stream, cut at the receiver's lengths:
      message boundaries, fragmentation and would-blocks leave no trace. */
  lemma StreamComposition(messages: seq<seq<Byte>>, lens: seq<nat>, sends: seq<Outcome>, recvs: seq<Outcome>)
    requires SendMany(messages, sends, 0).Some?
    requires RecvMany(lens, SendMany(messages, sends, 0).value, recvs, 0).Some?
    ensures
      var buffers := RecvMany(lens, SendMany(messages, sends, 0).value, recvs, 0).value;
      Sum(lens) <= |Concat(messages)|
      && Concat(buffers) == Concat(messages)[..Sum(lens)]
      && (Sum(lens) == |Concat(messages)| ==> Concat(buffers) == Concat(messages))
      && |buffers| == |lens|
      && forall i | 0 <= i < |lens| :: |buffers[i]| == lens[i]
  {
    SentIsConcat(messages, sends, 0);
    ReceivedIsPrefix(lens, SendMany(messages, sends, 0).value, recvs, 0);
  }

  // ---------- the calls, one after the other

  /** The contents of the callers' buffers. */
  function Texts(messages: seq<array<Byte>>): (texts: seq<seq<Byte>>)
    reads messages
    ensures |texts| == |messages| && forall i | 0 <= i < |messages| :: texts[i] == messages[i][..]
  {
    if messages == [] then [] else [messages[0][..]] + Texts(messages[1..])
  }

  /** What is there already, and then the rest. */
  function Prefixed<T>(done: seq<T>, rest: Option<seq<T>>): Option<seq<T>> {
    if rest.Some? then Some(done + rest.value) else None
  }

  lemma PrefixedNone<T>(rest: Option<seq<T>>)
    ensures Prefixed([], rest) == rest
  {
    if rest.Some? {
      assert [] + rest.value == rest.value;
    }
  }

  lemma PrefixedTwice<T>(a: seq<T>, b: seq<T>, rest: Option<seq<T>>)
    ensures Prefixed(a, Prefixed(b, rest)) == Prefixed(a + b, rest)
  {
    if rest.Some? {
      assert a + (b + rest.value) == a + b + rest.value;
    }
  }

  lemma SendManyTurn(messages: seq<seq<Byte>>, script: seq<Outcome>, at: nat)
    requires at <= |script|
    ensures messages == [] ==> SendMany(messages, script, at) == Some([])
    ensures messages != [] ==>
      var t := SendLoop(0, |messages[0]|, script, at);
      SendMany(messages, script, at)
        == if t.status.Done? then Prefixed(messages[0], SendMany(messages[1..], script, t.next)) else None
  {
    if messages != [] {
      assert messages[0][..|messages[0]|] == messages[0];
    }
  }

  lemma RecvManyTurn(lens: seq<nat>, stream: seq<Byte>, script: seq<Outcome>, at: nat)
    requires at <= |script|
    ensures lens == [] ==> RecvMany(lens, stream, script, at) == Some([])
    ensures lens != [] ==>
      var t := RecvLoop(0, lens[0], |stream|, script, at);
      RecvMany(lens, stream, script, at)
        == if t.status.Done? then Prefixed([stream[..lens[0]]], RecvMany(lens[1..], stream[lens[0]..], script, t.next))
           else None
  {
  }
}
