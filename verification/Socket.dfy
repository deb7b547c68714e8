/** What every file below shares: bytes, descriptors, and the socket seen as an
    adversary that decides how each send() and recv() call turns out. */
module Socket {
  type Byte = x: int | 0 <= x < 256

  const INVALID_FD: int := -1

  datatype Option<+T> = None | Some(value: T)

  /** The adversary's choice for one call: move up to n bytes (0: the peer has closed),
      report EAGAIN/EWOULDBLOCK, or report another error. */
  datatype Outcome = Moved(n: nat) | WouldBlock | Error

  /** What the call returns: a count, or -1 with or without a "try again" errno. */
  datatype Ret = Bytes(count: nat) | Again | Fail

  function Bit(b: bool): nat { if b then 1 else 0 }


  /** send() never accepts more than it was offered. */
  function SendRet(o: Outcome, left: nat): Ret {
    match o
    case Moved(n) => if n <= left then Bytes(n) else Bytes(left)
    case WouldBlock => Again
    case Error => Fail
  }

  /** recv() never delivers more than was asked for, nor bytes that have not arrived. */
  function RecvRet(o: Outcome, want: nat, arrived: nat): Ret {
    match o
    case Moved(n) =>
      if n > 0 && arrived == 0 then Again
      else if n <= want && n <= arrived then Bytes(n)
      else if want <= arrived then Bytes(want)
      else Bytes(arrived)
    case WouldBlock => Again
    case Error => Fail
  }

  /** An error, or the peer has closed: the callers give up. */
  predicate Ends(r: Ret) { r.Fail? || r == Bytes(0) }

  function Count(r: Ret): nat { if r.Bytes? then r.count else 0 }

  /** Any call on INVALID_FD fails with EBADF. */
  function OnFd(fd: int, r: Ret): Ret {
    if fd == INVALID_FD then Fail else r
  }

  function Concat(ss: seq<seq<Byte>>): seq<Byte> {
    if ss == [] then [] else ss[0] + Concat(ss[1..])
  }

  lemma {:induction false} ConcatAppend(ss: seq<seq<Byte>>, s: seq<Byte>)
    ensures Concat(ss + [s]) == Concat(ss) + s
  {
    if ss == [] {
      assert ss + [s] == [s];
    } else {
      assert (ss + [s])[1..] == ss[1..] + [s];
      ConcatAppend(ss[1..], s);
    }
  }
}
