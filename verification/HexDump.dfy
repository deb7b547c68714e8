/** The two hex printers: IOHelper::hexdump over unsigned chars and
    ThreadsClientHandle::dumpHex over signed chars. */
module HexDump {
  import opened Socket

  type SignedChar = x: int | -128 <= x < 128

  const INT_MAX: int := 0x7fff_ffff

  /** (v & 0xff) for a two's-complement int v. */
  function LowByte(v: int): Byte { v % 256 }

  /** The same memory byte, read through an unsigned char pointer. */
  function AsUnsigned(c: SignedChar): Byte { if c < 0 then c + 256 else c }

  function Digit(d: int): char
    requires 0 <= d < 16
  {
    "0123456789abcdef"[d]
  }

  /** What std::hex prints for a non-negative int. */
  function Hex(v: nat): string {
    if v < 16 then [Digit(v)] else Hex(v / 16) + [Digit(v % 16)]
  }

  /** std::setw(width) with std::setfill('0'). */
  function Pad(text: string, width: nat): string
    decreases width - |text|
  {
    if |text| >= width then text else Pad("0" + text, width)
  }

  /** The text one loop iteration prints for the int v. */
  function Cell(v: int): string {
    "0x" + Pad(Hex(LowByte(v)), 2) + " "
  }

  /** The line break after every sixteenth byte. */
  function Break(i: nat): string {
    if (i + 1) % 0x10 == 0 then "\n" else ""
  }

  function Dump(bytes: seq<Byte>): string {
    if bytes == [] then ""
    else
      var n := |bytes| - 1;
      Dump(bytes[..n]) + Cell(bytes[n]) + Break(n)
  }

  lemma DumpSnoc(bytes: seq<Byte>, b: Byte)
    ensures
      var d := Dump(bytes + [b]);
      d == Dump(bytes) + Cell(b) + Break(|bytes|)
      && ((|bytes| + 1) % 0x10 != 0 ==> d == Dump(bytes) + Cell(b))
  {
    assert (bytes + [b])[..|bytes|] == bytes;
  }

  method HexDump(data: array<Byte>, len: nat) returns (text: string)
    requires len <= data.Length && len <= INT_MAX
    ensures text == Dump(data[..len])
  {
    assert Dump(data[..0]) == "";
    hide Dump, Hex, Pad;
    text := "";
    var i := 0;
    while i != len
      invariant 0 <= i <= len
      invariant text == Dump(data[..i])
    {
      assert data[..i + 1] == data[..i] + [data[i]];
      DumpSnoc(data[..i], data[i]);
      text := text + ("0x" + Pad(Hex(LowByte(data[i])), 2) + " ");
      if (i + 1) % 0x10 == 0 {
        text := text + "\n";
      }
      i := i + 1;
    }
  }

  function Unsigned(buf: seq<SignedChar>): (r: seq<Byte>)
    ensures |r| == |buf|
  {
    seq(|buf|, i requires 0 <= i < |buf| => AsUnsigned(buf[i]))
  }

  lemma UnsignedSnoc(buf: seq<SignedChar>, c: SignedChar)
    ensures Unsigned(buf + [c]) == Unsigned(buf) + [AsUnsigned(c)]
  {
  }

  /** What one more turn prints. Sign extension does not change the low byte. */
  lemma SignedSnoc(buf: seq<SignedChar>, i: nat)
    requires i < |buf|
    ensures
      var d := Dump(Unsigned(buf[..i + 1]));
      d == Dump(Unsigned(buf[..i])) + Cell(buf[i]) + Break(i)
      && ((i + 1) % 0x10 != 0 ==> d == Dump(Unsigned(buf[..i])) + Cell(buf[i]))
  {
    hide Dump, Hex, Pad;
    assert buf[..i + 1] == buf[..i] + [buf[i]];
    UnsignedSnoc(buf[..i], buf[i]);
    DumpSnoc(Unsigned(buf[..i]), AsUnsigned(buf[i]));
    assert LowByte(buf[i]) == LowByte(AsUnsigned(buf[i]));
  }

  /** The signed printer sign-extends each char before masking it, and yet prints what the
      unsigned printer prints for the same memory. */
  method DumpHex(buf: array<SignedChar>, len: nat) returns (text: string)
    requires len <= buf.Length && len <= INT_MAX
    ensures text == Dump(Unsigned(buf[..len]))
  {
    ghost var chars := buf[..len];
    assert Dump(Unsigned(chars[..0])) == "" && chars[..len] == chars;
    hide Dump, Unsigned, LowByte, Hex, Pad;
    text := "";
    var i := 0;
    while i != len
      invariant 0 <= i <= len
      invariant text == Dump(Unsigned(chars[..i]))
    {
      SignedSnoc(chars, i);
      text := text + ("0x" + Pad(Hex(LowByte(buf[i])), 2) + " ");
      if (i + 1) % 0x10 == 0 {
        text := text + "\n";
      }
      i := i + 1;
    }
  }

  lemma TwoDigits(b: Byte)
    ensures Pad(Hex(b), 2) == [Digit(b / 16), Digit(b % 16)]
  {
    if b < 16 {
      assert Hex(b) == [Digit(b)];
      assert Pad(Hex(b), 2) == "0" + [Digit(b)];
    } else {
      assert Hex(b / 16) == [Digit(b / 16)];
    }
  }

  lemma CellShape(b: Byte)
    ensures Cell(b) == ['0', 'x', Digit(b / 16), Digit(b % 16), ' ']
  {
    TwoDigits(b);
    assert LowByte(b) == b;
    hide Hex, Pad, Digit;
  }

  /** Where byte i starts. */
  function Offset(i: nat): nat {
    if i == 0 then 0 else Offset(i - 1) + 5 + |Break(i - 1)|
  }

  lemma {:induction false} OffsetClosedForm(i: nat)
    ensures Offset(i) == 5 * i + i / 16
  {
    if i > 0 {
      OffsetClosedForm(i - 1);
    }
  }

  lemma {:induction false} DumpLength(bytes: seq<Byte>)
    ensures |Dump(bytes)| == Offset(|bytes|)
  {
    if bytes != [] {
      var n := |bytes| - 1;
      DumpLength(bytes[..n]);
      CellShape(bytes[n]);
    }
  }

  /** The dump of a prefix is a prefix of the dump. */
  lemma {:induction false} DumpPrefix(bytes: seq<Byte>, i: nat)
    requires i <= |bytes|
    ensures Dump(bytes[..i]) <= Dump(bytes)
  {
    if i == |bytes| {
      assert bytes[..i] == bytes;
    } else {
      var n := |bytes| - 1;
      assert bytes[..n][..i] == bytes[..i];
      DumpPrefix(bytes[..n], i);
    }
  }

  lemma Parts(bytes: seq<Byte>, i: nat)
    requires i < |bytes|
    ensures |Dump(bytes[..i])| == Offset(i)
    ensures Dump(bytes[..i]) + Cell(bytes[i]) + Break(i) <= Dump(bytes)
  {
    hide Dump, Cell, Break, Offset;
    assert bytes[..i + 1] == bytes[..i] + [bytes[i]];
    DumpSnoc(bytes[..i], bytes[i]);
    DumpPrefix(bytes, i + 1);
    DumpLength(bytes[..i]);
  }

  lemma Cells(bytes: seq<Byte>, i: nat)
    requires i < |bytes|
    ensures Offset(i) + 5 <= Offset(i + 1) <= |Dump(bytes)|
    ensures Dump(bytes)[Offset(i)..Offset(i) + 5] == Cell(bytes[i])
    ensures Dump(bytes)[Offset(i) + 5..Offset(i + 1)] == Break(i)
  {
    CellSize(bytes[i]);
    Parts(bytes, i);
    Sections(Dump(bytes), Dump(bytes[..i]), Cell(bytes[i]), Break(i), Offset(i), Offset(i + 1));
  }

  lemma CellSize(b: Byte)
    ensures |Cell(b)| == 5
  {
    CellShape(b);
  }

  /** The dump has 5*n + n/16 characters; byte i starts at offset 5*i + i/16, and what
      lies between its cell and the next one is a line break or nothing. */
  lemma Layout(bytes: seq<Byte>, i: nat)
    requires i < |bytes|
    ensures |Dump(bytes)| == 5 * |bytes| + |bytes| / 16
    ensures Offset(i) == 5 * i + i / 16 && Offset(i) + 5 <= Offset(i + 1) <= |Dump(bytes)|
    ensures Dump(bytes)[Offset(i)..Offset(i) + 5] == ['0', 'x', Digit(bytes[i] / 16), Digit(bytes[i] % 16), ' ']
    ensures Dump(bytes)[Offset(i) + 5..Offset(i + 1)] == Break(i)
  {
    DumpLength(bytes);
    OffsetClosedForm(i);
    OffsetClosedForm(|bytes|);
    Cells(bytes, i);
    CellShape(bytes[i]);
  }

  lemma Sections(whole: string, before: string, cell: string, tail: string, from: nat, to: nat)
    requires before + cell + tail <= whole
    requires |before| == from && |cell| == 5 && to == from + 5 + |tail|
    ensures to <= |whole| && whole[from..from + 5] == cell && whole[from + 5..to] == tail
  {
    var front := before + cell + tail;
    assert whole[from..from + 5] == front[from..from + 5];
    assert whole[from + 5..to] == front[from + 5..];
  }

  function Value(c: char): Option<int> {
    if '0' <= c <= '9' then Some(c as int - '0' as int)
    else if 'a' <= c <= 'f' then Some(c as int - 'a' as int + 10)
    else None
  }

  function ParseByte(hi: char, lo: char): Option<Byte> {
    if Value(hi).Some? && Value(lo).Some? then Some(16 * Value(hi).value + Value(lo).value) else None
  }

  /** An independent reader of dumps: it skips line breaks and reads one cell at a time. */
  function Parse(text: string): Option<seq<Byte>> {
    if text == "" then Some([])
    else if text[0] == '\n' then Parse(text[1..])
    else if |text| < 5 || text[0] != '0' || text[1] != 'x' || text[4] != ' ' then None
    else if ParseByte(text[2], text[3]).None? || Parse(text[5..]).None? then None
    else Some([ParseByte(text[2], text[3]).value] + Parse(text[5..]).value)
  }

  predicate StartsWithCell(text: string) {
    |text| >= 5 && text[0] == '0' && text[1] == 'x' && text[4] == ' ' && ParseByte(text[2], text[3]).Some?
  }

  lemma ParseAfterCell(text: string)
    requires StartsWithCell(text)
    ensures
      Parse(text) == match Parse(text[5..])
                     case None => None
                     case Some(rest) => Some([ParseByte(text[2], text[3]).value] + rest)
  {
  }

  lemma {:induction false} ParseConcat(a: string, b: string)
    requires Parse(a).Some? && Parse(b).Some?
    ensures Parse(a + b) == Some(Parse(a).value + Parse(b).value)
  {
    if a == "" {
      assert a + b == b;
      assert Parse(a).value + Parse(b).value == Parse(b).value;
    } else if a[0] == '\n' {
      assert (a + b)[1..] == a[1..] + b;
      ParseConcat(a[1..], b);
    } else {
      assert StartsWithCell(a) && StartsWithCell(a + b);
      ParseAfterCell(a);
      ParseAfterCell(a + b);
      assert (a + b)[5..] == a[5..] + b;
      ParseConcat(a[5..], b);
      Prepend(ParseByte(a[2], a[3]).value, Parse(a[5..]).value, Parse(b).value);
    }
  }

  lemma Prepend(first: Byte, rest: seq<Byte>, more: seq<Byte>)
    ensures [first] + (rest + more) == [first] + rest + more
  {
  }

  lemma DigitValue(d: int)
    requires 0 <= d < 16
    ensures Value(Digit(d)) == Some(d)
  {
    assert Digit(d) == "0123456789abcdef"[d];
  }

  lemma ParseCell(b: Byte)
    ensures Parse(Cell(b)) == Some([b])
  {
    CellShape(b);
    DigitValue(b / 16);
    DigitValue(b % 16);
    var cell := Cell(b);
    assert cell[5..] == "";
    assert ParseByte(cell[2], cell[3]) == Some(b);
    assert Parse(cell[5..]) == Some([]);
    assert [b] + [] == [b];
  }

  lemma ParseBreak(i: nat)
    ensures Parse(Break(i)) == Some([])
  {
    assert "\n"[1..] == "";
  }

  lemma {:induction false} RoundTrip(bytes: seq<Byte>)
    ensures Parse(Dump(bytes)) == Some(bytes)
  {
    if bytes != [] {
      var n := |bytes| - 1;
      RoundTrip(bytes[..n]);
      ParseCell(bytes[n]);
      ParseBreak(n);
      ParseConcat(Dump(bytes[..n]), Cell(bytes[n]));
      ParseConcat(Dump(bytes[..n]) + Cell(bytes[n]), Break(n));
      assert bytes == bytes[..n] + [bytes[n]] + [];
    }
  }

  /** Hence two buffers with the same dump are the same buffer. */
  lemma DumpInjective(a: seq<Byte>, b: seq<Byte>)
    requires Dump(a) == Dump(b)
    ensures a == b
  {
    RoundTrip(a);
    RoundTrip(b);
  }
}
