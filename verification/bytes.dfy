/** Bytes, little-endian integers, UTF-8 and decimal text. */
module Bytes {
  import opened Results

  type byte = x: int | 0 <= x < 256

  const U32: nat := 0x1_0000_0000
  const U64: nat := 0x1_0000_0000_0000_0000

  function Pow256(n: nat): (p: nat)
    ensures p > 0
  {
    if n == 0 then 1 else 256 * Pow256(n - 1)
  }

  lemma Widths()
    ensures Pow256(4) == U32 && Pow256(8) == U64
  {
    assert Pow256(2) == 0x1_0000;
    assert Pow256(4) == U32;
    assert Pow256(6) == 0x1_0000_0000_0000;
  }

  /** The value of little-endian bytes. */
  function Val(b: seq<byte>): nat
  {
    if b == [] then 0 else b[0] + 256 * Val(b[1..])
  }

  function Word(a: nat, b: nat, c: nat, d: nat): nat {
    a + 0x100 * b + 0x1_0000 * c + 0x100_0000 * d
  }

  /** Least significant byte first. */
  lemma LittleEndian(b: seq<byte>)
    ensures |b| == 4 ==> Val(b) == Word(b[0], b[1], b[2], b[3])
    ensures |b| == 8 ==> Val(b) == Word(b[0], b[1], b[2], b[3]) + U32 * Word(b[4], b[5], b[6], b[7])
  {
    if |b| == 8 {
      FourHigher(b);
      FourHigher(b[4..]);
    } else if |b| == 4 {
      FourHigher(b);
    }
  }

  lemma FourHigher(b: seq<byte>)
    requires |b| >= 4
    ensures Val(b) == Word(b[0], b[1], b[2], b[3]) + U32 * Val(b[4..]) && (|b| == 4 ==> Val(b[4..]) == 0)
  {
    assert Val(b[3..]) == b[3] + 256 * Val(b[3..][1..]) && b[3..][1..] == b[4..];
    assert Val(b[2..]) == b[2] + 256 * Val(b[2..][1..]) && b[2..][1..] == b[3..];
    assert Val(b[1..]) == b[1] + 256 * Val(b[1..][1..]) && b[1..][1..] == b[2..];
  }

  /** The low `width` bytes of `v`, least significant first. */
  function Le(width: nat, v: nat): (b: seq<byte>)
    ensures |b| == width
  {
    if width == 0 then [] else [v % 256] + Le(width - 1, v / 256)
  }

  lemma {:induction false} ValLe(width: nat, v: nat)
    requires v < Pow256(width)
    ensures Val(Le(width, v)) == v
  {
    if width > 0 {
      ValLe(width - 1, v / 256);
      assert Le(width, v)[1..] == Le(width - 1, v / 256);
    }
  }

  lemma OnePower(n: nat)
    ensures Pow256(n) == if n == 0 then 1 else 256 * Pow256(n - 1)
  {
  }

  lemma LowByte(low: byte, high: nat)
    ensures (low + 256 * high) % 256 == low && (low + 256 * high) / 256 == high
  {
  }

  lemma {:induction false} LeVal(b: seq<byte>)
    ensures Val(b) < Pow256(|b|) && Le(|b|, Val(b)) == b
  {
    hide Pow256;
    OnePower(|b|);
    if b != [] {
      LeVal(b[1..]);
      LowByte(b[0], Val(b[1..]));
      assert b == [b[0]] + b[1..];
    }
  }

  /** What is written as a 32-bit or a 64-bit integer reads back. */
  lemma ReadsBack(v: nat)
    ensures v < U32 ==> Val(Le(4, v)) == v
    ensures v < U64 ==> Val(Le(8, v)) == v
  {
    Widths();
    if v < U32 { ValLe(4, v); }
    if v < U64 { ValLe(8, v); }
  }

  lemma WritesBack(b: seq<byte>)
    ensures |b| == 4 ==> Val(b) < U32 && Le(4, Val(b)) == b
    ensures |b| == 8 ==> Val(b) < U64 && Le(8, Val(b)) == b
  {
    Widths();
    LeVal(b);
  }

  function Zeros(n: nat): (z: seq<byte>)
    ensures |z| == n
  {
    seq(n, i => 0)
  }

  lemma ZerosAre(n: nat)
    ensures forall i | 0 <= i < n :: Zeros(n)[i] == 0
  {
  }

  // ---------- UTF-8 ----------

  predicate Cont(x: byte) {
    0x80 <= x <= 0xBF
  }

  /** Length of the well-formed sequence `b` starts with, 0 if there is none: Table 3-7 of the Unicode
      Standard, which leaves out overlong forms, surrogates and everything past U+10FFFF. */
  function Scalar(b: seq<byte>): (n: nat)
    ensures n <= |b|
  {
    if b == [] then 0
    else if b[0] < 0x80 then 1
    else if 0xC2 <= b[0] <= 0xDF then if |b| >= 2 && Cont(b[1]) then 2 else 0
    else if 0xE0 <= b[0] <= 0xEF then
      if |b| >= 3 && Cont(b[1]) && Cont(b[2]) && (b[0] == 0xE0 ==> b[1] >= 0xA0) && (b[0] == 0xED ==> b[1] < 0xA0) then 3 else 0
    else if 0xF0 <= b[0] <= 0xF4 then
      if |b| >= 4 && Cont(b[1]) && Cont(b[2]) && Cont(b[3]) && (b[0] == 0xF0 ==> b[1] >= 0x90) && (b[0] == 0xF4 ==> b[1] < 0x90)
      then 4 else 0
    else 0
  }

  predicate Utf8(b: seq<byte>)
  {
    b == [] || (Scalar(b) > 0 && Utf8(b[Scalar(b)..]))
  }

  predicate IsAscii(b: seq<byte>)
  {
    forall i | 0 <= i < |b| :: b[i] < 0x80
  }

  /** ASCII text in front neither makes nor breaks validity. */
  lemma {:induction false} AsciiPrefix(a: seq<byte>, b: seq<byte>)
    requires IsAscii(a)
    ensures Utf8(a + b) <==> Utf8(b)
  {
    if a == [] {
      assert a + b == b;
    } else {
      assert (a + b)[1..] == a[1..] + b;
      AsciiPrefix(a[1..], b);
    }
  }

  function CharByte(c: char): byte {
    var code: int := c as int;
    code % 256
  }

  /** The bytes of an ASCII literal. */
  function Text(s: string): (b: seq<byte>)
    ensures |b| == |s|
  {
    seq(|s|, i requires 0 <= i < |s| => CharByte(s[i]))
  }

  // ---------- decimal ----------

  function Dec(n: nat): (b: seq<byte>)
    ensures b != []
    ensures AllDigits(b)
    ensures n > 0 ==> b[0] != 48
    ensures n == 0 ==> b == [48]
  {
    if n < 10 then [48 + n] else Dec(n / 10) + [48 + n % 10]
  }

  predicate IsDigit(x: byte) {
    48 <= x <= 57
  }

  predicate AllDigits(b: seq<byte>) {
    forall i | 0 <= i < |b| :: IsDigit(b[i])
  }

  function DigitValue(x: byte): nat
    requires IsDigit(x)
  {
    var n: int := x;
    n - 48
  }

  function Digits(b: seq<byte>): nat
    requires AllDigits(b)
  {
    if b == [] then 0 else Digits(b[..|b| - 1]) * 10 + DigitValue(b[|b| - 1])
  }

  lemma {:induction false} DigitsDec(n: nat)
    ensures Digits(Dec(n)) == n
  {
    if n < 10 {
      assert [48 + n][..0] == [];
      assert Digits([48 + n]) == Digits([]) * 10 + n;
    } else {
      DigitsDec(n / 10);
      assert (Dec(n / 10) + [48 + n % 10])[..|Dec(n / 10)|] == Dec(n / 10);
    }
  }

  /** No sign, no leading zero. */
  predicate Canonical(b: seq<byte>)
  {
    b != [] && AllDigits(b) && (b[0] == 48 ==> |b| == 1)
  }

  lemma {:induction false} DecDigits(b: seq<byte>)
    requires Canonical(b)
    ensures Dec(Digits(b)) == b && (Digits(b) == 0 <==> b == [48])
  {
    var init := b[..|b| - 1];
    assert b == init + [b[|b| - 1]];
    if init == [] {
      assert Digits(b) == Digits([]) * 10 + DigitValue(b[0]);
    } else {
      assert Canonical(init);
      DecDigits(init);
      assert Digits(b) / 10 == Digits(init) && Digits(b) >= 10;
    }
  }

  /** The text without its optional plus sign. */
  function Unsigned(b: seq<byte>): seq<byte> {
    if b != [] && b[0] == 43 then b[1..] else b
  }

  /** Parsing a 32-bit unsigned integer: an optional plus sign, at least one digit, leading zeros and
      all, and the value must fit. */
  function ParseU32(b: seq<byte>): (r: Option<nat>)
    ensures r.Some? ==> r.value < U32
  {
    var d := Unsigned(b);
    if d != [] && AllDigits(d) && Digits(d) < U32 then Some(Digits(d)) else None
  }

  lemma ParseDec(n: nat)
    requires n < U32
    ensures ParseU32(Dec(n)) == Some(n)
  {
    DigitsDec(n);
  }

  /** Printing what was parsed gives the text back exactly when it was canonical. */
  lemma DecParse(b: seq<byte>)
    requires ParseU32(b).Some?
    ensures Dec(ParseU32(b).value) == b <==> Canonical(b)
  {
    if Canonical(b) {
      DecDigits(b);
    }
  }
}
