/** Base-58 text for byte strings, and peer identifiers written in it. */
module Base58 {
  import opened Results
  import Bytes

  // ---------- numbers in a base ----------

  predicate InBase(d: seq<nat>, base: nat) {
    forall i | 0 <= i < |d| :: d[i] < base
  }

  /** Value of digits with the most significant first. */
  function BigVal(d: seq<nat>, base: nat): nat {
    if d == [] then 0 else BigVal(d[..|d| - 1], base) * base + d[|d| - 1]
  }

  /** Value of digits with the least significant first. */
  function LittleVal(d: seq<nat>, base: nat): nat {
    if d == [] then 0 else d[0] + base * LittleVal(d[1..], base)
  }

  /** The digits of `v`, least significant first, none for zero. */
  function Digits(v: nat, base: nat): (d: seq<nat>)
    requires base > 1
    ensures InBase(d, base)
  {
    if v == 0 then []
    else
      Euclid(v, base);
      [v % base] + Digits(v / base, base)
  }

  lemma Euclid(v: nat, base: nat)
    requires base > 1
    ensures v == v % base + base * (v / base) && v % base < base
    ensures v > 0 ==> v / base < v
  {
    var q := v / base;
    if q > 0 {
      Multiples(q, base - 1);
      assert base * q == q + q * (base - 1);
    }
  }

  function Reverse(d: seq<nat>): (r: seq<nat>)
    ensures |r| == |d|
    ensures forall i | 0 <= i < |d| :: r[i] == d[|d| - 1 - i]
  {
    if d == [] then [] else Reverse(d[1..]) + [d[0]]
  }

  /** Number of leading zero digits. */
  function Leading(d: seq<nat>): (n: nat)
    ensures n <= |d|
  {
    if d == [] || d[0] != 0 then 0 else 1 + Leading(d[1..])
  }

  predicate Normal(d: seq<nat>) {
    d != [] ==> d[|d| - 1] != 0
  }

  lemma {:induction false} BigIsLittle(d: seq<nat>, base: nat)
    ensures LittleVal(Reverse(d), base) == BigVal(d, base)
  {
    if d != [] {
      BigIsLittle(d[..|d| - 1], base);
      assert Reverse(d) == [d[|d| - 1]] + Reverse(d[..|d| - 1]);
    }
  }

  /** Digits without a zero on top are determined by their value. */
  lemma {:induction false} NormalIsDigits(d: seq<nat>, base: nat)
    requires base > 1 && InBase(d, base) && Normal(d)
    ensures Digits(LittleVal(d, base), base) == d
  {
    if d != [] {
      NormalIsDigits(d[1..], base);
      var rest := LittleVal(d[1..], base);
      SplitDigit(d[0], rest, base);
      if d[1..] != [] {
        NormalIsPositive(d[1..], base);
      }
      assert d == [d[0]] + d[1..];
    }
  }

  lemma {:induction false} NormalIsPositive(d: seq<nat>, base: nat)
    requires base > 1 && Normal(d) && d != []
    ensures LittleVal(d, base) > 0
  {
    if |d| > 1 {
      NormalIsPositive(d[1..], base);
      assert base * LittleVal(d[1..], base) > 0;
    }
  }

  lemma SplitDigit(low: nat, rest: nat, base: nat)
    requires low < base
    ensures (low + base * rest) % base == low && (low + base * rest) / base == rest
  {
    var v := low + base * rest;
    var dq: int := v / base - rest;
    assert v == base * (v / base) + v % base;
    assert base * dq == (low as int) - v % base;
    if dq >= 1 {
      Multiples(base, dq);
    } else if dq <= -1 {
      Multiples(base, -dq);
    }
  }

  lemma Multiples(base: nat, q: int)
    requires q >= 1
    ensures base * q >= base
  {
  }

  lemma PushLow(low: nat, high: seq<nat>, base: nat)
    requires Normal(high) && (high == [] ==> low != 0)
    ensures LittleVal([low] + high, base) == low + base * LittleVal(high, base) && Normal([low] + high)
  {
    assert ([low] + high)[1..] == high;
  }

  lemma {:induction false} DigitsVal(v: nat, base: nat)
    requires base > 1
    ensures LittleVal(Digits(v, base), base) == v && Normal(Digits(v, base))
  {
    if v > 0 {
      Euclid(v, base);
      DigitsVal(v / base, base);
      PushLow(v % base, Digits(v / base, base), base);
    }
  }

  // ---------- converting between bases ----------

  /** Leading zeros are carried over one for one, the rest is written in the other base. */
  function Convert(d: seq<nat>, from: nat, to: nat): (r: seq<nat>)
    requires from > 1 && to > 1
  {
    Bytes.Zeros(Leading(d)) + Reverse(Digits(BigVal(d, from), to))
  }

  lemma {:induction false} LeadingSplit(d: seq<nat>, base: nat)
    ensures var n := Leading(d);
            d == Bytes.Zeros(n) + d[n..] && BigVal(d[n..], base) == BigVal(d, base) && (d[n..] != [] ==> d[n..][0] != 0)
  {
    hide BigVal;
    if d != [] && d[0] == 0 {
      LeadingSplit(d[1..], base);
      DropZero(d, base);
      var n := Leading(d[1..]);
      assert d == [0] + d[1..];
      assert d[n + 1..] == d[1..][n..];
      assert Bytes.Zeros(n + 1) == [0] + Bytes.Zeros(n);
    }
  }

  lemma {:induction false} DropZero(d: seq<nat>, base: nat)
    requires d != [] && d[0] == 0
    ensures BigVal(d[1..], base) == BigVal(d, base)
  {
    if |d| > 1 {
      DropZero(d[..|d| - 1], base);
      assert d[1..][..|d| - 2] == d[..|d| - 1][1..];
    } else {
      assert d[..0] == [];
    }
  }

  lemma {:induction false} LeadingJoin(n: nat, rest: seq<nat>)
    requires rest != [] ==> rest[0] != 0
    ensures Leading(Bytes.Zeros(n) + rest) == n
  {
    if n == 0 {
      assert Bytes.Zeros(0) + rest == rest;
    } else {
      assert (Bytes.Zeros(n) + rest)[1..] == Bytes.Zeros(n - 1) + rest;
      LeadingJoin(n - 1, rest);
    }
  }

  /** Converting there and back is the identity, in either direction and for every digit string. */
  lemma ConvertBack(d: seq<nat>, from: nat, to: nat)
    requires from > 1 && to > 1 && InBase(d, from)
    ensures Convert(Convert(d, from, to), to, from) == d
  {
    hide Reverse, Digits, BigVal, LittleVal, Leading, Normal;
    var n, v := Leading(d), BigVal(d, from);
    var top, digits := d[n..], Digits(v, to);
    LeadingSplit(d, from);
    ConvertParts(d, from, to);
    BigIsLittle(top, from);
    TopIsNormal(top);
    NormalIsDigits(Reverse(top), from);
    assert Reverse(Reverse(top)) == top;
  }

  lemma TopIsNormal(top: seq<nat>)
    requires top != [] ==> top[0] != 0
    ensures Normal(Reverse(top))
  {
  }

  /** The converted string has the same leading zeros and the same value. */
  lemma ConvertParts(d: seq<nat>, from: nat, to: nat)
    requires from > 1 && to > 1
    ensures Leading(Convert(d, from, to)) == Leading(d)
    ensures BigVal(Convert(d, from, to), to) == BigVal(d, from)
  {
    hide Digits, BigVal, LittleVal, Leading;
    var n, v := Leading(d), BigVal(d, from);
    var rest := Reverse(Digits(v, to));
    DigitsVal(v, to);
    BigIsLittle(rest, to);
    assert Reverse(rest) == Digits(v, to);
    LeadingJoin(n, rest);
    LeadingSplit(Bytes.Zeros(n) + rest, to);
    assert (Bytes.Zeros(n) + rest)[n..] == rest;
  }

  // ---------- the digit loops ----------

  /** The largest value a 32-bit accumulator ever holds, in either direction. */
  const ACC_MAX: nat := 14847

  lemma Assoc(a: nat, b: nat, c: nat)
    ensures a * (b * c) == (a * b) * c
  {
  }

  lemma Dist(a: nat, b: nat, c: nat)
    ensures a * (b + c) == a * b + a * c
  {
  }

  lemma Mono(a: nat, b: nat, c: nat)
    ensures a <= b ==> c * a <= c * b
  {
  }

  /** A digit of the old number and the carry into it give a digit of the new number and a carry out. */
  lemma Carry(digit: nat, carry: nat, mul: nat, base: nat)
    requires digit < base && carry < mul && base > 1
    ensures var acc := digit * mul + carry;
            acc < base * mul && acc / base < mul
  {
    var acc := digit * mul + carry;
    Mono(digit + 1, base, mul);
    Dist(mul, digit, 1);
    Euclid(acc, base);
    Mono(mul, acc / base, base);
  }

  /** The carry into position `i`, and the accumulator there, when `digits * mul + c` is worked out. */
  function CarryInto(digits: seq<nat>, mul: nat, base: nat, c: nat, i: nat): nat
    requires base > 0 && i <= |digits|
    decreases i, 0
  {
    if i == 0 then c else Acc(digits, mul, base, c, i - 1) / base
  }

  function Acc(digits: seq<nat>, mul: nat, base: nat, c: nat, i: nat): nat
    requires base > 0 && i < |digits|
    decreases i, 1
  {
    digits[i] * mul + CarryInto(digits, mul, base, c, i)
  }

  lemma NoCarry(digits: seq<nat>, mul: nat, base: nat, c: nat)
    requires base > 0
    ensures CarryInto(digits, mul, base, c, 0) == c
  {
  }

  lemma NextCarry(digits: seq<nat>, mul: nat, base: nat, c: nat, i: nat)
    requires base > 0 && i < |digits|
    ensures Acc(digits, mul, base, c, i) == digits[i] * mul + CarryInto(digits, mul, base, c, i)
    ensures CarryInto(digits, mul, base, c, i + 1) == Acc(digits, mul, base, c, i) / base
  {
  }

  /** No accumulator exceeds the bound, far below 32 bits, and every carry is below the multiplier. */
  lemma {:induction false} AccBound(digits: seq<nat>, mul: nat, base: nat, c: nat, i: nat)
    requires (mul == 256 && base == 58) || (mul == 58 && base == 256)
    requires InBase(digits, base) && c < mul && i < |digits|
    ensures CarryInto(digits, mul, base, c, i) < mul && Acc(digits, mul, base, c, i) <= ACC_MAX < Bytes.U32
  {
    if i > 0 {
      AccBound(digits, mul, base, c, i - 1);
      Carry(digits[i - 1], CarryInto(digits, mul, base, c, i - 1), mul, base);
    }
    Carry(digits[i], CarryInto(digits, mul, base, c, i), mul, base);
  }

  /** The first `n` digits are the low digits of the accumulators there. */
  predicate LowDigits(num: seq<nat>, digits: seq<nat>, mul: nat, base: nat, c: nat, n: nat) {
    base > 0 && n <= |num| && n <= |digits| && forall k | 0 <= k < n :: num[k] == Acc(digits, mul, base, c, k) % base
  }

  lemma OneLowDigit(num: seq<nat>, digits: seq<nat>, mul: nat, base: nat, c: nat, i: nat)
    requires LowDigits(num, digits, mul, base, c, i) && i < |num| && i < |digits|
    ensures LowDigits(num[i := Acc(digits, mul, base, c, i) % base], digits, mul, base, c, i + 1)
  {
    hide Acc;
  }

  lemma StillLowDigits(num: seq<nat>, digits: seq<nat>, mul: nat, base: nat, c: nat, n: nat, more: seq<nat>)
    requires LowDigits(num, digits, mul, base, c, n)
    ensures LowDigits(num + more, digits, mul, base, c, n)
  {
    hide Acc;
  }

  lemma NoLowDigit(digits: seq<nat>, mul: nat, base: nat, c: nat)
    requires base > 0
    ensures LowDigits(digits, digits, mul, base, c, 0)
  {
  }

  /** `goal` is what the digits done and the product of those left with the carry add up to. */
  ghost predicate Across(goal: nat, done: seq<nat>, left: seq<nat>, mul: nat, base: nat, carry: nat) {
    goal == LittleVal(done, base) + Power(base, |done|) * (LittleVal(left, base) * mul + carry)
  }

  lemma StartAcross(digits: seq<nat>, mul: nat, base: nat, c: nat)
    ensures digits[0..] == digits && Across(LittleVal(digits, base) * mul + c, digits[..0], digits, mul, base, c)
  {
    assert Power(base, 0) == 1 && LittleVal(digits[..0], base) == 0;
  }

  /** In place: `num * mul + c`. The digits stay digits, the top one stays nonzero, and each old place holds
      the low digit of its accumulator. */
  method MulAdd(digits: seq<nat>, mul: nat, base: nat, c: nat) returns (num: seq<nat>)
    requires (mul == 256 && base == 58) || (mul == 58 && base == 256)
    requires InBase(digits, base) && Normal(digits) && c < mul
    ensures InBase(num, base) && Normal(num)
    ensures LittleVal(num, base) == LittleVal(digits, base) * mul + c
    ensures LowDigits(num, digits, mul, base, c, |digits|)
  {
    hide LittleVal, Power, Acc, CarryInto, LowDigits, Across;
    num := digits;
    var carry: nat := c;
    NoCarry(digits, mul, base, c);
    NoLowDigit(digits, mul, base, c);
    ghost var goal := LittleVal(digits, base) * mul + c;
    StartAcross(digits, mul, base, c);
    for i := 0 to |num|
      invariant |num| == |digits| && InBase(num, base) && carry < mul && num[i..] == digits[i..]
      invariant Across(goal, num[..i], digits[i..], mul, base, carry)
      invariant i == |num| && i > 0 && carry == 0 ==> num[i - 1] != 0
      invariant carry == CarryInto(digits, mul, base, c, i) && LowDigits(num, digits, mul, base, c, i)
    {
      var acc := num[i] * mul + carry;
      NextCarry(digits, mul, base, c, i);
      OneLowDigit(num, digits, mul, base, c, i);
      Carry(num[i], carry, mul, base);
      Euclid(acc, base);
      StepDigit(goal, num[..i], digits[i..], mul, carry, base, acc % base, acc / base);
      TopStays(num[i], carry, mul, base);
      var next := num[i := acc % base];
      assert next[..i + 1] == num[..i] + [acc % base];
      assert digits[i..][1..] == digits[i + 1..];
      num, carry := next, acc / base;
    }
    assert num[..|digits|] == num && digits[|digits|..] == [];
    ghost var low := num;
    num := PushCarry(num, carry, mul, base, goal);
    StillLowDigits(low, digits, mul, base, c, |digits|, num[|low|..]);
    assert num == low + num[|low|..];
  }

  /** The second loop: the carry becomes new top digits. */
  method PushCarry(digits: seq<nat>, c: nat, ghost mul: nat, base: nat, ghost goal: nat) returns (num: seq<nat>)
    requires (mul == 256 && base == 58) || (mul == 58 && base == 256)
    requires InBase(digits, base) && c < mul && Across(goal, digits, [], mul, base, c)
    requires c == 0 ==> Normal(digits)
    ensures InBase(num, base) && Normal(num) && LittleVal(num, base) == goal && digits <= num
  {
    hide LittleVal, Power, Across;
    num := digits;
    var carry: nat := c;
    while carry > 0
      invariant InBase(num, base) && carry < mul && digits <= num
      invariant Across(goal, num, [], mul, base, carry)
      invariant carry == 0 ==> Normal(num)
      decreases carry
    {
      Euclid(carry, base);
      PushTop(goal, num, mul, carry, base, carry % base, carry / base);
      num, carry := num + [carry % base], carry / base;
    }
    EndAcross(goal, num, mul, base);
  }

  lemma EndAcross(goal: nat, num: seq<nat>, mul: nat, base: nat)
    requires Across(goal, num, [], mul, base, 0)
    ensures LittleVal(num, base) == goal
  {
  }

  /** A nonzero top digit yields a nonzero digit or a carry. */
  lemma TopStays(digit: nat, carry: nat, mul: nat, base: nat)
    requires mul > 0 && base > 1
    ensures var acc := digit * mul + carry;
            digit > 0 && acc / base == 0 ==> acc % base != 0
  {
    var acc := digit * mul + carry;
    Euclid(acc, base);
    Mono(1, digit, mul);
  }

  function Power(base: nat, n: nat): nat {
    if n == 0 then 1 else base * Power(base, n - 1)
  }

  lemma {:induction false} ValAppend(d: seq<nat>, x: nat, base: nat)
    ensures LittleVal(d + [x], base) == LittleVal(d, base) + Power(base, |d|) * x
  {
    if d == [] {
      assert [x][1..] == [];
      assert LittleVal([x], base) == x + base * LittleVal([], base);
    } else {
      assert (d + [x])[1..] == d[1..] + [x];
      ValAppend(d[1..], x, base);
      var p := Power(base, |d| - 1);
      Dist(base, LittleVal(d[1..], base), p * x);
      Assoc(base, p, x);
    }
  }

  /** One round of the first loop moves one digit across. */
  lemma StepDigit(goal: nat, done: seq<nat>, left: seq<nat>, mul: nat, carry: nat, base: nat, low: nat, high: nat)
    requires left != [] && left[0] * mul + carry == low + base * high && Across(goal, done, left, mul, base, carry)
    ensures Across(goal, done + [low], left[1..], mul, base, high)
  {
    hide Power, LittleVal;
    ValAppend(done, low, base);
    NextPower(base, |done|);
    FirstDigit(left, base);
    StepArith(LittleVal(done, base), Power(base, |done|), Power(base, |done| + 1), LittleVal(left, base), left[0],
              LittleVal(left[1..], base), mul, carry, base, low, high);
  }

  lemma FirstDigit(d: seq<nat>, base: nat)
    requires d != []
    ensures LittleVal(d, base) == d[0] + base * LittleVal(d[1..], base)
  {
  }

  lemma NextPower(base: nat, n: nat)
    ensures Power(base, n + 1) == base * Power(base, n)
  {
  }

  lemma StepArith(a: nat, p: nat, q: nat, v: nat, x: nat, rest: nat, mul: nat, carry: nat, base: nat, low: nat, high: nat)
    requires q == base * p && v == x + base * rest && x * mul + carry == low + base * high
    ensures a + p * (v * mul + carry) == a + p * low + q * (rest * mul + high)
  {
    var w := rest * mul + high;
    Dist(mul, x, base * rest);
    Assoc(base, rest, mul);
    Dist(base, rest * mul, high);
    assert v * mul + carry == low + base * w;
    Dist(p, low, base * w);
    Assoc(p, base, w);
  }

  /** One round of the second loop moves one digit out of the carry. */
  lemma PushTop(goal: nat, num: seq<nat>, mul: nat, carry: nat, base: nat, low: nat, high: nat)
    requires carry == low + base * high && Across(goal, num, [], mul, base, carry)
    ensures Across(goal, num + [low], [], mul, base, high)
  {
    hide Power, LittleVal;
    var p := Power(base, |num|);
    ValAppend(num, low, base);
    NextPower(base, |num|);
    NoValue(base);
    Dist(p, low, base * high);
    Assoc(p, base, high);
  }

  lemma NoValue(base: nat)
    ensures LittleVal([], base) == 0
  {
  }

  // ---------- the alphabet ----------

  /** Code of the character for a digit: the digits without 0, the capitals without I and O, the small
      letters without l. */
  function Code(d: nat): (c: nat)
    requires d < 58
    ensures 49 <= c <= 122
  {
    if d < 9 then 49 + d
    else if d < 17 then 65 + (d - 9)
    else if d < 22 then 74 + (d - 17)
    else if d < 33 then 80 + (d - 22)
    else if d < 44 then 97 + (d - 33)
    else 109 + (d - 44)
  }

  /** The digit whose character has this code, if any. */
  function Index(c: nat): (d: Option<nat>)
    ensures d.Some? ==> d.value < 58 && Code(d.value) == c
  {
    if 49 <= c <= 57 then Some(c - 49)
    else if 65 <= c <= 72 then Some(c - 65 + 9)
    else if 74 <= c <= 78 then Some(c - 74 + 17)
    else if 80 <= c <= 90 then Some(c - 80 + 22)
    else if 97 <= c <= 107 then Some(c - 97 + 33)
    else if 109 <= c <= 122 then Some(c - 109 + 44)
    else None
  }

  const CAPITALS: string := "123456789" + "ABCDEFGH" + "JKLMN" + "PQRSTUVWXYZ"
  const SMALL: string := "abcdefghijk" + "mnopqrstuvwxyz"
  const ALPHABET: string := CAPITALS + SMALL

  lemma CapitalCodes(d: nat)
    requires d < 33
    ensures |CAPITALS| == 33 && Code(d) == CAPITALS[d] as int
  {
  }

  lemma SmallCodes(d: nat)
    requires d < 25
    ensures |SMALL| == 25 && Code(33 + d) == SMALL[d] as int
  {
  }

  /** Each digit is written as the character at its place in the alphabet. */
  lemma CodeIs(d: nat)
    requires d < 58
    ensures |ALPHABET| == 58 && Code(d) == ALPHABET[d] as int
  {
    hide Code, CAPITALS, SMALL;
    CapitalCodes(if d < 33 then d else 0);
    SmallCodes(if d < 33 then 0 else d - 33);
  }

  /** And read from it; a code of no such character is no digit. */
  lemma IndexIs(c: nat)
    ensures |ALPHABET| == 58
    ensures forall d | 0 <= d < 58 && ALPHABET[d] as int == c :: Index(c) == Some(d)
    ensures Index(c).None? ==> forall d | 0 <= d < 58 :: ALPHABET[d] as int != c
  {
    CodeIs(0);
    hide CAPITALS, SMALL, ALPHABET;
    forall d | 0 <= d < 58 && ALPHABET[d] as int == c
      ensures Index(c) == Some(d)
    {
      CodeIs(d);
      IndexCode(d);
    }
  }

  lemma IndexCode(d: nat)
    requires d < 58
    ensures Index(Code(d)) == Some(d)
  {
  }

  function CharOf(d: nat): (c: char)
    requires d < 58
    ensures c as int == Code(d)
  {
    Code(d) as char
  }

  /** Characters are compared by the low byte of their code. */
  function LowByte(c: char): nat {
    var code: int := c as int;
    code % 256
  }

  function Text(d: seq<nat>): (s: string)
    requires InBase(d, 58)
    ensures |s| == |d|
  {
    seq(|d|, i requires 0 <= i < |d| => CharOf(d[i]))
  }

  predicate Readable(s: string) {
    forall i | 0 <= i < |s| :: Index(LowByte(s[i])).Some?
  }

  function Indices(s: string): (d: seq<nat>)
    requires Readable(s)
    ensures |d| == |s| && InBase(d, 58)
  {
    seq(|s|, i requires 0 <= i < |s| => Index(LowByte(s[i])).value)
  }

  /** Number of leading `1` characters. */
  function Ones(s: string): (n: nat)
    ensures n <= |s|
  {
    if s == "" || s[0] != '1' then 0 else 1 + Ones(s[1..])
  }

  // ---------- encoding ----------

  function EncodeSpec(bytes: seq<nat>): (s: string)
  {
    var d := Convert(bytes, 256, 58);
    assert InBase(d, 58);
    Text(d)
  }

  method Encode(bytes: seq<nat>) returns (s: string)
    requires InBase(bytes, 256)
    ensures s == EncodeSpec(bytes)
  {
    hide LittleVal, Digits, Reverse, Normal;
    var leading := CountZeros(bytes);
    var num := [];
    NoDigits(58);
    for i := 0 to |bytes|
      invariant InBase(num, 58) && Normal(num) && LittleVal(num, 58) == BigVal(bytes[..i], 256)
    {
      assert bytes[..i + 1][..i] == bytes[..i];
      num := MulAdd(num, 256, 58, bytes[i]);
    }
    assert bytes[..|bytes|] == bytes;
    NormalIsDigits(num, 58);
    s := "";
    for i := 0 to leading
      invariant s == seq(i, k => '1')
    {
      s := s + ['1'];
    }
    s := s + WriteReversed(num);
    var d := Convert(bytes, 256, 58);
    assert d == Bytes.Zeros(leading) + Reverse(num);
    assert Text(d) == seq(leading, k => '1') + Text(Reverse(num));
  }

  function WriteReversed(num: seq<nat>): (s: string)
    requires InBase(num, 58)
    ensures s == Text(Reverse(num))
  {
    seq(|num|, i requires 0 <= i < |num| => CharOf(num[|num| - 1 - i]))
  }

  lemma NoDigits(base: nat)
    ensures LittleVal([], base) == 0 && BigVal([], base) == 0 && Normal([])
  {
  }

  method CountZeros(bytes: seq<nat>) returns (n: nat)
    ensures n == Leading(bytes)
  {
    n := 0;
    assert bytes[0..] == bytes;
    while n < |bytes| && bytes[n] == 0
      invariant n <= |bytes| && Leading(bytes) == n + Leading(bytes[n..])
    {
      assert bytes[n..][1..] == bytes[n + 1..];
      n := n + 1;
    }
  }

  // ---------- decoding ----------

  function DecodeSpec(s: string): Option<seq<nat>>
  {
    if Readable(s) then Some(Bytes.Zeros(Ones(s)) + Reverse(Digits(BigVal(Indices(s), 58), 256))) else None
  }

  /** Decoding fails exactly on a character whose low byte is not in the alphabet. */
  method Decode(s: string) returns (r: Option<seq<nat>>)
    ensures r == DecodeSpec(s)
  {
    hide LittleVal, Digits, Reverse, Normal, Index;
    var leading := CountOnes(s);
    var num := [];
    NoDigits(256);
    NoDigits(58);
    for i := 0 to |s|
      invariant Readable(s[..i])
      invariant InBase(num, 256) && Normal(num) && LittleVal(num, 256) == BigVal(Indices(s[..i]), 58)
    {
      var idx := Index(LowByte(s[i]));
      if idx.None? {
        return None;
      }
      assert Indices(s[..i + 1])[..i] == Indices(s[..i]);
      num := MulAdd(num, 58, 256, idx.value);
    }
    assert s[..|s|] == s;
    NormalIsDigits(num, 256);
    return Some(Bytes.Zeros(leading) + Reverse(num));
  }

  method CountOnes(s: string) returns (n: nat)
    ensures n == Ones(s)
  {
    n := 0;
    assert s[0..] == s;
    while n < |s| && s[n] == '1'
      invariant n <= |s| && Ones(s) == n + Ones(s[n..])
    {
      assert s[n..][1..] == s[n + 1..];
      n := n + 1;
    }
  }

  // ---------- round trips ----------

  lemma {:induction false} OnesAreZeros(d: seq<nat>)
    requires InBase(d, 58)
    ensures Ones(Text(d)) == Leading(d)
  {
    if d != [] && d[0] == 0 {
      assert Text(d)[1..] == Text(d[1..]);
      OnesAreZeros(d[1..]);
    }
  }

  lemma TextReads(d: seq<nat>)
    requires InBase(d, 58)
    ensures Readable(Text(d)) && Indices(Text(d)) == d
  {
    hide Index;
    forall i | 0 <= i < |d|
      ensures Index(LowByte(Text(d)[i])) == Some(d[i])
    {
      IndexCode(d[i]);
    }
  }

  lemma ConvertInBase(d: seq<nat>, from: nat, to: nat)
    requires from > 1 && to > 1
    ensures InBase(Convert(d, from, to), to)
  {
  }

  /** Decoding inverts encoding on every byte string, leading zeros included. */
  lemma DecodeEncode(bytes: seq<nat>)
    requires InBase(bytes, 256)
    ensures DecodeSpec(EncodeSpec(bytes)) == Some(bytes)
  {
    hide Convert, Digits, Reverse, Leading, Ones;
    var d := Convert(bytes, 256, 58);
    ConvertInBase(bytes, 256, 58);
    TextReads(d);
    OnesAreZeros(d);
    ConvertBack(bytes, 256, 58);
    ConvertIs(d, 58, 256);
  }

  lemma ConvertIs(d: seq<nat>, from: nat, to: nat)
    requires from > 1 && to > 1
    ensures Convert(d, from, to) == Bytes.Zeros(Leading(d)) + Reverse(Digits(BigVal(d, from), to))
  {
  }

  predicate InAlphabet(s: string) {
    forall i | 0 <= i < |s| :: Index(s[i] as int).Some?
  }

  lemma TextInAlphabet(d: seq<nat>)
    requires InBase(d, 58)
    ensures InAlphabet(Text(d))
  {
    forall i | 0 <= i < |d|
      ensures Index(Text(d)[i] as int).Some?
    {
      IndexCode(d[i]);
    }
  }

  lemma AlphabetText(s: string)
    requires InAlphabet(s)
    ensures Readable(s) && Text(Indices(s)) == s
  {
    forall i | 0 <= i < |s|
      ensures Index(LowByte(s[i])).Some? && CharOf(Index(LowByte(s[i])).value) == s[i]
    {
      assert LowByte(s[i]) == s[i] as int;
    }
  }

  /** Encoding inverts decoding exactly on strings of alphabet characters. A character outside of it
      whose low byte is in it decodes as well, but not back. */
  lemma EncodeDecodeIff(s: string)
    requires Readable(s)
    ensures EncodeSpec(DecodeSpec(s).value) == s <==> InAlphabet(s)
  {
    hide Convert, Digits, Reverse, Leading, Ones, Index;
    var bytes := DecodeSpec(s).value;
    ConvertInBase(bytes, 256, 58);
    TextInAlphabet(Convert(bytes, 256, 58));
    if InAlphabet(s) {
      AlphabetText(s);
      var d := Indices(s);
      OnesAreZeros(d);
      ConvertIs(d, 58, 256);
      ConvertBack(d, 58, 256);
    }
  }

  /** U+0131, the dotless i, has the low byte of `1`: it decodes, to nothing at all. */
  lemma DotlessIDecodes()
    ensures DecodeSpec("\U{0131}") == Some([]) && EncodeSpec([]) == ""
  {
    var s := "\U{0131}";
    assert LowByte(s[0]) == 49;
    assert Indices(s) == [0];
    assert [0][..0] == [];
    assert BigVal([0], 58) == BigVal([], 58) * 58 + 0;
    assert Readable(s) && Ones(s) == 0;
    assert Bytes.Zeros(0) + Reverse(Digits(0, 256)) == [];
    assert Convert([], 256, 58) == [];
  }

  // ---------- the text, place by place ----------

  /** The value of digits by their places, the first one the highest. */
  function PlaceVal(d: seq<nat>, base: nat): nat {
    if d == [] then 0 else d[0] * Power(base, |d| - 1) + PlaceVal(d[1..], base)
  }

  lemma PlaceArith(x: nat, p: nat, rest: nat, last: nat, base: nat)
    ensures (x * p + rest) * base + last == x * (base * p) + (rest * base + last)
  {
    Dist(base, x * p, rest);
    Assoc(x, base, p);
    Assoc(base, x, p);
  }

  lemma {:induction false} PlaceLast(d: seq<nat>, x: nat, base: nat)
    ensures PlaceVal(d + [x], base) == PlaceVal(d, base) * base + x
  {
    if d == [] {
      assert [] + [x] == [x] && [x][1..] == [];
      assert Power(base, 0) == 1 && PlaceVal([], base) == 0;
    } else {
      PlaceLast(d[1..], x, base);
      assert (d + [x])[1..] == d[1..] + [x];
      NextPower(base, |d| - 1);
      PlaceArith(d[0], Power(base, |d| - 1), PlaceVal(d[1..], base), x, base);
    }
  }

  lemma {:induction false} BigIsPlaces(d: seq<nat>, base: nat)
    ensures BigVal(d, base) == PlaceVal(d, base)
  {
    if d != [] {
      BigIsPlaces(d[..|d| - 1], base);
      PlaceLast(d[..|d| - 1], d[|d| - 1], base);
      assert d[..|d| - 1] + [d[|d| - 1]] == d;
    }
  }

  lemma {:induction false} LeadingIs(d: seq<nat>)
    ensures forall i | 0 <= i < Leading(d) :: d[i] == 0
    ensures Leading(d) < |d| ==> d[Leading(d)] != 0
  {
    if d != [] && d[0] == 0 {
      LeadingIs(d[1..]);
    }
  }

  /** The text of a byte string, character by character: alphabet characters whose number has the value of the
      bytes, and in front as many `1` as there are zero bytes. */
  lemma EncodeIs(bytes: seq<nat>) returns (d: seq<nat>, zeros: nat)
    requires InBase(bytes, 256)
    ensures |EncodeSpec(bytes)| == |d| && |ALPHABET| == 58
    ensures forall i | 0 <= i < |d| :: d[i] < 58 && EncodeSpec(bytes)[i] == ALPHABET[d[i]]
    ensures PlaceVal(d, 58) == PlaceVal(bytes, 256)
    ensures zeros <= |bytes| && (forall i | 0 <= i < zeros :: bytes[i] == 0) && (zeros < |bytes| ==> bytes[zeros] != 0)
    ensures zeros <= |d| && (forall i | 0 <= i < zeros :: d[i] == 0) && (zeros < |d| ==> d[zeros] != 0)
  {
    hide Digits, Reverse, Leading, BigVal, PlaceVal, Code, Convert, CAPITALS, SMALL;
    CodeIs(0);
    d, zeros := Convert(bytes, 256, 58), Leading(bytes);
    ConvertInBase(bytes, 256, 58);
    ConvertParts(bytes, 256, 58);
    BigIsPlaces(d, 58);
    BigIsPlaces(bytes, 256);
    LeadingIs(bytes);
    LeadingIs(d);
    forall i | 0 <= i < |d|
      ensures EncodeSpec(bytes)[i] == ALPHABET[d[i]]
    {
      CodeIs(d[i]);
    }
  }

  /** `a`, the byte 97, is `2g`. */
  lemma KnownText()
    ensures EncodeSpec([97]) == "2g"
  {
    hide BigVal, Digits, Reverse, Leading, PlaceVal;
    ConvertIs([97], 256, 58);
    OneByte(97);
    Digits97();
    assert Reverse([39, 1]) == [1, 39];
    assert Bytes.Zeros(0) + [1, 39] == [1, 39];
  }

  lemma OneByte(x: nat)
    ensures BigVal([x], 256) == x && (x > 0 ==> Leading([x]) == 0)
  {
    assert [x][..0] == [];
    assert BigVal([], 256) == 0;
  }

  lemma Digits97()
    ensures Digits(97, 58) == [39, 1]
  {
    assert Digits(1, 58) == [1] + Digits(0, 58) && Digits(0, 58) == [];
  }

  // ---------- lengths ----------

  lemma {:induction false} DigitsAtMost(v: nat, base: nat, k: nat)
    requires base > 1 && v < Power(base, k)
    ensures |Digits(v, base)| <= k
  {
    if v > 0 {
      Euclid(v, base);
      Mono(Power(base, k - 1), v / base, base);
      DigitsAtMost(v / base, base, k - 1);
    }
  }

  lemma {:induction false} DigitsAtLeast(v: nat, base: nat)
    requires base > 1
    ensures v < Power(base, |Digits(v, base)|)
  {
    if v > 0 {
      Euclid(v, base);
      DigitsAtLeast(v / base, base);
      Mono(v / base + 1, Power(base, |Digits(v / base, base)|), base);
      Dist(base, v / base, 1);
    }
  }

  lemma {:induction false} PowerMono(a: nat, b: nat, k: nat)
    requires a <= b
    ensures Power(a, k) <= Power(b, k)
  {
    if k > 0 {
      PowerMono(a, b, k - 1);
      Mono(Power(a, k - 1), Power(b, k - 1), a);
      Mono(a, b, Power(b, k - 1));
    }
  }

  /** A smaller base needs no fewer digits. */
  lemma MoreDigits(v: nat)
    ensures |Digits(v, 256)| <= |Digits(v, 58)|
  {
    var k := |Digits(v, 58)|;
    DigitsAtLeast(v, 58);
    PowerMono(58, 256, k);
    DigitsAtMost(v, 256, k);
  }

  /** Twelve further base-58 digits make up for the smaller base, up to 32 bytes. */
  lemma {:induction false} TwelveMore(m: nat)
    requires m <= 32
    ensures Power(256, m) <= Power(58, m + 12)
    decreases 32 - m
  {
    if m == 32 {
      Eleven();
      PowerAdd(256, 8, 8);
      PowerAdd(256, 16, 16);
      PowerAdd(58, 11, 11);
      PowerAdd(58, 22, 22);
      Mono(Power(256, 8), Power(58, 11), Power(256, 8));
      Mono(Power(256, 8), Power(58, 11), Power(58, 11));
      Mono(Power(256, 16), Power(58, 22), Power(256, 16));
      Mono(Power(256, 16), Power(58, 22), Power(58, 22));
    } else {
      TwelveMore(m + 1);
      assert 256 * Power(256, m) <= 58 * Power(58, m + 12);
    }
  }

  lemma {:induction false} PowerAdd(base: nat, a: nat, b: nat)
    ensures Power(base, a + b) == Power(base, a) * Power(base, b)
  {
    if a > 0 {
      PowerAdd(base, a - 1, b);
      Assoc(base, Power(base, a - 1), Power(base, b));
    }
  }

  lemma Eleven()
    ensures Power(256, 8) <= Power(58, 11)
  {
    assert Power(256, 4) == 0x1_0000_0000;
    assert Power(256, 8) == 0x1_0000_0000_0000_0000;
    assert Power(58, 3) == 195112;
    assert Power(58, 6) == 38068692544;
    assert Power(58, 9) == 7427658739644928;
    assert Power(58, 11) == 24986644000165537792;
  }

  /** The text of a byte string is never shorter than the bytes. */
  lemma TextIsLonger(bytes: seq<nat>)
    requires InBase(bytes, 256)
    ensures |EncodeSpec(bytes)| >= |bytes|
  {
    hide Digits, Reverse, Leading, LittleVal, BigVal;
    TopDigits(bytes, 256);
    MoreDigits(BigVal(bytes, 256));
  }

  lemma TopDigits(d: seq<nat>, base: nat)
    requires base > 1 && InBase(d, base)
    ensures |Digits(BigVal(d, base), base)| == |d| - Leading(d)
  {
    hide Digits, Reverse, Leading, LittleVal, BigVal;
    var top := d[Leading(d)..];
    LeadingSplit(d, base);
    BigIsLittle(top, base);
    TopIsNormal(top);
    NormalIsDigits(Reverse(top), base);
  }

  /** 32 bytes take between 32 and 44 characters. */
  lemma PeerTextLength(bytes: seq<nat>)
    requires InBase(bytes, 256) && |bytes| == 32
    ensures 32 <= |EncodeSpec(bytes)| <= 44
  {
    hide Digits, Reverse, Leading, LittleVal, BigVal;
    TextIsLonger(bytes);
    TopDigits(bytes, 256);
    var v := BigVal(bytes, 256);
    var m := 32 - Leading(bytes);
    DigitsAtLeast(v, 256);
    TwelveMore(m);
    DigitsAtMost(v, 58, m + 12);
  }

  // ---------- peer identifiers ----------

  datatype PeerError = BadText | BadLength

  method ParsePeerId(s: string) returns (r: Result<seq<nat>, PeerError>)
    ensures r == PeerIdOf(s)
    ensures DecodeSpec(s).None? ==> r == Err(BadText)
    ensures DecodeSpec(s).Some? ==> r == if |DecodeSpec(s).value| == 32 then Ok(DecodeSpec(s).value) else Err(BadLength)
  {
    var bytes := Decode(s);
    if bytes.None? {
      return Err(BadText);
    }
    if |bytes.value| != 32 {
      return Err(BadLength);
    }
    return Ok(bytes.value);
  }

  function PeerIdOf(s: string): Result<seq<nat>, PeerError> {
    match DecodeSpec(s)
    case None => Err(BadText)
    case Some(bytes) => if |bytes| == 32 then Ok(bytes) else Err(BadLength)
  }

  /** Parsing a displayed identifier gives it back. */
  lemma ParseDisplay(id: seq<nat>)
    requires InBase(id, 256) && |id| == 32
    ensures PeerIdOf(EncodeSpec(id)) == Ok(id)
  {
    DecodeEncode(id);
  }

  /** The short form: six characters, an ellipsis, six characters. Neither cut can fall outside the text. */
  method Short(id: seq<nat>) returns (s: string)
    requires InBase(id, 256) && |id| == 32
    ensures |EncodeSpec(id)| >= 12 && s == EncodeSpec(id)[..6] + "\U{2026}" + EncodeSpec(id)[|EncodeSpec(id)| - 6..]
  {
    var text := Encode(id);
    PeerTextLength(id);
    return text[..6] + "\U{2026}" + text[|text| - 6..];
  }
}
