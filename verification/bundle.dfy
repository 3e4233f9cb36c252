/** Tensor names: which bundle a tensor belongs to, and the renumbering of blocks inside a slice. */
module Bundles {
  import opened Results
  import opened Bytes
  import opened Printing

  datatype Kind = Embed | Block(n: nat) | Head

  const BLK: seq<byte> := Text("blk.")
  const DOT: byte := 46

  /** What precedes the first dot. */
  function UpToDot(b: seq<byte>): (r: seq<byte>)
    ensures r <= b && DOT !in r
    ensures |r| < |b| ==> b[|r|] == DOT
  {
    if b == [] || b[0] == DOT then [] else [b[0]] + UpToDot(b[1..])
  }

  /** What follows the first dot, nothing if there is none. */
  function AfterDot(b: seq<byte>): seq<byte>
  {
    var head := UpToDot(b);
    if |head| == |b| then [] else b[|head| + 1..]
  }

  /** The block number in a name, if it is a block's. */
  function BlockOf(name: seq<byte>): Option<nat>
  {
    if BLK <= name then ParseU32(UpToDot(name[4..])) else None
  }

  function Classify(name: seq<byte>): Kind
  {
    if Text("token_embd") <= name then Embed
    else match BlockOf(name)
      case Some(n) => Block(n)
      case None => Head
  }

  function KindName(k: Kind): seq<byte>
  {
    match k
    case Embed => Text("embed")
    case Block(n) => BLK + Dec(n)
    case Head => Text("head")
  }

  /** Renumber a block tensor for a slice whose first layer is `start`; every other name is kept. */
  function Rename(name: seq<byte>, start: nat): seq<byte>
  {
    match BlockOf(name)
    case None => name
    case Some(n) =>
      var local := if n < start then 0 else n - start;
      var tail := AfterDot(name[4..]);
      if tail == [] then BLK + Dec(local) else BLK + Dec(local) + [DOT] + tail
  }

  // ---------- the shape of block names ----------

  /** A block name is the prefix, the digits as written, and the rest from the first dot on. */
  function FromDot(name: seq<byte>): seq<byte>
    requires BLK <= name
  {
    name[4 + |UpToDot(name[4..])|..]
  }

  lemma NameParts(name: seq<byte>)
    requires BLK <= name
    ensures name == BLK + UpToDot(name[4..]) + FromDot(name)
    ensures FromDot(name) == [] || FromDot(name) == [DOT] + AfterDot(name[4..])
    ensures FromDot(name) == [] ==> AfterDot(name[4..]) == []
  {
    assert name == BLK + name[4..];
  }

  lemma {:induction false} UpToDotJoin(a: seq<byte>, rest: seq<byte>)
    requires DOT !in a && (rest == [] || rest[0] == DOT)
    ensures UpToDot(a + rest) == a
  {
    if a == [] {
      assert a + rest == rest;
    } else {
      assert (a + rest)[1..] == a[1..] + rest;
      UpToDotJoin(a[1..], rest);
      assert [a[0]] + a[1..] == a;
    }
  }

  /** A block name put together from a number reads back as that number. */
  lemma BlockName(n: nat, rest: seq<byte>)
    requires n < U32 && (rest == [] || rest[0] == DOT)
    ensures var name := BLK + Dec(n) + rest;
            BLK <= name && BlockOf(name) == Some(n) && UpToDot(name[4..]) == Dec(n) && FromDot(name) == rest
  {
    var name := BLK + Dec(n) + rest;
    assert name[4..] == Dec(n) + rest;
    UpToDotJoin(Dec(n), rest);
    ParseDec(n);
  }

  /** The rest of a renumbered name: a bare trailing dot is lost. */
  function Kept(name: seq<byte>): seq<byte>
    requires BLK <= name
  {
    if FromDot(name) == [DOT] then [] else FromDot(name)
  }

  lemma RenameShape(name: seq<byte>, start: nat)
    requires BlockOf(name).Some?
    ensures var n := BlockOf(name).value;
            Rename(name, start) == BLK + Dec(if n < start then 0 else n - start) + Kept(name)
  {
    NameParts(name);
  }

  // ---------- renumbering is reversible ----------

  /** Add the slice's first layer back to the block number. */
  function Restore(name: seq<byte>, start: nat): seq<byte>
  {
    match BlockOf(name)
    case None => name
    case Some(n) => BLK + Dec(n + start) + FromDot(name)
  }

  /** A name as the format's own tools write it: no sign and no leading zero in the block number, and
      something behind the dot. */
  predicate CanonicalName(name: seq<byte>)
  {
    BlockOf(name).Some? ==> Canonical(UpToDot(name[4..])) && FromDot(name) != [DOT]
  }

  /** Renumbering a block of the slice moves it to its place in the slice. */
  lemma RenameBlock(name: seq<byte>, start: nat)
    requires BlockOf(name).Some? && start <= BlockOf(name).value
    ensures BlockOf(Rename(name, start)) == Some(BlockOf(name).value - start)
    ensures FromDot(Rename(name, start)) == Kept(name)
  {
    RenameShape(name, start);
    BlockName(BlockOf(name).value - start, Kept(name));
  }

  /** The parts of a block name determine it and are determined by it. */
  lemma SameParts(a: seq<byte>, b: seq<byte>, x: seq<byte>, y: seq<byte>)
    requires DOT !in a && DOT !in b && (x == [] || x[0] == DOT) && (y == [] || y[0] == DOT)
    ensures BLK + a + x == BLK + b + y <==> a == b && x == y
  {
    if BLK + a + x == BLK + b + y {
      assert a + x == (BLK + a + x)[4..] == (BLK + b + y)[4..] == b + y;
      UpToDotJoin(a, x);
      UpToDotJoin(b, y);
      assert x == (a + x)[|a|..] && y == (b + y)[|b|..];
    }
  }

  lemma BackName(name: seq<byte>, start: nat)
    requires BlockOf(name).Some? && start <= BlockOf(name).value
    ensures Restore(Rename(name, start), start) == BLK + Dec(BlockOf(name).value) + Kept(name)
  {
    hide Rename, BlockOf, FromDot, Kept, Dec;
    RenameBlock(name, start);
  }

  /** Adding the slice start back recovers a name exactly when it was canonical. */
  lemma RestoreRename(name: seq<byte>, start: nat)
    requires BlockOf(name).Some? ==> start <= BlockOf(name).value
    ensures Restore(Rename(name, start), start) == name <==> CanonicalName(name)
  {
    hide Dec, ParseU32, Canonical, UpToDot, AfterDot;
    if BlockOf(name).Some? {
      hide Rename, Restore;
      BackName(name, start);
      NameParts(name);
      DecParse(UpToDot(name[4..]));
      SameParts(Dec(BlockOf(name).value), UpToDot(name[4..]), Kept(name), FromDot(name));
    }
  }

  /** Canonical names stay distinct. */
  lemma RenameInjective(a: seq<byte>, b: seq<byte>, start: nat)
    requires CanonicalName(a) && CanonicalName(b) && Rename(a, start) == Rename(b, start)
    requires BlockOf(a).Some? ==> start <= BlockOf(a).value
    requires BlockOf(b).Some? ==> start <= BlockOf(b).value
    ensures a == b
  {
    RestoreRename(a, start);
    RestoreRename(b, start);
  }

  lemma OneMoreDigit(b: seq<byte>, x: byte)
    requires AllDigits(b) && IsDigit(x)
    ensures AllDigits(b + [x]) && Digits(b + [x]) == Digits(b) * 10 + DigitValue(x)
  {
    assert (b + [x])[..|b|] == b;
  }

  /** Renumbering a name put together from the digits of a number. */
  lemma RenameParts(d: seq<byte>, rest: seq<byte>)
    requires ParseU32(d).Some? && DOT !in d && |rest| > 1 && rest[0] == DOT
    ensures Rename(BLK + d + rest, 0) == BLK + Dec(ParseU32(d).value) + rest
  {
    hide ParseU32, Dec, UpToDot;
    var name := BLK + d + rest;
    assert BLK <= name && name[4..] == d + rest;
    UpToDotJoin(d, rest);
    assert (d + rest)[|d| + 1..] == rest[1..];
    assert [DOT] + rest[1..] == rest;
    var n := Dec(ParseU32(d).value);
    assert BLK + n + [DOT] + rest[1..] == BLK + n + ([DOT] + rest[1..]);
  }

  /** Other names need not: `1` and `01` are one block number, so with anything behind them they collide. */
  lemma RenameCollides(rest: seq<byte>)
    requires |rest| > 1 && rest[0] == DOT
    ensures var a, b := BLK + [49] + rest, BLK + [48, 49] + rest;
            a != b && Rename(a, 0) == Rename(b, 0)
  {
    hide Rename, Digits;
    OneMoreDigit([], 49);
    OneMoreDigit([], 48);
    OneMoreDigit([48], 49);
    assert [] + [49] == [49] && [] + [48] == [48] && [48] + [49] == [48, 49];
    NoDigitsAtAll();
    RenameParts([49], rest);
    RenameParts([48, 49], rest);
  }

  lemma NoDigitsAtAll()
    ensures Digits([]) == 0
  {
  }

  // ---------- renumbered names can be printed ----------

  function Pow10(k: nat): nat {
    if k == 0 then 1 else 10 * Pow10(k - 1)
  }

  lemma {:induction false} DigitsBound(b: seq<byte>)
    requires AllDigits(b)
    ensures Digits(b) < Pow10(|b|)
  {
    if b != [] {
      DigitsBound(b[..|b| - 1]);
    }
  }

  lemma {:induction false} DecLength(n: nat, k: nat)
    requires n < Pow10(k) && k > 0
    ensures |Dec(n)| <= k
  {
    if n >= 10 {
      DecLength(n / 10, k - 1);
    }
  }

  /** A parsed number prints no longer than it was written, and so does any smaller one. */
  lemma ParsedDigits(d: seq<byte>, m: nat)
    requires ParseU32(d).Some? && m <= ParseU32(d).value
    ensures IsAscii(d) && |Dec(m)| <= |d|
  {
    var digits := Unsigned(d);
    DigitsBound(digits);
    DecLength(m, |digits|);
    assert d == digits || d == [43] + digits;
  }

  lemma RestUtf8(name: seq<byte>)
    requires Utf8(name) && BlockOf(name).Some?
    ensures Utf8(Kept(name))
  {
    hide Utf8, ParseU32, UpToDot, AfterDot;
    var d := UpToDot(name[4..]);
    NameParts(name);
    ParsedDigits(d, BlockOf(name).value);
    AsciiPrefix(BLK + d, FromDot(name));
    EmptyUtf8();
  }

  /** A renumbered name is still valid text, and no longer than before. */
  lemma RenameGoodText(name: seq<byte>, start: nat)
    requires GoodText(name)
    ensures GoodText(Rename(name, start)) && |Rename(name, start)| <= |name|
  {
    hide Dec, ParseU32, Utf8, Rename, FromDot, UpToDot, AfterDot;
    if BlockOf(name).Some? {
      var n := BlockOf(name).value;
      var local := if n < start then 0 else n - start;
      RenameShape(name, start);
      NameParts(name);
      ParsedDigits(UpToDot(name[4..]), local);
      RestUtf8(name);
      AsciiPrefix(BLK + Dec(local), Kept(name));
    } else {
      KeepsOthers(name, start);
    }
  }

  lemma KeepsOthers(name: seq<byte>, start: nat)
    requires BlockOf(name).None?
    ensures Rename(name, start) == name
  {
  }

  lemma EmptyUtf8()
    ensures Utf8([])
  {
  }
}
