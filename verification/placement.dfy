/** Which slice of a cut a tensor ends up in, read off the bytes of its name. */
module Placement {
  import opened Results
  import opened Bytes
  import opened Gguf
  import opened Bundles
  import opened Routing
  import opened Stitching
  import opened Slices

  /** `token_embd` */
  const TOKEN_EMBD: seq<byte> := [116, 111, 107, 101, 110, 95, 101, 109, 98, 100]

  /** `blk.` */
  const BLK_DOT: seq<byte> := [98, 108, 107, 46]

  lemma Names()
    ensures Text("token_embd") == TOKEN_EMBD && BLK == BLK_DOT && DOT == 46
  {
  }

  /** The names of the bundles: `embed`, `head`, and `blk.` with a number. */
  lemma KindNames(n: nat)
    ensures KindName(Embed) == [101, 109, 98, 101, 100] && KindName(Head) == [104, 101, 97, 100]
    ensures KindName(Block(n)) == [98, 108, 107, 46] + Dec(n)
  {
    Names();
  }

  predicate Decimal(d: seq<byte>) {
    forall i | 0 <= i < |d| :: 48 <= d[i] <= 57
  }

  /** The value of decimal digits, place by place. */
  function Places(d: seq<byte>): nat
    requires Decimal(d)
  {
    if d == [] then 0
    else
      var first: nat := d[0] - 48;
      first * Pow10(|d| - 1) + Places(d[1..])
  }

  function NoSign(d: seq<byte>): seq<byte> {
    if d != [] && d[0] == 43 then d[1..] else d
  }

  /** What the program reads as a number: digits, after an optional plus sign, of a value below 2^32. */
  predicate Number(d: seq<byte>) {
    NoSign(d) != [] && Decimal(NoSign(d)) && Places(NoSign(d)) < 0x1_0000_0000
  }

  /** A block's number stands between the prefix and the first dot, or the end. */
  predicate BlockShape(name: seq<byte>, d: seq<byte>, rest: seq<byte>) {
    name == BLK_DOT + d + rest && 46 !in d && (rest == [] || rest[0] == 46)
  }

  lemma Tens(n: nat)
    ensures Pow10(n + 1) == 10 * Pow10(n) && Pow10(0) == 1
  {
  }

  lemma Shift(x: nat, p: nat, rest: nat, last: nat)
    ensures (x * p + rest) * 10 + last == x * (10 * p) + (rest * 10 + last)
  {
  }

  lemma {:induction false} PlacesLast(d: seq<byte>, x: byte)
    requires Decimal(d) && 48 <= x <= 57
    ensures Decimal(d + [x])
    ensures var last: nat := x - 48; Places(d + [x]) == Places(d) * 10 + last
  {
    var last: nat := x - 48;
    if d == [] {
      assert [] + [x] == [x];
      Tens(0);
    } else {
      PlacesLast(d[1..], x);
      assert (d + [x])[1..] == d[1..] + [x];
      Tens(|d| - 1);
      var first: nat := d[0] - 48;
      Shift(first, Pow10(|d| - 1), Places(d[1..]), last);
    }
  }

  lemma {:induction false} DigitsArePlaces(d: seq<byte>)
    requires Decimal(d)
    ensures AllDigits(d) && Digits(d) == Places(d)
  {
    if d != [] {
      DigitsArePlaces(d[..|d| - 1]);
      PlacesLast(d[..|d| - 1], d[|d| - 1]);
      assert d[..|d| - 1] + [d[|d| - 1]] == d;
    }
  }

  lemma ParsesNumbers(d: seq<byte>)
    ensures ParseU32(d).Some? <==> Number(d)
    ensures Number(d) ==> ParseU32(d).value == Places(NoSign(d))
  {
    if Decimal(NoSign(d)) {
      DigitsArePlaces(NoSign(d));
    }
  }

  /** A number is printed with its own digits. */
  lemma DecPlaces(n: nat)
    ensures Decimal(Dec(n)) && Places(Dec(n)) == n
  {
    DigitsDec(n);
    DigitsArePlaces(Dec(n));
  }

  lemma ShapeParts(name: seq<byte>, d: seq<byte>, rest: seq<byte>)
    requires BlockShape(name, d, rest)
    ensures BLK <= name && UpToDot(name[4..]) == d && !(TOKEN_EMBD <= name)
  {
    Names();
    assert name[4..] == d + rest;
    UpToDotJoin(d, rest);
    assert name[0] == 98;
  }

  /** The routing of a tensor, by the bytes of its name. */
  lemma ClassifyIs(name: seq<byte>, d: seq<byte>, rest: seq<byte>)
    ensures TOKEN_EMBD <= name ==> Classify(name) == Embed
    ensures !(TOKEN_EMBD <= name) && !(BLK_DOT <= name) ==> Classify(name) == Head
    ensures BlockShape(name, d, rest) ==>
      Classify(name) == if Number(d) then Block(Places(NoSign(d))) else Head
  {
    hide ParseU32, UpToDot, Number, Places, BlockShape;
    Names();
    if BlockShape(name, d, rest) {
      ShapeParts(name, d, rest);
      ParsesNumbers(d);
    }
  }

  /** Renumbering, by the bytes of the name: the number goes down by the slice's start, not below zero, and what
      follows it stays, but for a dot with nothing behind it. Every other name is kept. */
  lemma RenameIs(name: seq<byte>, d: seq<byte>, rest: seq<byte>, start: nat)
    ensures BlockShape(name, d, rest) && Number(d) ==>
      var n := Places(NoSign(d));
      Rename(name, start) == BLK_DOT + Dec(if n < start then 0 else n - start) + if rest == [46] then [] else rest
    ensures BlockShape(name, d, rest) && !Number(d) ==> Rename(name, start) == name
    ensures !(BLK_DOT <= name) ==> Rename(name, start) == name
  {
    hide ParseU32, Number, Places, Dec;
    Names();
    if BlockShape(name, d, rest) {
      ShapeParts(name, d, rest);
      ParsesNumbers(d);
      NameParts(name);
      assert name == BLK_DOT + d + FromDot(name);
      SameParts(d, d, rest, FromDot(name));
      if Number(d) {
        RenameShape(name, start);
      }
    }
  }

  /** The stitcher's reading of a bundle's name, by its bytes. */
  lemma IncludesIs(r: Range, name: seq<byte>, d: seq<byte>)
    ensures name == [101, 109, 98, 101, 100] ==> Includes(r, name) == Ok(r.embed)
    ensures name == [104, 101, 97, 100] ==> Includes(r, name) == Ok(r.head)
    ensures name == BLK_DOT + d ==>
      Includes(r, name) == if Number(d) then Ok(r.start <= Places(NoSign(d)) < r.end) else Err(BadBundleName)
    ensures name != [101, 109, 98, 101, 100] && name != [104, 101, 97, 100] && !(BLK_DOT <= name) ==>
      Includes(r, name) == Err(UnknownBundle)
  {
    hide ParseU32, Number, Places, Dec;
    Names();
    KindNames(0);
    if name == BLK_DOT + d {
      assert BLK <= name && name[4..] == d && name[0] == 98;
      ParsesNumbers(d);
    }
  }

  // ---------- in which slice ----------

  /** A tensor is in exactly the slice that takes its kind. */
  lemma Placed(ts: seq<Tensor>, c: seq<nat>, i: nat, j: nat)
    requires i < |ts| && forall s | 0 <= s < |c| - 1 :: TakesKind(SliceOf(c, s), Classify(ts[i].name)) <==> s == j
    ensures OnlyIn(ts, c, i, j)
  {
    hide SliceIdx, TakesKind, Classify, SliceOf;
    assert KindsOf(ts)[i] == Classify(ts[i].name);
    forall s | 0 <= s < |c| - 1
      ensures Copies(ts, c, s, i) == if s == j then 1 else 0
    {
      SliceIdxCounts(ts, SliceOf(c, s), i);
    }
  }

  /** The token embedding is in the first slice only. */
  lemma EmbeddingGoesFirst(ts: seq<Tensor>, c: seq<nat>, i: nat)
    requires i < |ts| && TOKEN_EMBD <= ts[i].name
    ensures OnlyIn(ts, c, i, 0)
  {
    hide Classify, OnlyIn;
    ClassifyIs(ts[i].name, [], []);
    Placed(ts, c, i, 0);
  }

  /** Whatever is neither an embedding nor named as a block is in the last slice only. */
  lemma OthersGoLast(ts: seq<Tensor>, c: seq<nat>, i: nat)
    requires i < |ts| && |c| >= 2 && !(TOKEN_EMBD <= ts[i].name) && !(BLK_DOT <= ts[i].name)
    ensures OnlyIn(ts, c, i, |c| - 2)
  {
    hide Classify, OnlyIn;
    ClassifyIs(ts[i].name, [], []);
    Placed(ts, c, i, |c| - 2);
  }

  /** So is a tensor named as a block whose number cannot be read. */
  lemma UnreadableGoesLast(ts: seq<Tensor>, c: seq<nat>, i: nat, d: seq<byte>, rest: seq<byte>)
    requires i < |ts| && |c| >= 2 && BlockShape(ts[i].name, d, rest) && !Number(d)
    ensures OnlyIn(ts, c, i, |c| - 2)
  {
    hide Classify, OnlyIn;
    ClassifyIs(ts[i].name, d, rest);
    Placed(ts, c, i, |c| - 2);
  }

  /** Any other block is in the slice whose range its number falls into, and only there. */
  lemma BlockGoesToItsRange(ts: seq<Tensor>, c: seq<nat>, nLayers: nat, i: nat, j: nat, d: seq<byte>, rest: seq<byte>)
    requires i < |ts| && Cut(c, nLayers) && j + 1 < |c| && BlockShape(ts[i].name, d, rest) && Number(d)
    requires c[j] <= Places(NoSign(d)) < c[j + 1]
    ensures OnlyIn(ts, c, i, j)
  {
    hide Classify, OnlyIn, Number, Places;
    ClassifyIs(ts[i].name, d, rest);
    forall s | 0 <= s < |c| - 1
      ensures TakesKind(SliceOf(c, s), Classify(ts[i].name)) <==> s == j
    {
      if s < j {
        assert c[s + 1] <= c[j];
      } else if s > j {
        assert c[j + 1] <= c[s];
      }
    }
    Placed(ts, c, i, j);
  }
}
