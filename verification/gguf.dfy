/** The GGUF version 3 container: its grammar, the printer that inverts it, and the derived tensor
    sizes. */
module Gguf {
  import opened Results
  import opened Bytes

  const MAGIC: seq<byte> := [0x47, 0x47, 0x55, 0x46]
  const VERSION: nat := 3
  const DEFAULT_ALIGNMENT: nat := 32
  const MAX_TENSORS: nat := 0x10_0000
  const MAX_KV: nat := 0x1_0000
  const MAX_DIMS: nat := 8

  const TY_U32: nat := 4
  const TY_BOOL: nat := 7
  const TY_STRING: nat := 8
  const TY_ARRAY: nat := 9
  const TY_LAST: nat := 12

  datatype GgufError =
    | Short | BadMagic | BadVersion | TooManyTensors | TooManyKvs | TooManyDims
    | BadUtf8 | UnknownKvType | NestedArray

  type Parse<T> = Result<T, GgufError>

  /** A metadata entry; the value is kept as the bytes it was written as. */
  datatype Kv = Kv(key: seq<byte>, ty: nat, value: seq<byte>)

  /** A tensor index entry. The source reinterprets each dimension as signed; the bits are the same. */
  datatype Tensor = Tensor(name: seq<byte>, shape: seq<nat>, dtype: nat, offset: nat)

  // ---------- the grammar ----------

  /** Size of a scalar; strings and arrays have none. */
  function ScalarSize(ty: nat): nat
    requires ty <= TY_LAST && ty != TY_STRING && ty != TY_ARRAY
  {
    if ty == 0 || ty == 1 || ty == 7 then 1 else if ty == 2 || ty == 3 then 2 else if ty <= 6 then 4 else 8
  }

  /** Length of the length-prefixed string `b` starts with. */
  function StringLen(b: seq<byte>): (r: Parse<nat>)
    ensures r.Ok? ==> 8 <= r.value <= |b|
  {
    if |b| < 8 then Err(Short)
    else if 8 + Val(b[..8]) > |b| then Err(Short)
    else Ok(8 + Val(b[..8]))
  }

  function StringsLen(b: seq<byte>, n: nat): (r: Parse<nat>)
    ensures r.Ok? ==> r.value <= |b|
    decreases n
  {
    if n == 0 then Ok(0)
    else
      var s :- StringLen(b);
      var rest :- StringsLen(b[s..], n - 1);
      Ok(s + rest)
  }

  /** Length of the array `b` starts with. The size of its elements is a 64-bit product, which wraps. */
  function ArrayLen(b: seq<byte>): (r: Parse<nat>)
    ensures r.Ok? ==> r.value <= |b|
  {
    if |b| < 4 then Err(Short)
    else if Val(b[..4]) > TY_LAST then Err(UnknownKvType)
    else if |b| < 12 then Err(Short)
    else if Val(b[..4]) == TY_STRING then
      var body :- StringsLen(b[12..], Val(b[4..12]));
      Ok(12 + body)
    else if Val(b[..4]) == TY_ARRAY then Err(NestedArray)
    else
      var body := (ScalarSize(Val(b[..4])) * Val(b[4..12])) % U64;
      if 12 + body > |b| then Err(Short) else Ok(12 + body)
  }

  /** The length of an array of scalars is the true one exactly when the product of element size and count
      does not wrap to something that fits. */
  lemma ArrayLenIff(b: seq<byte>)
    requires |b| >= 12 && Val(b[..4]) <= TY_LAST && Val(b[..4]) != TY_STRING && Val(b[..4]) != TY_ARRAY
    ensures var body := ScalarSize(Val(b[..4])) * Val(b[4..12]);
            (ArrayLen(b) == if 12 + body > |b| then Err(Short) else Ok(12 + body))
            <==> (body < U64 || 12 + body % U64 > |b|)
  {
    var body := ScalarSize(Val(b[..4])) * Val(b[4..12]);
    if body < U64 {
      assert body % U64 == body;
    } else {
      assert body % U64 < U64;
    }
  }

  /** An array that claims 2^61 eight-byte elements is taken to have none. */
  lemma WrappedArray(rest: seq<byte>)
    ensures ArrayLen(Le(4, TY_LAST) + Le(8, 0x2000_0000_0000_0000) + rest) == Ok(12)
  {
    hide Val, Le;
    var b := Le(4, TY_LAST) + Le(8, 0x2000_0000_0000_0000) + rest;
    ReadsBack(TY_LAST);
    ReadsBack(0x2000_0000_0000_0000);
    assert b[..4] == Le(4, TY_LAST) && b[4..12] == Le(8, 0x2000_0000_0000_0000);
  }

  /** Length of the value of type `ty` that `b` starts with. */
  function ValueLen(ty: nat, b: seq<byte>): (r: Parse<nat>)
    requires ty <= TY_LAST
    ensures r.Ok? ==> r.value <= |b|
  {
    if ty == TY_STRING then StringLen(b)
    else if ty == TY_ARRAY then ArrayLen(b)
    else if ScalarSize(ty) > |b| then Err(Short)
    else Ok(ScalarSize(ty))
  }

  /** Length of the UTF-8 text `b` starts with. */
  function TextLen(b: seq<byte>): (r: Parse<nat>)
    ensures r.Ok? ==> 8 <= r.value <= |b|
  {
    var n :- StringLen(b);
    if Utf8(b[8..n]) then Ok(n) else Err(BadUtf8)
  }

  /** The metadata entry `b` starts with, and its length. */
  function ParseKv(b: seq<byte>): (r: Parse<(Kv, nat)>)
    ensures r.Ok? ==> r.value.1 <= |b|
  {
    var k :- TextLen(b);
    if |b| < k + 4 then Err(Short)
    else if Val(b[k..k + 4]) > TY_LAST then Err(UnknownKvType)
    else
      var v :- ValueLen(Val(b[k..k + 4]), b[k + 4..]);
      Ok((Kv(b[8..k], Val(b[k..k + 4]), b[k + 4..k + 4 + v]), k + 4 + v))
  }

  function ParseKvs(b: seq<byte>, n: nat): (r: Parse<(seq<Kv>, nat)>)
    ensures r.Ok? ==> |r.value.0| == n && r.value.1 <= |b|
    decreases n
  {
    if n == 0 then Ok(([], 0))
    else
      var head :- ParseKv(b);
      var rest :- ParseKvs(b[head.1..], n - 1);
      Ok(([head.0] + rest.0, head.1 + rest.1))
  }

  /** `n` dimensions, dtype and offset. */
  function ParseDims(b: seq<byte>, n: nat): (shape: seq<nat>)
    requires 8 * n <= |b|
    ensures |shape| == n
    decreases n
  {
    if n == 0 then [] else [Val(b[..8])] + ParseDims(b[8..], n - 1)
  }

  function ParseTensor(b: seq<byte>): (r: Parse<(Tensor, nat)>)
    ensures r.Ok? ==> r.value.1 <= |b|
  {
    var k :- TextLen(b);
    if |b| < k + 4 then Err(Short)
    else
      var n := Val(b[k..k + 4]);
      var d := k + 4 + 8 * n;
      if n > MAX_DIMS then Err(TooManyDims)
      else if |b| < d + 12 then Err(Short)
      else Ok((Tensor(b[8..k], ParseDims(b[k + 4..], n), Val(b[d..d + 4]), Val(b[d + 4..d + 12])), d + 12))
  }

  function ParseTensors(b: seq<byte>, n: nat): (r: Parse<(seq<Tensor>, nat)>)
    ensures r.Ok? ==> |r.value.0| == n && r.value.1 <= |b|
    decreases n
  {
    if n == 0 then Ok(([], 0))
    else
      var head :- ParseTensor(b);
      var rest :- ParseTensors(b[head.1..], n - 1);
      Ok(([head.0] + rest.0, head.1 + rest.1))
  }

  /** Everything before the tensor data. */
  datatype Header = Header(kvs: seq<Kv>, tensors: seq<Tensor>, kvEnd: nat, indexEnd: nat)

  function ParseCounts(b: seq<byte>): (r: Parse<(nat, nat)>)
    ensures r.Ok? ==> |b| >= 24
  {
    if |b| < 4 then Err(Short)
    else if b[..4] != MAGIC then Err(BadMagic)
    else if |b| < 8 then Err(Short)
    else if Val(b[4..8]) != VERSION then Err(BadVersion)
    else if |b| < 24 then Err(Short)
    else if Val(b[8..16]) > MAX_TENSORS then Err(TooManyTensors)
    else if Val(b[16..24]) > MAX_KV then Err(TooManyKvs)
    else Ok((Val(b[8..16]), Val(b[16..24])))
  }

  function ParseHeader(b: seq<byte>): (r: Parse<Header>)
    ensures r.Ok? ==> 24 <= r.value.kvEnd <= r.value.indexEnd <= |b|
  {
    var counts :- ParseCounts(b);
    var kvs :- ParseKvs(b[24..], counts.1);
    var tensors :- ParseTensors(b[24 + kvs.1..], counts.0);
    Ok(Header(kvs.0, tensors.0, 24 + kvs.1, 24 + kvs.1 + tensors.1))
  }

  // ---------- alignment ----------

  const ALIGNMENT_KEY: seq<byte> := Text("general.alignment")

  predicate SetsAlignment(kv: Kv) {
    kv.key == ALIGNMENT_KEY && kv.ty == TY_U32
  }

  /** The alignment the metadata asks for: the last 32-bit entry wins. */
  function AlignmentOf(kvs: seq<Kv>): nat
  {
    if kvs == [] then DEFAULT_ALIGNMENT
    else
      var last := kvs[|kvs| - 1];
      if SetsAlignment(last) then Val(last.value) else AlignmentOf(kvs[..|kvs| - 1])
  }

  lemma AlignmentStep(kvs: seq<Kv>, kv: Kv)
    ensures AlignmentOf(kvs + [kv]) == if SetsAlignment(kv) then Val(kv.value) else AlignmentOf(kvs)
  {
    assert (kvs + [kv])[..|kvs|] == kvs;
  }

  function AlignUp(offset: nat, alignment: nat): (r: nat)
    ensures offset <= r
  {
    if alignment == 0 then offset
    else if offset % alignment == 0 then offset
    else offset + (alignment - offset % alignment)
  }

  lemma Aligned(offset: nat, alignment: nat)
    requires alignment > 0
    ensures AlignUp(offset, alignment) % alignment == 0 && AlignUp(offset, alignment) < offset + alignment
  {
    var q, rem := offset / alignment, offset % alignment;
    assert offset == q * alignment + rem;
    if rem != 0 {
      assert AlignUp(offset, alignment) == (q + 1) * alignment;
      DivUnique(AlignUp(offset, alignment), q + 1, 0, alignment);
    }
  }

  lemma AddBase(base: nat, x: nat, a: nat)
    requires a > 0 && base % a == 0
    ensures (base + x) % a == x % a
  {
    var k, q, rem := base / a, x / a, x % a;
    assert base == k * a && x == q * a + rem;
    assert base + x == (k + q) * a + rem;
    assert (k + q) * a + rem - rem == (k + q) * a;
    DivUnique(base + x, k + q, rem, a);
  }

  lemma DivUnique(x: nat, q: nat, rem: nat, a: nat)
    requires x == q * a + rem && rem < a
    ensures x % a == rem
  {
    var d: int := x / a - q;
    assert x == (x / a) * a + x % a;
    assert d * a == (rem as int) - x % a;
    NoSmallMultiple(d, a);
  }

  lemma NoSmallMultiple(d: int, a: nat)
    requires a > 0
    ensures d >= 1 ==> d * a >= a
    ensures d <= -1 ==> d * a + a <= 0
  {
  }

  /** Aligning past an aligned base is aligning the rest. */
  lemma AlignPastBase(base: nat, x: nat, a: nat)
    requires a > 0 && base % a == 0
    ensures AlignUp(base + x, a) == base + AlignUp(x, a)
  {
    AddBase(base, x, a);
  }

  // ---------- records parse the same wherever they stand ----------

  /** `c` starts with the `n` bytes `b` starts with. */
  predicate SameStart(b: seq<byte>, c: seq<byte>, n: nat)
  {
    n <= |b| && n <= |c| && b[..n] == c[..n]
  }

  lemma SameStartFrom(b: seq<byte>, c: seq<byte>, n: nat, k: nat, m: nat)
    requires SameStart(b, c, n) && k + m <= n
    ensures SameStart(b[k..], c[k..], m)
    ensures b[k..k + m] == c[k..k + m]
  {
    assert b[k..][..m] == b[..n][k..k + m] && c[k..][..m] == c[..n][k..k + m];
    assert b[k..k + m] == b[k..][..m] && c[k..k + m] == c[k..][..m];
  }

  lemma StringLenStart(b: seq<byte>, c: seq<byte>, n: nat)
    requires StringLen(b).Ok? && StringLen(b).value <= n && SameStart(b, c, n)
    ensures StringLen(c) == StringLen(b)
  {
    SameStartFrom(b, c, n, 0, 8);
    assert b[0..8] == b[..8] && c[0..8] == c[..8];
  }

  lemma {:induction false} StringsLenStart(b: seq<byte>, c: seq<byte>, k: nat, n: nat)
    requires StringsLen(b, k).Ok? && StringsLen(b, k).value <= n && SameStart(b, c, n)
    ensures StringsLen(c, k) == StringsLen(b, k)
    decreases k
  {
    if k > 0 {
      hide SameStart, StringLen;
      var s := StringLen(b).value;
      SameStartFrom(b, c, n, s, n - s);
      StringLenStart(b, c, n);
      StringsLenStart(b[s..], c[s..], k - 1, n - s);
    }
  }

  lemma ValueLenStart(ty: nat, b: seq<byte>, c: seq<byte>, n: nat)
    requires ty <= TY_LAST && ValueLen(ty, b).Ok? && ValueLen(ty, b).value <= n && SameStart(b, c, n)
    ensures ValueLen(ty, c) == ValueLen(ty, b)
  {
    if ty == TY_STRING {
      StringLenStart(b, c, n);
    } else if ty == TY_ARRAY {
      SameStartFrom(b, c, n, 0, 4);
      assert b[0..4] == b[..4] && c[0..4] == c[..4];
      SameStartFrom(b, c, n, 4, 8);
      if Val(b[..4]) == TY_STRING {
        SameStartFrom(b, c, n, 12, n - 12);
        StringsLenStart(b[12..], c[12..], Val(b[4..12]), n - 12);
      }
    }
  }

  lemma TextLenStart(b: seq<byte>, c: seq<byte>, n: nat)
    requires TextLen(b).Ok? && TextLen(b).value <= n && SameStart(b, c, n)
    ensures TextLen(c) == TextLen(b)
    ensures b[8..TextLen(b).value] == c[8..TextLen(b).value]
  {
    StringLenStart(b, c, n);
    SameStartFrom(b, c, n, 8, TextLen(b).value - 8);
  }

  /** A metadata entry is the same entry at any offset in any file. */
  lemma ParseKvStart(b: seq<byte>, c: seq<byte>, n: nat)
    requires ParseKv(b).Ok? && ParseKv(b).value.1 <= n && SameStart(b, c, n)
    ensures ParseKv(c) == ParseKv(b)
  {
    hide TextLen, ValueLen, SameStart;
    var k, v := TextLen(b).value, ParseKv(b).value.1;
    TextLenStart(b, c, n);
    SameStartFrom(b, c, n, k, 4);
    SameStartFrom(b, c, n, k + 4, n - k - 4);
    ValueLenStart(Val(b[k..k + 4]), b[k + 4..], c[k + 4..], n - k - 4);
    SameStartFrom(b, c, n, k + 4, v - k - 4);
  }

  lemma {:induction false} ParseDimsStart(b: seq<byte>, c: seq<byte>, k: nat)
    requires SameStart(b, c, 8 * k)
    ensures ParseDims(b, k) == ParseDims(c, k)
    decreases k
  {
    if k > 0 {
      SameStartFrom(b, c, 8 * k, 0, 8);
      assert b[0..8] == b[..8] && c[0..8] == c[..8];
      SameStartFrom(b, c, 8 * k, 8, 8 * (k - 1));
      ParseDimsStart(b[8..], c[8..], k - 1);
    }
  }

  lemma ParseTensorStart(b: seq<byte>, c: seq<byte>, n: nat)
    requires ParseTensor(b).Ok? && ParseTensor(b).value.1 <= n && SameStart(b, c, n)
    ensures ParseTensor(c) == ParseTensor(b)
  {
    hide TextLen, ParseDims;
    var k := TextLen(b).value;
    TextLenStart(b, c, n);
    SameStartFrom(b, c, n, k, 4);
    var dims := Val(b[k..k + 4]);
    var d := k + 4 + 8 * dims;
    SameStartFrom(b, c, n, k + 4, 8 * dims);
    ParseDimsStart(b[k + 4..], c[k + 4..], dims);
    SameStartFrom(b, c, n, d, 4);
    SameStartFrom(b, c, n, d + 4, 8);
  }

  lemma {:induction false} ParseKvsStart(b: seq<byte>, c: seq<byte>, k: nat, n: nat)
    requires ParseKvs(b, k).Ok? && ParseKvs(b, k).value.1 <= n && SameStart(b, c, n)
    ensures ParseKvs(c, k) == ParseKvs(b, k)
    decreases k
  {
    hide ParseKv, SameStart;
    if k > 0 {
      var s := ParseKv(b).value.1;
      SameStartFrom(b, c, n, s, n - s);
      ParseKvStart(b, c, n);
      ParseKvsStart(b[s..], c[s..], k - 1, n - s);
    }
  }

  lemma {:induction false} ParseTensorsStart(b: seq<byte>, c: seq<byte>, k: nat, n: nat)
    requires ParseTensors(b, k).Ok? && ParseTensors(b, k).value.1 <= n && SameStart(b, c, n)
    ensures ParseTensors(c, k) == ParseTensors(b, k)
    decreases k
  {
    hide ParseTensor, SameStart;
    if k > 0 {
      var s := ParseTensor(b).value.1;
      SameStartFrom(b, c, n, s, n - s);
      ParseTensorStart(b, c, n);
      ParseTensorsStart(b[s..], c[s..], k - 1, n - s);
    }
  }

  lemma ParseCountsStart(b: seq<byte>, c: seq<byte>, n: nat)
    requires ParseCounts(b).Ok? && 24 <= n && SameStart(b, c, n)
    ensures ParseCounts(c) == ParseCounts(b)
  {
    SameStartFrom(b, c, n, 0, 4);
    assert b[0..4] == b[..4] && c[0..4] == c[..4];
    SameStartFrom(b, c, n, 4, 4);
    SameStartFrom(b, c, n, 8, 8);
    SameStartFrom(b, c, n, 16, 8);
  }

  /** A header does not depend on the bytes behind its index. */
  lemma ParseHeaderStart(b: seq<byte>, c: seq<byte>)
    requires ParseHeader(b).Ok? && SameStart(b, c, ParseHeader(b).value.indexEnd)
    ensures ParseHeader(c) == ParseHeader(b)
  {
    hide ParseCounts, ParseKvs, ParseTensors, SameStart;
    var h, counts := ParseHeader(b).value, ParseCounts(b).value;
    ParseCountsStart(b, c, h.indexEnd);
    SameStartFrom(b, c, h.indexEnd, 24, h.indexEnd - 24);
    ParseKvsStart(b[24..], c[24..], counts.1, h.indexEnd - 24);
    SameStartFrom(b, c, h.indexEnd, h.kvEnd, h.indexEnd - h.kvEnd);
    ParseTensorsStart(b[h.kvEnd..], c[h.kvEnd..], counts.0, h.indexEnd - h.kvEnd);
  }
}
