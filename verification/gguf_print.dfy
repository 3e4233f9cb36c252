/** Printing GGUF records: the inverse of the grammar. */
module Printing {
  import opened Results
  import opened Bytes
  import opened Gguf

  function EncodeText(s: seq<byte>): seq<byte> {
    Le(8, |s|) + s
  }

  function EncodeKv(kv: Kv): seq<byte> {
    EncodeText(kv.key) + Le(4, kv.ty) + kv.value
  }

  function EncodeKvs(kvs: seq<Kv>): seq<byte> {
    if kvs == [] then [] else EncodeKv(kvs[0]) + EncodeKvs(kvs[1..])
  }

  function EncodeShape(shape: seq<nat>): (b: seq<byte>)
    ensures |b| == 8 * |shape|
  {
    if shape == [] then [] else Le(8, shape[0]) + EncodeShape(shape[1..])
  }

  function EncodeTensor(t: Tensor): seq<byte> {
    EncodeText(t.name) + Le(4, |t.shape|) + EncodeShape(t.shape) + Le(4, t.dtype) + Le(8, t.offset)
  }

  function EncodeTensors(ts: seq<Tensor>): seq<byte> {
    if ts == [] then [] else EncodeTensor(ts[0]) + EncodeTensors(ts[1..])
  }

  function EncodeHeader(kvs: seq<Kv>, ts: seq<Tensor>): seq<byte> {
    MAGIC + Le(4, VERSION) + Le(8, |ts|) + Le(8, |kvs|) + EncodeKvs(kvs) + EncodeTensors(ts)
  }

  // ---------- what can be printed ----------

  predicate GoodText(s: seq<byte>) {
    |s| < U64 && Utf8(s)
  }

  predicate GoodKv(kv: Kv) {
    GoodText(kv.key) && kv.ty <= TY_LAST && ValueLen(kv.ty, kv.value) == Ok(|kv.value|)
  }

  predicate GoodTensor(t: Tensor) {
    && GoodText(t.name) && |t.shape| <= MAX_DIMS && (forall i | 0 <= i < |t.shape| :: t.shape[i] < U64)
    && t.dtype < U32 && t.offset < U64
  }

  ghost predicate GoodKvs(kvs: seq<Kv>) {
    forall i | 0 <= i < |kvs| :: GoodKv(kvs[i])
  }

  ghost predicate GoodTensors(ts: seq<Tensor>) {
    forall i | 0 <= i < |ts| :: GoodTensor(ts[i])
  }

  // ---------- parsing what was printed ----------

  lemma TextParses(s: seq<byte>, rest: seq<byte>)
    requires GoodText(s)
    ensures TextLen(EncodeText(s) + rest) == Ok(8 + |s|)
    ensures (EncodeText(s) + rest)[8..8 + |s|] == s && (EncodeText(s) + rest)[8 + |s|..] == rest
  {
    ReadsBack(|s|);
    var b := EncodeText(s) + rest;
    assert b[..8] == Le(8, |s|) && b[8..8 + |s|] == s;
  }

  lemma TextSize(s: seq<byte>)
    ensures |EncodeText(s)| == 8 + |s|
  {
  }

  /** A slice further on is the slice of the suffix. */
  lemma Shift(b: seq<byte>, k: nat, tail: seq<byte>, i: nat, j: nat)
    requires k <= |b| && b[k..] == tail && i <= j <= |tail|
    ensures b[k + i..k + j] == tail[i..j]
  {
    forall x | i <= x < j
      ensures b[k + x] == tail[x]
    {
      assert b[k..][x] == b[k + x];
    }
    assert b[k + i..k + j] == tail[i..j];
  }

  /** A 32-bit field followed by anything. */
  lemma CountField(n: nat, rest: seq<byte>)
    requires n < U32
    ensures Val((Le(4, n) + rest)[..4]) == n && (Le(4, n) + rest)[4..] == rest
  {
    hide Val;
    ReadsBack(n);
    assert (Le(4, n) + rest)[..4] == Le(4, n);
  }

  lemma KvBytesAre(kv: Kv, rest: seq<byte>)
    ensures EncodeKv(kv) + rest == EncodeText(kv.key) + (Le(4, kv.ty) + (kv.value + rest))
    ensures |EncodeKv(kv)| == 8 + |kv.key| + 4 + |kv.value|
  {
    Regroup(EncodeText(kv.key), Le(4, kv.ty), kv.value, [], [], rest);
  }

  lemma ValueParses(ty: nat, value: seq<byte>, rest: seq<byte>)
    requires ty <= TY_LAST && ValueLen(ty, value) == Ok(|value|)
    ensures ValueLen(ty, value + rest) == Ok(|value|) && (value + rest)[0..|value|] == value
  {
    hide ValueLen;
    assert (value + rest)[..|value|] == value[..|value|];
    ValueLenStart(ty, value, value + rest, |value|);
  }

  /** A metadata entry survives printing. */
  lemma KvParses(kv: Kv, rest: seq<byte>)
    requires GoodKv(kv)
    ensures ParseKv(EncodeKv(kv) + rest) == Ok((kv, |EncodeKv(kv)|))
  {
    hide TextLen, ValueLen, Le, Val, EncodeText, Utf8, EncodeKv;
    var b, k := EncodeKv(kv) + rest, 8 + |kv.key|;
    var body := kv.value + rest;
    var tail := Le(4, kv.ty) + body;
    KvBytesAre(kv, rest);
    TextParses(kv.key, tail);
    CountField(kv.ty, body);
    Shift(b, k, tail, 0, 4);
    assert b[k + 4..] == tail[4..] == body;
    ValueParses(kv.ty, kv.value, rest);
    Shift(b, k + 4, body, 0, |kv.value|);
  }

  lemma NothingParses(b: seq<byte>)
    ensures ParseKvs(b, 0) == Ok(([], 0)) && ParseTensors(b, 0) == Ok(([], 0))
  {
  }

  lemma OneMoreKv(b: seq<byte>, kv: Kv, k: nat, kvs: seq<Kv>, n: nat)
    requires ParseKv(b) == Ok((kv, k)) && ParseKvs(b[k..], |kvs|) == Ok((kvs, n))
    ensures ParseKvs(b, |kvs| + 1) == Ok(([kv] + kvs, k + n))
  {
    hide ParseKv;
  }

  lemma {:induction false} KvsParse(kvs: seq<Kv>, rest: seq<byte>)
    requires GoodKvs(kvs)
    ensures ParseKvs(EncodeKvs(kvs) + rest, |kvs|) == Ok((kvs, |EncodeKvs(kvs)|))
  {
    hide ParseKv, ParseKvs, EncodeKv, GoodKv;
    if kvs == [] {
      NothingParses(EncodeKvs(kvs) + rest);
    } else {
      var head, tail := EncodeKv(kvs[0]), EncodeKvs(kvs[1..]) + rest;
      assert EncodeKvs(kvs) + rest == head + tail;
      KvParses(kvs[0], tail);
      KvsParse(kvs[1..], rest);
      assert (head + tail)[|head|..] == tail;
      OneMoreKv(head + tail, kvs[0], |head|, kvs[1..], |EncodeKvs(kvs[1..])|);
      assert [kvs[0]] + kvs[1..] == kvs;
    }
  }

  lemma {:induction false} ShapeParses(shape: seq<nat>, rest: seq<byte>)
    requires forall i | 0 <= i < |shape| :: shape[i] < U64
    ensures ParseDims(EncodeShape(shape) + rest, |shape|) == shape
  {
    if shape != [] {
      var head, tail := Le(8, shape[0]), EncodeShape(shape[1..]) + rest;
      assert EncodeShape(shape) + rest == head + tail;
      ReadsBack(shape[0]);
      assert (head + tail)[..8] == head && (head + tail)[8..] == tail;
      ShapeParses(shape[1..], rest);
    }
  }

  /** The fixed fields behind the dimensions. */
  lemma EndFields(dtype: nat, offset: nat, rest: seq<byte>)
    requires dtype < U32 && offset < U64
    ensures var end := Le(4, dtype) + Le(8, offset) + rest;
            Val(end[..4]) == dtype && Val(end[4..12]) == offset
  {
    hide Val;
    var end := Le(4, dtype) + Le(8, offset) + rest;
    ReadsBack(dtype);
    ReadsBack(offset);
    assert end[..4] == Le(4, dtype) && end[4..12] == Le(8, offset);
  }

  /** So does a tensor index entry. */
  lemma TensorParses(t: Tensor, rest: seq<byte>)
    requires GoodTensor(t)
    ensures ParseTensor(EncodeTensor(t) + rest) == Ok((t, |EncodeTensor(t)|))
  {
    hide TextLen, ParseDims, Le, Val, EncodeText, EncodeShape, Utf8;
    var b, k, n := EncodeTensor(t) + rest, 8 + |t.name|, |t.shape|;
    var end := Le(4, t.dtype) + Le(8, t.offset) + rest;
    var mid := EncodeShape(t.shape) + end;
    var tail := Le(4, n) + mid;
    TensorBytesAre(t, rest);
    TextParses(t.name, tail);
    TextSize(t.name);
    CountField(n, mid);
    Shift(b, k, tail, 0, 4);
    assert b[k + 4..] == tail[4..] == mid;
    ShapeParses(t.shape, end);
    EndFields(t.dtype, t.offset, rest);
    var d := k + 4 + 8 * n;
    assert b[d..] == mid[8 * n..] == end;
    Shift(b, d, end, 0, 4);
    Shift(b, d, end, 4, 12);
  }

  lemma TensorBytesAre(t: Tensor, rest: seq<byte>)
    ensures EncodeTensor(t) + rest
            == EncodeText(t.name) + (Le(4, |t.shape|) + (EncodeShape(t.shape) + (Le(4, t.dtype) + Le(8, t.offset) + rest)))
    ensures |EncodeTensor(t)| == 8 + |t.name| + 4 + 8 * |t.shape| + 12
  {
    Regroup(EncodeText(t.name), Le(4, |t.shape|), EncodeShape(t.shape), Le(4, t.dtype), Le(8, t.offset), rest);
  }

  lemma Regroup(a: seq<byte>, b: seq<byte>, c: seq<byte>, d: seq<byte>, e: seq<byte>, f: seq<byte>)
    ensures a + b + c + d + e + f == a + (b + (c + (d + e + f)))
  {
  }

  lemma OneMoreTensor(b: seq<byte>, t: Tensor, k: nat, ts: seq<Tensor>, n: nat)
    requires ParseTensor(b) == Ok((t, k)) && ParseTensors(b[k..], |ts|) == Ok((ts, n))
    ensures ParseTensors(b, |ts| + 1) == Ok(([t] + ts, k + n))
  {
    hide ParseTensor;
  }

  lemma {:induction false} TensorsParse(ts: seq<Tensor>, rest: seq<byte>)
    requires GoodTensors(ts)
    ensures ParseTensors(EncodeTensors(ts) + rest, |ts|) == Ok((ts, |EncodeTensors(ts)|))
  {
    hide ParseTensor, ParseTensors, EncodeTensor, GoodTensor;
    if ts == [] {
      NothingParses(EncodeTensors(ts) + rest);
    } else {
      var head, tail := EncodeTensor(ts[0]), EncodeTensors(ts[1..]) + rest;
      assert EncodeTensors(ts) + rest == head + tail;
      TensorParses(ts[0], tail);
      TensorsParse(ts[1..], rest);
      assert (head + tail)[|head|..] == tail;
      OneMoreTensor(head + tail, ts[0], |head|, ts[1..], |EncodeTensors(ts[1..])|);
      assert [ts[0]] + ts[1..] == ts;
    }
  }

  lemma CountsParse(nTensors: nat, nKv: nat, rest: seq<byte>)
    requires nTensors <= MAX_TENSORS && nKv < U64
    ensures ParseCounts(MAGIC + Le(4, VERSION) + Le(8, nTensors) + Le(8, nKv) + rest)
            == if nKv > MAX_KV then Err(TooManyKvs) else Ok((nTensors, nKv))
  {
    hide Le, Val;
    var b := MAGIC + Le(4, VERSION) + Le(8, nTensors) + Le(8, nKv) + rest;
    ReadsBack(VERSION);
    ReadsBack(nTensors);
    ReadsBack(nKv);
    assert b[..4] == MAGIC && b[4..8] == Le(4, VERSION);
    assert b[8..16] == Le(8, nTensors) && b[16..24] == Le(8, nKv);
  }

  /** A printed header parses, whatever follows it, exactly when its metadata count is under the cap. */
  lemma HeaderParses(kvs: seq<Kv>, ts: seq<Tensor>, rest: seq<byte>)
    requires GoodKvs(kvs) && GoodTensors(ts) && |ts| <= MAX_TENSORS && |kvs| < U64
    ensures ParseHeader(EncodeHeader(kvs, ts) + rest)
            == if |kvs| > MAX_KV then Err(TooManyKvs)
               else Ok(Header(kvs, ts, 24 + |EncodeKvs(kvs)|, |EncodeHeader(kvs, ts)|))
  {
    hide ParseCounts, ParseKvs, ParseTensors, GoodKvs, GoodTensors, EncodeKvs, EncodeTensors, Le;
    var front := MAGIC + Le(4, VERSION) + Le(8, |ts|) + Le(8, |kvs|);
    var b, end := EncodeHeader(kvs, ts) + rest, EncodeTensors(ts) + rest;
    assert b == front + (EncodeKvs(kvs) + end);
    CountsParse(|ts|, |kvs|, EncodeKvs(kvs) + end);
    if |kvs| <= MAX_KV {
      KvsParse(kvs, end);
      assert b[24..] == EncodeKvs(kvs) + end;
      TensorsParse(ts, rest);
      assert b[24 + |EncodeKvs(kvs)|..] == end;
    }
  }

  // ---------- printing what was parsed ----------

  lemma TextPrints(b: seq<byte>)
    requires TextLen(b).Ok?
    ensures var n := TextLen(b).value;
            GoodText(b[8..n]) && EncodeText(b[8..n]) == b[..n]
  {
    WritesBack(b[..8]);
    var n := TextLen(b).value;
    assert b[..n] == b[..8] + b[8..n];
  }

  /** A parsed entry is a good one, and its record is what printing it gives: copying records verbatim
      and printing entries are the same. */
  lemma KvPrints(b: seq<byte>)
    requires ParseKv(b).Ok?
    ensures var (kv, n) := ParseKv(b).value;
            GoodKv(kv) && EncodeKv(kv) == b[..n]
  {
    hide TextLen, ValueLen, Le, Val, EncodeText;
    var (kv, n) := ParseKv(b).value;
    var k := TextLen(b).value;
    TextPrints(b);
    WritesBack(b[k..k + 4]);
    var from := b[k + 4..];
    assert from[..|kv.value|] == kv.value == kv.value[..|kv.value|];
    ValueLenStart(kv.ty, from, kv.value, |kv.value|);
    assert b[..n] == b[..k] + b[k..k + 4] + kv.value;
  }

  lemma {:induction false} KvsPrint(b: seq<byte>, n: nat)
    requires ParseKvs(b, n).Ok?
    ensures var (kvs, len) := ParseKvs(b, n).value;
            GoodKvs(kvs) && EncodeKvs(kvs) == b[..len]
    decreases n
  {
    hide ParseKv, EncodeKv, GoodKv;
    if n > 0 {
      var head := ParseKv(b).value;
      KvPrints(b);
      KvsPrint(b[head.1..], n - 1);
      var rest := ParseKvs(b[head.1..], n - 1).value;
      assert ([head.0] + rest.0)[1..] == rest.0;
      assert b[..head.1 + rest.1] == b[..head.1] + b[head.1..][..rest.1];
    }
  }

  lemma {:induction false} DimsPrint(b: seq<byte>, n: nat)
    requires 8 * n <= |b|
    ensures forall i | 0 <= i < n :: ParseDims(b, n)[i] < U64
    decreases n
  {
    if n > 0 {
      WritesBack(b[..8]);
      DimsPrint(b[8..], n - 1);
    }
  }

  lemma TensorIsGood(b: seq<byte>)
    requires ParseTensor(b).Ok?
    ensures GoodTensor(ParseTensor(b).value.0)
  {
    hide TextLen, ParseDims, Le, Val, EncodeText;
    var k := TextLen(b).value;
    var n := Val(b[k..k + 4]);
    var d := k + 4 + 8 * n;
    TextPrints(b);
    DimsPrint(b[k + 4..], n);
    WritesBack(b[d..d + 4]);
    WritesBack(b[d + 4..d + 12]);
  }

  lemma {:induction false} TensorsAreGood(b: seq<byte>, n: nat)
    requires ParseTensors(b, n).Ok?
    ensures GoodTensors(ParseTensors(b, n).value.0)
    decreases n
  {
    hide ParseTensor, GoodTensor;
    if n > 0 {
      TensorIsGood(b);
      TensorsAreGood(b[ParseTensor(b).value.1..], n - 1);
    }
  }

  lemma HeaderIsGood(b: seq<byte>)
    requires ParseHeader(b).Ok?
    ensures GoodKvs(ParseHeader(b).value.kvs) && GoodTensors(ParseHeader(b).value.tensors)
  {
    hide ParseCounts, ParseKvs, ParseTensors, GoodKvs, GoodTensors;
    var h, counts := ParseHeader(b).value, ParseCounts(b).value;
    KvsPrint(b[24..], counts.1);
    TensorsAreGood(b[h.kvEnd..], counts.0);
  }

  /** Printing a sequence is printing its parts. */
  lemma {:induction false} EncodeKvsSplit(a: seq<Kv>, b: seq<Kv>)
    ensures EncodeKvs(a + b) == EncodeKvs(a) + EncodeKvs(b)
  {
    if a == [] {
      assert a + b == b;
    } else {
      assert (a + b)[1..] == a[1..] + b;
      EncodeKvsSplit(a[1..], b);
    }
  }

  lemma {:induction false} EncodeTensorsSplit(a: seq<Tensor>, b: seq<Tensor>)
    ensures EncodeTensors(a + b) == EncodeTensors(a) + EncodeTensors(b)
  {
    if a == [] {
      assert a + b == b;
    } else {
      assert (a + b)[1..] == a[1..] + b;
      EncodeTensorsSplit(a[1..], b);
    }
  }
}
