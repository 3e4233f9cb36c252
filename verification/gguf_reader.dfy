/** The reader: a cursor over the file that is walked once to open it and again to list its entries. */
module Reader {
  import opened Results
  import opened Bytes
  import opened Gguf
  import opened Printing

  class Cursor {
    const buf: seq<byte>
    var pos: nat

    ghost predicate Valid()
      reads this
    {
      pos <= |buf|
    }

    /** What is left to read. */
    ghost function Rest(): seq<byte>
      requires Valid()
      reads this
    {
      buf[pos..]
    }

    constructor (buf: seq<byte>, pos: nat)
      requires pos <= |buf|
      ensures Valid() && this.buf == buf && this.pos == pos
    {
      this.buf, this.pos := buf, pos;
    }

    method ReadBytes(n: nat) returns (r: Parse<seq<byte>>)
      requires Valid()
      modifies this
      ensures Valid()
      ensures r == if n > |old(Rest())| then Err(Short) else Ok(old(Rest())[..n])
      ensures pos == old(pos) + if r.Ok? then n else 0
    {
      if pos + n > |buf| {
        return Err(Short);
      }
      var start := pos;
      pos := pos + n;
      assert buf[start..start + n] == buf[start..][..n];
      return Ok(buf[start..start + n]);
    }

    method ReadU32() returns (r: Parse<nat>)
      requires Valid()
      modifies this
      ensures Valid()
      ensures r == if 4 > |old(Rest())| then Err(Short) else Ok(Val(old(Rest())[..4]))
      ensures pos == old(pos) + if r.Ok? then 4 else 0
    {
      var b :- ReadBytes(4);
      return Ok(Val(b));
    }

    method ReadU64() returns (r: Parse<nat>)
      requires Valid()
      modifies this
      ensures Valid()
      ensures r == if 8 > |old(Rest())| then Err(Short) else Ok(Val(old(Rest())[..8]))
      ensures pos == old(pos) + if r.Ok? then 8 else 0
    {
      var b :- ReadBytes(8);
      return Ok(Val(b));
    }

    /** Step over a length-prefixed string. */
    method SkipString() returns (r: Parse<()>)
      requires Valid()
      modifies this
      ensures Valid() && Stepped(r, old(pos), StringLen(old(Rest())))
    {
      var n :- ReadU64();
      var _ :- ReadBytes(n);
      return Ok(());
    }

    /** A step has taken what `len` says, or failed the way it does. */
    ghost predicate Stepped<T>(r: Parse<T>, from: nat, len: Parse<nat>)
      reads this
    {
      if len.Ok? then r.Ok? && pos == from + len.value else r.Err? && r.error == len.error
    }

    method ReadString() returns (r: Parse<seq<byte>>)
      requires Valid()
      modifies this
      ensures Valid() && Stepped(r, old(pos), TextLen(old(Rest())))
      ensures r.Ok? ==> r.value == old(Rest())[8..pos - old(pos)]
    {
      hide Val, Utf8;
      ghost var from := Rest();
      var len :- ReadU64();
      var text :- ReadBytes(len);
      assert text == from[8..8 + len];
      if !Utf8(text) {
        return Err(BadUtf8);
      }
      return Ok(text);
    }

    method SkipStrings(n: nat) returns (r: Parse<()>)
      requires Valid()
      modifies this
      ensures Valid() && Stepped(r, old(pos), StringsLen(old(Rest()), n))
    {
      hide StringLen;
      ghost var from, whole := Rest(), StringsLen(Rest(), n);
      for i := 0 to n
        invariant Valid() && old(pos) <= pos
        invariant whole == Plus(pos - old(pos), StringsLen(Rest(), n - i))
      {
        ghost var here := Rest();
        r := SkipString();
        if r.Err? {
          return;
        }
        assert here[StringLen(here).value..] == Rest();
      }
      return Ok(());
    }

    /** Step over a metadata value without interpreting it. */
    method SkipKvValue(ty: nat) returns (r: Parse<()>)
      requires Valid() && ty <= TY_LAST
      modifies this
      ensures Valid() && Stepped(r, old(pos), ValueLen(ty, old(Rest())))
    {
      if ty == TY_STRING {
        r := SkipString();
      } else if ty == TY_ARRAY {
        r := SkipArray();
      } else {
        var _ :- ReadBytes(ScalarSize(ty));
        r := Ok(());
      }
    }

    method SkipArray() returns (r: Parse<()>)
      requires Valid()
      modifies this
      ensures Valid() && Stepped(r, old(pos), ArrayLen(old(Rest())))
    {
      hide Val, StringsLen;
      ghost var from := Rest();
      var elem :- ReadU32();
      if elem > TY_LAST {
        return Err(UnknownKvType);
      }
      var n :- ReadU64();
      assert from[4..][..8] == from[4..12] && Rest() == from[12..];
      if elem == TY_STRING {
        r := SkipStrings(n);
      } else if elem == TY_ARRAY {
        return Err(NestedArray);
      } else {
        var _ :- ReadBytes((ScalarSize(elem) * n) % U64);
        return Ok(());
      }
    }

    /** Read one metadata entry: key, type, and where its value starts. */
    method ReadKv() returns (r: Parse<(seq<byte>, nat, nat)>)
      requires Valid()
      modifies this
      ensures Valid()
      ensures Stepped(r, old(pos), KvLen(old(Rest())))
      ensures r.Ok? ==>
        var kv := ParseKv(old(Rest())).value.0;
        && old(pos) <= r.value.2 <= pos && Kv(r.value.0, r.value.1, buf[r.value.2..pos]) == kv
    {
      hide TextLen, ValueLen, Val;
      ghost var from := Rest();
      var key :- ReadString();
      ghost var k := pos - old(pos);
      assert Rest() == from[k..];
      var ty :- ReadU32();
      assert from[k..][..4] == from[k..k + 4];
      if ty > TY_LAST {
        return Err(UnknownKvType);
      }
      var start := pos;
      assert Rest() == from[k + 4..];
      var _ :- SkipKvValue(ty);
      assert buf[start..pos] == from[k + 4..pos - old(pos)];
      return Ok((key, ty, start));
    }

    /** Read one tensor index entry. */
    method ReadTensor() returns (r: Parse<Tensor>)
      requires Valid()
      modifies this
      ensures Valid()
      ensures Stepped(r, old(pos), TensorLen(old(Rest())))
      ensures r.Ok? ==> r.value == ParseTensor(old(Rest())).value.0
    {
      hide TextLen, Val, ParseDims;
      ghost var from := Rest();
      var name :- ReadString();
      ghost var k := pos - old(pos);
      assert Rest() == from[k..];
      var n :- ReadU32();
      assert from[k..][..4] == from[k..k + 4];
      if n > MAX_DIMS {
        return Err(TooManyDims);
      }
      assert Rest() == from[k + 4..];
      var shape :- ReadDims(n);
      ghost var d := k + 4 + 8 * n;
      assert Rest() == from[d..];
      var dtype :- ReadU32();
      assert from[d..][..4] == from[d..d + 4] && Rest() == from[d + 4..];
      var offset :- ReadU64();
      assert from[d + 4..][..8] == from[d + 4..d + 12];
      return Ok(Tensor(name, shape, dtype, offset));
    }

    method ReadDims(n: nat) returns (r: Parse<seq<nat>>)
      requires Valid()
      modifies this
      ensures Valid()
      ensures r == if 8 * n > |old(Rest())| then Err(Short) else Ok(ParseDims(old(Rest()), n))
      ensures r.Ok? ==> pos == old(pos) + 8 * n
    {
      hide Val, ParseDims, DimsLeft;
      var shape := [];
      ghost var from := Rest();
      FirstDims(from, n);
      for i := 0 to n
        invariant Valid() && pos == old(pos) + 8 * i && DimsLeft(from, n, shape, Rest(), n - i)
      {
        ghost var here := Rest();
        DimsStep(from, n, shape, here, n - i);
        var dim :- ReadU64();
        assert Rest() == here[8..];
        shape := shape + [dim];
      }
      LastDims(from, n, shape, Rest());
      return Ok(shape);
    }
  }

  /** `n` dimensions at `from` are those in `done` and `left` more at `b`. */
  ghost predicate DimsLeft(from: seq<byte>, n: nat, done: seq<nat>, b: seq<byte>, left: nat) {
    8 * n <= |from| ==> 8 * left <= |b| && ParseDims(from, n) == done + ParseDims(b, left)
  }

  lemma FirstDims(from: seq<byte>, n: nat)
    ensures DimsLeft(from, n, [], from, n)
  {
  }

  lemma DimsStep(from: seq<byte>, n: nat, done: seq<nat>, b: seq<byte>, left: nat)
    requires left > 0 && DimsLeft(from, n, done, b, left)
    ensures |b| < 8 ==> 8 * n > |from|
    ensures |b| >= 8 ==> DimsLeft(from, n, done + [Val(b[..8])], b[8..], left - 1)
  {
    hide Val;
    if 8 * left <= |b| {
      assert done + ParseDims(b, left) == (done + [Val(b[..8])]) + ParseDims(b[8..], left - 1);
    }
  }

  lemma LastDims(from: seq<byte>, n: nat, done: seq<nat>, b: seq<byte>)
    requires 8 * n <= |from| && DimsLeft(from, n, done, b, 0)
    ensures ParseDims(from, n) == done
  {
    assert done + [] == done;
  }

  ghost function Plus(taken: nat, rest: Parse<nat>): Parse<nat> {
    if rest.Ok? then Ok(taken + rest.value) else rest
  }

  ghost function KvLen(b: seq<byte>): Parse<nat> {
    var r :- ParseKv(b);
    Ok(r.1)
  }

  ghost function TensorLen(b: seq<byte>): Parse<nat> {
    var r :- ParseTensor(b);
    Ok(r.1)
  }

  // ---------- opening a file ----------

  /** An opened file: its bytes and what the first pass found. */
  datatype File = File(bytes: seq<byte>, alignment: nat, dataOffset: nat, nKv: nat, nTensors: nat, kvEnd: nat, indexEnd: nat)

  /** `f` is what opening its bytes yields when their header is `h`. */
  ghost predicate IsOpen(f: File, h: Header)
  {
    && ParseHeader(f.bytes) == Ok(h)
    && f.alignment == AlignmentOf(h.kvs) && f.dataOffset == AlignUp(h.indexEnd, f.alignment)
    && f.nKv == |h.kvs| && f.nTensors == |h.tensors| && f.kvEnd == h.kvEnd && f.indexEnd == h.indexEnd
  }

  ghost function MoreKvs(done: seq<Kv>, taken: nat, rest: Parse<(seq<Kv>, nat)>): Parse<(seq<Kv>, nat)> {
    if rest.Ok? then Ok((done + rest.value.0, taken + rest.value.1)) else rest
  }

  ghost function MoreTensors(done: seq<Tensor>, taken: nat, rest: Parse<(seq<Tensor>, nat)>): Parse<(seq<Tensor>, nat)> {
    if rest.Ok? then Ok((done + rest.value.0, taken + rest.value.1)) else rest
  }

  /** One more entry read moves it from what is left to what is done. */
  lemma MoreKv(done: seq<Kv>, taken: nat, b: seq<byte>, n: nat)
    requires n > 0
    ensures ParseKv(b).Err? ==> MoreKvs(done, taken, ParseKvs(b, n)) == Err(ParseKv(b).error)
    ensures ParseKv(b).Ok? ==>
      var (kv, k) := ParseKv(b).value;
      MoreKvs(done, taken, ParseKvs(b, n)) == MoreKvs(done + [kv], taken + k, ParseKvs(b[k..], n - 1))
  {
    hide ParseKv;
    if ParseKv(b).Ok? {
      var (kv, k) := ParseKv(b).value;
      var rest := ParseKvs(b[k..], n - 1);
      if rest.Ok? {
        assert done + ([kv] + rest.value.0) == done + [kv] + rest.value.0;
      }
    }
  }

  lemma MoreTensor(done: seq<Tensor>, taken: nat, b: seq<byte>, n: nat)
    requires n > 0
    ensures ParseTensor(b).Err? ==> MoreTensors(done, taken, ParseTensors(b, n)) == Err(ParseTensor(b).error)
    ensures ParseTensor(b).Ok? ==>
      var (t, k) := ParseTensor(b).value;
      MoreTensors(done, taken, ParseTensors(b, n)) == MoreTensors(done + [t], taken + k, ParseTensors(b[k..], n - 1))
  {
    hide ParseTensor;
    if ParseTensor(b).Ok? {
      var (t, k) := ParseTensor(b).value;
      var rest := ParseTensors(b[k..], n - 1);
      if rest.Ok? {
        assert done + ([t] + rest.value.0) == done + [t] + rest.value.0;
      }
    }
  }

  method ReadCounts(p: Cursor) returns (r: Parse<(nat, nat)>)
    requires p.Valid() && p.pos == 0
    modifies p
    ensures p.Valid() && r == ParseCounts(p.buf)
    ensures r.Ok? ==> p.pos == 24
  {
    hide Val;
    ghost var b := p.buf;
    assert b[0..] == b;
    var magic :- p.ReadBytes(4);
    if magic != MAGIC {
      return Err(BadMagic);
    }
    var version :- p.ReadU32();
    assert b[4..][..4] == b[4..8];
    if version != VERSION {
      return Err(BadVersion);
    }
    var nTensors :- p.ReadU64();
    var nKv :- p.ReadU64();
    assert b[8..][..8] == b[8..16] && b[16..][..8] == b[16..24];
    if nTensors > MAX_TENSORS {
      return Err(TooManyTensors);
    }
    if nKv > MAX_KV {
      return Err(TooManyKvs);
    }
    return Ok((nTensors, nKv));
  }

  lemma EndKvs(done: seq<Kv>, taken: nat, b: seq<byte>)
    ensures MoreKvs(done, taken, ParseKvs(b, 0)) == Ok((done, taken))
  {
    assert done + [] == done;
  }

  lemma StartAlignment()
    ensures AlignmentOf([]) == DEFAULT_ALIGNMENT
  {
  }

  lemma FourBytes(kv: Kv)
    requires GoodKv(kv)
    ensures kv.ty == TY_U32 ==> |kv.value| == 4
  {
  }

  /** Step over one entry; the alignment changes if the entry sets it. */
  method WalkKv(p: Cursor, alignment: nat, ghost done: seq<Kv>) returns (r: Parse<nat>)
    requires p.Valid() && alignment == AlignmentOf(done)
    modifies p
    ensures p.Valid() && p.Stepped(r, old(p.pos), KvLen(old(p.Rest())))
    ensures r.Ok? ==> r.value == AlignmentOf(done + [ParseKv(old(p.Rest())).value.0])
  {
    hide ParseKv, AlignmentOf, EncodeKv, Val, GoodKv;
    ghost var here := p.Rest();
    var entry :- p.ReadKv();
    var (key, ty, valueStart) := entry;
    ghost var kv := ParseKv(here).value.0;
    KvPrints(here);
    FourBytes(kv);
    AlignmentStep(done, kv);
    assert p.buf[valueStart..p.pos] == kv.value;
    if key == ALIGNMENT_KEY && ty == TY_U32 {
      return Ok(Val(p.buf[valueStart..valueStart + 4]));
    }
    return Ok(alignment);
  }

  /** Walk the metadata, keeping only the alignment. */
  method WalkKvs(p: Cursor, n: nat) returns (r: Parse<nat>)
    requires p.Valid()
    modifies p
    ensures p.Valid()
    ensures var kvs := ParseKvs(old(p.Rest()), n);
            if kvs.Ok? then r == Ok(AlignmentOf(kvs.value.0)) && p.pos == old(p.pos) + kvs.value.1 else r == Err(kvs.error)
  {
    hide ParseKv, ParseKvs, AlignmentOf, MoreKvs;
    StartAlignment();
    var alignment := DEFAULT_ALIGNMENT;
    ghost var whole, done, start := ParseKvs(p.Rest(), n), [], p.pos;
    StartKvs(p.Rest(), n);
    for i := 0 to n
      invariant p.Valid() && start <= p.pos && alignment == AlignmentOf(done)
      invariant whole == MoreKvs(done, p.pos - start, ParseKvs(p.Rest(), n - i))
    {
      ghost var here, from := p.Rest(), p.pos;
      MoreKv(done, p.pos - start, here, n - i);
      alignment :- WalkKv(p, alignment, done);
      assert here[p.pos - from..] == p.Rest();
      done := done + [ParseKv(here).value.0];
    }
    EndKvs(done, p.pos - start, p.Rest());
    return Ok(alignment);
  }

  lemma StartKvs(b: seq<byte>, n: nat)
    ensures MoreKvs([], 0, ParseKvs(b, n)) == ParseKvs(b, n)
  {
    if ParseKvs(b, n).Ok? {
      assert [] + ParseKvs(b, n).value.0 == ParseKvs(b, n).value.0;
    }
  }

  lemma StartTensors(b: seq<byte>, n: nat)
    ensures MoreTensors([], 0, ParseTensors(b, n)) == ParseTensors(b, n)
  {
    if ParseTensors(b, n).Ok? {
      assert [] + ParseTensors(b, n).value.0 == ParseTensors(b, n).value.0;
    }
  }

  /** Walk the tensor index. */
  method WalkTensors(p: Cursor, n: nat) returns (r: Parse<seq<Tensor>>)
    requires p.Valid()
    modifies p
    ensures p.Valid()
    ensures var ts := ParseTensors(old(p.Rest()), n);
            if ts.Ok? then r == Ok(ts.value.0) && p.pos == old(p.pos) + ts.value.1 else r == Err(ts.error)
  {
    hide ParseTensor, ParseTensors;
    var out := [];
    ghost var whole, start := ParseTensors(p.Rest(), n), p.pos;
    StartTensors(p.Rest(), n);
    for i := 0 to n
      invariant p.Valid() && start <= p.pos
      invariant whole == MoreTensors(out, p.pos - start, ParseTensors(p.Rest(), n - i))
    {
      ghost var here, from := p.Rest(), p.pos;
      MoreTensor(out, p.pos - start, here, n - i);
      var t :- p.ReadTensor();
      assert here[p.pos - from..] == p.Rest();
      out := out + [t];
    }
    NothingParses(p.Rest());
    assert out + [] == out;
    return Ok(out);
  }

  /** Validate the header once and record where its parts end. Opening succeeds exactly when the header
      parses, and fails the way parsing does. */
  method Open(bytes: seq<byte>) returns (r: Parse<File>)
    ensures var h := ParseHeader(bytes);
            if h.Ok? then r.Ok? && r.value.bytes == bytes && IsOpen(r.value, h.value) else r == Err(h.error)
  {
    hide ParseCounts, ParseKvs, ParseTensors;
    var p := new Cursor(bytes, 0);
    var counts :- ReadCounts(p);
    var (nTensors, nKv) := counts;
    var alignment :- WalkKvs(p, nKv);
    var kvEnd := p.pos;
    var _ :- WalkTensors(p, nTensors);
    var indexEnd := p.pos;
    return Ok(File(bytes, alignment, AlignUp(indexEnd, alignment), nKv, nTensors, kvEnd, indexEnd));
  }

  // ---------- listing the metadata ----------

  /** A listed entry: its key and type, and the byte ranges of its value and of its whole record. */
  datatype Entry = Entry(key: seq<byte>, ty: nat, valueStart: nat, start: nat, end: nat)

  /** `e` locates `kv` in `b`: the ranges hold its value and its printed record. */
  ghost predicate Locates(e: Entry, b: seq<byte>, kv: Kv) {
    && e.key == kv.key && e.ty == kv.ty && GoodKv(kv)
    && e.start <= e.valueStart <= e.end <= |b|
    && b[e.valueStart..e.end] == kv.value && b[e.start..e.end] == EncodeKv(kv)
  }

  lemma LocatesOne(e: Entry, b: seq<byte>)
    requires e.start <= e.valueStart <= e.end <= |b| && ParseKv(b[e.start..]).Ok?
    requires ParseKv(b[e.start..]).value == (Kv(e.key, e.ty, b[e.valueStart..e.end]), e.end - e.start)
    ensures Locates(e, b, ParseKv(b[e.start..]).value.0)
  {
    KvPrints(b[e.start..]);
    assert b[e.start..][..e.end - e.start] == b[e.start..e.end];
  }

  /** The second walk over the metadata of an open file cannot fail, and locates every entry. */
  method KvEntries(f: File, ghost h: Header) returns (r: Parse<seq<Entry>>)
    requires IsOpen(f, h)
    ensures r.Ok? && |r.value| == |h.kvs|
    ensures forall i | 0 <= i < |h.kvs| :: Locates(r.value[i], f.bytes, h.kvs[i]) && r.value[i].end <= h.kvEnd
  {
    hide ParseKv, ParseKvs, ParseTensors, EncodeKv, GoodKv, Locates, MoreKvs;
    var out: seq<Entry> := [];
    var p := new Cursor(f.bytes, 24);
    ghost var done := [];
    StartKvs(p.Rest(), f.nKv);
    for i := 0 to f.nKv
      invariant p.Valid() && 24 <= p.pos && |out| == |done| == i
      invariant ParseKvs(f.bytes[24..], f.nKv) == MoreKvs(done, p.pos - 24, ParseKvs(p.Rest(), f.nKv - i))
      invariant forall j | 0 <= j < i :: Locates(out[j], f.bytes, done[j]) && out[j].end <= p.pos
    {
      ghost var here := p.Rest();
      MoreKv(done, p.pos - 24, here, f.nKv - i);
      var start := p.pos;
      var entry := p.ReadKv();
      var e := Entry(entry.value.0, entry.value.1, entry.value.2, start, p.pos);
      LocatesOne(e, f.bytes);
      assert here[p.pos - start..] == p.Rest();
      out, done := out + [e], done + [ParseKv(here).value.0];
    }
    EndKvs(done, p.pos - 24, p.Rest());
    return Ok(out);
  }
}
