/** Assembling the file of one layer range from chunks. */
module Stitching {
  import opened Results
  import opened Bytes
  import opened Gguf
  import opened Printing
  import opened Reader
  import opened Bundles
  import opened Manifests
  import opened ModelInfo
  import opened Checking

  /** A half-open layer range, and whether the embedding and the head come with it. */
  datatype Range = Range(start: nat, end: nat, embed: bool, head: bool)

  datatype StitchError =
    | BadRange | MissingChunk | HeaderHash | HeaderSize | BadHeader(error: GgufError) | NoArchitecture
    | BadBundleName | UnknownBundle | BundleSize | MemberOverrun | NoTensors | HeaderOverrun | Drift

  datatype Outcome = Outcome(file: seq<byte>, nTensors: nat, nKv: nat)

  /** A selected tensor under its new name. */
  datatype Kept = Kept(name: seq<byte>, dtype: nat, shape: seq<nat>, bytes: seq<byte>)

  predicate ValidRange(nLayers: nat, r: Range) {
    && r.start <= r.end <= nLayers
    && (r.embed ==> r.start == 0)
    && (r.head ==> r.end == nLayers)
  }

  // ---------- selecting bundles ----------

  /** Whether the range takes the bundle of this name. */
  function Includes(r: Range, name: seq<byte>): Result<bool, StitchError>
  {
    if name == Text("embed") then Ok(r.embed)
    else if name == Text("head") then Ok(r.head)
    else if BLK <= name then
      match ParseU32(name[4..])
      case Some(n) => Ok(r.start <= n < r.end)
      case None => Err(BadBundleName)
    else Err(UnknownBundle)
  }

  function KeptMember(m: Member, bytes: seq<byte>, start: nat): Kept
    requires m.start + m.size <= |bytes|
  {
    Kept(Rename(m.name, start), m.dtype, m.shape, bytes[m.start..m.start + m.size])
  }

  predicate Takes(r: Range, b: Bundle) {
    Includes(r, b.name) == Ok(true)
  }

  /** The bundle is known to the range and, if taken, present and whole. */
  predicate Readable(chunks: Chunks, r: Range, b: Bundle) {
    && Includes(r, b.name).Ok?
    && (Takes(r, b) ==> b.cid in chunks && |chunks[b.cid]| == b.size)
  }

  predicate MembersFit(chunks: Chunks, r: Range, b: Bundle) {
    Takes(r, b) ==> b.cid in chunks && forall w | 0 <= w < |b.members| :: b.members[w].start + b.members[w].size <= |chunks[b.cid]|
  }

  ghost predicate AllReadable(chunks: Chunks, r: Range, bundles: seq<Bundle>) {
    forall b | 0 <= b < |bundles| :: Readable(chunks, r, bundles[b])
  }

  ghost predicate AllFit(chunks: Chunks, r: Range, bundles: seq<Bundle>) {
    forall b | 0 <= b < |bundles| :: MembersFit(chunks, r, bundles[b])
  }

  function KeptFrom(chunks: Chunks, r: Range, b: Bundle): seq<Kept>
    requires MembersFit(chunks, r, b)
  {
    if !Takes(r, b) then []
    else seq(|b.members|, w requires 0 <= w < |b.members| => KeptMember(b.members[w], chunks[b.cid], r.start))
  }

  /** The tensors of every bundle the range takes, in bundle order. */
  function KeptOf(chunks: Chunks, r: Range, bundles: seq<Bundle>): seq<Kept>
    requires AllFit(chunks, r, bundles)
  {
    if bundles == [] then []
    else KeptOf(chunks, r, bundles[..|bundles| - 1]) + KeptFrom(chunks, r, bundles[|bundles| - 1])
  }

  /** First pass: every name must be known and every taken bundle present with its stated size. */
  method SelectBundles(chunks: Chunks, r: Range, bundles: seq<Bundle>) returns (e: Result<(), StitchError>)
    ensures e.Ok? <==> AllReadable(chunks, r, bundles)
    ensures e.Err? ==> e.error in {BadBundleName, UnknownBundle, MissingChunk, BundleSize}
  {
    for b := 0 to |bundles|
      invariant forall c | 0 <= c < b :: Readable(chunks, r, bundles[c])
    {
      var bundle := bundles[b];
      var taken := Includes(r, bundle.name);
      if taken.Err? {
        assert !Readable(chunks, r, bundle);
        return Err(taken.error);
      }
      if taken.value {
        if bundle.cid !in chunks {
          assert !Readable(chunks, r, bundle);
          return Err(MissingChunk);
        }
        if |chunks[bundle.cid]| != bundle.size {
          assert !Readable(chunks, r, bundle);
          return Err(BundleSize);
        }
      }
    }
    return Ok(());
  }

  /** Second pass: cut the members out and rename them. */
  method KeepTensors(chunks: Chunks, r: Range, bundles: seq<Bundle>) returns (e: Result<seq<Kept>, StitchError>)
    requires AllReadable(chunks, r, bundles)
    ensures e.Ok? <==> AllFit(chunks, r, bundles)
    ensures e.Ok? ==> e.value == KeptOf(chunks, r, bundles)
    ensures e.Err? ==> e.error == MemberOverrun
  {
    var kept := [];
    assert bundles[..0] == [];
    for b := 0 to |bundles|
      invariant AllFit(chunks, r, bundles[..b]) && kept == KeptOf(chunks, r, bundles[..b])
    {
      var bundle := bundles[b];
      assert Readable(chunks, r, bundle);
      assert bundles[..b + 1][..b] == bundles[..b];
      if Includes(r, bundle.name).value {
        var members :- KeepMembers(bundle, chunks[bundle.cid], r.start);
        kept := kept + members;
      }
    }
    assert bundles[..|bundles|] == bundles;
    return Ok(kept);
  }

  method KeepMembers(b: Bundle, bytes: seq<byte>, start: nat) returns (e: Result<seq<Kept>, StitchError>)
    ensures e.Ok? <==> forall w | 0 <= w < |b.members| :: b.members[w].start + b.members[w].size <= |bytes|
    ensures e.Ok? ==> e.value == seq(|b.members|, w requires 0 <= w < |b.members| && e.Ok? => KeptMember(b.members[w], bytes, start))
    ensures e.Err? ==> e.error == MemberOverrun
  {
    var kept := [];
    for w := 0 to |b.members|
      invariant |kept| == w
      invariant forall v | 0 <= v < w :: b.members[v].start + b.members[v].size <= |bytes|
                                         && kept[v] == KeptMember(b.members[v], bytes, start)
    {
      if b.members[w].start + b.members[w].size > |bytes| {
        return Err(MemberOverrun);
      }
      kept := kept + [KeptMember(b.members[w], bytes, start)];
    }
    return Ok(kept);
  }

  // ---------- the new metadata ----------

  /** The layer count becomes the range's; everything else stays. */
  function RewriteKv(kv: Kv, key: seq<byte>, n: nat): Kv {
    if kv.key == key && kv.ty == TY_U32 then Kv(kv.key, TY_U32, Le(4, n)) else kv
  }

  function RewriteAll(kvs: seq<Kv>, key: seq<byte>, n: nat): (r: seq<Kv>)
    ensures |r| == |kvs|
  {
    seq(|kvs|, i requires 0 <= i < |kvs| => RewriteKv(kvs[i], key, n))
  }

  function Flag(key: seq<byte>, on: bool): Kv {
    Kv(key, TY_BOOL, [if on then 1 else 0])
  }

  const HAS_EMBED: seq<byte> := Text("intelnav.has_embed")
  const HAS_HEAD: seq<byte> := Text("intelnav.has_head")

  /** The metadata of the stitched file. */
  function NewKvs(kvs: seq<Kv>, arch: seq<byte>, r: Range): seq<Kv>
    requires r.start <= r.end
  {
    RewriteAll(kvs, arch + BLOCK_COUNT, r.end - r.start) + [Flag(HAS_EMBED, r.embed), Flag(HAS_HEAD, r.head)]
  }

  /** Copy every record verbatim except the layer count, then append the two flags. */
  method RewriteKvs(f: File, header: seq<byte>, arch: seq<byte>, r: Range, ghost h: Header)
    returns (e: Result<(seq<byte>, nat), StitchError>)
    requires IsOpen(f, h) && header <= f.bytes && r.start <= r.end
    ensures h.kvEnd <= |header| ==> e.Ok?
    ensures e.Ok? ==> e.value == (EncodeKvs(NewKvs(h.kvs, arch, r)), |h.kvs| + 2)
    ensures e.Err? ==> e.error == HeaderOverrun
  {
    hide IsOpen, EncodeKv, GoodKv, ParseHeader, Le, EncodeText;
    var listed := KvEntries(f, h);
    var entries := listed.value;
    var key := arch + BLOCK_COUNT;
    var out, n := [], 0;
    ghost var rewritten := RewriteAll(h.kvs, key, r.end - r.start);
    for i := 0 to |entries|
      invariant n == i && out == EncodeKvs(rewritten[..i])
    {
      var e := entries[i];
      assert Locates(e, f.bytes, h.kvs[i]);
      if e.end > |header| {
        return Err(HeaderOverrun);
      }
      n := n + 1;
      assert header[e.start..e.end] == f.bytes[e.start..e.end];
      OneMoreRecord(rewritten, i);
      if e.key == key && e.ty == TY_U32 {
        out := out + WriteKvU32(e.key, r.end - r.start);
      } else {
        out := out + header[e.start..e.end];
      }
    }
    assert rewritten[..|rewritten|] == rewritten;
    out := out + WriteKvBool(HAS_EMBED, r.embed);
    n := n + 1;
    out := out + WriteKvBool(HAS_HEAD, r.head);
    n := n + 1;
    TwoFlags(rewritten, Flag(HAS_EMBED, r.embed), Flag(HAS_HEAD, r.head));
    return Ok((out, n));
  }

  function WriteKvU32(key: seq<byte>, value: nat): (b: seq<byte>)
    ensures b == EncodeKv(Kv(key, TY_U32, Le(4, value)))
  {
    EncodeText(key) + Le(4, TY_U32) + Le(4, value)
  }

  function WriteKvBool(key: seq<byte>, value: bool): (b: seq<byte>)
    ensures b == EncodeKv(Flag(key, value))
  {
    EncodeText(key) + Le(4, TY_BOOL) + [if value then 1 else 0]
  }

  lemma OneMoreRecord(kvs: seq<Kv>, i: nat)
    requires i < |kvs|
    ensures EncodeKvs(kvs[..i + 1]) == EncodeKvs(kvs[..i]) + EncodeKv(kvs[i])
    ensures EncodeKvs(kvs[..0]) == []
  {
    EncodeKvsSplit(kvs[..i], [kvs[i]]);
    assert kvs[..i + 1] == kvs[..i] + [kvs[i]];
  }

  lemma TwoFlags(kvs: seq<Kv>, a: Kv, b: Kv)
    ensures EncodeKvs(kvs + [a, b]) == EncodeKvs(kvs) + EncodeKv(a) + EncodeKv(b)
  {
    EncodeKvsSplit(kvs, [a, b]);
    EncodeKvsSplit([a], [b]);
    assert [a, b] == [a] + [b];
  }

  // ---------- the new index and data ----------

  /** The data region of the stitched file: each tensor padded with zeros to the alignment. */
  function DataBytes(kept: seq<Kept>, a: nat): seq<byte>
  {
    if kept == [] then []
    else
      var before := DataBytes(kept[..|kept| - 1], a);
      before + Padded(before, kept[|kept| - 1].bytes, a)
  }

  /** `bytes` and the zeros that bring what follows `before` to the next boundary. */
  function Padded(before: seq<byte>, bytes: seq<byte>, a: nat): seq<byte> {
    bytes + Zeros(AlignUp(|before| + |bytes|, a) - (|before| + |bytes|))
  }

  /** Where tensor `i` starts: behind the padded ones before it. */
  function OffsetAt(kept: seq<Kept>, a: nat, i: nat): (o: nat)
    requires i <= |kept|
    ensures o == |DataBytes(kept[..i], a)|
    decreases i
  {
    if i == 0 then 0
    else
      assert kept[..i][..i - 1] == kept[..i - 1];
      AlignUp(OffsetAt(kept, a, i - 1) + |kept[i - 1].bytes|, a)
  }

  /** The index entries of the stitched file. */
  function Placed(kept: seq<Kept>, a: nat): (ts: seq<Tensor>)
    ensures |ts| == |kept|
  {
    seq(|kept|, i requires 0 <= i < |kept| => Tensor(kept[i].name, kept[i].shape, kept[i].dtype, OffsetAt(kept, a, i)))
  }

  lemma OffsetStep(kept: seq<Kept>, a: nat, i: nat)
    requires i < |kept|
    ensures OffsetAt(kept, a, 0) == 0
    ensures OffsetAt(kept, a, i + 1) == AlignUp(OffsetAt(kept, a, i) + |kept[i].bytes|, a)
  {
  }

  lemma IndexStep(kept: seq<Kept>, a: nat, i: nat)
    requires i < |kept|
    ensures var t := kept[i];
            EncodeTensors(Placed(kept, a)[..i + 1])
            == EncodeTensors(Placed(kept, a)[..i]) + EncodeText(t.name) + Le(4, |t.shape|) + WriteDims(t.shape)
               + Le(4, t.dtype) + Le(8, OffsetAt(kept, a, i))
  {
    hide OffsetAt, EncodeTensors, EncodeTensor, EncodeText, EncodeShape, Le;
    OneMoreTensorRecord(Placed(kept, a), i);
    var t := kept[i];
    Append5(EncodeTensors(Placed(kept, a)[..i]), EncodeText(t.name), Le(4, |t.shape|), WriteDims(t.shape), Le(4, t.dtype),
            Le(8, OffsetAt(kept, a, i)));
  }

  lemma Append5(a: seq<byte>, x: seq<byte>, y: seq<byte>, z: seq<byte>, u: seq<byte>, v: seq<byte>)
    ensures a + (x + y + z + u + v) == a + x + y + z + u + v
  {
  }

  lemma NothingYet(kept: seq<Kept>, a: nat)
    ensures OffsetAt(kept, a, 0) == 0 && EncodeTensors(Placed(kept, a)[..0]) == [] && DataBytes(kept[..0], a) == []
  {
  }

  method BuildIndex(kept: seq<Kept>, a: nat) returns (index: seq<byte>, offsets: seq<nat>)
    ensures index == EncodeTensors(Placed(kept, a))
    ensures |offsets| == |kept| && forall i | 0 <= i < |kept| :: offsets[i] == OffsetAt(kept, a, i)
  {
    hide OffsetAt, Placed, EncodeTensors, Le, EncodeText, WriteDims, AlignUp;
    index, offsets := [], [];
    var cursor := 0;
    ghost var placed := Placed(kept, a);
    NothingYet(kept, a);
    for i := 0 to |kept|
      invariant index == EncodeTensors(placed[..i])
      invariant |offsets| == i && forall j | 0 <= j < i :: offsets[j] == OffsetAt(kept, a, j)
      invariant cursor == OffsetAt(kept, a, i)
    {
      var t := kept[i];
      IndexStep(kept, a, i);
      OffsetStep(kept, a, i);
      index := index + EncodeText(t.name) + Le(4, |t.shape|) + WriteDims(t.shape) + Le(4, t.dtype) + Le(8, cursor);
      offsets := offsets + [cursor];
      cursor := AlignUp(cursor + |t.bytes|, a);
    }
    assert placed[..|placed|] == placed;
  }

  function WriteDims(shape: seq<nat>): (b: seq<byte>)
    ensures b == EncodeShape(shape)
  {
    EncodeShape(shape)
  }

  lemma OneMoreTensorRecord(ts: seq<Tensor>, i: nat)
    requires i < |ts|
    ensures EncodeTensors(ts[..i + 1]) == EncodeTensors(ts[..i]) + EncodeTensor(ts[i])
    ensures EncodeTensor(ts[i]) == EncodeText(ts[i].name) + Le(4, |ts[i].shape|) + EncodeShape(ts[i].shape)
                                   + Le(4, ts[i].dtype) + Le(8, ts[i].offset)
  {
    EncodeTensorsSplit(ts[..i], [ts[i]]);
    assert ts[..i + 1] == ts[..i] + [ts[i]];
  }

  /** One tensor and its padding, wherever in the file the region starts. */
  lemma DataStep(front: seq<byte>, kept: seq<Kept>, a: nat, i: nat)
    requires a > 0 && |front| % a == 0 && i < |kept|
    ensures var file := front + DataBytes(kept[..i], a);
            var after := |file| + |kept[i].bytes|;
            && |file| == |front| + OffsetAt(kept, a, i)
            && file + kept[i].bytes + Zeros(AlignUp(after, a) - after) == front + DataBytes(kept[..i + 1], a)
  {
    hide AlignUp, DataBytes, OffsetAt, Zeros;
    var before, bytes := DataBytes(kept[..i], a), kept[i].bytes;
    AlignPastBase(|front|, |before| + |bytes|, a);
    MoreData(kept, a, i);
    Join(front, before, bytes, Zeros(AlignUp(|before| + |bytes|, a) - (|before| + |bytes|)));
  }

  lemma MoreData(kept: seq<Kept>, a: nat, i: nat)
    requires i < |kept|
    ensures DataBytes(kept[..i + 1], a) == DataBytes(kept[..i], a) + Padded(DataBytes(kept[..i], a), kept[i].bytes, a)
    ensures |DataBytes(kept[..i], a)| == OffsetAt(kept, a, i)
  {
    hide Padded, AlignUp, OffsetAt;
    assert kept[..i + 1][..i] == kept[..i];
    var o := OffsetAt(kept, a, i);
  }

  lemma Join(a: seq<byte>, b: seq<byte>, c: seq<byte>, d: seq<byte>)
    ensures a + b + c + d == a + (b + (c + d))
  {
  }

  /** Write header and data. The position check before each tensor cannot fail, whatever the sizes and
      the alignment: aligning within the region and aligning within the file agree. */
  method WriteFile(header: seq<byte>, kept: seq<Kept>, offsets: seq<nat>, a: nat) returns (e: Result<seq<byte>, StitchError>)
    requires a > 0 && |offsets| == |kept| && forall i | 0 <= i < |kept| :: offsets[i] == OffsetAt(kept, a, i)
    ensures e == Ok(header + Zeros(AlignUp(|header|, a) - |header|) + DataBytes(kept, a))
  {
    hide DataBytes, OffsetAt, AlignUp;
    var dataStart := AlignUp(|header|, a);
    Aligned(|header|, a);
    var file := header + Zeros(dataStart - |header|);
    ghost var front := file;
    NothingYet(kept, a);
    assert front + [] == front;
    for i := 0 to |kept|
      invariant file == front + DataBytes(kept[..i], a)
    {
      var t := kept[i];
      DataStep(front, kept, a, i);
      if dataStart + offsets[i] != |file| {
        assert false;
        return Err(Drift);
      }
      file := file + t.bytes;
      file := file + Zeros(AlignUp(|file|, a) - |file|);
    }
    assert kept[..|kept|] == kept;
    return Ok(file);
  }

  // ---------- stitching ----------

  /** The header chunk made openable: padded to the stated size, and one byte more. */
  function Scratch(m: Manifest, header: seq<byte>): seq<byte> {
    header + Zeros(if m.dataOffset > |header| then m.dataOffset - |header| else 0) + [0]
  }

  function Alignment(m: Manifest): nat {
    if m.alignment > 1 then m.alignment else 1
  }

  function NewHeader(m: Manifest, kvs: seq<Kv>, ts: seq<Tensor>): seq<byte> {
    MAGIC + Le(4, m.version) + Le(8, |ts|) + Le(8, |kvs|) + EncodeKvs(kvs) + EncodeTensors(ts)
  }

  /** The stitched file: new metadata, new index, padding, data. */
  function Stitched(m: Manifest, kvs: seq<Kv>, kept: seq<Kept>): seq<byte>
  {
    var a := Alignment(m);
    var header := NewHeader(m, kvs, Placed(kept, a));
    header + Zeros(AlignUp(|header|, a) - |header|) + DataBytes(kept, a)
  }

  /** Everything the stitcher checks before it writes; `h` is the header of the header chunk. */
  ghost predicate Stitchable(m: Manifest, chunks: Chunks, hash: seq<byte> -> Cid, r: Range)
  {
    && ValidRange(m.nLayers, r)
    && ChunkOk(chunks, hash, m.headerCid, m.headerSize)
    && var header := chunks[m.headerCid];
    && ParseHeader(Scratch(m, header)).Ok? && m.architecture.Some?
    && AllReadable(chunks, r, m.bundles) && AllFit(chunks, r, m.bundles) && KeptOf(chunks, r, m.bundles) != []
  }

  method ReadHeader(m: Manifest, chunks: Chunks, hash: seq<byte> -> Cid) returns (e: Result<seq<byte>, StitchError>)
    ensures e.Ok? <==> ChunkOk(chunks, hash, m.headerCid, m.headerSize)
    ensures e.Ok? ==> e.value == chunks[m.headerCid]
    ensures e.Err? ==> e.error in {MissingChunk, HeaderHash, HeaderSize}
  {
    if m.headerCid !in chunks {
      return Err(MissingChunk);
    }
    var bytes := chunks[m.headerCid];
    if hash(bytes) != m.headerCid {
      return Err(HeaderHash);
    }
    if |bytes| != m.headerSize {
      return Err(HeaderSize);
    }
    return Ok(bytes);
  }

  /** What a stitch reports: on success exactly the stitched file. It succeeds when everything it checks
      holds and the header chunk holds the whole metadata; the position check never fails. */
  ghost predicate StitchReports(e: Result<Outcome, StitchError>, m: Manifest, chunks: Chunks, hash: seq<byte> -> Cid, r: Range)
  {
    && e != Err(Drift)
    && (e.Ok? ==>
          && Stitchable(m, chunks, hash, r)
          && var h := ParseHeader(Scratch(m, chunks[m.headerCid])).value;
          && var kvs, kept := NewKvs(h.kvs, m.architecture.value, r), KeptOf(chunks, r, m.bundles);
          e.value == Outcome(Stitched(m, kvs, kept), |kept|, |kvs|))
    && (Stitchable(m, chunks, hash, r) ==>
          (ParseHeader(Scratch(m, chunks[m.headerCid])).value.kvEnd <= |chunks[m.headerCid]| ==> e.Ok?))
  }

  method StitchSubset(m: Manifest, chunks: Chunks, hash: seq<byte> -> Cid, r: Range) returns (e: Result<Outcome, StitchError>)
    ensures StitchReports(e, m, chunks, hash, r)
    ensures r.start <= r.end <= m.nLayers && (r.embed ==> r.start == 0) && (r.head ==> r.end == m.nLayers)
            <==> e != Err(BadRange)
    ensures e.Ok? ==>
      m.headerCid in chunks && |chunks[m.headerCid]| == m.headerSize && hash(chunks[m.headerCid]) == m.headerCid
  {
    hide ParseHeader, AllReadable, AllFit, KeptOf, EncodeKvs, EncodeTensors, Placed, DataBytes, IsOpen, OffsetAt, NewKvs;
    if !ValidRange(m.nLayers, r) {
      return Err(BadRange);
    }
    var header :- ReadHeader(m, chunks, hash);
    var scratch := Scratch(m, header);
    var opening := Open(scratch);
    if opening.Err? {
      return Err(BadHeader(opening.error));
    }
    ghost var h := ParseHeader(scratch).value;
    if m.architecture.None? {
      return Err(NoArchitecture);
    }
    var _ :- SelectBundles(chunks, r, m.bundles);
    var kept :- KeepTensors(chunks, r, m.bundles);
    if kept == [] {
      return Err(NoTensors);
    }
    OpensOn(opening.value, h);
    var metadata :- RewriteKvs(opening.value, header, m.architecture.value, r, h);
    var a := Alignment(m);
    var index, offsets := BuildIndex(kept, a);
    var newHeader := MAGIC + Le(4, m.version) + Le(8, |kept|) + Le(8, metadata.1) + metadata.0 + index;
    NewKvsCount(h.kvs, m.architecture.value, r);
    PlacedCount(kept, a);
    var file := WriteFile(newHeader, kept, offsets, a);
    return Ok(Outcome(file.value, |kept|, metadata.1));
  }

  lemma OpensOn(f: File, h: Header)
    requires IsOpen(f, h)
    ensures ParseHeader(f.bytes) == Ok(h)
  {
  }

  lemma NewKvsCount(kvs: seq<Kv>, arch: seq<byte>, r: Range)
    requires r.start <= r.end
    ensures |NewKvs(kvs, arch, r)| == |kvs| + 2
  {
  }

  lemma PlacedCount(kept: seq<Kept>, a: nat)
    ensures |Placed(kept, a)| == |kept|
  {
  }
}
