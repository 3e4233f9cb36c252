/** Splitting a file into chunks. */
module Chunker {
  import opened Results
  import opened Bytes
  import opened Gguf
  import opened Printing
  import opened Reader
  import opened Regions
  import opened Bundles
  import opened Manifests
  import opened Routing
  import opened ModelInfo

  // ---------- building bundles ----------

  /** A bundle's bytes: its tensors' bytes end to end. */
  function BundleBytes(datas: seq<seq<byte>>, idx: seq<nat>): seq<byte>
    requires forall w | 0 <= w < |idx| :: idx[w] < |datas|
  {
    if idx == [] then [] else BundleBytes(datas, idx[..|idx| - 1]) + datas[idx[|idx| - 1]]
  }

  function MembersOf(hash: seq<byte> -> Cid, ts: seq<Tensor>, datas: seq<seq<byte>>, idx: seq<nat>): (r: seq<Member>)
    requires |datas| == |ts| && forall w | 0 <= w < |idx| :: idx[w] < |ts|
    ensures |r| == |idx|
  {
    if idx == [] then []
    else
      var init, i := idx[..|idx| - 1], idx[|idx| - 1];
      var t := ts[i];
      MembersOf(hash, ts, datas, init)
      + [Member(t.name, t.shape, t.dtype, t.offset, hash(datas[i]), |datas[i]|, |BundleBytes(datas, init)|)]
  }

  function BundleOf(hash: seq<byte> -> Cid, ts: seq<Tensor>, datas: seq<seq<byte>>, kind: Kind, idx: seq<nat>): Bundle
    requires |datas| == |ts| && forall w | 0 <= w < |idx| :: idx[w] < |ts|
  {
    var bytes := BundleBytes(datas, idx);
    Bundle(KindName(kind), hash(bytes), |bytes|, MembersOf(hash, ts, datas, idx))
  }

  /** Cutting a bundle at a member's place gives that tensor's bytes back. */
  lemma {:induction false} MemberCut(hash: seq<byte> -> Cid, ts: seq<Tensor>, datas: seq<seq<byte>>, idx: seq<nat>, w: nat)
    requires |datas| == |ts| && (forall v | 0 <= v < |idx| :: idx[v] < |ts|) && w < |idx|
    ensures var m, bytes := MembersOf(hash, ts, datas, idx)[w], BundleBytes(datas, idx);
      && m.name == ts[idx[w]].name && m.shape == ts[idx[w]].shape && m.dtype == ts[idx[w]].dtype
      && m.offset == ts[idx[w]].offset && m.cid == hash(datas[idx[w]]) && m.size == |datas[idx[w]]|
      && m.start + m.size <= |bytes| && bytes[m.start..m.start + m.size] == datas[idx[w]]
  {
    var init := idx[..|idx| - 1];
    var before := BundleBytes(datas, init);
    if w < |idx| - 1 {
      MemberCut(hash, ts, datas, init, w);
      var m := MembersOf(hash, ts, datas, init)[w];
      assert BundleBytes(datas, idx)[..|before|] == before;
      assert BundleBytes(datas, idx)[m.start..m.start + m.size] == before[m.start..m.start + m.size];
    }
  }

  /** The file's tensors have these bytes. */
  ghost predicate TensorData(bytes: seq<byte>, h: Header, datas: seq<seq<byte>>)
  {
    var d := DataStart(h);
    && |datas| == |h.tensors| && d <= |bytes| && Derived(OffsetsOf(h.tensors), Lengths(datas), |bytes| - d)
    && forall i | 0 <= i < |datas| :: IsSlice(bytes, CutStart(d, h.tensors[i].offset), datas[i])
  }

  function DataStart(h: Header): nat {
    AlignUp(h.indexEnd, AlignmentOf(h.kvs))
  }

  function Lengths(datas: seq<seq<byte>>): (r: seq<nat>)
    ensures |r| == |datas|
  {
    seq(|datas|, i requires 0 <= i < |datas| => |datas[i]|)
  }

  lemma CutOfSlice(f: File, offset: nat, data: seq<byte>)
    requires |f.bytes| < U64 && IsSlice(f.bytes, CutStart(f.dataOffset, offset), data)
    ensures CutFits(f.dataOffset, offset, |data|, |f.bytes|) && TensorBytes(f, offset, |data|) == data
  {
    ModOnce(CutStart(f.dataOffset, offset) + |data|);
  }

  /** Write out one bundle, tensor by tensor. The running hash is the hash of everything written. */
  method BuildBundle(hash: seq<byte> -> Cid, f: File, ts: seq<Tensor>, sizes: seq<nat>, kind: Kind, idx: seq<nat>,
                     ghost datas: seq<seq<byte>>)
    returns (b: Bundle, written: seq<byte>)
    requires |f.bytes| < U64 && |datas| == |ts| == |sizes| && forall w | 0 <= w < |idx| :: idx[w] < |ts|
    requires forall i | 0 <= i < |ts| :: sizes[i] == |datas[i]| && IsSlice(f.bytes, CutStart(f.dataOffset, ts[i].offset), datas[i])
    ensures b == BundleOf(hash, ts, datas, kind, idx) && written == BundleBytes(datas, idx)
  {
    hide CutStart, CutFits, IsSlice, CutEnd;
    var members, size := [], 0;
    written := [];
    for w := 0 to |idx|
      invariant written == BundleBytes(datas, idx[..w]) && size == |written|
      invariant members == MembersOf(hash, ts, datas, idx[..w])
    {
      var t := ts[idx[w]];
      CutOfSlice(f, t.offset, datas[idx[w]]);
      var bytes := TensorBytes(f, t.offset, sizes[idx[w]]);
      assert idx[..w + 1][..w] == idx[..w];
      members := members + [Member(t.name, t.shape, t.dtype, t.offset, hash(bytes), |bytes|, size)];
      written := written + bytes;
      size := size + |bytes|;
    }
    assert idx[..|idx|] == idx;
    b := Bundle(KindName(kind), hash(written), size, members);
  }

  // ---------- chunking a file ----------

  /** A file that does not parse, or whose tensors do not lie inside it (the source aborts on the cut). */
  datatype ChunkError = BadFile(error: GgufError) | OutOfFile

  const MAX_FILE: nat := 0x7fff_ffff_ffff_ffff

  /** Chunks are stored once: a second one of the same name is dropped. */
  function Store(chunks: Chunks, cid: Cid, bytes: seq<byte>): Chunks {
    if cid in chunks then chunks else chunks[cid := bytes]
  }

  function BundlesFor(hash: seq<byte> -> Cid, ts: seq<Tensor>, datas: seq<seq<byte>>, order: seq<Kind>): (r: seq<Bundle>)
    requires |datas| == |ts|
    ensures |r| == |order|
  {
    seq(|order|, b requires 0 <= b < |order| => BundleOf(hash, ts, datas, order[b], Matching(KindsOf(ts), order[b], |ts|)))
  }

  /** The layer count: what the metadata says, else one past the largest block, as a 32-bit number. */
  ghost predicate LayerCount(h: Header, n: nat)
  {
    if BlockCountOf(h.kvs).Some? then n == BlockCountOf(h.kvs).value
    else exists m: int :: LargestBlock(KindsOf(h.tensors), |h.tensors|, m) && n == (m + 1) % U32
  }

  /** `m` describes the file with this header and this tensor data. */
  ghost predicate Describes(m: Manifest, bytes: seq<byte>, h: Header, datas: seq<seq<byte>>, hash: seq<byte> -> Cid)
  {
    && TensorData(bytes, h, datas)
    && m.architecture == ArchOf(h.kvs) && LayerCount(h, m.nLayers)
    && m.version == VERSION && m.alignment == AlignmentOf(h.kvs) && m.dataOffset == DataStart(h)
    && m.nKv == |h.kvs| && m.nTensors == |h.tensors|
    && m.headerCid == hash(bytes[..DataStart(h)]) && m.headerSize == DataStart(h)
    && m.bundles == BundlesFor(hash, h.tensors, datas, KindOrder(KindsOf(h.tensors), |h.tensors|))
  }

  function BundleData(ts: seq<Tensor>, datas: seq<seq<byte>>, k: Kind): seq<byte>
    requires |datas| == |ts|
  {
    BundleBytes(datas, Matching(KindsOf(ts), k, |ts|))
  }

  /** Under every name in the store lie bytes of that name, and they are among those produced. */
  ghost predicate Named(chunks: Chunks, hash: seq<byte> -> Cid, produced: set<seq<byte>>)
  {
    && (forall c | c in chunks :: hash(chunks[c]) == c && chunks[c] in produced)
    && forall b | b in produced :: hash(b) in chunks
  }

  lemma StoreNamed(chunks: Chunks, hash: seq<byte> -> Cid, produced: set<seq<byte>>, b: seq<byte>)
    requires Named(chunks, hash, produced)
    ensures Named(Store(chunks, hash(b), b), hash, produced + {b})
  {
  }

  /** Without collisions among what was produced, every produced chunk is in the store under its name. */
  lemma NamedFinds(chunks: Chunks, hash: seq<byte> -> Cid, produced: set<seq<byte>>, b: seq<byte>)
    requires Named(chunks, hash, produced) && b in produced
    requires forall x, y | x in produced && y in produced && hash(x) == hash(y) :: x == y
    ensures hash(b) in chunks && chunks[hash(b)] == b
  {
  }

  ghost function BundleSet(ts: seq<Tensor>, datas: seq<seq<byte>>, order: seq<Kind>): set<seq<byte>>
    requires |datas| == |ts|
  {
    set k | k in order :: BundleData(ts, datas, k)
  }

  lemma BundleSetGrows(ts: seq<Tensor>, datas: seq<seq<byte>>, order: seq<Kind>, b: nat)
    requires |datas| == |ts| && b < |order|
    ensures BundleSet(ts, datas, order[..b + 1]) == BundleSet(ts, datas, order[..b]) + {BundleData(ts, datas, order[b])}
  {
    hide BundleData;
    assert order[..b + 1] == order[..b] + [order[b]];
  }

  lemma BundleSetStarts(ts: seq<Tensor>, datas: seq<seq<byte>>)
    requires |datas| == |ts|
    ensures BundleSet(ts, datas, []) == {}
  {
  }

  /** Everything chunking a file produces. */
  ghost function Produced(bytes: seq<byte>, h: Header, datas: seq<seq<byte>>): set<seq<byte>>
    requires TensorData(bytes, h, datas)
  {
    {bytes[..DataStart(h)]} + BundleSet(h.tensors, datas, KindOrder(KindsOf(h.tensors), |h.tensors|))
  }

  ghost function DatasOf(f: File, ts: seq<Tensor>, sizes: seq<nat>): (datas: seq<seq<byte>>)
    requires |f.bytes| < U64 && |sizes| == |ts|
    requires forall i | 0 <= i < |ts| :: sizes[i] < U64 && CutFits(f.dataOffset, ts[i].offset, sizes[i], |f.bytes|)
    ensures |datas| == |ts|
    ensures forall i | 0 <= i < |ts| :: |datas[i]| == sizes[i] && IsSlice(f.bytes, CutStart(f.dataOffset, ts[i].offset), datas[i])
    ensures Lengths(datas) == sizes
  {
    seq(|ts|, i requires 0 <= i < |ts| => TensorBytes(f, ts[i].offset, sizes[i]))
  }

  /** Every cut the chunker makes lies inside the file: the header's, and the tensors', which all land there
      or all wrap around into it. */
  predicate InFile(bytes: seq<byte>, h: Header) {
    var d, offsets := DataStart(h), OffsetsOf(h.tensors);
    d <= |bytes| && (AllLand(offsets, d, |bytes|) || AllWrap(offsets, d, |bytes|))
  }


  /** Route the tensors of an open file, and write its header and bundles. */
  method ChunkFile(f: File, hash: seq<byte> -> Cid, ghost h: Header)
    returns (r: Result<(Manifest, Chunks), ChunkError>, ghost datas: seq<seq<byte>>)
    requires |f.bytes| <= MAX_FILE && IsOpen(f, h)
    ensures r.Ok? <==> InFile(f.bytes, h)
    ensures r.Err? ==> r.error == OutOfFile
    ensures r.Ok? ==> Describes(r.value.0, f.bytes, h, datas, hash)
    ensures r.Ok? ==> Named(r.value.1, hash, Produced(f.bytes, h, datas))
  {
    hide ParseHeader, Derived, KindOrder, Matching, Named, LargestBlock, BundlesFor, BundleSet, IsSlice, BlockCountOf, ArchOf;
    datas := [];
    HeaderIsGood(f.bytes);
    var arch, blockCount := ReadModelInfo(f, h);
    var listed := Tensors(f, h);
    var ts, sizes := listed.value.0, listed.value.1;
    var order, groups, maxBlock := RouteTensors(ts);
    var nLayers := if blockCount.Some? then blockCount.value else (maxBlock + 1) % U32;
    if f.dataOffset > |f.bytes| {
      return Err(OutOfFile), datas;
    }
    Sub64Exact(|f.bytes|, f.dataOffset);
    SizesFit(ts, sizes, f.dataOffset, |f.bytes|);
    if exists i | 0 <= i < |ts| :: !CutFits(f.dataOffset, ts[i].offset, sizes[i], |f.bytes|) {
      return Err(OutOfFile), datas;
    }
    datas := DatasOf(f, ts, sizes);
    var header := f.bytes[..f.dataOffset];
    var bundles, chunks := WriteBundles(hash, f, ts, sizes, order, groups, header, datas);
    var m := Manifest(arch, nLayers, VERSION, f.alignment, f.dataOffset, f.nKv, f.nTensors, hash(header), |header|, bundles);
    return Ok((m, chunks)), datas;
  }

  /** Chunk a file: fails when it does not parse or a cut would lie outside it, and otherwise describes
      it exactly. */
  method ChunkGguf(bytes: seq<byte>, hash: seq<byte> -> Cid)
    returns (r: Result<(Manifest, Chunks), ChunkError>, ghost datas: seq<seq<byte>>)
    requires |bytes| <= MAX_FILE
    ensures ParseHeader(bytes).Err? ==> r == Err(BadFile(ParseHeader(bytes).error))
    ensures ParseHeader(bytes).Ok? ==> (r.Ok? <==> InFile(bytes, ParseHeader(bytes).value))
    ensures r.Ok? ==> Describes(r.value.0, bytes, ParseHeader(bytes).value, datas, hash)
    ensures r.Ok? ==> Named(r.value.1, hash, Produced(bytes, ParseHeader(bytes).value, datas))
  {
    hide ParseHeader, Describes, Named, InFile;
    var file := Open(bytes);
    if file.Err? {
      return Err(BadFile(file.error)), [];
    }
    r, datas := ChunkFile(file.value, hash, ParseHeader(bytes).value);
  }

  /** Stream the header and every bundle into the store. */
  method WriteBundles(hash: seq<byte> -> Cid, f: File, ts: seq<Tensor>, sizes: seq<nat>, order: seq<Kind>,
                      groups: map<Kind, seq<nat>>, header: seq<byte>, ghost datas: seq<seq<byte>>)
    returns (bundles: seq<Bundle>, chunks: Chunks)
    requires |f.bytes| < U64 && |datas| == |ts| == |sizes| && Routed(KindsOf(ts), order, groups, |ts|)
    requires forall i | 0 <= i < |ts| :: sizes[i] == |datas[i]| && IsSlice(f.bytes, CutStart(f.dataOffset, ts[i].offset), datas[i])
    ensures bundles == BundlesFor(hash, ts, datas, order)
    ensures Named(chunks, hash, {header} + BundleSet(ts, datas, order))
  {
    hide KindOrder, Matching, Named, IsSlice, BundleSet, BundleBytes;
    chunks := Store(map[], hash(header), header);
    ghost var produced := {header};
    FirstNamed(hash, header);
    bundles := [];
    BundleSetStarts(ts, datas);
    assert order[..0] == [];
    for b := 0 to |order|
      invariant |bundles| == b
      invariant forall c | 0 <= c < b :: bundles[c] == BundlesFor(hash, ts, datas, order)[c]
      invariant Named(chunks, hash, produced)
      invariant produced == {header} + BundleSet(ts, datas, order[..b])
    {
      var k := order[b];
      assert k in order && groups[k] == Matching(KindsOf(ts), k, |ts|);
      var bundle, written := BuildBundle(hash, f, ts, sizes, k, groups[k], datas);
      StoreNamed(chunks, hash, produced, written);
      BundleSetGrows(ts, datas, order, b);
      chunks := Store(chunks, bundle.cid, written);
      produced := produced + {written};
      bundles := bundles + [bundle];
    }
    assert order[..|order|] == order;
  }

  lemma FirstNamed(hash: seq<byte> -> Cid, header: seq<byte>)
    ensures Named(Store(map[], hash(header), header), hash, {header})
  {
  }

  lemma SizesFit(ts: seq<Tensor>, sizes: seq<nat>, dataOffset: nat, len: nat)
    requires Derived(OffsetsOf(ts), sizes, Sub64(len, dataOffset)) && dataOffset <= len < U64 && GoodTensors(ts)
    ensures |sizes| == |ts| && forall i | 0 <= i < |ts| :: sizes[i] < U64
    ensures (forall i | 0 <= i < |ts| :: CutFits(dataOffset, ts[i].offset, sizes[i], len))
            <==> AllLand(OffsetsOf(ts), dataOffset, len) || AllWrap(OffsetsOf(ts), dataOffset, len)
  {
    hide Derived, CutFits, AllLand, AllWrap;
    var offsets := OffsetsOf(ts);
    CutsFitIff(offsets, sizes, dataOffset, len);
    forall i | 0 <= i < |ts|
      ensures sizes[i] < U64
    {
      SizeIsWord(offsets, sizes, Sub64(len, dataOffset), i);
    }
  }

  lemma SizeIsWord(offsets: seq<nat>, sizes: seq<nat>, end: nat, i: nat)
    requires Derived(offsets, sizes, end) && i < |offsets|
    ensures |sizes| == |offsets| && sizes[i] < U64
  {
    hide Order;
    var w := Place(offsets, i);
  }
}
