/** Cutting a model into slices: chunk, stitch and parse, end to end. */
module Slices {
  import opened Results
  import opened Bytes
  import opened Counting
  import opened Gguf
  import opened Printing
  import opened Regions
  import opened Bundles
  import opened Manifests
  import opened Routing
  import opened Chunker
  import opened Checking
  import opened Stitching
  import opened StitchLaws

  /** Whether a range takes the tensors of a kind. */
  predicate TakesKind(r: Range, k: Kind) {
    match k
    case Embed => r.embed
    case Block(n) => r.start <= n < r.end
    case Head => r.head
  }

  /** The stitcher reads a bundle's kind back from its name. */
  lemma IncludesKind(r: Range, k: Kind)
    requires GoodKind(k)
    ensures Includes(r, KindName(k)) == Ok(TakesKind(r, k))
  {
    var name := KindName(k);
    match k {
      case Embed =>
      case Head =>
        assert name[0] == CharByte('h') && Text("embed")[0] == CharByte('e');
        assert BLK[0] == CharByte('b');
      case Block(n) =>
        assert name[0] == BLK[0] == CharByte('b');
        assert Text("embed")[0] == CharByte('e') && Text("head")[0] == CharByte('h');
        assert name[4..] == Dec(n);
        ParseDec(n);
    }
  }

  // ---------- which source tensors a slice holds ----------

  /** The source indices of a slice's tensors, bundle by bundle. */
  function KeptIdx(kinds: seq<Kind>, order: seq<Kind>, r: Range): (idx: seq<nat>)
    ensures forall w | 0 <= w < |idx| :: idx[w] < |kinds|
  {
    if order == [] then []
    else
      var k := order[|order| - 1];
      KeptIdx(kinds, order[..|order| - 1], r) + if TakesKind(r, k) then Matching(kinds, k, |kinds|) else []
  }

  function KeptTensor(ts: seq<Tensor>, datas: seq<seq<byte>>, i: nat, start: nat): Kept
    requires |datas| == |ts| && i < |ts|
  {
    Kept(Rename(ts[i].name, start), ts[i].dtype, ts[i].shape, datas[i])
  }

  function KeptTensors(ts: seq<Tensor>, datas: seq<seq<byte>>, idx: seq<nat>, start: nat): (r: seq<Kept>)
    requires |datas| == |ts| && forall w | 0 <= w < |idx| :: idx[w] < |ts|
    ensures |r| == |idx|
  {
    seq(|idx|, w requires 0 <= w < |idx| => KeptTensor(ts, datas, idx[w], start))
  }

  predicate Holds(chunks: Chunks, cid: Cid, bytes: seq<byte>) {
    cid in chunks && chunks[cid] == bytes
  }

  /** Stitching one bundle of a chunked model takes its tensors from the source. */
  lemma KeptFromChunk(chunks: Chunks, r: Range, hash: seq<byte> -> Cid, ts: seq<Tensor>, datas: seq<seq<byte>>, k: Kind)
    requires |datas| == |ts| && GoodKind(k)
    requires TakesKind(r, k) ==>
      Holds(chunks, BundleOf(hash, ts, datas, k, Matching(KindsOf(ts), k, |ts|)).cid, BundleData(ts, datas, k))
    ensures var idx := Matching(KindsOf(ts), k, |ts|);
            var b := BundleOf(hash, ts, datas, k, idx);
            && Readable(chunks, r, b) && MembersFit(chunks, r, b)
            && KeptFrom(chunks, r, b) == if TakesKind(r, k) then KeptTensors(ts, datas, idx, r.start) else []
  {
    hide Includes, KindName, Matching, BundleBytes, MembersOf, Rename;
    var idx := Matching(KindsOf(ts), k, |ts|);
    IncludesKind(r, k);
    forall w | 0 <= w < |idx|
      ensures var m := MembersOf(hash, ts, datas, idx)[w];
              var bytes := BundleBytes(datas, idx);
              m.start + m.size <= |bytes| && KeptMember(m, bytes, r.start) == KeptTensor(ts, datas, idx[w], r.start)
    {
      MemberCut(hash, ts, datas, idx, w);
    }
  }

  lemma JoinKept(ts: seq<Tensor>, datas: seq<seq<byte>>, a: seq<nat>, b: seq<nat>, start: nat)
    requires |datas| == |ts| && (forall w | 0 <= w < |a| :: a[w] < |ts|) && forall w | 0 <= w < |b| :: b[w] < |ts|
    ensures KeptTensors(ts, datas, a + b, start) == KeptTensors(ts, datas, a, start) + KeptTensors(ts, datas, b, start)
  {
  }

  /** Stitching a chunked model keeps exactly the source tensors of the kinds the range takes. */
  lemma {:induction false} KeptOfChunks(chunks: Chunks, r: Range, hash: seq<byte> -> Cid, ts: seq<Tensor>,
                                        datas: seq<seq<byte>>, order: seq<Kind>)
    requires |datas| == |ts| && GoodKinds(order)
    requires forall b | 0 <= b < |order| && TakesKind(r, order[b]) ::
      Holds(chunks, BundlesFor(hash, ts, datas, order)[b].cid, BundleData(ts, datas, order[b]))
    ensures var bundles := BundlesFor(hash, ts, datas, order);
            && AllReadable(chunks, r, bundles) && AllFit(chunks, r, bundles)
            && KeptOf(chunks, r, bundles) == KeptTensors(ts, datas, KeptIdx(KindsOf(ts), order, r), r.start)
  {
    hide BundleOf, BundleData, Matching, KeptFrom, Readable, MembersFit, KeptTensors, TakesKind, Holds;
    if order == [] {
      assert KeptTensors(ts, datas, [], r.start) == [];
    } else {
      var init, k := order[..|order| - 1], order[|order| - 1];
      var bundles := BundlesFor(hash, ts, datas, order);
      assert bundles[..|init|] == BundlesFor(hash, ts, datas, init);
      KeptOfChunks(chunks, r, hash, ts, datas, init);
      KeptFromChunk(chunks, r, hash, ts, datas, k);
      var idx := if TakesKind(r, k) then Matching(KindsOf(ts), k, |ts|) else [];
      JoinKept(ts, datas, KeptIdx(KindsOf(ts), init, r), idx, r.start);
    }
  }

  // ---------- every tensor once ----------

  lemma JoinCounts(a: seq<nat>, b: seq<nat>, i: nat)
    ensures multiset(a + b)[i] == multiset(a)[i] + multiset(b)[i]
  {
  }

  /** A slice holds each tensor of a kind it takes once, and no other. */
  lemma {:induction false} KeptIdxCounts(kinds: seq<Kind>, order: seq<Kind>, r: Range, i: nat)
    requires i < |kinds| && Ranked(order)
    ensures multiset(KeptIdx(kinds, order, r))[i] == if kinds[i] in order && TakesKind(r, kinds[i]) then 1 else 0
  {
    hide Matching, TakesKind;
    if order != [] {
      var init, k := order[..|order| - 1], order[|order| - 1];
      assert order == init + [k];
      assert k !in init;
      KeptIdxCounts(kinds, init, r, i);
      MatchingCounts(kinds, k, |kinds|, i);
      JoinCounts(KeptIdx(kinds, init, r), if TakesKind(r, k) then Matching(kinds, k, |kinds|) else [], i);
    }
  }

  /** The slice's tensors of a source file. */
  function SliceIdx(ts: seq<Tensor>, r: Range): (idx: seq<nat>)
    ensures forall w | 0 <= w < |idx| :: idx[w] < |ts|
  {
    KeptIdx(KindsOf(ts), KindOrder(KindsOf(ts), |ts|), r)
  }

  lemma SliceIdxCounts(ts: seq<Tensor>, r: Range, i: nat)
    requires i < |ts|
    ensures multiset(SliceIdx(ts, r))[i] == if TakesKind(r, KindsOf(ts)[i]) then 1 else 0
  {
    hide KindOrder, TakesKind, KindsOf;
    var kinds := KindsOf(ts);
    KindsAreGood(ts);
    KindOrderRanked(kinds, |ts|);
    KindOrderLists(kinds, |ts|, kinds[i]);
    assert kinds[..|ts|] == kinds;
    KeptIdxCounts(kinds, KindOrder(kinds, |ts|), r, i);
  }

  /** Boundaries that cut the layers into consecutive ranges. */
  ghost predicate Cut(c: seq<nat>, nLayers: nat) {
    && |c| >= 2 && c[0] == 0 && c[|c| - 1] == nLayers
    && forall i, j | 0 <= i <= j < |c| :: c[i] <= c[j]
  }

  /** The slice between boundaries `j` and `j + 1`: the embedding goes to the first, the head to the last. */
  function SliceOf(c: seq<nat>, j: nat): Range
    requires j + 1 < |c|
  {
    Range(c[j], c[j + 1], j == 0, j + 2 == |c|)
  }

  /** The range a layer falls into. */
  lemma {:induction false} FindRange(c: seq<nat>, nLayers: nat, n: nat, upto: nat) returns (j: nat)
    requires Cut(c, nLayers) && upto < |c| && n < c[upto]
    ensures j < upto && c[j] <= n < c[j + 1]
    decreases upto
  {
    if c[upto - 1] <= n {
      j := upto - 1;
    } else {
      j := FindRange(c, nLayers, n, upto - 1);
    }
  }

  /** Exactly one slice of a cut takes a kind, unless it is a block past the last layer. */
  lemma OneSliceTakes(c: seq<nat>, nLayers: nat, k: Kind) returns (j: nat)
    requires Cut(c, nLayers) && (k.Block? ==> k.n < nLayers)
    ensures j + 1 < |c| && forall i | 0 <= i < |c| - 1 :: TakesKind(SliceOf(c, i), k) <==> i == j
  {
    match k {
      case Embed => j := 0;
      case Head => j := |c| - 2;
      case Block(n) =>
        j := FindRange(c, nLayers, n, |c| - 1);
        forall i | 0 <= i < |c| - 1
          ensures TakesKind(SliceOf(c, i), k) <==> i == j
        {
          if i < j {
            assert c[i + 1] <= c[j];
          } else if i > j {
            assert c[j + 1] <= c[i];
          }
        }
    }
  }

  /** How often slice `s` of the cut holds tensor `i`. */
  ghost function Copies(ts: seq<Tensor>, c: seq<nat>, s: nat, i: nat): nat
    requires s + 1 < |c|
  {
    multiset(SliceIdx(ts, SliceOf(c, s)))[i]
  }

  /** Slice `j` holds tensor `i` once, and no other slice holds it. */
  ghost predicate OnlyIn(ts: seq<Tensor>, c: seq<nat>, i: nat, j: nat) {
    forall s | 0 <= s < |c| - 1 :: Copies(ts, c, s, i) == if s == j then 1 else 0
  }

  ghost predicate InOneSlice(ts: seq<Tensor>, c: seq<nat>, i: nat) {
    exists j | 0 <= j < |c| - 1 :: OnlyIn(ts, c, i, j)
  }

  predicate PastEnd(k: Kind, nLayers: nat) {
    k.Block? && k.n >= nLayers
  }

  /** Cutting a model conserves a tensor, in exactly one slice and there once, exactly when it is not a
      block past the declared layer count. */
  lemma ConservedIff(ts: seq<Tensor>, c: seq<nat>, nLayers: nat, i: nat)
    requires Cut(c, nLayers) && i < |ts|
    ensures InOneSlice(ts, c, i) <==> !PastEnd(Classify(ts[i].name), nLayers)
  {
    hide SliceIdx, TakesKind;
    var k := Classify(ts[i].name);
    assert KindsOf(ts)[i] == k;
    forall s | 0 <= s < |c| - 1
      ensures Copies(ts, c, s, i) == if TakesKind(SliceOf(c, s), k) then 1 else 0
    {
      SliceIdxCounts(ts, SliceOf(c, s), i);
    }
    if !PastEnd(k, nLayers) {
      var j := OneSliceTakes(c, nLayers, k);
      assert OnlyIn(ts, c, i, j);
    } else {
      forall s | 0 <= s < |c| - 1
        ensures !OnlyIn(ts, c, i, s)
      {
        NotTaken(c, nLayers, k, s);
        assert Copies(ts, c, s, i) == 0;
      }
    }
  }

  lemma NotTaken(c: seq<nat>, nLayers: nat, k: Kind, s: nat)
    requires Cut(c, nLayers) && PastEnd(k, nLayers) && s + 1 < |c|
    ensures !TakesKind(SliceOf(c, s), k)
  {
    assert c[s + 1] <= c[|c| - 1];
  }

  /** A block numbered 5 in a model that declares one layer is in no slice of it. */
  lemma PastBlockIsLost(ts: seq<Tensor>, i: nat)
    requires i < |ts| && ts[i].name == BLK + Dec(5) + Text(".attn_q.weight")
    ensures Cut([0, 1], 1) && Copies(ts, [0, 1], 0, i) == 0
  {
    hide SliceIdx;
    BlockName(5, Text(".attn_q.weight"));
    ClassifyBlock(ts[i].name);
    assert KindsOf(ts)[i] == Block(5);
    SliceIdxCounts(ts, SliceOf([0, 1], 0), i);
  }

  // ---------- names in a slice ----------

  lemma ClassifyBlock(name: seq<byte>)
    requires BlockOf(name).Some?
    ensures Classify(name) == Block(BlockOf(name).value)
  {
    assert name[0] == BLK[0] == CharByte('b');
    assert Text("token_embd")[0] == CharByte('t');
  }

  lemma TakenStartsLower(ts: seq<Tensor>, r: Range, w: nat)
    requires w < |SliceIdx(ts, r)|
    ensures var name := ts[SliceIdx(ts, r)[w]].name;
            BlockOf(name).Some? ==> r.start <= BlockOf(name).value
  {
    hide SliceIdx, Classify, BlockOf;
    var i := SliceIdx(ts, r)[w];
    assert i in multiset(SliceIdx(ts, r));
    SliceIdxCounts(ts, r, i);
    if BlockOf(ts[i].name).Some? {
      ClassifyBlock(ts[i].name);
    }
  }

  lemma Twice(s: seq<nat>, v: nat, w: nat)
    requires v < w < |s| && multiset(s)[s[w]] <= 1
    ensures s[v] != s[w]
  {
    CountTwice(s, v, w);
  }

  ghost predicate DistinctNames(ts: seq<Tensor>) {
    forall i, j | 0 <= i < j < |ts| :: ts[i].name != ts[j].name
  }

  /** Canonical, distinct source names stay distinct inside a slice, and shifting a block back by the
      slice's start recovers its name. */
  lemma SliceNames(ts: seq<Tensor>, r: Range, v: nat, w: nat)
    requires (forall i | 0 <= i < |ts| :: CanonicalName(ts[i].name)) && DistinctNames(ts)
    requires v < w < |SliceIdx(ts, r)|
    ensures var a, b := ts[SliceIdx(ts, r)[v]].name, ts[SliceIdx(ts, r)[w]].name;
            Rename(a, r.start) != Rename(b, r.start) && Restore(Rename(a, r.start), r.start) == a
  {
    hide SliceIdx, Rename, BlockOf, Restore, CanonicalName;
    var idx := SliceIdx(ts, r);
    SliceIdxCounts(ts, r, idx[w]);
    Twice(idx, v, w);
    TakenStartsLower(ts, r, v);
    TakenStartsLower(ts, r, w);
    RestoreRename(ts[idx[v]].name, r.start);
    RestoreRename(ts[idx[w]].name, r.start);
  }

  // ---------- chunk, stitch, parse ----------

  /** The store has the header chunk and every bundle the range takes, as they were published. */
  ghost predicate Supplied(chunks: Chunks, m: Manifest, bytes: seq<byte>, h: Header, datas: seq<seq<byte>>, r: Range)
  {
    var order := KindOrder(KindsOf(h.tensors), |h.tensors|);
    && TensorData(bytes, h, datas) && |m.bundles| == |order|
    && Holds(chunks, m.headerCid, bytes[..DataStart(h)])
    && forall b | 0 <= b < |order| && TakesKind(r, order[b]) ::
         Holds(chunks, m.bundles[b].cid, BundleData(h.tensors, datas, order[b]))
  }

  /** The chunker's own store supplies every range. */
  lemma StoreSupplies(m: Manifest, chunks: Chunks, hash: seq<byte> -> Cid, bytes: seq<byte>, h: Header,
                      datas: seq<seq<byte>>, r: Range)
    requires Describes(m, bytes, h, datas, hash)
    requires Named(chunks, hash, Produced(bytes, h, datas)) && CollisionFree(hash, Produced(bytes, h, datas))
    ensures Supplied(chunks, m, bytes, h, datas, r)
  {
    hide Named, CollisionFree, Produced, KindOrder, KindsOf, BundleOf, LayerCount, BundleData, Derived, TakesKind;
    var order := KindOrder(KindsOf(h.tensors), |h.tensors|);
    FindsHeader(m, chunks, hash, bytes, h, datas);
    forall b | 0 <= b < |order|
      ensures Holds(chunks, m.bundles[b].cid, BundleData(h.tensors, datas, order[b]))
    {
      FindsBundle(m, chunks, hash, bytes, h, datas, b);
    }
  }

  lemma ScratchParses(m: Manifest, chunks: Chunks, hash: seq<byte> -> Cid, bytes: seq<byte>, h: Header,
                      datas: seq<seq<byte>>, r: Range)
    requires ParseHeader(bytes) == Ok(h) && Describes(m, bytes, h, datas, hash)
    requires Supplied(chunks, m, bytes, h, datas, r)
    ensures ChunkOk(chunks, hash, m.headerCid, m.headerSize)
    ensures ParseHeader(Scratch(m, chunks[m.headerCid])) == Ok(h) && h.kvEnd <= |chunks[m.headerCid]|
  {
    hide ParseHeader, AlignmentOf, AlignUp, KindOrder, KindsOf, BundleData, TakesKind, LayerCount, BundlesFor;
    var header := chunks[m.headerCid];
    var scratch := Scratch(m, header);
    assert scratch[..h.indexEnd] == header[..h.indexEnd] == bytes[..h.indexEnd];
    ParseHeaderStart(bytes, scratch);
  }

  /** The bundles a range takes, read back through the store. */
  lemma ChunkedBundles(m: Manifest, chunks: Chunks, hash: seq<byte> -> Cid, bytes: seq<byte>, h: Header,
                       datas: seq<seq<byte>>, r: Range)
    requires Describes(m, bytes, h, datas, hash) && Supplied(chunks, m, bytes, h, datas, r)
    ensures AllReadable(chunks, r, m.bundles) && AllFit(chunks, r, m.bundles) && |datas| == |h.tensors|
    ensures KeptOf(chunks, r, m.bundles) == KeptTensors(h.tensors, datas, SliceIdx(h.tensors, r), r.start)
  {
    hide KindOrder, KindsOf, BundleOf, LayerCount, BundleData, Derived, KeptIdx, TakesKind, Holds;
    var order := KindOrder(KindsOf(h.tensors), |h.tensors|);
    KindsAreGood(h.tensors);
    KindOrderLists(KindsOf(h.tensors), |h.tensors|, Embed);
    KeptOfChunks(chunks, r, hash, h.tensors, datas, order);
  }

  /** Stitching a slice of a chunked model from a store that supplies it succeeds exactly when the slice holds
      a tensor and the model names its architecture. */
  lemma ChunkedIsStitchable(m: Manifest, chunks: Chunks, hash: seq<byte> -> Cid, bytes: seq<byte>, h: Header,
                            datas: seq<seq<byte>>, r: Range)
    requires ParseHeader(bytes) == Ok(h) && Describes(m, bytes, h, datas, hash)
    requires Supplied(chunks, m, bytes, h, datas, r) && ValidRange(m.nLayers, r)
    ensures Stitchable(m, chunks, hash, r) <==> m.architecture.Some? && SliceIdx(h.tensors, r) != []
  {
    hide ParseHeader, Supplied, KeptOf, AllReadable, AllFit, SliceIdx, Describes, Scratch, ChunkOk;
    ScratchParses(m, chunks, hash, bytes, h, datas, r);
    ChunkedBundles(m, chunks, hash, bytes, h, datas, r);
  }

  /** No more tensors than the source has. */
  lemma SliceIsSmall(ts: seq<Tensor>, r: Range)
    ensures |SliceIdx(ts, r)| <= |ts|
  {
    hide SliceIdx, KindsOf, TakesKind;
    var idx := SliceIdx(ts, r);
    forall v, w | 0 <= v < w < |idx|
      ensures idx[v] != idx[w]
    {
      SliceIdxCounts(ts, r, idx[w]);
      Twice(idx, v, w);
    }
    Pigeonhole(idx, |ts|);
  }

  lemma KeptAreGood(ts: seq<Tensor>, datas: seq<seq<byte>>, idx: seq<nat>, start: nat)
    requires |datas| == |ts| && GoodTensors(ts) && forall w | 0 <= w < |idx| :: idx[w] < |ts|
    ensures GoodKept(KeptTensors(ts, datas, idx, start))
  {
    hide Rename, GoodText;
    forall w | 0 <= w < |idx|
      ensures GoodKeptOne(KeptTensors(ts, datas, idx, start)[w])
    {
      assert GoodTensor(ts[idx[w]]);
      RenameGoodText(ts[idx[w]].name, start);
    }
  }

  /** What the slice `r` of a source file is: metadata with the layer count replaced and two flags
      appended, the slice's tensors renumbered in bundle order, and their bytes padded with zeros. */
  ghost predicate IsSliceOf(file: seq<byte>, m: Manifest, h: Header, datas: seq<seq<byte>>, r: Range)
    requires m.architecture.Some? && r.start <= r.end && |datas| == |h.tensors|
  {
    var idx, a := SliceIdx(h.tensors, r), Alignment(m);
    ParseHeader(file).Ok?
    && var s := ParseHeader(file).value;
    && s.kvs == NewKvs(h.kvs, m.architecture.value, r)
    && |s.tensors| == |idx|
    && (forall w | 0 <= w < |idx| ::
          var (t, src) := (s.tensors[w], h.tensors[idx[w]]);
          t.name == Rename(src.name, r.start) && t.shape == src.shape && t.dtype == src.dtype)
    && TensorData(file, s, PaddedDatas(datas, idx, a))
  }

  /** Source bytes followed by zeros up to the alignment, and nothing else. */
  function PaddedDatas(datas: seq<seq<byte>>, idx: seq<nat>, a: nat): (r: seq<seq<byte>>)
    requires forall w | 0 <= w < |idx| :: idx[w] < |datas|
    ensures |r| == |idx|
  {
    seq(|idx|, w requires 0 <= w < |idx| =>
      var bytes := datas[idx[w]];
      bytes + Zeros(AlignUp(|bytes|, a) - |bytes|))
  }

  /** Chunking a file, stitching any of its ranges from a store that supplies it and parsing the result
      recovers the slice, exactly when two more metadata entries stay under the parser's cap. */
  lemma StitchedSlice(m: Manifest, chunks: Chunks, hash: seq<byte> -> Cid, bytes: seq<byte>, h: Header,
                      datas: seq<seq<byte>>, r: Range)
    requires ParseHeader(bytes) == Ok(h) && Describes(m, bytes, h, datas, hash)
    requires Supplied(chunks, m, bytes, h, datas, r) && ValidRange(m.nLayers, r) && Stitchable(m, chunks, hash, r)
    requires |Stitched(m, NewKvs(h.kvs, m.architecture.value, r), KeptOf(chunks, r, m.bundles))| < U64
    ensures var file := Stitched(m, NewKvs(h.kvs, m.architecture.value, r), KeptOf(chunks, r, m.bundles));
      && |datas| == |h.tensors|
      && (IsSliceOf(file, m, h, datas, r) <==> |h.kvs| + 2 <= MAX_KV)
      && (|h.kvs| + 2 > MAX_KV ==> ParseHeader(file) == Err(TooManyKvs))
  {
    hide ParseHeader, Supplied, KeptOf, SliceIdx, DataBytes, NewKvs, Stitched, TensorData, Rename;
    hide AlignmentOf, LayerCount, OffsetAt, EncodeKvs, NewHeader, AllFit, AllReadable, Scratch;
    ChunkedBundles(m, chunks, hash, bytes, h, datas, r);
    HeaderIsGood(bytes);
    var kvs, idx, a := NewKvs(h.kvs, m.architecture.value, r), SliceIdx(h.tensors, r), Alignment(m);
    var kept := KeptTensors(h.tensors, datas, idx, r.start);
    NewKvsGood(h.kvs, m.architecture.value, r);
    NewKvsCount(h.kvs, m.architecture.value, r);
    NewKvsAlignment(h.kvs, m.architecture.value, r);
    KeptAreGood(h.tensors, datas, idx, r.start);
    SliceIsSmall(h.tensors, r);
    SourceCounts(bytes);
    DataInFile(m, kvs, kept);
    StitchedParses(m, kvs, kept);
    if |kvs| <= MAX_KV {
      var s := ParseHeader(Stitched(m, kvs, kept)).value;
      StitchedData(m, kvs, kept, s);
      SlotsArePadded(h.tensors, datas, idx, r.start, a);
    }
  }

  lemma SourceCounts(b: seq<byte>)
    requires ParseHeader(b).Ok?
    ensures |ParseHeader(b).value.kvs| <= MAX_KV && |ParseHeader(b).value.tensors| <= MAX_TENSORS
  {
  }

  lemma SlotsArePadded(ts: seq<Tensor>, datas: seq<seq<byte>>, idx: seq<nat>, start: nat, a: nat)
    requires |datas| == |ts| && a > 0 && forall w | 0 <= w < |idx| :: idx[w] < |ts|
    ensures Slots(KeptTensors(ts, datas, idx, start), a) == PaddedDatas(datas, idx, a)
  {
    hide Slot, Rename;
    var kept := KeptTensors(ts, datas, idx, start);
    forall w | 0 <= w < |idx|
      ensures Slots(kept, a)[w] == PaddedDatas(datas, idx, a)[w]
    {
      SlotIsPadded(kept, a, w);
    }
  }
}
