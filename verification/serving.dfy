/** From published files to tokens: peers that fetch their range of a chunked model, stitch it and load the
    result serve the turn the source file would give on one machine. */
module Serving {
  import opened Results
  import opened Bytes
  import opened Gguf
  import opened Regions
  import opened Bundles
  import opened Manifests
  import opened Chunker
  import opened Checking
  import opened Stitching
  import opened Slices
  import opened Fetching
  import opened Loading
  import opened Limits
  import opened Transformer
  import opened Pipeline
  import opened Peers
  import opened Chains
  import opened Turns

  // ---------- a file says what its tensors are ----------

  /** The bytes of every tensor are determined by the file. */
  lemma TensorDataUnique(bytes: seq<byte>, h: Header, a: seq<seq<byte>>, b: seq<seq<byte>>)
    requires TensorData(bytes, h, a) && TensorData(bytes, h, b)
    ensures a == b
  {
    hide Order, DataStart, OffsetsOf, CutStart;
    forall i | 0 <= i < |a|
      ensures a[i] == b[i]
    {
      SizesUnique(OffsetsOf(h.tensors), Lengths(a), Lengths(b), |bytes| - DataStart(h), i);
      assert IsSlice(bytes, CutStart(DataStart(h), h.tensors[i].offset), a[i]);
      assert IsSlice(bytes, CutStart(DataStart(h), h.tensors[i].offset), b[i]);
    }
  }

  lemma SizesUnique(offsets: seq<nat>, a: seq<nat>, b: seq<nat>, end: nat, i: nat)
    requires Derived(offsets, a, end) && Derived(offsets, b, end) && i < |offsets|
    ensures |a| == |b| == |offsets| && a[i] == b[i]
  {
    hide Order;
    var w := Place(offsets, i);
  }

  // ---------- what a peer makes of its chunks ----------

  /** How a backend turns files into models. */
  datatype Backing = Backing(trim: Trim, interpret: Interpret, embed: Token -> Row, head: Row -> Logits)

  function ModelOf(ts: seq<Tensor>, datas: seq<seq<byte>>, n: nat, k: Backing): (m: Model)
    requires |datas| == |ts|
    ensures m.nLayers == n
  {
    Loaded(Layers(ts, datas, k.trim, n), k.interpret, k.embed, k.head)
  }

  /** The file a peer stitches for a range it can stitch. */
  ghost function FileFor(m: Manifest, chunks: Chunks, hash: seq<byte> -> Cid, r: Range): seq<byte>
    requires Stitchable(m, chunks, hash, r)
  {
    var kvs := ParseHeader(Scratch(m, chunks[m.headerCid])).value.kvs;
    Stitched(m, NewKvs(kvs, m.architecture.value, r), KeptOf(chunks, r, m.bundles))
  }

  /** Stitch the range from the chunks at hand and load what comes out, if that parses. */
  ghost function LoadSlice(m: Manifest, chunks: Chunks, hash: seq<byte> -> Cid, k: Backing, lo: nat, hi: nat): Option<Model> {
    var r := DaemonRange(lo, hi, m.nLayers);
    if !Stitchable(m, chunks, hash, r) then None
    else
      match ParseHeader(FileFor(m, chunks, hash, r))
      case Err(_) => None
      case Ok(s) =>
        if datas :| TensorData(FileFor(m, chunks, hash, r), s, datas) then Some(ModelOf(s.tensors, datas, hi - lo, k))
        else None
  }

  ghost function DiskOf(m: Manifest, chunks: Chunks, hash: seq<byte> -> Cid, k: Backing): OnDisk {
    Pieces((lo: nat, hi: nat) => LoadSlice(m, chunks, hash, k, lo, hi))
  }

  // ---------- the source and its peers ----------

  /** A published file that slices of can be parsed again, with the names the format's own tools write. */
  ghost predicate Published(m: Manifest, bytes: seq<byte>, h: Header, datas: seq<seq<byte>>, hash: seq<byte> -> Cid) {
    && ParseHeader(bytes) == Ok(h) && Describes(m, bytes, h, datas, hash) && m.architecture.Some? && m.nLayers < U32
    && |h.kvs| + 2 <= MAX_KV
    && forall j | 0 <= j < |h.tensors| :: CanonicalName(h.tensors[j].name)
  }

  /** The file a slice of the source is stitched to. */
  ghost function SliceFile(m: Manifest, h: Header, datas: seq<seq<byte>>, r: Range): seq<byte>
    requires |datas| == |h.tensors| && m.architecture.Some? && r.start <= r.end
  {
    Stitched(m, NewKvs(h.kvs, m.architecture.value, r), KeptTensors(h.tensors, datas, SliceIdx(h.tensors, r), r.start))
  }

  /** The peer has carried out the plan for its range, and the slice is neither empty nor beyond 64 bits. */
  ghost predicate Provisioned(m: Manifest, chunks: Chunks, bytes: seq<byte>, h: Header, datas: seq<seq<byte>>,
                              hash: seq<byte> -> Cid, lo: nat, hi: nat)
    requires TensorData(bytes, h, datas)
  {
    var r := DaemonRange(lo, hi, m.nLayers);
    && m.architecture.Some? && lo <= hi && Fetched(m, chunks, hash, lo, hi)
    && CollisionFree(hash, Produced(bytes, h, datas) + chunks.Values)
    && SliceIdx(h.tensors, r) != []
    && |SliceFile(m, h, datas, r)| < U64
  }

  /** A provisioned peer stitches the slice of the source. */
  lemma StitchesSlice(m: Manifest, chunks: Chunks, bytes: seq<byte>, h: Header, datas: seq<seq<byte>>,
                      hash: seq<byte> -> Cid, lo: nat, hi: nat)
    requires Published(m, bytes, h, datas, hash) && lo <= hi <= m.nLayers && Provisioned(m, chunks, bytes, h, datas, hash, lo, hi)
    ensures var r := DaemonRange(lo, hi, m.nLayers);
            && Stitchable(m, chunks, hash, r) && |datas| == |h.tensors|
            && IsSliceOf(FileFor(m, chunks, hash, r), m, h, datas, r)
  {
    hide ParseHeader, Describes, Stitchable, KeptOf, SliceIdx, Supplied, IsSliceOf, DataBytes, Fetched;
    hide CollisionFree, Produced, Scratch;
    var r := DaemonRange(lo, hi, m.nLayers);
    FetchedSupplies(m, chunks, hash, bytes, h, datas, lo, hi, m.nLayers);
    ChunkedIsStitchable(m, chunks, hash, bytes, h, datas, r);
    ChunkedBundles(m, chunks, hash, bytes, h, datas, r);
    ScratchParses(m, chunks, hash, bytes, h, datas, r);
    StitchedSlice(m, chunks, hash, bytes, h, datas, r);
  }

  /** Loading makes of a stitched file what its own index says. */
  lemma LoadsFile(m: Manifest, chunks: Chunks, hash: seq<byte> -> Cid, k: Backing, lo: nat, hi: nat, s: Header, datas: seq<seq<byte>>)
    requires lo <= hi && Stitchable(m, chunks, hash, DaemonRange(lo, hi, m.nLayers))
    requires var file := FileFor(m, chunks, hash, DaemonRange(lo, hi, m.nLayers));
             ParseHeader(file) == Ok(s) && TensorData(file, s, datas)
    ensures |datas| == |s.tensors|
    ensures LoadSlice(m, chunks, hash, k, lo, hi) == Some(ModelOf(s.tensors, datas, hi - lo, k))
  {
    hide ParseHeader, Stitchable, FileFor, ModelOf, Derived, IsSlice;
    var file := FileFor(m, chunks, hash, DaemonRange(lo, hi, m.nLayers));
    forall other | TensorData(file, s, other)
      ensures other == datas
    {
      TensorDataUnique(file, s, other, datas);
    }
  }

  /** What it loads serves its range of the source model. */
  lemma LoadsSlice(m: Manifest, chunks: Chunks, bytes: seq<byte>, h: Header, datas: seq<seq<byte>>,
                   hash: seq<byte> -> Cid, k: Backing, lo: nat, hi: nat)
    requires Published(m, bytes, h, datas, hash) && lo <= hi <= m.nLayers && Provisioned(m, chunks, bytes, h, datas, hash, lo, hi)
    requires IgnoresPadding(k.trim)
    ensures var loaded := LoadSlice(m, chunks, hash, k, lo, hi);
            && loaded.Some? && loaded.value.nLayers == hi - lo && |datas| == |h.tensors|
            && SameLayers(loaded.value, 0, ModelOf(h.tensors, datas, m.nLayers, k), lo, hi - lo)
  {
    hide ParseHeader, Describes, Stitchable, SliceIdx, IgnoresPadding, CanonicalName, TensorData, FileFor, PaddedDatas, SameLayers;
    hide Layers, Loaded, NewKvs, LoadSlice, Fetched, CollisionFree, Produced, KeptTensors, DataBytes, Rename;
    var r := DaemonRange(lo, hi, m.nLayers);
    StitchesSlice(m, chunks, bytes, h, datas, hash, lo, hi);
    var file := FileFor(m, chunks, hash, r);
    var s := ParseHeader(file).value;
    StitchedServes(file, m, h, datas, r, k.trim, k.interpret, k.embed, k.head);
    LoadsFile(m, chunks, hash, k, lo, hi, s, PaddedDatas(datas, SliceIdx(h.tensors, r), Alignment(m)));
  }

  /** The host has the source model in full, or the chunks of its range. */
  ghost predicate HostReady(host: Listener, m: Manifest, chunks: Chunks, bytes: seq<byte>, h: Header, datas: seq<seq<byte>>,
                            hash: seq<byte> -> Cid, k: Backing, lo: nat, hi: nat)
    requires TensorData(bytes, h, datas)
  {
    || host.disk == Full(ModelOf(h.tensors, datas, m.nLayers, k))
    || (host.disk == DiskOf(m, chunks, hash, k) && Provisioned(m, chunks, bytes, h, datas, hash, lo, hi))
  }

  lemma ReadyServes(host: Listener, m: Manifest, chunks: Chunks, bytes: seq<byte>, h: Header, datas: seq<seq<byte>>,
                    hash: seq<byte> -> Cid, k: Backing, lo: nat, hi: nat)
    requires Published(m, bytes, h, datas, hash) && lo <= hi <= m.nLayers && IgnoresPadding(k.trim)
    requires HostReady(host, m, chunks, bytes, h, datas, hash, k, lo, hi)
    ensures ServesRange(host, ModelOf(h.tensors, datas, m.nLayers, k), lo, hi)
  {
    hide Published, Provisioned, IgnoresPadding, LoadSlice, SameLayers, ModelOf;
    if host.disk.Pieces? {
      LoadsSlice(m, chunks, bytes, h, datas, hash, k, lo, hi);
    }
  }

  lemma OneDataEach(m: Manifest, bytes: seq<byte>, h: Header, datas: seq<seq<byte>>, hash: seq<byte> -> Cid)
    requires Published(m, bytes, h, datas, hash)
    ensures |datas| == |h.tensors|
  {
  }

  /** A turn over peers that hold the full file or have fetched, stitched and loaded their own range of it
      generates, over a lossless wire, the tokens the source file gives on one machine: for every valid
      split list, sampler, seed and prompt. */
  lemma FetchedTurnIsLocalTurn<S>(m: Manifest, bytes: seq<byte>, h: Header, datas: seq<seq<byte>>, hash: seq<byte> -> Cid, k: Backing,
                                  hosts: seq<Listener>, stores: seq<Chunks>, splits: seq<nat>, wire: Wire, cfg: Sampling,
                                  draw: (S, Logits, seq<Token>) -> (Token, S), seed: S, prompt: seq<Token>,
                                  isEos: Token -> bool, budget: nat)
    requires Published(m, bytes, h, datas, hash) && IgnoresPadding(k.trim) && Lossless(wire) && prompt != []
    requires ValidSplits(|hosts|, splits, m.nLayers) && |stores| == |hosts|
    requires forall i | 0 <= i < |hosts| ::
      HostReady(hosts[i], m, stores[i], bytes, h, datas, hash, k, splits[i], RangeEnd(splits, i, m.nLayers))
    ensures AllLoad(hosts, splits, m.nLayers) && |datas| == |h.tensors|
    ensures var source := ModelOf(h.tensors, datas, m.nLayers, k);
            Turn(System(source, splits[0], Opened(hosts, splits, m.nLayers), wire), cfg, draw, seed, prompt, isEos, budget)
            == Turn(Monolith(source), cfg, draw, seed, prompt, isEos, budget)
  {
    hide Published, HostReady, ServesRange, IgnoresPadding, Turn, Opened, ModelOf;
    OneDataEach(m, bytes, h, datas, hash);
    var source := ModelOf(h.tensors, datas, m.nLayers, k);
    forall i | 0 <= i < |hosts|
      ensures ServesRange(hosts[i], source, splits[i], RangeEnd(splits, i, m.nLayers))
    {
      SplitsRise(splits, i, m.nLayers);
      ReadyServes(hosts[i], m, stores[i], bytes, h, datas, hash, k, splits[i], RangeEnd(splits, i, m.nLayers));
    }
    ConnectedTurnIsLocalTurn(source, hosts, splits, wire, cfg, draw, seed, prompt, isEos, budget);
  }

  // ---------- an example ----------

  lemma ExampleNames(n: nat, hash: seq<byte> -> Cid)
    ensures var m := ManifestOf(n, hash);
            && Plan(m, 1, 2) == [KindName(Block(1)), KindName(Head)] && AllNamed(m.bundles, Plan(m, 1, 2))
            && AllWanted(m, Plan(m, 1, 2))
               == [Wanted(m.headerCid, m.headerSize), Wanted(hash(FIRST), 32), Wanted(hash([2]), 1)]
  {
    hide FirstOf, HasName, KindName, Front, MembersOf;
    var m := ManifestOf(n, hash);
    TwoBundleDatas();
    assert BlockNames(2, 2) == [] && BlockNames(1, 2) == [KindName(Block(1))];
    NamesDiffer(Block(1), Head);
    OnlyOne(m.bundles, 0);
    OnlyOne(m.bundles, 1);
  }

  lemma ExampleFetched(n: nat, hash: seq<byte> -> Cid)
    requires CollisionFree(hash, PiecesOf(n))
    ensures Fetched(ManifestOf(n, hash), StoreOf(n, hash), hash, 1, 2)
  {
    hide FirstOnly, AllWanted, Plan, Front, BundleOf, CollisionFree, AllNamed;
    var m, chunks := ManifestOf(n, hash), StoreOf(n, hash);
    ExampleNames(n, hash);
    StoreFinds(n, hash);
    var all := AllWanted(m, Plan(m, 1, 2));
    forall w | w in FirstOnly(all)
      ensures ChunkOk(chunks, hash, w.cid, w.size)
    {
      var v :| 0 <= v < |FirstOnly(all)| && FirstOnly(all)[v] == w;
      FirstOnlyKeeps(all, w.cid);
      var i :| 0 <= i < |all| && all[i] == FirstOnly(all)[v];
      assert i == 0 || i == 1 || i == 2;
    }
  }

  lemma StoreFinds(n: nat, hash: seq<byte> -> Cid)
    requires CollisionFree(hash, PiecesOf(n))
    ensures var chunks := StoreOf(n, hash);
            && ChunkOk(chunks, hash, hash(Front(n)), |Front(n)|)
            && ChunkOk(chunks, hash, hash(FIRST), 32) && ChunkOk(chunks, hash, hash([2]), 1)
  {
    hide Front;
  }

  /** A file, a peer that has fetched its last layer, and a split list all of this applies to, for any hash
      that tells its three chunks apart. */
  lemma ExampleReady(n: nat, hash: seq<byte> -> Cid)
    requires n + 3 <= MAX_KV && CollisionFree(hash, PiecesOf(n))
    ensures ValidSplits(1, [1], 2) && RangeEnd([1], 0, 2) == 2
    ensures var m, bytes, h := ManifestOf(n, hash), FileOf(n), HeaderOf(n);
            && Published(m, bytes, h, DATAS, hash) && m.nLayers == 2
            && Provisioned(m, StoreOf(n, hash), bytes, h, DATAS, hash, 1, 2)
  {
    hide ParseHeader, Describes, Fetched, CollisionFree, Produced, SliceIdx, DataBytes, PiecesOf, StoreOf, Entries, CanonicalName;
    hide Front, FileOf, BundleOf, Text, TensorData, KeptTensors;
    FileParses(n);
    FileDescribed(n, hash);
    FileStored(n, hash);
    ExampleFetched(n, hash);
    TwoKinds();
    LastHasBoth();
    SmallFile(n, hash);
    assert PiecesOf(n) + PiecesOf(n) == PiecesOf(n);
  }
}
