/** A file whose slices cannot be read back: its metadata is as large as the parser allows. */
module Limits {
  import opened Results
  import opened Bytes
  import opened Gguf
  import opened Printing
  import opened Regions
  import opened Bundles
  import opened Manifests
  import opened Routing
  import opened ModelInfo
  import opened Chunker
  import opened Checking
  import opened Stitching
  import opened Slices

  const ARCH: Kv := Kv(ARCHITECTURE, TY_STRING, EncodeText(Text("x")))
  const PAD: Kv := Kv(Text("pad"), 0, [0])
  const BLOCK_ONE: seq<byte> := BLK + Dec(1) + Text(".w")
  const TENSORS: seq<Tensor> := [Tensor(BLOCK_ONE, [], 0, 0), Tensor(Text("output.w"), [], 0, 32)]
  const FIRST: seq<byte> := [1] + Zeros(31)
  const DATAS: seq<seq<byte>> := [FIRST, [2]]
  const KINDS: seq<Kind> := [Block(1), Head]

  /** An architecture and `n` entries that mean nothing. */
  function Entries(n: nat): (kvs: seq<Kv>)
    ensures |kvs| == n + 1
  {
    if n == 0 then [ARCH] else Entries(n - 1) + [PAD]
  }

  /** A file with these entries, a tensor of block 1 and one of the head, up to its data. */
  function Front(n: nat): seq<byte> {
    var header := EncodeHeader(Entries(n), TENSORS);
    header + Zeros(AlignUp(|header|, DEFAULT_ALIGNMENT) - |header|)
  }

  function FileOf(n: nat): seq<byte> {
    Front(n) + FIRST + [2]
  }

  function HeaderOf(n: nat): Header {
    Header(Entries(n), TENSORS, 24 + |EncodeKvs(Entries(n))|, |EncodeHeader(Entries(n), TENSORS)|)
  }

  function ManifestOf(n: nat, hash: seq<byte> -> Cid): Manifest {
    Manifest(Some(Text("x")), 2, VERSION, DEFAULT_ALIGNMENT, |Front(n)|, n + 1, 2, hash(Front(n)), |Front(n)|,
             [BundleOf(hash, TENSORS, DATAS, Block(1), [0]), BundleOf(hash, TENSORS, DATAS, Head, [1])])
  }

  function StoreOf(n: nat, hash: seq<byte> -> Cid): Chunks {
    map[hash(Front(n)) := Front(n), hash(FIRST) := FIRST, hash([2]) := [2]]
  }

  ghost function PiecesOf(n: nat): set<seq<byte>> {
    {Front(n), FIRST, [2]}
  }

  /** The second of two layers, and the head. */
  const LAST: Range := Range(1, 2, false, true)

  lemma AsciiIsGood(b: seq<byte>)
    requires IsAscii(b) && |b| < U64
    ensures GoodText(b)
  {
    AsciiPrefix(b, []);
    assert b + [] == b;
  }

  lemma ArchGood()
    ensures GoodKv(ARCH) && ReadText(ARCH.value) == Some(Text("x"))
  {
    hide Le, Val, Utf8;
    AsciiIsGood(ARCHITECTURE);
    AsciiIsGood(Text("x"));
    ReadsBack(1);
    assert ARCH.value[..8] == Le(8, 1) && ARCH.value[8..9] == Text("x");
  }

  lemma PadGood()
    ensures GoodKv(PAD)
  {
    hide Utf8;
    AsciiIsGood(Text("pad"));
  }

  lemma TensorsGood()
    ensures GoodTensors(TENSORS)
  {
    hide GoodText;
    assert Dec(1) == [49];
    AsciiIsGood(BLOCK_ONE);
    AsciiIsGood(Text("output.w"));
  }

  lemma {:induction false} EntriesGood(n: nat)
    ensures GoodKvs(Entries(n))
  {
    hide GoodKv;
    ArchGood();
    PadGood();
    if n > 0 {
      EntriesGood(n - 1);
    }
  }

  lemma PadSaysNothing(kvs: seq<Kv>)
    ensures AlignmentOf(kvs + [PAD]) == AlignmentOf(kvs)
    ensures ArchOf(kvs + [PAD]) == ArchOf(kvs) && BlockCountOf(kvs + [PAD]) == BlockCountOf(kvs)
  {
    hide AlignmentOf, ArchOf, BlockCountOf, Text;
    AlignmentStep(kvs, PAD);
    OneMoreEntry(kvs, PAD);
  }

  lemma ArchSays()
    ensures AlignmentOf([ARCH]) == DEFAULT_ALIGNMENT && ArchOf([ARCH]) == Some(Text("x")) && BlockCountOf([ARCH]) == None
  {
    hide ReadText, Text;
    ArchGood();
    AlignmentStep([], ARCH);
    OneMoreEntry([], ARCH);
    assert [] + [ARCH] == [ARCH];
  }

  lemma {:induction false} EntriesSay(n: nat)
    ensures AlignmentOf(Entries(n)) == DEFAULT_ALIGNMENT
    ensures ArchOf(Entries(n)) == Some(Text("x")) && BlockCountOf(Entries(n)) == None
  {
    hide AlignmentOf, ArchOf, BlockCountOf, Text;
    if n == 0 {
      ArchSays();
    } else {
      EntriesSay(n - 1);
      PadSaysNothing(Entries(n - 1));
    }
  }

  lemma FileParses(n: nat)
    requires n < MAX_KV
    ensures ParseHeader(FileOf(n)) == Ok(HeaderOf(n)) && DataStart(HeaderOf(n)) == |Front(n)|
  {
    hide EncodeHeader, ParseHeader, Entries, EncodeKvs, AlignmentOf;
    EntriesGood(n);
    EntriesSay(n);
    TensorsGood();
    var header := EncodeHeader(Entries(n), TENSORS);
    var rest := Zeros(AlignUp(|header|, DEFAULT_ALIGNMENT) - |header|) + FIRST + [2];
    HeaderParses(Entries(n), TENSORS, rest);
    assert FileOf(n) == header + rest;
  }

  lemma TwoKinds()
    ensures KindsOf(TENSORS) == KINDS && CanonicalName(TENSORS[0].name) && CanonicalName(TENSORS[1].name)
  {
    hide Dec, UpToDot, Canonical;
    BlockName(1, Text(".w"));
    ClassifyBlock(BLOCK_ONE);
    OneIsCanonical();
    assert Text("output.w")[0] == CharByte('o') && BLK[0] == CharByte('b') && Text("token_embd")[0] == CharByte('t');
  }

  lemma OneIsCanonical()
    ensures Canonical(Dec(1))
  {
  }

  lemma TwoGroups()
    ensures KindOrder(KINDS, 2) == KINDS && Matching(KINDS, Block(1), 2) == [0] && Matching(KINDS, Head, 2) == [1]
  {
    assert KindOrder(KINDS, 0) == [] && KindOrder(KINDS, 1) == [Block(1)];
    assert [Block(1)][1..] == [] && AddKind([], Head) == [Head];
    assert Matching(KINDS, Block(1), 0) == [] && Matching(KINDS, Head, 0) == [];
    assert Matching(KINDS, Block(1), 1) == [0] && Matching(KINDS, Head, 1) == [];
  }

  lemma TwoSizes()
    ensures Derived([0, 32], [32, 1], 33) && OffsetsOf(TENSORS) == [0, 32] && Lengths(DATAS) == [32, 1]
  {
    hide Derived, Text, Dec;
    TwoDerived();
  }

  lemma TwoDerived()
    ensures Derived([0, 32], [32, 1], 33)
  {
    hide Insert;
    TwoOrdered();
  }

  lemma TwoOrdered()
    ensures Order([0, 32], 2) == [0, 1]
  {
    assert Order([0, 32], 0) == [] && Order([0, 32], 1) == [0];
  }

  lemma SourceIndexSize()
    ensures |EncodeTensors(TENSORS)| <= 128
  {
    hide Le, Text, Dec;
    OneDigit();
    assert TENSORS[1..][1..] == [] && EncodeTensors([]) == [];
    assert EncodeTensors(TENSORS[1..]) == EncodeTensor(TENSORS[1]) + EncodeTensors([]);
  }

  lemma FrontSize(n: nat)
    requires n < MAX_KV
    ensures |Front(n)| + 33 < U64
  {
    hide EncodeKvs, EncodeTensors, AlignUp, Le, Text, Entries, EncodeKv;
    forall i | 0 <= i < |Entries(n)|
      ensures |EncodeKv(Entries(n)[i])| <= 64
    {
      EntrySize(n, i);
    }
    KvsSize(Entries(n), 64);
    SourceIndexSize();
    Aligned(|EncodeHeader(Entries(n), TENSORS)|, DEFAULT_ALIGNMENT);
  }

  lemma TwoTensorData(n: nat)
    requires n < MAX_KV
    ensures TensorData(FileOf(n), HeaderOf(n), DATAS)
  {
    hide EncodeHeader, Entries, EncodeKvs, AlignmentOf, Front, DataStart, ParseHeader, Text, Derived, OffsetsOf;
    FileParses(n);
    TwoSizes();
    FrontSize(n);
    ModOnce(|Front(n)| + 32);
    assert FileOf(n)[|Front(n)|..|Front(n)| + 32] == FIRST;
    assert FileOf(n)[|Front(n)| + 32..|Front(n)| + 33] == [2];
  }

  lemma FileDescribed(n: nat, hash: seq<byte> -> Cid)
    requires n < MAX_KV
    ensures Describes(ManifestOf(n, hash), FileOf(n), HeaderOf(n), DATAS, hash)
  {
    hide Entries, TensorData, DataStart, BundleOf, ArchOf, BlockCountOf, AlignmentOf, Front, KindOrder, Matching, KindsOf;
    hide ParseHeader, Text, EncodeHeader, EncodeKvs, BundlesFor, LargestBlock, CanonicalName, BundleBytes;
    FileParses(n);
    EntriesSay(n);
    TwoTensorData(n);
    TwoKinds();
    TwoGroups();
    assert FileOf(n)[..|Front(n)|] == Front(n);
    LargestIsOne();
    TwoBundles(hash);
  }

  lemma LargestIsOne()
    ensures LargestBlock(KINDS, 2, 1)
  {
    assert KINDS[0].Block? && KINDS[0].n == 1;
  }

  lemma TwoBundles(hash: seq<byte> -> Cid)
    ensures BundlesFor(hash, TENSORS, DATAS, KINDS)
            == [BundleOf(hash, TENSORS, DATAS, Block(1), [0]), BundleOf(hash, TENSORS, DATAS, Head, [1])]
  {
    hide BundleOf, Matching, KindsOf;
    TwoKinds();
    TwoGroups();
  }

  lemma TwoBundleDatas()
    ensures BundleData(TENSORS, DATAS, Block(1)) == FIRST && BundleData(TENSORS, DATAS, Head) == [2]
    ensures BundleBytes(DATAS, [0]) == FIRST && BundleBytes(DATAS, [1]) == [2]
  {
    hide KindOrder, Matching, KindsOf, Text;
    TwoKinds();
    TwoGroups();
    assert [0][..0] == [] && [1][..0] == [] && BundleBytes(DATAS, []) == [];
  }

  lemma ThreeStored(a: seq<byte>, b: seq<byte>, c: seq<byte>, hash: seq<byte> -> Cid)
    requires CollisionFree(hash, {a, b, c})
    ensures Named(map[hash(a) := a, hash(b) := b, hash(c) := c], hash, {a, b, c})
    ensures map[hash(a) := a, hash(b) := b, hash(c) := c].Values == {a, b, c}
  {
    var chunks := map[hash(a) := a, hash(b) := b, hash(c) := c];
    assert chunks[hash(a)] == a && chunks[hash(b)] == b && chunks[hash(c)] == c;
    forall x | x in {a, b, c}
      ensures x in chunks.Values
    {
      assert hash(x) in chunks && chunks[hash(x)] == x;
    }
  }

  lemma FileProduces(n: nat)
    requires n < MAX_KV
    ensures TensorData(FileOf(n), HeaderOf(n), DATAS)
    ensures Produced(FileOf(n), HeaderOf(n), DATAS) == PiecesOf(n)
  {
    hide Entries, TensorData, DataStart, Front, KindOrder, Matching, KindsOf, ParseHeader, BundleSet, Text, EncodeHeader, EncodeKvs;
    hide CanonicalName;
    FileParses(n);
    TwoTensorData(n);
    TwoKinds();
    TwoGroups();
    BundleSetOfTwo();
    assert FileOf(n)[..|Front(n)|] == Front(n);
  }

  lemma FileStored(n: nat, hash: seq<byte> -> Cid)
    requires n < MAX_KV && CollisionFree(hash, PiecesOf(n))
    ensures TensorData(FileOf(n), HeaderOf(n), DATAS)
    ensures Produced(FileOf(n), HeaderOf(n), DATAS) == PiecesOf(n)
    ensures Named(StoreOf(n, hash), hash, PiecesOf(n)) && StoreOf(n, hash).Values == PiecesOf(n)
  {
    hide TensorData, Front, FileOf, HeaderOf, Produced, Named, CollisionFree;
    FileProduces(n);
    ThreeStored(Front(n), FIRST, [2], hash);
  }

  lemma BundleSetOfTwo()
    ensures BundleSet(TENSORS, DATAS, KINDS) == {FIRST, [2]}
  {
    hide BundleData;
    TwoBundleDatas();
    assert Block(1) in KINDS && Head in KINDS;
  }

  /** The last slice of the file with the most entries a parser takes: everything chunking and stitching
      ask for holds, and the stitched file is refused. */
  lemma FullMetadataFails(hash: seq<byte> -> Cid)
    requires CollisionFree(hash, PiecesOf(MAX_KV - 1))
    ensures var n: nat := MAX_KV - 1;
            var m, chunks, bytes, h := ManifestOf(n, hash), StoreOf(n, hash), FileOf(n), HeaderOf(n);
      && ParseHeader(bytes) == Ok(h) && Describes(m, bytes, h, DATAS, hash)
      && Named(chunks, hash, Produced(bytes, h, DATAS)) && Stitchable(m, chunks, hash, LAST)
      && ParseHeader(Stitched(m, NewKvs(h.kvs, m.architecture.value, LAST), KeptOf(chunks, LAST, m.bundles)))
         == Err(TooManyKvs)
  {
    hide ParseHeader, Describes, Named, Stitchable, Produced, Supplied, KeptOf, Entries, Stitched, NewKvs, Front;
    hide CollisionFree, SliceIdx, DataBytes, PiecesOf, StoreOf;
    var n: nat := MAX_KV - 1;
    var m, chunks, bytes, h := ManifestOf(n, hash), StoreOf(n, hash), FileOf(n), HeaderOf(n);
    FileParses(n);
    FileDescribed(n, hash);
    FileStored(n, hash);
    LastHasBoth();
    StoreSupplies(m, chunks, hash, bytes, h, DATAS, LAST);
    ChunkedIsStitchable(m, chunks, hash, bytes, h, DATAS, LAST);
    ChunkedBundles(m, chunks, hash, bytes, h, DATAS, LAST);
    SmallFile(n, hash);
    StitchedSlice(m, chunks, hash, bytes, h, DATAS, LAST);
  }

  lemma LastHasBoth()
    ensures SliceIdx(TENSORS, LAST) == [0, 1]
  {
    hide KindsOf, KindOrder, Matching;
    TwoKinds();
    TwoGroups();
    assert KINDS[..1] == [Block(1)] && [Block(1)][..0] == [] && KeptIdx(KINDS, [], LAST) == [];
    assert KeptIdx(KINDS, [Block(1)], LAST) == [0];
  }

  lemma LastIsSmall()
    ensures |DataBytes(KeptTensors(TENSORS, DATAS, [0, 1], 1), DEFAULT_ALIGNMENT)| == 64
  {
    hide Rename;
    var kept := KeptTensors(TENSORS, DATAS, [0, 1], 1);
    assert kept[..2][..1] == kept[..1] && kept[..1][..0] == [] && kept[..2] == kept;
    assert DataBytes([], DEFAULT_ALIGNMENT) == [];
    assert |DataBytes(kept[..1], DEFAULT_ALIGNMENT)| == 32;
  }

  // ---------- the stitched file is small ----------

  lemma {:induction false} KvsSize(kvs: seq<Kv>, c: nat)
    requires forall i | 0 <= i < |kvs| :: |EncodeKv(kvs[i])| <= c
    ensures |EncodeKvs(kvs)| <= c * |kvs|
  {
    hide EncodeKv;
    if kvs != [] {
      KvsSize(kvs[1..], c);
      assert c * |kvs| == c + c * |kvs[1..]|;
    }
  }

  lemma {:induction false} EntrySize(n: nat, i: nat)
    requires i < |Entries(n)|
    ensures |EncodeKv(Entries(n)[i])| <= 64
  {
    hide Le;
    if n > 0 && i < n {
      EntrySize(n - 1, i);
    }
  }

  lemma RewriteSize(kv: Kv, key: seq<byte>, n: nat)
    ensures |EncodeKv(RewriteKv(kv, key, n))| <= |EncodeKv(kv)| + 4
  {
    hide Le;
  }

  lemma FlagSize(on: bool)
    ensures |EncodeKv(Flag(HAS_EMBED, on))| <= 68 && |EncodeKv(Flag(HAS_HEAD, on))| <= 68
  {
    hide Le;
  }

  lemma NewKvsSize(n: nat)
    ensures |EncodeKvs(NewKvs(Entries(n), Text("x"), LAST))| <= 68 * (n + 3)
  {
    hide EncodeKv, EncodeKvs, RewriteKv, Flag, Text, Entries;
    var kvs, key := NewKvs(Entries(n), Text("x"), LAST), Text("x") + BLOCK_COUNT;
    assert |kvs| == n + 3;
    forall i | 0 <= i < |kvs|
      ensures |EncodeKv(kvs[i])| <= 68
    {
      if i <= n {
        EntrySize(n, i);
        RewriteSize(Entries(n)[i], key, 1);
      } else {
        FlagSize(if i == n + 1 then LAST.embed else LAST.head);
      }
    }
    KvsSize(kvs, 68);
  }

  lemma IndexSize()
    ensures |EncodeTensors(Placed(KeptTensors(TENSORS, DATAS, [0, 1], 1), DEFAULT_ALIGNMENT))| <= 128
  {
    hide Rename, Le, OffsetAt, Text, Dec, GoodText;
    var ts := Placed(KeptTensors(TENSORS, DATAS, [0, 1], 1), DEFAULT_ALIGNMENT);
    TensorsGood();
    assert GoodTensor(TENSORS[0]) && GoodTensor(TENSORS[1]);
    OneDigit();
    RenameGoodText(TENSORS[0].name, 1);
    RenameGoodText(TENSORS[1].name, 1);
    assert |ts| == 2 && ts[1..][1..] == [] && EncodeTensors([]) == [];
    assert EncodeTensors(ts[1..]) == EncodeTensor(ts[1]) + EncodeTensors([]);
  }

  lemma OneDigit()
    ensures |TENSORS[0].name| == 7 && |TENSORS[1].name| == 8
  {
    assert Dec(1) == [49];
  }

  lemma SmallFile(n: nat, hash: seq<byte> -> Cid)
    requires n < MAX_KV
    ensures |Stitched(ManifestOf(n, hash), NewKvs(Entries(n), Text("x"), LAST), KeptTensors(TENSORS, DATAS, [0, 1], 1))| < U64
  {
    hide Front, BundleOf, EncodeKvs, EncodeTensors, NewKvs, KeptTensors, Placed, DataBytes, AlignUp, Le, Text, Entries;
    var m, kvs, kept := ManifestOf(n, hash), NewKvs(Entries(n), Text("x"), LAST), KeptTensors(TENSORS, DATAS, [0, 1], 1);
    LastIsSmall();
    NewKvsSize(n);
    NewKvsCount(Entries(n), Text("x"), LAST);
    IndexSize();
    var header := NewHeader(m, kvs, Placed(kept, DEFAULT_ALIGNMENT));
    assert |header| <= 24 + 68 * (n + 3) + 128;
    Aligned(|header|, DEFAULT_ALIGNMENT);
  }
}
