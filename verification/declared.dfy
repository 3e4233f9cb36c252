/** What the metadata of a file declares, read entry by entry, and what a stitched slice declares. */
module Declared {
  import opened Results
  import opened Bytes
  import opened Gguf
  import opened Bundles
  import opened ModelInfo
  import opened Manifests
  import opened Chunker
  import opened Stitching
  import opened Slices

  /** `.block_count` */
  const BLOCK_COUNT_BYTES: seq<byte> := [46, 98, 108, 111, 99, 107, 95, 99, 111, 117, 110, 116]

  /** `general.architecture` */
  const ARCHITECTURE_BYTES: seq<byte> :=
    [103, 101, 110, 101, 114, 97, 108, 46, 97, 114, 99, 104, 105, 116, 101, 99, 116, 117, 114, 101]

  /** `general.alignment` */
  const ALIGNMENT_BYTES: seq<byte> :=
    [103, 101, 110, 101, 114, 97, 108, 46, 97, 108, 105, 103, 110, 109, 101, 110, 116]

  /** `intelnav.has_embed` */
  const HAS_EMBED_BYTES: seq<byte> :=
    [105, 110, 116, 101, 108, 110, 97, 118, 46, 104, 97, 115, 95, 101, 109, 98, 101, 100]

  /** `intelnav.has_head` */
  const HAS_HEAD_BYTES: seq<byte> :=
    [105, 110, 116, 101, 108, 110, 97, 118, 46, 104, 97, 115, 95, 104, 101, 97, 100]

  lemma BlockCountKey()
    ensures BLOCK_COUNT == BLOCK_COUNT_BYTES
  {
  }

  lemma ArchitectureKey()
    ensures ARCHITECTURE == ARCHITECTURE_BYTES
  {
  }

  lemma AlignmentKey()
    ensures ALIGNMENT_KEY == ALIGNMENT_BYTES
  {
  }

  lemma EmbedKey()
    ensures HAS_EMBED == HAS_EMBED_BYTES
  {
  }

  lemma HeadKey()
    ensures HAS_HEAD == HAS_HEAD_BYTES
  {
  }

  /** A 32-bit entry whose key ends in the block-count suffix. */
  predicate CountsBlocks(kv: Kv) {
    kv.ty == 4 && |kv.key| >= 12 && kv.key[|kv.key| - 12..] == BLOCK_COUNT_BYTES
  }

  /** A string entry with the architecture's key. */
  predicate NamesArchitecture(kv: Kv) {
    kv.ty == 8 && kv.key == ARCHITECTURE_BYTES
  }

  /** A 32-bit entry with the alignment's key. */
  predicate AsksAlignment(kv: Kv) {
    kv.ty == 4 && kv.key == ALIGNMENT_BYTES
  }

  /** Entry `i` is picked and no later one is. */
  predicate Last(kvs: seq<Kv>, picks: Kv -> bool, i: nat) {
    i < |kvs| && picks(kvs[i]) && forall j | i < j < |kvs| :: !picks(kvs[j])
  }

  predicate NoneOf(kvs: seq<Kv>, picks: Kv -> bool) {
    forall j | 0 <= j < |kvs| :: !picks(kvs[j])
  }

  lemma LastOf(kvs: seq<Kv>, picks: Kv -> bool, i: nat)
    requires Last(kvs, picks, i)
    ensures i == |kvs| - 1 || (!picks(kvs[|kvs| - 1]) && Last(kvs[..|kvs| - 1], picks, i))
  {
  }

  /** The last entry that counts blocks gives the count. */
  lemma {:induction false} BlockCountIs(kvs: seq<Kv>, i: nat)
    ensures Last(kvs, kv => CountsBlocks(kv), i) ==> BlockCountOf(kvs) == Some(Val(kvs[i].value))
    ensures NoneOf(kvs, kv => CountsBlocks(kv)) ==> BlockCountOf(kvs) == None
    decreases |kvs|
  {
    hide Val;
    BlockCountKey();
    if kvs != [] {
      assert CountsBlocks(kvs[|kvs| - 1]) <==> kvs[|kvs| - 1].ty == TY_U32 && EndsWith(kvs[|kvs| - 1].key, BLOCK_COUNT);
      BlockCountIs(kvs[..|kvs| - 1], i);
    }
  }

  /** The value of a string entry is its text behind an eight-byte length, if that is valid text. */
  lemma TextIs(text: seq<byte>)
    requires |text| < U64
    ensures ReadText(Le(8, |text|) + text) == if Utf8(text) then Some(text) else None
  {
    hide Utf8, Le, Val, ReadText;
    ReadsBack(|text|);
    TextBehind(Le(8, |text|), text);
  }

  lemma TextBehind(length: seq<byte>, text: seq<byte>)
    requires |length| == 8 && Val(length) == |text|
    ensures ReadText(length + text) == if Utf8(text) then Some(text) else None
  {
    hide Utf8, Val;
    var value := length + text;
    assert value[..8] == length;
    assert value[8..8 + |text|] == text;
  }

  /** The last architecture entry gives the architecture. */
  lemma {:induction false} ArchIs(kvs: seq<Kv>, i: nat)
    ensures Last(kvs, kv => NamesArchitecture(kv), i) ==> ArchOf(kvs) == ReadText(kvs[i].value)
    ensures NoneOf(kvs, kv => NamesArchitecture(kv)) ==> ArchOf(kvs) == None
    decreases |kvs|
  {
    hide ReadText;
    ArchitectureKey();
    if kvs != [] {
      assert NamesArchitecture(kvs[|kvs| - 1]) <==> kvs[|kvs| - 1].ty == TY_STRING && kvs[|kvs| - 1].key == ARCHITECTURE;
      ArchIs(kvs[..|kvs| - 1], i);
    }
  }

  /** The last alignment entry gives the alignment, 32 without one. */
  lemma {:induction false} AlignmentIs(kvs: seq<Kv>, i: nat)
    ensures Last(kvs, kv => AsksAlignment(kv), i) ==> AlignmentOf(kvs) == Val(kvs[i].value)
    ensures NoneOf(kvs, kv => AsksAlignment(kv)) ==> AlignmentOf(kvs) == 32
    decreases |kvs|
  {
    hide Val;
    AlignmentKey();
    if kvs != [] {
      assert AsksAlignment(kvs[|kvs| - 1]) <==> SetsAlignment(kvs[|kvs| - 1]);
      AlignmentIs(kvs[..|kvs| - 1], i);
    }
  }

  // ---------- a stitched slice ----------

  /** The layer count of the model in a file. */
  predicate CountsLayersOf(kv: Kv, arch: seq<byte>) {
    kv.ty == 4 && kv.key == arch + BLOCK_COUNT_BYTES
  }

  /** Entry for entry the source's metadata, except that the architecture's own layer count is the range's;
      then whether the slice has the embedding and the head. */
  predicate DeclaresRange(s: seq<Kv>, source: seq<Kv>, arch: seq<byte>, r: Range) {
    && |s| == |source| + 2
    && (forall k | 0 <= k < |source| && !CountsLayersOf(source[k], arch) :: s[k] == source[k])
    && (forall k | 0 <= k < |source| && CountsLayersOf(source[k], arch) ::
          s[k].key == source[k].key && s[k].ty == 4 && |s[k].value| == 4 && Val(s[k].value) == r.end - r.start)
    && s[|source|] == Kv(HAS_EMBED_BYTES, 7, [if r.embed then 1 else 0])
    && s[|source| + 1] == Kv(HAS_HEAD_BYTES, 7, [if r.head then 1 else 0])
  }

  lemma NewKvsDeclare(kvs: seq<Kv>, arch: seq<byte>, r: Range)
    requires r.start <= r.end < U32
    ensures DeclaresRange(NewKvs(kvs, arch, r), kvs, arch, r)
  {
    hide Le, Val;
    BlockCountKey();
    EmbedKey();
    HeadKey();
    ReadsBack(r.end - r.start);
  }

  lemma OtherKeys(kv: Kv, arch: seq<byte>)
    ensures CountsLayersOf(kv, arch) ==> CountsBlocks(kv) && !NamesArchitecture(kv)
    ensures kv.key == HAS_EMBED_BYTES || kv.key == HAS_HEAD_BYTES ==> !CountsBlocks(kv) && !NamesArchitecture(kv)
  {
  }

  lemma {:induction false} FindLast(kvs: seq<Kv>, picks: Kv -> bool) returns (i: nat)
    ensures NoneOf(kvs, picks) || Last(kvs, picks, i)
  {
    i := 0;
    if kvs != [] {
      if picks(kvs[|kvs| - 1]) {
        i := |kvs| - 1;
      } else {
        i := FindLast(kvs[..|kvs| - 1], picks);
      }
    }
  }

  lemma SameKind(s: seq<Kv>, source: seq<Kv>, arch: seq<byte>, r: Range, k: nat)
    requires r.start <= r.end && DeclaresRange(s, source, arch, r) && k < |s|
    ensures CountsBlocks(s[k]) <==> k < |source| && CountsBlocks(source[k])
    ensures NamesArchitecture(s[k]) <==> k < |source| && NamesArchitecture(source[k])
    ensures NamesArchitecture(s[k]) ==> s[k] == source[k]
  {
    hide Val;
    OtherKeys(s[k], arch);
    if k < |source| {
      OtherKeys(source[k], arch);
    }
  }

  lemma KeepsArchitecture(s: seq<Kv>, source: seq<Kv>, arch: seq<byte>, r: Range)
    requires r.start <= r.end && DeclaresRange(s, source, arch, r)
    ensures ArchOf(s) == ArchOf(source)
  {
    hide NamesArchitecture, ArchOf, CountsLayersOf, Val;
    var i := FindLast(source, kv => NamesArchitecture(kv));
    forall k | 0 <= k < |s|
      ensures NamesArchitecture(s[k]) <==> k < |source| && NamesArchitecture(source[k])
      ensures NamesArchitecture(s[k]) ==> s[k] == source[k]
    {
      SameKind(s, source, arch, r, k);
    }
    ArchIs(source, i);
    ArchIs(s, i);
  }

  lemma CountsItsLayers(s: seq<Kv>, source: seq<Kv>, arch: seq<byte>, r: Range, i: nat)
    requires r.start <= r.end && DeclaresRange(s, source, arch, r)
    ensures Last(source, kv => CountsBlocks(kv), i) ==>
      BlockCountOf(s) == if source[i].key == arch + BLOCK_COUNT_BYTES then Some(r.end - r.start) else BlockCountOf(source)
    ensures NoneOf(source, kv => CountsBlocks(kv)) ==> BlockCountOf(s) == None
  {
    hide BlockCountOf, Val;
    forall k | 0 <= k < |s|
      ensures CountsBlocks(s[k]) <==> k < |source| && CountsBlocks(source[k])
    {
      SameKind(s, source, arch, r, k);
    }
    BlockCountIs(source, i);
    BlockCountIs(s, i);
  }

  /** Parsed back, a stitched slice declares its range: the architecture is kept, and the layer count is the
      range's when the entry that counts is the architecture's own, the source's otherwise. */
  lemma SliceDeclares(file: seq<byte>, m: Manifest, h: Header, datas: seq<seq<byte>>, r: Range, i: nat)
    requires m.architecture.Some? && r.start <= r.end < U32 && |datas| == |h.tensors|
    requires IsSliceOf(file, m, h, datas, r)
    ensures var s := ParseHeader(file).value;
            && DeclaresRange(s.kvs, h.kvs, m.architecture.value, r)
            && ArchOf(s.kvs) == ArchOf(h.kvs)
            && (Last(h.kvs, kv => CountsBlocks(kv), i) ==>
                  BlockCountOf(s.kvs) == if h.kvs[i].key == m.architecture.value + BLOCK_COUNT_BYTES
                                         then Some(r.end - r.start) else BlockCountOf(h.kvs))
            && (NoneOf(h.kvs, kv => CountsBlocks(kv)) ==> BlockCountOf(s.kvs) == None)
  {
    hide ParseHeader, TensorData, NewKvs, DeclaresRange, Rename, SliceIdx;
    var s := ParseHeader(file).value;
    NewKvsDeclare(h.kvs, m.architecture.value, r);
    KeepsArchitecture(s.kvs, h.kvs, m.architecture.value, r);
    CountsItsLayers(s.kvs, h.kvs, m.architecture.value, r, i);
  }
}
