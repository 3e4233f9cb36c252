/** What a stitched file contains: it parses back to the source's metadata and tensors. */
module StitchLaws {
  import opened Results
  import opened Bytes
  import opened Gguf
  import opened Printing
  import opened Regions
  import opened Manifests
  import opened ModelInfo
  import opened Chunker
  import opened Stitching

  // ---------- the stitched header parses ----------

  predicate GoodKeptOne(k: Kept) {
    GoodText(k.name) && |k.shape| <= MAX_DIMS && (forall i | 0 <= i < |k.shape| :: k.shape[i] < U64) && k.dtype < U32
  }

  ghost predicate GoodKept(kept: seq<Kept>) {
    forall i | 0 <= i < |kept| :: GoodKeptOne(kept[i])
  }

  /** Padded or not, the data so far is part of the whole. */
  lemma {:induction false} DataGrows(kept: seq<Kept>, a: nat, i: nat)
    requires i <= |kept|
    ensures OffsetAt(kept, a, i) <= |DataBytes(kept, a)|
    ensures DataBytes(kept[..i], a) <= DataBytes(kept, a)
    decreases |kept| - i
  {
    hide Padded, OffsetAt;
    if i < |kept| {
      DataGrows(kept, a, i + 1);
      MoreData(kept, a, i);
      var before, more := DataBytes(kept[..i], a), DataBytes(kept[..i + 1], a);
      assert before <= more;
      assert DataBytes(kept, a)[..|before|] == DataBytes(kept, a)[..|more|][..|before|];
    } else {
      assert kept[..i] == kept;
      var o := OffsetAt(kept, a, i);
    }
  }

  lemma PlacedGood(kept: seq<Kept>, a: nat)
    requires GoodKept(kept) && |DataBytes(kept, a)| < U64
    ensures GoodTensors(Placed(kept, a))
  {
    hide OffsetAt, DataBytes, GoodText;
    forall i | 0 <= i < |kept|
      ensures GoodTensor(Placed(kept, a)[i])
    {
      DataGrows(kept, a, i);
      assert GoodKeptOne(kept[i]);
    }
  }

  lemma RewriteGood(kv: Kv, key: seq<byte>, n: nat)
    requires GoodKv(kv)
    ensures GoodKv(RewriteKv(kv, key, n))
  {
  }

  lemma FlagGood(key: seq<byte>, on: bool)
    requires IsAscii(key) && |key| < U64
    ensures GoodKv(Flag(key, on))
  {
    AsciiPrefix(key, []);
    assert key + [] == key;
  }

  lemma NewKvsGood(kvs: seq<Kv>, arch: seq<byte>, r: Range)
    requires GoodKvs(kvs) && r.start <= r.end
    ensures GoodKvs(NewKvs(kvs, arch, r))
  {
    hide GoodKv, RewriteKv, Flag;
    var all := RewriteAll(kvs, arch + BLOCK_COUNT, r.end - r.start);
    forall i | 0 <= i < |kvs|
      ensures GoodKv(all[i])
    {
      RewriteGood(kvs[i], arch + BLOCK_COUNT, r.end - r.start);
    }
    FlagGood(HAS_EMBED, r.embed);
    FlagGood(HAS_HEAD, r.head);
  }

  /** A stitched file parses, exactly when the two added flags leave its metadata under the cap, and to
      exactly the metadata and the index that were written. */
  lemma StitchedParses(m: Manifest, kvs: seq<Kv>, kept: seq<Kept>)
    requires m.version == VERSION && GoodKvs(kvs) && |kvs| < U64
    requires GoodKept(kept) && |kept| <= MAX_TENSORS && |DataBytes(kept, Alignment(m))| < U64
    ensures var ts := Placed(kept, Alignment(m));
            ParseHeader(Stitched(m, kvs, kept))
            == if |kvs| > MAX_KV then Err(TooManyKvs)
               else Ok(Header(kvs, ts, 24 + |EncodeKvs(kvs)|, |NewHeader(m, kvs, ts)|))
  {
    hide ParseHeader, DataBytes, Placed, EncodeKvs, EncodeTensors, Le, Zeros, AlignUp;
    var a := Alignment(m);
    var ts := Placed(kept, a);
    PlacedGood(kept, a);
    PlacedCount(kept, a);
    var header := NewHeader(m, kvs, ts);
    var rest := Zeros(AlignUp(|header|, a) - |header|) + DataBytes(kept, a);
    HeaderParses(kvs, ts, rest);
    assert Stitched(m, kvs, kept) == header + rest;
  }

  // ---------- the alignment survives ----------

  lemma NotAlignmentKey(arch: seq<byte>)
    ensures arch + BLOCK_COUNT != ALIGNMENT_KEY
  {
    var key := arch + BLOCK_COUNT;
    if |key| == |ALIGNMENT_KEY| {
      assert key[14] == BLOCK_COUNT[9] == CharByte('u');
      assert ALIGNMENT_KEY[14] == CharByte('e');
    }
  }

  lemma RewriteKeepsAlignment(kv: Kv, arch: seq<byte>, n: nat)
    ensures var kv' := RewriteKv(kv, arch + BLOCK_COUNT, n);
            SetsAlignment(kv') == SetsAlignment(kv) && (SetsAlignment(kv) ==> kv' == kv)
  {
    NotAlignmentKey(arch);
  }

  lemma {:induction false} RewriteAllAlignment(kvs: seq<Kv>, arch: seq<byte>, n: nat)
    ensures AlignmentOf(RewriteAll(kvs, arch + BLOCK_COUNT, n)) == AlignmentOf(kvs)
  {
    hide SetsAlignment, RewriteKv;
    if kvs != [] {
      var init, last := kvs[..|kvs| - 1], kvs[|kvs| - 1];
      RewriteAllAlignment(init, arch, n);
      RewriteKeepsAlignment(last, arch, n);
      assert RewriteAll(kvs, arch + BLOCK_COUNT, n)[..|init|] == RewriteAll(init, arch + BLOCK_COUNT, n);
    }
  }

  /** No rewritten or added entry touches the alignment. */
  lemma NewKvsAlignment(kvs: seq<Kv>, arch: seq<byte>, r: Range)
    requires r.start <= r.end
    ensures AlignmentOf(NewKvs(kvs, arch, r)) == AlignmentOf(kvs)
  {
    hide RewriteAll;
    var all := RewriteAll(kvs, arch + BLOCK_COUNT, r.end - r.start);
    var a, b := Flag(HAS_EMBED, r.embed), Flag(HAS_HEAD, r.head);
    RewriteAllAlignment(kvs, arch, r.end - r.start);
    AlignmentStep(all, a);
    AlignmentStep(all + [a], b);
    assert all + [a, b] == all + [a] + [b];
  }

  // ---------- the stitched data ----------

  /** A tensor's bytes in the stitched file: the source bytes, then zeros up to the alignment. */
  function Slot(kept: seq<Kept>, a: nat, i: nat): seq<byte>
    requires i < |kept|
  {
    Padded(DataBytes(kept[..i], a), kept[i].bytes, a)
  }

  function Slots(kept: seq<Kept>, a: nat): (s: seq<seq<byte>>)
    ensures |s| == |kept|
  {
    seq(|kept|, i requires 0 <= i < |kept| => Slot(kept, a, i))
  }

  lemma {:induction false} OffsetAligned(kept: seq<Kept>, a: nat, i: nat)
    requires a > 0 && i <= |kept|
    ensures OffsetAt(kept, a, i) % a == 0
    decreases i
  {
    hide DataBytes, AlignUp;
    if i > 0 {
      Aligned(OffsetAt(kept, a, i - 1) + |kept[i - 1].bytes|, a);
    }
  }

  /** The padding of a slot depends on the tensor alone. */
  lemma SlotIsPadded(kept: seq<Kept>, a: nat, i: nat)
    requires a > 0 && i < |kept|
    ensures var bytes := kept[i].bytes;
            Slot(kept, a, i) == bytes + Zeros(AlignUp(|bytes|, a) - |bytes|)
  {
    hide AlignUp, DataBytes;
    OffsetAligned(kept, a, i);
    AlignPastBase(OffsetAt(kept, a, i), |kept[i].bytes|, a);
  }

  /** Slot `i` lies at its offset in the data. */
  lemma SlotInData(kept: seq<Kept>, a: nat, i: nat)
    requires i < |kept|
    ensures OffsetAt(kept, a, i) + |Slot(kept, a, i)| == OffsetAt(kept, a, i + 1)
    ensures IsSlice(DataBytes(kept, a), OffsetAt(kept, a, i), Slot(kept, a, i))
  {
    hide Padded, OffsetAt;
    MoreData(kept, a, i);
    DataGrows(kept, a, i + 1);
    var next := OffsetAt(kept, a, i + 1);
    var o, slot := OffsetAt(kept, a, i), Slot(kept, a, i);
    var before, more, all := DataBytes(kept[..i], a), DataBytes(kept[..i + 1], a), DataBytes(kept, a);
    assert |more| == next;
    assert all[..|more|] == more == before + slot;
    assert all[o..o + |slot|] == more[o..o + |slot|] == slot;
  }

  lemma {:induction false} OffsetsRise(kept: seq<Kept>, a: nat, i: nat, j: nat)
    requires i <= j <= |kept|
    ensures OffsetAt(kept, a, i) <= OffsetAt(kept, a, j)
    decreases j
  {
    hide OffsetAt, DataBytes;
    if i < j {
      OffsetsRise(kept, a, i, j - 1);
      OffsetStep(kept, a, j - 1);
    }
  }

  /** The sizes the parser derives from the new offsets are the slots' sizes: in particular the stable
      sort keeps empty tensors apart from their successors. */
  lemma SlotsAreDerived(kept: seq<Kept>, a: nat)
    requires |DataBytes(kept, a)| < U64
    ensures Derived(OffsetsOf(Placed(kept, a)), Lengths(Slots(kept, a)), |DataBytes(kept, a)|)
  {
    hide OffsetAt, DataBytes, Slot, Order, Sub64;
    var offsets, sizes, n := OffsetsOf(Placed(kept, a)), Lengths(Slots(kept, a)), |kept|;
    forall v, w | 0 <= v < w < n
      ensures offsets[v] <= offsets[w]
    {
      OffsetsRise(kept, a, v, w);
    }
    OrderOfSorted(offsets, n);
    var order := Order(offsets, n);
    forall w | 0 <= w < n
      ensures sizes[order[w]] == Sub64(NextOffset(offsets, order, |DataBytes(kept, a)|, w), offsets[order[w]])
    {
      SlotInData(kept, a, w);
      DataGrows(kept, a, w + 1);
      AllData(kept, a);
      Sub64Exact(OffsetAt(kept, a, w + 1), OffsetAt(kept, a, w));
    }
  }

  lemma AllData(kept: seq<Kept>, a: nat)
    ensures OffsetAt(kept, a, |kept|) == |DataBytes(kept, a)|
  {
    assert kept[..|kept|] == kept;
  }

  lemma DataInFile(m: Manifest, kvs: seq<Kv>, kept: seq<Kept>)
    ensures |DataBytes(kept, Alignment(m))| <= |Stitched(m, kvs, kept)|
  {
    hide DataBytes, NewHeader;
  }

  /** The stitched file's tensors are the slots. */
  lemma StitchedData(m: Manifest, kvs: seq<Kv>, kept: seq<Kept>, h: Header)
    requires m.alignment == AlignmentOf(kvs) && |Stitched(m, kvs, kept)| < U64
    requires h.kvs == kvs && h.tensors == Placed(kept, Alignment(m))
    requires h.indexEnd == |NewHeader(m, kvs, h.tensors)|
    ensures TensorData(Stitched(m, kvs, kept), h, Slots(kept, Alignment(m)))
  {
    hide AlignmentOf, NewHeader, OffsetAt, DataBytes, Slot, Derived, Zeros;
    var a := Alignment(m);
    var header, data := NewHeader(m, kvs, h.tensors), DataBytes(kept, a);
    var start := AlignUp(|header|, a);
    assert start == DataStart(h);
    var file := header + Zeros(start - |header|) + data;
    SlotsAreDerived(kept, a);
    forall i | 0 <= i < |kept|
      ensures IsSlice(file, CutStart(start, OffsetAt(kept, a, i)), Slots(kept, a)[i])
    {
      SlotInData(kept, a, i);
      ModOnce(start + OffsetAt(kept, a, i));
      var o, slot := OffsetAt(kept, a, i), Slot(kept, a, i);
      assert file[start + o..start + o + |slot|] == data[o..o + |slot|];
    }
  }
}
