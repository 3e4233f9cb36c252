/** Which chunks a peer downloads for its layers, against which chunks the stitcher opens. */
module Fetching {
  import opened Results
  import opened Bytes
  import opened Gguf
  import opened Bundles
  import opened Manifests
  import opened Routing
  import opened Chunker
  import opened Checking
  import opened Stitching
  import opened Slices

  datatype Wanted = Wanted(cid: Cid, size: nat)

  /** The bundle names of layers `[from, end)`. */
  function BlockNames(from: nat, end: nat): seq<seq<byte>>
    decreases end - from
  {
    if from >= end then [] else [KindName(Block(from))] + BlockNames(from + 1, end)
  }

  /** The names a peer serving `[start, end)` asks for. */
  method ForRange(m: Manifest, start: nat, end: nat) returns (names: seq<seq<byte>>)
    ensures names == Plan(m, start, end)
  {
    names := [];
    if start == 0 {
      names := names + [Text("embed")];
    }
    ghost var first := names;
    assert first + BlockNames(start, end) == names + BlockNames(start, end);
    if start <= end {
      for n := start to end
        invariant first + BlockNames(start, end) == names + BlockNames(n, end)
      {
        assert names + BlockNames(n, end) == names + [KindName(Block(n))] + BlockNames(n + 1, end);
        names := names + [BLK + Dec(n)];
      }
      assert names + [] == names;
    }
    if end == m.nLayers {
      names := names + [Text("head")];
    }
  }

  function Plan(m: Manifest, start: nat, end: nat): seq<seq<byte>> {
    (if start == 0 then [KindName(Embed)] else []) + BlockNames(start, end) + if end == m.nLayers then [KindName(Head)] else []
  }

  /** The first bundle of a name. */
  function FirstOf(bundles: seq<Bundle>, name: seq<byte>): (r: Option<Bundle>)
    ensures r.None? <==> !HasName(bundles, name)
    ensures r.Some? ==> exists b | 0 <= b < |bundles| ::
      bundles[b] == r.value && r.value.name == name && !HasName(bundles[..b], name)
    decreases bundles
  {
    if bundles == [] then None
    else if bundles[0].name == name then
      assert !HasName(bundles[..0], name);
      Some(bundles[0])
    else
      var r := FirstOf(bundles[1..], name);
      assert HasName(bundles, name) <==> HasName(bundles[1..], name) by { LaterName(bundles, name); }
      assert r.Some? ==> exists b | 0 <= b < |bundles| ::
        bundles[b] == r.value && r.value.name == name && !HasName(bundles[..b], name) by {
        if r.Some? {
          var b :| 0 <= b < |bundles[1..]| && bundles[1..][b] == r.value && !HasName(bundles[1..][..b], name);
          assert bundles[..b + 1][1..] == bundles[1..][..b];
          LaterName(bundles[..b + 1], name);
          assert bundles[b + 1] == r.value;
        }
      }
      r
  }

  predicate HasName(bundles: seq<Bundle>, name: seq<byte>) {
    exists b | 0 <= b < |bundles| :: bundles[b].name == name
  }

  lemma LaterName(bundles: seq<Bundle>, name: seq<byte>)
    requires bundles != [] && bundles[0].name != name
    ensures HasName(bundles, name) <==> HasName(bundles[1..], name)
  {
    if HasName(bundles, name) {
      var b :| 0 <= b < |bundles| && bundles[b].name == name;
      assert bundles[1..][b - 1].name == name;
    }
  }

  method Find(bundles: seq<Bundle>, name: seq<byte>) returns (r: Option<Bundle>)
    ensures r == FirstOf(bundles, name)
  {
    for b := 0 to |bundles|
      invariant FirstOf(bundles, name) == FirstOf(bundles[b..], name)
    {
      assert bundles[b..][1..] == bundles[b + 1..];
      if bundles[b].name == name {
        return Some(bundles[b]);
      }
    }
    return None;
  }

  ghost predicate Lists(wanted: seq<Wanted>, cid: Cid) {
    exists w | 0 <= w < |wanted| :: wanted[w].cid == cid
  }

  /** The chunks of a list that no earlier one shares its content id with. */
  ghost function FirstOnly(wanted: seq<Wanted>): seq<Wanted> {
    if wanted == [] then []
    else
      var init, last := wanted[..|wanted| - 1], wanted[|wanted| - 1];
      FirstOnly(init) + if Lists(init, last.cid) then [] else [last]
  }

  /** No content id twice, every content id still there, and with the size it was first listed with. */
  lemma {:induction false} FirstOnlyKeeps(wanted: seq<Wanted>, c: Cid)
    ensures forall w, v | 0 <= w < v < |FirstOnly(wanted)| :: FirstOnly(wanted)[w].cid != FirstOnly(wanted)[v].cid
    ensures Lists(FirstOnly(wanted), c) <==> Lists(wanted, c)
    ensures forall w | 0 <= w < |FirstOnly(wanted)| :: exists i | 0 <= i < |wanted| ::
      wanted[i] == FirstOnly(wanted)[w] && !Lists(wanted[..i], wanted[i].cid)
  {
    if wanted != [] {
      var init, last := wanted[..|wanted| - 1], wanted[|wanted| - 1];
      var once, all := FirstOnly(init), FirstOnly(wanted);
      FirstOnlyKeeps(init, c);
      FirstOnlyKeeps(init, last.cid);
      ListsMore(init, last, c);
      assert wanted == init + [last];
      if Lists(init, last.cid) {
        assert all == once;
      } else {
        assert all == once + [last];
        ListsMore(once, last, c);
      }
      forall w, v | 0 <= w < v < |all|
        ensures all[w].cid != all[v].cid
      {
        assert all[w] == once[w];
        assert v == |once| ==> !Lists(once, last.cid);
      }
      forall w | 0 <= w < |all|
        ensures exists i | 0 <= i < |wanted| :: wanted[i] == all[w] && !Lists(wanted[..i], wanted[i].cid)
      {
        if w < |once| {
          var i :| 0 <= i < |init| && init[i] == once[w] && !Lists(init[..i], init[i].cid);
          assert wanted[..i] == init[..i];
          assert wanted[i] == all[w];
        } else {
          assert wanted[..|init|] == init;
          assert wanted[|init|] == all[w];
        }
      }
    }
  }

  lemma ListsMore(wanted: seq<Wanted>, last: Wanted, c: Cid)
    ensures Lists(wanted + [last], c) <==> Lists(wanted, c) || last.cid == c
  {
    var more := wanted + [last];
    assert more[|wanted|] == last;
    if Lists(wanted, c) {
      var w :| 0 <= w < |wanted| && wanted[w].cid == c;
      assert more[w].cid == c;
    }
  }

  method Dedup(wanted: seq<Wanted>) returns (r: seq<Wanted>)
    ensures r == FirstOnly(wanted)
  {
    r := [];
    var seen: set<Cid> := {};
    for i := 0 to |wanted|
      invariant r == FirstOnly(wanted[..i])
      invariant forall c :: c in seen <==> Lists(wanted[..i], c)
    {
      assert wanted[..i + 1] == wanted[..i] + [wanted[i]];
      forall c
        ensures Lists(wanted[..i + 1], c) <==> Lists(wanted[..i], c) || wanted[i].cid == c
      {
        ListsMore(wanted[..i], wanted[i], c);
      }
      if wanted[i].cid !in seen {
        seen := seen + {wanted[i].cid};
        r := r + [wanted[i]];
      }
    }
    assert wanted[..|wanted|] == wanted;
  }

  ghost predicate AllNamed(bundles: seq<Bundle>, names: seq<seq<byte>>) {
    forall n | 0 <= n < |names| :: HasName(bundles, names[n])
  }

  /** The header, and the first bundle of every name. */
  ghost function AllWanted(m: Manifest, names: seq<seq<byte>>): (r: seq<Wanted>)
    requires AllNamed(m.bundles, names)
  {
    [Wanted(m.headerCid, m.headerSize)]
    + seq(|names|, n requires 0 <= n < |names| && HasName(m.bundles, names[n]) => WantedFor(m.bundles, names[n]))
  }

  function WantedFor(bundles: seq<Bundle>, name: seq<byte>): Wanted
    requires HasName(bundles, name)
  {
    var b := FirstOf(bundles, name).value;
    Wanted(b.cid, b.size)
  }

  /** The chunks a plan downloads: the header, then the first bundle of every name, each content id once.
      Fails exactly when a name is unknown. */
  method SelectChunks(m: Manifest, names: seq<seq<byte>>) returns (r: Option<seq<Wanted>>)
    ensures r.Some? <==> AllNamed(m.bundles, names)
    ensures r.Some? ==> r.value == FirstOnly(AllWanted(m, names))
  {
    hide HasName, FirstOnly;
    var wanted := [Wanted(m.headerCid, m.headerSize)];
    for n := 0 to |names|
      invariant |wanted| == n + 1 && wanted[0] == Wanted(m.headerCid, m.headerSize)
      invariant forall i | 0 <= i < n :: HasName(m.bundles, names[i]) && wanted[i + 1] == WantedFor(m.bundles, names[i])
    {
      var found := Find(m.bundles, names[n]);
      if found.None? {
        return None;
      }
      wanted := wanted + [Wanted(found.value.cid, found.value.size)];
    }
    assert wanted == AllWanted(m, names);
    var once := Dedup(wanted);
    return Some(once);
  }

  ghost predicate UniqueNames(bundles: seq<Bundle>) {
    forall b, c | 0 <= b < c < |bundles| :: bundles[b].name != bundles[c].name
  }

  /** Without repeated names every planned bundle is downloaded, with the header. */
  lemma SelectsPlanned(m: Manifest, names: seq<seq<byte>>, b: nat)
    requires AllNamed(m.bundles, names) && UniqueNames(m.bundles) && b < |m.bundles| && m.bundles[b].name in names
    ensures Lists(FirstOnly(AllWanted(m, names)), m.bundles[b].cid)
    ensures Wanted(m.bundles[b].cid, m.bundles[b].size) in AllWanted(m, names)
  {
    hide HasName, FirstOnly, WantedFor;
    var all, bundle := AllWanted(m, names), m.bundles[b];
    var n :| 0 <= n < |names| && names[n] == bundle.name;
    OnlyOne(m.bundles, b);
    assert all[n + 1] == WantedFor(m.bundles, names[n]);
    FirstOnlyKeeps(all, bundle.cid);
  }

  lemma OnlyOne(bundles: seq<Bundle>, b: nat)
    requires UniqueNames(bundles) && b < |bundles|
    ensures HasName(bundles, bundles[b].name) && WantedFor(bundles, bundles[b].name) == Wanted(bundles[b].cid, bundles[b].size)
  {
    var name := bundles[b].name;
    assert HasName(bundles, name);
    var r := FirstOf(bundles, name);
    var c :| 0 <= c < |bundles| && bundles[c] == r.value && r.value.name == name && !HasName(bundles[..c], name);
    assert c < b ==> bundles[c].name != bundles[b].name;
    assert b < c ==> bundles[b].name != bundles[c].name;
  }

  lemma SelectsHeader(m: Manifest, names: seq<seq<byte>>)
    requires AllNamed(m.bundles, names)
    ensures Lists(FirstOnly(AllWanted(m, names)), m.headerCid)
  {
    hide HasName, FirstOnly, WantedFor;
    var all := AllWanted(m, names);
    assert all[0].cid == m.headerCid;
    FirstOnlyKeeps(all, m.headerCid);
  }

  // ---------- the plan and the stitcher agree ----------

  lemma {:induction false} BlockNamesHold(from: nat, end: nat, n: nat)
    requires n < U32 && end <= U32
    ensures KindName(Block(n)) in BlockNames(from, end) <==> from <= n < end
    decreases end - from
  {
    if from < end {
      BlockNamesHold(from + 1, end, n);
      NamesDiffer(Block(n), Block(from));
    }
  }

  /** Bundle names identify kinds. */
  lemma NamesDiffer(a: Kind, b: Kind)
    requires GoodKind(a) && GoodKind(b)
    ensures KindName(a) == KindName(b) <==> a == b
  {
    var none := Range(0, 0, false, false);
    if KindName(a) == KindName(b) {
      var r := match a case Embed => Range(0, 0, true, false) case Block(n) => Range(n, n + 1, false, false)
                       case Head => Range(0, 0, false, true);
      IncludesKind(r, a);
      IncludesKind(r, b);
    }
  }

  lemma {:induction false} OnlyBlocks(from: nat, end: nat, k: Kind)
    requires !k.Block? && end <= U32
    ensures KindName(k) !in BlockNames(from, end)
    decreases end - from
  {
    if from < end {
      OnlyBlocks(from + 1, end, k);
      NamesDiffer(k, Block(from));
    }
  }

  /** The plan names a bundle exactly when the range with both flags as they ought to be takes it. */
  lemma PlanIsRange(m: Manifest, start: nat, end: nat, k: Kind)
    requires GoodKind(k) && end <= U32
    ensures KindName(k) in Plan(m, start, end) <==> TakesKind(Range(start, end, start == 0, end == m.nLayers), k)
  {
    hide KindName;
    NamesDiffer(k, Embed);
    NamesDiffer(k, Head);
    if k.Block? {
      BlockNamesHold(start, end, k.n);
    } else {
      OnlyBlocks(start, end, k);
    }
  }

  /** The range the daemon stitches: its own idea of the layer count decides about the head. */
  function DaemonRange(start: nat, end: nat, blockCount: nat): Range {
    Range(start, end, start == 0, end == blockCount)
  }

  /** Names as the chunker writes them. */
  ghost predicate NamedByKind(m: Manifest, order: seq<Kind>) {
    && |order| == |m.bundles| && GoodKinds(order)
    && forall b | 0 <= b < |order| :: m.bundles[b].name == KindName(order[b])
  }

  /** Every chunk the stitcher opens for a range it accepts is in the plan, whatever layer count the
      daemon believes in; and the plan holds nothing else when both agree about the last layer. */
  lemma FetchCoversStitch(m: Manifest, order: seq<Kind>, start: nat, end: nat, blockCount: nat, b: nat)
    requires NamedByKind(m, order) && b < |m.bundles| && m.nLayers < U32
    requires ValidRange(m.nLayers, DaemonRange(start, end, blockCount))
    ensures Includes(DaemonRange(start, end, blockCount), m.bundles[b].name).Ok?
    ensures Takes(DaemonRange(start, end, blockCount), m.bundles[b]) ==> m.bundles[b].name in Plan(m, start, end)
    ensures (end == m.nLayers <==> end == blockCount) ==>
      (m.bundles[b].name in Plan(m, start, end) <==> Takes(DaemonRange(start, end, blockCount), m.bundles[b]))
  {
    hide KindName, Includes, Plan;
    var r := DaemonRange(start, end, blockCount);
    assert GoodKind(order[b]);
    IncludesKind(r, order[b]);
    PlanIsRange(m, start, end, order[b]);
  }

  /** A chunker's manifest names its bundles so, and no two alike. */
  lemma ChunkerNames(m: Manifest, bytes: seq<byte>, h: Header, datas: seq<seq<byte>>, hash: seq<byte> -> Cid)
    requires Describes(m, bytes, h, datas, hash)
    ensures NamedByKind(m, KindOrder(KindsOf(h.tensors), |h.tensors|)) && UniqueNames(m.bundles)
  {
    hide KindOrder, KindName, LayerCount, MembersOf, BundleBytes, Matching, TensorData;
    var order := KindOrder(KindsOf(h.tensors), |h.tensors|);
    KindsAreGood(h.tensors);
    KindOrderLists(KindsOf(h.tensors), |h.tensors|, Embed);
    KindOrderRanked(KindsOf(h.tensors), |h.tensors|);
    forall b, c | 0 <= b < c < |m.bundles|
      ensures m.bundles[b].name != m.bundles[c].name
    {
      assert GoodKind(order[b]) && GoodKind(order[c]);
      NamesDiffer(order[b], order[c]);
    }
  }

  // ---------- what was fetched can be stitched ----------

  /** Every chunk of a plan has been downloaded, with its size and its hash. */
  ghost predicate Fetched(m: Manifest, chunks: Chunks, hash: seq<byte> -> Cid, start: nat, end: nat) {
    && AllNamed(m.bundles, Plan(m, start, end))
    && forall w | w in FirstOnly(AllWanted(m, Plan(m, start, end))) :: ChunkOk(chunks, hash, w.cid, w.size)
  }

  lemma FetchedCid(m: Manifest, chunks: Chunks, hash: seq<byte> -> Cid, start: nat, end: nat, c: Cid)
    requires Fetched(m, chunks, hash, start, end) && Lists(FirstOnly(AllWanted(m, Plan(m, start, end))), c)
    ensures c in chunks && hash(chunks[c]) == c
  {
    hide AllNamed, FirstOnly, AllWanted, Plan;
    var once := FirstOnly(AllWanted(m, Plan(m, start, end)));
    var w :| 0 <= w < |once| && once[w].cid == c;
    assert once[w] in once;
  }

  /** The manifest gives a content id one size wherever the plan wants it. */
  ghost predicate OneSize(m: Manifest, start: nat, end: nat)
    requires AllNamed(m.bundles, Plan(m, start, end))
  {
    var all := AllWanted(m, Plan(m, start, end));
    forall v, w | v in all && w in all && v.cid == w.cid :: v.size == w.size
  }

  /** After a plan has been carried out the stitcher finds every bundle the daemon's range takes, with its
      size, for any manifest that names its bundles as the chunker does and gives each content id one size. */
  lemma FetchedIsReadable(m: Manifest, order: seq<Kind>, chunks: Chunks, hash: seq<byte> -> Cid, start: nat, end: nat, blockCount: nat)
    requires NamedByKind(m, order) && UniqueNames(m.bundles) && m.nLayers < U32
    requires ValidRange(m.nLayers, DaemonRange(start, end, blockCount))
    requires Fetched(m, chunks, hash, start, end) && OneSize(m, start, end)
    ensures ChunkOk(chunks, hash, m.headerCid, m.headerSize)
    ensures AllReadable(chunks, DaemonRange(start, end, blockCount), m.bundles)
  {
    hide Plan, AllWanted, FirstOnly, NamedByKind, Includes, AllNamed;
    var all := AllWanted(m, Plan(m, start, end));
    SelectsHeader(m, Plan(m, start, end));
    HeaderWanted(m, Plan(m, start, end));
    SizeOfFetched(m, chunks, hash, start, end, Wanted(m.headerCid, m.headerSize));
    forall b | 0 <= b < |m.bundles|
      ensures Readable(chunks, DaemonRange(start, end, blockCount), m.bundles[b])
    {
      FetchCoversStitch(m, order, start, end, blockCount, b);
      if m.bundles[b].name in Plan(m, start, end) {
        SelectsPlanned(m, Plan(m, start, end), b);
        SizeOfFetched(m, chunks, hash, start, end, Wanted(m.bundles[b].cid, m.bundles[b].size));
      }
    }
  }

  lemma HeaderWanted(m: Manifest, names: seq<seq<byte>>)
    requires AllNamed(m.bundles, names)
    ensures Wanted(m.headerCid, m.headerSize) in AllWanted(m, names)
  {
    assert AllWanted(m, names)[0] == Wanted(m.headerCid, m.headerSize);
  }

  lemma SizeOfFetched(m: Manifest, chunks: Chunks, hash: seq<byte> -> Cid, start: nat, end: nat, x: Wanted)
    requires Fetched(m, chunks, hash, start, end) && OneSize(m, start, end)
    requires x in AllWanted(m, Plan(m, start, end))
    ensures ChunkOk(chunks, hash, x.cid, x.size)
  {
    hide AllNamed, FirstOnly, AllWanted, Plan;
    var all := AllWanted(m, Plan(m, start, end));
    var once := FirstOnly(all);
    assert Lists(all, x.cid);
    FirstOnlyKeeps(all, x.cid);
    var w :| 0 <= w < |once| && once[w].cid == x.cid;
    var i :| 0 <= i < |all| && all[i] == once[w];
    assert once[w] in once && all[i] in all;
  }

  /** Carrying out the plan of a chunker's manifest supplies the daemon's range with the published bytes,
      as long as no two chunks, published or fetched, share a hash. */
  lemma FetchedSupplies(m: Manifest, chunks: Chunks, hash: seq<byte> -> Cid, bytes: seq<byte>, h: Header,
                        datas: seq<seq<byte>>, start: nat, end: nat, blockCount: nat)
    requires Describes(m, bytes, h, datas, hash) && m.nLayers < U32
    requires CollisionFree(hash, Produced(bytes, h, datas) + chunks.Values)
    requires ValidRange(m.nLayers, DaemonRange(start, end, blockCount)) && Fetched(m, chunks, hash, start, end)
    ensures Supplied(chunks, m, bytes, h, datas, DaemonRange(start, end, blockCount))
  {
    hide Plan, AllWanted, FirstOnly, AllNamed, KindOrder, KindsOf, LayerCount, BundleData, TakesKind, Fetched, MembersOf, Matching;
    var order, names := KindOrder(KindsOf(h.tensors), |h.tensors|), Plan(m, start, end);
    PlanIsKnown(m, chunks, hash, start, end);
    ChunkerNames(m, bytes, h, datas, hash);
    SelectsHeader(m, names);
    FetchedCid(m, chunks, hash, start, end, m.headerCid);
    SameBytes(chunks, hash, Produced(bytes, h, datas), m.headerCid, bytes[..DataStart(h)]);
    forall b | 0 <= b < |order| && TakesKind(DaemonRange(start, end, blockCount), order[b])
      ensures Holds(chunks, m.bundles[b].cid, BundleData(h.tensors, datas, order[b]))
    {
      FetchCoversStitch(m, order, start, end, blockCount, b);
      IncludesKind(DaemonRange(start, end, blockCount), order[b]);
      SelectsPlanned(m, names, b);
      FetchedCid(m, chunks, hash, start, end, m.bundles[b].cid);
      BundleWasProduced(m, bytes, h, datas, hash, b);
      SameBytes(chunks, hash, Produced(bytes, h, datas), m.bundles[b].cid, BundleData(h.tensors, datas, order[b]));
    }
  }

  lemma PlanIsKnown(m: Manifest, chunks: Chunks, hash: seq<byte> -> Cid, start: nat, end: nat)
    requires Fetched(m, chunks, hash, start, end)
    ensures AllNamed(m.bundles, Plan(m, start, end))
  {
  }

  lemma SameBytes(chunks: Chunks, hash: seq<byte> -> Cid, produced: set<seq<byte>>, c: Cid, b: seq<byte>)
    requires CollisionFree(hash, produced + chunks.Values) && b in produced && hash(b) == c
    requires c in chunks && hash(chunks[c]) == c
    ensures Holds(chunks, c, b)
  {
    assert chunks[c] in chunks.Values;
  }

  lemma BundleWasProduced(m: Manifest, bytes: seq<byte>, h: Header, datas: seq<seq<byte>>, hash: seq<byte> -> Cid, b: nat)
    requires Describes(m, bytes, h, datas, hash) && b < |m.bundles|
    ensures var order := KindOrder(KindsOf(h.tensors), |h.tensors|);
            && b < |order| && BundleData(h.tensors, datas, order[b]) in Produced(bytes, h, datas)
            && hash(BundleData(h.tensors, datas, order[b])) == m.bundles[b].cid
  {
    hide KindOrder, KindsOf, LayerCount, MembersOf, Matching, BundleBytes;
    BundleIsProduced(h.tensors, datas, KindOrder(KindsOf(h.tensors), |h.tensors|), b);
  }
}
