/** The chain client: one session per peer, walked in order on every step. */
module Chains {
  import opened Results
  import opened Transformer
  import opened Backends
  import opened Pipeline
  import opened Peers
  import Bytes
  import Frames
  import HiddenStates

  /** Driver-side session state: the session id, and the sequence number of the last request. */
  datatype Link = Link(session: nat, seqNo: nat)

  ghost function Objects(peers: seq<Peer>): (objects: set<object>)
    ensures forall i | 0 <= i < |peers| :: peers[i] in objects && peers[i].loaded in objects
  {
    (set i | 0 <= i < |peers| :: peers[i] as object) + (set i | 0 <= i < |peers| :: peers[i].loaded as object)
  }

  /** No two peers share a session or a cache. */
  ghost predicate Separate(peers: seq<Peer>)
  {
    forall i, j | 0 <= i < j < |peers| :: peers[i] != peers[j] && peers[i].loaded != peers[j].loaded
  }

  /** The fields of a message around its payload, with the payload's own length, take at most this much. */
  const OTHER_FIELDS: nat := 256

  lemma Fewer(n: nat, m: nat, width: nat)
    requires m <= n
    ensures m * width <= n * width
  {
    assert n * width == m * width + (n - m) * width;
  }

  /** How rows are written: the number type, and the width all rows have. */
  datatype Layout = Layout(dtype: HiddenStates.Dtype, width: nat) {

    function Payload(n: nat): nat {
      HiddenStates.PayloadSize(dtype, n, width)
    }

    /** `n` rows fit a frame, whatever their values. */
    predicate Carries(n: nat) {
      dtype != HiddenStates.Bf16 && OTHER_FIELDS + 2 * Payload(n) <= Frames.MAX_FRAME
    }

    /** `n` rows fit no frame, whatever their values, or have no encoding. */
    predicate Refuses(n: nat) {
      dtype == HiddenStates.Bf16 || Payload(n) > Frames.MAX_FRAME
    }

    /** With their own bytes and 256 for the rest, twice the payload fits 16 MiB. */
    lemma CarriesIff(n: nat)
      ensures Carries(n) <==>
        || (dtype == HiddenStates.Int8 && 256 + 2 * (4 * n + n * width) <= 16777216)
        || (dtype == HiddenStates.Fp16 && 256 + 4 * (n * width) <= 16777216)
      ensures Refuses(n) <==>
        || dtype == HiddenStates.Bf16
        || (dtype == HiddenStates.Int8 && 4 * n + n * width > 16777216)
        || (dtype == HiddenStates.Fp16 && 2 * (n * width) > 16777216)
    {
    }

    lemma CarriesFewer(n: nat, m: nat)
      requires Carries(n) && m <= n
      ensures Carries(m)
    {
      Fewer(n, m, width);
    }

    /** Encode a message with some `n` rows: its size depends on their values. */
    method Encode(n: nat) returns (r: Result<(), Fault>)
      ensures r.Err? ==> r.error == FrameRefused
      ensures Carries(n) ==> r.Ok?
      ensures Refuses(n) ==> r.Err?
    {
      if dtype == HiddenStates.Bf16 {
        return Err(FrameRefused);
      }
      assert |Bytes.Zeros(Payload(n))| == Payload(n);
      var payload: seq<Bytes.byte> :| |payload| == Payload(n);
      var other: nat :| other <= OTHER_FIELDS;
      Frames.ArrayBounds(payload);
      if other + Frames.ArraySize(payload) > Frames.MAX_FRAME {
        return Err(FrameRefused);
      }
      return Ok(());
    }
  }

  /** 600 rows of 16384 half floats fit no frame. */
  lemma LongPrefillRefused()
    ensures Layout(HiddenStates.Fp16, 16384).Refuses(600)
  {
  }

  class Chain {
    const peers: seq<Peer>
    const frontEnd: nat
    const wire: Wire
    const layout: Layout
    /** The environment may lose a request or a reply at any hop. */
    const faulty: bool
    var links: seq<Link>

    ghost const Repr: set<object>

    ghost predicate Valid()
      reads this, Repr
    {
      && this in Repr && Separate(peers) && |peers| == |links|
      && (forall i | 0 <= i < |peers| ::
            && peers[i] in Repr && peers[i].loaded in Repr && peers[i].Valid()
            && peers[i].sessionId == links[i].session && peers[i].lastSeq <= links[i].seqNo)
    }

    ghost function Views(): (v: seq<Stage>)
      requires Valid()
      reads this, Repr
      ensures |v| == |peers|
      ensures forall i | 0 <= i < |v| :: v[i] == peers[i].View()
    {
      seq(|peers|, i requires 0 <= i < |peers| && Valid() reads this, Repr => peers[i].View())
    }

    constructor (peers: seq<Peer>, frontEnd: nat, wire: Wire, layout: Layout, faulty: bool)
      requires Separate(peers) && forall i | 0 <= i < |peers| :: peers[i].Valid() && peers[i].lastSeq == 0
      ensures Valid() && this.peers == peers && this.frontEnd == frontEnd && this.wire == wire && this.faulty == faulty
      ensures this.layout == layout
      ensures Repr == {this} + Objects(peers)
    {
      this.peers, this.frontEnd, this.wire, this.layout, this.faulty := peers, frontEnd, wire, layout, faulty;
      links := seq(|peers|, i requires 0 <= i < |peers| => Link(peers[i].sessionId, 0));
      Repr := {this} + Objects(peers);
    }

    /** One request to peer `i` and its reply, with a fresh sequence number. Either message may be too long
        for a frame. */
    method Hop(i: nat, rows: seq<Row>, keep: Keep) returns (r: Result<seq<Row>, Fault>)
      requires Valid() && i < |peers|
      modifies Repr
      ensures Valid()
      ensures forall j | 0 <= j < |peers| && j != i :: peers[j].View() == old(peers[j].View())
      ensures r.Ok? ==> (peers[i].View(), r.value) == Pipeline.Hop(old(peers[i].View()), wire, keep, rows)
      ensures !faulty && layout.Carries(|rows|) && CanServe(old(peers[i].View()), peers[i].loaded.nCtx, keep, |rows|) ==>
        r.Ok?
      ensures layout.Refuses(|rows|) ==> r == Err(FrameRefused) && peers[i].View() == old(peers[i].View())
    {
      links := links[i := links[i].(seqNo := links[i].seqNo + 1)];
      var _ :- layout.Encode(|rows|);
      if faulty {
        var requestLost: bool := *;
        if requestLost {
          return Err(LinkLost);
        }
      }
      var out :- peers[i].ForwardHidden(links[i].session, links[i].seqNo, Send(wire, rows), keep);
      var reply := layout.Encode(|out|);
      if reply.Err? {
        // The peer drops the connection.
        return Err(LinkLost);
      }
      if faulty {
        var replyLost: bool := *;
        if replyLost {
          return Err(LinkLost);
        }
      }
      return Ok(Send(wire, out));
    }

    /** A step on `rows` from `before` has visited the first `i` peers and carries `cur` to the rest. */
    ghost predicate Midway(before: seq<Stage>, rows: seq<Row>, keep: Keep, i: nat, cur: seq<Row>)
      reads this, Repr
    {
      && Valid() && i <= |peers| == |before| && |cur| == |rows|
      && (forall j | i <= j < |peers| :: Views()[j] == before[j])
      && ChainStep(before, wire, keep, rows).0 == Views()[..i] + ChainStep(before[i..], wire, keep, cur).0
      && ChainStep(before, wire, keep, rows).1 == ChainStep(before[i..], wire, keep, cur).1
    }

    /** Nothing but the environment keeps a step on `n` rows from succeeding. */
    ghost predicate Able(before: seq<Stage>, keep: Keep, n: nat)
    {
      && !faulty && layout.Carries(n) && |before| == |peers|
      && forall i | 0 <= i < |peers| :: CanServe(before[i], peers[i].loaded.nCtx, keep, n)
    }

    lemma StepStarts(rows: seq<Row>, keep: Keep)
      requires Valid()
      ensures Midway(Views(), rows, keep, 0, rows)
    {
      assert Views()[0..] == Views();
    }

    lemma StepEnds(before: seq<Stage>, rows: seq<Row>, keep: Keep, cur: seq<Row>)
      requires Midway(before, rows, keep, |peers|, cur)
      ensures Valid() && ChainStep(before, wire, keep, rows) == (Views(), cur)
    {
      assert Views()[..|peers|] == Views() && before[|peers|..] == [];
      assert ChainStep(before, wire, keep, rows).0 == Views();
    }

    /** The next hop of a step under way. */
    method HopOnward(i: nat, cur: seq<Row>, keep: Keep, ghost before: seq<Stage>, ghost rows: seq<Row>)
      returns (r: Result<seq<Row>, Fault>)
      requires Midway(before, rows, keep, i, cur) && i < |peers|
      modifies Repr
      ensures Valid()
      ensures r.Ok? ==> Midway(before, rows, keep, i + 1, r.value)
      ensures Able(before, keep, |rows|) ==> r.Ok?
      ensures layout.Refuses(|rows|) ==> r == Err(FrameRefused)
    {
      ghost var views := Views();
      r := Hop(i, cur, keep);
      if r.Ok? {
        StepOne(before, views, Views(), wire, keep, i, cur);
      }
    }

    /** Push the front rows through every peer in order. */
    method StepWithTruncate(rows: seq<Row>, keep: Keep) returns (r: Result<seq<Row>, Fault>)
      requires Valid()
      modifies Repr
      ensures Valid()
      ensures r.Ok? ==> (Views(), r.value) == ChainStep(old(Views()), wire, keep, rows)
      ensures Able(old(Views()), keep, |rows|) ==> r.Ok?
      ensures layout.Refuses(|rows|) && peers != [] ==> r == Err(FrameRefused)
    {
      hide Midway;
      var cur := rows;
      ghost var before := Views();
      StepStarts(rows, keep);
      for i := 0 to |peers|
        invariant Valid() && Midway(before, rows, keep, i, cur)
        invariant layout.Refuses(|rows|) ==> i == 0
      {
        cur :- HopOnward(i, cur, keep, before, rows);
      }
      StepEnds(before, rows, keep, cur);
      return Ok(cur);
    }
  }

  /** Serving stage `i` moves it from the stages still to visit to the stages done. */
  lemma StepOne(before: seq<Stage>, views: seq<Stage>, after: seq<Stage>, wire: Wire, keep: Keep, i: nat, rows: seq<Row>)
    requires |before| == |views| == |after| && i < |before| && views[i] == before[i]
    requires forall j | 0 <= j < |after| && j != i :: after[j] == views[j]
    requires after[i] == Pipeline.Hop(before[i], wire, keep, rows).0
    ensures var cur := Pipeline.Hop(before[i], wire, keep, rows).1;
            && views[..i] + ChainStep(before[i..], wire, keep, rows).0
               == after[..i + 1] + ChainStep(before[i + 1..], wire, keep, cur).0
            && ChainStep(before[i..], wire, keep, rows).1 == ChainStep(before[i + 1..], wire, keep, cur).1
  {
    assert before[i..][0] == before[i] && before[i..][1..] == before[i + 1..];
    assert after[..i + 1] == views[..i] + [after[i]];
  }

  // ---------- opening a chain ----------

  predicate Rises(splits: seq<nat>, i: nat)
    requires i + 1 < |splits|
  {
    splits[i] < splits[i + 1]
  }

  /** As many boundaries as peers, strictly increasing, the first positive, the last inside the model. */
  predicate ValidSplits(nPeers: nat, splits: seq<nat>, nBlocks: nat)
  {
    && nPeers > 0 && nPeers == |splits|
    && (forall i | 0 <= i < |splits| - 1 :: Rises(splits, i))
    && splits[0] > 0 && splits[|splits| - 1] < nBlocks
  }

  lemma {:induction false} Rising(splits: seq<nat>, i: nat, j: nat)
    requires i < j < |splits| && forall l | 0 <= l < |splits| - 1 :: Rises(splits, l)
    ensures splits[i] < splits[j]
    decreases j - i
  {
    assert Rises(splits, i);
    if i + 1 < j {
      Rising(splits, i + 1, j);
    }
  }

  /** Adjacent boundaries decide: a valid list is strictly increasing throughout. */
  lemma ValidSplitsIff(nPeers: nat, splits: seq<nat>, nBlocks: nat)
    ensures ValidSplits(nPeers, splits, nBlocks) <==>
      && 0 < nPeers == |splits| && 0 < splits[0] && splits[|splits| - 1] < nBlocks
      && forall i, j | 0 <= i < j < |splits| :: splits[i] < splits[j]
  {
    if forall l | 0 <= l < |splits| - 1 :: Rises(splits, l) {
      forall i, j | 0 <= i < j < |splits|
        ensures splits[i] < splits[j]
      {
        Rising(splits, i, j);
      }
    }
  }

  function RangeEnd(splits: seq<nat>, i: nat, nBlocks: nat): nat
  {
    if i + 1 < |splits| then splits[i + 1] else nBlocks
  }

  /** Every host loads the range it is asked for. */
  predicate AllLoad(hosts: seq<Listener>, splits: seq<nat>, nBlocks: nat)
    requires |hosts| <= |splits|
  {
    forall i | 0 <= i < |hosts| :: LoadedFor(hosts[i], splits[i], RangeEnd(splits, i, nBlocks)).Some?
  }

  predicate AllAnnounce(hosts: seq<Listener>) {
    forall i | 0 <= i < |hosts| :: hosts[i].announcing
  }

  /** The stages a connected chain starts with. */
  ghost function Opened(hosts: seq<Listener>, splits: seq<nat>, nBlocks: nat): (sts: seq<Stage>)
    requires |hosts| == |splits| && AllLoad(hosts, splits, nBlocks)
    ensures |sts| == |splits|
  {
    seq(|hosts|, i requires 0 <= i < |hosts| => FreshStage(hosts[i], splits[i], RangeEnd(splits, i, nBlocks)))
  }

  lemma {:induction false} SplitsRise(splits: seq<nat>, i: nat, nBlocks: nat)
    requires ValidSplits(|splits|, splits, nBlocks) && i < |splits|
    ensures splits[i] < RangeEnd(splits, i, nBlocks) <= nBlocks
    decreases |splits| - i
  {
    if i + 1 < |splits| {
      assert Rises(splits, i);
      SplitsRise(splits, i + 1, nBlocks);
    }
  }

  /** The host has the full model, or stitches the range to a file whose layers 0, 1, ... are the
      model's from `lo` on. */
  ghost predicate ServesRange(host: Listener, m: Model, lo: nat, hi: nat) {
    match host.disk
    case Full(model) => model == m
    case Pieces(stitch) =>
      && stitch(lo, hi).Some?
      && lo <= hi <= lo + stitch(lo, hi).value.nLayers
      && SameLayers(stitch(lo, hi).value, 0, m, lo, hi - lo)
  }

  ghost predicate AllServe(hosts: seq<Listener>, splits: seq<nat>, m: Model)
    requires |hosts| <= |splits|
  {
    forall i | 0 <= i < |hosts| :: ServesRange(hosts[i], m, splits[i], RangeEnd(splits, i, m.nLayers))
  }

  /** The ranges a connect hands out tile the model behind the driver's front slice, whichever peers
      serve a stitched file and whichever the full one, and every session starts empty. */
  lemma OpenedTiles(m: Model, hosts: seq<Listener>, splits: seq<nat>)
    requires ValidSplits(|hosts|, splits, m.nLayers) && AllServe(hosts, splits, m)
    ensures AllLoad(hosts, splits, m.nLayers)
    ensures Tiles(Opened(hosts, splits, m.nLayers), m, splits[0], m.nLayers)
    ensures AllAt(Opened(hosts, splits, m.nLayers), 0)
  {
    TilesFrom(m, hosts, splits, 0);
    assert Opened(hosts, splits, m.nLayers)[0..] == Opened(hosts, splits, m.nLayers);
  }

  lemma SameAsItself(m: Model, lo: nat, n: int)
    ensures n >= 0 ==> SameLayers(m, lo, m, lo, n)
  {
  }

  lemma {:induction false} TilesFrom(m: Model, hosts: seq<Listener>, splits: seq<nat>, i: nat)
    requires ValidSplits(|hosts|, splits, m.nLayers) && i < |splits| && AllServe(hosts, splits, m)
    ensures AllLoad(hosts, splits, m.nLayers)
    ensures Tiles(Opened(hosts, splits, m.nLayers)[i..], m, splits[i], m.nLayers)
    decreases |splits| - i
  {
    hide SameLayers, EmptyKv;
    SameAsItself(m, splits[i], RangeEnd(splits, i, m.nLayers) - splits[i]);
    var sts := Opened(hosts, splits, m.nLayers);
    SplitsRise(splits, i, m.nLayers);
    assert sts[i..][1..] == sts[i + 1..];
    if i + 1 < |splits| {
      TilesFrom(m, hosts, splits, i + 1);
    }
  }

  /** Connect to one host and open a session on layers `[lo, hi)`. */
  method OpenSession(host: Listener, sid: nat, lo: nat, hi: nat, faulty: bool)
    returns (r: Result<Peer, Fault>)
    requires lo <= hi
    ensures r.Ok? ==> host.announcing && LoadedFor(host, lo, hi).Some?
    ensures host.announcing && LoadedFor(host, lo, hi).Some? && !faulty ==> r.Ok?
    ensures r.Ok? ==> fresh(r.value) && fresh(r.value.loaded) && r.value.Valid()
    ensures r.Ok? ==> r.value.lastSeq == 0 && r.value.loaded.nCtx == host.nCtx && r.value.View() == FreshStage(host, lo, hi)
  {
    if faulty {
      var lost: bool := *;
      if lost {
        return Err(LinkLost);
      }
    }
    if !host.announcing || LoadedFor(host, lo, hi).None? {
      return Err(Refused);
    }
    var peer := new Peer.SessionInit(host, sid, lo, hi);
    return Ok(peer);
  }

  ghost predicate Ready(p: Peer, st: Stage)
    reads p, p.loaded
  {
    p.Valid() && p.lastSeq == 0 && p.View() == st
  }

  /** Open a session on every host in order, giving up at the first that refuses. */
  method OpenSessions(hosts: seq<Listener>, splits: seq<nat>, nBlocks: nat, ids: seq<nat>, faulty: bool)
    returns (r: Result<seq<Peer>, Fault>)
    requires |ids| == |hosts| == |splits|
    requires forall i | 0 <= i < |hosts| ::
               splits[i] <= RangeEnd(splits, i, nBlocks)
    ensures r.Ok? ==> AllAnnounce(hosts) && AllLoad(hosts, splits, nBlocks)
    ensures !faulty && AllAnnounce(hosts) && AllLoad(hosts, splits, nBlocks) ==> r.Ok?
    ensures r.Ok? ==> |r.value| == |hosts| && Separate(r.value)
    ensures r.Ok? ==> forall j | 0 <= j < |hosts| :: fresh(r.value[j]) && fresh(r.value[j].loaded)
    ensures r.Ok? ==> forall j | 0 <= j < |hosts| :: Ready(r.value[j], Opened(hosts, splits, nBlocks)[j])
  {
    hide FreshStage, LoadedFor, Peer.Valid, Peer.View;
    var peers: seq<Peer> := [];
    for i := 0 to |hosts|
      invariant |peers| == i && Separate(peers)
      invariant forall j | 0 <= j < i :: hosts[j].announcing && LoadedFor(hosts[j], splits[j], RangeEnd(splits, j, nBlocks)).Some?
      invariant forall j | 0 <= j < i :: fresh(peers[j]) && fresh(peers[j].loaded)
      invariant forall j | 0 <= j < i :: Ready(peers[j], FreshStage(hosts[j], splits[j], RangeEnd(splits, j, nBlocks)))
    {
      var peer :- OpenSession(hosts[i], ids[i], splits[i], RangeEnd(splits, i, nBlocks), faulty);
      assert Ready(peer, FreshStage(hosts[i], splits[i], RangeEnd(splits, i, nBlocks)));
      peers := peers + [peer];
    }
    return Ok(peers);
  }

  /** Validate the split list, then open a session on every peer. */
  method Connect(hosts: seq<Listener>, splits: seq<nat>, nBlocks: nat, ids: seq<nat>, wire: Wire, layout: Layout, faulty: bool)
    returns (r: Result<Chain, Fault>)
    requires |ids| == |hosts|
    ensures r.Ok? ==> ValidSplits(|hosts|, splits, nBlocks) && AllAnnounce(hosts) && AllLoad(hosts, splits, nBlocks)
    ensures !ValidSplits(|hosts|, splits, nBlocks) ==> r == Err(BadSplits)
    ensures !faulty && ValidSplits(|hosts|, splits, nBlocks) && AllAnnounce(hosts) && AllLoad(hosts, splits, nBlocks) ==> r.Ok?
    ensures r.Ok? ==> r.value.Valid() && fresh(r.value) && r.value.Repr == {r.value} + Objects(r.value.peers)
    ensures r.Ok? ==> forall i | 0 <= i < |r.value.peers| :: fresh(r.value.peers[i]) && fresh(r.value.peers[i].loaded)
    ensures r.Ok? ==> r.value.wire == wire && r.value.layout == layout
    ensures r.Ok? ==> r.value.frontEnd == splits[0] && r.value.faulty == faulty && r.value.peers != []
    ensures r.Ok? ==> r.value.Views() == Opened(hosts, splits, nBlocks)
  {
    if !ValidSplits(|hosts|, splits, nBlocks) {
      return Err(BadSplits);
    }
    forall i | 0 <= i < |hosts|
      ensures splits[i] <= RangeEnd(splits, i, nBlocks) <= nBlocks
    {
      SplitsRise(splits, i, nBlocks);
    }
    var peers :- OpenSessions(hosts, splits, nBlocks, ids, faulty);
    var chain := new Chain(peers, splits[0], wire, layout, faulty);
    assert chain.Views() == Opened(hosts, splits, nBlocks);
    return Ok(chain);
  }
}
