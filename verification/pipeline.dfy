/**
 A model split over a chain, on values: the driver holds the front layers, every peer a run of
 consecutive layers with its own cache and position counter, and rows cross the wire twice per peer.
 These are the functions the stateful classes are proved against.
 */
module Pipeline {
  import opened Transformer

  /** One peer's share: the cache of its layers `lo, lo + 1, ...` in its own file's numbering. */
  datatype Stage = Stage(model: Model, lo: nat, kv: Kv, indexPos: nat)

  /** What a row looks like after one encode and decode. Both wire formats treat rows one by one. */
  type Wire = Row -> Row

  function Send(wire: Wire, rows: seq<Row>): (r: seq<Row>)
    ensures |r| == |rows|
  {
    seq(|rows|, i requires 0 <= i < |rows| => wire(rows[i]))
  }

  datatype Keep = All | First(n: nat)

  function RollTo(st: Stage, keep: Keep): Stage
  {
    match keep
    case All => st
    case First(n) => st.(kv := Rollback(st.kv, n), indexPos := n)
  }

  function Serve(st: Stage, rows: seq<Row>): (r: (Stage, seq<Row>))
    ensures |r.1| == |rows|
  {
    var (kv, out) := Decode(st.model, st.lo, st.kv, st.indexPos, rows);
    (st.(kv := kv, indexPos := st.indexPos + |rows|), out)
  }

  /** One request and its reply: roll back, forward what arrived, send the result back. */
  function Hop(st: Stage, wire: Wire, keep: Keep, rows: seq<Row>): (r: (Stage, seq<Row>))
    ensures |r.1| == |rows|
  {
    var (st', out) := Serve(RollTo(st, keep), Send(wire, rows));
    (st', Send(wire, out))
  }

  function ChainStep(sts: seq<Stage>, wire: Wire, keep: Keep, rows: seq<Row>): (r: (seq<Stage>, seq<Row>))
    ensures |r.0| == |sts| && |r.1| == |rows|
  {
    if sts == [] then ([], rows)
    else
      var hop := Hop(sts[0], wire, keep, rows);
      var rest := ChainStep(sts[1..], wire, keep, hop.1);
      ([hop.0] + rest.0, rest.1)
  }

  /** Every peer sits at position `n` with a cache of exactly `n` cells per layer. */
  ghost predicate AllAt(sts: seq<Stage>, n: nat)
  {
    forall i | 0 <= i < |sts| :: sts[i].indexPos == n && Covers(sts[i].kv, n)
  }

  lemma HopBatch(st: Stage, wire: Wire, a: seq<Row>, b: seq<Row>)
    ensures var first := Hop(st, wire, All, a);
            var second := Hop(first.0, wire, All, b);
            var whole := Hop(st, wire, All, a + b);
            whole.0 == second.0 && whole.1 == first.1 + second.1
  {
    assert Send(wire, a + b) == Send(wire, a) + Send(wire, b);
    var first := Serve(st, Send(wire, a));
    var second := Serve(first.0, Send(wire, b));
    DecodeBatch(st.model, st.lo, st.kv, st.indexPos, Send(wire, a), Send(wire, b));
    assert Send(wire, first.1 + second.1) == Send(wire, first.1) + Send(wire, second.1);
  }

  /** A batch through the whole chain is its halves through the chain in turn, whatever the wire
      does to each row and whatever state the peers are in. */
  lemma {:induction false} ChainBatch(sts: seq<Stage>, wire: Wire, a: seq<Row>, b: seq<Row>)
    ensures var first := ChainStep(sts, wire, All, a);
            var second := ChainStep(first.0, wire, All, b);
            var whole := ChainStep(sts, wire, All, a + b);
            whole.0 == second.0 && whole.1 == first.1 + second.1
  {
    if sts != [] {
      HopBatch(sts[0], wire, a, b);
      var ha := Hop(sts[0], wire, All, a);
      var hb := Hop(ha.0, wire, All, b);
      ChainBatch(sts[1..], wire, ha.1, hb.1);
      var rest := ChainStep(sts[1..], wire, All, ha.1);
      assert ([ha.0] + rest.0)[1..] == rest.0;
    }
  }

  lemma {:induction false} ChainCovers(sts: seq<Stage>, wire: Wire, n: nat, rows: seq<Row>)
    requires AllAt(sts, n)
    ensures AllAt(ChainStep(sts, wire, All, rows).0, n + |rows|)
  {
    if sts != [] {
      var hop := Hop(sts[0], wire, All, rows);
      DecodeCovers(sts[0].model, sts[0].lo, sts[0].kv, n, Send(wire, rows));
      ChainCovers(sts[1..], wire, n, hop.1);
    }
  }

  /** A step that first rolls every peer back to where the previous step began leaves no trace of
      that previous step. */
  lemma {:induction false} ChainRollback(sts: seq<Stage>, wire: Wire, n: nat, gone: seq<Row>, rows: seq<Row>)
    requires AllAt(sts, n)
    ensures ChainStep(ChainStep(sts, wire, All, gone).0, wire, First(n), rows) == ChainStep(sts, wire, All, rows)
  {
    if sts != [] {
      var st := sts[0];
      var hop := Hop(st, wire, All, gone);
      RollbackUndoes(st.model, st.lo, st.kv, n, Send(wire, gone));
      assert RollTo(hop.0, First(n)) == st;
      var rest := ChainStep(sts[1..], wire, All, hop.1).0;
      ChainRollback(sts[1..], wire, n, hop.1, Hop(st, wire, All, rows).1);
      assert ([hop.0] + rest)[1..] == rest;
    }
  }

  /** Rolled back to where the previous step began, every peer is as it was then. */
  lemma {:induction false} ChainRollTo(sts: seq<Stage>, wire: Wire, n: nat, gone: seq<Row>, i: nat)
    requires AllAt(sts, n) && i < |sts|
    ensures RollTo(ChainStep(sts, wire, All, gone).0[i], First(n)) == sts[i]
  {
    RollbackUndoes(sts[0].model, sts[0].lo, sts[0].kv, n, Send(wire, gone));
    if i > 0 {
      ChainRollTo(sts[1..], wire, n, Hop(sts[0], wire, All, gone).1, i - 1);
    }
  }

  // ---------- the whole system, from scratch ----------

  /** A driver with the front layers `[0, frontEnd)` of `model` and a chain of freshly opened peers. */
  datatype System = System(model: Model, frontEnd: nat, peers: seq<Stage>, wire: Wire)

  ghost predicate Fresh(sys: System)
  {
    AllAt(sys.peers, 0)
  }

  /** Everything a step leaves behind: the driver's front cache, the peers, and the tail rows of all
      positions so far. */
  datatype Snapshot = Snapshot(front: Kv, peers: seq<Stage>, tail: seq<Row>)

  /** One step of the pipeline on tokens placed at `pos`. */
  function Step(sys: System, s: Snapshot, pos: nat, ids: seq<Token>): (r: Snapshot)
    ensures |r.front| == |s.front| && |r.peers| == |s.peers| && |r.tail| == |ids|
  {
    var front := Decode(sys.model, 0, s.front, pos, Embeds(sys.model, ids));
    var chain := ChainStep(s.peers, sys.wire, All, front.1);
    Snapshot(front.0, chain.0, chain.1)
  }

  function Start(sys: System): Snapshot
  {
    Snapshot(EmptyKv(sys.frontEnd), sys.peers, [])
  }

  /** The state a fresh prefill of `toks` leaves. */
  function Prefill(sys: System, toks: seq<Token>): (r: Snapshot)
    ensures |r.tail| == |toks|
  {
    Step(sys, Start(sys), 0, toks)
  }

  ghost predicate At(s: Snapshot, n: nat)
  {
    Covers(s.front, n) && AllAt(s.peers, n)
  }

  lemma StepBatch(sys: System, s: Snapshot, pos: nat, a: seq<Token>, b: seq<Token>)
    ensures var first := Step(sys, s, pos, a);
            var second := Step(sys, first, pos + |a|, b);
            Step(sys, s, pos, a + b) == second.(tail := first.tail + second.tail)
  {
    var m := sys.model;
    assert Embeds(m, a + b) == Embeds(m, a) + Embeds(m, b);
    DecodeBatch(m, 0, s.front, pos, Embeds(m, a), Embeds(m, b));
    var fa := Decode(m, 0, s.front, pos, Embeds(m, a));
    var fb := Decode(m, 0, fa.0, pos + |a|, Embeds(m, b));
    ChainBatch(s.peers, sys.wire, fa.1, fb.1);
  }

  lemma StepCovers(sys: System, s: Snapshot, pos: nat, ids: seq<Token>)
    requires At(s, pos)
    ensures At(Step(sys, s, pos, ids), pos + |ids|)
  {
    DecodeCovers(sys.model, 0, s.front, pos, Embeds(sys.model, ids));
    ChainCovers(s.peers, sys.wire, pos, Decode(sys.model, 0, s.front, pos, Embeds(sys.model, ids)).1);
  }

  lemma PrefillCovers(sys: System, toks: seq<Token>)
    requires Fresh(sys)
    ensures At(Prefill(sys, toks), |toks|)
  {
    StepCovers(sys, Start(sys), 0, toks);
  }

  lemma {:induction false} DecodeNothing(m: Model, lo: nat, kv: Kv, pos: nat)
    ensures Decode(m, lo, kv, pos, []) == (kv, [])
    decreases |kv|
  {
    if kv != [] {
      assert kv[0] + NewCells(pos, []) == kv[0];
      assert Attend(m, lo, kv[0], pos, []) == [];
      DecodeNothing(m, lo + 1, kv[1..], pos);
      assert [kv[0]] + kv[1..] == kv;
    }
  }

  lemma {:induction false} ChainNothing(sts: seq<Stage>, wire: Wire)
    ensures ChainStep(sts, wire, All, []) == (sts, [])
  {
    if sts != [] {
      assert Send(wire, []) == [];
      DecodeNothing(sts[0].model, sts[0].lo, sts[0].kv, sts[0].indexPos);
      ChainNothing(sts[1..], wire);
      assert [sts[0]] + sts[1..] == sts;
    }
  }

  lemma PrefillNothing(sys: System)
    ensures Prefill(sys, []) == Start(sys)
  {
    assert Embeds(sys.model, []) == [];
    DecodeNothing(sys.model, 0, EmptyKv(sys.frontEnd), 0);
    ChainNothing(sys.peers, sys.wire);
  }

  /** Feeding further tokens to a system that has seen `a` is prefilling `a + b`: this is what makes
      batched verification and token-by-token decoding interchangeable. */
  lemma PrefillExtends(sys: System, a: seq<Token>, b: seq<Token>)
    ensures var before := Prefill(sys, a);
            var step := Step(sys, before, |a|, b);
            Prefill(sys, a + b) == step.(tail := before.tail + step.tail)
  {
    StepBatch(sys, Start(sys), 0, a, b);
  }

  /** Rejected tokens leave no trace: after `a + b`, rolling the front and every peer back to `|a|`
      and stepping with `c` is prefilling `a + c`. */
  lemma PrefillRollback(sys: System, a: seq<Token>, b: seq<Token>, c: seq<Token>)
    requires Fresh(sys)
    ensures var after := Prefill(sys, a + b);
            var before := Prefill(sys, a);
            var front := Decode(sys.model, 0, before.front, |a|, Embeds(sys.model, c));
            && Rollback(after.front, |a|) == before.front
            && ChainStep(after.peers, sys.wire, First(|a|), front.1)
               == (Prefill(sys, a + c).peers, Prefill(sys, a + c).tail[|a|..])
            && front.0 == Prefill(sys, a + c).front
  {
    var before := Prefill(sys, a);
    PrefillCovers(sys, a);
    PrefillExtends(sys, a, b);
    PrefillExtends(sys, a, c);
    RollbackUndoes(sys.model, 0, before.front, |a|, Embeds(sys.model, b));
    var gone := Decode(sys.model, 0, before.front, |a|, Embeds(sys.model, b));
    var front := Decode(sys.model, 0, before.front, |a|, Embeds(sys.model, c));
    ChainRollback(before.peers, sys.wire, |a|, gone.1, front.1);
  }

  lemma PeerRollTo(sys: System, a: seq<Token>, b: seq<Token>, i: nat)
    requires Fresh(sys) && i < |sys.peers|
    ensures RollTo(Prefill(sys, a + b).peers[i], First(|a|)) == Prefill(sys, a).peers[i]
  {
    var before := Prefill(sys, a);
    PrefillCovers(sys, a);
    PrefillExtends(sys, a, b);
    ChainRollTo(before.peers, sys.wire, |a|, Decode(sys.model, 0, before.front, |a|, Embeds(sys.model, b)).1, i);
  }

  // ---------- tokens ----------

  /** The logits the head makes of the last position, having seen `toks`. */
  function NextLogits(sys: System, toks: seq<Token>): Logits
    requires toks != []
  {
    sys.model.head(Prefill(sys, toks).tail[|toks| - 1])
  }

  function Next(sys: System, toks: seq<Token>): Token
    requires toks != []
  {
    Argmax(NextLogits(sys, toks))
  }

  /** Logits at any earlier position of a longer prefill are the logits of the shorter one. */
  lemma TailIsNextLogits(sys: System, a: seq<Token>, b: seq<Token>)
    requires a != []
    ensures sys.model.head(Prefill(sys, a + b).tail[|a| - 1]) == NextLogits(sys, a)
  {
    PrefillExtends(sys, a, b);
  }

  // ---------- the split computes what one machine computes ----------

  /** A single machine holding every layer. */
  function Monolith(m: Model): System
  {
    System(m, m.nLayers, [], x => x)
  }

  /** The peers tile `[from, upto)` of `m`, each from a file whose layers agree with `m`'s there.
      A stitched file numbers its layers from 0, a full file keeps `m`'s own numbers. */
  ghost predicate Tiles(peers: seq<Stage>, m: Model, from: nat, upto: nat)
  {
    if peers == [] then from == upto
    else
      && SameLayers(peers[0].model, peers[0].lo, m, from, |peers[0].kv|)
      && from + |peers[0].kv| <= upto
      && Tiles(peers[1..], m, from + |peers[0].kv|, upto)
  }

  function JoinKv(front: Kv, peers: seq<Stage>): Kv
    decreases |peers|
  {
    if peers == [] then front else JoinKv(front + peers[0].kv, peers[1..])
  }

  ghost predicate Lossless(wire: Wire)
  {
    forall x :: wire(x) == x
  }

  /** Running a chain of tiles is running the layers they tile. */
  lemma {:induction false} ChainIsLayers(sts: seq<Stage>, wire: Wire, m: Model, front: Kv, from: nat, upto: nat,
                                         pos: nat, rows: seq<Row>)
    requires Tiles(sts, m, from, upto) && Lossless(wire) && from == |front|
    requires forall i | 0 <= i < |sts| :: sts[i].indexPos == pos
    ensures var first := Decode(m, 0, front, pos, rows);
            var chain := ChainStep(sts, wire, All, first.1);
            var whole := Decode(m, 0, JoinKv(front, sts), pos, rows);
            whole.0 == JoinKv(first.0, chain.0) && whole.1 == chain.1
    decreases |sts|
  {
    if sts != [] {
      var st := sts[0];
      var first := Decode(m, 0, front, pos, rows);
      assert Send(wire, first.1) == first.1;
      var hop := Hop(st, wire, All, first.1);
      var second := Decode(st.model, st.lo, st.kv, pos, first.1);
      assert Send(wire, second.1) == second.1;
      DecodeAgrees(st.model, st.lo, m, from, st.kv, pos, first.1);
      DecodeLayers(m, 0, front, st.kv, pos, rows);
      ChainIsLayers(sts[1..], wire, m, front + st.kv, from + |st.kv|, upto, pos, rows);
      var rest := ChainStep(sts[1..], wire, All, hop.1);
      assert ([hop.0] + rest.0)[1..] == rest.0;
    }
  }

  /** A chain whose stages tile the model computes, over a lossless wire, the tail rows of the
      unsplit model and leaves each layer the same cache. */
  lemma SplitIsMonolith(sys: System, toks: seq<Token>)
    requires Fresh(sys) && Lossless(sys.wire)
    requires Tiles(sys.peers, sys.model, sys.frontEnd, sys.model.nLayers)
    ensures var split := Prefill(sys, toks);
            var whole := Prefill(Monolith(sys.model), toks);
            whole.tail == split.tail && whole.front == JoinKv(split.front, split.peers)
  {
    var m := sys.model;
    EmptyJoin(sys.peers, m, sys.frontEnd, m.nLayers);
    ChainIsLayers(sys.peers, sys.wire, m, EmptyKv(sys.frontEnd), sys.frontEnd, m.nLayers, 0, Embeds(m, toks));
  }

  lemma {:induction false} EmptyJoin(peers: seq<Stage>, m: Model, from: nat, upto: nat)
    requires Tiles(peers, m, from, upto) && forall i | 0 <= i < |peers| :: peers[i].kv == EmptyKv(|peers[i].kv|)
    ensures JoinKv(EmptyKv(from), peers) == EmptyKv(upto)
    decreases |peers|
  {
    if peers != [] {
      assert EmptyKv(from) + peers[0].kv == EmptyKv(from + |peers[0].kv|);
      EmptyJoin(peers[1..], m, from + |peers[0].kv|, upto);
    }
  }
}
