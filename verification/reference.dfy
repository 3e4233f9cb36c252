/**
 What a prefill ought to compute, position by position and without a cache: the rows of each layer
 as a function of the rows the layer receives, and the rows each machine receives as a function of
 the rows the one before it sends.
 */
module Reference {
  import opened Transformer
  import opened Pipeline

  /** The row that layer `lo + l` of a file receives at position `q` when the layers from `lo` on are
      run on `input`. Each layer sees the rows it received at all positions up to its own. */
  function RowAt(m: Model, lo: nat, input: seq<Row>, l: nat, q: nat): Row
    requires q < |input|
    decreases l
  {
    if l == 0 then input[q]
    else
      m.layer(lo + l - 1, seq(q + 1, p requires 0 <= p <= q => Cell(p, RowAt(m, lo, input, l - 1, p))),
              q, RowAt(m, lo, input, l - 1, q))
  }

  function Rows(m: Model, lo: nat, input: seq<Row>, l: nat): (rows: seq<Row>)
    ensures |rows| == |input|
  {
    seq(|input|, q requires 0 <= q < |input| => RowAt(m, lo, input, l, q))
  }

  /** The embedded tokens. */
  function Embedded(m: Model, toks: seq<Token>): (rows: seq<Row>)
    ensures |rows| == |toks|
  {
    seq(|toks|, q requires 0 <= q < |toks| => m.embed(toks[q]))
  }

  /** Rows as they are after one crossing of the wire. */
  function Crossed(wire: Wire, rows: seq<Row>): (r: seq<Row>)
    ensures |r| == |rows|
  {
    seq(|rows|, q requires 0 <= q < |rows| => wire(rows[q]))
  }

  /** The rows the driver holds after the first `i` peers: each of them received the rows before it over
      the wire, ran all its layers, and sent the result over the wire. */
  function Carried(sts: seq<Stage>, wire: Wire, rows: seq<Row>, i: nat): (r: seq<Row>)
    requires i <= |sts|
    ensures |r| == |rows|
  {
    if i == 0 then rows
    else
      var st := sts[i - 1];
      var received := Crossed(wire, Carried(sts, wire, rows, i - 1));
      Crossed(wire, Rows(st.model, st.lo, received, |st.kv|))
  }

  // ---------- one run of layers ----------

  lemma {:induction false} BelowPrefix(cells: seq<Cell>, n: nat)
    requires n <= |cells| && forall q | 0 <= q < |cells| :: cells[q].pos == q
    ensures Below(cells, n) == cells[..n]
  {
    assert cells == cells[..n] + cells[n..];
    BelowHides(cells[..n], cells[n..], n);
    BelowAll(cells[..n], n);
  }

  /** In a batch from an empty cache each row sees itself and the rows before it, and nothing else. */
  lemma SeesItsPast(m: Model, lo: nat, rows: seq<Row>, q: nat)
    requires q < |rows|
    ensures Below(NewCells(0, rows), q + 1) == seq(q + 1, p requires 0 <= p <= q => Cell(p, RowAt(m, lo, rows, 0, p)))
  {
    BelowPrefix(NewCells(0, rows), q + 1);
  }

  lemma AttendIs(m: Model, lo: nat, rows: seq<Row>)
    ensures Attend(m, lo, NewCells(0, rows), 0, rows) == Rows(m, lo, rows, 1)
  {
    hide Below;
    forall q | 0 <= q < |rows|
      ensures Attend(m, lo, NewCells(0, rows), 0, rows)[q] == RowAt(m, lo, rows, 1, q)
    {
      SeesItsPast(m, lo, rows, q);
    }
  }

  /** The layers behind the first one receive what the first one makes. */
  lemma {:induction false} RowsShift(m: Model, lo: nat, input: seq<Row>, l: nat, q: nat)
    requires q < |input|
    ensures RowAt(m, lo + 1, Rows(m, lo, input, 1), l, q) == RowAt(m, lo, input, l + 1, q)
    decreases l
  {
    if l > 0 {
      var up, next, k := lo + 1, Rows(m, lo, input, 1), l - 1;
      forall p | 0 <= p <= q
        ensures RowAt(m, up, next, k, p) == RowAt(m, lo, input, l, p)
      {
        RowsShift(m, lo, input, k, p);
      }
      assert seq(q + 1, p requires 0 <= p <= q => Cell(p, RowAt(m, up, next, k, p)))
             == seq(q + 1, p requires 0 <= p <= q => Cell(p, RowAt(m, lo, input, l, p)));
    }
  }

  lemma RowsNone(m: Model, lo: nat, input: seq<Row>)
    ensures Rows(m, lo, input, 0) == input
  {
  }

  lemma RowsOfNext(m: Model, lo: nat, input: seq<Row>, l: nat)
    ensures Rows(m, lo + 1, Rows(m, lo, input, 1), l) == Rows(m, lo, input, l + 1)
  {
    var was, now := Rows(m, lo + 1, Rows(m, lo, input, 1), l), Rows(m, lo, input, l + 1);
    forall q | 0 <= q < |input|
      ensures was[q] == now[q]
    {
      RowsShift(m, lo, input, l, q);
    }
  }

  /** The cells a layer holds after a prefill: the rows it received, each at its own position. */
  ghost predicate Holds(cells: seq<Cell>, received: seq<Row>) {
    |cells| == |received| && forall q | 0 <= q < |cells| :: cells[q] == Cell(q, received[q])
  }

  /** Layers run from an empty cache compute the reference rows, and each leaves in its cache the rows it
      received. */
  lemma {:induction false} DecodeIs(m: Model, lo: nat, n: nat, rows: seq<Row>)
    ensures var r := Decode(m, lo, EmptyKv(n), 0, rows);
            && r.1 == Rows(m, lo, rows, n)
            && forall l | 0 <= l < n :: Holds(r.0[l], Rows(m, lo, rows, l))
    decreases n
  {
    hide RowAt;
    RowsNone(m, lo, rows);
    if n > 0 {
      assert [] + NewCells(0, rows) == NewCells(0, rows);
      assert EmptyKv(n)[1..] == EmptyKv(n - 1);
      AttendIs(m, lo, rows);
      DecodeIs(m, lo + 1, n - 1, Rows(m, lo, rows, 1));
      RowsOfNext(m, lo, rows, n - 1);
      forall l | 0 < l < n
        ensures Holds(Decode(m, lo, EmptyKv(n), 0, rows).0[l], Rows(m, lo, rows, l))
      {
        RowsOfNext(m, lo, rows, l - 1);
      }
    }
  }

  // ---------- the whole system ----------

  lemma {:induction false} CarriedOn(st: Stage, rest: seq<Stage>, wire: Wire, rows: seq<Row>, i: nat)
    requires i <= |rest|
    ensures Carried([st] + rest, wire, rows, i + 1) == Carried(rest, wire, Carried([st] + rest, wire, rows, 1), i)
  {
    if i > 0 {
      CarriedOn(st, rest, wire, rows, i - 1);
    }
  }

  /** The peer's caches after a first step that brought it `received`. */
  ghost predicate Served(before: Stage, after: Stage, received: seq<Row>) {
    && after.model == before.model && after.lo == before.lo
    && after.indexPos == |received| && |after.kv| == |before.kv|
    && forall l | 0 <= l < |after.kv| :: Holds(after.kv[l], Rows(before.model, before.lo, received, l))
  }

  lemma EmptyIs(kv: Kv)
    requires Covers(kv, 0)
    ensures kv == EmptyKv(|kv|)
  {
  }

  lemma SendIs(wire: Wire, rows: seq<Row>)
    ensures Send(wire, rows) == Crossed(wire, rows)
  {
  }

  lemma HopIs(st: Stage, wire: Wire, rows: seq<Row>)
    requires st.indexPos == 0 && Covers(st.kv, 0)
    ensures var hop := Hop(st, wire, All, rows);
            && hop.1 == Crossed(wire, Rows(st.model, st.lo, Crossed(wire, rows), |st.kv|))
            && Served(st, hop.0, Crossed(wire, rows))
  {
    hide Rows, RowAt, Decode, Covers;
    EmptyIs(st.kv);
    SendIs(wire, rows);
    DecodeIs(st.model, st.lo, |st.kv|, Crossed(wire, rows));
    SendIs(wire, Rows(st.model, st.lo, Crossed(wire, rows), |st.kv|));
  }

  lemma CarriedNone(sts: seq<Stage>, wire: Wire, rows: seq<Row>)
    ensures Carried(sts, wire, rows, 0) == rows
  {
  }

  /** The step behind the first peer is the step of the rest of the chain on what that peer sends. */
  lemma ChainFirst(st: Stage, rest: seq<Stage>, wire: Wire, rows: seq<Row>)
    requires st.indexPos == 0 && Covers(st.kv, 0)
    ensures var step := ChainStep([st] + rest, wire, All, rows);
            var behind := ChainStep(rest, wire, All, Carried([st] + rest, wire, rows, 1));
            step == ([step.0[0]] + behind.0, behind.1) && Served(st, step.0[0], Crossed(wire, rows))
  {
    hide Rows, RowAt, Hop, Covers, Served;
    HopIs(st, wire, rows);
    CarriedNone([st] + rest, wire, rows);
    assert ([st] + rest)[1..] == rest;
  }

  /** A first step through a fresh chain hands on the reference rows, and each peer keeps what it received. */
  lemma {:induction false} ChainIs(sts: seq<Stage>, wire: Wire, rows: seq<Row>)
    requires AllAt(sts, 0)
    ensures var step := ChainStep(sts, wire, All, rows);
            && step.1 == Carried(sts, wire, rows, |sts|)
            && forall i | 0 <= i < |sts| :: Served(sts[i], step.0[i], Crossed(wire, Carried(sts, wire, rows, i)))
  {
    hide Rows, RowAt, Hop, Covers, Served, Crossed, ChainStep, Carried;
    CarriedNone(sts, wire, rows);
    if sts == [] {
      ChainOfNobody(wire, rows);
    } else {
      var st, rest := sts[0], sts[1..];
      assert sts == [st] + rest;
      ChainFirst(st, rest, wire, rows);
      ChainIs(rest, wire, Carried(sts, wire, rows, 1));
      CarriedOn(st, rest, wire, rows, |rest|);
      forall i | 0 < i < |sts|
        ensures Served(sts[i], ChainStep(sts, wire, All, rows).0[i], Crossed(wire, Carried(sts, wire, rows, i)))
      {
        CarriedOn(st, rest, wire, rows, i - 1);
      }
    }
  }

  lemma ChainOfNobody(wire: Wire, rows: seq<Row>)
    ensures ChainStep([], wire, All, rows) == ([], rows)
  {
  }

  /** A prefill computes the reference, whatever the split and whatever the wire: the caches of the driver
      and of every peer hold the rows each layer received, and the next logits are the head of the last
      row that comes back. */
  lemma PrefillIs(sys: System, toks: seq<Token>)
    requires Fresh(sys)
    ensures var s := Prefill(sys, toks);
            var input := Embedded(sys.model, toks);
            var sent := Rows(sys.model, 0, input, sys.frontEnd);
            && |s.front| == sys.frontEnd && |s.peers| == |sys.peers|
            && (forall l | 0 <= l < sys.frontEnd :: Holds(s.front[l], Rows(sys.model, 0, input, l)))
            && (forall i | 0 <= i < |sys.peers| ::
                  Served(sys.peers[i], s.peers[i], Crossed(sys.wire, Carried(sys.peers, sys.wire, sent, i))))
            && s.tail == Carried(sys.peers, sys.wire, sent, |sys.peers|)
            && (toks != [] ==>
                  NextLogits(sys, toks) == sys.model.head(Carried(sys.peers, sys.wire, sent, |sys.peers|)[|toks| - 1]))
  {
    hide Rows, RowAt, Decode, ChainStep, Carried;
    assert Embeds(sys.model, toks) == Embedded(sys.model, toks);
    DecodeIs(sys.model, 0, sys.frontEnd, Embedded(sys.model, toks));
    ChainIs(sys.peers, sys.wire, Rows(sys.model, 0, Embedded(sys.model, toks), sys.frontEnd));
  }

  /** One machine holding the whole model: layer `l` keeps a cell for each row it received, and the rows
      behind the last layer go to the head. */
  lemma MonolithIs(m: Model, toks: seq<Token>)
    ensures var s := Prefill(Monolith(m), toks);
            var input := Embedded(m, toks);
            && |s.front| == m.nLayers
            && (forall l, q | 0 <= l < m.nLayers && 0 <= q < |toks| ::
                  |s.front[l]| == |toks| && s.front[l][q] == Cell(q, RowAt(m, 0, input, l, q)))
            && (forall q | 0 <= q < |toks| :: s.tail[q] == RowAt(m, 0, input, m.nLayers, q))
            && (toks != [] ==> NextLogits(Monolith(m), toks) == m.head(RowAt(m, 0, input, m.nLayers, |toks| - 1)))
  {
    hide RowAt, Prefill, NextLogits;
    PrefillIs(Monolith(m), toks);
  }

  /** A peer that holds no layers hands every row back as two crossings of the wire leave it. */
  lemma NoLayersIsTwoCrossings(st: Stage, wire: Wire, keep: Keep, rows: seq<Row>)
    requires st.kv == []
    ensures Hop(st, wire, keep, rows).1 == seq(|rows|, q requires 0 <= q < |rows| => wire(wire(rows[q])))
  {
  }
}
