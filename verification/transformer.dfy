/**
 A causal layer stack with a truncatable KV cache, the way the backend contract
 describes it: layers are abstract functions of the cells they may attend to,
 the absolute position and the incoming hidden row.
 */
module Transformer {

  type Token = nat

  type Row = seq<real>

  type Logits = s: seq<real> | |s| > 0 witness [0.0]

  /** One KV slot: the absolute position it was written for and the row it was computed from. */
  datatype Cell = Cell(pos: nat, row: Row)

  /** The cells of a run of consecutive layers, one sequence per layer, in write order. */
  type Kv = seq<seq<Cell>>

  /** The weights of one model file. `layer(i, visible, pos, x)` is what layer `i` makes of row `x`
      at position `pos` when it can see exactly the cells `visible`. */
  datatype Model = Model(
    nLayers: nat,
    embed: Token -> Row,
    layer: (nat, seq<Cell>, nat, Row) -> Row,
    head: Row -> Logits)

  /** Layer `i` of the file applied to one row. */
  function RunLayer(m: Model, i: nat, visible: seq<Cell>, pos: nat, x: Row): Row
  {
    m.layer(i, visible, pos, x)
  }

  function Embeds(m: Model, ids: seq<Token>): (rows: seq<Row>)
    ensures |rows| == |ids|
  {
    seq(|ids|, i requires 0 <= i < |ids| => m.embed(ids[i]))
  }

  // ---------- KV cells ----------

  /** The cells written for positions before `keep`: both the causal mask and the rollback. */
  function Below(cells: seq<Cell>, keep: nat): seq<Cell>
  {
    if cells == [] then []
    else Below(cells[..|cells| - 1], keep) +
         if cells[|cells| - 1].pos < keep then [cells[|cells| - 1]] else []
  }

  function Rollback(kv: Kv, keep: nat): (r: Kv)
    ensures |r| == |kv|
  {
    seq(|kv|, l requires 0 <= l < |kv| => Below(kv[l], keep))
  }

  lemma RollbackSlice(kv: Kv, lo: nat, hi: nat, keep: nat)
    requires lo <= hi <= |kv|
    ensures Rollback(kv, keep)[lo..hi] == Rollback(kv[lo..hi], keep)
  {
  }

  function EmptyKv(n: nat): (kv: Kv)
    ensures |kv| == n
  {
    seq(n, _ => [])
  }

  /** Layer `l` holds exactly one cell for each position in `[0, n)`, in order. */
  ghost predicate Covers(kv: Kv, n: nat)
  {
    forall l | 0 <= l < |kv| :: |kv[l]| == n && forall q | 0 <= q < n :: kv[l][q].pos == q
  }

  function NewCells(pos: nat, rows: seq<Row>): (cells: seq<Cell>)
    ensures |cells| == |rows|
    ensures forall c | c in cells :: pos <= c.pos < pos + |rows|
  {
    seq(|rows|, r requires 0 <= r < |rows| => Cell(pos + r, rows[r]))
  }

  lemma {:induction false} BelowSplit(a: seq<Cell>, b: seq<Cell>, keep: nat)
    ensures Below(a + b, keep) == Below(a, keep) + Below(b, keep)
  {
    if b == [] {
      assert a + b == a;
    } else {
      var ab := a + b;
      assert ab[..|ab| - 1] == a + b[..|b| - 1];
      BelowSplit(a, b[..|b| - 1], keep);
    }
  }

  lemma {:induction false} BelowAll(cells: seq<Cell>, keep: nat)
    requires forall c | c in cells :: c.pos < keep
    ensures Below(cells, keep) == cells
  {
    if cells != [] {
      var init, last := cells[..|cells| - 1], cells[|cells| - 1];
      assert cells == init + [last] && last in cells;
      assert forall c | c in init :: c in cells;
      BelowAll(init, keep);
    }
  }

  lemma {:induction false} BelowNone(cells: seq<Cell>, keep: nat)
    requires forall c | c in cells :: c.pos >= keep
    ensures Below(cells, keep) == []
  {
    if cells != [] {
      var init, last := cells[..|cells| - 1], cells[|cells| - 1];
      assert cells == init + [last] && last in cells;
      assert forall c | c in init :: c in cells;
      BelowNone(init, keep);
    }
  }

  /** Cells at or after `keep` are invisible to a reader that looks below `keep`. */
  lemma BelowHides(a: seq<Cell>, b: seq<Cell>, keep: nat)
    requires forall c | c in b :: c.pos >= keep
    ensures Below(a + b, keep) == Below(a, keep)
  {
    BelowSplit(a, b, keep);
    BelowNone(b, keep);
  }

  // ---------- running layers ----------

  /** One layer over a batch: every row of the batch is written first, then each row attends
      to whatever lies at or before its own position. */
  function Attend(m: Model, i: nat, cells: seq<Cell>, pos: nat, rows: seq<Row>): (out: seq<Row>)
    ensures |out| == |rows|
  {
    seq(|rows|, r requires 0 <= r < |rows| => RunLayer(m, i, Below(cells, pos + r + 1), pos + r, rows[r]))
  }

  /** Layers `lo, lo + 1, ...` over a batch starting at absolute position `pos`; `kv` is the
      cache of exactly those layers. Layer-major: a layer finishes the batch before the next starts. */
  function Decode(m: Model, lo: nat, kv: Kv, pos: nat, rows: seq<Row>): (r: (Kv, seq<Row>))
    ensures |r.0| == |kv| && |r.1| == |rows|
    decreases |kv|
  {
    if kv == [] then (kv, rows)
    else
      var cells := kv[0] + NewCells(pos, rows);
      var rest := Decode(m, lo + 1, kv[1..], pos, Attend(m, lo, cells, pos, rows));
      ([cells] + rest.0, rest.1)
  }

  lemma NewCellsSplit(pos: nat, a: seq<Row>, b: seq<Row>)
    ensures NewCells(pos, a + b) == NewCells(pos, a) + NewCells(pos + |a|, b)
  {
  }

  /** Rows of a batch see nothing of what comes after them. */
  lemma AttendFirst(m: Model, i: nat, cells: seq<Cell>, pos: nat, a: seq<Row>, b: seq<Row>, later: seq<Cell>)
    requires forall c | c in later :: c.pos >= pos + |a|
    ensures Attend(m, i, cells + later, pos, a + b)[..|a|] == Attend(m, i, cells, pos, a)
  {
    forall r | 0 <= r < |a|
      ensures Attend(m, i, cells + later, pos, a + b)[r] == Attend(m, i, cells, pos, a)[r]
    {
      BelowHides(cells, later, pos + r + 1);
      assert (a + b)[r] == a[r];
    }
  }

  lemma AttendSecond(m: Model, i: nat, cells: seq<Cell>, pos: nat, a: seq<Row>, b: seq<Row>)
    ensures Attend(m, i, cells, pos, a + b)[|a|..] == Attend(m, i, cells, pos + |a|, b)
  {
  }

  /** The two halves of a batch attend as if the first had run alone. */
  lemma AttendBatch(m: Model, i: nat, cells: seq<Cell>, pos: nat, a: seq<Row>, b: seq<Row>)
    ensures var ca := cells + NewCells(pos, a);
            var cab := ca + NewCells(pos + |a|, b);
            && cells + NewCells(pos, a + b) == cab
            && Attend(m, i, cab, pos, a + b) == Attend(m, i, ca, pos, a) + Attend(m, i, cab, pos + |a|, b)
  {
    NewCellsSplit(pos, a, b);
    var later := NewCells(pos + |a|, b);
    var ca := cells + NewCells(pos, a);
    AttendFirst(m, i, ca, pos, a, b, later);
    AttendSecond(m, i, ca + later, pos, a, b);
  }

  /** Causality: a batch leaves the same cache and the same rows as its two halves run in turn,
      from any cache whatever. */
  lemma {:induction false} DecodeBatch(m: Model, lo: nat, kv: Kv, pos: nat, a: seq<Row>, b: seq<Row>)
    ensures var first := Decode(m, lo, kv, pos, a);
            var second := Decode(m, lo, first.0, pos + |a|, b);
            var whole := Decode(m, lo, kv, pos, a + b);
            whole.0 == second.0 && whole.1 == first.1 + second.1
    decreases |kv|
  {
    if kv != [] {
      AttendBatch(m, lo, kv[0], pos, a, b);
      var ca := kv[0] + NewCells(pos, a);
      var cab := ca + NewCells(pos + |a|, b);
      var oa := Attend(m, lo, ca, pos, a);
      var ob := Attend(m, lo, cab, pos + |a|, b);
      DecodeBatch(m, lo + 1, kv[1..], pos, oa, ob);
      var restA := Decode(m, lo + 1, kv[1..], pos, oa);
      assert ([ca] + restA.0)[1..] == restA.0;
    }
  }

  /** The split contract of a pipelined backend: running a run of layers is running its front
      part and then its back part. */
  lemma {:induction false} DecodeLayers(m: Model, lo: nat, front: Kv, back: Kv, pos: nat, rows: seq<Row>)
    ensures var first := Decode(m, lo, front, pos, rows);
            var second := Decode(m, lo + |front|, back, pos, first.1);
            var whole := Decode(m, lo, front + back, pos, rows);
            whole.0 == first.0 + second.0 && whole.1 == second.1
    decreases |front|
  {
    if front == [] {
      assert front + back == back;
    } else {
      var cells := front[0] + NewCells(pos, rows);
      var out := Attend(m, lo, cells, pos, rows);
      assert (front + back)[1..] == front[1..] + back;
      DecodeLayers(m, lo + 1, front[1..], back, pos, out);
      var rest := Decode(m, lo + 1, front[1..], pos, out);
      assert Decode(m, lo, front, pos, rows).0 == [cells] + rest.0;
    }
  }

  /** Two files whose layers agree from `lo1` and from `lo2` on compute the same. */
  ghost predicate SameLayers(m1: Model, lo1: nat, m2: Model, lo2: nat, n: nat)
  {
    forall i, cells, p, x | lo1 <= i < lo1 + n ::
      RunLayer(m1, i, cells, p, x) == RunLayer(m2, lo2 + i - lo1, cells, p, x)
  }

  lemma {:induction false} DecodeAgrees(m1: Model, lo1: nat, m2: Model, lo2: nat, kv: Kv, pos: nat, rows: seq<Row>)
    requires SameLayers(m1, lo1, m2, lo2, |kv|)
    ensures Decode(m1, lo1, kv, pos, rows) == Decode(m2, lo2, kv, pos, rows)
    decreases |kv|
  {
    if kv != [] {
      var cells := kv[0] + NewCells(pos, rows);
      assert Attend(m1, lo1, cells, pos, rows) == Attend(m2, lo2, cells, pos, rows);
      DecodeAgrees(m1, lo1 + 1, m2, lo2 + 1, kv[1..], pos, Attend(m1, lo1, cells, pos, rows));
    }
  }

  /** A forward at the end of the cache extends every layer by one cell per row. */
  lemma {:induction false} DecodeCovers(m: Model, lo: nat, kv: Kv, pos: nat, rows: seq<Row>)
    requires Covers(kv, pos)
    ensures Covers(Decode(m, lo, kv, pos, rows).0, pos + |rows|)
    decreases |kv|
  {
    if kv != [] {
      var cells := kv[0] + NewCells(pos, rows);
      DecodeCovers(m, lo + 1, kv[1..], pos, Attend(m, lo, cells, pos, rows));
    }
  }

  /** Rolling back to where a forward started undoes it. */
  lemma {:induction false} RollbackUndoes(m: Model, lo: nat, kv: Kv, pos: nat, rows: seq<Row>)
    requires Covers(kv, pos)
    ensures Rollback(Decode(m, lo, kv, pos, rows).0, pos) == kv
    decreases |kv|
  {
    if kv != [] {
      var cells := kv[0] + NewCells(pos, rows);
      var rest := Decode(m, lo + 1, kv[1..], pos, Attend(m, lo, cells, pos, rows)).0;
      RollbackUndoes(m, lo + 1, kv[1..], pos, Attend(m, lo, cells, pos, rows));
      BelowHides(kv[0], NewCells(pos, rows), pos);
      BelowAll(kv[0], pos);
      RollbackCons(cells, rest, pos);
    }
  }

  lemma RollbackCons(cells: seq<Cell>, rest: Kv, keep: nat)
    ensures Rollback([cells] + rest, keep) == [Below(cells, keep)] + Rollback(rest, keep)
  {
  }

  /** Rolling back to the current length changes nothing. */
  lemma RollbackNothing(kv: Kv, n: nat)
    requires Covers(kv, n)
    ensures Rollback(kv, n) == kv
  {
    forall l | 0 <= l < |kv| ensures Below(kv[l], n) == kv[l] {
      BelowAll(kv[l], n);
    }
  }

  // ---------- picking a token ----------

  /** First index of the largest logit. */
  function Argmax(l: Logits): (best: nat)
    ensures best < |l|
    ensures forall i | 0 <= i < |l| :: l[i] <= l[best]
    ensures forall i | 0 <= i < best :: l[i] < l[best]
  {
    if |l| == 1 then 0
    else
      var b := Argmax(l[..|l| - 1]);
      if l[|l| - 1] > l[b] then |l| - 1 else b
  }
}
