/** The backend contract: one loaded file and its KV cache, updated in place. */
module Backends {
  import opened Results
  import opened Transformer

  datatype Fault =
    | BatchSize | KvFull | BadRange
    | SessionMismatch | OutOfOrder
    | Refused | LinkLost | FrameRefused
    | BadSplits | EmptyPrompt | BadK | NotGreedy

  /** Every batch is bounded by the context length, which is a positive 32-bit signed integer. */
  predicate BatchOk(n: nat, nCtx: nat) {
    0 < n <= nCtx
  }

  /** The allocator has a slot in every layer for `n` more positions. */
  predicate Room(kv: Kv, n: nat, nCtx: nat) {
    forall l | 0 <= l < |kv| :: |kv[l]| + n <= nCtx
  }

  const I32_MAX: nat := 0x7fff_ffff

  /** A context length: a 32-bit signed integer that is not negative. */
  type CtxLen = n: nat | n <= I32_MAX

  class Backend {
    const model: Model
    const nCtx: CtxLen
    var kv: Kv

    ghost predicate Valid()
      reads this
    {
      |kv| == model.nLayers
    }

    constructor (model: Model, nCtx: CtxLen)
      ensures Valid() && this.model == model && this.nCtx == nCtx && kv == EmptyKv(model.nLayers)
    {
      this.model := model;
      this.nCtx := nCtx;
      kv := EmptyKv(model.nLayers);
    }

    method ResetCache()
      requires Valid()
      modifies this
      ensures Valid() && kv == EmptyKv(model.nLayers)
    {
      kv := EmptyKv(model.nLayers);
    }

    method TruncateKvTo(keep: nat)
      requires Valid()
      modifies this
      ensures Valid() && kv == Rollback(old(kv), keep)
    {
      kv := Rollback(kv, keep);
    }

    method Embed(ids: seq<Token>) returns (r: Result<seq<Row>, Fault>)
      ensures r == if 0 < |ids| <= nCtx then Ok(Embeds(model, ids)) else Err(BatchSize)
    {
      if !BatchOk(|ids|, nCtx) {
        return Err(BatchSize);
      }
      return Ok(Embeds(model, ids));
    }

    /** Layers `[lo, hi)` of this file over `rows`, the first of them at absolute position `pos`. */
    method ForwardRange(rows: seq<Row>, pos: nat, lo: nat, hi: nat) returns (r: Result<seq<Row>, Fault>)
      requires Valid()
      modifies this
      ensures Valid()
      ensures r.Ok? <==> BatchOk(|rows|, nCtx) && lo <= hi <= model.nLayers && Room(old(kv[lo..hi]), |rows|, nCtx)
      ensures r.Ok? <==>
        && 0 < |rows| <= nCtx && lo <= hi <= model.nLayers
        && forall l | lo <= l < hi :: |old(kv)[l]| + |rows| <= nCtx
      ensures r.Ok? ==> (kv[lo..hi], r.value) == Decode(model, lo, old(kv[lo..hi]), pos, rows)
      ensures r.Ok? ==> kv[..lo] == old(kv[..lo]) && kv[hi..] == old(kv[hi..])
      ensures r.Err? ==> kv == old(kv)
    {
      if !BatchOk(|rows|, nCtx) {
        return Err(BatchSize);
      }
      if !(lo <= hi <= model.nLayers) {
        return Err(BadRange);
      }
      if !Room(kv[lo..hi], |rows|, nCtx) {
        return Err(KvFull);
      }
      var (seg, out) := Decode(model, lo, kv[lo..hi], pos, rows);
      kv := kv[..lo] + seg + kv[hi..];
      return Ok(out);
    }

    /** Logits of the last row only: the earlier rows are cut off before the head runs. */
    method Head(rows: seq<Row>) returns (r: Result<Logits, Fault>)
      ensures r.Ok? <==> 0 < |rows| <= nCtx
      ensures r.Ok? ==> r.value == model.head(rows[|rows| - 1])
    {
      if !BatchOk(|rows|, nCtx) {
        return Err(BatchSize);
      }
      var lastRow := rows[|rows| - 1];
      return Ok(model.head(lastRow));
    }

    /** Logits of every row. */
    method HeadAll(rows: seq<Row>) returns (r: Result<seq<Logits>, Fault>)
      ensures r.Ok? <==> 0 < |rows| <= nCtx
      ensures r.Ok? ==> |r.value| == |rows| && forall i | 0 <= i < |rows| :: r.value[i] == model.head(rows[i])
    {
      if !BatchOk(|rows|, nCtx) {
        return Err(BatchSize);
      }
      var all := [];
      for i := 0 to |rows|
        invariant |all| == i && forall j | 0 <= j < i :: all[j] == model.head(rows[j])
      {
        all := all + [model.head(rows[i])];
      }
      return Ok(all);
    }

    /** The unsplit forward: every layer, then the head on the last position. */
    method Forward(ids: seq<Token>, pos: nat) returns (r: Result<Logits, Fault>)
      requires Valid()
      modifies this
      ensures Valid()
      ensures r.Ok? <==> 0 < |ids| <= nCtx && forall l | 0 <= l < |old(kv)| :: |old(kv)[l]| + |ids| <= nCtx
      ensures r.Ok? ==> var (kv', out) := Decode(model, 0, old(kv), pos, Embeds(model, ids));
                        kv == kv' && r.value == model.head(out[|ids| - 1])
      ensures r.Err? ==> kv == old(kv)
    {
      if !BatchOk(|ids|, nCtx) {
        return Err(BatchSize);
      }
      if !Room(kv, |ids|, nCtx) {
        return Err(KvFull);
      }
      var (kv', out) := Decode(model, 0, kv, pos, Embeds(model, ids));
      kv := kv';
      return Ok(model.head(out[|ids| - 1]));
    }
  }
}
