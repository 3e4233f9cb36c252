/** A hop as the two machines carry it out: rows are encoded, sent as a payload and decoded, once for the
    request and once for the reply. */
module Payloads {
  import opened Results
  import opened Bytes
  import opened Transformer
  import opened Pipeline
  import opened HiddenStates

  /** The wire of the pipeline that a number type and a number layout make. */
  function WireOf(f: Floats, dtype: Dtype): Wire {
    if dtype == Int8 then row => PayloadWire(f, row) else row => HalfWire(f, row)
  }

  /** `n` rows of width `h` have an encoding whose size fits 64 bits. */
  predicate Sendable(dtype: Dtype, n: nat, h: nat) {
    dtype != Bf16 && n < U64 && n * h < U64 && PayloadSize(dtype, n, h) < U64
  }

  lemma OneBatch(n: nat, h: nat)
    ensures 1 * n == n && 1 * n * h == n * h
  {
  }

  lemma Int8Arrives(f: Floats, rows: seq<Row>, h: nat)
    requires Width(rows, h)
    ensures |Flatten(rows)| == |rows| * h && RowsOf(Flatten(rows), |rows|, h) == rows
    ensures var bytes := ScaleBytes(f, rows) + ValueBytes(rows);
            && |bytes| == |rows| * 4 + |rows| * h
            && |Flatten(Int8Rows(f, bytes, |rows|, h))| == |rows| * h
            && RowsOf(Flatten(Int8Rows(f, bytes, |rows|, h)), |rows|, h) == Send(WireOf(f, Int8), rows)
  {
    hide Flatten, RowsOf, ScaleBytes, ValueBytes, Int8Rows, PayloadWire;
    FlattenRows(rows, h);
    PayloadIsWire(f, Flatten(rows), |rows|, h);
  }

  lemma HalvesArrive(f: Floats, rows: seq<Row>, h: nat)
    requires Width(rows, h)
    ensures |Flatten(rows)| == |rows| * h
    ensures |HalfBytes(f, Flatten(rows))| == 2 * (|rows| * h)
    ensures RowsOf(HalfVals(f, HalfBytes(f, Flatten(rows)), |rows| * h), |rows|, h) == Send(WireOf(f, Fp16), rows)
  {
    hide Flatten, RowsOf, HalfBytes, HalfVals, HalfWire;
    FlattenRows(rows, h);
    HalfIsWire(f, Flatten(rows), |rows|, h);
  }

  /** One message: encode, then decode what was encoded. Each row arrives as the wire of the pipeline has it. */
  method Transmit(f: Floats, dtype: Dtype, rows: seq<Row>, h: nat) returns (r: Result<seq<Row>, HiddenError>)
    requires Width(rows, h)
    ensures r.Ok? <==> Sendable(dtype, |rows|, h)
    ensures r.Ok? ==> r.value == Send(WireOf(f, dtype), rows)
  {
    hide Flatten, Width, RowsOf, ScaleBytes, ValueBytes, HalfBytes, Int8Rows, HalfVals, WireOf, Send;
    var n := |rows|;
    OneBatch(n, h);
    if dtype == Int8 {
      Int8Arrives(f, rows, h);
    } else {
      HalvesArrive(f, rows, h);
    }
    var payload :- EncodeHidden(f, Flatten(rows), (1, n, h), dtype);
    var decoded :- DecodeHidden(f, payload);
    return Ok(RowsOf(decoded.1, n, h));
  }

  /** Every layer makes rows of width `h`. */
  ghost predicate KeepsWidth(m: Model, h: nat) {
    forall i, cells, p, x :: |RunLayer(m, i, cells, p, x)| == h
  }

  lemma {:induction false} DecodeWidth(m: Model, lo: nat, kv: Kv, pos: nat, rows: seq<Row>, h: nat)
    requires KeepsWidth(m, h) && Width(rows, h)
    ensures Width(Decode(m, lo, kv, pos, rows).1, h)
    decreases |kv|
  {
    if kv != [] {
      DecodeWidth(m, lo + 1, kv[1..], pos, Attend(m, lo, kv[0] + NewCells(pos, rows), pos, rows), h);
    }
  }

  /** A request and its reply: the peer serves what it decodes, the driver goes on with what it decodes. */
  method HopOverPayloads(f: Floats, dtype: Dtype, st: Stage, keep: Keep, rows: seq<Row>, h: nat)
    returns (r: Result<(Stage, seq<Row>), HiddenError>)
    requires Width(rows, h) && KeepsWidth(st.model, h)
    ensures r.Ok? <==> Sendable(dtype, |rows|, h)
    ensures r.Ok? ==> r.value == Hop(st, WireOf(f, dtype), keep, rows)
  {
    hide Decode, Sendable, PayloadWire, HalfWire;
    var received :- Transmit(f, dtype, rows, h);
    var rolled := RollTo(st, keep);
    DecodeWidth(rolled.model, rolled.lo, rolled.kv, rolled.indexPos, received, h);
    var (served, out) := Serve(rolled, received);
    // A batch that could be sent can be sent back.
    var reply := Transmit(f, dtype, out, h);
    return Ok((served, reply.value));
  }
}
