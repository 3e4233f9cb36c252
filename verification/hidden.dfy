/** Hidden states on the wire: flat row-major values, sent as half floats or as 8-bit rows with one
    scale each. Numbers are exact reals; a half float is some rounding of its value. */
module HiddenStates {
  import opened Results
  import opened Bytes
  import opened Transformer
  import opened Pipeline

  datatype HiddenError = EmptyShape | SizeMismatch | Overflow | WrongRank | OutOfRange | Unsupported | Empty | Aborts

  function Product(shape: seq<nat>): nat {
    if shape == [] then 1 else Product(shape[..|shape| - 1]) * shape[|shape| - 1]
  }

  type Word64 = n: nat | n < U64

  datatype Hidden = Hidden(data: seq<real>, shape: seq<Word64>)

  /** The shape multiplies to the length, in wrapping 64-bit arithmetic. */
  predicate GoodHidden(h: Hidden) {
    h.shape != [] && |h.data| == Product(h.shape) % U64
  }

  method NewHidden(data: seq<real>, shape: seq<Word64>) returns (r: Result<Hidden, HiddenError>)
    ensures r.Ok? <==> GoodHidden(Hidden(data, shape))
    ensures r.Ok? ==> r.value == Hidden(data, shape)
    ensures r.Err? ==> r.error == if shape == [] then EmptyShape else SizeMismatch
  {
    if shape == [] {
      return Err(EmptyShape);
    }
    if |data| != Product(shape) % U64 {
      return Err(SizeMismatch);
    }
    return Ok(Hidden(data, shape));
  }

  // ---------- rows ----------

  /** Row `r` of flat data with `h` values per row. */
  function RowOf(flat: seq<real>, h: nat, r: nat): (row: seq<real>)
    requires (r + 1) * h <= |flat|
    ensures |row| == h
  {
    Before(r, h);
    flat[r * h..(r + 1) * h]
  }

  lemma Before(r: nat, h: nat)
    ensures (r + 1) * h == r * h + h && 0 <= r * h
  {
  }

  lemma RowFits(r: nat, rows: nat, h: nat)
    requires r < rows
    ensures (r + 1) * h <= rows * h
  {
  }

  /** Flat data as its rows. */
  function RowsOf(flat: seq<real>, rows: nat, h: nat): (rs: seq<Row>)
    requires |flat| == rows * h
    ensures |rs| == rows
  {
    seq(rows, r requires 0 <= r < rows => RowFits(r, rows, h); RowOf(flat, h, r))
  }

  // ---------- one row in eight bits ----------

  function Abs(x: real): real {
    if x < 0.0 then -x else x
  }

  /** The largest magnitude in a row. */
  function AbsMax(row: seq<real>): (m: real)
    ensures m >= 0.0 && forall i | 0 <= i < |row| :: Abs(row[i]) <= m
    ensures m > 0.0 ==> exists i | 0 <= i < |row| :: Abs(row[i]) == m
  {
    if row == [] then 0.0
    else
      var m := AbsMax(row[..|row| - 1]);
      var x := Abs(row[|row| - 1]);
      if x > m then
        assert Abs(row[|row| - 1]) == x;
        x
      else
        assert m > 0.0 ==> exists i | 0 <= i < |row| - 1 :: Abs(row[i]) == m by {
          if m > 0.0 {
            var init := row[..|row| - 1];
            var i :| 0 <= i < |init| && Abs(init[i]) == m;
            assert Abs(row[i]) == m;
          }
        }
        m
  }

  /** A row of zeros has scale one; any other spreads its largest magnitude over 127 steps. */
  function Scale(row: seq<real>): (s: real)
    ensures s > 0.0
  {
    if AbsMax(row) > 0.0 then AbsMax(row) / 127.0 else 1.0
  }

  /** To the nearest integer, halves away from zero. */
  function Round(x: real): int {
    if x >= 0.0 then (x + 0.5).Floor else -((0.5 - x).Floor)
  }

  function Clamp(x: int, lo: int, hi: int): int
    requires lo <= hi
  {
    if x < lo then lo else if x > hi then hi else x
  }

  function Ratio(x: real, s: real): real
    requires s > 0.0
  {
    x * (1.0 / s)
  }

  function Quantize(x: real, s: real): int
    requires s > 0.0
  {
    Clamp(Round(Ratio(x, s)), -127, 127)
  }

  function QuantizeRow(row: seq<real>): (q: seq<int>)
    ensures |q| == |row|
  {
    seq(|row|, i requires 0 <= i < |row| => Quantize(row[i], Scale(row)))
  }

  function Dequantize(q: int, s: real): real {
    (q as real) * s
  }

  /** What a row is after encoding and decoding: the wire of the pipeline. */
  function Int8Wire(row: Row): (r: Row)
    ensures |r| == |row|
  {
    var q := QuantizeRow(row);
    seq(|row|, i requires 0 <= i < |row| => Dequantize(q[i], Scale(row)))
  }

  lemma RoundNear(x: real)
    ensures -0.5 <= (Round(x) as real) - x <= 0.5
    ensures -127.0 <= x <= 127.0 ==> -127 <= Round(x) <= 127
  {
  }

  /** Halves go away from zero. */
  lemma RoundHalf(n: nat)
    ensures Round(n as real + 0.5) == n + 1 && Round(-(n as real) - 0.5) == -(n + 1)
  {
  }

  lemma RoundInt(n: int)
    ensures Round(n as real) == n
  {
  }

  lemma NonNeg(a: real, b: real)
    requires a >= 0.0 && b >= 0.0
    ensures a * b >= 0.0
  {
  }

  lemma BackAgain(q: int, s: real)
    requires s > 0.0
    ensures Ratio(Dequantize(q, s), s) == q as real
  {
    Cancel(q as real, s);
  }

  lemma Cancel(q: real, s: real)
    requires s > 0.0
    ensures Ratio(q * s, s) == q && Ratio(q, s) * s == q
  {
    assert q * s / s == q;
    assert (1.0 / s) * s == 1.0;
  }

  lemma MulOrder(a: real, b: real, s: real)
    requires s > 0.0
    ensures a * s <= b * s ==> a <= b
  {
    if a > b {
      Positive(a - b, s);
      assert (a - b) * s == a * s - b * s;
    }
  }

  lemma RatioBound(x: real, s: real)
    requires s > 0.0 && Abs(x) <= 127.0 * s
    ensures -127.0 <= Ratio(x, s) <= 127.0
  {
    hide Ratio;
    Cancel(x, s);
    MulOrder(Ratio(x, s), 127.0, s);
    MulOrder(-127.0, Ratio(x, s), s);
  }

  lemma Positive(a: real, b: real)
    requires a > 0.0 && b > 0.0
    ensures a * b > 0.0
  {
  }

  /** The quotient of a row's value by its scale. */
  lemma Steps(row: seq<real>, i: nat)
    requires i < |row|
    ensures -127.0 <= Ratio(row[i], Scale(row)) <= 127.0
  {
    hide Ratio;
    assert Abs(row[i]) <= AbsMax(row) <= 127.0 * Scale(row);
    RatioBound(row[i], Scale(row));
  }

  /** The clamp never bites. */
  lemma NoClamp(row: seq<real>, i: nat)
    requires i < |row|
    ensures QuantizeRow(row)[i] == Round(Ratio(row[i], Scale(row))) && -127 <= QuantizeRow(row)[i] <= 127
  {
    hide Ratio, Scale, Round, AbsMax;
    Steps(row, i);
    RoundNear(Ratio(row[i], Scale(row)));
  }

  lemma ScaleError(a: real, b: real, y: real, q: real, s: real)
    requires s > 0.0 && -0.5 <= q - y <= 0.5 && a == q * s && b == y * s
    ensures Abs(a - b) <= s / 2.0
  {
    var d := q - y;
    NonNeg(0.5 - d, s);
    NonNeg(0.5 + d, s);
    assert d * s == q * s - y * s;
    assert (0.5 - d) * s == 0.5 * s - d * s;
    assert (0.5 + d) * s == 0.5 * s + d * s;
  }

  lemma HalfScale(row: seq<real>)
    ensures AbsMax(row) >= 0.0 && Scale(row) > 0.0
    ensures AbsMax(row) > 0.0 ==> Scale(row) / 2.0 == AbsMax(row) / 254.0 && AbsMax(row) == 127.0 * Scale(row)
  {
  }

  /** Every value comes back within half a step: 1/254 of the row's largest magnitude. */
  lemma RoundTripError(row: seq<real>, i: nat)
    requires i < |row|
    ensures Abs(Int8Wire(row)[i] - row[i]) <= Scale(row) / 2.0
    ensures Abs(Int8Wire(row)[i] - row[i]) <= AbsMax(row) / 254.0
  {
    hide Ratio, Round, Quantize, Scale, AbsMax, QuantizeRow;
    var s, y := Scale(row), Ratio(row[i], Scale(row));
    NoClamp(row, i);
    Cancel(row[i], s);
    RoundNear(y);
    ScaleError(Int8Wire(row)[i], row[i], y, Round(y) as real, s);
    HalfScale(row);
    if AbsMax(row) == 0.0 {
      ZeroRow(row);
    }
  }

  /** A row of zeros comes back as zeros. */
  lemma ZeroRow(row: seq<real>)
    requires AbsMax(row) == 0.0
    ensures Int8Wire(row) == row
  {
    forall i | 0 <= i < |row|
      ensures Int8Wire(row)[i] == row[i]
    {
      assert Abs(row[i]) <= 0.0;
      RoundInt(0);
    }
  }

  /** The largest magnitude is met exactly: it quantizes to 127 or -127. */
  lemma PeakIsExact(row: seq<real>, i: nat)
    requires i < |row| && AbsMax(row) > 0.0 && Abs(row[i]) == AbsMax(row)
    ensures QuantizeRow(row)[i] == if row[i] > 0.0 then 127 else -127
  {
    hide Ratio, Round, Quantize, Scale, AbsMax, QuantizeRow;
    HalfScale(row);
    var q: int := if row[i] > 0.0 then 127 else -127;
    NoClamp(row, i);
    assert row[i] == (q as real) * Scale(row);
    Cancel(q as real, Scale(row));
    RoundInt(q);
  }

  lemma Magnitude(q: int, s: real)
    requires s > 0.0 && -127 <= q <= 127
    ensures Abs(Dequantize(q, s)) <= 127.0 * s
    ensures q == 127 || q == -127 ==> Abs(Dequantize(q, s)) == 127.0 * s
  {
    var x := q as real;
    NonNeg(127.0 - x, s);
    NonNeg(127.0 + x, s);
    assert (127.0 - x) * s == 127.0 * s - x * s;
    assert (127.0 + x) * s == 127.0 * s + x * s;
  }

  /** The largest magnitude of a row is what bounds it and is met. */
  lemma AbsMaxIs(row: seq<real>, m: real, i: nat)
    requires i < |row| && Abs(row[i]) == m && forall j | 0 <= j < |row| :: Abs(row[j]) <= m
    ensures AbsMax(row) == m
  {
  }

  /** A decoded row has the same scale as the original. */
  lemma SameScale(row: seq<real>)
    ensures Scale(Int8Wire(row)) == Scale(row)
  {
    hide Quantize, AbsMax, Abs, Dequantize, QuantizeRow;
    HalfScale(row);
    if AbsMax(row) == 0.0 {
      ZeroRow(row);
    } else {
      var s, back := Scale(row), Int8Wire(row);
      var i :| 0 <= i < |row| && Abs(row[i]) == AbsMax(row);
      PeakIsExact(row, i);
      Magnitude(QuantizeRow(row)[i], s);
      forall j | 0 <= j < |row|
        ensures Abs(back[j]) <= 127.0 * s
      {
        NoClamp(row, j);
        Magnitude(QuantizeRow(row)[j], s);
      }
      AbsMaxIs(back, 127.0 * s, i);
    }
  }

  /** Re-encoding a decoded row gives the identical scale and values: forwarding an unchanged row
      over any number of hops loses nothing more. */
  lemma Int8Idempotent(row: seq<real>)
    ensures Scale(Int8Wire(row)) == Scale(row)
    ensures QuantizeRow(Int8Wire(row)) == QuantizeRow(row)
    ensures Int8Wire(Int8Wire(row)) == Int8Wire(row)
  {
    hide Quantize, Scale, Ratio, Round, Dequantize, QuantizeRow;
    var s, back := Scale(row), Int8Wire(row);
    SameScale(row);
    forall i | 0 <= i < |row|
      ensures QuantizeRow(back)[i] == QuantizeRow(row)[i]
    {
      var q := QuantizeRow(row)[i];
      NoClamp(back, i);
      BackAgain(q, s);
      RoundInt(q);
    }
    forall i | 0 <= i < |row|
      ensures Int8Wire(back)[i] == back[i]
    {
      assert QuantizeRow(back)[i] == QuantizeRow(row)[i];
    }
  }

  // ---------- the payload ----------

  datatype Dtype = Fp16 | Bf16 | Int8

  datatype Payload = Payload(dtype: Dtype, shape: (nat, nat, nat), bytes: seq<byte>)

  type Word32 = b: seq<byte> | |b| == 4 witness [0, 0, 0, 0]

  type Word16 = b: seq<byte> | |b| == 2 witness [0, 0]

  /** How numbers are laid out as words of four and of two bytes, with any rounding. */
  datatype Floats = Floats(put32: real -> Word32, get32: seq<byte> -> real,
                           put16: real -> Word16, get16: seq<byte> -> real)

  function Put32(f: Floats, x: real): Word32 {
    f.put32(x)
  }

  function Put16(f: Floats, x: real): Word16 {
    f.put16(x)
  }

  /** A row's scale as the receiver reads it. */
  function StoredScale(f: Floats, row: Row): real {
    f.get32(Put32(f, Scale(row)))
  }

  /** What a row is after crossing the wire as eight-bit values and a stored scale. */
  function PayloadWire(f: Floats, row: Row): (r: Row)
    ensures |r| == |row|
  {
    var q := QuantizeRow(row);
    seq(|row|, i requires 0 <= i < |row| => Dequantize(q[i], StoredScale(f, row)))
  }

  /** What a row is after crossing the wire as half floats. */
  function HalfWire(f: Floats, row: Row): (r: Row)
    ensures |r| == |row|
  {
    seq(|row|, i requires 0 <= i < |row| => f.get16(Put16(f, row[i])))
  }

  /** With a scale that survives its word the row crosses as the exact codec has it. */
  lemma ExactScale(f: Floats, row: Row)
    requires StoredScale(f, row) == Scale(row)
    ensures PayloadWire(f, row) == Int8Wire(row)
  {
    hide Scale, QuantizeRow, Dequantize, StoredScale;
    forall i | 0 <= i < |row|
      ensures PayloadWire(f, row)[i] == Int8Wire(row)[i]
    {
    }
  }

  /** A rounded scale costs at most 127 times its own error on top of the half step. */
  lemma StoredScaleError(f: Floats, row: Row, i: nat)
    requires i < |row|
    ensures Abs(PayloadWire(f, row)[i] - row[i]) <= Scale(row) / 2.0 + 127.0 * Abs(StoredScale(f, row) - Scale(row))
  {
    hide Scale, QuantizeRow, StoredScale, Ratio, AbsMax, Round;
    var q, s, t := QuantizeRow(row)[i], Scale(row), StoredScale(f, row);
    NoClamp(row, i);
    RoundTripError(row, i);
    ScaleShift(q, s, t);
    Triangle(Dequantize(q, t) - Dequantize(q, s), Int8Wire(row)[i] - row[i]);
  }

  lemma Triangle(a: real, b: real)
    ensures Abs(a + b) <= Abs(a) + Abs(b)
  {
  }

  lemma ScaleShift(q: int, s: real, t: real)
    requires -127 <= q <= 127
    ensures Abs(Dequantize(q, t) - Dequantize(q, s)) <= 127.0 * Abs(t - s)
  {
    var x, d := q as real, t - s;
    assert x * t - x * s == x * d;
    var e := Abs(d);
    NonNeg(127.0 - x, e);
    NonNeg(127.0 + x, e);
    assert (127.0 - x) * e == 127.0 * e - x * e && (127.0 + x) * e == 127.0 * e + x * e;
    if d < 0.0 {
      assert x * d == -(x * e);
    }
  }

  function Int8Byte(q: int): byte {
    q % 256
  }

  function ByteInt8(b: byte): int {
    var n: int := b;
    if n >= 128 then n - 256 else n
  }

  /** Two's complement, both ways. */
  lemma TwosComplement(q: int, b: byte)
    requires -128 <= q <= 127
    ensures Int8Byte(q) == if q >= 0 then q else 256 + q
    ensures ByteInt8(b) == if b < 128 then b else b as int - 256
    ensures ByteInt8(Int8Byte(q)) == q
  {
  }

  function PackRow(row: Row): (b: seq<byte>)
    ensures |b| == |row|
  {
    seq(|row|, i requires 0 <= i < |row| => Int8Byte(QuantizeRow(row)[i]))
  }

  function UnpackRow(s: real, b: seq<byte>): (row: Row)
    ensures |row| == |b|
  {
    seq(|b|, i requires 0 <= i < |b| => Dequantize(ByteInt8(b[i]), s))
  }

  function ScaleBytes(f: Floats, rs: seq<Row>): seq<byte> {
    if rs == [] then [] else ScaleBytes(f, rs[..|rs| - 1]) + Put32(f, Scale(rs[|rs| - 1]))
  }

  function ValueBytes(rs: seq<Row>): seq<byte> {
    if rs == [] then [] else ValueBytes(rs[..|rs| - 1]) + PackRow(rs[|rs| - 1])
  }

  function Flatten(rs: seq<Row>): seq<real> {
    if rs == [] then [] else Flatten(rs[..|rs| - 1]) + rs[|rs| - 1]
  }

  predicate Width(rs: seq<Row>, h: nat) {
    forall r | 0 <= r < |rs| :: |rs[r]| == h
  }

  /** All the scales, then all the values. */
  method EncodeInt8Rows(f: Floats, flat: seq<real>, rows: nat, h: nat) returns (bytes: seq<byte>)
    requires |flat| == rows * h
    ensures bytes == ScaleBytes(f, RowsOf(flat, rows, h)) + ValueBytes(RowsOf(flat, rows, h))
  {
    hide Scale, QuantizeRow, PackRow, RowsOf;
    ghost var rs := RowsOf(flat, rows, h);
    var scales: seq<real> := [];
    for r := 0 to rows
      invariant |scales| == r && forall v | 0 <= v < r :: scales[v] == Scale(rs[v])
    {
      RowFits(r, rows, h);
      RowsAt(flat, rows, h, r);
      scales := scales + [Scale(RowOf(flat, h, r))];
    }
    bytes := [];
    for r := 0 to rows
      invariant bytes == ScaleBytes(f, rs[..r])
    {
      assert rs[..r + 1][..r] == rs[..r];
      bytes := bytes + Put32(f, scales[r]);
    }
    ghost var front := bytes;
    assert front + [] == front && rs[..rows] == rs;
    for r := 0 to rows
      invariant bytes == front + ValueBytes(rs[..r])
    {
      RowFits(r, rows, h);
      RowsAt(flat, rows, h, r);
      var row := RowOf(flat, h, r);
      assert rs[..r + 1][..r] == rs[..r];
      bytes := bytes + PackRow(row);
    }
  }

  lemma RowsAt(flat: seq<real>, rows: nat, h: nat, r: nat)
    requires |flat| == rows * h && r < rows
    ensures (r + 1) * h <= |flat| && RowsOf(flat, rows, h)[r] == RowOf(flat, h, r)
  {
    RowFits(r, rows, h);
  }

  predicate NoOverflow(shape: (nat, nat, nat)) {
    shape.0 * shape.1 < U64 && shape.0 * shape.1 * shape.2 < U64
  }

  function HalfBytes(f: Floats, xs: seq<real>): seq<byte> {
    if xs == [] then [] else HalfBytes(f, xs[..|xs| - 1]) + Put16(f, xs[|xs| - 1])
  }

  method EncodeHidden(f: Floats, flat: seq<real>, shape: (nat, nat, nat), dtype: Dtype) returns (r: Result<Payload, HiddenError>)
    ensures r.Ok? <==> NoOverflow(shape) && |flat| == shape.0 * shape.1 * shape.2 && dtype != Bf16
    ensures r == Err(Overflow) <==> shape.0 * shape.1 >= U64 || shape.0 * shape.1 * shape.2 >= U64
    ensures r == Err(Unsupported) ==> dtype == Bf16
    ensures r.Ok? ==> r.value.shape == shape && r.value.dtype == dtype
    ensures r.Ok? && dtype == Int8 ==>
      var rs := RowsOf(flat, shape.0 * shape.1, shape.2);
      r.value.bytes == ScaleBytes(f, rs) + ValueBytes(rs)
    ensures r.Ok? && dtype == Fp16 ==> r.value.bytes == HalfBytes(f, flat)
  {
    if !NoOverflow(shape) {
      return Err(Overflow);
    }
    if |flat| != shape.0 * shape.1 * shape.2 {
      return Err(SizeMismatch);
    }
    if dtype == Bf16 {
      return Err(Unsupported);
    }
    var bytes := [];
    if dtype == Int8 {
      bytes := EncodeInt8Rows(f, flat, shape.0 * shape.1, shape.2);
    } else {
      for i := 0 to |flat|
        invariant bytes == HalfBytes(f, flat[..i])
      {
        assert flat[..i + 1][..i] == flat[..i];
        bytes := bytes + Put16(f, flat[i]);
      }
      assert flat[..|flat|] == flat;
    }
    return Ok(Payload(dtype, shape, bytes));
  }

  /** Bytes of a payload: two per value, or one per value and four per row. */
  function PayloadSize(dtype: Dtype, rows: nat, h: nat): nat {
    if dtype == Int8 then rows * 4 + rows * h else 2 * (rows * h)
  }

  function FullSize(p: Payload): nat {
    PayloadSize(p.dtype, p.shape.0 * p.shape.1, p.shape.2)
  }

  /** What the receiver expects, in wrapping 64-bit arithmetic. */
  function ExpectedSize(p: Payload): nat {
    FullSize(p) % U64
  }

  /** Row `r` of an 8-bit payload. */
  function Int8Row(f: Floats, bytes: seq<byte>, rows: nat, h: nat, r: nat): (row: Row)
    requires |bytes| == rows * 4 + rows * h && r < rows
    ensures |row| == h
  {
    RowFits(r, rows, h);
    Before(r, h);
    UnpackRow(f.get32(bytes[4 * r..4 * r + 4]), bytes[rows * 4 + r * h..rows * 4 + (r + 1) * h])
  }

  function Int8Rows(f: Floats, bytes: seq<byte>, rows: nat, h: nat): (rs: seq<Row>)
    requires |bytes| == rows * 4 + rows * h
    ensures |rs| == rows
  {
    seq(rows, r requires 0 <= r < rows => Int8Row(f, bytes, rows, h, r))
  }

  function HalfVals(f: Floats, bytes: seq<byte>, n: nat): (xs: seq<real>)
    requires |bytes| == 2 * n
    ensures |xs| == n
  {
    seq(n, i requires 0 <= i < n => f.get16(bytes[2 * i..2 * i + 2]))
  }

  /** A payload of the expected size is decoded; an 8-bit one whose true size does not fit a word aborts. */
  method DecodeHidden(f: Floats, p: Payload) returns (r: Result<((nat, nat, nat), seq<real>), HiddenError>)
    ensures r.Err? && r.error == Aborts <==>
      NoOverflow(p.shape) && |p.bytes| == ExpectedSize(p) && p.dtype == Int8 && FullSize(p) >= U64
    ensures r.Ok? <==>
      NoOverflow(p.shape) && |p.bytes| == ExpectedSize(p) && p.dtype != Bf16 && (p.dtype == Int8 ==> FullSize(p) < U64)
    ensures r == Err(Overflow) <==> p.shape.0 * p.shape.1 >= U64 || p.shape.0 * p.shape.1 * p.shape.2 >= U64
    ensures r.Ok? ==> r.value.0 == p.shape
    ensures r.Ok? && p.dtype == Int8 ==>
      && |p.bytes| == FullSize(p)
      && r.value.1 == Flatten(Int8Rows(f, p.bytes, p.shape.0 * p.shape.1, p.shape.2))
    ensures r.Ok? && p.dtype == Fp16 ==> |p.bytes| % 2 == 0 && r.value.1 == HalfVals(f, p.bytes, |p.bytes| / 2)
  {
    hide Int8Rows, Flatten;
    if !NoOverflow(p.shape) {
      return Err(Overflow);
    }
    var rows, h := p.shape.0 * p.shape.1, p.shape.2;
    if |p.bytes| != ExpectedSize(p) {
      return Err(SizeMismatch);
    }
    if p.dtype == Bf16 {
      return Err(Unsupported);
    }
    if p.dtype == Int8 {
      var vals :- DecodeInt8Rows(f, p.bytes, rows, h);
      return Ok((p.shape, vals));
    }
    HalfIsEven(rows * h);
    var vals: seq<real> := [];
    for i := 0 to |p.bytes| / 2
      invariant |vals| == i && forall j | 0 <= j < i :: vals[j] == f.get16(p.bytes[2 * j..2 * j + 2])
    {
      vals := vals + [f.get16(p.bytes[2 * i..2 * i + 2])];
    }
    return Ok((p.shape, vals));
  }

  lemma HalfIsEven(n: nat)
    ensures (2 * n) % U64 % 2 == 0
  {
    var q := (2 * n) / U64;
    assert (2 * n) % U64 == 2 * (n - q * (U64 / 2));
  }

  /** The scales are split off, then row by row one scale and the row's bytes are taken; either may be missing
      when the sizes wrapped. */
  method DecodeInt8Rows(f: Floats, bytes: seq<byte>, rows: nat, h: nat) returns (r: Result<seq<real>, HiddenError>)
    requires |bytes| == (rows * 4 + rows * h) % U64
    ensures r.Ok? <==> rows * 4 + rows * h < U64
    ensures r.Err? ==> r.error == Aborts
    ensures r.Ok? ==> |bytes| == rows * 4 + rows * h && r.value == Flatten(Int8Rows(f, bytes, rows, h))
  {
    hide Int8Row;
    var split := (rows * 4) % U64;
    Wraps(rows * 4, rows * h);
    if split > |bytes| {
      return Err(Aborts);
    }
    ghost var whole := rows * 4 + rows * h < U64;
    ghost var rs := if whole then Int8Rows(f, bytes, rows, h) else [];
    var vals: seq<real> := [];
    for i := 0 to rows
      invariant 4 * i <= split && split + i * h <= |bytes|
      invariant whole ==> vals == Flatten(rs[..i])
    {
      RowFits(i, rows, h);
      Before(i, h);
      if 4 * i + 4 > split || split + (i + 1) * h > |bytes| {
        return Err(Aborts);
      }
      var scale, row := f.get32(bytes[4 * i..4 * i + 4]), bytes[split + i * h..split + (i + 1) * h];
      if whole {
        RowIs(f, bytes, rows, h, i);
        assert rs[..i + 1][..i] == rs[..i];
      }
      vals := vals + UnpackRow(scale, row);
    }
    assert whole ==> rs[..rows] == rs;
    return Ok(vals);
  }

  lemma Wraps(a: nat, b: nat)
    ensures a % U64 <= a && (a + b < U64 ==> a % U64 == a && (a + b) % U64 == a + b)
    ensures (a + b) % U64 < U64
  {
  }

  lemma RowIs(f: Floats, bytes: seq<byte>, rows: nat, h: nat, i: nat)
    requires |bytes| == rows * 4 + rows * h && i < rows
    ensures 0 <= rows * 4 + i * h <= rows * 4 + (i + 1) * h <= |bytes|
    ensures Int8Row(f, bytes, rows, h, i)
            == UnpackRow(f.get32(bytes[4 * i..4 * i + 4]), bytes[rows * 4 + i * h..rows * 4 + (i + 1) * h])
  {
    RowFits(i, rows, h);
    Before(i, h);
  }

  /** An empty 8-bit payload can pass for a shape of 2^62 rows of no values, and then aborts. */
  lemma EmptyRowsAbort()
    ensures var p := Payload(Int8, (0x8000_0000, 0x8000_0000, 0), []);
            NoOverflow(p.shape) && |p.bytes| == ExpectedSize(p) && FullSize(p) >= U64
  {
  }

  /** A half-float payload decodes to as many values as its shape says exactly when twice that many fit a
      word. */
  lemma HalfCountIff(p: Payload)
    requires NoOverflow(p.shape) && |p.bytes| == ExpectedSize(p) && p.dtype == Fp16
    ensures |p.bytes| / 2 == p.shape.0 * p.shape.1 * p.shape.2 <==> FullSize(p) < U64
  {
    HalfIsEven(p.shape.0 * p.shape.1 * p.shape.2);
  }

  // ---------- the payload round trip is the wire of the pipeline ----------

  lemma {:induction false} ScaleAt(f: Floats, rs: seq<Row>, r: nat)
    requires r < |rs|
    ensures |ScaleBytes(f, rs)| == 4 * |rs| && ScaleBytes(f, rs)[4 * r..4 * r + 4] == Put32(f, Scale(rs[r]))
  {
    hide Scale, Put32;
    var init := rs[..|rs| - 1];
    var last := Put32(f, Scale(rs[|rs| - 1]));
    assert |last| == 4;
    if init == [] {
      assert ScaleBytes(f, init) == [];
    } else {
      ScaleAt(f, init, if r < |init| then r else 0);
    }
  }

  lemma {:induction false} ValuesAt(rs: seq<Row>, h: nat, r: nat)
    requires Width(rs, h) && r < |rs|
    ensures |ValueBytes(rs)| == |rs| * h && (r + 1) * h <= |rs| * h && 0 <= r * h <= (r + 1) * h
    ensures ValueBytes(rs)[r * h..(r + 1) * h] == PackRow(rs[r])
  {
    hide PackRow, ValueBytes;
    var init := rs[..|rs| - 1];
    Before(r, h);
    RowFits(r, |rs|, h);
    Before(|init|, h);
    PackedWidth(rs[|rs| - 1]);
    LastValues(rs);
    if init == [] {
      NoValues();
      OnlyOne(r, h);
    } else {
      ValuesAt(init, h, if r < |init| then r else 0);
      SliceOfPrefix(ValueBytes(init), PackRow(rs[|rs| - 1]), r * h, (r + 1) * h);
    }
  }

  lemma LastValues(rs: seq<Row>)
    requires rs != []
    ensures ValueBytes(rs) == ValueBytes(rs[..|rs| - 1]) + PackRow(rs[|rs| - 1])
  {
  }

  lemma NoValues()
    ensures ValueBytes([]) == []
  {
  }

  lemma PackedWidth(row: Row)
    ensures |PackRow(row)| == |row|
  {
  }

  lemma OnlyOne(r: nat, h: nat)
    ensures r == 0 ==> r * h == 0 && (r + 1) * h == h
  {
  }

  lemma SliceOfPrefix(a: seq<byte>, b: seq<byte>, i: nat, j: nat)
    ensures i <= j <= |a| ==> (a + b)[i..j] == a[i..j]
    ensures i == |a| && j == |a| + |b| ==> (a + b)[i..j] == b
  {
  }

  lemma UnpackPack(f: Floats, row: Row)
    ensures UnpackRow(StoredScale(f, row), PackRow(row)) == PayloadWire(f, row)
  {
    hide Scale, QuantizeRow, Dequantize, StoredScale;
    forall i | 0 <= i < |row|
      ensures ByteInt8(PackRow(row)[i]) == QuantizeRow(row)[i]
    {
      NoClamp(row, i);
    }
  }

  /** A payload has one 4-byte scale per row and one byte per value. */
  lemma PayloadRows(f: Floats, rs: seq<Row>, h: nat)
    requires Width(rs, h)
    ensures var bytes := ScaleBytes(f, rs) + ValueBytes(rs);
            && |bytes| == |rs| * 4 + |rs| * h
            && Int8Rows(f, bytes, |rs|, h) == Send(row => PayloadWire(f, row), rs)
  {
    hide ScaleBytes, ValueBytes, Scale, PackRow, PayloadWire, UnpackRow;
    var rows, bytes := |rs|, ScaleBytes(f, rs) + ValueBytes(rs);
    NoBytes(f, rs);
    if rows > 0 {
      ScaleAt(f, rs, 0);
      ValuesAt(rs, h, 0);
    }
    forall r | 0 <= r < rows
      ensures Int8Row(f, bytes, rows, h, r) == PayloadWire(f, rs[r])
    {
      ScaleAt(f, rs, r);
      ValuesAt(rs, h, r);
      assert bytes[4 * r..4 * r + 4] == Put32(f, Scale(rs[r]));
      assert bytes[rows * 4 + r * h..rows * 4 + (r + 1) * h] == ValueBytes(rs)[r * h..(r + 1) * h];
      UnpackPack(f, rs[r]);
    }
  }

  /** The decoded values of an encoded 8-bit payload are the rows sent over the wire one by one: no row
      influences another. */
  lemma PayloadIsWire(f: Floats, flat: seq<real>, rows: nat, h: nat)
    requires |flat| == rows * h
    ensures var rs := RowsOf(flat, rows, h);
            var bytes := ScaleBytes(f, rs) + ValueBytes(rs);
            && |bytes| == rows * 4 + rows * h
            && |Flatten(Int8Rows(f, bytes, rows, h))| == rows * h
            && RowsOf(Flatten(Int8Rows(f, bytes, rows, h)), rows, h) == Send(row => PayloadWire(f, row), rs)
  {
    hide ScaleBytes, ValueBytes, RowsOf, Int8Rows, PayloadWire, Flatten;
    var rs := RowsOf(flat, rows, h);
    RowsWidth(flat, rows, h);
    PayloadRows(f, rs, h);
    FlattenRows(Send(row => PayloadWire(f, row), rs), h);
  }

  /** Rows of one width survive being laid end to end. */
  lemma {:induction false} FlattenRows(rs: seq<Row>, h: nat)
    requires Width(rs, h)
    ensures |Flatten(rs)| == |rs| * h && RowsOf(Flatten(rs), |rs|, h) == rs
  {
    hide RowsOf;
    if rs == [] {
      EmptyRows(h);
    } else {
      var init, last := rs[..|rs| - 1], rs[|rs| - 1];
      FlattenRows(init, h);
      Before(|init|, h);
      forall r | 0 <= r < |rs|
        ensures RowsOf(Flatten(rs), |rs|, h)[r] == rs[r]
      {
        RowsAt(Flatten(rs), |rs|, h, r);
        Before(r, h);
        if r < |init| {
          RowsAt(Flatten(init), |init|, h, r);
          assert (Flatten(init) + last)[r * h..(r + 1) * h] == Flatten(init)[r * h..(r + 1) * h];
        } else {
          assert (Flatten(init) + last)[r * h..(r + 1) * h] == last;
        }
      }
    }
  }

  lemma EmptyRows(h: nat)
    ensures 0 * h == 0 && RowsOf([], 0, h) == []
  {
  }

  lemma RowsWidth(flat: seq<real>, rows: nat, h: nat)
    requires |flat| == rows * h
    ensures Width(RowsOf(flat, rows, h), h)
  {
    forall r | 0 <= r < rows
      ensures |RowsOf(flat, rows, h)[r]| == h
    {
      RowsAt(flat, rows, h, r);
    }
  }

  lemma NoBytes(f: Floats, rs: seq<Row>)
    ensures rs == [] ==> ScaleBytes(f, rs) == [] && ValueBytes(rs) == []
  {
  }

  /** Each value of a half-float payload is rounded by itself. */
  lemma {:induction false} HalfAt(f: Floats, xs: seq<real>, i: nat)
    requires i < |xs|
    ensures |HalfBytes(f, xs)| == 2 * |xs| && HalfBytes(f, xs)[2 * i..2 * i + 2] == Put16(f, xs[i])
  {
    hide Put16;
    var init, last := xs[..|xs| - 1], Put16(f, xs[|xs| - 1]);
    assert |last| == 2;
    if init == [] {
      assert HalfBytes(f, init) == [];
    } else {
      HalfAt(f, init, if i < |init| then i else 0);
      if i < |init| {
        assert HalfBytes(f, xs)[2 * i..2 * i + 2] == HalfBytes(f, init)[2 * i..2 * i + 2];
      }
    }
  }

  lemma HalfLength(f: Floats, xs: seq<real>)
    ensures |HalfBytes(f, xs)| == 2 * |xs|
  {
    if xs != [] {
      HalfAt(f, xs, 0);
    }
  }

  /** The decoded values of an encoded half-float payload are the rows sent over the wire one by one. */
  lemma HalfIsWire(f: Floats, flat: seq<real>, rows: nat, h: nat)
    requires |flat| == rows * h
    ensures |HalfBytes(f, flat)| == 2 * (rows * h)
    ensures RowsOf(HalfVals(f, HalfBytes(f, flat), rows * h), rows, h) == Send(row => HalfWire(f, row), RowsOf(flat, rows, h))
  {
    hide HalfBytes, RowsOf, Put16;
    HalfLength(f, flat);
    var vals := HalfVals(f, HalfBytes(f, flat), rows * h);
    forall r | 0 <= r < rows
      ensures RowsOf(vals, rows, h)[r] == HalfWire(f, RowsOf(flat, rows, h)[r])
    {
      RowsAt(vals, rows, h, r);
      RowsAt(flat, rows, h, r);
      HalfRow(f, flat, vals, r, h);
    }
  }

  lemma HalfRow(f: Floats, flat: seq<real>, vals: seq<real>, r: nat, h: nat)
    requires |flat| == |vals| && (r + 1) * h <= |flat|
    requires |HalfBytes(f, flat)| == 2 * |flat| && vals == HalfVals(f, HalfBytes(f, flat), |flat|)
    ensures RowOf(vals, h, r) == HalfWire(f, RowOf(flat, h, r))
  {
    hide HalfBytes, Put16;
    Before(r, h);
    forall i | 0 <= i < h
      ensures RowOf(vals, h, r)[i] == f.get16(Put16(f, RowOf(flat, h, r)[i]))
    {
      HalfAt(f, flat, r * h + i);
    }
  }

  // ---------- picking a position ----------

  /** Where position `pos` of batch `k` starts, in wrapping 64-bit arithmetic. */
  function StartOf(n: nat, inner: nat, k: nat, pos: nat): (off: nat)
    ensures off < U64
  {
    (k * n * inner + pos * inner) % U64
  }

  /** Batch `k` of the copy is position `pos` of batch `k` of the original. */
  predicate Copied(data: seq<real>, from: seq<real>, n: nat, inner: nat, k: nat, pos: nat) {
    && 0 <= k * inner <= (k + 1) * inner <= |data|
    && var off := StartOf(n, inner, k, pos);
    && off + inner <= |from| && data[k * inner..(k + 1) * inner] == from[off..off + inner]
  }

  /** The copy holds the first `i` batches, all of them inside the data. */
  predicate CopiedUpTo(data: seq<real>, from: seq<real>, n: nat, inner: nat, i: nat, pos: nat) {
    && |data| == i * inner
    && forall k | 0 <= k < i :: StartOf(n, inner, k, pos) + inner <= |from| && Copied(data, from, n, inner, k, pos)
  }

  /** Every batch has the position inside the data. */
  predicate AllInside(h: Hidden, pos: nat)
    requires |h.shape| == 3
  {
    forall k | 0 <= k < h.shape[0] :: StartOf(h.shape[1], h.shape[2], k, pos) + h.shape[2] <= |h.data|
  }

  /** Copy one position of a rank-3 state out of every batch. A batch that lies outside the data aborts. */
  method SelectPosition(h: Hidden, pos: nat) returns (r: Result<Hidden, HiddenError>)
    requires GoodHidden(h)
    ensures r.Ok? <==> |h.shape| == 3 && pos < h.shape[1] && AllInside(h, pos) && h.shape[0] * h.shape[2] < U64
    ensures r.Err? && r.error == Aborts <==> |h.shape| == 3 && pos < h.shape[1] && !AllInside(h, pos)
    ensures r.Ok? ==> GoodHidden(r.value) && r.value.shape == [h.shape[0], h.shape[2]]
    ensures r.Ok? ==> forall k | 0 <= k < h.shape[0] :: Copied(r.value.data, h.data, h.shape[1], h.shape[2], k, pos)
  {
    hide Copied, Product, StartOf, GoodHidden, CopiedUpTo;
    if |h.shape| != 3 {
      return Err(WrongRank);
    }
    var b, n, inner := h.shape[0], h.shape[1], h.shape[2];
    if pos >= n {
      return Err(OutOfRange);
    }
    var data := [];
    CopyNone(h.data, n, inner, pos);
    for i := 0 to b
      invariant CopiedUpTo(data, h.data, n, inner, i, pos)
    {
      var off := StartOf(n, inner, i, pos);
      if off + inner > |h.data| {
        return Err(Aborts);
      }
      CopyOne(data, h.data, n, inner, i, pos);
      data := data + h.data[off..off + inner];
    }
    CopiedAll(data, h, pos);
    CopiedLength(data, h.data, n, inner, b, pos);
    CopySize(data, b, inner);
    r := NewHidden(data, [b, inner]);
  }

  lemma CopySize(data: seq<real>, b: Word64, inner: Word64)
    requires |data| == b * inner
    ensures GoodHidden(Hidden(data, [b, inner])) <==> b * inner < U64
  {
    RankTwo(b, inner);
    if b * inner < U64 {
      Wraps(b * inner, 0);
    }
  }

  /** A state whose shape does not wrap has every position of every batch where row-major order puts it. */
  lemma PlainPositions(h: Hidden, pos: nat, k: nat)
    requires GoodHidden(h) && |h.shape| == 3 && pos < h.shape[1] && Product(h.shape) < U64 && k < h.shape[0]
    ensures StartOf(h.shape[1], h.shape[2], k, pos) == k * h.shape[1] * h.shape[2] + pos * h.shape[2]
    ensures StartOf(h.shape[1], h.shape[2], k, pos) + h.shape[2] <= |h.data|
    ensures h.shape[0] * h.shape[2] < U64
  {
    hide Product;
    RankThree(h.shape);
    Wraps(Product(h.shape), 0);
    PlainStart(h.shape[0], h.shape[1], h.shape[2], k, pos);
    Shorter(h.shape[0], h.shape[1], h.shape[2]);
  }

  lemma PlainStart(b: nat, n: nat, inner: nat, k: nat, pos: nat)
    requires k < b && pos < n && b * n * inner < U64
    ensures StartOf(n, inner, k, pos) == k * n * inner + pos * inner
    ensures k * n * inner + pos * inner + inner <= b * n * inner
  {
    Inside(b, n, inner, k, pos);
    Wraps(k * n * inner + pos * inner, 0);
  }

  lemma Shorter(b: nat, n: nat, inner: nat)
    requires n > 0
    ensures b * inner <= b * n * inner
  {
    assert b * n >= b;
    assert b * n * inner == (b * n - b) * inner + b * inner;
  }

  lemma CopyNone(from: seq<real>, n: nat, inner: nat, pos: nat)
    ensures CopiedUpTo([], from, n, inner, 0, pos)
  {
  }

  lemma CopiedLength(data: seq<real>, from: seq<real>, n: nat, inner: nat, i: nat, pos: nat)
    requires CopiedUpTo(data, from, n, inner, i, pos)
    ensures |data| == i * inner
  {
  }

  lemma CopiedAll(data: seq<real>, h: Hidden, pos: nat)
    requires |h.shape| == 3 && CopiedUpTo(data, h.data, h.shape[1], h.shape[2], h.shape[0], pos)
    ensures AllInside(h, pos)
    ensures forall k | 0 <= k < h.shape[0] :: Copied(data, h.data, h.shape[1], h.shape[2], k, pos)
  {
    hide Copied, StartOf;
  }

  lemma CopyOne(data: seq<real>, from: seq<real>, n: nat, inner: nat, i: nat, pos: nat)
    requires CopiedUpTo(data, from, n, inner, i, pos) && StartOf(n, inner, i, pos) + inner <= |from|
    ensures var off := StartOf(n, inner, i, pos);
            CopiedUpTo(data + from[off..off + inner], from, n, inner, i + 1, pos)
  {
    hide StartOf;
    Before(i, inner);
    var off: nat := StartOf(n, inner, i, pos);
    var more := data + from[off..off + inner];
    assert more[i * inner..(i + 1) * inner] == from[off..off + inner];
    forall k | 0 <= k < i
      ensures Copied(more, from, n, inner, k, pos)
    {
      assert Copied(data, from, n, inner, k, pos);
      assert more[k * inner..(k + 1) * inner] == data[k * inner..(k + 1) * inner];
    }
  }

  /** The first largest value, as a position in the last axis. */
  method ArgmaxLast(h: Hidden) returns (r: Result<nat, HiddenError>)
    requires GoodHidden(h)
    ensures r == if h.data == [] then Err(Empty) else Ok(Argmax(h.data) % LastAxis(h))
  {
    hide Argmax, Product;
    if h.data == [] {
      return Err(Empty);
    }
    var best, value := 0, h.data[0];
    FirstArgmax(h.data);
    for i := 1 to |h.data|
      invariant best < i && value == h.data[best] && best == Argmax(h.data[..i])
    {
      ArgmaxStep(h.data, i);
      if h.data[i] > value {
        best, value := i, h.data[i];
      }
    }
    assert h.data[..|h.data|] == h.data;
    return Ok(best % LastAxis(h));
  }

  /** Length of the last axis of a state that has any data. */
  function LastAxis(h: Hidden): (n: nat)
    requires GoodHidden(h) && h.data != []
    ensures n > 0
  {
    NoEmptyAxis(h.shape);
    h.shape[|h.shape| - 1]
  }

  lemma FirstArgmax(l: seq<real>)
    requires l != []
    ensures Argmax(l[..1]) == 0
  {
  }

  lemma ArgmaxStep(l: seq<real>, i: nat)
    requires 0 < i < |l|
    ensures var b := Argmax(l[..i]);
            Argmax(l[..i + 1]) == if l[i] > l[b] then i else b
  {
    assert l[..i + 1][..i] == l[..i];
  }

  lemma NoEmptyAxis(shape: seq<nat>)
    requires shape != [] && Product(shape) > 0
    ensures shape[|shape| - 1] > 0
  {
  }

  lemma RankThree(shape: seq<nat>)
    requires |shape| == 3
    ensures Product(shape) == shape[0] * shape[1] * shape[2]
  {
    assert shape[..2] == [shape[0], shape[1]] && shape[..2][..1] == [shape[0]] && shape[..1][..0] == [];
    assert Product([shape[0]]) == Product([]) * shape[0];
  }

  lemma RankTwo(b: nat, n: nat)
    ensures Product([b, n]) == b * n
  {
    assert [b, n][..1] == [b] && [b][..0] == [];
    assert Product([b]) == Product([]) * b;
  }

  lemma Inside(b: nat, n: nat, inner: nat, i: nat, pos: nat)
    requires i < b && pos < n
    ensures i * n * inner + pos * inner + inner <= b * n * inner
    ensures i == 0 ==> i * n * inner == 0
  {
    var block := n * inner;
    Regroup(i, n, inner);
    Regroup(b, n, inner);
    Before(pos, inner);
    RowFits(pos, n, inner);
    Before(i, block);
    RowFits(i, b, block);
  }

  lemma Regroup(a: nat, b: nat, c: nat)
    ensures a * b * c == a * (b * c)
  {
  }
}
