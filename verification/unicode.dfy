/** The encoding form UTF-8 (section 3.9 of the Unicode Standard), by code points, against which the
    validity check on bytes is proved. */
module Unicode {
  import opened Bytes

  /** Code points but surrogates. */
  predicate IsScalar(cp: nat) {
    cp < 0xD800 || 0xE000 <= cp < 0x11_0000
  }

  predicate AllScalars(cps: seq<nat>) {
    forall i | 0 <= i < |cps| :: IsScalar(cps[i])
  }

  /** One to four bytes, six bits in each but the first. */
  function Encoded(cp: nat): seq<byte>
    requires IsScalar(cp)
  {
    if cp < 0x80 then [cp]
    else if cp < 0x800 then [0xC0 + cp / 0x40, 0x80 + cp % 0x40]
    else if cp < 0x1_0000 then [0xE0 + cp / 0x1000, 0x80 + cp / 0x40 % 0x40, 0x80 + cp % 0x40]
    else [0xF0 + cp / 0x4_0000, 0x80 + cp / 0x1000 % 0x40, 0x80 + cp / 0x40 % 0x40, 0x80 + cp % 0x40]
  }

  function EncodedAll(cps: seq<nat>): seq<byte>
    requires AllScalars(cps)
  {
    if cps == [] then [] else Encoded(cps[0]) + EncodedAll(cps[1..])
  }

  /** The check takes the bytes of a scalar value, whatever follows them. */
  lemma TakesScalar(cp: nat, rest: seq<byte>)
    requires IsScalar(cp)
    ensures Scalar(Encoded(cp) + rest) == |Encoded(cp)| > 0
  {
    if cp < 0x800 {
    } else if cp < 0x1_0000 {
      TakesThree(cp, rest);
    } else {
      TakesFour(cp, rest);
    }
  }

  lemma TakesThree(cp: nat, rest: seq<byte>)
    requires IsScalar(cp) && 0x800 <= cp < 0x1_0000
    ensures Scalar(Encoded(cp) + rest) == 3
  {
    var top, mid := cp / 0x1000, cp / 0x40 % 0x40;
    assert cp / 0x40 == 0x40 * top + mid;
    var b := Encoded(cp) + rest;
    assert b[0] == 0xE0 + top && b[1] == 0x80 + mid && Cont(b[1]) && Cont(b[2]);
  }

  lemma TakesFour(cp: nat, rest: seq<byte>)
    requires 0x1_0000 <= cp < 0x11_0000
    ensures Scalar(Encoded(cp) + rest) == 4
  {
    var top, high := cp / 0x4_0000, cp / 0x1000 % 0x40;
    assert cp / 0x1000 == 0x40 * top + high;
    var b := Encoded(cp) + rest;
    assert b[0] == 0xF0 + top && b[1] == 0x80 + high && Cont(b[1]) && Cont(b[2]) && Cont(b[3]);
  }

  lemma TwoParts(x: nat, y: nat)
    requires y < 0x40
    ensures (x * 0x40 + y) / 0x40 == x && (x * 0x40 + y) % 0x40 == y
  {
  }

  /** What the check takes is the bytes of some scalar value. */
  lemma OnlyScalars(b: seq<byte>) returns (cp: nat)
    requires Scalar(b) > 0
    ensures IsScalar(cp) && b[..Scalar(b)] == Encoded(cp)
  {
    if Scalar(b) == 1 {
      cp := b[0];
    } else if Scalar(b) == 2 {
      var x: nat, y: nat := b[0] - 0xC0, b[1] - 0x80;
      cp := x * 0x40 + y;
      TwoParts(x, y);
    } else if Scalar(b) == 3 {
      cp := OnlyThree(b);
    } else {
      cp := OnlyFour(b);
    }
  }

  lemma OnlyThree(b: seq<byte>) returns (cp: nat)
    requires Scalar(b) == 3
    ensures IsScalar(cp) && b[..3] == Encoded(cp)
  {
    var x: nat, y: nat, z: nat := b[0] - 0xE0, b[1] - 0x80, b[2] - 0x80;
    cp := (x * 0x40 + y) * 0x40 + z;
    TwoParts(x * 0x40 + y, z);
    TwoParts(x, y);
    assert cp / 0x1000 == x;
  }

  lemma OnlyFour(b: seq<byte>) returns (cp: nat)
    requires Scalar(b) == 4
    ensures IsScalar(cp) && b[..4] == Encoded(cp)
  {
    var x: nat, y: nat, z: nat, u: nat := b[0] - 0xF0, b[1] - 0x80, b[2] - 0x80, b[3] - 0x80;
    cp := ((x * 0x40 + y) * 0x40 + z) * 0x40 + u;
    TwoParts((x * 0x40 + y) * 0x40 + z, u);
    TwoParts(x * 0x40 + y, z);
    TwoParts(x, y);
    assert cp / 0x1000 == x * 0x40 + y && cp / 0x4_0000 == x;
  }

  lemma {:induction false} EncodedIsUtf8(cps: seq<nat>)
    requires AllScalars(cps)
    ensures Utf8(EncodedAll(cps))
  {
    hide Encoded, Scalar, IsScalar;
    if cps != [] {
      assert IsScalar(cps[0]);
      var rest := EncodedAll(cps[1..]);
      TakesScalar(cps[0], rest);
      EncodedIsUtf8(cps[1..]);
      assert (Encoded(cps[0]) + rest)[|Encoded(cps[0])|..] == rest;
    }
  }

  lemma {:induction false} Utf8IsEncoded(b: seq<byte>) returns (cps: seq<nat>)
    requires Utf8(b)
    ensures AllScalars(cps) && b == EncodedAll(cps)
  {
    hide Encoded, Scalar;
    if b == [] {
      cps := [];
    } else {
      var cp := OnlyScalars(b);
      var rest := Utf8IsEncoded(b[Scalar(b)..]);
      cps := [cp] + rest;
      assert cps[1..] == rest;
      assert b == b[..Scalar(b)] + b[Scalar(b)..];
    }
  }

  /** Bytes are accepted as text exactly when they are the encoding of a sequence of scalar values. */
  lemma Utf8Iff(b: seq<byte>)
    ensures Utf8(b) <==> exists cps :: AllScalars(cps) && b == EncodedAll(cps)
  {
    if Utf8(b) {
      var cps := Utf8IsEncoded(b);
    }
    if cps :| AllScalars(cps) && b == EncodedAll(cps) {
      EncodedIsUtf8(cps);
    }
  }
}
