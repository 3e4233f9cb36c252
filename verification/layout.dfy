/** The container byte by byte: sizes, caps, and one small file written out. */
module Layouts {
  import opened Results
  import opened Bytes
  import opened Gguf
  import opened Printing
  import opened Regions
  import opened Chunker

  /** Bytes per value of each type: integers of one, two and four bytes, a four-byte float, a boolean, string
      and array without a size, then the eight-byte types. */
  lemma ScalarSizes(ty: nat)
    requires ty <= 12 && ty != 8 && ty != 9
    ensures ScalarSize(ty) == [1, 1, 2, 2, 4, 4, 4, 1, 0, 0, 8, 8, 8][ty]
  {
  }

  /** Strings as they stand in an array, each behind its own length. */
  function Strings(items: seq<seq<byte>>): seq<byte> {
    if items == [] then [] else Le(8, |items[0]|) + items[0] + Strings(items[1..])
  }

  lemma OneString(length: seq<byte>, item: seq<byte>, more: seq<byte>)
    requires |length| == 8 && Val(length) == |item|
    ensures StringLen(length + item + more) == Ok(8 + |item|) && (length + item + more)[8 + |item|..] == more
  {
    hide Val;
    assert (length + item + more)[..8] == length;
  }

  lemma {:induction false} StringsAre(items: seq<seq<byte>>, rest: seq<byte>)
    requires forall i | 0 <= i < |items| :: |items[i]| < U64
    ensures StringsLen(Strings(items) + rest, |items|) == Ok(|Strings(items)|)
  {
    hide Le, Val, StringLen;
    if items != [] {
      var item, more := items[0], Strings(items[1..]) + rest;
      ReadsBack(|item|);
      OneString(Le(8, |item|), item, more);
      assert Strings(items) + rest == Le(8, |item|) + item + more;
      StringsAre(items[1..], rest);
    }
  }

  /** An array of strings takes its type, its count and its strings; an array of arrays is refused. */
  lemma StringArray(items: seq<seq<byte>>, rest: seq<byte>)
    requires |items| < U64 && forall i | 0 <= i < |items| :: |items[i]| < U64
    ensures ArrayLen([8, 0, 0, 0] + Le(8, |items|) + Strings(items) + rest) == Ok(12 + |Strings(items)|)
    ensures ArrayLen([9, 0, 0, 0] + Le(8, |items|) + rest) == Err(NestedArray)
  {
    hide Le, Val, StringsLen, Strings;
    ReadsBack(|items|);
    StringsAre(items, rest);
    LittleEndian([8, 0, 0, 0]);
    LittleEndian([9, 0, 0, 0]);
    var b, nested := [8, 0, 0, 0] + Le(8, |items|) + Strings(items) + rest, [9, 0, 0, 0] + Le(8, |items|) + rest;
    assert b[..4] == [8, 0, 0, 0] && b[4..12] == Le(8, |items|) && b[12..] == Strings(items) + rest;
    assert nested[..4] == [9, 0, 0, 0];
  }

  /** What any file that parses starts with: the magic, version 3, at most 2^20 tensors and 2^16 entries. */
  lemma StartsLike(b: seq<byte>)
    requires ParseHeader(b).Ok?
    ensures |b| >= 24 && b[..4] == [71, 71, 85, 70] && Val(b[4..8]) == 3
    ensures |ParseHeader(b).value.tensors| == Val(b[8..16]) <= 1048576
    ensures |ParseHeader(b).value.kvs| == Val(b[16..24]) <= 65536
  {
    hide ParseKvs, ParseTensors, Val;
  }

  /** Counts over the caps, a wrong version or magic, and a short front are told apart. */
  lemma RefusesFront(b: seq<byte>)
    ensures |b| < 4 ==> ParseHeader(b) == Err(Short)
    ensures |b| >= 4 && b[..4] != [71, 71, 85, 70] ==> ParseHeader(b) == Err(BadMagic)
    ensures |b| >= 8 && b[..4] == [71, 71, 85, 70] && Val(b[4..8]) != 3 ==> ParseHeader(b) == Err(BadVersion)
    ensures |b| >= 24 && b[..4] == [71, 71, 85, 70] && Val(b[4..8]) == 3 && Val(b[8..16]) > 1048576 ==>
      ParseHeader(b) == Err(TooManyTensors)
    ensures |b| >= 24 && b[..4] == [71, 71, 85, 70] && Val(b[4..8]) == 3 && Val(b[8..16]) <= 1048576 && Val(b[16..24]) > 65536 ==>
      ParseHeader(b) == Err(TooManyKvs)
  {
    hide ParseKvs, ParseTensors, Val;
  }

  // ---------- a small file ----------

  /** One entry and one tensor announced. */
  const FRONT: seq<byte> := [71, 71, 85, 70] + [3, 0, 0, 0] + [1, 0, 0, 0, 0, 0, 0, 0] + [1, 0, 0, 0, 0, 0, 0, 0]

  /** The entry `a`, a 32-bit 7. */
  const ENTRY: seq<byte> := [1, 0, 0, 0, 0, 0, 0, 0] + [97] + [4, 0, 0, 0] + [7, 0, 0, 0]

  /** The tensor `t` of 3 by 5 values of type 10, 32 bytes into the data. */
  const INDEX: seq<byte> :=
    [1, 0, 0, 0, 0, 0, 0, 0] + [116] + [2, 0, 0, 0] + ([3, 0, 0, 0, 0, 0, 0, 0] + [5, 0, 0, 0, 0, 0, 0, 0])
    + [10, 0, 0, 0] + [32, 0, 0, 0, 0, 0, 0, 0]

  lemma Small8(n: byte)
    ensures Le(8, n) == [n, 0, 0, 0, 0, 0, 0, 0]
  {
    assert Le(7, 0) == [0] + Le(6, 0) && Le(6, 0) == [0] + Le(5, 0) && Le(5, 0) == [0] + Le(4, 0);
    Small4(0);
  }

  lemma Small4(n: byte)
    ensures Le(4, n) == [n, 0, 0, 0]
  {
    assert Le(3, 0) == [0] + Le(2, 0) && Le(2, 0) == [0] + Le(1, 0) && Le(1, 0) == [0];
  }

  lemma EntryBytes()
    ensures EncodeKvs([Kv([97], 4, [7, 0, 0, 0])]) == ENTRY
  {
    hide Le;
    Small8(1);
    Small4(4);
    var kv := Kv([97], 4, [7, 0, 0, 0]);
    assert EncodeKvs([kv][1..]) == [];
    assert EncodeKvs([kv]) == EncodeKv(kv) + EncodeKvs([kv][1..]);
  }

  lemma IndexBytes()
    ensures EncodeTensors([Tensor([116], [3, 5], 10, 32)]) == INDEX
  {
    hide Le;
    Small8(1);
    Small4(2);
    Small8(3);
    Small8(5);
    Small4(10);
    Small8(32);
    var t := Tensor([116], [3, 5], 10, 32);
    assert EncodeShape([5]) == Le(8, 5) + EncodeShape([5][1..]) && [5][1..] == [];
    assert EncodeShape([3, 5]) == Le(8, 3) + EncodeShape([3, 5][1..]) && [3, 5][1..] == [5];
    assert EncodeTensors([t][1..]) == [];
    assert EncodeTensors([t]) == EncodeTensor(t) + EncodeTensors([t][1..]);
  }

  lemma FrontBytes()
    ensures MAGIC + Le(4, VERSION) + Le(8, 1) + Le(8, 1) == FRONT
  {
    hide Le;
    Small4(3);
    Small8(1);
  }

  lemma OneLetter(x: byte)
    requires x < 0x80
    ensures GoodText([x])
  {
    AsciiPrefix([x], []);
    assert [x] + [] == [x];
  }

  /** The small file parses, whatever follows it, and its tensor is what follows from byte 128 on: the data
      region starts at the next multiple of 32 behind the 82 bytes of the header. */
  lemma SmallFile(rest: seq<byte>)
    ensures var h := Header([Kv([97], 4, [7, 0, 0, 0])], [Tensor([116], [3, 5], 10, 32)], 41, 82);
            && ParseHeader(FRONT + ENTRY + INDEX + rest) == Ok(h) && DataStart(h) == 96
  {
    hide Le, ParseHeader, EncodeKvs, EncodeTensors, GoodText;
    var kvs, ts := [Kv([97], 4, [7, 0, 0, 0])], [Tensor([116], [3, 5], 10, 32)];
    EntryBytes();
    IndexBytes();
    FrontBytes();
    OneLetter(97);
    OneLetter(116);
    assert |ENTRY| == 17 && |INDEX| == 41 && |FRONT| == 24;
    assert EncodeHeader(kvs, ts) == FRONT + ENTRY + INDEX;
    HeaderParses(kvs, ts, rest);
    assert kvs[..0] == [];
  }

  /** Its only tensor takes the rest of the file. */
  lemma SmallFileData(rest: seq<byte>, data: seq<byte>)
    requires |rest| < U32
    ensures var h := Header([Kv([97], 4, [7, 0, 0, 0])], [Tensor([116], [3, 5], 10, 32)], 41, 82);
            TensorData(FRONT + ENTRY + INDEX + rest, h, [data]) <==> |rest| >= 46 && data == rest[46..]
  {
    hide FRONT, ENTRY, INDEX, Derived;
    SmallFile(rest);
    SmallSizes();
    var h := Header([Kv([97], 4, [7, 0, 0, 0])], [Tensor([116], [3, 5], 10, 32)], 41, 82);
    var head := FRONT + ENTRY + INDEX;
    assert OffsetsOf(h.tensors) == [32] && Lengths([data]) == [|data|];
    BehindHead(head, rest, data);
    if 96 <= |head + rest| {
      OnlyOffset(32, |data|, |head + rest| - 96);
    }
    assert [data][0] == data && h.tensors[0].offset == 32;
  }

  lemma SmallSizes()
    ensures |FRONT| == 24 && |ENTRY| == 17 && |INDEX| == 41
  {
  }

  /** A slice from byte 128 on that has the size of everything behind it is everything behind it. */
  lemma BehindHead(head: seq<byte>, rest: seq<byte>, data: seq<byte>)
    requires |head| == 82 && |rest| < U32
    ensures CutStart(96, 32) == 128
    ensures 96 <= |head + rest| && |data| == Sub64(|head + rest| - 96, 32) && IsSlice(head + rest, 128, data)
            <==> |rest| >= 46 && data == rest[46..]
  {
    var file := head + rest;
    var d: int := |file| - 96 - 32;
    if d >= 0 {
      assert file[128..] == rest[46..];
    } else {
      assert d % U64 == d + U64;
    }
  }

  lemma OnlyOffset(offset: nat, size: nat, end: nat)
    ensures Derived([offset], [size], end) <==> size == Sub64(end, offset)
  {
    hide Sub64;
    OrderOfSorted([offset], 1);
    assert Order([offset], 1) == [0];
  }
}
