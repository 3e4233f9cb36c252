/** Tensor sizes: the index holds only offsets, so each tensor runs to the next offset in the file. */
module Regions {
  import opened Results
  import opened Bytes
  import opened Gguf
  import opened Reader

  // ---------- a stable sort of indices ----------

  /** Insert `i` behind every index whose key is not larger. */
  function Insert(keys: seq<nat>, order: seq<nat>, i: nat): (r: seq<nat>)
    requires i < |keys| && forall w | 0 <= w < |order| :: order[w] < |keys|
    ensures |r| == |order| + 1 && forall w | 0 <= w < |r| :: r[w] < |keys|
    ensures multiset(r) == multiset(order) + multiset{i}
  {
    if order == [] || keys[order[|order| - 1]] <= keys[i] then order + [i]
    else
      assert order == order[..|order| - 1] + [order[|order| - 1]];
      Insert(keys, order[..|order| - 1], i) + [order[|order| - 1]]
  }

  /** The first `n` indices, stably sorted by key. */
  function Order(keys: seq<nat>, n: nat): (r: seq<nat>)
    requires n <= |keys|
    ensures |r| == n && forall w | 0 <= w < n :: r[w] < |keys|
  {
    if n == 0 then [] else Insert(keys, Order(keys, n - 1), n - 1)
  }

  ghost predicate SortedBy(keys: seq<nat>, order: seq<nat>)
    requires forall w | 0 <= w < |order| :: order[w] < |keys|
  {
    forall v, w | 0 <= v < w < |order| :: keys[order[v]] <= keys[order[w]]
  }

  lemma {:induction false} InsertHolds(keys: seq<nat>, order: seq<nat>, i: nat, w: nat)
    requires i < |keys| && (forall v | 0 <= v < |order| :: order[v] < |keys|) && w <= |order|
    ensures Insert(keys, order, i)[w] == i || Insert(keys, order, i)[w] in order
  {
    if order != [] && keys[order[|order| - 1]] > keys[i] && w < |order| {
      InsertHolds(keys, order[..|order| - 1], i, w);
    }
  }

  lemma {:induction false} InsertSorted(keys: seq<nat>, order: seq<nat>, i: nat)
    requires i < |keys| && (forall w | 0 <= w < |order| :: order[w] < |keys|) && SortedBy(keys, order)
    ensures SortedBy(keys, Insert(keys, order, i))
  {
    if order != [] && keys[order[|order| - 1]] > keys[i] {
      var init, last := order[..|order| - 1], order[|order| - 1];
      InsertSorted(keys, init, i);
      var r := Insert(keys, init, i);
      forall w | 0 <= w < |r|
        ensures keys[r[w]] <= keys[last]
      {
        InsertHolds(keys, init, i, w);
      }
      PushSorted(keys, r, last);
    }
  }

  lemma PushSorted(keys: seq<nat>, order: seq<nat>, last: nat)
    requires last < |keys| && (forall w | 0 <= w < |order| :: order[w] < |keys|) && SortedBy(keys, order)
    requires forall w | 0 <= w < |order| :: keys[order[w]] <= keys[last]
    ensures SortedBy(keys, order + [last])
  {
  }

  /** The sort sorts. */
  lemma {:induction false} OrderSorted(keys: seq<nat>, n: nat)
    requires n <= |keys|
    ensures SortedBy(keys, Order(keys, n))
  {
    hide Insert, SortedBy;
    if n == 0 {
      EmptySorted(keys, Order(keys, n));
    } else {
      OrderSorted(keys, n - 1);
      OneMoreSorted(keys, n);
    }
  }

  lemma OneMoreSorted(keys: seq<nat>, n: nat)
    requires 0 < n <= |keys| && SortedBy(keys, Order(keys, n - 1))
    ensures SortedBy(keys, Order(keys, n))
  {
    hide Insert, SortedBy;
    InsertSorted(keys, Order(keys, n - 1), n - 1);
  }

  lemma EmptySorted(keys: seq<nat>, order: seq<nat>)
    requires order == []
    ensures SortedBy(keys, order)
  {
  }

  /** The sort is a permutation: every index turns up once. */
  lemma {:induction false} OrderCounts(keys: seq<nat>, n: nat, i: nat)
    requires n <= |keys|
    ensures multiset(Order(keys, n))[i] == if i < n then 1 else 0
  {
    hide Insert;
    if n > 0 {
      OrderCounts(keys, n - 1, i);
    }
  }

  /** Keys already in order stay as they are, equal keys included. */
  lemma {:induction false} OrderOfSorted(keys: seq<nat>, n: nat)
    requires n <= |keys| && forall v, w | 0 <= v < w < |keys| :: keys[v] <= keys[w]
    ensures Order(keys, n) == seq(n, i => i)
  {
    hide Insert;
    if n > 0 {
      OrderOfSorted(keys, n - 1);
      assert n > 1 ==> keys[n - 2] <= keys[n - 1];
      InsertLast(keys, seq(n - 1, i => i), n - 1);
      assert seq(n, i => i) == seq(n - 1, i => i) + [n - 1];
    }
  }

  lemma InsertLast(keys: seq<nat>, order: seq<nat>, i: nat)
    requires i < |keys| && forall w | 0 <= w < |order| :: order[w] < |keys|
    requires order != [] ==> keys[order[|order| - 1]] <= keys[i]
    ensures Insert(keys, order, i) == order + [i]
  {
  }

  // ---------- sizes ----------

  /** 64-bit subtraction, wrapping below zero. */
  function Sub64(a: nat, b: nat): nat {
    var d: int := a - b;
    d % U64
  }

  /** Where the tensor at sorted position `w` ends: at the next offset, the last one at `end`. */
  function NextOffset(offsets: seq<nat>, order: seq<nat>, end: nat, w: nat): nat
    requires w < |order| && forall v | 0 <= v < |order| :: order[v] < |offsets|
  {
    if w + 1 < |order| then offsets[order[w + 1]] else end
  }

  /** `sizes` are the sizes derived from the offsets. */
  ghost predicate Derived(offsets: seq<nat>, sizes: seq<nat>, end: nat)
  {
    var order := Order(offsets, |offsets|);
    && |sizes| == |offsets|
    && forall w | 0 <= w < |order| :: sizes[order[w]] == Sub64(NextOffset(offsets, order, end, w), offsets[order[w]])
  }

  function OffsetsOf(ts: seq<Tensor>): (offsets: seq<nat>)
    ensures |offsets| == |ts|
  {
    seq(|ts|, i requires 0 <= i < |ts| => ts[i].offset)
  }

  method SortIndices(offsets: seq<nat>) returns (order: seq<nat>)
    ensures order == Order(offsets, |offsets|)
  {
    order := [];
    for i := 0 to |offsets|
      invariant order == Order(offsets, i)
    {
      order := Insert(offsets, order, i);
    }
  }

  lemma CountTwice(o: seq<nat>, v: nat, w: nat)
    requires v < w < |o|
    ensures multiset(o)[o[w]] >= if o[v] == o[w] then 2 else 1
  {
    assert o == o[..w] + [o[w]] + o[w + 1..];
    assert multiset(o) == multiset(o[..w]) + multiset{o[w]} + multiset(o[w + 1..]);
    assert o[..w][v] in multiset(o[..w]);
  }

  lemma OrderOnce(keys: seq<nat>, v: nat, w: nat)
    requires v < w < |keys|
    ensures Order(keys, |keys|)[v] != Order(keys, |keys|)[w]
  {
    OrderCounts(keys, |keys|, Order(keys, |keys|)[w]);
    CountTwice(Order(keys, |keys|), v, w);
  }

  /** Size every tensor in offset order. */
  method DeriveSizes(offsets: seq<nat>, end: nat) returns (sizes: seq<nat>)
    ensures Derived(offsets, sizes, end)
  {
    hide Order, Sub64;
    var order := SortIndices(offsets);
    sizes := seq(|offsets|, i => 0);
    for w := 0 to |order|
      invariant |sizes| == |offsets|
      invariant forall v | 0 <= v < w :: sizes[order[v]] == Sub64(NextOffset(offsets, order, end, v), offsets[order[v]])
    {
      forall v | 0 <= v < w
        ensures order[v] != order[w]
      {
        OrderOnce(offsets, v, w);
      }
      var next := if w + 1 < |order| then offsets[order[w + 1]] else end;
      sizes := sizes[order[w] := Sub64(next, offsets[order[w]])];
    }
  }

  /** The tensor index of an open file, and the derived sizes. */
  method Tensors(f: File, ghost h: Header) returns (r: Parse<(seq<Tensor>, seq<nat>)>)
    requires IsOpen(f, h)
    ensures r.Ok? && r.value.0 == h.tensors
    ensures Derived(OffsetsOf(h.tensors), r.value.1, Sub64(|f.bytes|, f.dataOffset))
  {
    hide ParseKvs, ParseTensors, Derived, ParseCounts;
    var p := new Cursor(f.bytes, f.kvEnd);
    var ts := WalkTensors(p, f.nTensors);
    var sizes := DeriveSizes(OffsetsOf(ts.value), Sub64(|f.bytes|, f.dataOffset));
    return Ok((ts.value, sizes));
  }

  predicate IsSlice(bytes: seq<byte>, from: nat, slice: seq<byte>) {
    from + |slice| <= |bytes| && bytes[from..from + |slice|] == slice
  }

  /** Where a tensor's cut starts and ends, in wrapping 64-bit arithmetic. */
  function CutStart(dataOffset: nat, offset: nat): (r: nat)
    ensures r < U64
  {
    (dataOffset + offset) % U64
  }

  function CutEnd(dataOffset: nat, offset: nat, size: nat): (r: nat)
    ensures r < U64
  {
    (CutStart(dataOffset, offset) + size) % U64
  }

  /** The cut is one: it ends behind its start and inside the file. Any other aborts the program. */
  predicate CutFits(dataOffset: nat, offset: nat, size: nat, len: nat) {
    CutStart(dataOffset, offset) <= CutEnd(dataOffset, offset, size) <= len
  }

  lemma ModOnce(x: nat)
    requires x < 2 * U64
    ensures x % U64 == if x < U64 then x else x - U64
  {
  }

  /** The size of a cut that fits is the length of what it gives. */
  lemma CutLength(dataOffset: nat, offset: nat, size: nat, len: nat)
    requires size < U64 && CutFits(dataOffset, offset, size, len)
    ensures CutEnd(dataOffset, offset, size) == CutStart(dataOffset, offset) + size
  {
    ModOnce(CutStart(dataOffset, offset) + size);
  }

  /** The bytes of a tensor. */
  function TensorBytes(f: File, offset: nat, size: nat): (r: seq<byte>)
    requires size < U64 && CutFits(f.dataOffset, offset, size, |f.bytes|)
    ensures |r| == size && IsSlice(f.bytes, CutStart(f.dataOffset, offset), r)
  {
    CutLength(f.dataOffset, offset, size, |f.bytes|);
    f.bytes[CutStart(f.dataOffset, offset)..CutEnd(f.dataOffset, offset, size)]
  }

  // ---------- the sizes tile the data region ----------

  function SumOf(sizes: seq<nat>, order: seq<nat>): nat
    requires forall w | 0 <= w < |order| :: order[w] < |sizes|
  {
    if order == [] then 0 else SumOf(sizes, order[..|order| - 1]) + sizes[order[|order| - 1]]
  }

  function Sum(sizes: seq<nat>): nat {
    if sizes == [] then 0 else Sum(sizes[..|sizes| - 1]) + sizes[|sizes| - 1]
  }

  lemma {:induction false} SumInsert(keys: seq<nat>, sizes: seq<nat>, order: seq<nat>, i: nat)
    requires |sizes| == |keys| && i < |keys| && forall w | 0 <= w < |order| :: order[w] < |keys|
    ensures SumOf(sizes, Insert(keys, order, i)) == SumOf(sizes, order) + sizes[i]
  {
    if order == [] || keys[order[|order| - 1]] <= keys[i] {
      assert (order + [i])[..|order|] == order;
    } else {
      var init, last := order[..|order| - 1], order[|order| - 1];
      SumInsert(keys, sizes, init, i);
      assert (Insert(keys, init, i) + [last])[..|order|] == Insert(keys, init, i);
    }
  }

  /** Summing in offset order is summing in index order. */
  lemma {:induction false} SumOrder(keys: seq<nat>, sizes: seq<nat>, n: nat)
    requires |sizes| == |keys| && n <= |keys|
    ensures SumOf(sizes, Order(keys, n)) == Sum(sizes[..n])
  {
    hide Insert, SumOf, Sum;
    if n > 0 {
      SumOrder(keys, sizes, n - 1);
      SumInsert(keys, sizes, Order(keys, n - 1), n - 1);
      SumLast(sizes, n);
    } else {
      NoSum(sizes);
    }
  }

  lemma SumLast(sizes: seq<nat>, n: nat)
    requires 0 < n <= |sizes|
    ensures Sum(sizes[..n]) == Sum(sizes[..n - 1]) + sizes[n - 1]
  {
    assert sizes[..n][..n - 1] == sizes[..n - 1];
  }

  lemma NoSum(sizes: seq<nat>)
    ensures SumOf(sizes, []) == 0 && Sum(sizes[..0]) == 0
  {
  }

  /** No offset lies behind the end of the data. */
  predicate Within(offsets: seq<nat>, end: nat) {
    forall i | 0 <= i < |offsets| :: offsets[i] <= end
  }

  /** The sizes along an ordering add up to the distance they span. */
  lemma {:induction false} SumTelescopes(offsets: seq<nat>, sizes: seq<nat>, order: seq<nat>, end: nat, n: nat)
    requires 0 < n <= |order| && |sizes| == |offsets| && forall w | 0 <= w < |order| :: order[w] < |offsets|
    requires forall w | 0 <= w < |order| :: offsets[order[w]] + sizes[order[w]] == NextOffset(offsets, order, end, w)
    ensures offsets[order[0]] + SumOf(sizes, order[..n]) == NextOffset(offsets, order, end, n - 1)
  {
    assert order[..n][..n - 1] == order[..n - 1];
    if n > 1 {
      SumTelescopes(offsets, sizes, order, end, n - 1);
    } else {
      assert order[..0] == [];
    }
  }

  /** Each tensor ends where the next one in offset order starts. */
  lemma EndsAtNext(offsets: seq<nat>, sizes: seq<nat>, end: nat, w: nat)
    requires Derived(offsets, sizes, end) && Within(offsets, end) && end < U64 && w < |offsets|
    ensures var order := Order(offsets, |offsets|);
            offsets[order[w]] + sizes[order[w]] == NextOffset(offsets, order, end, w)
  {
    hide Order, Sub64;
    OrderSorted(offsets, |offsets|);
    var order := Order(offsets, |offsets|);
    Sub64Exact(NextOffset(offsets, order, end, w), offsets[order[w]]);
  }

  lemma Sub64Exact(a: nat, b: nat)
    requires b <= a < U64
    ensures Sub64(a, b) == a - b
  {
  }

  /** Tensors further along the order start behind the end of earlier ones. */
  lemma Apart(offsets: seq<nat>, sizes: seq<nat>, end: nat, v: nat, w: nat)
    requires Derived(offsets, sizes, end) && Within(offsets, end) && end < U64 && v < w < |offsets|
    ensures var order := Order(offsets, |offsets|);
            offsets[order[v]] + sizes[order[v]] <= offsets[order[w]]
  {
    hide Order, Derived;
    OrderSorted(offsets, |offsets|);
    EndsAtNext(offsets, sizes, end, v);
  }

  /** In offset order the sizes add up to the length of the region. */
  lemma SizesSpan(offsets: seq<nat>, sizes: seq<nat>, end: nat)
    requires Derived(offsets, sizes, end) && Within(offsets, end) && end < U64 && offsets != []
    ensures |sizes| == |offsets| && offsets[Order(offsets, |offsets|)[0]] + Sum(sizes) == end
  {
    hide Order, Derived, SumOf, Sum, Within;
    var n, order := |offsets|, Order(offsets, |offsets|);
    OrderIndices(offsets, n);
    SameCount(offsets, sizes, end);
    forall w | 0 <= w < n
      ensures offsets[order[w]] + sizes[order[w]] == NextOffset(offsets, order, end, w)
    {
      EndsAtNext(offsets, sizes, end, w);
    }
    SumTelescopes(offsets, sizes, order, end, n);
    SumOrder(offsets, sizes, n);
    assert order[..n] == order && sizes[..n] == sizes;
  }

  lemma OrderIndices(keys: seq<nat>, n: nat)
    requires n <= |keys|
    ensures |Order(keys, n)| == n && forall w | 0 <= w < n :: Order(keys, n)[w] < |keys|
  {
  }

  /** The derived sizes tile the region behind the smallest offset, in whatever order the index lists
      the tensors: they add up to its length, and no two tensors share a byte. */
  lemma SizesTile(offsets: seq<nat>, sizes: seq<nat>, end: nat)
    requires Derived(offsets, sizes, end) && Within(offsets, end) && end < U64 && offsets != []
    ensures exists m | 0 <= m < |offsets| :: Smallest(offsets, m) && offsets[m] + Sum(sizes) == end
    ensures |sizes| == |offsets| && forall i, j | 0 <= i < |offsets| && 0 <= j < |offsets| && i != j ::
      offsets[i] + sizes[i] <= offsets[j] || offsets[j] + sizes[j] <= offsets[i]
  {
    hide Order, Derived, Sum, Within, Smallest;
    OrderIndices(offsets, |offsets|);
    SizesSpan(offsets, sizes, end);
    FirstIsSmallest(offsets);
    forall i, j | 0 <= i < |offsets| && 0 <= j < |offsets| && i != j
      ensures offsets[i] + sizes[i] <= offsets[j] || offsets[j] + sizes[j] <= offsets[i]
    {
      Disjoint(offsets, sizes, end, i, j);
    }
  }

  lemma Disjoint(offsets: seq<nat>, sizes: seq<nat>, end: nat, i: nat, j: nat)
    requires Derived(offsets, sizes, end) && Within(offsets, end) && end < U64 && i < |offsets| && j < |offsets| && i != j
    ensures |sizes| == |offsets|
    ensures offsets[i] + sizes[i] <= offsets[j] || offsets[j] + sizes[j] <= offsets[i]
  {
    hide Order, Derived, Within;
    SameCount(offsets, sizes, end);
    var v := Place(offsets, i);
    var w := Place(offsets, j);
    if v < w {
      Apart(offsets, sizes, end, v, w);
    } else {
      Apart(offsets, sizes, end, w, v);
    }
  }

  predicate Smallest(offsets: seq<nat>, m: nat)
    requires m < |offsets|
  {
    forall i | 0 <= i < |offsets| :: offsets[m] <= offsets[i]
  }

  lemma SameCount(offsets: seq<nat>, sizes: seq<nat>, end: nat)
    requires Derived(offsets, sizes, end)
    ensures |sizes| == |offsets|
  {
  }

  lemma FirstIsSmallest(offsets: seq<nat>)
    requires offsets != []
    ensures Smallest(offsets, Order(offsets, |offsets|)[0])
  {
    hide Order;
    OrderSorted(offsets, |offsets|);
    forall i | 0 <= i < |offsets|
      ensures offsets[Order(offsets, |offsets|)[0]] <= offsets[i]
    {
      var w := Place(offsets, i);
    }
  }

  /** Where the sort puts index `i`. */
  lemma Place(offsets: seq<nat>, i: nat) returns (w: nat)
    requires i < |offsets|
    ensures w < |offsets| && Order(offsets, |offsets|)[w] == i
  {
    hide Order;
    OrderCounts(offsets, |offsets|, i);
    assert i in multiset(Order(offsets, |offsets|));
    w :| 0 <= w < |offsets| && Order(offsets, |offsets|)[w] == i;
  }

  // ---------- cuts in the file ----------

  /** Every offset lands inside the file, or every offset wraps around into it. */
  predicate AllLand(offsets: seq<nat>, dataOffset: nat, len: nat) {
    forall i | 0 <= i < |offsets| :: dataOffset + offsets[i] <= len
  }

  predicate AllWrap(offsets: seq<nat>, dataOffset: nat, len: nat) {
    forall i | 0 <= i < |offsets| :: U64 <= dataOffset + offsets[i] <= U64 + len
  }

  /** A cut ends where the next one starts, the last one at the end of the file. */
  lemma CutMeets(dataOffset: nat, offset: nat, next: nat)
    requires dataOffset < U64 && offset < U64 && next < U64
    ensures CutEnd(dataOffset, offset, Sub64(next, offset)) == CutStart(dataOffset, next)
  {
    ModOnce(dataOffset + offset);
    ModOnce(dataOffset + next);
    var s, d := CutStart(dataOffset, offset), Sub64(next, offset);
    assert d == if next >= offset then next - offset else next - offset + U64;
    ModOnce(s + d);
  }

  lemma CutLast(dataOffset: nat, len: nat)
    requires dataOffset < U64 && len < U64
    ensures CutStart(dataOffset, Sub64(len, dataOffset)) == len
  {
    var d := Sub64(len, dataOffset);
    assert d == if len >= dataOffset then len - dataOffset else len - dataOffset + U64;
    ModOnce(dataOffset + d);
  }

  /** The cut of the tensor at sorted position `w`. */
  lemma CutAt(offsets: seq<nat>, sizes: seq<nat>, dataOffset: nat, len: nat, w: nat)
    requires Derived(offsets, sizes, Sub64(len, dataOffset)) && len < U64 && dataOffset < U64 && w < |offsets|
    requires forall i | 0 <= i < |offsets| :: offsets[i] < U64
    ensures var order := Order(offsets, |offsets|);
      && |sizes| == |offsets|
      && CutEnd(dataOffset, offsets[order[w]], sizes[order[w]])
         == if w + 1 < |offsets| then CutStart(dataOffset, offsets[order[w + 1]]) else len
  {
    hide Order, Sub64, CutStart, CutEnd;
    var order := Order(offsets, |offsets|);
    var next := NextOffset(offsets, order, Sub64(len, dataOffset), w);
    SubIsWord(len, dataOffset);
    CutMeets(dataOffset, offsets[order[w]], next);
    CutLast(dataOffset, len);
  }

  lemma SubIsWord(a: nat, b: nat)
    ensures Sub64(a, b) < U64
  {
  }

  /** Every tensor is cut inside the file exactly when all offsets land there, or all wrap around into it. */
  lemma CutsFitIff(offsets: seq<nat>, sizes: seq<nat>, dataOffset: nat, len: nat)
    requires Derived(offsets, sizes, Sub64(len, dataOffset)) && len < U64 && dataOffset < U64
    requires forall i | 0 <= i < |offsets| :: offsets[i] < U64
    ensures |sizes| == |offsets|
    ensures (forall i | 0 <= i < |offsets| :: CutFits(dataOffset, offsets[i], sizes[i], len))
            <==> AllLand(offsets, dataOffset, len) || AllWrap(offsets, dataOffset, len)
  {
    hide Order, Derived, CutFits, AllLand, AllWrap;
    SameCount(offsets, sizes, Sub64(len, dataOffset));
    if AllLand(offsets, dataOffset, len) || AllWrap(offsets, dataOffset, len) {
      forall i | 0 <= i < |offsets|
        ensures CutFits(dataOffset, offsets[i], sizes[i], len)
      {
        var w := Place(offsets, i);
        LandedCut(offsets, sizes, dataOffset, len, w);
      }
    }
    if (forall i | 0 <= i < |offsets| :: CutFits(dataOffset, offsets[i], sizes[i], len)) && offsets != [] {
      var order := Order(offsets, |offsets|);
      OrderIndices(offsets, |offsets|);
      forall i | 0 <= i < |offsets|
        ensures if dataOffset + offsets[order[0]] < U64 then dataOffset + offsets[i] <= len
                else U64 <= dataOffset + offsets[i] <= U64 + len
      {
        var w := Place(offsets, i);
        CutsRise(offsets, sizes, dataOffset, len, w);
      }
      Lands(offsets, dataOffset, len, order[0]);
    } else if offsets == [] {
      Lands(offsets, dataOffset, len, 0);
    }
  }

  lemma Lands(offsets: seq<nat>, dataOffset: nat, len: nat, first: nat)
    requires offsets == [] || first < |offsets|
    requires forall i | 0 <= i < |offsets| ::
      if dataOffset + offsets[first] < U64 then dataOffset + offsets[i] <= len
      else U64 <= dataOffset + offsets[i] <= U64 + len
    ensures AllLand(offsets, dataOffset, len) || AllWrap(offsets, dataOffset, len)
  {
  }

  lemma LandedCut(offsets: seq<nat>, sizes: seq<nat>, dataOffset: nat, len: nat, w: nat)
    requires Derived(offsets, sizes, Sub64(len, dataOffset)) && len < U64 && dataOffset < U64 && w < |offsets|
    requires forall i | 0 <= i < |offsets| :: offsets[i] < U64
    requires AllLand(offsets, dataOffset, len) || AllWrap(offsets, dataOffset, len)
    ensures |sizes| == |offsets|
    ensures var i := Order(offsets, |offsets|)[w]; CutFits(dataOffset, offsets[i], sizes[i], len)
  {
    hide Order, Sub64, Derived, CutEnd;
    OrderSorted(offsets, |offsets|);
    CutAt(offsets, sizes, dataOffset, len, w);
    var order := Order(offsets, |offsets|);
    ModOnce(dataOffset + offsets[order[w]]);
    if w + 1 < |offsets| {
      ModOnce(dataOffset + offsets[order[w + 1]]);
    }
  }

  /** Along cuts that fit the starts rise, from wherever the first one lands, and stay inside the file. */
  lemma {:induction false} CutsRise(offsets: seq<nat>, sizes: seq<nat>, dataOffset: nat, len: nat, w: nat)
    requires Derived(offsets, sizes, Sub64(len, dataOffset)) && len < U64 && dataOffset < U64 && w < |offsets|
    requires |sizes| == |offsets| && forall i | 0 <= i < |offsets| :: offsets[i] < U64
    requires forall i | 0 <= i < |offsets| :: CutFits(dataOffset, offsets[i], sizes[i], len)
    ensures var order := Order(offsets, |offsets|);
      && CutStart(dataOffset, offsets[order[w]]) <= len
      && if dataOffset + offsets[order[0]] < U64 then dataOffset + offsets[order[w]] <= len
         else U64 <= dataOffset + offsets[order[w]] <= U64 + len
  {
    hide Order, Sub64, Derived, CutEnd;
    OrderSorted(offsets, |offsets|);
    var order := Order(offsets, |offsets|);
    ModOnce(dataOffset + offsets[order[w]]);
    assert CutFits(dataOffset, offsets[order[w]], sizes[order[w]], len);
    if w > 0 {
      CutsRise(offsets, sizes, dataOffset, len, w - 1);
      CutAt(offsets, sizes, dataOffset, len, w - 1);
      ModOnce(dataOffset + offsets[order[w - 1]]);
      assert CutFits(dataOffset, offsets[order[w - 1]], sizes[order[w - 1]], len);
      assert offsets[order[w - 1]] <= offsets[order[w]];
    }
  }

  lemma OneOrder(offset: nat)
    ensures Order([offset], 1) == [0]
  {
    assert Order([offset], 0) == [];
  }

  /** One tensor said to start 10 bytes into a region of 5: its size wraps, and its cut ends before its start. */
  lemma PastRegion()
    ensures Derived([10], [U64 - 5], Sub64(5, 0)) && !CutFits(0, 10, U64 - 5, 5)
  {
    OneOrder(10);
    assert Sub64(5, 10) == U64 - 5;
  }

  /** One tensor said to start 2^64 - 32 bytes behind the header of a 96-byte file: its start wraps around to
      32, and the cut, half of it header, is made. */
  lemma WrappedCut()
    ensures Derived([U64 - 32], [64], Sub64(96, 64)) && CutFits(64, U64 - 32, 64, 96)
    ensures CutStart(64, U64 - 32) == 32 && CutEnd(64, U64 - 32, 64) == 96 && AllWrap([U64 - 32], 64, 96)
  {
    OneOrder(U64 - 32);
    assert Sub64(32, U64 - 32) == 64;
  }
}
