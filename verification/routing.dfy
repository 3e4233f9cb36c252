/** Routing tensors into bundles by name. */
module Routing {
  import opened Bytes
  import opened Gguf
  import opened Bundles

  predicate GoodKind(k: Kind) {
    k.Block? ==> k.n < U32
  }

  /** Bundles are ordered: the embedding, the blocks by number, the head. */
  function Rank(k: Kind): nat {
    match k
    case Embed => 0
    case Block(n) => 1 + n
    case Head => 1 + U32
  }

  /** Add a kind to a sorted list of kinds, unless it is there. */
  function AddKind(order: seq<Kind>, k: Kind): (r: seq<Kind>)
    ensures forall x :: x in r ==> x in order || x == k
  {
    if order == [] || Rank(k) < Rank(order[0]) then [k] + order
    else if Rank(k) == Rank(order[0]) then order
    else [order[0]] + AddKind(order[1..], k)
  }

  /** The kinds of the first `n` tensors, in order. */
  function KindOrder(kinds: seq<Kind>, n: nat): seq<Kind>
    requires n <= |kinds|
  {
    if n == 0 then [] else AddKind(KindOrder(kinds, n - 1), kinds[n - 1])
  }

  ghost predicate Ranked(order: seq<Kind>) {
    forall g, h | 0 <= g < h < |order| :: Rank(order[g]) < Rank(order[h])
  }

  ghost predicate GoodKinds(kinds: seq<Kind>) {
    forall i | 0 <= i < |kinds| :: GoodKind(kinds[i])
  }

  lemma SameRank(a: Kind, b: Kind)
    requires GoodKind(a) && GoodKind(b) && Rank(a) == Rank(b)
    ensures a == b
  {
  }

  lemma {:induction false} AddHolds(order: seq<Kind>, k: Kind, x: Kind)
    requires GoodKind(k) && GoodKinds(order)
    ensures x in AddKind(order, k) <==> x in order || x == k
    ensures GoodKinds(AddKind(order, k))
  {
    if order != [] {
      assert order == [order[0]] + order[1..];
      if Rank(k) > Rank(order[0]) {
        AddHolds(order[1..], k, x);
      } else if Rank(k) == Rank(order[0]) {
        SameRank(k, order[0]);
      }
    }
  }

  lemma {:induction false} AddRanked(order: seq<Kind>, k: Kind)
    requires Ranked(order)
    ensures Ranked(AddKind(order, k))
  {
    if order != [] && Rank(k) > Rank(order[0]) {
      AddRanked(order[1..], k);
      var r := AddKind(order[1..], k);
      forall h | 0 <= h < |r|
        ensures Rank(order[0]) < Rank(r[h])
      {
        assert r[h] in r;
      }
    }
  }

  /** The list of kinds is sorted, without repetition. */
  lemma {:induction false} KindOrderRanked(kinds: seq<Kind>, n: nat)
    requires n <= |kinds|
    ensures Ranked(KindOrder(kinds, n))
  {
    hide AddKind, Ranked;
    if n > 0 {
      KindOrderRanked(kinds, n - 1);
      AddRanked(KindOrder(kinds, n - 1), kinds[n - 1]);
    } else {
      NoneRanked();
    }
  }

  lemma NoneRanked()
    ensures Ranked([])
  {
  }

  /** And it holds exactly the kinds that occur. */
  lemma {:induction false} KindOrderLists(kinds: seq<Kind>, n: nat, x: Kind)
    requires n <= |kinds| && GoodKinds(kinds)
    ensures x in KindOrder(kinds, n) <==> x in kinds[..n]
    ensures GoodKinds(KindOrder(kinds, n))
  {
    hide AddKind;
    if n > 0 {
      KindOrderLists(kinds, n - 1, x);
      AddHolds(KindOrder(kinds, n - 1), kinds[n - 1], x);
      assert kinds[..n] == kinds[..n - 1] + [kinds[n - 1]];
    }
  }

  /** The indices below `n` whose tensor is of this kind, in order. */
  function Matching(kinds: seq<Kind>, kind: Kind, n: nat): (r: seq<nat>)
    requires n <= |kinds|
    ensures forall w | 0 <= w < |r| :: r[w] < n
  {
    if n == 0 then []
    else Matching(kinds, kind, n - 1) + if kinds[n - 1] == kind then [n - 1] else []
  }

  lemma MatchingStep(kinds: seq<Kind>, kind: Kind, n: nat)
    requires n <= |kinds|
    ensures Matching(kinds, kind, 0) == []
    ensures n > 0 ==> Matching(kinds, kind, n) ==
                      if kinds[n - 1] == kind then Matching(kinds, kind, n - 1) + [n - 1] else Matching(kinds, kind, n - 1)
  {
  }

  lemma PushCounts(a: seq<nat>, x: nat, i: nat)
    ensures multiset(a + [x])[i] == multiset(a)[i] + if i == x then 1 else 0
  {
  }

  /** A tensor belongs to its own kind's bundle, once, and to no other. */
  lemma {:induction false} MatchingCounts(kinds: seq<Kind>, kind: Kind, n: nat, i: nat)
    requires n <= |kinds|
    ensures multiset(Matching(kinds, kind, n))[i] == if i < n && kinds[i] == kind then 1 else 0
  {
    hide Matching;
    MatchingStep(kinds, kind, n);
    if n > 0 {
      MatchingCounts(kinds, kind, n - 1, i);
      PushCounts(Matching(kinds, kind, n - 1), n - 1, i);
    }
  }

  function KindsOf(ts: seq<Tensor>): (kinds: seq<Kind>)
    ensures |kinds| == |ts|
  {
    seq(|ts|, i requires 0 <= i < |ts| => Classify(ts[i].name))
  }

  lemma KindsAreGood(ts: seq<Tensor>)
    ensures GoodKinds(KindsOf(ts))
  {
  }

  /** The table of groups once the first `n` tensors are routed. */
  ghost predicate Routed(kinds: seq<Kind>, order: seq<Kind>, groups: map<Kind, seq<nat>>, n: nat)
    requires n <= |kinds|
  {
    && order == KindOrder(kinds, n)
    && (forall k :: k in order <==> k in groups)
    && forall k: Kind :: Matching(kinds, k, n) == if k in groups then groups[k] else []
  }

  lemma RouteOneKind(kinds: seq<Kind>, order: seq<Kind>, groups: map<Kind, seq<nat>>, i: nat, x: Kind)
    requires i < |kinds| && GoodKinds(kinds) && Routed(kinds, order, groups, i)
    ensures var k := kinds[i];
            var groups' := groups[k := (if k in groups then groups[k] else []) + [i]];
            && (x in AddKind(order, k) <==> x in groups')
            && Matching(kinds, x, i + 1) == if x in groups' then groups'[x] else []
  {
    hide AddKind, KindOrder;
    KindOrderLists(kinds, i, x);
    AddHolds(order, kinds[i], x);
    assert Matching(kinds, x, i) == if x in groups then groups[x] else [];
  }

  lemma RouteOne(kinds: seq<Kind>, order: seq<Kind>, groups: map<Kind, seq<nat>>, i: nat)
    requires i < |kinds| && GoodKinds(kinds) && Routed(kinds, order, groups, i)
    ensures var k := kinds[i];
            Routed(kinds, AddKind(order, k), groups[k := (if k in groups then groups[k] else []) + [i]], i + 1)
  {
    hide AddKind, KindOrder, Matching;
    var k := kinds[i];
    var groups' := groups[k := (if k in groups then groups[k] else []) + [i]];
    NextOrder(kinds, i);
    forall x
      ensures x in AddKind(order, k) <==> x in groups'
      ensures Matching(kinds, x, i + 1) == if x in groups' then groups'[x] else []
    {
      RouteOneKind(kinds, order, groups, i, x);
    }
  }

  lemma NextOrder(kinds: seq<Kind>, i: nat)
    requires i < |kinds|
    ensures KindOrder(kinds, i + 1) == AddKind(KindOrder(kinds, i), kinds[i])
  {
  }

  /** `m` is the largest block number among the first `n` kinds, -1 if there is none. */
  ghost predicate LargestBlock(kinds: seq<Kind>, n: nat, m: int)
    requires n <= |kinds|
  {
    && m >= -1
    && (forall i | 0 <= i < n && kinds[i].Block? :: kinds[i].n <= m)
    && (m >= 0 ==> exists i | 0 <= i < n :: kinds[i].Block? && kinds[i].n == m)
  }

  /** Route every tensor, by name, into the sorted table of groups. */
  method RouteTensors(ts: seq<Tensor>) returns (order: seq<Kind>, groups: map<Kind, seq<nat>>, maxBlock: int)
    ensures Routed(KindsOf(ts), order, groups, |ts|)
    ensures LargestBlock(KindsOf(ts), |ts|, maxBlock)
  {
    hide Classify, AddKind, Routed;
    order, groups, maxBlock := [], map[], -1;
    ghost var kinds := KindsOf(ts);
    KindsAreGood(ts);
    NoneRouted(kinds);
    for i := 0 to |ts|
      invariant Routed(kinds, order, groups, i) && LargestBlock(kinds, i, maxBlock)
    {
      var kind := Classify(ts[i].name);
      if kind.Block? && kind.n > maxBlock {
        maxBlock := kind.n;
      }
      RouteOne(kinds, order, groups, i);
      order := AddKind(order, kind);
      groups := groups[kind := (if kind in groups then groups[kind] else []) + [i]];
    }
  }

  lemma NoneRouted(kinds: seq<Kind>)
    ensures Routed(kinds, [], map[], 0)
  {
  }
}
