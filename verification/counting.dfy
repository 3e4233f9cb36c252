/** Counting distinct numbers. */
module Counting {

  lemma Pigeonhole(s: seq<nat>, n: nat)
    requires (forall w | 0 <= w < |s| :: s[w] < n) && forall v, w | 0 <= v < w < |s| :: s[v] != s[w]
    ensures |s| <= n
  {
    var held := set w | 0 <= w < |s| :: s[w];
    DistinctSet(s);
    SubsetSmaller(held, UpTo(n));
  }

  lemma {:induction false} DistinctSet(s: seq<nat>)
    requires forall v, w | 0 <= v < w < |s| :: s[v] != s[w]
    ensures |set w | 0 <= w < |s| :: s[w]| == |s|
  {
    if s != [] {
      var init := s[..|s| - 1];
      DistinctSet(init);
      var all, before := set w | 0 <= w < |s| :: s[w], set w | 0 <= w < |init| :: init[w];
      assert all == before + {s[|s| - 1]};
    }
  }

  ghost function UpTo(n: nat): (r: set<nat>)
    ensures |r| == n && forall i: nat :: i in r <==> i < n
  {
    if n == 0 then {} else UpTo(n - 1) + {n - 1}
  }

  lemma SubsetSmaller(a: set<nat>, b: set<nat>)
    requires a <= b
    ensures |a| <= |b|
  {
    assert b == a + (b - a);
  }
}
