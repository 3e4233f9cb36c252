/** The sampler: the repeat penalty, and nucleus sampling. Numbers are exact reals; the sorted order and the
    random number are given. */
module Samplers {
  import opened Counting

  // ---------- the repeat penalty ----------

  /** The last `n` tokens. */
  function Window(ctx: seq<nat>, n: nat): seq<nat> {
    ctx[if |ctx| > n then |ctx| - n else 0..]
  }

  function Count(ctx: seq<nat>, tok: nat): nat {
    if ctx == [] then 0 else Count(ctx[..|ctx| - 1], tok) + if ctx[|ctx| - 1] == tok then 1 else 0
  }

  /** A positive logit is divided by the penalty, a negative one multiplied. */
  function Once(v: real, penalty: real): real
    requires penalty > 0.0
  {
    if v >= 0.0 then v / penalty else v * penalty
  }

  function Times(v: real, penalty: real, k: nat): real
    requires penalty > 0.0
  {
    if k == 0 then v else Once(Times(v, penalty, k - 1), penalty)
  }

  /** Every occurrence in the window penalizes its token again; tokens outside the vocabulary are skipped. */
  method ApplyRepeatPenalty(logits: array<real>, ctx: seq<nat>, repeatCtx: nat, penalty: real)
    requires penalty > 0.0
    modifies logits
    ensures var window := if |ctx| > repeatCtx then ctx[|ctx| - repeatCtx..] else ctx;
            forall i | 0 <= i < logits.Length :: logits[i] == Times(old(logits[i]), penalty, multiset(window)[i])
  {
    hide Once;
    var window := Window(ctx, repeatCtx);
    assert window == if |ctx| > repeatCtx then ctx[|ctx| - repeatCtx..] else ctx;
    for k := 0 to |window|
      invariant forall i | 0 <= i < logits.Length :: logits[i] == Times(old(logits[i]), penalty, Count(window[..k], i))
    {
      assert window[..k + 1][..k] == window[..k];
      var i := window[k];
      if i < logits.Length {
        logits[i] := Once(logits[i], penalty);
      }
    }
    assert window[..|window|] == window;
    forall i | 0 <= i < logits.Length
      ensures Count(window, i) == multiset(window)[i]
    {
      CountIs(window, i);
    }
  }

  lemma {:induction false} CountIs(ctx: seq<nat>, tok: nat)
    ensures Count(ctx, tok) == multiset(ctx)[tok]
  {
    if ctx != [] {
      CountIs(ctx[..|ctx| - 1], tok);
      assert ctx == ctx[..|ctx| - 1] + [ctx[|ctx| - 1]];
    }
  }

  function Power(x: real, k: nat): (p: real)
    requires x > 0.0
    ensures p > 0.0
  {
    if k == 0 then 1.0
    else
      Positive(x, Power(x, k - 1));
      x * Power(x, k - 1)
  }

  /** Penalized `k` times, a logit that is not negative is divided by the `k`-th power of the penalty and a
      negative one multiplied with it. */
  lemma {:induction false} TimesIs(v: real, penalty: real, k: nat)
    requires penalty > 0.0
    ensures v >= 0.0 ==> Times(v, penalty, k) == v / Power(penalty, k)
    ensures v < 0.0 ==> Times(v, penalty, k) == v * Power(penalty, k)
  {
    if k > 0 {
      var p, before := Power(penalty, k - 1), Times(v, penalty, k - 1);
      TimesIs(v, penalty, k - 1);
      if v >= 0.0 {
        DivideTwice(v, p, penalty);
      } else {
        Positive(-v, p);
        assert v * (penalty * p) == (v * p) * penalty;
      }
    }
  }

  lemma DivideTwice(v: real, p: real, q: real)
    requires v >= 0.0 && p > 0.0 && q > 0.0
    ensures q * p > 0.0 && v / p >= 0.0 && (v / p) / q == v / (q * p)
  {
    Positive(q, p);
    var a := v / p;
    assert a * p == v;
    if a < 0.0 {
      Positive(-a, p);
      assert false;
    }
    var b := a / q;
    assert b * q == a;
    assert b * (q * p) == (b * q) * p == v;
    UniqueQuotient(b, q * p, v);
  }

  lemma UniqueQuotient(b: real, d: real, v: real)
    requires d > 0.0 && b * d == v
    ensures v / d == b
  {
    var c := v / d;
    assert c * d == v;
    assert (c - b) * d == 0.0;
    if c > b {
      Positive(c - b, d);
    } else if c < b {
      Positive(b - c, d);
    }
  }

  lemma Shrinks(v: real, penalty: real)
    requires penalty > 1.0
    ensures v > 0.0 ==> 0.0 < Once(v, penalty) < v
    ensures v < 0.0 ==> Once(v, penalty) < v
    ensures v == 0.0 ==> Once(v, penalty) == v
  {
    var more := penalty - 1.0;
    if v > 0.0 {
      var q := v / penalty;
      assert q * penalty == v && q > 0.0;
      Positive(q, more);
      assert v - q == q * more;
    } else if v < 0.0 {
      Positive(-v, more);
      assert v - v * penalty == -v * more;
    }
  }

  lemma Positive(a: real, b: real)
    requires a > 0.0 && b > 0.0
    ensures a * b > 0.0
  {
  }

  lemma {:induction false} TimesShrinks(v: real, penalty: real, k: nat)
    requires penalty > 1.0 && k > 0
    ensures v > 0.0 ==> 0.0 < Times(v, penalty, k) < v
    ensures v < 0.0 ==> Times(v, penalty, k) < v
    ensures v == 0.0 ==> Times(v, penalty, k) == v
  {
    hide Once;
    Shrinks(Times(v, penalty, k - 1), penalty);
    if k > 1 {
      TimesShrinks(v, penalty, k - 1);
    }
  }

  lemma {:induction false} TimesAfterOnce(v: real, penalty: real, k: nat)
    requires penalty > 0.0
    ensures Times(v, penalty, k + 1) == Times(Once(v, penalty), penalty, k)
  {
    hide Once;
    if k > 0 {
      TimesAfterOnce(v, penalty, k - 1);
    }
  }

  /** Every token of the window is penalized once, however often it occurs, exactly when no token of the
      vocabulary with a nonzero logit occurs twice. */
  lemma PenalizedOnceIff(logits: seq<real>, window: seq<nat>, penalty: real)
    requires penalty > 1.0
    ensures (forall i | 0 <= i < |logits| ::
               Times(logits[i], penalty, Count(window, i)) == if Count(window, i) == 0 then logits[i] else Once(logits[i], penalty))
            <==> forall i | 0 <= i < |logits| :: Count(window, i) <= 1 || logits[i] == 0.0
  {
    hide Once, Count;
    forall i | 0 <= i < |logits|
      ensures Times(logits[i], penalty, Count(window, i)) == (if Count(window, i) == 0 then logits[i] else Once(logits[i], penalty))
              <==> Count(window, i) <= 1 || logits[i] == 0.0
    {
      TokenOnceIff(logits[i], penalty, Count(window, i));
    }
  }

  lemma TokenOnceIff(v: real, penalty: real, k: nat)
    requires penalty > 1.0
    ensures Times(v, penalty, k) == (if k == 0 then v else Once(v, penalty)) <==> k <= 1 || v == 0.0
  {
    hide Once;
    Shrinks(v, penalty);
    if k > 1 {
      TimesAfterOnce(v, penalty, k - 1);
      TimesShrinks(Once(v, penalty), penalty, k - 1);
      Shrinks(Once(v, penalty), penalty);
    } else if k == 1 {
      assert Times(v, penalty, 0) == v;
    }
  }

  /** A token that occurs twice loses the penalty twice. */
  lemma TwicePenalized()
    ensures Count([0, 0], 0) == 2 && Times(4.0, 2.0, 2) == 1.0 && Once(4.0, 2.0) == 2.0
  {
    assert [0, 0][..1] == [0] && [0][..0] == [];
    assert Count([0], 0) == 1;
    assert Times(4.0, 2.0, 1) == 2.0;
  }

  // ---------- nucleus sampling ----------

  /** Every index below `n`, once. */
  ghost predicate Permutes(idx: seq<nat>, n: nat) {
    |idx| == n && Distinct(idx) && forall k | 0 <= k < |idx| :: idx[k] < n
  }

  ghost predicate Distinct(idx: seq<nat>) {
    forall j, k | 0 <= j < k < |idx| :: idx[j] != idx[k]
  }

  /** Some order of the indices by falling probability. */
  ghost predicate Falling(probs: seq<real>, idx: seq<nat>) {
    && Permutes(idx, |probs|)
    && forall j, k | 0 <= j < k < |idx| :: probs[idx[j]] >= probs[idx[k]]
  }

  predicate NonNegative(probs: seq<real>) {
    forall i | 0 <= i < |probs| :: probs[i] >= 0.0
  }

  /** What the indices add up to. */
  function Mass(probs: seq<real>, idx: seq<nat>): real
    requires forall k | 0 <= k < |idx| :: idx[k] < |probs|
  {
    if idx == [] then 0.0 else Mass(probs, idx[..|idx| - 1]) + probs[idx[|idx| - 1]]
  }

  lemma MassStep(probs: seq<real>, idx: seq<nat>, k: nat)
    requires (forall k | 0 <= k < |idx| :: idx[k] < |probs|) && k < |idx|
    ensures Mass(probs, idx[..k + 1]) == Mass(probs, idx[..k]) + probs[idx[k]]
  {
    assert idx[..k + 1][..k] == idx[..k];
  }

  lemma {:induction false} MassRises(probs: seq<real>, idx: seq<nat>, j: nat, k: nat)
    requires (forall k | 0 <= k < |idx| :: idx[k] < |probs|) && NonNegative(probs) && j <= k <= |idx|
    ensures Mass(probs, idx[..j]) <= Mass(probs, idx[..k])
  {
    if j < k {
      MassRises(probs, idx, j, k - 1);
      MassStep(probs, idx, k - 1);
    }
  }

  /** The kept prefix: no shorter one reaches `topP`, and it does unless it is everything. */
  ghost predicate Nucleus(probs: seq<real>, idx: seq<nat>, topP: real, cutoff: nat)
    requires forall k | 0 <= k < |idx| :: idx[k] < |probs|
  {
    && 0 < cutoff <= |idx|
    && (forall k | 0 < k < cutoff :: Mass(probs, idx[..k]) < topP)
    && (cutoff < |idx| ==> Mass(probs, idx[..cutoff]) >= topP)
  }

  method Cutoff(probs: seq<real>, idx: seq<nat>, topP: real) returns (cutoff: nat)
    requires (forall k | 0 <= k < |idx| :: idx[k] < |probs|) && idx != []
    ensures Nucleus(probs, idx, topP, cutoff)
  {
    hide Mass;
    var cum := 0.0;
    NoMass(probs, idx);
    for k := 0 to |idx|
      invariant cum == Mass(probs, idx[..k])
      invariant forall j | 0 < j <= k :: Mass(probs, idx[..j]) < topP
    {
      MassStep(probs, idx, k);
      cum := cum + probs[idx[k]];
      if cum >= topP {
        return k + 1;
      }
    }
    return |idx|;
  }

  lemma NoMass(probs: seq<real>, idx: seq<nat>)
    ensures idx[..0] == [] && Mass(probs, []) == 0.0
  {
  }

  /** `r` falls on the stretch of position `k` when the kept probabilities are laid end to end. */
  ghost predicate FallsOn(probs: seq<real>, idx: seq<nat>, r: real, k: nat)
    requires (forall k | 0 <= k < |idx| :: idx[k] < |probs|) && k < |idx|
  {
    Mass(probs, idx[..k]) <= r < Mass(probs, idx[..k + 1])
  }

  ghost predicate FallsOnToken(probs: seq<real>, idx: seq<nat>, r: real, tok: nat)
    requires forall k | 0 <= k < |idx| :: idx[k] < |probs|
  {
    exists at | 0 <= at < |idx| :: idx[at] == tok && FallsOn(probs, idx, r, at)
  }

  /** Walk the kept indices until they have added up to more than `r`. */
  method Pick(probs: seq<real>, idx: seq<nat>, r: real) returns (tok: nat)
    requires (forall k | 0 <= k < |idx| :: idx[k] < |probs|) && 0.0 <= r < Mass(probs, idx)
    ensures FallsOnToken(probs, idx, r, tok)
  {
    hide Mass;
    var acc := 0.0;
    NoMass(probs, idx);
    assert idx[..|idx|] == idx;
    for k := 0 to |idx|
      invariant acc == Mass(probs, idx[..k]) <= r
    {
      MassStep(probs, idx, k);
      acc := acc + probs[idx[k]];
      if r < acc {
        assert FallsOn(probs, idx, r, k);
        return idx[k];
      }
    }
    assert false;
  }

  /** `tok` is what `u` draws from the first `cutoff` tokens: the one on whose stretch of their mass it falls,
      or the first when they have no mass. */
  ghost predicate Drawn(probs: seq<real>, idx: seq<nat>, cutoff: nat, u: real, tok: nat)
    requires (forall k | 0 <= k < |idx| :: idx[k] < |probs|) && 0 < cutoff <= |idx|
  {
    var kept := idx[..cutoff];
    var mass := Mass(probs, kept);
    if mass <= 0.0 then tok == idx[0]
    else FallsOnToken(probs, kept, u * mass, tok)
  }

  /** Draw from the smallest set of most likely tokens that reaches `topP`; `u` is uniform below one. The last
      kept token is never the fallback over exact numbers. */
  method SampleTopP(probs: seq<real>, topP: real, idx: seq<nat>, u: real) returns (tok: nat)
    requires probs != [] && NonNegative(probs) && Falling(probs, idx) && 0.0 <= u < 1.0
    ensures exists cutoff: nat :: Nucleus(probs, idx, topP, cutoff) && Drawn(probs, idx, cutoff, u, tok)
  {
    hide Mass, FallsOnToken;
    var n := Cutoff(probs, idx, topP);
    var kept := idx[..n];
    var mass, k := 0.0, 0;
    NoMass(probs, kept);
    while k < |kept|
      invariant k <= |kept| && mass == Mass(probs, kept[..k])
    {
      MassStep(probs, kept, k);
      mass, k := mass + probs[kept[k]], k + 1;
    }
    assert kept[..k] == kept;
    assert mass == Mass(probs, kept);
    if mass <= 0.0 {
      assert Drawn(probs, idx, n, u, idx[0]);
      return idx[0];
    }
    var r := u * mass;
    Scaled(u, mass, r);
    assert 0.0 <= r < mass;
    assert r < Mass(probs, kept);
    tok := Pick(probs, kept, r);
    assert Drawn(probs, idx, n, u, tok);
  }

  /** The size of the nucleus is determined. */
  lemma OneNucleus(probs: seq<real>, idx: seq<nat>, topP: real, a: nat, b: nat)
    requires forall k | 0 <= k < |idx| :: idx[k] < |probs|
    requires Nucleus(probs, idx, topP, a) && Nucleus(probs, idx, topP, b)
    ensures a == b
  {
    hide Mass;
  }

  lemma Scaled(u: real, mass: real, r: real)
    requires 0.0 <= u < 1.0 && mass > 0.0 && r == u * mass
    ensures 0.0 <= r < mass
  {
    assert (1.0 - u) * mass > 0.0;
    assert (1.0 - u) * mass == mass - u * mass;
  }

  /** Positions share no stretch: which token is drawn is decided by where the random number falls, and a
      token's share of it is its share of the kept mass. */
  lemma OneStretch(probs: seq<real>, idx: seq<nat>, r: real, j: nat, k: nat)
    requires (forall k | 0 <= k < |idx| :: idx[k] < |probs|) && NonNegative(probs) && j < |idx| && k < |idx|
    requires FallsOn(probs, idx, r, j) && FallsOn(probs, idx, r, k)
    ensures j == k
    ensures Mass(probs, idx[..k + 1]) - Mass(probs, idx[..k]) == probs[idx[k]]
  {
    hide Mass;
    MassStep(probs, idx, k);
    if j < k {
      MassRises(probs, idx, j + 1, k);
    } else if k < j {
      MassRises(probs, idx, k + 1, j);
    }
  }

  // ---------- the nucleus is smallest ----------

  lemma {:induction false} MassWithout(probs: seq<real>, t: seq<nat>, j: nat)
    requires (forall k | 0 <= k < |t| :: t[k] < |probs|) && j < |t|
    ensures Mass(probs, t) == Mass(probs, t[..j] + t[j + 1..]) + probs[t[j]]
  {
    hide Mass;
    var rest, init := t[..j] + t[j + 1..], t[..|t| - 1];
    LastMass(probs, t);
    if j == |t| - 1 {
      assert rest == init;
    } else {
      MassWithout(probs, init, j);
      LastMass(probs, rest);
      assert rest[..|rest| - 1] == init[..j] + init[j + 1..];
      assert rest[|rest| - 1] == t[|t| - 1];
    }
  }

  lemma LastMass(probs: seq<real>, t: seq<nat>)
    requires t != [] && forall k | 0 <= k < |t| :: t[k] < |probs|
    ensures Mass(probs, t) == Mass(probs, t[..|t| - 1]) + probs[t[|t| - 1]]
  {
  }

  /** Where an index stands in the order. */
  lemma PlaceOf(idx: seq<nat>, n: nat, i: nat) returns (k: nat)
    requires Permutes(idx, n) && i < n
    ensures k < |idx| && idx[k] == i
  {
    if i !in idx {
      var more := idx + [i];
      Pigeonhole(more, n);
      assert false;
    }
    k :| 0 <= k < |idx| && idx[k] == i;
  }

  /** Of `|t|` distinct indices one stands at position `|t| - 1` of the order or behind it. */
  lemma FarOne(idx: seq<nat>, n: nat, t: seq<nat>) returns (j: nat)
    requires Permutes(idx, n) && Distinct(t) && t != [] && forall k | 0 <= k < |t| :: t[k] < n
    ensures j < |t| && |t| <= n && t[j] !in idx[..|t| - 1]
  {
    Pigeonhole(t, n);
    NotAllIn(idx[..|t| - 1], t);
    j :| 0 <= j < |t| && t[j] !in idx[..|t| - 1];
  }

  lemma NotAllIn(head: seq<nat>, t: seq<nat>)
    requires Distinct(t) && |t| > |head|
    ensures exists j | 0 <= j < |t| :: t[j] !in head
  {
    var at := seq(|t|, j requires 0 <= j < |t| => PositionIn(head, t[j]));
    if forall j | 0 <= j < |t| :: at[j] < |head| && head[at[j]] == t[j] {
      Pigeonhole(at, |head|);
    }
  }

  ghost function PositionIn(s: seq<nat>, x: nat): (k: nat)
    ensures x in s ==> k < |s| && s[k] == x
  {
    if x in s then var k :| 0 <= k < |s| && s[k] == x; k else 0
  }

  /** What is not among the first `m` is no more likely than the next one. */
  lemma LaterIsLess(probs: seq<real>, idx: seq<nat>, i: nat, m: nat)
    requires Falling(probs, idx) && i < |probs| && m < |idx| && i !in idx[..m]
    ensures idx[m] < |probs| && probs[i] <= probs[idx[m]]
  {
    var k := PlaceOf(idx, |probs|, i);
    assert forall j | 0 <= j < m :: idx[j] in idx[..m];
  }

  /** No set of tokens outweighs as many of the most likely ones. */
  lemma {:induction false} TopMass(probs: seq<real>, idx: seq<nat>, t: seq<nat>)
    requires Falling(probs, idx) && Distinct(t) && forall k | 0 <= k < |t| :: t[k] < |probs|
    ensures |t| <= |idx| && Mass(probs, t) <= Mass(probs, idx[..|t|])
    decreases |t|
  {
    hide Mass;
    NoMass(probs, idx);
    if t != [] {
      var j := FarOne(idx, |probs|, t);
      var rest := t[..j] + t[j + 1..];
      MassWithout(probs, t, j);
      TopMass(probs, idx, rest);
      MassStep(probs, idx, |rest|);
      LaterIsLess(probs, idx, t[j], |rest|);
    }
  }

  /** No smaller set of tokens, however chosen, reaches `topP`. */
  lemma NucleusIsSmallest(probs: seq<real>, idx: seq<nat>, topP: real, cutoff: nat, t: seq<nat>)
    requires Falling(probs, idx) && NonNegative(probs) && 0.0 < topP && Nucleus(probs, idx, topP, cutoff)
    requires Distinct(t) && (forall k | 0 <= k < |t| :: t[k] < |probs|) && |t| < cutoff
    ensures Mass(probs, t) < topP
  {
    TopMass(probs, idx, t);
  }
}
