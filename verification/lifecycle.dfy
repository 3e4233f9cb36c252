/** Life of a hosted slice: announced, drained, stopped, and the guards of the chains it serves. */
module Lifecycle {
  import opened Results

  datatype Status = Announcing | Draining | Stopped

  /** Content id, first layer, end layer. */
  type Key = (string, nat, nat)

  datatype Entry = Entry(name: string, state: Status, active: nat, drainingSince: Option<nat>)

  type Slices = map<Key, Entry>

  const U32_MAX: nat := 0xffff_ffff

  // ---------- one entry ----------

  function Announced(e: Entry, name: string): Entry {
    e.(state := Announcing, name := name)
  }

  function Drained(e: Entry, now: nat): Entry {
    e.(state := Draining, drainingSince := Some(now))
  }

  function Admitted(e: Entry): Entry {
    e.(active := if e.active < U32_MAX then e.active + 1 else U32_MAX)
  }

  function Released(e: Entry): Entry {
    var left := if e.active > 0 then e.active - 1 else 0;
    Entry(e.name, if e.state == Draining && left == 0 then Stopped else e.state, left, e.drainingSince)
  }

  function Idled(e: Entry): Entry {
    if e.state == Draining && e.active == 0 then e.(state := Stopped) else e
  }

  function Forced(e: Entry): Entry {
    if e.state == Draining then e.(state := Stopped, active := 0) else e
  }

  /** A stopped slice counts nobody, a draining one knows since when, and the count is a 32-bit word. */
  predicate GoodEntry(e: Entry) {
    && (e.state == Stopped ==> e.active == 0)
    && (e.state == Draining ==> e.drainingSince.Some?)
    && e.active <= U32_MAX
  }

  /** The shared state of the control server. */
  class ControlState {
    var slices: Slices

    ghost predicate Valid()
      reads this
    {
      forall k | k in slices :: GoodEntry(slices[k])
    }

    constructor ()
      ensures Valid() && slices == map[]
    {
      slices := map[];
    }

    method UpsertAnnouncing(k: Key, name: string)
      requires Valid()
      modifies this
      ensures Valid()
      ensures slices == old(slices)[k := if k in old(slices)
                                         then Entry(name, Announcing, old(slices)[k].active, old(slices)[k].drainingSince)
                                         else Entry(name, Announcing, 0, None)]
    {
      if k in slices {
        slices := slices[k := Announced(slices[k], name)];
      } else {
        slices := slices[k := Entry(name, Announcing, 0, None)];
      }
    }

    /** Only an announced slice starts to drain. */
    method BeginDrain(k: Key, now: nat) returns (ok: bool)
      requires Valid()
      modifies this
      ensures Valid()
      ensures ok <==> k in old(slices) && old(slices)[k].state == Announcing
      ensures ok ==> slices == old(slices)[k := Entry(old(slices)[k].name, Draining, old(slices)[k].active, Some(now))]
      ensures !ok ==> slices == old(slices)
    {
      if k in slices && slices[k].state == Announcing {
        slices := slices[k := Drained(slices[k], now)];
        return true;
      }
      return false;
    }

    /** Admit a chain through an announced slice; the caller gets a guard to release. */
    method AcceptChain(k: Key) returns (ok: bool)
      requires Valid()
      modifies this
      ensures Valid()
      ensures ok <==> k in old(slices) && old(slices)[k].state == Announcing
      ensures ok && old(slices)[k].active < U32_MAX ==>
        slices == old(slices)[k := old(slices)[k].(active := old(slices)[k].active + 1)]
      ensures ok && old(slices)[k].active == U32_MAX ==> slices == old(slices)
      ensures !ok ==> slices == old(slices)
    {
      if k !in slices || slices[k].state != Announcing {
        return false;
      }
      slices := slices[k := Admitted(slices[k])];
      return true;
    }

    /** A guard is released; the last one counted out of a draining slice stops it. */
    method ReleaseChain(k: Key) returns (state: Option<Status>)
      requires Valid()
      modifies this
      ensures Valid()
      ensures k !in old(slices) ==> slices == old(slices) && state == None
      ensures k in old(slices) && old(slices)[k].active > 1 ==>
        slices == old(slices)[k := old(slices)[k].(active := old(slices)[k].active - 1)]
      ensures k in old(slices) && old(slices)[k].active <= 1 ==>
        var left := if old(slices)[k].state == Draining then Stopped else old(slices)[k].state;
        slices == old(slices)[k := old(slices)[k].(active := 0, state := left)]
      ensures k in old(slices) ==> state == Some(slices[k].state)
    {
      if k !in slices {
        return None;
      }
      slices := slices[k := Released(slices[k])];
      return Some(slices[k].state);
    }

    /** Stop every draining slice that serves nobody. */
    method DrainIdle() returns (flipped: set<Key>)
      requires Valid()
      modifies this
      ensures Valid()
      ensures flipped == set k | k in old(slices) && old(slices)[k].state == Draining && old(slices)[k].active == 0
      ensures slices.Keys == old(slices).Keys
      ensures forall k | k in flipped :: slices[k] == old(slices)[k].(state := Stopped)
      ensures forall k | k in slices && k !in flipped :: slices[k] == old(slices)[k]
    {
      flipped := {};
      var todo := slices.Keys;
      ghost var before := slices;
      while todo != {}
        invariant todo <= before.Keys == slices.Keys
        invariant forall k | k in before :: slices[k] == if k in todo then before[k] else Idled(before[k])
        invariant flipped == set k | k in before && k !in todo && before[k].state == Draining && before[k].active == 0
        decreases todo
      {
        var k :| k in todo;
        if slices[k].state == Draining && slices[k].active == 0 {
          slices := slices[k := slices[k].(state := Stopped)];
          flipped := flipped + {k};
        }
        todo := todo - {k};
      }
    }

    /** Stop every draining slice, whatever it still serves and however short its grace has been. */
    method ForceStopAllDraining() returns (flipped: set<Key>)
      requires Valid()
      modifies this
      ensures Valid()
      ensures flipped == set k | k in old(slices) && old(slices)[k].state == Draining
      ensures slices.Keys == old(slices).Keys
      ensures forall k | k in flipped :: slices[k] == old(slices)[k].(state := Stopped, active := 0)
      ensures forall k | k in slices && k !in flipped :: slices[k] == old(slices)[k]
    {
      flipped := {};
      var todo := slices.Keys;
      ghost var before := slices;
      while todo != {}
        invariant todo <= before.Keys == slices.Keys
        invariant forall k | k in before :: slices[k] == if k in todo then before[k] else Forced(before[k])
        invariant flipped == set k | k in before && k !in todo && before[k].state == Draining
        decreases todo
      {
        var k :| k in todo;
        if slices[k].state == Draining {
          slices := slices[k := slices[k].(state := Stopped, active := 0)];
          flipped := flipped + {k};
        }
        todo := todo - {k};
      }
    }

    /** Draining slices whose grace has run out. */
    method ExpiredDraining(now: nat, grace: nat) returns (keys: set<Key>)
      requires Valid()
      ensures keys == set k | k in slices && slices[k].state == Draining && now >= slices[k].drainingSince.value + grace
    {
      keys := set k | k in slices && slices[k].state == Draining && slices[k].drainingSince.Some?
                      && now >= slices[k].drainingSince.value + grace;
    }
  }

  // ---------- every run ----------

  datatype Op =
    | Join(key: Key, name: string)
    | Leave(key: Key, now: nat)
    | Accept(key: Key)
    | Release(key: Key)
    | IdleTick
    | ForceStop

  /** The server's table and the guards its callers hold. */
  datatype World = World(slices: Slices, held: multiset<Key>)

  /** Whether an operation does anything: only announced slices drain or admit, and only a held guard can
      be released. */
  predicate TakesEffect(w: World, op: Op) {
    match op
    case Join(_, _) => true
    case Leave(k, _) => k in w.slices && w.slices[k].state == Announcing
    case Accept(k) => k in w.slices && w.slices[k].state == Announcing
    case Release(k) => k in w.held
    case IdleTick => true
    case ForceStop => true
  }

  function Step(w: World, op: Op): World {
    if !TakesEffect(w, op) then w
    else
      match op
      case Join(k, name) =>
        w.(slices := w.slices[k := if k in w.slices then Announced(w.slices[k], name) else Entry(name, Announcing, 0, None)])
      case Leave(k, now) => w.(slices := w.slices[k := Drained(w.slices[k], now)])
      case Accept(k) => World(w.slices[k := Admitted(w.slices[k])], w.held + multiset{k})
      case Release(k) =>
        World(if k in w.slices then w.slices[k := Released(w.slices[k])] else w.slices, w.held - multiset{k})
      case IdleTick => w.(slices := map k | k in w.slices :: Idled(w.slices[k]))
      case ForceStop => w.(slices := map k | k in w.slices :: Forced(w.slices[k]))
  }

  /** The world after a run of operations. */
  function After(ops: seq<Op>): World {
    if ops == [] then World(map[], multiset{}) else Step(After(ops[..|ops| - 1]), ops[|ops| - 1])
  }

  lemma AfterOne(ops: seq<Op>, op: Op)
    ensures After(ops + [op]) == Step(After(ops), op)
  {
    assert (ops + [op])[..|ops|] == ops;
  }

  lemma StepJoin(w: World, k: Key, name: string)
    ensures TakesEffect(w, Join(k, name))
    ensures Step(w, Join(k, name)) ==
            w.(slices := w.slices[k := if k in w.slices then Entry(name, Announcing, w.slices[k].active, w.slices[k].drainingSince)
                                       else Entry(name, Announcing, 0, None)])
  {
  }

  lemma StepLeave(w: World, k: Key, now: nat)
    ensures TakesEffect(w, Leave(k, now)) <==> k in w.slices && w.slices[k].state == Announcing
    ensures Step(w, Leave(k, now)) ==
            if k in w.slices && w.slices[k].state == Announcing
            then w.(slices := w.slices[k := Entry(w.slices[k].name, Draining, w.slices[k].active, Some(now))]) else w
  {
  }

  lemma StepAccept(w: World, k: Key)
    ensures TakesEffect(w, Accept(k)) <==> k in w.slices && w.slices[k].state == Announcing
    ensures TakesEffect(w, Accept(k)) && w.slices[k].active < U32_MAX ==>
      Step(w, Accept(k)) == World(w.slices[k := w.slices[k].(active := w.slices[k].active + 1)], w.held + multiset{k})
    ensures TakesEffect(w, Accept(k)) && w.slices[k].active == U32_MAX ==>
      Step(w, Accept(k)) == World(w.slices, w.held + multiset{k})
    ensures !TakesEffect(w, Accept(k)) ==> Step(w, Accept(k)) == w
  {
    if TakesEffect(w, Accept(k)) && w.slices[k].active == U32_MAX {
      assert w.slices[k := w.slices[k]] == w.slices;
    }
  }

  lemma StepRelease(w: World, k: Key)
    ensures TakesEffect(w, Release(k)) <==> k in w.held
    ensures k !in w.held ==> Step(w, Release(k)) == w
    ensures k in w.held && k !in w.slices ==> Step(w, Release(k)) == w.(held := w.held - multiset{k})
    ensures k in w.held && k in w.slices && w.slices[k].active > 1 ==>
      Step(w, Release(k)) == World(w.slices[k := w.slices[k].(active := w.slices[k].active - 1)], w.held - multiset{k})
    ensures k in w.held && k in w.slices && w.slices[k].active <= 1 ==>
      var left := if w.slices[k].state == Draining then Stopped else w.slices[k].state;
      Step(w, Release(k)) == World(w.slices[k := w.slices[k].(active := 0, state := left)], w.held - multiset{k})
  {
  }

  /** A tick changes the flipped slices and no others. */
  lemma StepTick(w: World, op: Op, flipped: set<Key>, after: Slices)
    requires op == IdleTick || op == ForceStop
    requires flipped == set k | k in w.slices && w.slices[k].state == Draining && (op == IdleTick ==> w.slices[k].active == 0)
    requires after.Keys == w.slices.Keys
    requires forall k | k in flipped :: after[k] == w.slices[k].(state := Stopped, active := 0)
    requires forall k | k in after && k !in flipped :: after[k] == w.slices[k]
    ensures TakesEffect(w, op) && Step(w, op) == w.(slices := after)
  {
    assert Step(w, op).slices == after;
  }

  /** One operation on the shared state, and whether it took effect. */
  method Perform(cs: ControlState, op: Op, held: multiset<Key>) returns (ok: bool, held': multiset<Key>)
    requires cs.Valid()
    modifies cs
    ensures cs.Valid()
    ensures ok == TakesEffect(World(old(cs.slices), held), op)
    ensures World(cs.slices, held') == Step(World(old(cs.slices), held), op)
  {
    hide TakesEffect, Step, ControlState.Valid;
    ok, held' := true, held;
    ghost var w := World(cs.slices, held);
    match op {
      case Join(k, name) =>
        StepJoin(w, k, name);
        cs.UpsertAnnouncing(k, name);
      case Leave(k, now) =>
        StepLeave(w, k, now);
        ok := cs.BeginDrain(k, now);
      case Accept(k) =>
        StepAccept(w, k);
        CountIsWord(cs, k);
        ok := cs.AcceptChain(k);
        held' := if ok then held + multiset{k} else held;
      case Release(k) =>
        StepRelease(w, k);
        ok := k in held;
        if ok {
          var _ := cs.ReleaseChain(k);
          held' := held - multiset{k};
        }
      case IdleTick =>
        var flipped := cs.DrainIdle();
        StepTick(w, IdleTick, flipped, cs.slices);
      case ForceStop =>
        var flipped := cs.ForceStopAllDraining();
        StepTick(w, ForceStop, flipped, cs.slices);
    }
  }

  lemma CountIsWord(cs: ControlState, k: Key)
    requires cs.Valid()
    ensures k in cs.slices ==> cs.slices[k].active <= U32_MAX
  {
  }

  /** Any operations in any order: every state passed through is the one the run predicts. */
  method Serve(ops: seq<Op>) returns (cs: ControlState, held: multiset<Key>, oks: seq<bool>)
    ensures cs.Valid() && World(cs.slices, held) == After(ops)
    ensures |oks| == |ops| && forall n | 0 <= n < |ops| :: oks[n] == TakesEffect(After(ops[..n]), ops[n])
  {
    hide TakesEffect, Step, After, ControlState.Valid;
    cs := new ControlState();
    held, oks := multiset{}, [];
    AfterNothing();
    for n := 0 to |ops|
      invariant fresh(cs) && cs.Valid() && World(cs.slices, held) == After(ops[..n])
      invariant |oks| == n && forall i | 0 <= i < n :: oks[i] == TakesEffect(After(ops[..i]), ops[i])
    {
      var ok;
      ok, held := Perform(cs, ops[n], held);
      oks := oks + [ok];
      assert ops[..n + 1] == ops[..n] + [ops[n]];
      AfterOne(ops[..n], ops[n]);
    }
    assert ops[..|ops|] == ops;
  }

  // ---------- the guards and the counts ----------

  /** How often an accept or a release of `k` took effect. */
  function Accepts(ops: seq<Op>, k: Key): nat {
    if ops == [] then 0
    else
      var init, op := ops[..|ops| - 1], ops[|ops| - 1];
      Accepts(init, k) + if op.Accept? && op.key == k && TakesEffect(After(init), op) then 1 else 0
  }

  function Releases(ops: seq<Op>, k: Key): nat {
    if ops == [] then 0
    else
      var init, op := ops[..|ops| - 1], ops[|ops| - 1];
      Releases(init, k) + if op.Release? && op.key == k && TakesEffect(After(init), op) then 1 else 0
  }

  /** No count exceeds the guards held, and guards are held of known slices only. */
  ghost predicate Covered(w: World) {
    forall k :: CoveredAt(w, k)
  }

  predicate CoveredAt(w: World, k: Key) {
    if k in w.slices then GoodEntry(w.slices[k]) && w.slices[k].active <= w.held[k] else k !in w.held
  }

  /** Every count is the number of guards held. */
  ghost predicate Exact(w: World) {
    forall k | k in w.slices :: w.slices[k].active == w.held[k]
  }

  lemma NothingIsExact()
    ensures Exact(After([])) && Covered(After([]))
  {
  }

  lemma StepCovered(w: World, op: Op)
    requires Covered(w)
    ensures Covered(Step(w, op))
  {
    hide Step, CoveredAt;
    forall k
      ensures CoveredAt(Step(w, op), k)
    {
      assert CoveredAt(w, k);
      StepCoveredAt(w, op, k);
    }
  }

  lemma StepCoveredAt(w: World, op: Op, k: Key)
    requires CoveredAt(w, k)
    ensures CoveredAt(Step(w, op), k)
  {
  }

  /** In every state of every run the guards held are those accepted and not released, and no count
      exceeds them. */
  lemma {:induction false} RunCovered(ops: seq<Op>, k: Key)
    ensures Covered(After(ops))
    ensures After(ops).held[k] + Releases(ops, k) == Accepts(ops, k)
  {
    hide Covered;
    if ops == [] {
      NothingIsExact();
    } else {
      var init := ops[..|ops| - 1];
      RunCovered(init, k);
      StepCovered(After(init), ops[|ops| - 1]);
    }
  }

  /** A force-stop meets a draining slice that still counts a chain. */
  ghost predicate Clash(w: World, op: Op) {
    op.ForceStop? && exists k | k in w.slices :: w.slices[k].state == Draining && w.slices[k].active > 0
  }

  ghost predicate NoClash(ops: seq<Op>) {
    forall n | 0 <= n < |ops| :: !Clash(After(ops[..n]), ops[n])
  }

  ghost predicate Capped(w: World) {
    forall k: Key :: w.held[k] <= U32_MAX
  }

  /** Fewer than 2^32 guards of any slice are ever held at once. */
  ghost predicate Countable(ops: seq<Op>) {
    forall n | 0 <= n <= |ops| :: Capped(After(ops[..n]))
  }

  lemma StepExact(w: World, op: Op)
    requires Covered(w) && Exact(w) && !Clash(w, op) && Capped(Step(w, op))
    ensures Exact(Step(w, op))
  {
    hide Step, CoveredAt;
    forall k | k in Step(w, op).slices
      ensures Step(w, op).slices[k].active == Step(w, op).held[k]
    {
      assert CoveredAt(w, k);
      StepExactAt(w, op, k);
    }
  }

  lemma StepExactAt(w: World, op: Op, k: Key)
    requires CoveredAt(w, k) && (k in w.slices ==> w.slices[k].active == w.held[k]) && !Clash(w, op)
    requires Step(w, op).held[k] <= U32_MAX && k in Step(w, op).slices
    ensures Step(w, op).slices[k].active == Step(w, op).held[k]
  {
    if op.Accept? && op.key == k && TakesEffect(w, op) {
      assert Step(w, op).held[k] == w.held[k] + 1;
    }
  }

  /** The counts are the guards held as long as no force-stop has met a serving slice. */
  lemma {:induction false} CountsAreGuards(ops: seq<Op>, n: nat)
    requires n <= |ops| && NoClash(ops[..n]) && Countable(ops)
    ensures Exact(After(ops[..n]))
  {
    hide Clash, Covered, Exact, Step, Capped, After;
    if n == 0 {
      NothingIsExact();
    } else {
      var was := ops[..n - 1];
      assert ops[..n][..n - 1] == was;
      assert NoClash(was) by {
        forall m | 0 <= m < |was|
          ensures !Clash(After(was[..m]), was[m])
        {
          assert was[..m] == ops[..n][..m] && was[m] == ops[..n][m];
        }
      }
      CountsAreGuards(ops, n - 1);
      RunCovered(was, ("", 0, 0));
      assert Capped(After(ops[..n]));
      AfterOne(was, ops[n - 1]);
      assert was + [ops[n - 1]] == ops[..n];
      StepExact(After(was), ops[n - 1]);
    }
  }

  /** A stopped slice has no guard held. */
  ghost predicate StoppedIsIdle(w: World) {
    forall k | k in w.slices && w.slices[k].state == Stopped :: w.held[k] == 0
  }

  /** A stopped slice serves nobody throughout a run exactly when no force-stop of the run meets a draining
      slice that still counts a chain. */
  lemma StoppedServesNobodyIff(ops: seq<Op>)
    requires Countable(ops)
    ensures (forall n | 0 <= n <= |ops| :: StoppedIsIdle(After(ops[..n]))) <==> NoClash(ops)
  {
    hide Clash, StoppedIsIdle, Step, Exact, Covered, After, Capped;
    if NoClash(ops) {
      forall n | 0 <= n <= |ops|
        ensures StoppedIsIdle(After(ops[..n]))
      {
        assert NoClash(ops[..n]) by {
          assert forall m | 0 <= m < n :: ops[..n][..m] == ops[..m];
        }
        CountsAreGuards(ops, n);
        RunCovered(ops[..n], ("", 0, 0));
        ExactIsIdle(After(ops[..n]));
      }
    } else {
      var n :| 0 <= n < |ops| && Clash(After(ops[..n]), ops[n]);
      RunCovered(ops[..n], ("", 0, 0));
      ClashServes(After(ops[..n]), ops[n]);
      assert ops[..n + 1] == ops[..n] + [ops[n]];
      AfterOne(ops[..n], ops[n]);
    }
  }

  lemma ExactIsIdle(w: World)
    requires Covered(w) && Exact(w)
    ensures StoppedIsIdle(w)
  {
    forall k | k in w.slices && w.slices[k].state == Stopped
      ensures w.held[k] == 0
    {
      assert CoveredAt(w, k);
    }
  }

  lemma ClashServes(w: World, op: Op)
    requires Covered(w) && Clash(w, op)
    ensures !StoppedIsIdle(Step(w, op))
  {
    var k :| k in w.slices && w.slices[k].state == Draining && w.slices[k].active > 0;
    assert CoveredAt(w, k);
    assert k in Step(w, op).slices && Step(w, op).slices[k].state == Stopped && Step(w, op).held[k] > 0;
  }

  // ---------- draining ----------

  /** From a drain that took effect to the next announcement the slice is draining or stopped, admits nothing,
      and keeps the time of that drain. */
  lemma {:induction false} AwayUntilJoin(ops: seq<Op>, k: Key, i: nat, n: nat)
    requires i < n <= |ops| && ops[i].Leave? && ops[i].key == k && TakesEffect(After(ops[..i]), ops[i])
    requires forall m | i < m < n :: !(ops[m].Join? && ops[m].key == k)
    ensures k in After(ops[..n]).slices && After(ops[..n]).slices[k].state != Announcing
    ensures After(ops[..n]).slices[k].drainingSince == Some(ops[i].now)
    ensures !TakesEffect(After(ops[..n]), Accept(k))
  {
    hide After, Step;
    assert ops[..n] == ops[..n - 1] + [ops[n - 1]];
    AfterOne(ops[..n - 1], ops[n - 1]);
    if i < n - 1 {
      AwayUntilJoin(ops, k, i, n - 1);
      StaysAway(After(ops[..n - 1]), ops[n - 1], k);
    } else {
      GoesAway(After(ops[..i]), ops[i]);
    }
  }

  lemma GoesAway(w: World, op: Op)
    requires op.Leave? && TakesEffect(w, op)
    ensures op.key in Step(w, op).slices && Step(w, op).slices[op.key].state == Draining
    ensures Step(w, op).slices[op.key].drainingSince == Some(op.now)
  {
  }

  lemma StaysAway(w: World, op: Op, k: Key)
    requires k in w.slices && w.slices[k].state != Announcing && !(op.Join? && op.key == k)
    ensures k in Step(w, op).slices && Step(w, op).slices[k].state != Announcing
    ensures Step(w, op).slices[k].drainingSince == w.slices[k].drainingSince
  {
  }

  function Times(op: Op, n: nat): seq<Op> {
    if n == 0 then [] else Times(op, n - 1) + [op]
  }

  lemma AfterTimes(ops: seq<Op>, op: Op, n: nat)
    requires n > 0
    ensures After(ops + Times(op, n)) == Step(After(ops + Times(op, n - 1)), op)
  {
    assert ops + Times(op, n) == (ops + Times(op, n - 1)) + [op];
    AfterOne(ops + Times(op, n - 1), op);
  }

  lemma OneLess(w: World, k: Key)
    requires k in w.held
    ensures Step(w, Release(k)).held[k] == w.held[k] - 1
  {
  }

  lemma IdleStops(w: World, k: Key)
    requires Covered(w) && k in w.slices && w.slices[k].state != Announcing && w.held[k] == 0
    ensures var w' := Step(w, IdleTick); k in w'.slices && w'.slices[k].state == Stopped && w'.held == w.held
  {
    assert CoveredAt(w, k);
  }

  lemma {:induction false} ReleasedTimes(ops: seq<Op>, k: Key, n: nat)
    requires var w := After(ops); k in w.slices && w.slices[k].state != Announcing && n <= w.held[k]
    ensures var w := After(ops + Times(Release(k), n));
            k in w.slices && w.slices[k].state != Announcing && w.held[k] == After(ops).held[k] - n
  {
    hide After, Step;
    if n == 0 {
      assert ops + [] == ops;
    } else {
      ReleasedTimes(ops, k, n - 1);
      AfterTimes(ops, Release(k), n);
      StaysAway(After(ops + Times(Release(k), n - 1)), Release(k), k);
      OneLess(After(ops + Times(Release(k), n - 1)), k);
    }
  }

  /** A leaving slice is stopped, with no guard held, once the guards held are released and an idle pass has
      been made: whatever run it has been through. */
  lemma DrainFinishes(ops: seq<Op>, k: Key)
    requires k in After(ops).slices && After(ops).slices[k].state != Announcing
    ensures var w := After(ops + Times(Release(k), After(ops).held[k]) + [IdleTick]);
            k in w.slices && w.slices[k].state == Stopped && w.held[k] == 0
  {
    hide After, Step, Covered;
    var released := ops + Times(Release(k), After(ops).held[k]);
    ReleasedTimes(ops, k, After(ops).held[k]);
    RunCovered(released, k);
    AfterOne(released, IdleTick);
    IdleStops(After(released), k);
  }

  // ---------- stopped while serving ----------

  /** A run is continued from the world it has reached. */
  lemma {:induction false} AfterMore(ops: seq<Op>, more: seq<Op>)
    ensures After(ops + more) == Continue(After(ops), more)
    decreases more
  {
    if more == [] {
      assert ops + more == ops;
    } else {
      assert ops + more == (ops + [more[0]]) + more[1..];
      AfterMore(ops + [more[0]], more[1..]);
      AfterOne(ops, more[0]);
    }
  }

  function Continue(w: World, ops: seq<Op>): World
    decreases ops
  {
    if ops == [] then w else Continue(Step(w, ops[0]), ops[1..])
  }

  /** Force-stop under a live chain, announce again, admit another, drain: the old chain's release then
      stops the slice under the new one. */
  lemma StoppedWhileServing(k: Key)
    ensures var ops := [Join(k, ""), Accept(k), Leave(k, 0), ForceStop, Join(k, ""), Accept(k), Leave(k, 0), Release(k)];
            && k in After(ops).slices && After(ops).slices[k] == Entry("", Stopped, 0, Some(0)) && After(ops).held[k] == 1
  {
    hide After, Step, Continue;
    var first := [Join(k, ""), Accept(k), Leave(k, 0), ForceStop];
    var again := [Join(k, ""), Accept(k), Leave(k, 0), Release(k)];
    AfterMore([], first);
    assert [] + first == first && After([]) == World(map[], multiset{}) by { AfterNothing(); }
    AfterMore(first, again);
    ServedThenForced(k);
    AgainThenReleased(After(first), k);
    assert first + again == [Join(k, ""), Accept(k), Leave(k, 0), ForceStop, Join(k, ""), Accept(k), Leave(k, 0), Release(k)];
  }

  lemma AfterNothing()
    ensures After([]) == World(map[], multiset{})
  {
  }

  lemma ContinueFour(w: World, a: Op, b: Op, c: Op, d: Op)
    ensures Continue(w, [a, b, c, d]) == Step(Step(Step(Step(w, a), b), c), d)
  {
    hide Step;
    assert [a, b, c, d][1..] == [b, c, d] && [b, c, d][1..] == [c, d] && [c, d][1..] == [d] && [d][1..] == [];
    var w1 := Step(w, a);
    var w2 := Step(w1, b);
    var w3 := Step(w2, c);
    assert Continue(Step(w3, d), []) == Step(w3, d);
    assert Continue(w3, [d]) == Step(w3, d);
    assert Continue(w2, [c, d]) == Continue(w3, [d]);
    assert Continue(w1, [b, c, d]) == Continue(w2, [c, d]);
  }

  lemma ServedThenForced(k: Key)
    ensures Continue(World(map[], multiset{}), [Join(k, ""), Accept(k), Leave(k, 0), ForceStop])
            == World(map[k := Entry("", Stopped, 0, Some(0))], multiset{k})
  {
    hide Continue;
    ContinueFour(World(map[], multiset{}), Join(k, ""), Accept(k), Leave(k, 0), ForceStop);
    var w := Step(World(map[], multiset{}), Join(k, ""));
    assert w == World(map[k := Entry("", Announcing, 0, None)], multiset{});
    w := Step(w, Accept(k));
    assert w == World(map[k := Entry("", Announcing, 1, None)], multiset{k});
    w := Step(w, Leave(k, 0));
    assert w == World(map[k := Entry("", Draining, 1, Some(0))], multiset{k});
  }

  lemma AgainThenReleased(w: World, k: Key)
    requires w == World(map[k := Entry("", Stopped, 0, Some(0))], multiset{k})
    ensures Continue(w, [Join(k, ""), Accept(k), Leave(k, 0), Release(k)])
            == World(map[k := Entry("", Stopped, 0, Some(0))], multiset{k})
  {
    hide Continue;
    ContinueFour(w, Join(k, ""), Accept(k), Leave(k, 0), Release(k));
    var w' := Step(w, Join(k, ""));
    assert w' == World(map[k := Entry("", Announcing, 0, Some(0))], multiset{k});
    w' := Step(w', Accept(k));
    assert w' == World(map[k := Entry("", Announcing, 1, Some(0))], multiset{k, k});
    w' := Step(w', Leave(k, 0));
    assert w' == World(map[k := Entry("", Draining, 1, Some(0))], multiset{k, k});
  }

  // ---------- the count is a word ----------

  function Crowd(k: Key, n: nat): multiset<Key> {
    multiset{}[k := n]
  }

  lemma OneAccept(k: Key, active: nat, held: nat)
    ensures Step(World(map[k := Entry("", Announcing, active, None)], Crowd(k, held)), Accept(k))
            == World(map[k := Entry("", Announcing, if active < U32_MAX then active + 1 else U32_MAX, None)], Crowd(k, held + 1))
  {
    assert Crowd(k, held) + multiset{k} == Crowd(k, held + 1);
  }

  lemma OneRelease(k: Key, active: nat, held: nat)
    requires active > 0 && held > 0
    ensures Step(World(map[k := Entry("", Draining, active, Some(0))], Crowd(k, held)), Release(k))
            == World(map[k := Entry("", if active > 1 then Draining else Stopped, active - 1, Some(0))], Crowd(k, held - 1))
  {
    assert Crowd(k, held) - multiset{k} == Crowd(k, held - 1);
  }

  lemma {:induction false} AcceptedTimes(k: Key, n: nat)
    ensures After([Join(k, "")] + Times(Accept(k), n))
            == World(map[k := Entry("", Announcing, if n < U32_MAX then n else U32_MAX, None)], Crowd(k, n))
  {
    hide After, Step, Crowd;
    if n == 0 {
      FirstJoin(k);
      assert [Join(k, "")] == [Join(k, "")] + Times(Accept(k), 0);
    } else {
      AcceptedTimes(k, n - 1);
      AfterTimes([Join(k, "")], Accept(k), n);
      OneAccept(k, if n - 1 < U32_MAX then n - 1 else U32_MAX, n - 1);
    }
  }

  lemma FirstJoin(k: Key)
    ensures After([Join(k, "")]) == World(map[k := Entry("", Announcing, 0, None)], Crowd(k, 0))
  {
    hide After;
    AfterNothing();
    AfterOne([], Join(k, ""));
    assert [] + [Join(k, "")] == [Join(k, "")] && Crowd(k, 0) == multiset{};
  }

  /** Releases drain a full count by one each, whatever the number of guards behind it. */
  lemma {:induction false} DrainedTimes(ops: seq<Op>, k: Key, held: nat, n: nat)
    requires After(ops) == World(map[k := Entry("", Draining, U32_MAX, Some(0))], Crowd(k, held)) && n <= U32_MAX <= held
    ensures After(ops + Times(Release(k), n))
            == World(map[k := Entry("", if n < U32_MAX then Draining else Stopped, U32_MAX - n, Some(0))], Crowd(k, held - n))
  {
    hide After, Step, Crowd;
    if n == 0 {
      assert ops + [] == ops;
    } else {
      DrainedTimes(ops, k, held, n - 1);
      AfterTimes(ops, Release(k), n);
      OneRelease(k, U32_MAX - (n - 1), held - (n - 1));
    }
  }

  /** With one guard more than the count can hold, a slice stops under its last chain though nothing was
      ever forced: the bound on the guards held cannot be dropped. */
  lemma SaturatedStops(k: Key)
    ensures var ops := [Join(k, "")] + Times(Accept(k), U32_MAX + 1) + [Leave(k, 0)] + Times(Release(k), U32_MAX);
            && ForceStop !in ops && k in After(ops).slices
            && After(ops).slices[k].state == Stopped && After(ops).held[k] == 1
  {
    hide After;
    var full := [Join(k, "")] + Times(Accept(k), U32_MAX + 1);
    AcceptedTimes(k, U32_MAX + 1);
    AfterOne(full, Leave(k, 0));
    DrainedTimes(full + [Leave(k, 0)], k, U32_MAX + 1, U32_MAX);
    TimesAre(Accept(k), U32_MAX + 1);
    TimesAre(Release(k), U32_MAX);
  }

  lemma {:induction false} TimesAre(op: Op, n: nat)
    ensures forall o | o in Times(op, n) :: o == op
  {
    if n > 0 {
      TimesAre(op, n - 1);
    }
  }
}
