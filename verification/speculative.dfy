/** Speculative decoding: a draft model proposes, the chain verifies a whole batch of proposals in one
    step, the longest matching prefix plus one token is committed, and every cache is rolled back. */
module Speculative {
  import opened Results
  import opened Transformer
  import opened Backends
  import opened Pipeline
  import opened Peers
  import opened Chains
  import opened Turns

  /** Every token of `e` is the argmax after the tokens before it. */
  ghost predicate IsGreedy(sys: System, toks: seq<Token>, e: seq<Token>)
    requires toks != []
  {
    forall i | 0 <= i < |e| :: e[i] == Next(sys, toks + e[..i])
  }

  /** The tokens speculative decoding generates after `toks`: the greedy tokens up to the budget, the
      first end-of-sequence token included. */
  function SpecTurn(sys: System, toks: seq<Token>, isEos: Token -> bool, budget: nat): (out: seq<Token>)
    requires toks != []
    ensures |out| <= budget
    decreases budget
  {
    if budget == 0 then []
    else
      var t := Next(sys, toks);
      [t] + if isEos(t) then [] else SpecTurn(sys, toks + [t], isEos, budget - 1)
  }

  // ---------- matching and emitting ----------

  /** The prediction for draft slot `i`: the pending logits first, then the verify rows. */
  function Pred(pending: Logits, verify: seq<Logits>, i: nat): Logits
    requires i <= |verify|
  {
    if i == 0 then pending else verify[i - 1]
  }

  /** Length of the longest prefix of drafts that the predictions confirm. */
  method MatchPrefix(pending: Logits, verify: seq<Logits>, drafts: seq<Token>) returns (j: nat)
    requires |verify| == |drafts|
    ensures j <= |drafts|
    ensures forall i | 0 <= i < j :: drafts[i] == Argmax(Pred(pending, verify, i))
    ensures j < |drafts| ==> drafts[j] != Argmax(Pred(pending, verify, j))
  {
    j := 0;
    for i := 0 to |drafts|
      invariant j == i
      invariant forall l | 0 <= l < j :: drafts[l] == Argmax(Pred(pending, verify, l))
    {
      if Argmax(Pred(pending, verify, i)) == drafts[i] {
        j := j + 1;
      } else {
        break;
      }
    }
  }

  /** Matching against the logits of a verified batch commits a greedy run of `j + 1` tokens, however
      wrong the drafts are. */
  lemma CommitIsGreedy(sys: System, toks: seq<Token>, drafts: seq<Token>, verify: seq<Logits>, j: nat)
    requires toks != [] && |verify| == |drafts| && j <= |drafts|
    requires forall i | 0 <= i < |drafts| :: verify[i] == NextLogits(sys, toks + drafts[..i + 1])
    requires forall i | 0 <= i < j :: drafts[i] == Argmax(Pred(NextLogits(sys, toks), verify, i))
    ensures IsGreedy(sys, toks, drafts[..j] + [Argmax(Pred(NextLogits(sys, toks), verify, j))])
  {
    var e := drafts[..j] + [Argmax(Pred(NextLogits(sys, toks), verify, j))];
    forall i | 0 <= i < |e|
      ensures e[i] == Next(sys, toks + e[..i])
    {
      assert e[..i] == drafts[..i];
      if i == 0 {
        assert toks + e[..0] == toks;
      }
    }
  }

  /** Pushing one greedy token moves it from what is to come to what is out. */
  lemma PushOne(sys: System, toks: seq<Token>, emitted: seq<Token>, i: nat, out: seq<Token>, isEos: Token -> bool, budget: nat)
    requires toks != [] && i < |emitted| && IsGreedy(sys, toks, emitted) && budget > 0
    ensures out + SpecTurn(sys, toks + emitted[..i], isEos, budget)
            == (out + [emitted[i]]) +
               if isEos(emitted[i]) then [] else SpecTurn(sys, toks + emitted[..i + 1], isEos, budget - 1)
  {
    var t := emitted[i];
    var more := if isEos(t) then [] else SpecTurn(sys, toks + emitted[..i + 1], isEos, budget - 1);
    assert toks + emitted[..i + 1] == toks + emitted[..i] + [t];
    assert out + ([t] + more) == (out + [t]) + more;
  }

  lemma NoBudget(sys: System, toks: seq<Token>, isEos: Token -> bool)
    requires toks != []
    ensures SpecTurn(sys, toks, isEos, 0) == []
  {
  }

  /** Push the emitted tokens one by one, stopping at the budget or after an end-of-sequence token. */
  method Emit(ghost sys: System, ghost toks: seq<Token>, out: seq<Token>, emitted: seq<Token>, isEos: Token -> bool, maxNew: nat)
    returns (stop: bool, out': seq<Token>)
    requires toks != [] && |out| < maxNew && emitted != [] && IsGreedy(sys, toks, emitted)
    ensures |out| < |out'| <= maxNew && out <= out' <= out + emitted
    ensures !stop ==> out' == out + emitted
    ensures out + SpecTurn(sys, toks, isEos, maxNew - |out|)
            == out' + if stop then [] else SpecTurn(sys, toks + emitted, isEos, maxNew - |out'|)
  {
    hide SpecTurn, IsGreedy;
    stop, out' := false, out;
    ghost var all := out + SpecTurn(sys, toks, isEos, maxNew - |out|);
    assert toks + emitted[..0] == toks;
    for i := 0 to |emitted|
      invariant !stop && out' == out + emitted[..i] && |out'| <= maxNew
      invariant all == out' + SpecTurn(sys, toks + emitted[..i], isEos, maxNew - |out'|)
    {
      if |out'| >= maxNew {
        NoBudget(sys, toks + emitted[..i], isEos);
        return true, out';
      }
      PushOne(sys, toks, emitted, i, out', isEos, maxNew - |out'|);
      assert out + emitted[..i + 1] == out' + [emitted[i]];
      out' := out' + [emitted[i]];
      if isEos(emitted[i]) {
        return true, out';
      }
    }
    assert emitted[..|emitted|] == emitted;
  }

  // ---------- the draft side ----------

  /** Rolling a local cache back is having prefilled less. */
  lemma LocalRollback(m: Model, a: seq<Token>, b: seq<Token>)
    ensures Rollback(Prefill(Monolith(m), a + b).front, |a|) == Prefill(Monolith(m), a).front
  {
    PrefillRollback(Monolith(m), a, b, []);
  }

  /** The draft's round transition as a resumable task: bring the cache to the committed position,
      then propose token by token. Each call of `Next` is one forward, the grain at which it can
      interleave with the chain. */
  class DraftTask {
    const draft: Backend
    const k: nat
    /** Committed sequence the proposals continue. */
    ghost const base: seq<Token>
    /** Tokens to feed, and the length to cut the cache to first, before proposing. */
    const feed: seq<Token>
    const cut: Keep
    const feedPos: nat
    /** Absolute position of the first proposal. */
    const pos: nat
    var fed: bool
    var cur: Logits
    var drafts: seq<Token>

    ghost predicate Valid()
      reads this, draft
    {
      var sys := Monolith(draft.model);
      && base != [] && pos == |base| && |drafts| <= k && 1 < k
      && (fed ==> IsGreedy(sys, base, drafts))
      && (fed && |drafts| < k ==> cur == NextLogits(sys, base + drafts) && HoldsLocally(draft, base + drafts))
      && (fed && |drafts| == k ==> HoldsLocally(draft, base + drafts[..k - 1]))
      && (!fed ==> drafts == [] && Unfed())
    }

    /** Before feeding: the cache covers what the cut leaves, and the feed completes it to `base`. */
    ghost predicate Unfed()
      reads draft
    {
      && feed != [] && feedPos <= |base| && base == base[..feedPos] + feed
      && match cut
         case All => HoldsLocally(draft, base[..feedPos])
         case First(n) => n == feedPos && exists rest :: HoldsLocally(draft, base[..feedPos] + rest)
    }

    predicate Done()
      reads this
    {
      fed && |drafts| == k
    }

    ghost function Left(): nat
      reads this
    {
      (if fed then 0 else 1) + if |drafts| <= k then k - |drafts| else 0
    }

    /** Propose from logits already at hand. */
    constructor Propose(draft: Backend, cur: Logits, k: nat, pos: nat, ghost base: seq<Token>)
      requires 1 < k && pos == |base| && base != [] && HoldsLocally(draft, base) && cur == NextLogits(Monolith(draft.model), base)
      ensures Valid() && fed && this.draft == draft && this.base == base && this.k == k
    {
      this.draft, this.k, this.pos, this.base := draft, k, pos, base;
      feed, cut, feedPos := [], All, 0;
      fed, this.cur, drafts := true, cur, [];
      new;
      assert base + drafts == base;
    }

    /** After a round that committed `prev[..j]` and `last` on top of `old`: on full acceptance feed the
        one draft the cache has not seen and `last`; otherwise cut back to the accepted prefix and
        feed `last`. */
    constructor Advance(draft: Backend, j: nat, k: nat, prev: seq<Token>, last: Token, posOld: nat, ghost committed: seq<Token>)
      requires 1 < k == |prev| && j <= k && |committed| == posOld && HoldsLocally(draft, committed + prev[..k - 1])
      ensures Valid() && this.draft == draft && this.base == committed + prev[..j] + [last] && this.k == k
    {
      this.draft, this.k, this.base := draft, k, committed + prev[..j] + [last];
      if j == k {
        feed, cut, feedPos := [prev[k - 1], last], All, posOld + k - 1;
      } else {
        feed, cut, feedPos := [last], First(posOld + j), posOld + j;
      }
      pos := posOld + j + 1;
      fed, drafts := false, [];
      cur := [0.0];
      new;
      if j == k {
        assert base[..feedPos] == committed + prev[..k - 1];
      } else {
        assert base[..feedPos] + prev[j..k - 1] == committed + prev[..k - 1];
      }
    }

    /** One atomic action of the draft. */
    method Next() returns (r: Result<(), Fault>)
      requires Valid() && !Done()
      modifies this, draft
      ensures r.Ok? ==> Valid() && Left() < old(Left())
      ensures |base| + k <= draft.nCtx + 1 ==> r.Ok?
    {
      if !fed {
        r := Feed();
      } else {
        r := ProposeOne();
      }
    }

    method Feed() returns (r: Result<(), Fault>)
      requires Valid() && !fed
      modifies this, draft
      ensures r.Ok? ==> Valid() && Left() < old(Left())
      ensures |base| + k <= draft.nCtx + 1 ==> r.Ok?
    {
      ghost var kept := base[..feedPos];
      if cut.First? {
        ghost var rest :| HoldsLocally(draft, kept + rest);
        LocalRollback(draft.model, kept, rest);
        draft.TruncateKvTo(cut.n);
      }
      cur :- ForwardLocally(draft, feed, feedPos, kept);
      fed := true;
      assert base + drafts == base;
      return Ok(());
    }

    /** Take the argmax as the next draft; forward it unless it is the last one. */
    method ProposeOne() returns (r: Result<(), Fault>)
      requires Valid() && fed && |drafts| < k
      modifies this, draft
      ensures r.Ok? ==> Valid() && Left() < old(Left())
      ensures |base| + k <= draft.nCtx + 1 ==> r.Ok?
    {
      ghost var sys, before := Monolith(draft.model), drafts;
      var d, i := Argmax(cur), |drafts|;
      drafts := drafts + [d];
      assert IsGreedy(sys, base, drafts) by {
        assert forall i | 0 <= i < |before| :: drafts[..i] == before[..i];
        assert drafts[..|before|] == before;
      }
      if |drafts| < k {
        assert base + drafts == base + before + [d];
        cur :- ForwardLocally(draft, [d], pos + i, base + before);
      } else {
        assert drafts[..k - 1] == before;
      }
      return Ok(());
    }
  }

  /** Propose `k` tokens in a row from logits already at hand. */
  method ProposeKDrafts(draft: Backend, cur: Logits, k: nat, pos: nat, ghost base: seq<Token>)
    returns (r: Result<seq<Token>, Fault>)
    requires 1 < k && pos == |base| && base != [] && HoldsLocally(draft, base) && cur == NextLogits(Monolith(draft.model), base)
    modifies draft
    ensures r.Ok? ==> Proposed(draft, base, r.value, k)
    ensures pos + k <= draft.nCtx + 1 ==> r.Ok?
  {
    var task := new DraftTask.Propose(draft, cur, k, pos, base);
    while !task.Done()
      invariant fresh(task) && task.Valid() && task.draft == draft && task.base == base && task.k == k
      decreases task.Left()
    {
      var _ :- task.Next();
    }
    return Ok(task.drafts);
  }

  /** `drafts` is the draft model's own greedy continuation of `toks`, and its cache covers all but
      the last of it. */
  ghost predicate Proposed(draft: Backend, toks: seq<Token>, drafts: seq<Token>, k: nat)
    requires toks != []
    reads draft
  {
    1 < k == |drafts| && IsGreedy(Monolith(draft.model), toks, drafts) && HoldsLocally(draft, toks + drafts[..k - 1])
  }

  /** The commit step and the draft's transition run concurrently: at every point either side may be
      the one to take its next action. Whatever the schedule, both end where they would have alone. */
  method Overlap(chain: Chain, task: DraftTask, front: seq<Row>, keep: Keep) returns (r: Result<seq<Row>, Fault>)
    requires chain.Valid() && task.Valid() && task !in chain.Repr && task.draft !in chain.Repr
    modifies chain.Repr, task, task.draft
    ensures chain.Valid()
    ensures r.Ok? ==> (chain.Views(), r.value) == ChainStep(old(chain.Views()), chain.wire, keep, front)
    ensures r.Ok? ==> Proposed(task.draft, task.base, task.drafts, task.k)
    ensures chain.Able(old(chain.Views()), keep, |front|) && |task.base| + task.k <= task.draft.nCtx + 1 ==> r.Ok?
  {
    hide DraftTask.Unfed, IsGreedy, HoldsLocally, Prefill, Chain.Midway, Chain.Able, Chain.Valid;
    ghost var before := chain.Views();
    chain.StepStarts(front, keep);
    var i, cur := 0, front;
    while i < |chain.peers| || !task.Done()
      invariant chain.Valid() && task.Valid() && i <= |chain.peers|
      invariant chain.Midway(before, front, keep, i, cur)
      decreases |chain.peers| - i + task.Left()
    {
      var networkFirst: bool := *;
      if i < |chain.peers| && (networkFirst || task.Done()) {
        cur :- chain.HopOnward(i, cur, keep, before, front);
        i := i + 1;
      } else {
        var _ :- task.Next();
      }
    }
    chain.StepEnds(before, front, keep, cur);
    return Ok(cur);
  }

  // ---------- one round ----------

  /** The top of a round: the front cache and every peer are where a fresh prefill of the committed
      tokens would put them, the pending logits are the target's for the next position, and the
      drafts are the draft model's own greedy continuation. */
  ghost predicate AtTop(target: Backend, chain: Chain, draft: Backend, sys: System, toks: seq<Token>,
                        pending: Logits, drafts: seq<Token>, k: nat)
    reads target, chain, chain.Repr, draft
  {
    && toks != [] && Holds(target, chain, sys, toks) && pending == NextLogits(sys, toks)
    && Proposed(draft, toks, drafts, k) && draft !in chain.Repr && draft != target
  }

  const U32: nat := 0x1_0000_0000

  /** The rollback position on the wire is a 32-bit unsigned integer: a larger one is truncated. */
  function RollBackTo(pos: nat): Keep {
    First(pos % U32)
  }

  /** Verify all drafts in one batched step and decide what to commit: the matched prefix and one
      token of the target's own. */
  method Verify(target: Backend, chain: Chain, pending: Logits, drafts: seq<Token>, pos: nat, ghost sys: System, ghost toks: seq<Token>)
    returns (r: Result<(nat, Token), Fault>)
    requires toks != [] && Holds(target, chain, sys, toks) && pos == |toks| && drafts != []
    requires pending == NextLogits(sys, toks)
    modifies target, chain.Repr
    ensures target.Valid() && chain.Valid()
    ensures r.Ok? ==> Holds(target, chain, sys, toks + drafts)
    ensures r.Ok? ==> r.value.0 <= |drafts| && IsGreedy(sys, toks, drafts[..r.value.0] + [r.value.1])
    ensures r.Ok? && r.value.0 < |drafts| ==> r.value.1 != drafts[r.value.0]
    ensures r.Ok? && chain.frontEnd > 0 ==> pos + |drafts| <= target.nCtx
    ensures !chain.faulty && chain.layout.Carries(|drafts|) && Fits(target, chain, |toks| + |drafts|) ==> r.Ok?
  {
    hide Prefill;
    var tail :- StepThrough(target, chain, drafts, pos, sys, toks);
    var verify := target.HeadAll(tail);
    forall i | 0 <= i < |drafts|
      ensures verify.value[i] == NextLogits(sys, toks + drafts[..i + 1])
    {
      TailIsNextLogits(sys, toks + drafts[..i + 1], drafts[i + 1..]);
      assert toks + drafts[..i + 1] + drafts[i + 1..] == toks + drafts;
    }
    var j := MatchPrefix(pending, verify.value, drafts);
    CommitIsGreedy(sys, toks, drafts, verify.value, j);
    return Ok((j, Argmax(Pred(pending, verify.value, j))));
  }

  /** The front slice is cut back to the accepted prefix and takes the committed token. */
  method CommitFront(target: Backend, chain: Chain, last: Token, newPos: nat, ghost sys: System, ghost a: seq<Token>, ghost b: seq<Token>)
    returns (r: Result<seq<Row>, Fault>)
    requires Holds(target, chain, sys, a + b) && newPos == |a|
    modifies target
    ensures Wired(target, chain, sys) && chain.Views() == old(chain.Views())
    ensures r.Ok? ==> target.kv[..chain.frontEnd] == Prefill(sys, a + [last]).front
    ensures r.Ok? ==> r.value == Decode(sys.model, 0, Prefill(sys, a).front, |a|, Embeds(sys.model, [last])).1
    ensures newPos + 1 <= target.nCtx ==> r.Ok?
  {
    hide Chain.Valid, Decode, Rollback, Embeds, ChainStep, AllAt;
    PrefillRollback(sys, a, b, [last]);
    PrefillCovers(sys, a);
    RollbackSlice(target.kv, 0, chain.frontEnd, newPos);
    target.TruncateKvTo(newPos);
    assert target.kv[..chain.frontEnd] == Prefill(sys, a).front;
    r := FrontForward(target, [last], newPos, chain.frontEnd);
  }

  lemma PeersCanTakeBack(chain: Chain, sys: System, a: seq<Token>, b: seq<Token>, able: bool)
    requires Fresh(sys) && chain.Valid() && chain.Views() == Prefill(sys, a + b).peers
    requires able ==> !chain.faulty && chain.layout.Carries(1)
    requires able ==>
      forall i | 0 <= i < |chain.peers| :: |a| + 1 <= chain.peers[i].loaded.nCtx && chain.peers[i].InFile()
    ensures able ==> chain.Able(Prefill(sys, a + b).peers, First(|a|), 1)
  {
    if able {
      PrefillCovers(sys, a);
      forall i | 0 <= i < |sys.peers|
        ensures CanServe(Prefill(sys, a + b).peers[i], chain.peers[i].loaded.nCtx, First(|a|), 1)
      {
        PeerRollTo(sys, a, b, i);
        assert Prefill(sys, a + b).peers[i] == chain.peers[i].View();
      }
    }
  }

  /** What the commit step sends through the chain, rolled back peers included, is the prefill of the
      committed sequence, and its one row carries the next pending logits. */
  lemma CommitTail(sys: System, a: seq<Token>, b: seq<Token>, last: Token)
    requires Fresh(sys)
    ensures var front := Decode(sys.model, 0, Prefill(sys, a).front, |a|, Embeds(sys.model, [last])).1;
            var step := ChainStep(Prefill(sys, a + b).peers, sys.wire, First(|a|), front);
            && step.0 == Prefill(sys, a + [last]).peers
            && |step.1| == 1 && sys.model.head(step.1[0]) == NextLogits(sys, a + [last])
  {
    PrefillRollback(sys, a, b, [last]);
  }

  /** Everything of `Holds` except the caches. */
  ghost predicate Wired(target: Backend, chain: Chain, sys: System)
    reads target, chain, chain.Repr
  {
    && target.Valid() && chain.Valid() && target !in chain.Repr
    && sys.model == target.model && sys.frontEnd == chain.frontEnd <= target.model.nLayers && sys.wire == chain.wire
    && Fresh(sys)
  }

  /** What the commit step and the draft's transition together report: on success both have reached the
      committed sequence, and success whenever nothing prevents it. */
  ghost predicate Committed(r: Result<Logits, Fault>, target: Backend, chain: Chain, task: DraftTask, sys: System,
                            toks: seq<Token>, able: bool)
    reads target, chain, chain.Repr, task, task.draft
  {
    && toks != [] && task.base != []
    && (r.Ok? ==> Holds(target, chain, sys, toks) && r.value == NextLogits(sys, toks)
                  && Proposed(task.draft, task.base, task.drafts, task.k))
    && (able ==> r.Ok?)
  }

  ghost predicate Undisturbed(target: Backend, chain: Chain, task: DraftTask, n: nat)
  {
    && !chain.faulty && chain.layout.Carries(1)
    && Fits(target, chain, n) && |task.base| + task.k <= task.draft.nCtx + 1
  }

  /** Send the committed row through the chain, every peer rolling back first, while the draft works. */
  method CommitChain(target: Backend, chain: Chain, task: DraftTask, front: seq<Row>, last: Token, newPos: nat,
                     ghost sys: System, ghost a: seq<Token>, ghost b: seq<Token>)
    returns (r: Result<Logits, Fault>)
    requires Wired(target, chain, sys) && newPos == |a| && newPos < U32 && target.nCtx > 0
    requires target.kv[..chain.frontEnd] == Prefill(sys, a + [last]).front && chain.Views() == Prefill(sys, a + b).peers
    requires front == Decode(sys.model, 0, Prefill(sys, a).front, |a|, Embeds(sys.model, [last])).1
    requires task.Valid() && task !in chain.Repr && task.draft !in chain.Repr && task.draft != target
    modifies chain.Repr, task, task.draft
    ensures Committed(r, target, chain, task, sys, a + [last], Undisturbed(target, chain, task, newPos + 1))
  {
    hide Prefill, NextLogits, IsGreedy, HoldsLocally, Chain.Valid, ChainStep, Decode, Chain.Able, Proposed, DraftTask.Unfed;
    var keep := RollBackTo(newPos);
    CommitTail(sys, a, b, last);
    PeersCanTakeBack(chain, sys, a, b, Undisturbed(target, chain, task, newPos + 1));
    var tail :- Overlap(chain, task, front, keep);
    var logits := target.Head(tail);
    return Ok(logits.value);
  }

  /** Roll the front slice and, over the network, every peer back to the accepted prefix, commit the
      last token, and meanwhile let the draft catch up and propose the next round. */
  method Commit(target: Backend, chain: Chain, draft: Backend, j: nat, k: nat, drafts: seq<Token>, last: Token, pos: nat,
                ghost sys: System, ghost toks: seq<Token>)
    returns (r: Result<(Logits, seq<Token>), Fault>)
    requires toks != [] && Holds(target, chain, sys, toks + drafts) && pos == |toks| && pos + k <= target.nCtx
    requires Proposed(draft, toks, drafts, k) && j <= k && draft !in chain.Repr && draft != target
    modifies target, chain.Repr, draft
    ensures r.Ok? ==> AtTop(target, chain, draft, sys, toks + drafts[..j] + [last], r.value.0, r.value.1, k)
    ensures !chain.faulty && chain.layout.Carries(1) && Fits(target, chain, pos + j + 1) && pos + j + k <= draft.nCtx ==> r.Ok?
  {
    hide Prefill, NextLogits, IsGreedy, HoldsLocally, Chain.Valid, ChainStep, Decode, Chain.Able;
    ghost var a, b := toks + drafts[..j], drafts[j..];
    assert a + b == toks + drafts;
    var newPos := pos + j;
    var front :- CommitFront(target, chain, last, newPos, sys, a, b);
    var task := new DraftTask.Advance(draft, j, k, drafts, last, pos, toks);
    var pending :- CommitChain(target, chain, task, front, last, newPos, sys, a, b);
    return Ok((pending, task.drafts));
  }

  // ---------- whole turns ----------

  datatype RoundEnd = Stop | Again(pending: Logits, drafts: seq<Token>)

  /** What a round reports: what it adds is greedy; unless it fails it adds between 1 and `k + 1`
      tokens; when it stops nothing is left to come, and otherwise the next round starts at the top. */
  ghost predicate RoundReports(r: Result<RoundEnd, Fault>, out: seq<Token>, out': seq<Token>, target: Backend, chain: Chain,
                               draft: Backend, sys: System, prompt: seq<Token>, isEos: Token -> bool, maxNew: nat, k: nat)
    requires prompt != [] && |out| <= maxNew
    reads target, chain, chain.Repr, draft
  {
    var all := out + SpecTurn(sys, prompt + out, isEos, maxNew - |out|);
    && out <= out' <= all
    && (r.Ok? ==> |out| < |out'| <= |out| + k + 1)
    && (r.Ok? && r.value.Stop? ==> out' == all)
    && (r.Ok? && r.value.Again? ==>
          && |out'| <= maxNew && all == out' + SpecTurn(sys, prompt + out', isEos, maxNew - |out'|)
          && AtTop(target, chain, draft, sys, prompt + out', r.value.pending, r.value.drafts, k))
  }

  /** Every cache has room for a whole turn with `k` drafts in flight, prompt and drafts fit a frame, and no
      message is lost. */
  ghost predicate RoomForTurn(target: Backend, chain: Chain, draft: Backend, prompt: seq<Token>, maxNew: nat, k: nat)
    requires k > 0
  {
    var n := |prompt| + maxNew + k - 1;
    && !chain.faulty && chain.layout.Carries(|prompt|) && chain.layout.Carries(k)
    && Fits(target, chain, n) && n <= draft.nCtx
  }

  /** Verify, emit, and unless that ends the turn commit. */
  method Round(target: Backend, chain: Chain, draft: Backend, prompt: seq<Token>, out: seq<Token>, pending: Logits,
               drafts: seq<Token>, pos: nat, k: nat, isEos: Token -> bool, maxNew: nat, ghost sys: System)
    returns (r: Result<RoundEnd, Fault>, out': seq<Token>)
    requires prompt != [] && AtTop(target, chain, draft, sys, prompt + out, pending, drafts, k) && pos == |prompt + out|
    requires |out| < maxNew && chain.frontEnd > 0
    modifies target, chain.Repr, draft
    ensures RoundReports(r, out, out', target, chain, draft, sys, prompt, isEos, maxNew, k)
    ensures k > 0 && RoomForTurn(target, chain, draft, prompt, maxNew, k) ==> r.Ok?
  {
    hide SpecTurn, IsGreedy, Prefill, NextLogits, HoldsLocally, Chain.Valid, Holds;
    out' := out;
    ghost var toks := prompt + out;
    if k > 0 && chain.layout.Carries(k) {
      chain.layout.CarriesFewer(k, 1);
    }
    var decided :- Verify(target, chain, pending, drafts, pos, sys, toks);
    var (j, last) := decided;
    var emitted := drafts[..j] + [last];
    var stop;
    stop, out' := Emit(sys, toks, out, emitted, isEos, maxNew);
    if stop {
      return Ok(Stop), out';
    }
    assert prompt + out' == toks + drafts[..j] + [last];
    assert toks + emitted == toks + drafts[..j] + [last];
    var next :- Commit(target, chain, draft, j, k, drafts, last, pos, sys, toks);
    return Ok(Again(next.0, next.1)), out';
  }

  /** Reset, prefill and the first proposals. */
  method Prepare(target: Backend, chain: Chain, draft: Backend, prompt: seq<Token>, k: nat, ghost sys: System)
    returns (r: Result<(Logits, seq<Token>), Fault>)
    requires prompt != [] && 1 < k && Holds(target, chain, sys, []) && draft !in chain.Repr && draft != target
    requires draft.Valid() && draft.kv == EmptyKv(draft.model.nLayers)
    modifies target, chain.Repr, draft
    ensures r.Ok? ==> AtTop(target, chain, draft, sys, prompt, r.value.0, r.value.1, k)
    ensures RoomForTurn(target, chain, draft, prompt, 0, k) ==> r.Ok?
    ensures chain.layout.Refuses(|prompt|) && chain.peers != [] ==> r.Err?
  {
    hide IsGreedy, Prefill, NextLogits, HoldsLocally, Chain.Valid;
    assert prompt == [] + prompt;
    var tail :- StepThrough(target, chain, prompt, 0, sys, []);
    var pending := target.Head(tail);
    LocalNothing(draft);
    var cur :- ForwardLocally(draft, prompt, 0, []);
    var drafts :- ProposeKDrafts(draft, cur, k, |prompt|, prompt);
    return Ok((pending.value, drafts));
  }

  /** Rounds until one stops or the budget is spent. */
  method Rounds(target: Backend, chain: Chain, draft: Backend, prompt: seq<Token>, pending0: Logits, drafts0: seq<Token>,
                k: nat, isEos: Token -> bool, maxNew: nat, ghost sys: System)
    returns (r: Result<nat, Fault>, out: seq<Token>)
    requires prompt != [] && 1 < k && AtTop(target, chain, draft, sys, prompt, pending0, drafts0, k) && chain.frontEnd > 0
    modifies target, chain.Repr, draft
    ensures Reports(r, out, SpecTurn(sys, prompt, isEos, maxNew), RoomForTurn(target, chain, draft, prompt, maxNew, k))
  {
    hide SpecTurn, AtTop;
    out := [];
    assert prompt + out == prompt;
    var pending, drafts, targetPos := pending0, drafts0, |prompt|;
    ghost var all := SpecTurn(sys, prompt, isEos, maxNew);
    while |out| < maxNew
      invariant |out| <= maxNew && targetPos == |prompt + out|
      invariant AtTop(target, chain, draft, sys, prompt + out, pending, drafts, k)
      invariant all == out + SpecTurn(sys, prompt + out, isEos, maxNew - |out|)
      decreases maxNew - |out|
    {
      var ended;
      ended, out := Round(target, chain, draft, prompt, out, pending, drafts, targetPos, k, isEos, maxNew, sys);
      var next :- ended;
      if next.Stop? {
        return Ok(|out|), out;
      }
      pending, drafts, targetPos := next.pending, next.drafts, |prompt| + |out|;
    }
    NoBudget(sys, prompt + out, isEos);
    return Ok(|out|), out;
  }

  /** The largest logit at every position up to the budget, the first end-of-sequence token included. */
  ghost predicate LargestToEnd(sys: System, prompt: seq<Token>, isEos: Token -> bool, budget: nat, out: seq<Token>)
    requires prompt != []
  {
    exists n | 0 <= n <= |out| ::
      && Largest(sys, prompt, isEos, budget, out[..n])
      && out[n..] == if n < budget then [Argmax(NextLogits(sys, prompt + out[..n]))] else []
  }

  lemma SpecTurnIsLargest(sys: System, prompt: seq<Token>, isEos: Token -> bool, budget: nat)
    requires prompt != []
    ensures LargestToEnd(sys, prompt, isEos, budget, SpecTurn(sys, prompt, isEos, budget))
  {
    hide Turn, SpecTurn, Largest, NextLogits;
    var cfg, draw := Sampling(0.0, 1.0, budget), (s: int, l: Logits, ctx: seq<Token>) => (0, s);
    var plain := Turn(sys, cfg, draw, 0, prompt, isEos, budget);
    TurnIsLargest(sys, cfg, draw, 0, prompt, isEos, budget);
    SpecTurnIsTurn(sys, cfg, draw, 0, prompt, isEos, budget);
    assert SpecTurn(sys, prompt, isEos, budget)[..|plain|] == plain;
  }

  /** A speculative turn: whatever the draft model, it generates the greedy tokens of the target. */
  method RunTurnSpec(target: Backend, draft: Backend, chain: Chain, prompt: seq<Token>, cfg: Sampling, k: nat,
                     isEos: Token -> bool, ghost sys: System)
    returns (r: Result<nat, Fault>, out: seq<Token>)
    requires target.Valid() && chain.Valid() && target !in chain.Repr && 0 < chain.frontEnd <= target.model.nLayers
    requires draft.Valid() && draft !in chain.Repr && draft != target
    requires sys == System(target.model, chain.frontEnd, chain.Views(), chain.wire) && Fresh(sys)
    modifies target, chain.Repr, draft
    ensures k < 2 ==> r == Err(BadK) && out == []
    ensures k >= 2 && (cfg.temperature != 0.0 || cfg.repeatPenalty > 1.0) ==> r == Err(NotGreedy) && out == []
    ensures k >= 2 && cfg.temperature == 0.0 && cfg.repeatPenalty <= 1.0 && prompt == [] ==> r == Err(EmptyPrompt) && out == []
    ensures k >= 2 && cfg.temperature == 0.0 && cfg.repeatPenalty <= 1.0 && prompt != [] ==>
      Reports(r, out, SpecTurn(sys, prompt, isEos, cfg.maxNew), RoomForTurn(target, chain, draft, prompt, cfg.maxNew, k))
    ensures r.Ok? ==> prompt != [] && LargestToEnd(sys, prompt, isEos, cfg.maxNew, out)
    ensures prompt != [] && chain.layout.Refuses(|prompt|) && chain.peers != [] ==> r.Err? && out == []
  {
    hide SpecTurn, AtTop, Chain.Valid, Fresh, Holds, LargestToEnd;
    out := [];
    if k < 2 {
      return Err(BadK), out;
    }
    if cfg.temperature != 0.0 {
      return Err(NotGreedy), out;
    }
    if cfg.repeatPenalty > 1.0 {
      return Err(NotGreedy), out;
    }
    Begin(target, chain, sys);
    draft.ResetCache();
    if prompt == [] {
      return Err(EmptyPrompt), out;
    }
    var ready :- Prepare(target, chain, draft, prompt, k, sys);
    r, out := Rounds(target, chain, draft, prompt, ready.0, ready.1, k, isEos, cfg.maxNew, sys);
    SpecTurnIsLargest(sys, prompt, isEos, cfg.maxNew);
  }

  // ---------- the refinement contract ----------

  predicate Greedy(cfg: Sampling) {
    cfg.temperature <= 0.0 && cfg.repeatPenalty <= 1.0
  }

  /** A greedy plain turn from `toks`, one token at a time. */
  lemma GreedyTurn<S>(sys: System, cfg: Sampling, draw: (S, Logits, seq<Token>) -> (Token, S), s: S, toks: seq<Token>,
                      isEos: Token -> bool, budget: nat)
    requires toks != [] && Greedy(cfg)
    ensures var t := Next(sys, toks);
            Turn(sys, cfg, draw, s, toks, isEos, budget)
            == if isEos(t) || budget == 0 then [] else [t] + Turn(sys, cfg, draw, s, toks + [t], isEos, budget - 1)
  {
  }

  lemma SpecStep(sys: System, toks: seq<Token>, isEos: Token -> bool, budget: nat)
    requires toks != []
    ensures var t := Next(sys, toks);
            SpecTurn(sys, toks, isEos, budget)
            == if budget == 0 then [] else if isEos(t) then [t] else [t] + SpecTurn(sys, toks + [t], isEos, budget - 1)
  {
    hide Next;
  }

  /** Speculative decoding generates the tokens of the plain greedy turn and, when that turn ends
      before the budget, the one end-of-sequence token that ended it. */
  lemma {:induction false} SpecTurnIsTurn<S>(sys: System, cfg: Sampling, draw: (S, Logits, seq<Token>) -> (Token, S), s: S,
                                             toks: seq<Token>, isEos: Token -> bool, budget: nat)
    requires toks != [] && Greedy(cfg)
    ensures var plain := Turn(sys, cfg, draw, s, toks, isEos, budget);
            && (|plain| < budget ==> isEos(Next(sys, toks + plain)))
            && SpecTurn(sys, toks, isEos, budget)
               == plain + if |plain| < budget then [Next(sys, toks + plain)] else []
    decreases budget
  {
    hide Turn, Next, SpecTurn, Greedy;
    GreedyTurn(sys, cfg, draw, s, toks, isEos, budget);
    SpecStep(sys, toks, isEos, budget);
    var t, plain := Next(sys, toks), Turn(sys, cfg, draw, s, toks, isEos, budget);
    if isEos(t) || budget == 0 {
      assert toks + [] == toks;
    } else {
      SpecTurnIsTurn(sys, cfg, draw, s, toks + [t], isEos, budget - 1);
      var rest := Turn(sys, cfg, draw, s, toks + [t], isEos, budget - 1);
      assert toks + plain == toks + [t] + rest;
      assert |plain| == 1 + |rest|;
    }
  }

  /** The `i`-th token of the target's greedy continuation of `toks`, end-of-sequence or not. */
  function GreedyAt(sys: System, toks: seq<Token>, i: nat): Token
    requires toks != []
    decreases i
  {
    if i == 0 then Next(sys, toks) else GreedyAt(sys, toks + [Next(sys, toks)], i - 1)
  }

  ghost predicate NoEosWithin(sys: System, toks: seq<Token>, isEos: Token -> bool, budget: nat)
    requires toks != []
  {
    forall i | 0 <= i < budget :: !isEos(GreedyAt(sys, toks, i))
  }

  lemma NoEosStep(sys: System, toks: seq<Token>, isEos: Token -> bool, budget: nat)
    requires toks != [] && budget > 0
    ensures var t := Next(sys, toks);
            NoEosWithin(sys, toks, isEos, budget) <==> !isEos(t) && NoEosWithin(sys, toks + [t], isEos, budget - 1)
  {
    hide Next;
    var t := Next(sys, toks);
    assert GreedyAt(sys, toks, 0) == t;
    if NoEosWithin(sys, toks, isEos, budget) {
      forall i | 0 <= i < budget - 1
        ensures !isEos(GreedyAt(sys, toks + [t], i))
      {
        assert GreedyAt(sys, toks, i + 1) == GreedyAt(sys, toks + [t], i);
      }
    } else {
      var i :| 0 <= i < budget && isEos(GreedyAt(sys, toks, i));
      assert i > 0 ==> GreedyAt(sys, toks, i) == GreedyAt(sys, toks + [t], i - 1);
    }
  }

  lemma {:induction false} TurnSpendsBudget<S>(sys: System, cfg: Sampling, draw: (S, Logits, seq<Token>) -> (Token, S), s: S,
                                               toks: seq<Token>, isEos: Token -> bool, budget: nat)
    requires toks != [] && Greedy(cfg)
    ensures |Turn(sys, cfg, draw, s, toks, isEos, budget)| == budget <==> NoEosWithin(sys, toks, isEos, budget)
    decreases budget
  {
    hide Turn, Next;
    GreedyTurn(sys, cfg, draw, s, toks, isEos, budget);
    if budget > 0 {
      NoEosStep(sys, toks, isEos, budget);
      TurnSpendsBudget(sys, cfg, draw, s, toks + [Next(sys, toks)], isEos, budget - 1);
    }
  }

  /** "The same tokens as a plain turn" holds exactly when no end-of-sequence token turns up within the
      budget. */
  lemma SameTokensIff<S>(sys: System, cfg: Sampling, draw: (S, Logits, seq<Token>) -> (Token, S), s: S,
                         toks: seq<Token>, isEos: Token -> bool, budget: nat)
    requires toks != [] && Greedy(cfg)
    ensures SpecTurn(sys, toks, isEos, budget) == Turn(sys, cfg, draw, s, toks, isEos, budget)
            <==> NoEosWithin(sys, toks, isEos, budget)
  {
    hide Turn, SpecTurn, NoEosWithin, Next;
    SpecTurnIsTurn(sys, cfg, draw, s, toks, isEos, budget);
    TurnSpendsBudget(sys, cfg, draw, s, toks, isEos, budget);
  }

  /** A model of two layers whose head always prefers token 0. */
  const TINY := Model(2, (t: Token) => [0.0], (i: nat, seen: seq<Cell>, pos: nat, row: Row) => row, (row: Row) => [0.0])

  /** One announcing host with the full file, behind a driver that keeps the first layer. */
  const HOST := Listener(Full(TINY), true, 8)

  /** The system a connect to that host opens. */
  ghost function Example(wire: Wire): (sys: System)
    ensures sys.model == TINY && sys.wire == wire
  {
    System(TINY, 1, Opened([HOST], [1], 2), wire)
  }

  /** On a chain a connect opens, and with token 0 ending the sequence, the plain turn is empty and the
      speculative one is not. */
  lemma SameTokensFails(isEos: Token -> bool, draw: (int, Logits, seq<Token>) -> (Token, int), wire: Wire)
    requires isEos(0)
    ensures ValidSplits(1, [1], 2) && AllServe([HOST], [1], TINY) && AllAnnounce([HOST])
    ensures Fresh(Example(wire)) && Tiles(Example(wire).peers, TINY, 1, 2)
    ensures Turn(Example(wire), Sampling(0.0, 1.0, 1), draw, 0, [7], isEos, 1) == []
    ensures SpecTurn(Example(wire), [7], isEos, 1) == [0]
  {
    hide Turn;
    OpenedTiles(TINY, [HOST], [1]);
    GreedyTurn(Example(wire), Sampling(0.0, 1.0, 1), draw, 0, [7], isEos, 1);
    PrefersZero(Example(wire), [7]);
    SpecStep(Example(wire), [7], isEos, 1);
  }

  lemma PrefersZero(sys: System, toks: seq<Token>)
    requires sys.model == TINY && toks != []
    ensures Next(sys, toks) == 0
  {
    assert |NextLogits(sys, toks)| == 1;
  }
}
