/** Plain decoding: a turn over a chain, and the single-process loop it must agree with. */
module Turns {
  import opened Results
  import opened Transformer
  import opened Backends
  import opened Pipeline
  import opened Peers
  import opened Chains

  datatype Sampling = Sampling(temperature: real, repeatPenalty: real, maxNew: nat)

  /** Pick a token. Greedy without a repeat penalty is argmax; every other configuration is some
      function `draw` of the sampler's state, the logits and the tokens so far. */
  function Sample<S>(cfg: Sampling, draw: (S, Logits, seq<Token>) -> (Token, S), s: S, l: Logits, ctx: seq<Token>): (Token, S)
  {
    if cfg.temperature <= 0.0 && cfg.repeatPenalty <= 1.0 then (Argmax(l), s) else draw(s, l, ctx)
  }

  /** What is still to come once `next` has been sampled after `toks` but not yet looked at: stop on
      end-of-sequence or an empty budget, else keep the token and sample again. The end-of-sequence
      token itself is not kept. */
  function Rest<S>(sys: System, cfg: Sampling, draw: (S, Logits, seq<Token>) -> (Token, S), next: Token, rng: S,
                   toks: seq<Token>, isEos: Token -> bool, budget: nat): (out: seq<Token>)
    ensures |out| <= budget
    decreases budget
  {
    if isEos(next) || budget == 0 then []
    else
      var drawn := Sample(cfg, draw, rng, NextLogits(sys, toks + [next]), toks + [next]);
      [next] + Rest(sys, cfg, draw, drawn.0, drawn.1, toks + [next], isEos, budget - 1)
  }

  /** The tokens a turn generates after `toks`. */
  function Turn<S>(sys: System, cfg: Sampling, draw: (S, Logits, seq<Token>) -> (Token, S), s: S, toks: seq<Token>,
                   isEos: Token -> bool, budget: nat): (out: seq<Token>)
    requires toks != []
    ensures |out| <= budget
  {
    var drawn := Sample(cfg, draw, s, NextLogits(sys, toks), toks);
    Rest(sys, cfg, draw, drawn.0, drawn.1, toks, isEos, budget)
  }

  // ---------- the same tokens, draw by draw ----------

  /** The `i`-th draw of a turn that keeps `out`: it is made from the `i`-th state and from the logits behind
      the tokens kept so far. A token that ends the sequence is not kept, and the draw behind the last token
      kept is one, or comes too late for the budget. */
  ghost predicate DrawnAt<S>(sys: System, draw: (S, Logits, seq<Token>) -> (Token, S), states: seq<S>, prompt: seq<Token>,
                             isEos: Token -> bool, budget: nat, out: seq<Token>, i: nat)
    requires prompt != [] && i <= |out| && i + 1 < |states|
  {
    var (token, state) := draw(states[i], NextLogits(sys, prompt + out[..i]), prompt + out[..i]);
    && states[i + 1] == state
    && if i < |out| then out[i] == token && !isEos(token) else isEos(token) || |out| == budget
  }

  /** The sampler starts from its seed and every draw moves it on to the next state. */
  ghost predicate Drawn<S>(sys: System, draw: (S, Logits, seq<Token>) -> (Token, S), states: seq<S>, seed: S,
                           prompt: seq<Token>, isEos: Token -> bool, budget: nat, out: seq<Token>)
    requires prompt != []
  {
    && |out| <= budget && |states| == |out| + 2 && states[0] == seed
    && forall i | 0 <= i <= |out| :: DrawnAt(sys, draw, states, prompt, isEos, budget, out, i)
  }

  /** The same without a sampler: the largest logit at every position. */
  ghost predicate LargestAt(sys: System, prompt: seq<Token>, isEos: Token -> bool, budget: nat, out: seq<Token>, i: nat)
    requires prompt != [] && i <= |out|
  {
    var token := Argmax(NextLogits(sys, prompt + out[..i]));
    if i < |out| then out[i] == token && !isEos(token) else isEos(token) || |out| == budget
  }

  ghost predicate Largest(sys: System, prompt: seq<Token>, isEos: Token -> bool, budget: nat, out: seq<Token>)
    requires prompt != []
  {
    |out| <= budget && forall i | 0 <= i <= |out| :: LargestAt(sys, prompt, isEos, budget, out, i)
  }

  /** What a turn may generate. */
  ghost predicate Generated<S(!new)>(sys: System, cfg: Sampling, draw: (S, Logits, seq<Token>) -> (Token, S), seed: S,
                                     prompt: seq<Token>, isEos: Token -> bool, out: seq<Token>)
    requires prompt != []
  {
    if cfg.temperature <= 0.0 && cfg.repeatPenalty <= 1.0 then Largest(sys, prompt, isEos, cfg.maxNew, out)
    else exists states :: Drawn(sys, draw, states, seed, prompt, isEos, cfg.maxNew, out)
  }

  /** One token of a turn, and the turn behind it. */
  lemma TurnOn<S>(sys: System, cfg: Sampling, draw: (S, Logits, seq<Token>) -> (Token, S), s: S, toks: seq<Token>,
                  isEos: Token -> bool, budget: nat)
    requires toks != []
    ensures var (token, state) := Sample(cfg, draw, s, NextLogits(sys, toks), toks);
            Turn(sys, cfg, draw, s, toks, isEos, budget)
            == if isEos(token) || budget == 0 then []
               else [token] + Turn(sys, cfg, draw, state, toks + [token], isEos, budget - 1)
  {
    hide Sample, NextLogits;
  }

  lemma Behind(toks: seq<Token>, out: seq<Token>, i: nat)
    requires 0 < i <= |out|
    ensures toks + out[..i] == (toks + [out[0]]) + out[1..][..i - 1]
  {
  }

  /** Draws behind the first one are the draws of a turn on one more token from the next state. */
  lemma DrawnOn<S>(sys: System, draw: (S, Logits, seq<Token>) -> (Token, S), states: seq<S>, toks: seq<Token>,
                   isEos: Token -> bool, budget: nat, out: seq<Token>, i: nat)
    requires toks != [] && out != [] && budget > 0 && 0 < i <= |out| && |states| == |out| + 2
    ensures DrawnAt(sys, draw, states, toks, isEos, budget, out, i)
            == DrawnAt(sys, draw, states[1..], toks + [out[0]], isEos, budget - 1, out[1..], i - 1)
  {
    hide NextLogits;
    Behind(toks, out, i);
  }

  lemma {:induction false} TurnIsDrawn<S>(sys: System, cfg: Sampling, draw: (S, Logits, seq<Token>) -> (Token, S), s: S,
                                          toks: seq<Token>, isEos: Token -> bool, budget: nat) returns (states: seq<S>)
    requires toks != [] && !(cfg.temperature <= 0.0 && cfg.repeatPenalty <= 1.0)
    ensures Drawn(sys, draw, states, s, toks, isEos, budget, Turn(sys, cfg, draw, s, toks, isEos, budget))
    decreases budget
  {
    hide NextLogits, Turn, DrawnAt;
    TurnOn(sys, cfg, draw, s, toks, isEos, budget);
    var out := Turn(sys, cfg, draw, s, toks, isEos, budget);
    var (token, state) := draw(s, NextLogits(sys, toks), toks);
    if isEos(token) || budget == 0 {
      states := [s, state];
    } else {
      var later := TurnIsDrawn(sys, cfg, draw, state, toks + [token], isEos, budget - 1);
      states := [s] + later;
      assert states[1..] == later && out[1..] == Turn(sys, cfg, draw, state, toks + [token], isEos, budget - 1);
      forall i | 0 < i <= |out|
        ensures DrawnAt(sys, draw, states, toks, isEos, budget, out, i)
      {
        DrawnOn(sys, draw, states, toks, isEos, budget, out, i);
      }
    }
    FirstDraw(sys, draw, states, toks, isEos, budget, out);
  }

  lemma FirstDraw<S>(sys: System, draw: (S, Logits, seq<Token>) -> (Token, S), states: seq<S>, toks: seq<Token>,
                     isEos: Token -> bool, budget: nat, out: seq<Token>)
    requires toks != [] && |states| > 1
    ensures var (token, state) := draw(states[0], NextLogits(sys, toks), toks);
            DrawnAt(sys, draw, states, toks, isEos, budget, out, 0) <==>
            && states[1] == state
            && if out != [] then out[0] == token && !isEos(token) else isEos(token) || budget == 0
  {
    hide NextLogits;
    assert toks + out[..0] == toks;
  }

  lemma LargestOn(sys: System, toks: seq<Token>, isEos: Token -> bool, budget: nat, out: seq<Token>, i: nat)
    requires toks != [] && out != [] && budget > 0 && 0 < i <= |out|
    ensures LargestAt(sys, toks, isEos, budget, out, i)
            == LargestAt(sys, toks + [out[0]], isEos, budget - 1, out[1..], i - 1)
  {
    hide NextLogits;
    Behind(toks, out, i);
  }

  lemma FirstLargest(sys: System, toks: seq<Token>, isEos: Token -> bool, budget: nat, out: seq<Token>)
    requires toks != []
    ensures var token := Argmax(NextLogits(sys, toks));
            LargestAt(sys, toks, isEos, budget, out, 0) <==>
            if out != [] then out[0] == token && !isEos(token) else isEos(token) || budget == 0
  {
    hide NextLogits;
    assert toks + out[..0] == toks;
  }

  lemma {:induction false} TurnIsLargest<S>(sys: System, cfg: Sampling, draw: (S, Logits, seq<Token>) -> (Token, S), s: S,
                                            toks: seq<Token>, isEos: Token -> bool, budget: nat)
    requires toks != [] && cfg.temperature <= 0.0 && cfg.repeatPenalty <= 1.0
    ensures Largest(sys, toks, isEos, budget, Turn(sys, cfg, draw, s, toks, isEos, budget))
    decreases budget
  {
    hide NextLogits, Turn, LargestAt;
    TurnOn(sys, cfg, draw, s, toks, isEos, budget);
    var out := Turn(sys, cfg, draw, s, toks, isEos, budget);
    var token := Argmax(NextLogits(sys, toks));
    if !isEos(token) && budget > 0 {
      TurnIsLargest(sys, cfg, draw, s, toks + [token], isEos, budget - 1);
      assert out[1..] == Turn(sys, cfg, draw, s, toks + [token], isEos, budget - 1);
      forall i | 0 < i <= |out|
        ensures LargestAt(sys, toks, isEos, budget, out, i)
      {
        LargestOn(sys, toks, isEos, budget, out, i);
      }
    }
    FirstLargest(sys, toks, isEos, budget, out);
  }

  lemma {:induction false} DrawnIsTurn<S>(sys: System, cfg: Sampling, draw: (S, Logits, seq<Token>) -> (Token, S),
                                          states: seq<S>, toks: seq<Token>, isEos: Token -> bool, budget: nat, out: seq<Token>)
    requires toks != [] && !(cfg.temperature <= 0.0 && cfg.repeatPenalty <= 1.0)
    requires states != [] && Drawn(sys, draw, states, states[0], toks, isEos, budget, out)
    ensures out == Turn(sys, cfg, draw, states[0], toks, isEos, budget)
    decreases budget
  {
    hide NextLogits, Turn, DrawnAt;
    TurnOn(sys, cfg, draw, states[0], toks, isEos, budget);
    FirstDraw(sys, draw, states, toks, isEos, budget, out);
    if out != [] {
      var next, more, left, rest := states[1..], toks + [out[0]], budget - 1, out[1..];
      forall i | 0 <= i < |out|
        ensures DrawnAt(sys, draw, next, more, isEos, left, rest, i)
      {
        DrawnOn(sys, draw, states, toks, isEos, budget, out, i + 1);
      }
      DrawnIsTurn(sys, cfg, draw, next, more, isEos, left, rest);
      assert out == [out[0]] + out[1..];
    }
  }

  lemma {:induction false} LargestIsTurn<S>(sys: System, cfg: Sampling, draw: (S, Logits, seq<Token>) -> (Token, S), s: S,
                                            toks: seq<Token>, isEos: Token -> bool, budget: nat, out: seq<Token>)
    requires toks != [] && cfg.temperature <= 0.0 && cfg.repeatPenalty <= 1.0 && Largest(sys, toks, isEos, budget, out)
    ensures out == Turn(sys, cfg, draw, s, toks, isEos, budget)
    decreases budget
  {
    hide NextLogits, Turn, LargestAt;
    TurnOn(sys, cfg, draw, s, toks, isEos, budget);
    FirstLargest(sys, toks, isEos, budget, out);
    if out != [] {
      var more, left, rest := toks + [out[0]], budget - 1, out[1..];
      forall i | 0 <= i < |out|
        ensures LargestAt(sys, more, isEos, left, rest, i)
      {
        LargestOn(sys, toks, isEos, budget, out, i + 1);
      }
      LargestIsTurn(sys, cfg, draw, s, more, isEos, left, rest);
      assert out == [out[0]] + out[1..];
    }
  }

  /** A turn generates the tokens its draws give, and no others. */
  lemma TurnIsGenerated<S(!new)>(sys: System, cfg: Sampling, draw: (S, Logits, seq<Token>) -> (Token, S), seed: S,
                           prompt: seq<Token>, isEos: Token -> bool, out: seq<Token>)
    requires prompt != []
    ensures Generated(sys, cfg, draw, seed, prompt, isEos, out) <==>
            out == Turn(sys, cfg, draw, seed, prompt, isEos, cfg.maxNew)
  {
    hide Turn, Drawn, Largest;
    if cfg.temperature <= 0.0 && cfg.repeatPenalty <= 1.0 {
      TurnIsLargest(sys, cfg, draw, seed, prompt, isEos, cfg.maxNew);
      if Largest(sys, prompt, isEos, cfg.maxNew, out) {
        LargestIsTurn(sys, cfg, draw, seed, prompt, isEos, cfg.maxNew, out);
      }
    } else {
      var states := TurnIsDrawn(sys, cfg, draw, seed, prompt, isEos, cfg.maxNew);
      if some :| Drawn(sys, draw, some, seed, prompt, isEos, cfg.maxNew, out) {
        OnlyDrawn(sys, cfg, draw, seed, some, prompt, isEos, out);
      }
    }
  }

  lemma OnlyDrawn<S>(sys: System, cfg: Sampling, draw: (S, Logits, seq<Token>) -> (Token, S), seed: S, states: seq<S>,
                     prompt: seq<Token>, isEos: Token -> bool, out: seq<Token>)
    requires prompt != [] && !(cfg.temperature <= 0.0 && cfg.repeatPenalty <= 1.0)
    requires Drawn(sys, draw, states, seed, prompt, isEos, cfg.maxNew, out)
    ensures out == Turn(sys, cfg, draw, seed, prompt, isEos, cfg.maxNew)
  {
    hide DrawnAt, Turn;
    DrawnIsTurn(sys, cfg, draw, states, prompt, isEos, cfg.maxNew, out);
  }

  // ---------- the driver's side of one step ----------

  /** Embed tokens and run the driver's own layers. */
  method FrontForward(model: Backend, ids: seq<Token>, pos: nat, frontEnd: nat) returns (r: Result<seq<Row>, Fault>)
    requires model.Valid() && frontEnd <= model.model.nLayers
    modifies model
    ensures model.Valid()
    ensures r.Ok? <==> BatchOk(|ids|, model.nCtx) && Room(old(model.kv[..frontEnd]), |ids|, model.nCtx)
    ensures r.Ok? ==>
      (model.kv[..frontEnd], r.value) == Decode(model.model, 0, old(model.kv[..frontEnd]), pos, Embeds(model.model, ids))
  {
    var embedded :- model.Embed(ids);
    r := model.ForwardRange(embedded, pos, 0, frontEnd);
  }

  /** The driver's front cache and every peer are where a fresh prefill of `toks` would put them. */
  ghost predicate Holds(target: Backend, chain: Chain, sys: System, toks: seq<Token>)
    reads target, chain, chain.Repr
  {
    && target.Valid() && chain.Valid() && target !in chain.Repr
    && sys.model == target.model && sys.frontEnd == chain.frontEnd <= target.model.nLayers && sys.wire == chain.wire
    && Fresh(sys)
    && target.kv[..chain.frontEnd] == Prefill(sys, toks).front && chain.Views() == Prefill(sys, toks).peers
  }

  /** `n` positions fit in every cache of the system, and every peer's file has the layers asked of it. */
  ghost predicate Fits(target: Backend, chain: Chain, n: nat)
  {
    n <= target.nCtx && forall i | 0 <= i < |chain.peers| :: n <= chain.peers[i].loaded.nCtx && chain.peers[i].InFile()
  }

  /** One forward of `ids` at the end of the sequence, through the front slice and the chain. */
  method StepThrough(target: Backend, chain: Chain, ids: seq<Token>, pos: nat, ghost sys: System, ghost toks: seq<Token>)
    returns (r: Result<seq<Row>, Fault>)
    requires Holds(target, chain, sys, toks) && pos == |toks|
    modifies target, chain.Repr
    ensures target.Valid() && chain.Valid()
    ensures r.Ok? ==> ids != [] && Holds(target, chain, sys, toks + ids) && r.value == Prefill(sys, toks + ids).tail[|toks|..]
    ensures r.Ok? ==> BatchOk(|r.value|, target.nCtx) && target.model.head(r.value[|ids| - 1]) == NextLogits(sys, toks + ids)
    ensures r.Ok? && chain.frontEnd > 0 ==> |toks| + |ids| <= target.nCtx
    ensures ids != [] && !chain.faulty && chain.layout.Carries(|ids|) && Fits(target, chain, |toks| + |ids|) ==> r.Ok?
    ensures chain.layout.Refuses(|ids|) && chain.peers != [] ==> r.Err?
  {
    hide ChainStep;
    PrefillCovers(sys, toks);
    PrefillExtends(sys, toks, ids);
    ghost var before := Prefill(sys, toks);
    var front :- FrontForward(target, ids, pos, chain.frontEnd);
    assert chain.Views() == before.peers;
    r := chain.StepWithTruncate(front, All);
  }

  // ---------- a turn over the chain ----------

  /** One step, and the token drawn from the head's logits of the last position. */
  method StepAndSample<S>(target: Backend, chain: Chain, ids: seq<Token>, pos: nat, cfg: Sampling,
                          draw: (S, Logits, seq<Token>) -> (Token, S), rng: S, tokens: seq<Token>,
                          ghost sys: System, ghost toks: seq<Token>)
    returns (r: Result<(Token, S), Fault>)
    requires Holds(target, chain, sys, toks) && pos == |toks| && ids != [] && tokens == toks + ids
    modifies target, chain.Repr
    ensures target.Valid() && chain.Valid()
    ensures r.Ok? ==> Holds(target, chain, sys, tokens)
    ensures r.Ok? ==> r.value == Sample(cfg, draw, rng, NextLogits(sys, tokens), tokens)
    ensures !chain.faulty && chain.layout.Carries(|ids|) && Fits(target, chain, |tokens|) ==> r.Ok?
    ensures chain.layout.Refuses(|ids|) && chain.peers != [] ==> r.Err?
  {
    var tail :- StepThrough(target, chain, ids, pos, sys, toks);
    // The head's own batch check cannot fail: the front slice has just accepted the same batch.
    var logits := target.Head(tail);
    return Ok(Sample(cfg, draw, rng, logits.value, tokens));
  }

  /** Keeping `next` moves it from what is to come to what is out. */
  lemma KeepOne<S>(out: seq<Token>, sys: System, cfg: Sampling, draw: (S, Logits, seq<Token>) -> (Token, S),
                   next: Token, rng: S, toks: seq<Token>, isEos: Token -> bool, budget: nat)
    requires !isEos(next) && budget > 0
    ensures var drawn := Sample(cfg, draw, rng, NextLogits(sys, toks + [next]), toks + [next]);
            out + Rest(sys, cfg, draw, next, rng, toks, isEos, budget)
            == (out + [next]) + Rest(sys, cfg, draw, drawn.0, drawn.1, toks + [next], isEos, budget - 1)
  {
    var drawn := Sample(cfg, draw, rng, NextLogits(sys, toks + [next]), toks + [next]);
    var more := Rest(sys, cfg, draw, drawn.0, drawn.1, toks + [next], isEos, budget - 1);
    assert out + ([next] + more) == (out + [next]) + more;
  }

  lemma Done<S>(sys: System, cfg: Sampling, draw: (S, Logits, seq<Token>) -> (Token, S),
                next: Token, rng: S, toks: seq<Token>, isEos: Token -> bool, budget: nat)
    requires isEos(next) || budget == 0
    ensures Rest(sys, cfg, draw, next, rng, toks, isEos, budget) == []
  {
  }

  /** A fresh chain behind a reset driver has seen nothing. */
  method Begin(target: Backend, chain: Chain, ghost sys: System)
    requires target.Valid() && chain.Valid() && target !in chain.Repr && chain.frontEnd <= target.model.nLayers
    requires sys == System(target.model, chain.frontEnd, chain.Views(), chain.wire) && Fresh(sys)
    modifies target
    ensures Holds(target, chain, sys, [])
  {
    target.ResetCache();
    PrefillNothing(sys);
    assert target.kv[..chain.frontEnd] == EmptyKv(chain.frontEnd);
  }

  /** What a turn reports when `all` is what it ought to generate: exactly `all` on success, a prefix of
      it on failure, and success whenever nothing prevents it. */
  ghost predicate Reports(r: Result<nat, Fault>, out: seq<Token>, all: seq<Token>, able: bool)
  {
    && (r.Ok? ==> out == all && r.value == |out|)
    && out <= all
    && (able ==> r.Ok?)
  }

  /** Sample and step until end-of-sequence or budget. */
  method DecodeLoop<S>(target: Backend, chain: Chain, prompt: seq<Token>, first: Token, seed: S, cfg: Sampling,
                       draw: (S, Logits, seq<Token>) -> (Token, S), isEos: Token -> bool, ghost sys: System)
    returns (r: Result<nat, Fault>, out: seq<Token>)
    requires Holds(target, chain, sys, prompt)
    modifies target, chain.Repr
    ensures Reports(r, out, Rest(sys, cfg, draw, first, seed, prompt, isEos, cfg.maxNew),
                    !chain.faulty && chain.layout.Carries(1) && Fits(target, chain, |prompt| + cfg.maxNew))
    ensures r.Ok? ==> Holds(target, chain, sys, prompt + out)
  {
    hide Prefill, Sample, Fresh, Chain.Valid, NextLogits, Holds, Backend.Valid, Rest;
    out := [];
    var next, rng, tokens, indexPos := first, seed, prompt, |prompt|;
    ghost var all := Rest(sys, cfg, draw, first, seed, prompt, isEos, cfg.maxNew);
    while !isEos(next) && |out| < cfg.maxNew
      invariant |out| <= cfg.maxNew && tokens == prompt + out && indexPos == |tokens|
      invariant Holds(target, chain, sys, tokens)
      invariant all == out + Rest(sys, cfg, draw, next, rng, tokens, isEos, cfg.maxNew - |out|)
      decreases cfg.maxNew - |out|
    {
      KeepOne(out, sys, cfg, draw, next, rng, tokens, isEos, cfg.maxNew - |out|);
      ghost var before := tokens;
      tokens, out := tokens + [next], out + [next];
      var drawn :- StepAndSample(target, chain, [next], indexPos, cfg, draw, rng, tokens, sys, before);
      indexPos := indexPos + 1;
      next, rng := drawn.0, drawn.1;
    }
    Done(sys, cfg, draw, next, rng, tokens, isEos, cfg.maxNew - |out|);
    return Ok(|out|), out;
  }

  /** Reset, prefill, then decode. */
  method RunTurn<S(!new)>(target: Backend, chain: Chain, prompt: seq<Token>, cfg: Sampling,
                    draw: (S, Logits, seq<Token>) -> (Token, S), seed: S, isEos: Token -> bool, ghost sys: System)
    returns (r: Result<nat, Fault>, out: seq<Token>)
    requires target.Valid() && chain.Valid() && target !in chain.Repr && chain.frontEnd <= target.model.nLayers
    requires sys == System(target.model, chain.frontEnd, chain.Views(), chain.wire) && Fresh(sys)
    modifies target, chain.Repr
    ensures prompt == [] ==> r == Err(EmptyPrompt) && out == []
    ensures prompt != [] ==> Reports(r, out, Turn(sys, cfg, draw, seed, prompt, isEos, cfg.maxNew),
                                     !chain.faulty && chain.layout.Carries(|prompt|)
                                     && Fits(target, chain, |prompt| + cfg.maxNew))
    ensures r.Ok? ==> prompt != [] && Generated(sys, cfg, draw, seed, prompt, isEos, out)
    ensures prompt != [] && chain.layout.Refuses(|prompt|) && chain.peers != [] ==> r.Err? && out == []
    ensures r.Ok? ==> Holds(target, chain, sys, prompt + out)
  {
    hide Generated;
    out := [];
    Begin(target, chain, sys);
    if prompt == [] {
      return Err(EmptyPrompt), out;
    }
    assert prompt == [] + prompt;
    if chain.layout.Carries(|prompt|) {
      chain.layout.CarriesFewer(|prompt|, 1);
    }
    var drawn :- StepAndSample(target, chain, prompt, 0, cfg, draw, seed, prompt, sys, []);
    r, out := DecodeLoop(target, chain, prompt, drawn.0, drawn.1, cfg, draw, isEos, sys);
    TurnIsGenerated(sys, cfg, draw, seed, prompt, isEos, out);
  }

  // ---------- the single-process loop ----------

  /** The whole model's cache is where a fresh prefill of `toks` would put it. */
  ghost predicate HoldsLocally(model: Backend, toks: seq<Token>)
    reads model
  {
    model.Valid() && model.kv == Prefill(Monolith(model.model), toks).front
  }

  lemma LocalNothing(model: Backend)
    requires model.Valid() && model.kv == EmptyKv(model.model.nLayers)
    ensures HoldsLocally(model, [])
  {
    PrefillNothing(Monolith(model.model));
  }

  /** One unsplit forward at the end of the sequence. */
  method ForwardLocally(model: Backend, ids: seq<Token>, pos: nat, ghost toks: seq<Token>) returns (r: Result<Logits, Fault>)
    requires HoldsLocally(model, toks) && pos == |toks| && ids != []
    modifies model
    ensures r.Ok? ==> HoldsLocally(model, toks + ids) && r.value == NextLogits(Monolith(model.model), toks + ids)
    ensures |toks| + |ids| <= model.nCtx ==> r.Ok?
  {
    PrefillCovers(Monolith(model.model), toks);
    PrefillExtends(Monolith(model.model), toks, ids);
    r := model.Forward(ids, pos);
  }

  /** One unsplit forward, and the token drawn from it. */
  method ForwardAndSample<S>(model: Backend, ids: seq<Token>, pos: nat, cfg: Sampling,
                             draw: (S, Logits, seq<Token>) -> (Token, S), rng: S, tokens: seq<Token>, ghost toks: seq<Token>)
    returns (r: Result<(Token, S), Fault>)
    requires HoldsLocally(model, toks) && pos == |toks| && ids != [] && tokens == toks + ids
    modifies model
    ensures r.Ok? ==> HoldsLocally(model, tokens)
    ensures r.Ok? ==> r.value == Sample(cfg, draw, rng, NextLogits(Monolith(model.model), tokens), tokens)
    ensures |tokens| <= model.nCtx ==> r.Ok?
  {
    var logits :- ForwardLocally(model, ids, pos, toks);
    return Ok(Sample(cfg, draw, rng, logits, tokens));
  }

  /** Prompt pass, then feed one token at a time at position `tokens.len() - 1`. */
  method Generate<S(!new)>(model: Backend, prompt: seq<Token>, cfg: Sampling,
                     draw: (S, Logits, seq<Token>) -> (Token, S), seed: S, isEos: Token -> bool)
    returns (r: Result<nat, Fault>, out: seq<Token>)
    requires model.Valid()
    modifies model
    ensures prompt == [] ==> r == Err(EmptyPrompt) && out == []
    ensures prompt != [] ==> Reports(r, out, Turn(Monolith(model.model), cfg, draw, seed, prompt, isEos, cfg.maxNew),
                                     |prompt| + cfg.maxNew <= model.nCtx)
    ensures r.Ok? ==> prompt != [] && Generated(Monolith(model.model), cfg, draw, seed, prompt, isEos, out)
  {
    hide Prefill, Sample, NextLogits, HoldsLocally, Rest, Generated;
    out := [];
    ghost var sys := Monolith(model.model);
    model.ResetCache();
    LocalNothing(model);
    if prompt == [] {
      return Err(EmptyPrompt), out;
    }
    var tokens := prompt;
    assert tokens == [] + prompt;
    var drawn :- ForwardAndSample(model, tokens, 0, cfg, draw, seed, tokens, []);
    var next, rng := drawn.0, drawn.1;
    ghost var all := Rest(sys, cfg, draw, next, rng, prompt, isEos, cfg.maxNew);
    while !isEos(next) && |out| < cfg.maxNew
      invariant |out| <= cfg.maxNew && tokens == prompt + out
      invariant HoldsLocally(model, tokens)
      invariant all == out + Rest(sys, cfg, draw, next, rng, tokens, isEos, cfg.maxNew - |out|)
      decreases cfg.maxNew - |out|
    {
      KeepOne(out, sys, cfg, draw, next, rng, tokens, isEos, cfg.maxNew - |out|);
      ghost var before := tokens;
      tokens, out := tokens + [next], out + [next];
      var idx := |tokens| - 1;
      drawn :- ForwardAndSample(model, [next], idx, cfg, draw, rng, tokens, before);
      next, rng := drawn.0, drawn.1;
    }
    Done(sys, cfg, draw, next, rng, tokens, isEos, cfg.maxNew - |out|);
    TurnIsGenerated(sys, cfg, draw, seed, prompt, isEos, out);
    return Ok(|out|), out;
  }

  // ---------- the two agree ----------

  lemma SameNextLogits(sys: System, toks: seq<Token>)
    requires toks != [] && Fresh(sys) && Lossless(sys.wire)
    requires Tiles(sys.peers, sys.model, sys.frontEnd, sys.model.nLayers)
    ensures NextLogits(sys, toks) == NextLogits(Monolith(sys.model), toks)
  {
    SplitIsMonolith(sys, toks);
  }

  lemma {:induction false} SameRest<S>(sys: System, cfg: Sampling, draw: (S, Logits, seq<Token>) -> (Token, S),
                                       next: Token, rng: S, toks: seq<Token>, isEos: Token -> bool, budget: nat)
    requires Fresh(sys) && Lossless(sys.wire) && Tiles(sys.peers, sys.model, sys.frontEnd, sys.model.nLayers)
    ensures Rest(sys, cfg, draw, next, rng, toks, isEos, budget)
            == Rest(Monolith(sys.model), cfg, draw, next, rng, toks, isEos, budget)
    decreases budget
  {
    if !isEos(next) && budget > 0 {
      SameNextLogits(sys, toks + [next]);
      var drawn := Sample(cfg, draw, rng, NextLogits(sys, toks + [next]), toks + [next]);
      SameRest(sys, cfg, draw, drawn.0, drawn.1, toks + [next], isEos, budget - 1);
    }
  }

  /** Over a lossless wire and any tiling of the model, a turn over the chain generates what the
      single-process loop generates, for every seed and every sampling configuration. */
  lemma ChainTurnIsLocalTurn<S>(sys: System, cfg: Sampling, draw: (S, Logits, seq<Token>) -> (Token, S), seed: S,
                                prompt: seq<Token>, isEos: Token -> bool, budget: nat)
    requires prompt != [] && Fresh(sys) && Lossless(sys.wire)
    requires Tiles(sys.peers, sys.model, sys.frontEnd, sys.model.nLayers)
    ensures Turn(sys, cfg, draw, seed, prompt, isEos, budget)
            == Turn(Monolith(sys.model), cfg, draw, seed, prompt, isEos, budget)
  {
    SameNextLogits(sys, prompt);
    var drawn := Sample(cfg, draw, seed, NextLogits(sys, prompt), prompt);
    SameRest(sys, cfg, draw, drawn.0, drawn.1, prompt, isEos, budget);
  }

  /** The same, for the system a successful connect opens on any valid split list. */
  lemma ConnectedTurnIsLocalTurn<S>(m: Model, hosts: seq<Listener>, splits: seq<nat>, wire: Wire, cfg: Sampling,
                                    draw: (S, Logits, seq<Token>) -> (Token, S), seed: S, prompt: seq<Token>,
                                    isEos: Token -> bool, budget: nat)
    requires ValidSplits(|hosts|, splits, m.nLayers) && AllServe(hosts, splits, m) && Lossless(wire) && prompt != []
    ensures AllLoad(hosts, splits, m.nLayers)
    ensures Turn(System(m, splits[0], Opened(hosts, splits, m.nLayers), wire), cfg, draw, seed, prompt, isEos, budget)
            == Turn(Monolith(m), cfg, draw, seed, prompt, isEos, budget)
  {
    OpenedTiles(m, hosts, splits);
    ChainTurnIsLocalTurn(System(m, splits[0], Opened(hosts, splits, m.nLayers), wire), cfg, draw, seed, prompt, isEos, budget);
  }
}
