/** The peer-to-peer chunk fetcher: commands, provider queries and replies arriving in any order. */
module P2p {
  import opened Results
  import opened Bytes
  import opened Manifests

  type Peer = nat

  /** A caller who does not know the size asks for this one. */
  const ANY_SIZE: nat := 0xffff_ffff_ffff_ffff

  datatype FetchError = NoProviders | QueryFailed | WrongSize | WrongHash | AllNotFound | RequestFailed

  /** A fetch under way: who is known to have the chunk, who has been asked, and whom to tell. */
  datatype Pending = Pending(expected: nat, found: set<Peer>, tried: set<Peer>, waiter: nat)

  /** What a waiter was told about which chunk. */
  datatype Reply = Reply(cid: Cid, expected: nat, result: Result<seq<byte>, FetchError>)

  /** The driver's tables, the network's identifiers, and what has left the driver so far: replies,
      waiters let go without one, and requests by waiter and provider. */
  datatype State = State(
    pending: map<Cid, Pending>, reqToCid: map<nat, Cid>, providerQuery: map<nat, Cid>,
    openQueries: set<nat>, nextQuery: nat, nextReq: nat,
    waiters: nat, replies: map<nat, Reply>, displaced: set<nat>, asks: multiset<(nat, Peer)>)

  const START: State := State(map[], map[], map[], {}, 0, 0, 0, map[], {}, multiset{})

  datatype Event =
    | Fetch(cid: Cid, expected: nat)
    | ProvidersFound(query: nat, providers: seq<Peer>)
    | QueryFinished(query: nat)
    | QueryError(query: nat)
    | GotBytes(req: nat, bytes: seq<byte>)
    | GotNotFound(req: nat)
    | OutboundFailure(req: nat)

  // ---------- the invariant ----------

  ghost predicate InFlight(s: State, c: Cid) {
    exists r | r in s.reqToCid :: s.reqToCid[r] == c
  }

  ghost predicate Queried(s: State, c: Cid) {
    exists q | q in s.openQueries :: q in s.providerQuery && s.providerQuery[q] == c
  }

  /** A pending fetch always has something to wait for: an open query while nobody is known, an
      outstanding request once somebody is. */
  ghost predicate NotStranded(s: State, c: Cid)
    requires c in s.pending
  {
    if s.pending[c].found == {} then Queried(s, c) else InFlight(s, c)
  }

  /** A reply that carries bytes carries the right ones. */
  predicate Honest(hash: seq<byte> -> Cid, r: Reply) {
    r.result.Ok? ==> hash(r.result.value) == r.cid && (r.expected == ANY_SIZE || |r.result.value| == r.expected)
  }

  /** A pending fetch has asked exactly those it remembers, all of them known, and is unanswered. */
  ghost predicate Tracked(s: State, pf: Pending) {
    && pf.tried <= pf.found
    && pf.waiter < s.waiters && pf.waiter !in s.replies && pf.waiter !in s.displaced
    && forall p :: p in pf.tried <==> (pf.waiter, p) in s.asks
  }

  ghost predicate Waits(s: State, w: nat) {
    exists c | c in s.pending :: s.pending[c].waiter == w
  }

  /** Every accepted fetch is still waiting, answered, or let go. */
  ghost predicate Accounted(s: State) {
    && (forall w | w in s.replies :: w < s.waiters && w !in s.displaced)
    && (forall w | w in s.displaced :: w < s.waiters)
    && (forall w: nat | w < s.waiters :: w in s.replies || w in s.displaced || Waits(s, w))
  }

  ghost predicate Fresh(s: State) {
    && (forall q | q in s.openQueries :: q in s.providerQuery)
    && (forall q | q in s.providerQuery :: q < s.nextQuery)
    && (forall r | r in s.reqToCid :: r < s.nextReq)
  }

  /** No provider is asked twice on behalf of one waiter. */
  ghost predicate AskedOnce(s: State) {
    (forall x :: s.asks[x] <= 1) && forall x | x in s.asks :: x.0 < s.waiters
  }

  /** Everything but the wake-up of the fetch for `gap`. */
  ghost predicate ValidBut(hash: seq<byte> -> Cid, s: State, gap: Option<Cid>) {
    && (forall c | c in s.pending :: Tracked(s, s.pending[c]))
    && (forall c | c in s.pending && Some(c) != gap :: NotStranded(s, c))
    && (forall c, d | c in s.pending && d in s.pending && c != d :: s.pending[c].waiter != s.pending[d].waiter)
    && Accounted(s) && Fresh(s) && AskedOnce(s)
    && forall w | w in s.replies :: Honest(hash, s.replies[w])
  }

  ghost predicate Valid(hash: seq<byte> -> Cid, s: State) {
    ValidBut(hash, s, None)
  }

  lemma StartValid(hash: seq<byte> -> Cid)
    ensures Valid(hash, START)
  {
  }

  // ---------- the elementary steps ----------

  /** Answer the waiter of a pending fetch and forget the fetch. */
  function Settle(s: State, c: Cid, result: Result<seq<byte>, FetchError>): State
    requires c in s.pending
  {
    var pf := s.pending[c];
    s.(pending := s.pending - {c}, replies := s.replies[pf.waiter := Reply(c, pf.expected, result)])
  }

  /** Send a request for `c` to `p`. */
  function Ask(s: State, c: Cid, p: Peer): State
    requires c in s.pending
  {
    var pf := s.pending[c];
    s.(pending := s.pending[c := pf.(tried := pf.tried + {p})],
       reqToCid := s.reqToCid[s.nextReq := c], nextReq := s.nextReq + 1,
       asks := s.asks + multiset{(pf.waiter, p)})
  }

  /** Answers are final: no waiter is told twice. */
  predicate Final(s: State, s': State) {
    forall w | w in s.replies :: w in s'.replies && s'.replies[w] == s.replies[w]
  }

  lemma SettleAccounts(s: State, c: Cid, result: Result<seq<byte>, FetchError>)
    requires c in s.pending && Accounted(s) && Tracked(s, s.pending[c])
    ensures Accounted(Settle(s, c, result))
  {
    var s' := Settle(s, c, result);
    forall w: nat | w < s'.waiters
      ensures w in s'.replies || w in s'.displaced || Waits(s', w)
    {
      if w !in s'.replies && w !in s'.displaced {
        var d :| d in s.pending && s.pending[d].waiter == w;
        assert d in s'.pending && s'.pending[d].waiter == w;
      }
    }
  }

  lemma KeepsWaiting(s: State, s': State, c: Cid)
    requires c in s.pending && NotStranded(s, c) && c in s'.pending && s'.pending[c].found == s.pending[c].found
    requires forall q | q in s.openQueries && q in s.providerQuery && s.providerQuery[q] == c ::
      q in s'.openQueries && q in s'.providerQuery && s'.providerQuery[q] == c
    requires forall r | r in s.reqToCid && s.reqToCid[r] == c :: r in s'.reqToCid && s'.reqToCid[r] == c
    ensures NotStranded(s', c)
  {
    if s.pending[c].found == {} {
      var q :| q in s.openQueries && q in s.providerQuery && s.providerQuery[q] == c;
      assert q in s'.openQueries;
    } else {
      var r :| r in s.reqToCid && s.reqToCid[r] == c;
      assert r in s'.reqToCid;
    }
  }

  lemma SettleValid(hash: seq<byte> -> Cid, s: State, c: Cid, result: Result<seq<byte>, FetchError>)
    requires c in s.pending && ValidBut(hash, s, Some(c))
    requires Honest(hash, Reply(c, s.pending[c].expected, result))
    ensures Valid(hash, Settle(s, c, result)) && Final(s, Settle(s, c, result))
  {
    hide Accounted, NotStranded, Honest, AskedOnce;
    var s' := Settle(s, c, result);
    assert Tracked(s, s.pending[c]);
    SettleAccounts(s, c, result);
    SameAsks(s, s');
    forall d | d in s'.pending
      ensures NotStranded(s', d)
    {
      KeepsWaiting(s, s', d);
    }
  }

  lemma SameAsks(s: State, s': State)
    requires AskedOnce(s) && s.asks == s'.asks && s.waiters <= s'.waiters
    ensures AskedOnce(s')
  {
  }

  lemma SameAccounts(s: State, s': State)
    requires Accounted(s) && s'.waiters == s.waiters && s'.replies == s.replies && s'.displaced == s.displaced
    requires forall c | c in s.pending :: c in s'.pending && s'.pending[c].waiter == s.pending[c].waiter
    ensures Accounted(s')
  {
    forall w: nat | w < s'.waiters
      ensures w in s'.replies || w in s'.displaced || Waits(s', w)
    {
      if w !in s'.replies && w !in s'.displaced {
        var c :| c in s.pending && s.pending[c].waiter == w;
        assert s'.pending[c].waiter == w;
      }
    }
  }

  lemma AskValid(hash: seq<byte> -> Cid, s: State, c: Cid, p: Peer)
    requires c in s.pending && ValidBut(hash, s, Some(c)) && p in s.pending[c].found && p !in s.pending[c].tried
    ensures Valid(hash, Ask(s, c, p))
  {
    hide Accounted, NotStranded, Honest, AskedOnce, Tracked;
    var s' := Ask(s, c, p);
    SameAccounts(s, s');
    AskTracks(s, c, p, c);
    forall d | d in s'.pending
      ensures Tracked(s', s'.pending[d])
    {
      AskTracks(s, c, p, d);
    }
    forall d | d in s'.pending
      ensures NotStranded(s', d)
    {
      if d == c {
        AskedIsInFlight(s, c, p);
      } else {
        KeepsWaiting(s, s', d);
      }
    }
  }

  lemma AskTracks(s: State, c: Cid, p: Peer, d: Cid)
    requires c in s.pending && d in s.pending && p in s.pending[c].found && p !in s.pending[c].tried
    requires Tracked(s, s.pending[c]) && Tracked(s, s.pending[d]) && AskedOnce(s)
    requires c != d ==> s.pending[c].waiter != s.pending[d].waiter
    ensures Tracked(Ask(s, c, p), Ask(s, c, p).pending[d]) && AskedOnce(Ask(s, c, p))
  {
  }

  lemma AskedIsInFlight(s: State, c: Cid, p: Peer)
    requires c in s.pending && p in s.pending[c].found
    ensures NotStranded(Ask(s, c, p), c)
  {
    assert Ask(s, c, p).reqToCid[s.nextReq] == c;
  }

  // ---------- the steps of the driver ----------

  /** The chunk a query is about, while its fetch is pending. */
  function QueryFor(s: State, q: nat): (c: Option<Cid>)
    ensures c.Some? ==> c.value in s.pending
  {
    if q in s.providerQuery && s.providerQuery[q] in s.pending then Some(s.providerQuery[q]) else None
  }

  /** The chunk a request is about, while its fetch is pending. */
  function RequestFor(s: State, r: nat): (c: Option<Cid>)
    ensures c.Some? ==> c.value in s.pending
  {
    if r in s.reqToCid && s.reqToCid[r] in s.pending then Some(s.reqToCid[r]) else None
  }

  function WithoutQuery(s: State, q: nat): State {
    s.(openQueries := s.openQueries - {q})
  }

  function WithoutRequest(s: State, r: nat): State {
    s.(reqToCid := s.reqToCid - {r})
  }

  function SetOf(providers: seq<Peer>): set<Peer> {
    set p | p in providers
  }

  function Knowing(s: State, c: Cid, providers: set<Peer>): State
    requires c in s.pending
  {
    s.(pending := s.pending[c := s.pending[c].(found := s.pending[c].found + providers)])
  }

  /** `p` is in the batch, has not been asked, and all before it have. */
  predicate IsFirstUntried(providers: seq<Peer>, tried: set<Peer>, p: Peer) {
    p !in tried && exists i | 0 <= i < |providers| :: providers[i] == p && forall j | 0 <= j < i :: providers[j] in tried
  }

  function NewFetch(s: State, c: Cid, expected: nat): State {
    var q, w := s.nextQuery, s.waiters;
    s.(nextQuery := q + 1, openQueries := s.openQueries + {q}, providerQuery := s.providerQuery[q := c],
       displaced := s.displaced + if c in s.pending then {s.pending[c].waiter} else {},
       waiters := w + 1, pending := s.pending[c := Pending(expected, {}, {}, w)])
  }

  /** What a fetch makes of bytes that claim to be its chunk. */
  function Checked(hash: seq<byte> -> Cid, c: Cid, expected: nat, bytes: seq<byte>): (r: Result<seq<byte>, FetchError>)
    ensures Honest(hash, Reply(c, expected, r))
    ensures r.Ok? <==> (expected == ANY_SIZE || |bytes| == expected) && hash(bytes) == c
  {
    if !(expected == ANY_SIZE || |bytes| == expected) then Err(WrongSize)
    else if hash(bytes) != c then Err(WrongHash)
    else Ok(bytes)
  }

  /** What one event does: queries and requests that no pending fetch stands behind only leave the network.
      - A fetch starts a query; a pending fetch of the same chunk loses its waiter.
      - Providers are all remembered and the first of the batch not asked yet is asked.
      - A finished query fails a fetch that knows nobody; a failed query fails its fetch, whoever is known.
      - Bytes end the fetch. Not found asks some provider not asked yet, or fails when there is none.
      - A failed request fails the fetch, whoever else is known. */
  ghost predicate Step(hash: seq<byte> -> Cid, s: State, e: Event, s': State) {
    match e
    case Fetch(c, expected) => s' == NewFetch(s, c, expected)
    case ProvidersFound(q, providers) => (
      match QueryFor(s, q)
      case None => s' == s
      case Some(c) =>
        var known := Knowing(s, c, SetOf(providers));
        if SetOf(providers) <= s.pending[c].tried then s' == known
        else exists p | IsFirstUntried(providers, s.pending[c].tried, p) :: s' == Ask(known, c, p))
    case QueryFinished(q) => (
      match QueryFor(s, q)
      case None => s' == WithoutQuery(s, q)
      case Some(c) =>
        if s.pending[c].found == {} then s' == Settle(WithoutQuery(s, q), c, Err(NoProviders))
        else s' == WithoutQuery(s, q))
    case QueryError(q) => (
      match QueryFor(s, q)
      case None => s' == WithoutQuery(s, q)
      case Some(c) => s' == Settle(WithoutQuery(s, q), c, Err(QueryFailed)))
    case GotBytes(r, bytes) => (
      match RequestFor(s, r)
      case None => s' == WithoutRequest(s, r)
      case Some(c) => s' == Settle(WithoutRequest(s, r), c, Checked(hash, c, s.pending[c].expected, bytes)))
    case GotNotFound(r) => (
      match RequestFor(s, r)
      case None => s' == WithoutRequest(s, r)
      case Some(c) =>
        if s.pending[c].found <= s.pending[c].tried then s' == Settle(WithoutRequest(s, r), c, Err(AllNotFound))
        else exists p | p in s.pending[c].found && p !in s.pending[c].tried :: s' == Ask(WithoutRequest(s, r), c, p))
    case OutboundFailure(r) => (
      match RequestFor(s, r)
      case None => s' == WithoutRequest(s, r)
      case Some(c) => s' == Settle(WithoutRequest(s, r), c, Err(RequestFailed)))
  }

  lemma NewFetchValid(hash: seq<byte> -> Cid, s: State, c: Cid, expected: nat)
    requires Valid(hash, s)
    ensures Valid(hash, NewFetch(s, c, expected))
  {
    hide Accounted, NotStranded, Honest, AskedOnce, Tracked;
    var s' := NewFetch(s, c, expected);
    NewFetchAccounts(s, s', c);
    SameAsks(s, s');
    NewFetchTracks(s, s', c);
    WaitersAreOld(s);
    forall d | d in s'.pending
      ensures NotStranded(s', d)
    {
      if d == c {
        NewFetchWaits(s', c, s.nextQuery);
      } else {
        KeepsWaiting(s, s', d);
      }
    }
  }

  lemma WaitersAreOld(s: State)
    requires forall d | d in s.pending :: Tracked(s, s.pending[d])
    ensures forall d | d in s.pending :: s.pending[d].waiter < s.waiters
  {
  }

  lemma NewFetchWaits(s: State, c: Cid, q: nat)
    requires c in s.pending && s.pending[c].found == {} && q in s.openQueries && q in s.providerQuery && s.providerQuery[q] == c
    ensures NotStranded(s, c)
  {
  }

  lemma NewFetchTracks(s: State, s': State, c: Cid)
    requires (forall d | d in s.pending :: Tracked(s, s.pending[d])) && AskedOnce(s) && Accounted(s)
    requires forall d, e | d in s.pending && e in s.pending && d != e :: s.pending[d].waiter != s.pending[e].waiter
    requires c in s'.pending && s'.pending == s.pending[c := s'.pending[c]]
    requires s'.pending[c].found == {} == s'.pending[c].tried && s'.pending[c].waiter == s.waiters && s'.waiters == s.waiters + 1
    requires s'.displaced == s.displaced + if c in s.pending then {s.pending[c].waiter} else {}
    requires s'.replies == s.replies && s'.asks == s.asks
    ensures forall d | d in s'.pending :: Tracked(s', s'.pending[d])
  {
  }

  lemma NewFetchAccounts(s: State, s': State, c: Cid)
    requires Accounted(s) && (forall d | d in s.pending :: Tracked(s, s.pending[d]))
    requires c in s'.pending && s'.pending == s.pending[c := s'.pending[c]] && s'.pending[c].waiter == s.waiters
    requires s'.displaced == s.displaced + if c in s.pending then {s.pending[c].waiter} else {}
    requires s'.replies == s.replies && s'.waiters == s.waiters + 1
    ensures Accounted(s')
  {
    forall w: nat | w < s'.waiters
      ensures w in s'.replies || w in s'.displaced || Waits(s', w)
    {
      if w == s.waiters {
        assert s'.pending[c].waiter == w;
      } else if w !in s'.replies && w !in s'.displaced {
        var d :| d in s.pending && s.pending[d].waiter == w;
        assert s'.pending[d].waiter == w;
      }
    }
  }

  lemma LearnValid(hash: seq<byte> -> Cid, s: State, c: Cid, providers: set<Peer>)
    requires c in s.pending && Valid(hash, s)
    ensures ValidBut(hash, Knowing(s, c, providers), Some(c))
  {
    hide NotStranded, Accounted, AskedOnce, Honest;
    var s' := Knowing(s, c, providers);
    SameAccounts(s, s');
    SameAsks(s, s');
    forall d | d in s'.pending && d != c
      ensures NotStranded(s', d)
    {
      KeepsWaiting(s, s', d);
    }
  }

  /** A batch that brings nobody new adds nobody, or finds a request outstanding. */
  lemma NobodyNew(s: State, c: Cid, providers: set<Peer>)
    requires c in s.pending && Tracked(s, s.pending[c]) && NotStranded(s, c) && providers <= s.pending[c].tried
    ensures NotStranded(Knowing(s, c, providers), c)
  {
    assert s.pending[c].found + providers == s.pending[c].found;
    KeepsWaiting(s, Knowing(s, c, providers), c);
  }

  lemma ProvidersValid(hash: seq<byte> -> Cid, s: State, q: nat, providers: seq<Peer>, s': State)
    requires Valid(hash, s) && Step(hash, s, ProvidersFound(q, providers), s')
    ensures Valid(hash, s') && s'.replies == s.replies
  {
    hide NotStranded, Tracked, AskedOnce, Accounted, Honest, IsFirstUntried;
    if QueryFor(s, q).Some? {
      var c := QueryFor(s, q).value;
      var known := Knowing(s, c, SetOf(providers));
      LearnValid(hash, s, c, SetOf(providers));
      if SetOf(providers) <= s.pending[c].tried {
        NobodyNew(s, c, SetOf(providers));
      } else {
        var p :| IsFirstUntried(providers, s.pending[c].tried, p) && s' == Ask(known, c, p);
        UntriedIsFound(providers, s.pending[c].tried, p);
        AskValid(hash, known, c, p);
      }
    }
  }

  lemma UntriedIsFound(providers: seq<Peer>, tried: set<Peer>, p: Peer)
    requires IsFirstUntried(providers, tried, p)
    ensures p in SetOf(providers) && p !in tried
  {
  }

  /** Closing a query can only leave the fetch for its chunk without a wake-up. */
  lemma CloseValid(hash: seq<byte> -> Cid, s: State, q: nat)
    requires Valid(hash, s) && q in s.providerQuery
    ensures ValidBut(hash, WithoutQuery(s, q), Some(s.providerQuery[q]))
    ensures var c := s.providerQuery[q];
            c in s.pending && s.pending[c].found != {} ==> Valid(hash, WithoutQuery(s, q))
    ensures s.providerQuery[q] !in s.pending ==> Valid(hash, WithoutQuery(s, q))
  {
    hide NotStranded, Accounted, AskedOnce, Honest;
    var s', c := WithoutQuery(s, q), s.providerQuery[q];
    SameAccounts(s, s');
    SameAsks(s, s');
    forall d | d in s'.pending && (d != c || s.pending[c].found != {})
      ensures NotStranded(s', d)
    {
      ClosedKeeps(s, q, d);
    }
  }

  lemma ClosedKeeps(s: State, q: nat, d: Cid)
    requires q in s.providerQuery && d in s.pending && NotStranded(s, d)
    requires d != s.providerQuery[q] || s.pending[d].found != {}
    ensures NotStranded(WithoutQuery(s, q), d)
  {
    var s' := WithoutQuery(s, q);
    if s.pending[d].found == {} {
      var p :| p in s.openQueries && p in s.providerQuery && s.providerQuery[p] == d;
      assert p in s'.openQueries;
    } else {
      var r :| r in s.reqToCid && s.reqToCid[r] == d;
      assert r in s'.reqToCid;
    }
  }

  lemma UnknownQuery(hash: seq<byte> -> Cid, s: State, q: nat)
    requires Valid(hash, s) && q !in s.providerQuery
    ensures WithoutQuery(s, q) == s
  {
  }

  lemma UnknownRequest(s: State, r: nat)
    requires r !in s.reqToCid
    ensures WithoutRequest(s, r) == s
  {
    assert s.reqToCid - {r} == s.reqToCid;
  }

  /** The end of a query, well or not. */
  lemma QueryEndValid(hash: seq<byte> -> Cid, s: State, e: Event, s': State)
    requires e.QueryFinished? || e.QueryError?
    requires Valid(hash, s) && Step(hash, s, e, s')
    ensures Valid(hash, s') && Final(s, s')
  {
    hide ValidBut, Honest;
    var q := e.query;
    if q !in s.providerQuery {
      UnknownQuery(hash, s, q);
    } else {
      var c := s.providerQuery[q];
      CloseValid(hash, s, q);
      if c in s.pending {
        var error := if e.QueryFinished? then NoProviders else QueryFailed;
        FailureIsHonest(hash, c, s.pending[c].expected, error);
        if e.QueryError? || s.pending[c].found == {} {
          SettleValid(hash, WithoutQuery(s, q), c, Err(error));
        }
      }
    }
  }

  /** A request has come back: its chunk's fetch may be left without a wake-up. */
  lemma AnsweredValid(hash: seq<byte> -> Cid, s: State, r: nat)
    requires Valid(hash, s) && r in s.reqToCid
    ensures ValidBut(hash, WithoutRequest(s, r), Some(s.reqToCid[r]))
    ensures s.reqToCid[r] !in s.pending ==> Valid(hash, WithoutRequest(s, r))
  {
    hide NotStranded, Accounted, AskedOnce, Honest;
    var s', c := WithoutRequest(s, r), s.reqToCid[r];
    SameAccounts(s, s');
    SameAsks(s, s');
    forall d | d in s'.pending && d != c
      ensures NotStranded(s', d)
    {
      KeepsWaiting(s, s', d);
    }
  }

  lemma FailureIsHonest(hash: seq<byte> -> Cid, c: Cid, expected: nat, e: FetchError)
    ensures Honest(hash, Reply(c, expected, Err(e)))
  {
  }

  /** A request has come back, with a chunk, with a refusal or not at all. */
  lemma RequestEndValid(hash: seq<byte> -> Cid, s: State, e: Event, s': State)
    requires e.GotBytes? || e.GotNotFound? || e.OutboundFailure?
    requires Valid(hash, s) && Step(hash, s, e, s')
    ensures Valid(hash, s') && Final(s, s')
  {
    hide NotStranded, Tracked, AskedOnce, Accounted, Honest;
    var r := e.req;
    if r !in s.reqToCid {
      UnknownRequest(s, r);
      return;
    }
    var c, answered := s.reqToCid[r], WithoutRequest(s, r);
    AnsweredValid(hash, s, r);
    if c in s.pending {
      var pf := s.pending[c];
      if e.GotNotFound? && !(pf.found <= pf.tried) {
        var p :| p in pf.found && p !in pf.tried && s' == Ask(answered, c, p);
        AskValid(hash, answered, c, p);
      } else {
        var result := if e.GotBytes? then Checked(hash, c, pf.expected, e.bytes)
                      else Err(if e.GotNotFound? then AllNotFound else RequestFailed);
        if result.Err? {
          FailureIsHonest(hash, c, pf.expected, result.error);
        }
        SettleValid(hash, answered, c, result);
      }
    }
  }

  /** Every step keeps the invariant and every answer given. */
  lemma StepValid(hash: seq<byte> -> Cid, s: State, e: Event, s': State)
    requires Valid(hash, s) && Step(hash, s, e, s')
    ensures Valid(hash, s') && Final(s, s')
  {
    hide ValidBut;
    match e
    case Fetch(c, expected) => NewFetchValid(hash, s, c, expected);
    case ProvidersFound(q, providers) => ProvidersValid(hash, s, q, providers, s');
    case QueryFinished(_) => QueryEndValid(hash, s, e, s');
    case QueryError(_) => QueryEndValid(hash, s, e, s');
    case GotBytes(_, _) => RequestEndValid(hash, s, e, s');
    case GotNotFound(_) => RequestEndValid(hash, s, e, s');
    case OutboundFailure(_) => RequestEndValid(hash, s, e, s');
  }

  // ---------- the event handlers ----------

  /** A fetch command. */
  method OnFetch(s: State, c: Cid, expected: nat, ghost hash: seq<byte> -> Cid) returns (s': State)
    requires Valid(hash, s)
    ensures Valid(hash, s') && Final(s, s') && Step(hash, s, Fetch(c, expected), s')
    ensures s'.pending == s.pending[c := Pending(expected, {}, {}, s.waiters)] && s'.waiters == s.waiters + 1
    ensures s'.replies == s.replies && s'.asks == s.asks && s'.reqToCid == s.reqToCid
    ensures s'.displaced == s.displaced + if c in s.pending then {s.pending[c].waiter} else {}
    ensures s'.openQueries == s.openQueries + {s.nextQuery} && s'.providerQuery == s.providerQuery[s.nextQuery := c]
    ensures s'.nextQuery == s.nextQuery + 1 && s'.nextReq == s.nextReq
  {
    hide ValidBut;
    s' := NewFetch(s, c, expected);
    StepValid(hash, s, Fetch(c, expected), s');
  }

  /** The first of a batch not asked yet. */
  method FirstUntried(providers: seq<Peer>, tried: set<Peer>) returns (r: Option<Peer>)
    ensures r.Some? ==> IsFirstUntried(providers, tried, r.value)
    ensures r.None? <==> SetOf(providers) <= tried
  {
    for i := 0 to |providers|
      invariant forall j | 0 <= j < i :: providers[j] in tried
    {
      if providers[i] !in tried {
        assert providers[i] in SetOf(providers);
        return Some(providers[i]);
      }
    }
    return None;
  }

  lemma BatchKnown(providers: seq<Peer>, tried: set<Peer>)
    ensures SetOf(providers) == set p | p in providers
    ensures SetOf(providers) <= tried <==> forall p | p in providers :: p in tried
  {
    if SetOf(providers) <= tried {
      forall p | p in providers
        ensures p in tried
      {
        assert p in SetOf(providers);
      }
    }
  }

  /** What asking the first untried provider of a batch comes to. */
  lemma OneOfBatch(s: State, c: Cid, providers: seq<Peer>, p: Peer)
    requires c in s.pending && IsFirstUntried(providers, s.pending[c].tried, p)
    ensures var was := s.pending[c];
            var found := was.found + SetOf(providers);
            exists i | 0 <= i < |providers| && providers[i] !in was.tried ::
              && (forall j | 0 <= j < i :: providers[j] in was.tried)
              && Ask(Knowing(s, c, SetOf(providers)), c, p)
                 == s.(pending := s.pending[c := was.(found := found, tried := was.tried + {providers[i]})],
                       reqToCid := s.reqToCid[s.nextReq := c], nextReq := s.nextReq + 1,
                       asks := s.asks + multiset{(was.waiter, providers[i])})
  {
    hide SetOf;
    var i :| 0 <= i < |providers| && providers[i] == p && forall j | 0 <= j < i :: providers[j] in s.pending[c].tried;
    assert providers[i] !in s.pending[c].tried;
    var was, known := s.pending[c], Knowing(s, c, SetOf(providers));
    var now := was.(found := was.found + SetOf(providers), tried := was.tried + {p});
    assert Ask(known, c, p).pending == s.pending[c := now];
  }

  /** A batch of providers. */
  method OnProvidersFound(s: State, q: nat, providers: seq<Peer>, ghost hash: seq<byte> -> Cid) returns (s': State)
    requires Valid(hash, s)
    ensures Valid(hash, s') && Final(s, s') && Step(hash, s, ProvidersFound(q, providers), s')
    ensures !(q in s.providerQuery && s.providerQuery[q] in s.pending) ==> s' == s
    ensures q in s.providerQuery && s.providerQuery[q] in s.pending ==>
      var c := s.providerQuery[q];
      var was := s.pending[c];
      var found := was.found + set p | p in providers;
      if forall p | p in providers :: p in was.tried then s' == s.(pending := s.pending[c := was.(found := found)])
      else exists i | 0 <= i < |providers| && providers[i] !in was.tried ::
        && (forall j | 0 <= j < i :: providers[j] in was.tried)
        && s' == s.(pending := s.pending[c := was.(found := found, tried := was.tried + {providers[i]})],
                    reqToCid := s.reqToCid[s.nextReq := c], nextReq := s.nextReq + 1,
                    asks := s.asks + multiset{(was.waiter, providers[i])})
  {
    hide ValidBut, IsFirstUntried;
    s' := s;
    if q in s.providerQuery && s.providerQuery[q] in s.pending {
      var c := s.providerQuery[q];
      var known := Knowing(s, c, SetOf(providers));
      var p := FirstUntried(providers, s.pending[c].tried);
      BatchKnown(providers, s.pending[c].tried);
      if p.Some? {
        OneOfBatch(s, c, providers, p.value);
        s' := Ask(known, c, p.value);
      } else {
        s' := known;
      }
    }
    StepValid(hash, s, ProvidersFound(q, providers), s');
  }

  /** A query has run its course. */
  method OnQueryFinished(s: State, q: nat, ghost hash: seq<byte> -> Cid) returns (s': State)
    requires Valid(hash, s)
    ensures Valid(hash, s') && Final(s, s') && Step(hash, s, QueryFinished(q), s')
    ensures s' == s.(openQueries := s.openQueries - {q}, pending := s'.pending, replies := s'.replies)
    ensures var c := if q in s.providerQuery then Some(s.providerQuery[q]) else None;
      if c.Some? && c.value in s.pending && s.pending[c.value].found == {}
      then s'.pending == s.pending - {c.value} &&
           s'.replies == s.replies[s.pending[c.value].waiter := Reply(c.value, s.pending[c.value].expected, Err(NoProviders))]
      else s'.pending == s.pending && s'.replies == s.replies
  {
    hide ValidBut;
    s' := WithoutQuery(s, q);
    if q in s.providerQuery {
      var c := s.providerQuery[q];
      if c in s.pending && s.pending[c].found == {} {
        s' := Settle(s', c, Err(NoProviders));
      }
    }
    StepValid(hash, s, QueryFinished(q), s');
  }

  /** A query failed. */
  method OnQueryError(s: State, q: nat, ghost hash: seq<byte> -> Cid) returns (s': State)
    requires Valid(hash, s)
    ensures Valid(hash, s') && Final(s, s') && Step(hash, s, QueryError(q), s')
    ensures s' == s.(openQueries := s.openQueries - {q}, pending := s'.pending, replies := s'.replies)
    ensures var c := if q in s.providerQuery then Some(s.providerQuery[q]) else None;
      if c.Some? && c.value in s.pending
      then s'.pending == s.pending - {c.value} &&
           s'.replies == s.replies[s.pending[c.value].waiter := Reply(c.value, s.pending[c.value].expected, Err(QueryFailed))]
      else s'.pending == s.pending && s'.replies == s.replies
  {
    hide ValidBut;
    s' := WithoutQuery(s, q);
    if q in s.providerQuery && s.providerQuery[q] in s.pending {
      s' := Settle(s', s.providerQuery[q], Err(QueryFailed));
    }
    StepValid(hash, s, QueryError(q), s');
  }

  /** Bytes. */
  method OnBytes(s: State, r: nat, bytes: seq<byte>, hash: seq<byte> -> Cid) returns (s': State)
    requires Valid(hash, s)
    ensures Valid(hash, s') && Final(s, s') && Step(hash, s, GotBytes(r, bytes), s')
    ensures s' == s.(reqToCid := s.reqToCid - {r}, pending := s'.pending, replies := s'.replies)
    ensures var c := if r in s.reqToCid then Some(s.reqToCid[r]) else None;
      if c.Some? && c.value in s.pending
      then
        var expected := s.pending[c.value].expected;
        var result := if expected != ANY_SIZE && |bytes| != expected then Err(WrongSize)
                      else if hash(bytes) != c.value then Err(WrongHash) else Ok(bytes);
        && s'.pending == s.pending - {c.value}
        && s'.replies == s.replies[s.pending[c.value].waiter := Reply(c.value, expected, result)]
      else s'.pending == s.pending && s'.replies == s.replies
  {
    hide ValidBut;
    s' := WithoutRequest(s, r);
    if r in s.reqToCid && s.reqToCid[r] in s.pending {
      var c := s.reqToCid[r];
      s' := Settle(s', c, Checked(hash, c, s.pending[c].expected, bytes));
    }
    StepValid(hash, s, GotBytes(r, bytes), s');
  }

  /** Not found. */
  method OnNotFound(s: State, r: nat, ghost hash: seq<byte> -> Cid) returns (s': State)
    requires Valid(hash, s)
    ensures Valid(hash, s') && Final(s, s') && Step(hash, s, GotNotFound(r), s')
    ensures var c := if r in s.reqToCid then Some(s.reqToCid[r]) else None;
      if c.Some? && c.value in s.pending
      then
        var was := s.pending[c.value];
        if was.found <= was.tried
        then s' == s.(reqToCid := s.reqToCid - {r}, pending := s.pending - {c.value},
                      replies := s.replies[was.waiter := Reply(c.value, was.expected, Err(AllNotFound))])
        else exists p | p in was.found && p !in was.tried ::
          s' == s.(pending := s.pending[c.value := was.(tried := was.tried + {p})],
                   reqToCid := (s.reqToCid - {r})[s.nextReq := c.value], nextReq := s.nextReq + 1,
                   asks := s.asks + multiset{(was.waiter, p)})
      else s' == s.(reqToCid := s.reqToCid - {r})
  {
    hide ValidBut;
    s' := WithoutRequest(s, r);
    if r in s.reqToCid && s.reqToCid[r] in s.pending {
      var c := s.reqToCid[r];
      var untried := s.pending[c].found - s.pending[c].tried;
      if untried != {} {
        var p :| p in untried;
        s' := Ask(s', c, p);
      } else {
        assert forall p | p in s.pending[c].found && p !in s.pending[c].tried :: p in untried;
        s' := Settle(s', c, Err(AllNotFound));
      }
    }
    StepValid(hash, s, GotNotFound(r), s');
  }

  /** A request failed outright. */
  method OnOutboundFailure(s: State, r: nat, ghost hash: seq<byte> -> Cid) returns (s': State)
    requires Valid(hash, s)
    ensures Valid(hash, s') && Final(s, s') && Step(hash, s, OutboundFailure(r), s')
    ensures s' == s.(reqToCid := s.reqToCid - {r}, pending := s'.pending, replies := s'.replies)
    ensures var c := if r in s.reqToCid then Some(s.reqToCid[r]) else None;
      if c.Some? && c.value in s.pending
      then s'.pending == s.pending - {c.value} &&
           s'.replies == s.replies[s.pending[c.value].waiter := Reply(c.value, s.pending[c.value].expected, Err(RequestFailed))]
      else s'.pending == s.pending && s'.replies == s.replies
  {
    hide ValidBut;
    s' := WithoutRequest(s, r);
    if r in s.reqToCid && s.reqToCid[r] in s.pending {
      s' := Settle(s', s.reqToCid[r], Err(RequestFailed));
    }
    StepValid(hash, s, OutboundFailure(r), s');
  }

  // ---------- every run ----------

  /** The chunks and sizes asked for, in order: the one at `w` belongs to waiter `w`. */
  function Wanted(events: seq<Event>): seq<(Cid, nat)> {
    if events == [] then []
    else
      var e := events[|events| - 1];
      Wanted(events[..|events| - 1]) + if e.Fetch? then [(e.cid, e.expected)] else []
  }

  /** The states a run goes through, one step an event. */
  ghost predicate Run(hash: seq<byte> -> Cid, events: seq<Event>, trace: seq<State>) {
    && |trace| == |events| + 1 && trace[0] == START
    && forall i | 0 <= i < |events| :: Step(hash, trace[i], events[i], trace[i + 1])
  }

  ghost predicate AskedAgain(wanted: seq<(Cid, nat)>, w: nat, c: Cid) {
    exists v | w < v < |wanted| :: wanted[v].0 == c
  }

  /** Every waiter waits for, or was told about, what its own fetch asked for; one that was let go had its
      chunk asked for again. */
  ghost predicate Answers(s: State, wanted: seq<(Cid, nat)>) {
    && s.waiters == |wanted|
    && (forall c | c in s.pending :: s.pending[c].waiter < |wanted| && wanted[s.pending[c].waiter] == (c, s.pending[c].expected))
    && (forall w | w in s.replies :: w < |wanted| && wanted[w] == (s.replies[w].cid, s.replies[w].expected))
    && (forall w | w in s.displaced :: w < |wanted| && AskedAgain(wanted, w, wanted[w].0))
  }

  lemma StepAnswers(hash: seq<byte> -> Cid, s: State, e: Event, s': State, wanted: seq<(Cid, nat)>)
    requires Step(hash, s, e, s') && Answers(s, wanted)
    ensures Answers(s', wanted + if e.Fetch? then [(e.cid, e.expected)] else [])
  {
    hide IsFirstUntried, Checked, AskedAgain, Settle, Ask, Answers, NewFetch;
    if e.Fetch? {
      FetchAnswers(s, e.cid, e.expected, wanted);
    } else {
      assert wanted + [] == wanted;
      if e.ProvidersFound? {
        if QueryFor(s, e.query).Some? {
          KnowingAnswers(s, QueryFor(s, e.query).value, SetOf(e.providers), wanted);
        }
      } else if e.QueryFinished? || e.QueryError? {
        LessAnswers(s, WithoutQuery(s, e.query), wanted);
      } else {
        LessAnswers(s, WithoutRequest(s, e.req), wanted);
      }
    }
  }

  lemma KnowingAnswers(s: State, c: Cid, providers: set<Peer>, wanted: seq<(Cid, nat)>)
    requires c in s.pending && Answers(s, wanted)
    ensures var known := Knowing(s, c, providers);
            Answers(known, wanted) && forall p: Peer :: Answers(Ask(known, c, p), wanted)
  {
    hide AskedAgain;
  }

  lemma LessAnswers(s: State, s': State, wanted: seq<(Cid, nat)>)
    requires Answers(s, wanted) && s' == s.(openQueries := s'.openQueries, reqToCid := s'.reqToCid)
    ensures Answers(s', wanted)
    ensures forall c, result | c in s'.pending :: Answers(Settle(s', c, result), wanted)
    ensures forall c, p: Peer | c in s'.pending :: Answers(Ask(s', c, p), wanted)
  {
    hide AskedAgain;
  }

  lemma FetchAnswers(s: State, c: Cid, expected: nat, wanted: seq<(Cid, nat)>)
    requires Answers(s, wanted)
    ensures Answers(NewFetch(s, c, expected), wanted + [(c, expected)])
  {
    var s', more := NewFetch(s, c, expected), wanted + [(c, expected)];
    forall w | w in s'.displaced
      ensures w < |more| && AskedAgain(more, w, more[w].0)
    {
      if w in s.displaced {
        var v :| w < v < |wanted| && wanted[v].0 == wanted[w].0;
        assert more[v].0 == more[w].0;
      } else {
        assert more[|wanted|].0 == c;
      }
    }
  }

  /** Handle any events in any order. In every state of the run no fetch is stranded, no provider has been
      asked twice for one waiter, and answers once given stay as they are; each answers its waiter's own
      fetch. Once the network is quiet every waiter has been answered, or let go for a later fetch of the
      same chunk. */
  lemma {:induction false} RunIsSafe(hash: seq<byte> -> Cid, events: seq<Event>, trace: seq<State>, i: nat, j: nat)
    requires Run(hash, events, trace) && i <= j <= |events|
    ensures Valid(hash, trace[j]) && Answers(trace[j], Wanted(events[..j])) && Final(trace[i], trace[j])
    decreases j
  {
    hide ValidBut, Step, Answers;
    if j == 0 {
      StartValid(hash);
      StartAnswers();
    } else {
      RunIsSafe(hash, events, trace, if i < j then i else j - 1, j - 1);
      var s, e := trace[j - 1], events[j - 1];
      assert Step(hash, s, e, trace[j]);
      StepValid(hash, s, e, trace[j]);
      StepAnswers(hash, s, e, trace[j], Wanted(events[..j - 1]));
      assert events[..j][..j - 1] == events[..j - 1] && events[..j][j - 1] == e;
    }
  }

  lemma StartAnswers()
    ensures Answers(START, [])
  {
  }

  // ---------- why a fetch failed ----------

  /** The providers one event reports to a waiter: those found by a query for the chunk it waits for. */
  function ReportedBy(s: State, e: Event, w: nat): set<Peer> {
    if e.ProvidersFound? && e.query in s.providerQuery && s.providerQuery[e.query] in s.pending
       && s.pending[s.providerQuery[e.query]].waiter == w
    then set p | p in e.providers else {}
  }

  /** The providers a run has reported to a waiter. */
  function Reported(events: seq<Event>, trace: seq<State>, w: nat): set<Peer>
    requires |events| <= |trace|
  {
    if events == [] then {}
    else
      var n := |events| - 1;
      Reported(events[..n], trace, w) + ReportedBy(trace[n], events[n], w)
  }

  /** A waiting fetch knows exactly those reported to it, and nobody else is asked for it. It gives up on
      its providers only when all of them have been asked, and reports that there are none only when nobody
      was. */
  ghost predicate Explained(s: State, w: nat, reported: set<Peer>) {
    && (forall c | c in s.pending && s.pending[c].waiter == w :: s.pending[c].found == reported)
    && (forall p | (w, p) in s.asks :: p in reported)
    && (w in s.replies && s.replies[w].result == Err(AllNotFound) ==> forall p | p in reported :: (w, p) in s.asks)
    && (w in s.replies && s.replies[w].result == Err(NoProviders) ==> reported == {})
    && (w >= s.waiters ==> reported == {})
  }

  lemma SettleExplains(s: State, s': State, c: Cid, result: Result<seq<byte>, FetchError>, w: nat, reported: set<Peer>)
    requires c in s.pending && Tracked(s, s.pending[c]) && Explained(s, w, reported)
    requires s' == s.(openQueries := s'.openQueries, reqToCid := s'.reqToCid)
    requires result == Err(NoProviders) ==> s.pending[c].found == {}
    requires result == Err(AllNotFound) ==> s.pending[c].found <= s.pending[c].tried
    ensures Explained(Settle(s', c, result), w, reported)
  {
  }

  lemma AskExplains(s: State, s': State, c: Cid, p: Peer, w: nat, reported: set<Peer>)
    requires c in s.pending && Tracked(s, s.pending[c]) && Explained(s, w, reported) && p in s.pending[c].found
    requires s' == s.(openQueries := s'.openQueries, reqToCid := s'.reqToCid)
    ensures Explained(Ask(s', c, p), w, reported)
  {
  }

  lemma KnowingExplains(hash: seq<byte> -> Cid, s: State, c: Cid, providers: set<Peer>, w: nat, reported: set<Peer>)
    requires c in s.pending && Valid(hash, s) && Explained(s, w, reported)
    ensures Explained(Knowing(s, c, providers), w, reported + if s.pending[c].waiter == w then providers else {})
  {
    assert Tracked(s, s.pending[c]);
  }

  lemma FetchExplains(s: State, c: Cid, expected: nat, w: nat, reported: set<Peer>)
    requires Explained(s, w, reported)
    ensures Explained(NewFetch(s, c, expected), w, reported)
  {
  }

  lemma StepExplains(hash: seq<byte> -> Cid, s: State, e: Event, s': State, w: nat, reported: set<Peer>)
    requires Valid(hash, s) && Step(hash, s, e, s') && Explained(s, w, reported)
    ensures Explained(s', w, reported + ReportedBy(s, e, w))
  {
    hide Explained, NotStranded, Accounted, AskedOnce, Honest, Tracked, IsFirstUntried, Checked;
    assert reported + {} == reported;
    match e
    case Fetch(c, expected) => FetchExplains(s, c, expected, w, reported);
    case ProvidersFound(q, providers) => FoundExplains(hash, s, q, providers, s', w, reported);
    case QueryFinished(q) => QueryEndExplains(hash, s, e, s', w, reported);
    case QueryError(q) => QueryEndExplains(hash, s, e, s', w, reported);
    case GotBytes(r, _) => RequestEndExplains(hash, s, e, s', w, reported);
    case GotNotFound(r) => RequestEndExplains(hash, s, e, s', w, reported);
    case OutboundFailure(r) => RequestEndExplains(hash, s, e, s', w, reported);
  }

  lemma Less(s: State, s': State, w: nat, reported: set<Peer>)
    requires Explained(s, w, reported) && s' == s.(openQueries := s'.openQueries, reqToCid := s'.reqToCid)
    ensures Explained(s', w, reported)
  {
  }

  lemma FoundExplains(hash: seq<byte> -> Cid, s: State, q: nat, providers: seq<Peer>, s': State, w: nat, reported: set<Peer>)
    requires Valid(hash, s) && Step(hash, s, ProvidersFound(q, providers), s') && Explained(s, w, reported)
    ensures Explained(s', w, reported + ReportedBy(s, ProvidersFound(q, providers), w))
  {
    hide Explained, NotStranded, Accounted, AskedOnce, Honest, IsFirstUntried;
    assert reported + {} == reported;
    if QueryFor(s, q).Some? {
      var c := QueryFor(s, q).value;
      var known := Knowing(s, c, SetOf(providers));
      var more := reported + ReportedBy(s, ProvidersFound(q, providers), w);
      KnowingExplains(hash, s, c, SetOf(providers), w, reported);
      if !(SetOf(providers) <= s.pending[c].tried) {
        var p :| IsFirstUntried(providers, s.pending[c].tried, p) && s' == Ask(known, c, p);
        UntriedIsFound(providers, s.pending[c].tried, p);
        assert Tracked(s, s.pending[c]);
        AskExplains(known, known, c, p, w, more);
      }
    }
  }

  lemma QueryEndExplains(hash: seq<byte> -> Cid, s: State, e: Event, s': State, w: nat, reported: set<Peer>)
    requires Valid(hash, s) && (e.QueryFinished? || e.QueryError?) && Step(hash, s, e, s') && Explained(s, w, reported)
    ensures Explained(s', w, reported)
  {
    hide Explained, NotStranded, Accounted, AskedOnce, Honest, Tracked, Settle;
    var q := e.query;
    Less(s, WithoutQuery(s, q), w, reported);
    if QueryFor(s, q).Some? {
      var c := QueryFor(s, q).value;
      assert Tracked(s, s.pending[c]);
      if e.QueryError? || s.pending[c].found == {} {
        SettleExplains(s, WithoutQuery(s, q), c, Err(if e.QueryError? then QueryFailed else NoProviders), w, reported);
      }
    }
  }

  lemma RequestEndExplains(hash: seq<byte> -> Cid, s: State, e: Event, s': State, w: nat, reported: set<Peer>)
    requires Valid(hash, s) && (e.GotBytes? || e.GotNotFound? || e.OutboundFailure?) && Step(hash, s, e, s')
    requires Explained(s, w, reported)
    ensures Explained(s', w, reported)
  {
    hide Explained, NotStranded, Accounted, AskedOnce, Honest, Tracked, Settle, Ask;
    var r := e.req;
    var answered := WithoutRequest(s, r);
    Less(s, answered, w, reported);
    if RequestFor(s, r).Some? {
      var c := RequestFor(s, r).value;
      var pf := s.pending[c];
      assert Tracked(s, pf);
      if e.GotNotFound? && !(pf.found <= pf.tried) {
        var p :| p in pf.found && p !in pf.tried && s' == Ask(answered, c, p);
        AskExplains(s, answered, c, p, w, reported);
      } else {
        var result := if e.GotBytes? then Checked(hash, c, pf.expected, e.bytes)
                      else Err(if e.GotNotFound? then AllNotFound else RequestFailed);
        SettleExplains(s, answered, c, result, w, reported);
      }
    }
  }

  /** In every state of every run every waiter's fetch has this explanation. */
  lemma {:induction false} RunExplains(hash: seq<byte> -> Cid, events: seq<Event>, trace: seq<State>, j: nat, w: nat)
    requires Run(hash, events, trace) && j <= |events|
    ensures Explained(trace[j], w, Reported(events[..j], trace, w))
    decreases j
  {
    hide Valid, Step, Explained;
    if j == 0 {
      StartExplains(w);
    } else {
      var s, e := trace[j - 1], events[j - 1];
      assert Step(hash, s, e, trace[j]);
      RunIsSafe(hash, events, trace, j - 1, j - 1);
      RunExplains(hash, events, trace, j - 1, w);
      StepExplains(hash, s, e, trace[j], w, Reported(events[..j - 1], trace, w));
      assert events[..j][..j - 1] == events[..j - 1];
    }
  }

  lemma StartExplains(w: nat)
    ensures Explained(START, w, {})
  {
  }

  /** Nothing more can come from the network. */
  predicate Quiet(s: State) {
    s.openQueries == {} && s.reqToCid == map[]
  }

  /** What the callers of the fetcher can rely on. */
  ghost predicate Served(hash: seq<byte> -> Cid, s: State, wanted: seq<(Cid, nat)>) {
    && (forall w | w in s.replies && s.replies[w].result.Ok? ::
         && w < |wanted|
         && var bytes := s.replies[w].result.value;
         && hash(bytes) == wanted[w].0 && (wanted[w].1 == ANY_SIZE || |bytes| == wanted[w].1))
    && (forall x :: s.asks[x] <= 1)
    && (Quiet(s) ==> s.pending == map[] && forall w: nat | w < |wanted| :: w in s.replies || AskedAgain(wanted, w, wanted[w].0))
  }

  /** A run ends with right bytes for whoever got any, and with nobody left waiting on a quiet network. */
  lemma RunServes(hash: seq<byte> -> Cid, events: seq<Event>, trace: seq<State>)
    requires Run(hash, events, trace)
    ensures Served(hash, trace[|events|], Wanted(events))
  {
    hide Step, ValidBut, AskedAgain, Answers;
    var n := |events|;
    RunIsSafe(hash, events, trace, n, n);
    assert events[..n] == events;
    EndServes(hash, trace[n], Wanted(events));
  }

  lemma EndServes(hash: seq<byte> -> Cid, s: State, wanted: seq<(Cid, nat)>)
    requires Valid(hash, s) && Answers(s, wanted)
    ensures Served(hash, s, wanted)
  {
    hide AskedAgain, Tracked, NotStranded;
    if Quiet(s) {
      QuietIsDone(hash, s);
    }
  }

  /** The driver: one handler an event. */
  method DriveSwarm(events: seq<Event>, hash: seq<byte> -> Cid) returns (s: State, ghost trace: seq<State>)
    ensures Run(hash, events, trace) && s == trace[|events|]
    ensures Served(hash, s, Wanted(events))
  {
    hide Valid, Step, Served;
    s := START;
    trace := [s];
    StartValid(hash);
    for i := 0 to |events|
      invariant Valid(hash, s) && |trace| == i + 1 && trace[0] == START && s == trace[i]
      invariant forall k | 0 <= k < i :: Step(hash, trace[k], events[k], trace[k + 1])
    {
      match events[i] {
        case Fetch(c, expected) => s := OnFetch(s, c, expected, hash);
        case ProvidersFound(q, providers) => s := OnProvidersFound(s, q, providers, hash);
        case QueryFinished(q) => s := OnQueryFinished(s, q, hash);
        case QueryError(q) => s := OnQueryError(s, q, hash);
        case GotBytes(r, bytes) => s := OnBytes(s, r, bytes, hash);
        case GotNotFound(r) => s := OnNotFound(s, r, hash);
        case OutboundFailure(r) => s := OnOutboundFailure(s, r, hash);
      }
      trace := trace + [s];
    }
    RunServes(hash, events, trace);
  }

  /** A quiet network leaves no fetch waiting. */
  lemma QuietIsDone(hash: seq<byte> -> Cid, s: State)
    requires Valid(hash, s) && Quiet(s)
    ensures s.pending == map[]
    ensures forall w: nat | w < s.waiters :: w in s.replies || w in s.displaced
  {
    if s.pending != map[] {
      var c :| c in s.pending;
      Wakeable(s, c);
    }
  }

  lemma Wakeable(s: State, c: Cid)
    requires c in s.pending && NotStranded(s, c)
    ensures !Quiet(s)
  {
  }
}
