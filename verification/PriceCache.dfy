/** The price cache of a node (`GetCoinprice`) and the cost guard in front of
    escrow holds. Prices are exact millionths of a dollar, times are nanoseconds. */
module PriceCache {
  import opened Machine
  import opened ScaledInteger
  import opened TokenAmount

  const SECOND: int := 1_000_000_000
  const VALIDITY: int := 60 * SECOND
  const MIN_INTERVAL: int := 5 * SECOND

  datatype PriceInfo = PriceInfo(price: u64, lastUpdate: int)

  type Prices = map<string, u64>

  // ------------------------------------------------ one call

  datatype Cache = Cache(entries: map<string, PriceInfo>, lastCall: int)

  predicate IsFresh(c: Cache, token: string, now: int) {
    token in c.entries && now - c.entries[token].lastUpdate < VALIDITY
  }

  /** The cached prices still valid. */
  function Cached(c: Cache, tokens: seq<string>, now: int): Prices {
    map t | t in tokens && IsFresh(c, t, now) :: c.entries[t].price
  }

  function Stale(c: Cache, tokens: seq<string>, now: int): seq<string> {
    if tokens == [] then []
    else
      var n := |tokens| - 1;
      Stale(c, tokens[..n], now) + if IsFresh(c, tokens[n], now) then [] else [tokens[n]]
  }

  predicate Calls(c: Cache, tokens: seq<string>, now: int) {
    Stale(c, tokens, now) != [] && now - c.lastCall >= MIN_INTERVAL
  }

  /** Quoted prices as cache entries. */
  function Stamped(prices: Prices, now: int): (r: map<string, PriceInfo>)
    ensures r.Keys == prices.Keys
    ensures forall t :: t in prices ==> r[t] == PriceInfo(prices[t], now)
  {
    map t | t in prices :: PriceInfo(prices[t], now)
  }

  /** The cache after a call; `answer` is what the price service replies if asked. */
  function Updated(c: Cache, tokens: seq<string>, now: int, answer: Option<Prices>): Cache {
    if Calls(c, tokens, now) && answer.Some?
    then Cache(c.entries + Stamped(answer.value, now), now)
    else c
  }

  /** The result of a call; an error only when nothing at all is known. */
  function Reply(c: Cache, tokens: seq<string>, now: int, answer: Option<Prices>): Option<Prices> {
    var known := Cached(c, tokens, now);
    if !Calls(c, tokens, now) then Some(known)
    else if answer.Some? then Some(known + answer.value)
    else if known == map[] then None
    else Some(known)
  }

  ghost function Part<V>(m: map<string, V>, keys: set<string>): map<string, V> {
    map t | t in m && t in keys :: m[t]
  }

  lemma PartGrows<V>(base: map<string, V>, m: map<string, V>, done: set<string>, t: string)
    requires t in m
    ensures base + Part(m, done + {t}) == (base + Part(m, done))[t := m[t]]
  {
  }

  lemma PartEdges<V>(base: map<string, V>, m: map<string, V>)
    ensures base + Part(m, {}) == base && Part(m, m.Keys) == m
  {
  }

  class GeniusNode {
    var entries: map<string, PriceInfo>
    var lastCall: int

    ghost function C(): Cache
      reads this
    {
      Cache(entries, lastCall)
    }

    /** The first call is never held back: the last one counts as made one
        interval before construction. */
    constructor (now: int)
      ensures C() == Cache(map[], now - MIN_INTERVAL)
    {
      entries, lastCall := map[], now - MIN_INTERVAL;
    }

    /** The first loop: what the cache can answer and what has to be fetched. */
    method Classify(tokens: seq<string>, now: int) returns (result: Prices, missing: seq<string>)
      ensures result == Cached(C(), tokens, now) && missing == Stale(C(), tokens, now)
    {
      result, missing := map[], [];
      for i := 0 to |tokens|
        invariant result == Cached(C(), tokens[..i], now)
        invariant missing == Stale(C(), tokens[..i], now)
      {
        assert tokens[..i + 1][..i] == tokens[..i];
        var t := tokens[i];
        if t in entries && now - entries[t].lastUpdate < VALIDITY {
          result := result[t := entries[t].price];
        } else {
          missing := missing + [t];
        }
      }
      assert tokens[..|tokens|] == tokens;
    }

    /** The second loop: new prices go into the cache and the result. */
    method Absorb(known: Prices, fetched: Prices, now: int) returns (result: Prices)
      modifies this`entries
      ensures result == known + fetched
      ensures entries == old(entries) + Stamped(fetched, now)
    {
      hide Part, Stamped;
      result := known;
      ghost var stamped := Stamped(fetched, now);
      PartEdges(known, fetched);
      PartEdges(entries, stamped);
      ghost var done: set<string> := {};
      var todo := fetched.Keys;
      while todo != {}
        invariant todo + done == fetched.Keys && todo !! done
        invariant result == known + Part(fetched, done)
        invariant entries == old(entries) + Part(stamped, done)
        decreases |todo|
      {
        var t :| t in todo;
        PartGrows(known, fetched, done, t);
        PartGrows(old(entries), stamped, done, t);
        entries := entries[t := PriceInfo(fetched[t], now)];
        result := result[t := fetched[t]];
        todo, done := todo - {t}, done + {t};
      }
      assert done == fetched.Keys;
    }

    method GetCoinprice(tokens: seq<string>, now: int, answer: Option<Prices>) returns (r: Option<Prices>)
      modifies this
      ensures C() == Updated(old(C()), tokens, now, answer)
      ensures r == Reply(old(C()), tokens, now, answer)
    {
      var result, missing := Classify(tokens, now);
      if missing != [] && now - lastCall >= MIN_INTERVAL {
        if answer.Some? {
          lastCall := now;
          result := Absorb(result, answer.value, now);
        } else if result == map[] {
          return None;
        }
      }
      r := Some(result);
    }
  }

  // ------------------------------------------------ runs

  /** A call as the environment makes it. */
  datatype Call = Call(tokens: seq<string>, now: int, answer: Option<Prices>)

  /** A successful fetch: when, and what it quoted. */
  datatype Fetch = Fetch(time: int, prices: Prices)

  function FetchOf(c: Cache, k: Call): seq<Fetch> {
    if Calls(c, k.tokens, k.now) && k.answer.Some? then [Fetch(k.now, k.answer.value)] else []
  }

  /** The cache after a list of calls. */
  function After(c: Cache, calls: seq<Call>): Cache {
    if calls == [] then c
    else
      var n := |calls| - 1;
      var k := calls[n];
      Updated(After(c, calls[..n]), k.tokens, k.now, k.answer)
  }

  /** The successful fetches of a list of calls, in order. */
  function Fetches(c: Cache, calls: seq<Call>): seq<Fetch> {
    if calls == [] then []
    else
      var n := |calls| - 1;
      Fetches(c, calls[..n]) + FetchOf(After(c, calls[..n]), calls[n])
  }

  predicate ClockRuns(start: int, calls: seq<Call>) {
    && (forall i :: 0 <= i < |calls| ==> start <= calls[i].now)
    && (forall i, j :: 0 <= i < j < |calls| ==> calls[i].now <= calls[j].now)
  }

  /** Fetch `i` is the last one so far that quoted the token. */
  ghost predicate LastQuote(fetches: seq<Fetch>, token: string, i: nat) {
    && i < |fetches| && token in fetches[i].prices
    && forall j :: i < j < |fetches| ==> token !in fetches[j].prices
  }

  /** A cache entry is the most recent quote of its token, with its time. */
  ghost predicate Backed(fetches: seq<Fetch>, token: string, info: PriceInfo) {
    exists i: nat :: LastQuote(fetches, token, i) &&
      fetches[i].prices[token] == info.price && fetches[i].time == info.lastUpdate
  }

  ghost predicate Spaced(fetches: seq<Fetch>) {
    forall i, j :: 0 <= i < j < |fetches| ==> fetches[j].time - fetches[i].time >= MIN_INTERVAL
  }

  ghost predicate CacheInv(c: Cache, fetches: seq<Fetch>) {
    && (forall t :: t in c.entries ==> Backed(fetches, t, c.entries[t]))
    && Spaced(fetches)
    && (forall i :: 0 <= i < |fetches| ==> fetches[i].time <= c.lastCall)
  }

  lemma FetchBacks(c: Cache, fetches: seq<Fetch>, k: Call, t: string)
    requires CacheInv(c, fetches) && Calls(c, k.tokens, k.now) && k.answer.Some?
    requires t in Updated(c, k.tokens, k.now, k.answer).entries
    ensures Backed(fetches + FetchOf(c, k), t, Updated(c, k.tokens, k.now, k.answer).entries[t])
  {
    var all := fetches + FetchOf(c, k);
    if t in k.answer.value {
      assert LastQuote(all, t, |fetches|);
    } else {
      var i: nat :| LastQuote(fetches, t, i) &&
        fetches[i].prices[t] == c.entries[t].price && fetches[i].time == c.entries[t].lastUpdate;
      assert all[i] == fetches[i];
      assert LastQuote(all, t, i);
    }
  }

  lemma CallKeeps(c: Cache, fetches: seq<Fetch>, k: Call)
    requires CacheInv(c, fetches)
    ensures CacheInv(Updated(c, k.tokens, k.now, k.answer), fetches + FetchOf(c, k))
  {
    var c' := Updated(c, k.tokens, k.now, k.answer);
    if FetchOf(c, k) == [] {
      assert fetches + FetchOf(c, k) == fetches;
    } else {
      forall t | t in c'.entries
        ensures Backed(fetches + FetchOf(c, k), t, c'.entries[t])
      {
        FetchBacks(c, fetches, k, t);
      }
    }
  }

  lemma {:induction false} RunKeeps(start: int, calls: seq<Call>)
    ensures var c := Cache(map[], start - MIN_INTERVAL);
            CacheInv(After(c, calls), Fetches(c, calls))
  {
    if calls != [] {
      var n := |calls| - 1;
      RunKeeps(start, calls[..n]);
      var c := Cache(map[], start - MIN_INTERVAL);
      CallKeeps(After(c, calls[..n]), Fetches(c, calls[..n]), calls[n]);
    }
  }

  /** The rate limit over whole runs: any two successful fetches are at least five
      seconds apart. */
  lemma FetchesSpaced(start: int, calls: seq<Call>)
    ensures Spaced(Fetches(Cache(map[], start - MIN_INTERVAL), calls))
  {
    RunKeeps(start, calls);
  }

  lemma {:induction false} FetchTimes(start: int, calls: seq<Call>, now: int)
    requires forall i :: 0 <= i < |calls| ==> calls[i].now <= now
    ensures forall f :: f in Fetches(Cache(map[], start - MIN_INTERVAL), calls) ==> f.time <= now
  {
    if calls != [] {
      FetchTimes(start, calls[..|calls| - 1], now);
    }
  }

  /** Fetch `i` is the last quote of the token, at this price, less than a minute old. */
  ghost predicate FreshQuote(fetches: seq<Fetch>, token: string, price: u64, now: int, i: nat) {
    LastQuote(fetches, token, i) && fetches[i].prices[token] == price && 0 <= now - fetches[i].time < VALIDITY
  }

  /** Where the price of one call comes from. */
  lemma ReplySource(c: Cache, before: seq<Fetch>, k: Call, token: string) returns (i: nat)
    requires CacheInv(c, before) && forall f :: f in before ==> f.time <= k.now
    requires Reply(c, k.tokens, k.now, k.answer).Some? && token in Reply(c, k.tokens, k.now, k.answer).value
    ensures FreshQuote(before + FetchOf(c, k), token, Reply(c, k.tokens, k.now, k.answer).value[token], k.now, i)
  {
    var fetches := before + FetchOf(c, k);
    if FetchOf(c, k) != [] && token in k.answer.value {
      i := |before|;
    } else {
      assert IsFresh(c, token, k.now);
      assert Backed(before, token, c.entries[token]);
      i :| LastQuote(before, token, i) &&
        before[i].prices[token] == c.entries[token].price && before[i].time == c.entries[token].lastUpdate;
      assert before[i] in before && fetches[i] == before[i];
    }
  }

  /** Freshness over whole runs: under a clock that does not run backwards, every
      price a call returns was quoted by a successful fetch less than a minute
      before, and no later fetch quoted that token differently. */
  lemma PricesFresh(start: int, calls: seq<Call>, n: nat, token: string)
    requires ClockRuns(start, calls) && n < |calls|
    requires var c := After(Cache(map[], start - MIN_INTERVAL), calls[..n]);
             var r := Reply(c, calls[n].tokens, calls[n].now, calls[n].answer);
             r.Some? && token in r.value
    ensures var c := After(Cache(map[], start - MIN_INTERVAL), calls[..n]);
            var price := Reply(c, calls[n].tokens, calls[n].now, calls[n].answer).value[token];
            var fetches := Fetches(Cache(map[], start - MIN_INTERVAL), calls[..n + 1]);
            exists i: nat :: FreshQuote(fetches, token, price, calls[n].now, i)
  {
    hide Reply, CacheInv, FetchOf, FreshQuote;
    var c0 := Cache(map[], start - MIN_INTERVAL);
    var c, k := After(c0, calls[..n]), calls[n];
    assert calls[..n + 1][..n] == calls[..n];
    var before := Fetches(c0, calls[..n]);
    assert Fetches(c0, calls[..n + 1]) == before + FetchOf(c, k);
    RunKeeps(start, calls[..n]);
    FetchTimes(start, calls[..n], k.now);
    var i := ReplySource(c, before, k, token);
    var price := Reply(c, k.tokens, k.now, k.answer).value[token];
    assert FreshQuote(Fetches(c0, calls[..n + 1]), token, price, k.now, i);
  }

  // ------------------------------------------------ what is known is returned

  /** The cache holds every last quote with its time, and remembers the last
      successful fetch. */
  ghost predicate Known(start: int, c: Cache, fetches: seq<Fetch>) {
    && (forall t, i: nat :: LastQuote(fetches, t, i) ==>
          t in c.entries && c.entries[t] == PriceInfo(fetches[i].prices[t], fetches[i].time))
    && c.lastCall == if fetches == [] then start - MIN_INTERVAL else fetches[|fetches| - 1].time
  }

  lemma KnownStep(start: int, c: Cache, fetches: seq<Fetch>, k: Call)
    requires Known(start, c, fetches)
    ensures Known(start, Updated(c, k.tokens, k.now, k.answer), fetches + FetchOf(c, k))
  {
    hide Calls;
    var c', all := Updated(c, k.tokens, k.now, k.answer), fetches + FetchOf(c, k);
    if FetchOf(c, k) == [] {
      assert all == fetches;
    } else {
      forall t, i: nat | LastQuote(all, t, i)
        ensures t in c'.entries && c'.entries[t] == PriceInfo(all[i].prices[t], all[i].time)
      {
        if t in k.answer.value {
          assert all[|fetches|] == Fetch(k.now, k.answer.value);
          assert i == |fetches|;
        } else {
          assert all[i] == fetches[i];
          assert LastQuote(fetches, t, i) by {
            assert forall j :: i < j < |fetches| ==> all[j] == fetches[j];
          }
        }
      }
    }
  }

  lemma {:induction false} RunKnows(start: int, calls: seq<Call>)
    ensures var c := Cache(map[], start - MIN_INTERVAL);
            Known(start, After(c, calls), Fetches(c, calls))
  {
    hide Known, Updated, FetchOf;
    if calls == [] {
      NothingKnown(start);
    } else {
      var n, c := |calls| - 1, Cache(map[], start - MIN_INTERVAL);
      RunKnows(start, calls[..n]);
      KnownStep(start, After(c, calls[..n]), Fetches(c, calls[..n]), calls[n]);
    }
  }

  lemma NothingKnown(start: int)
    ensures Known(start, Cache(map[], start - MIN_INTERVAL), [])
  {
  }

  /** Some fetch quoted the token, and its last quote is less than a minute old. */
  ghost predicate HasFresh(fetches: seq<Fetch>, token: string, now: int) {
    exists i: nat :: LastQuote(fetches, token, i) && now - fetches[i].time < VALIDITY
  }

  lemma FreshIff(start: int, c: Cache, fetches: seq<Fetch>, token: string, now: int)
    requires CacheInv(c, fetches) && Known(start, c, fetches)
    ensures IsFresh(c, token, now) <==> HasFresh(fetches, token, now)
  {
    if IsFresh(c, token, now) {
      assert Backed(fetches, token, c.entries[token]);
    }
  }

  lemma {:induction false} StaleIff(c: Cache, tokens: seq<string>, now: int)
    ensures Stale(c, tokens, now) == [] <==> forall t :: t in tokens ==> IsFresh(c, t, now)
  {
    hide IsFresh;
    if tokens != [] {
      var n := |tokens| - 1;
      StaleIff(c, tokens[..n], now);
      assert tokens == tokens[..n] + [tokens[n]];
    }
  }

  /** The rate limit permits a fetch. */
  predicate Rested(fetches: seq<Fetch>, now: int) {
    fetches == [] || now - fetches[|fetches| - 1].time >= MIN_INTERVAL
  }

  ghost predicate Wanting(fetches: seq<Fetch>, tokens: seq<string>, now: int) {
    exists t :: t in tokens && !HasFresh(fetches, t, now)
  }

  lemma CallsIff(start: int, c: Cache, fetches: seq<Fetch>, tokens: seq<string>, now: int)
    requires CacheInv(c, fetches) && Known(start, c, fetches) && start <= now
    ensures Calls(c, tokens, now) <==> Wanting(fetches, tokens, now) && Rested(fetches, now)
  {
    hide IsFresh, HasFresh, CacheInv, Stale;
    StaleIff(c, tokens, now);
    forall t | t in tokens
      ensures IsFresh(c, t, now) <==> HasFresh(fetches, t, now)
    {
      FreshIff(start, c, fetches, t, now);
    }
  }

  /** When a call fetches: exactly when some requested token has no quote less than
      a minute old, the last successful fetch is at least five seconds old, and the
      service answers. */
  lemma FetchesIff(start: int, calls: seq<Call>, n: nat)
    requires ClockRuns(start, calls) && n < |calls|
    ensures var c, k := Cache(map[], start - MIN_INTERVAL), calls[n];
            var before := Fetches(c, calls[..n]);
            Fetches(c, calls[..n + 1]) ==
            before + if Wanting(before, k.tokens, k.now) && Rested(before, k.now) && k.answer.Some?
                     then [Fetch(k.now, k.answer.value)] else []
  {
    hide CacheInv, Known, Calls, Wanting, Rested;
    var c0, k := Cache(map[], start - MIN_INTERVAL), calls[n];
    assert calls[..n + 1][..n] == calls[..n];
    RunKeeps(start, calls[..n]);
    RunKnows(start, calls[..n]);
    CallsIff(start, After(c0, calls[..n]), Fetches(c0, calls[..n]), k.tokens, k.now);
  }

  lemma ReplyHas(start: int, c: Cache, before: seq<Fetch>, k: Call, token: string, i: nat)
    requires CacheInv(c, before) && Known(start, c, before) && token in k.tokens
    requires LastQuote(before + FetchOf(c, k), token, i) && k.now - (before + FetchOf(c, k))[i].time < VALIDITY
    ensures var r := Reply(c, k.tokens, k.now, k.answer);
            r.Some? && token in r.value && r.value[token] == (before + FetchOf(c, k))[i].prices[token]
  {
    hide Calls;
    var all := before + FetchOf(c, k);
    if FetchOf(c, k) != [] && token in k.answer.value {
      assert all[|before|] == Fetch(k.now, k.answer.value);
      assert i == |before|;
    } else {
      assert all[i] == before[i];
      assert LastQuote(before, token, i) by {
        assert forall j :: i < j < |before| ==> all[j] == before[j];
      }
      assert IsFresh(c, token, k.now);
      assert token in Cached(c, k.tokens, k.now);
    }
  }

  /** What is known is returned: in every run, a requested token whose last quote,
      this call's fetch included, is less than a minute old is in the reply at that
      quote. */
  lemma KnownIsReturned(start: int, calls: seq<Call>, n: nat, token: string, i: nat)
    requires n < |calls| && token in calls[n].tokens
    requires var fetches := Fetches(Cache(map[], start - MIN_INTERVAL), calls[..n + 1]);
             LastQuote(fetches, token, i) && calls[n].now - fetches[i].time < VALIDITY
    ensures var c := After(Cache(map[], start - MIN_INTERVAL), calls[..n]);
            var r := Reply(c, calls[n].tokens, calls[n].now, calls[n].answer);
            var fetches := Fetches(Cache(map[], start - MIN_INTERVAL), calls[..n + 1]);
            r.Some? && token in r.value && r.value[token] == fetches[i].prices[token]
  {
    hide CacheInv, Known, Calls, Reply, LastQuote, FetchOf;
    var c0, k := Cache(map[], start - MIN_INTERVAL), calls[n];
    var c, before := After(c0, calls[..n]), Fetches(c0, calls[..n]);
    assert calls[..n + 1][..n] == calls[..n];
    assert Fetches(c0, calls[..n + 1]) == before + FetchOf(c, k);
    QuoteIndex(before + FetchOf(c, k), token, i);
    RunKeeps(start, calls[..n]);
    RunKnows(start, calls[..n]);
    ReplyHas(start, c, before, k, token, i);
  }

  lemma QuoteIndex(fetches: seq<Fetch>, token: string, i: nat)
    requires LastQuote(fetches, token, i)
    ensures i < |fetches| && token in fetches[i].prices
  {
  }

  /** A call fails exactly when it may fetch, the service does not answer, and no
      requested token has a quote less than a minute old. */
  lemma FailsIff(start: int, calls: seq<Call>, n: nat)
    requires ClockRuns(start, calls) && n < |calls|
    ensures var c0, k := Cache(map[], start - MIN_INTERVAL), calls[n];
            var before := Fetches(c0, calls[..n]);
            Reply(After(c0, calls[..n]), k.tokens, k.now, k.answer).None? <==>
            && k.tokens != [] && (forall t :: t in k.tokens ==> !HasFresh(before, t, k.now))
            && Rested(before, k.now) && k.answer.None?
  {
    hide CacheInv, Known, Calls, Rested, HasFresh, IsFresh;
    var c0, k := Cache(map[], start - MIN_INTERVAL), calls[n];
    var c, before := After(c0, calls[..n]), Fetches(c0, calls[..n]);
    RunKeeps(start, calls[..n]);
    RunKnows(start, calls[..n]);
    CallsIff(start, c, before, k.tokens, k.now);
    forall t | t in k.tokens
      ensures IsFresh(c, t, k.now) <==> HasFresh(before, t, k.now)
    {
      FreshIff(start, c, before, t, k.now);
    }
    CachedEmptyIff(c, k.tokens, k.now);
    if k.tokens != [] {
      assert k.tokens[0] in k.tokens;
    }
  }

  lemma CachedEmptyIff(c: Cache, tokens: seq<string>, now: int)
    ensures Cached(c, tokens, now) == map[] <==> forall t :: t in tokens ==> !IsFresh(c, t, now)
  {
    if t :| t in tokens && IsFresh(c, t, now) {
      assert t in Cached(c, tokens, now);
    }
  }

  // ------------------------------------------------ the cost guard

  const GNUS: string := "genius-ai"

  /** `GetGNUSPrice`: a price missing from the reply reads as zero. */
  function GnusPrice(reply: Option<Prices>): Option<u64> {
    if reply.None? then None
    else Some(if GNUS in reply.value then reply.value[GNUS] else 0)
  }

  /** `GetProcessCost`: every failure reads as a cost of zero. */
  function ProcessCost(bytes: Option<u64>, reply: Option<Prices>): u64 {
    var price := GnusPrice(reply);
    if bytes.None? || price.None? then 0
    else
      var cost := Cost(bytes.value, price.value);
      if cost.Err? then 0 else cost.value
  }

  datatype Decision = InvalidJob | CostError | InsufficientFunds | BadCut | Hold(funds: u64, cut: u64)

  /** `ProcessImage` up to the escrow hold. */
  function Decide(valid: bool, bytes: Option<u64>, reply: Option<Prices>, balance: u64, cut: string): Decision {
    var funds := ProcessCost(bytes, reply);
    if !valid then InvalidJob
    else if funds <= 0 then CostError
    else if balance < funds then InsufficientFunds
    else
      var share := FromString(cut, PRECISION, Strict);
      if share.Err? then BadCut else Hold(funds, share.value)
  }

  /** An escrow is held only for a job with a known size and a known, non-zero
      price, for the computed cost and within the balance. */
  lemma HoldOnlyWhenPriced(valid: bool, bytes: Option<u64>, reply: Option<Prices>, balance: u64, cut: string)
    requires Decide(valid, bytes, reply, balance, cut).Hold?
    ensures valid && bytes.Some? && reply.Some? && GNUS in reply.value && reply.value[GNUS] > 0
    ensures Cost(bytes.value, reply.value[GNUS]) == Ok(Decide(valid, bytes, reply, balance, cut).funds)
    ensures 1 <= Decide(valid, bytes, reply, balance, cut).funds <= balance
  {
    hide Cost, FromString;
    if bytes.Some? {
      CostFailsIff(bytes.value, 0);
    }
  }

  /** The cost guard over whole runs: an escrow is held only at a price of the token
      quoted by a successful fetch less than a minute before, for exactly the cost
      at that price, within the balance. */
  lemma HoldsAtFreshPrice(start: int, calls: seq<Call>, n: nat,
                          valid: bool, bytes: Option<u64>, balance: u64, cut: string) returns (price: u64)
    requires ClockRuns(start, calls) && n < |calls|
    requires var c := After(Cache(map[], start - MIN_INTERVAL), calls[..n]);
             var reply := Reply(c, calls[n].tokens, calls[n].now, calls[n].answer);
             Decide(valid, bytes, reply, balance, cut).Hold?
    ensures var c := After(Cache(map[], start - MIN_INTERVAL), calls[..n]);
            var reply := Reply(c, calls[n].tokens, calls[n].now, calls[n].answer);
            var funds := Decide(valid, bytes, reply, balance, cut).funds;
            var fetches := Fetches(Cache(map[], start - MIN_INTERVAL), calls[..n + 1]);
            && (exists i: nat :: FreshQuote(fetches, GNUS, price, calls[n].now, i))
            && valid && bytes.Some? && price > 0 && Cost(bytes.value, price) == Ok(funds) && 1 <= funds <= balance
  {
    hide Cost, FromString, Reply, After, Fetches, FreshQuote;
    var c := After(Cache(map[], start - MIN_INTERVAL), calls[..n]);
    var reply := Reply(c, calls[n].tokens, calls[n].now, calls[n].answer);
    HoldOnlyWhenPriced(valid, bytes, reply, balance, cut);
    price := reply.value[GNUS];
    PricesFresh(start, calls, n, GNUS);
  }

  /** And without such a quote, for instance while the rate limit holds a call back
      after the cached price has expired, the job stops with a cost error. */
  lemma NoQuoteStopsJob(start: int, calls: seq<Call>, n: nat, bytes: Option<u64>, balance: u64, cut: string)
    requires ClockRuns(start, calls) && n < |calls|
    requires var fetches := Fetches(Cache(map[], start - MIN_INTERVAL), calls[..n + 1]);
             forall price: u64, i: nat :: !FreshQuote(fetches, GNUS, price, calls[n].now, i)
    ensures var c := After(Cache(map[], start - MIN_INTERVAL), calls[..n]);
            Decide(true, bytes, Reply(c, calls[n].tokens, calls[n].now, calls[n].answer), balance, cut) == CostError
  {
    hide Cost, FromString, Reply, After, Fetches, FreshQuote;
    var c := After(Cache(map[], start - MIN_INTERVAL), calls[..n]);
    var reply := Reply(c, calls[n].tokens, calls[n].now, calls[n].answer);
    if reply.Some? && GNUS in reply.value {
      PricesFresh(start, calls, n, GNUS);
      assert false;
    }
    if bytes.Some? {
      CostFailsIff(bytes.value, 0);
    }
  }

  /** Conversely, with such a quote at a non-zero price the job goes on to hold the
      exact cost, provided the size is known, the cost fits and is covered, and the
      cut is a readable amount. */
  lemma FreshPriceHolds(start: int, calls: seq<Call>, n: nat, i: nat, bytes: u64, balance: u64, cut: string)
    requires n < |calls| && GNUS in calls[n].tokens
    requires var fetches := Fetches(Cache(map[], start - MIN_INTERVAL), calls[..n + 1]);
             && LastQuote(fetches, GNUS, i) && calls[n].now - fetches[i].time < VALIDITY
             && Cost(bytes, fetches[i].prices[GNUS]).Ok?
    ensures var c := After(Cache(map[], start - MIN_INTERVAL), calls[..n]);
            var reply := Reply(c, calls[n].tokens, calls[n].now, calls[n].answer);
            var cost := Cost(bytes, Fetches(Cache(map[], start - MIN_INTERVAL), calls[..n + 1])[i].prices[GNUS]).value;
            var share := FromString(cut, PRECISION, Strict);
            Decide(true, Some(bytes), reply, balance, cut) ==
            if balance < cost then InsufficientFunds else if share.Err? then BadCut else Hold(cost, share.value)
  {
    hide Reply, After, FromString, LastQuote;
    QuoteIndex(Fetches(Cache(map[], start - MIN_INTERVAL), calls[..n + 1]), GNUS, i);
    KnownIsReturned(start, calls, n, GNUS, i);
    var price := Fetches(Cache(map[], start - MIN_INTERVAL), calls[..n + 1])[i].prices[GNUS];
    CostAtLeastOne(bytes, price);
  }

  lemma CostAtLeastOne(bytes: u64, price: u64)
    requires Cost(bytes, price).Ok?
    ensures Cost(bytes, price).value >= 1
  {
    CostTheorem(bytes, price);
  }
}
