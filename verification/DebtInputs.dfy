/** The inputs of a session's value, read off the blocks directly: of everything, what was listed last. */
module DebtInputs {
  import opened Wrappers
  import opened DebtTracking

  const EMPTY := Memory(map[], map[], map[], map[], map[])

  // All entries of one kind, block after block.

  function AllSnapshots(ns: seq<Numbered>): seq<(SessionId, Snapshot)> {
    if ns == [] then [] else ns[0].data.css + AllSnapshots(ns[1..])
  }

  function AllPools(ns: seq<Numbered>): seq<(Pool, PoolData)> {
    if ns == [] then [] else ns[0].data.poolStats + AllPools(ns[1..])
  }

  function AllThresholds(ns: seq<Numbered>): seq<AllowedToken> {
    if ns == [] then [] else ns[0].data.allowedTokens + AllThresholds(ns[1..])
  }

  function AllPrices(ns: seq<Numbered>): seq<PriceFeed> {
    if ns == [] then [] else ns[0].data.priceFeeds + AllPrices(ns[1..])
  }

  // The last entry for a key.

  function LastFor<K(==), V>(kvs: seq<(K, V)>, k: K): Option<V> {
    if kvs == [] then None else
    var later := LastFor(kvs[1..], k);
    if later.Some? then later else if kvs[0].0 == k then Some(kvs[0].1) else None
  }

  function LastThreshold(ts: seq<AllowedToken>, cm: Manager, t: Token): Option<int> {
    if ts == [] then None else
    var later := LastThreshold(ts[1..], cm, t);
    if later.Some? then later else if ts[0].creditManager == cm && ts[0].token == t then Some(ts[0].threshold) else None
  }

  function LastPrice(fs: seq<PriceFeed>, t: Token, inUSD: bool): Option<int> {
    if fs == [] then None else
    var later := LastPrice(fs[1..], t, inUSD);
    if later.Some? then later else if fs[0].token == t && fs[0].isPriceInUSD == inUSD then Some(fs[0].price) else None
  }

  /** Price in the session's own currency, USD except for v1, and threshold with its manager. */
  function TokenListed(s: Session, ns: seq<Numbered>, t: Token): TokenInputs {
    TokenInputs(LastPrice(AllPrices(ns), t, !s.isV1), LastThreshold(AllThresholds(ns), s.creditManager, t))
  }

  /** The inputs are the session's last snapshot, its pool's last data, and price and threshold of the
      underlying token and of every enabled token held in more than one unit. */
  ghost predicate ReadOff(w: World, ns: seq<Numbered>, id: SessionId, x: Inputs)
    requires id in w.sessions && w.sessions[id].creditManager in w.managers
  {
    var s := w.sessions[id];
    var cm := w.managers[s.creditManager];
    && LastFor(AllSnapshots(ns), id) == Some(x.snapshot) && x.pool == LastFor(AllPools(ns), cm.pool)
    && x.underlying == TokenListed(s, ns, cm.underlying)
    && (forall t :: t in x.tokens <==>
          t in x.snapshot.balances && x.snapshot.balances[t].isEnabled && x.snapshot.balances[t].amount > 1)
    && (forall t :: t in x.tokens ==> x.tokens[t] == TokenListed(s, ns, t))
  }

  // ---------------------------------------------------------------------------------------------
  // The engine's memory holds just that.

  function Or<V>(later: Option<V>, before: Option<V>): Option<V> { if later.Some? then later else before }

  lemma {:induction false} PutAllLast<K, V>(m: map<K, V>, kvs: seq<(K, V)>, k: K)
    ensures Get(PutAll(m, kvs), k) == Or(LastFor(kvs, k), Get(m, k))
    decreases |kvs|
  {
    if kvs != [] { PutAllLast(m[kvs[0].0 := kvs[0].1], kvs[1..], k); }
  }

  lemma {:induction false} PutThresholdsLast(m: map<(Manager, Token), int>, ts: seq<AllowedToken>, cm: Manager,
                                             t: Token)
    ensures Get(PutThresholds(m, ts), (cm, t)) == Or(LastThreshold(ts, cm, t), Get(m, (cm, t)))
    decreases |ts|
  {
    if ts != [] { PutThresholdsLast(m[(ts[0].creditManager, ts[0].token) := ts[0].threshold], ts[1..], cm, t); }
  }

  lemma {:induction false} PutPricesLast(m: map<Token, int>, fs: seq<PriceFeed>, usd: bool, t: Token)
    ensures Get(PutPrices(m, fs, usd), t) == Or(LastPrice(fs, t, usd), Get(m, t))
    decreases |fs|
  {
    if fs != [] { PutPricesLast(if fs[0].isPriceInUSD == usd then m[fs[0].token := fs[0].price] else
      m, fs[1..], usd, t); }
  }

  lemma {:induction false} LastForConcat<K, V>(a: seq<(K, V)>, b: seq<(K, V)>, k: K)
    ensures LastFor(a + b, k) == Or(LastFor(b, k), LastFor(a, k))
    decreases |a|
  {
    if a == [] {
      assert a + b == b;
    } else {
      assert (a + b)[0] == a[0] && (a + b)[1..] == a[1..] + b;
      LastForConcat(a[1..], b, k);
    }
  }

  lemma {:induction false} LastThresholdConcat(a: seq<AllowedToken>, b: seq<AllowedToken>, cm: Manager, t: Token)
    ensures LastThreshold(a + b, cm, t) == Or(LastThreshold(b, cm, t), LastThreshold(a, cm, t))
    decreases |a|
  {
    if a == [] {
      assert a + b == b;
    } else {
      assert (a + b)[0] == a[0] && (a + b)[1..] == a[1..] + b;
      LastThresholdConcat(a[1..], b, cm, t);
    }
  }

  lemma {:induction false} LastPriceConcat(a: seq<PriceFeed>, b: seq<PriceFeed>, t: Token, usd: bool)
    ensures LastPrice(a + b, t, usd) == Or(LastPrice(b, t, usd), LastPrice(a, t, usd))
    decreases |a|
  {
    if a == [] {
      assert a + b == b;
    } else {
      assert (a + b)[0] == a[0] && (a + b)[1..] == a[1..] + b;
      LastPriceConcat(a[1..], b, t, usd);
    }
  }

  lemma {:induction false} SnapshotListed(m: Memory, ns: seq<Numbered>, id: SessionId)
    ensures Get(MemoryAfter(m, ns).lastCSS, id) == Or(LastFor(AllSnapshots(ns), id), Get(m.lastCSS, id))
    decreases |ns|
  {
    if ns != [] {
      SnapshotListed(Absorb(m, ns[0].data), ns[1..], id);
      PutAllLast(m.lastCSS, ns[0].data.css, id);
      LastForConcat(ns[0].data.css, AllSnapshots(ns[1..]), id);
    }
  }

  lemma {:induction false} PoolListed(m: Memory, ns: seq<Numbered>, p: Pool)
    ensures Get(MemoryAfter(m, ns).pools, p) == Or(LastFor(AllPools(ns), p), Get(m.pools, p))
    decreases |ns|
  {
    if ns != [] {
      PoolListed(Absorb(m, ns[0].data), ns[1..], p);
      PutAllLast(m.pools, ns[0].data.poolStats, p);
      LastForConcat(ns[0].data.poolStats, AllPools(ns[1..]), p);
    }
  }

  lemma {:induction false} ThresholdListed(m: Memory, ns: seq<Numbered>, cm: Manager, t: Token)
    ensures Get(MemoryAfter(m, ns).thresholds, (cm, t)) ==
            Or(LastThreshold(AllThresholds(ns), cm, t), Get(m.thresholds, (cm, t)))
    decreases |ns|
  {
    if ns != [] {
      ThresholdListed(Absorb(m, ns[0].data), ns[1..], cm, t);
      PutThresholdsLast(m.thresholds, ns[0].data.allowedTokens, cm, t);
      LastThresholdConcat(ns[0].data.allowedTokens, AllThresholds(ns[1..]), cm, t);
    }
  }

  lemma {:induction false} PriceListed(m: Memory, ns: seq<Numbered>, t: Token, isV1: bool)
    ensures Price(MemoryAfter(m, ns), isV1, t) == Or(LastPrice(AllPrices(ns), t, !isV1), Price(m, isV1, t))
    decreases |ns|
  {
    if ns != [] {
      PriceListed(Absorb(m, ns[0].data), ns[1..], t, isV1);
      PutPricesLast(if isV1 then m.prices else m.pricesV2, ns[0].data.priceFeeds, !isV1, t);
      LastPriceConcat(ns[0].data.priceFeeds, AllPrices(ns[1..]), t, !isV1);
    }
  }

  lemma TokenIsListed(s: Session, ns: seq<Numbered>, t: Token)
    ensures TokenData(MemoryAfter(EMPTY, ns), s, t) == TokenListed(s, ns, t)
  {
    PriceListed(EMPTY, ns, t, s.isV1);
    ThresholdListed(EMPTY, ns, s.creditManager, t);
  }

  /** What an engine that started empty evaluates for a session is what the blocks list last. */
  lemma InputsAreListed(w: World, ns: seq<Numbered>, id: SessionId)
    requires id in w.sessions && w.sessions[id].creditManager in w.managers && id in MemoryAfter(EMPTY, ns).lastCSS
    ensures ReadOff(w, ns, id, InputsOf(w, MemoryAfter(EMPTY, ns), id))
  {
    var s := w.sessions[id];
    var cm := w.managers[s.creditManager];
    var x := InputsOf(w, MemoryAfter(EMPTY, ns), id);
    SnapshotListed(EMPTY, ns, id);
    PoolListed(EMPTY, ns, cm.pool);
    TokenIsListed(s, ns, cm.underlying);
    forall t | t in x.tokens ensures x.tokens[t] == TokenListed(s, ns, t) { TokenIsListed(s, ns, t); }
  }

  /** Every session active at block `b` has the value of what the blocks list last for it. */
  ghost predicate ValuesListed<V>(w: World, ns: seq<Numbered>, b: Block, values: map<SessionId, V>, f: Inputs -> V)
    requires Complete(w)
  {
    forall id :: id in w.sessions && w.sessions[id].since <= b &&
      (w.sessions[id].closedAt == 0 || b < w.sessions[id].closedAt)
      ==> id in values && exists x :: ReadOff(w, ns, id, x) && values[id] == f(x)
  }

  /** Main result: up-to-date values of an engine that started empty are the values of what was listed last. */
  lemma UpToDateIsListed<V>(w: World, ns: seq<Numbered>, b: Block, values: map<SessionId, V>, f: Inputs -> V)
    requires Complete(w) && Ready(w, MemoryAfter(EMPTY, ns), b) && UpToDate(w, MemoryAfter(EMPTY, ns), b, values, f)
    ensures ValuesListed(w, ns, b, values, f)
  {
    forall id | id in w.sessions && Active(w.sessions[id], b)
      ensures id in values && exists x :: ReadOff(w, ns, id, x) && values[id] == f(x)
    {
      InputsAreListed(w, ns, id);
    }
  }
}
