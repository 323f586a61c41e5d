/** Which credit sessions a block makes the debt engine recompute, and why the others may keep
    their values. */
module DebtTracking {

  import opened Wrappers

  type Token = nat
  type Pool = nat
  type Manager = nat
  type SessionId = nat
  type Block = int

  datatype Balance = Balance(isEnabled: bool, amount: int)

  datatype Snapshot = Snapshot(block: Block, balances: map<Token, Balance>, borrowed: int, cumulativeIndexAtOpen: int)

  datatype PoolData = PoolData(block: Block, cumulativeIndex: int, borrowAPY: int, timestamp: int)

  datatype PriceFeed = PriceFeed(token: Token, isPriceInUSD: bool, price: int)

  datatype AllowedToken = AllowedToken(creditManager: Manager, token: Token, threshold: int)

  /** What a block brings. */
  datatype BlockData = BlockData(poolStats: seq<(Pool, PoolData)>, css: seq<(SessionId, Snapshot)>,
                                 allowedTokens: seq<AllowedToken>, priceFeeds: seq<PriceFeed>)

  /** The engine's memory: the latest of everything. */
  datatype Memory = Memory(lastCSS: map<SessionId, Snapshot>, prices: map<Token, int>, pricesV2: map<Token, int>,
                           thresholds: map<(Manager, Token), int>, pools: map<Pool, PoolData>)

  datatype Session = Session(creditManager: Manager, isV1: bool, since: Block, closedAt: Block)

  /** Pool and underlying token of a credit manager. */
  datatype ManagerState = ManagerState(pool: Pool, underlying: Token)

  datatype World = World(sessions: map<SessionId, Session>, managers: map<Manager, ManagerState>)

  predicate Active(s: Session, b: Block) { !((s.closedAt != 0 && s.closedAt <= b) || s.since > b) }

  /** Every session belongs to a known manager. */
  predicate Complete(w: World) { forall id :: id in w.sessions ==> w.sessions[id].creditManager in w.managers }

  // ---------------------------------------------------------------------------------------------
  // Absorbing a block.

  function PutAll<K, V>(m: map<K, V>, kvs: seq<(K, V)>): map<K, V>
    decreases |kvs|
  {
    if kvs == [] then m else PutAll(m[kvs[0].0 := kvs[0].1], kvs[1..])
  }

  function PutThresholds(m: map<(Manager, Token), int>, ts: seq<AllowedToken>): map<(Manager, Token), int>
    decreases |ts|
  {
    if ts == [] then m else PutThresholds(m[(ts[0].creditManager, ts[0].token) := ts[0].threshold], ts[1..])
  }

  /** Price feeds in USD and in ETH are kept apart. */
  function PutPrices(m: map<Token, int>, fs: seq<PriceFeed>, usd: bool): map<Token, int>
    decreases |fs|
  {
    if fs == [] then m
    else PutPrices(if fs[0].isPriceInUSD == usd then m[fs[0].token := fs[0].price] else m, fs[1..], usd)
  }

  function Absorb(m: Memory, blk: BlockData): Memory {
    Memory(PutAll(m.lastCSS, blk.css), PutPrices(m.prices, blk.priceFeeds, false),
      PutPrices(m.pricesV2, blk.priceFeeds, true),
           PutThresholds(m.thresholds, blk.allowedTokens), PutAll(m.pools, blk.poolStats))
  }

  function PoolsIn(blk: BlockData): set<Pool> { set p | p in blk.poolStats :: p.0 }
  function SessionsIn(blk: BlockData): set<SessionId> { set c | c in blk.css :: c.0 }
  function TokensIn(blk: BlockData): set<Token> {
    (set a | a in blk.allowedTokens :: a.token) + (set f | f in blk.priceFeeds :: f.token)
  }

  // ---------------------------------------------------------------------------------------------
  // Marking.

  /** Tokens that count for a session: enabled and held in more than dust. */
  predicate Counts(b: Balance) { b.isEnabled && b.amount > 1 }

  function HeldTokens(s: Snapshot): set<Token> { set t | t in s.balances && Counts(s.balances[t]) }

  /** Whether an active session depends on something the block has changed. */
  predicate Affected(w: World, m: Memory, blk: BlockData, id: SessionId)
    requires id in w.sessions && w.sessions[id].creditManager in w.managers && id in m.lastCSS
  {
    var cm := w.managers[w.sessions[id].creditManager];
    || cm.pool in PoolsIn(blk)
    || cm.underlying in TokensIn(blk)
    || exists t :: t in HeldTokens(m.lastCSS[id]) && t in TokensIn(blk)
  }

  /** Active sessions all have a snapshot. */
  predicate Ready(w: World, m: Memory, b: Block) {
    forall id :: id in w.sessions && Active(w.sessions[id], b) ==> id in m.lastCSS
  }

  /** The sessions recomputed at block `b`; `m` already holds the block's data. */
  ghost predicate Marked(w: World, m: Memory, blk: BlockData, b: Block, id: SessionId)
    requires Complete(w) && Ready(w, m, b)
  {
    id in w.sessions && Active(w.sessions[id], b) && (id in SessionsIn(blk) || Affected(w, m, blk, id))
  }

  // ---------------------------------------------------------------------------------------------
  // What a session's value is computed from.

  function Get<K, V>(m: map<K, V>, k: K): Option<V> { if k in m then Some(m[k]) else None }

  function Price(m: Memory, isV1: bool, t: Token): Option<int> {
    if isV1 then Get(m.prices, t) else Get(m.pricesV2, t)
  }

  datatype TokenInputs = TokenInputs(price: Option<int>, threshold: Option<int>)

  /** Snapshot, pool data, underlying price and the price and threshold of every token that counts. */
  datatype Inputs = Inputs(snapshot: Snapshot, pool: Option<PoolData>, underlying: TokenInputs, tokens: map<Token,
                           TokenInputs>)

  function TokenData(m: Memory, s: Session, t: Token): TokenInputs {
    TokenInputs(Price(m, s.isV1, t), Get(m.thresholds, (s.creditManager, t)))
  }

  function InputsOf(w: World, m: Memory, id: SessionId): Inputs
    requires id in w.sessions && w.sessions[id].creditManager in w.managers && id in m.lastCSS
  {
    var s := w.sessions[id];
    var cm := w.managers[s.creditManager];
    Inputs(m.lastCSS[id], Get(m.pools, cm.pool), TokenData(m, s, cm.underlying),
           map t | t in HeldTokens(m.lastCSS[id]) :: TokenData(m, s, t))
  }

  // ---------------------------------------------------------------------------------------------
  // Soundness.

  lemma {:induction false} PutElsewhere<K, V>(m: map<K, V>, kvs: seq<(K, V)>, k: K)
    requires forall i :: 0 <= i < |kvs| ==> kvs[i].0 != k
    ensures Get(PutAll(m, kvs), k) == Get(m, k)
    decreases |kvs|
  {
    if kvs != [] { PutElsewhere(m[kvs[0].0 := kvs[0].1], kvs[1..], k); }
  }

  lemma {:induction false} ThresholdElsewhere(m: map<(Manager, Token), int>, ts: seq<AllowedToken>, k: (Manager, Token))
    requires forall a :: a in ts ==> a.token != k.1
    ensures Get(PutThresholds(m, ts), k) == Get(m, k)
    decreases |ts|
  {
    if ts != [] {
      assert ts[0] in ts;
      ThresholdElsewhere(m[(ts[0].creditManager, ts[0].token) := ts[0].threshold], ts[1..], k);
    }
  }

  lemma {:induction false} PriceElsewhere(m: map<Token, int>, fs: seq<PriceFeed>, usd: bool, t: Token)
    requires forall f :: f in fs ==> f.token != t
    ensures Get(PutPrices(m, fs, usd), t) == Get(m, t)
    decreases |fs|
  {
    if fs != [] {
      assert fs[0] in fs;
      PriceElsewhere(if fs[0].isPriceInUSD == usd then m[fs[0].token := fs[0].price] else m, fs[1..], usd, t);
    }
  }

  lemma TokenUntouched(m: Memory, blk: BlockData, s: Session, t: Token)
    requires t !in TokensIn(blk)
    ensures TokenData(Absorb(m, blk), s, t) == TokenData(m, s, t)
  {
    ThresholdElsewhere(m.thresholds, blk.allowedTokens, (s.creditManager, t));
    PriceElsewhere(m.prices, blk.priceFeeds, false, t);
    PriceElsewhere(m.pricesV2, blk.priceFeeds, true, t);
  }

  lemma SnapshotUntouched(m: Memory, blk: BlockData, id: SessionId)
    requires id !in SessionsIn(blk)
    ensures Get(Absorb(m, blk).lastCSS, id) == Get(m.lastCSS, id)
  {
    forall i | 0 <= i < |blk.css| ensures blk.css[i].0 != id { assert blk.css[i] in blk.css; }
    PutElsewhere(m.lastCSS, blk.css, id);
  }

  /** A session the block does not mark has all its inputs unchanged. */
  lemma UnmarkedIsUnchanged(w: World, m: Memory, blk: BlockData, b: Block, id: SessionId)
    requires Complete(w) && Ready(w, Absorb(m, blk), b) && id in w.sessions && Active(w.sessions[id], b)
    requires !Marked(w, Absorb(m, blk), blk, b, id)
    ensures id in m.lastCSS && InputsOf(w, Absorb(m, blk), id) == InputsOf(w, m, id)
  {
    var m', s := Absorb(m, blk), w.sessions[id];
    var cm := w.managers[s.creditManager];
    SnapshotUntouched(m, blk, id);
    assert m'.lastCSS[id] == m.lastCSS[id];
    forall i | 0 <= i < |blk.poolStats| ensures blk.poolStats[i].0 != cm.pool {
      assert blk.poolStats[i] in blk.poolStats;
    }
    PutElsewhere(m.pools, blk.poolStats, cm.pool);
    TokenUntouched(m, blk, s, cm.underlying);
    forall t | t in HeldTokens(m.lastCSS[id]) ensures TokenData(m', s, t) == TokenData(m, s, t) {
      TokenUntouched(m, blk, s, t);
    }
    assert InputsOf(w, m', id).tokens == InputsOf(w, m, id).tokens;
  }

  // ---------------------------------------------------------------------------------------------
  // Incremental recomputation against recomputing everything.

  datatype Numbered = Numbered(block: Block, data: BlockData)

  /** The values after a block: marked sessions are evaluated anew, the others keep theirs. */
  ghost function Recompute<V>(w: World, m: Memory, values: map<SessionId, V>, n: Numbered,
                              f: Inputs -> V): map<SessionId, V>
    requires Complete(w) && Ready(w, Absorb(m, n.data), n.block)
  {
    var m' := Absorb(m, n.data);
    map id | id in values.Keys + w.sessions.Keys && (id in values || Marked(w, m', n.data, n.block, id)) ::
      if Marked(w, m', n.data, n.block, id) then f(InputsOf(w, m', id)) else values[id]
  }

  /** Snapshots appear only once their session has begun, and every active session has one. */
  ghost predicate Plausible(w: World, m: Memory, last: Block, ns: seq<Numbered>)
    decreases |ns|
  {
    ns == [] ||
    (var m' := Absorb(m, ns[0].data);
     last < ns[0].block && Ready(w, m', ns[0].block) && Begun(w, m', ns[0].block)
     && Plausible(w, m', ns[0].block, ns[1..]))
  }

  ghost predicate Begun(w: World, m: Memory, b: Block) {
    forall id :: id in m.lastCSS && id in w.sessions ==> w.sessions[id].since <= b
  }

  ghost function MemoryAfter(m: Memory, ns: seq<Numbered>): Memory
    decreases |ns|
  {
    if ns == [] then m else MemoryAfter(Absorb(m, ns[0].data), ns[1..])
  }

  ghost function ValuesAfter<V>(w: World, m: Memory, last: Block, values: map<SessionId, V>, ns: seq<Numbered>,
                                f: Inputs -> V): map<SessionId, V>
    requires Complete(w) && Plausible(w, m, last, ns)
    decreases |ns|
  {
    if ns == [] then values
    else ValuesAfter(w, Absorb(m, ns[0].data), ns[0].block, Recompute(w, m, values, ns[0], f), ns[1..], f)
  }

  function LastBlock(last: Block, ns: seq<Numbered>): Block { if ns == [] then last else ns[|ns| - 1].block }

  /** Every active session's stored value is what evaluating it now would give. */
  ghost predicate UpToDate<V>(w: World, m: Memory, b: Block, values: map<SessionId, V>, f: Inputs -> V)
    requires Complete(w) && Ready(w, m, b)
  {
    forall id :: id in w.sessions && Active(w.sessions[id], b) ==> id in values && values[id] == f(InputsOf(w, m, id))
  }

  lemma BlockKeepsUpToDate<V>(w: World, m: Memory, last: Block, values: map<SessionId, V>, n: Numbered, f: Inputs -> V)
    requires Complete(w) && Ready(w, m, last) && Begun(w, m, last) && UpToDate(w, m, last, values, f)
    requires last < n.block && Ready(w, Absorb(m, n.data), n.block)
    ensures UpToDate(w, Absorb(m, n.data), n.block, Recompute(w, m, values, n, f), f)
  {
    var m' := Absorb(m, n.data);
    forall id | id in w.sessions && Active(w.sessions[id], n.block)
      ensures id in Recompute(w, m, values, n, f) && Recompute(w, m, values, n, f)[id] == f(InputsOf(w, m', id))
    {
      if !Marked(w, m', n.data, n.block, id) {
        UnmarkedIsUnchanged(w, m, n.data, n.block, id);
        assert w.sessions[id].since <= last;
        assert Active(w.sessions[id], last);
      }
    }
  }

  /** Main result. Over every run of blocks, evaluating only the marked sessions leaves every active
      session with the value a full recomputation would give, for any function of the inputs. */
  lemma {:induction false} IncrementalIsFull<V>(w: World, m: Memory, last: Block, values: map<SessionId, V>,
                                                ns: seq<Numbered>, f: Inputs -> V)
    requires Complete(w) && Ready(w, m, last) && Begun(w, m, last) && UpToDate(w, m, last, values, f)
    requires Plausible(w, m, last, ns)
    ensures Ready(w, MemoryAfter(m, ns), LastBlock(last, ns))
    ensures UpToDate(w, MemoryAfter(m, ns), LastBlock(last, ns), ValuesAfter(w, m, last, values, ns, f), f)
    decreases |ns|
  {
    if ns != [] {
      BlockKeepsUpToDate(w, m, last, values, ns[0], f);
      IncrementalIsFull(w, Absorb(m, ns[0].data), ns[0].block, Recompute(w, m, values, ns[0], f), ns[1..], f);
      assert LastBlock(ns[0].block, ns[1..]) == LastBlock(last, ns);
    }
  }
}
