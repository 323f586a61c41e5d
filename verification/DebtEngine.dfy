/** The debt engine's per-block work: load the block, mark the sessions it concerns, evaluate those. */
module DebtEngine {
  import opened DebtTracking
  import opened DebtInputs

  class Engine {
    var lastCSS: map<SessionId, Snapshot>
    var tokenLastPrice: map<Token, int>
    var tokenLastPriceV2: map<Token, int>
    var allowedTokensThreshold: map<(Manager, Token), int>
    var poolLastInterestData: map<Pool, PoolData>
    /** The latest value evaluated for each session. */
    var values: map<SessionId, int>

    constructor ()
      ensures View() == EMPTY && values == map[]
    {
      lastCSS, tokenLastPrice, tokenLastPriceV2, allowedTokensThreshold, poolLastInterestData := map[], map[], map[],
        map[], map[];
      values := map[];
    }

    ghost function View(): Memory
      reads this
    {
      Memory(lastCSS, tokenLastPrice, tokenLastPriceV2, allowedTokensThreshold, poolLastInterestData)
    }

    /** Loads a block and reports what it touched. */
    method UpdateLocalState(blk: BlockData)
      returns (poolsUpdated: set<Pool>, tokensUpdated: set<Token>, sessionsUpdated: set<SessionId>)
      modifies this
      ensures View() == Absorb(old(View()), blk) && values == old(values)
      ensures poolsUpdated == PoolsIn(blk) && tokensUpdated == TokensIn(blk) && sessionsUpdated == SessionsIn(blk)
    {
      poolLastInterestData, poolsUpdated := PutEntries(poolLastInterestData, blk.poolStats);
      lastCSS, sessionsUpdated := PutEntries(lastCSS, blk.css);
      var allowed, priced;
      allowedTokensThreshold, allowed := LoadThresholds(allowedTokensThreshold, blk.allowedTokens);
      tokenLastPrice, tokenLastPriceV2, priced := LoadPrices(tokenLastPrice, tokenLastPriceV2, blk.priceFeeds);
      tokensUpdated := allowed + priced;
    }

    /** Adds to `updated` the active sessions that depend on an updated pool or token. */
    method MarkSessions(w: World, blk: BlockData, b: Block, poolsUpdated: set<Pool>, tokensUpdated: set<Token>,
                        updated: set<SessionId>)
      returns (marked: set<SessionId>)
      requires Complete(w) && Ready(w, View(), b)
      requires poolsUpdated == PoolsIn(blk) && tokensUpdated == TokensIn(blk) && updated == SessionsIn(blk)
      ensures forall id :: id in w.sessions && Active(w.sessions[id], b) ==>
              (id in marked <==> Marked(w, View(), blk, b, id))
    {
      marked := updated;
      var todo := w.sessions.Keys;
      while todo != {}
        invariant todo <= w.sessions.Keys
        invariant forall id :: id in w.sessions.Keys - todo && Active(w.sessions[id], b) ==>
                  (id in marked <==> Marked(w, View(), blk, b, id))
        invariant forall id :: id in todo ==> (id in marked <==> id in updated)
        decreases todo
      {
        var id :| id in todo;
        var s := w.sessions[id];
        if !((s.closedAt != 0 && s.closedAt <= b) || s.since > b) {
          var cm := w.managers[s.creditManager];
          if cm.pool in poolsUpdated {
            marked := marked + {id};
          }
          var touched := AnyUpdated(lastCSS[id].balances, tokensUpdated);
          if touched {
            marked := marked + {id};
          }
          if cm.underlying in tokensUpdated {
            marked := marked + {id};
          }
        }
        todo := todo - {id};
      }
    }

    /** One block: only the marked sessions are evaluated. */
    method ProcessBlock(w: World, n: Numbered, f: Inputs -> int)
      requires Complete(w) && Ready(w, Absorb(View(), n.data), n.block)
      modifies this
      ensures View() == Absorb(old(View()), n.data)
      ensures values == Recompute(w, old(View()), old(values), n, f)
    {
      var pools, tokens, sessions := UpdateLocalState(n.data);
      var marked := MarkSessions(w, n.data, n.block, pools, tokens, sessions);
      Evaluate(w, n.block, marked * w.sessions.Keys, f);
    }

    /** Evaluates the listed sessions, passing over those not active. */
    method Evaluate(w: World, b: Block, ids: set<SessionId>, f: Inputs -> int)
      requires Complete(w) && Ready(w, View(), b) && ids <= w.sessions.Keys
      modifies this`values
      ensures forall id :: id in values <==> id in old(values) || (id in ids && Active(w.sessions[id], b))
      ensures forall id :: id in values ==>
                values[id] == if id in ids &&
                  Active(w.sessions[id], b) then f(InputsOf(w, View(), id)) else old(values)[id]
    {
      var todo := ids;
      while todo != {}
        invariant todo <= ids
        invariant forall id :: id in values <==> id in old(values) || (id in ids - todo && Active(w.sessions[id], b))
        invariant forall id :: id in values ==>
                    values[id] == if id in ids - todo &&
                      Active(w.sessions[id], b) then f(InputsOf(w, View(), id)) else old(values)[id]
        decreases todo
      {
        var id :| id in todo;
        var s := w.sessions[id];
        if !((s.closedAt != 0 && s.closedAt <= b) || s.since > b) {
          values := values[id := f(Gather(w, id))];
        }
        todo := todo - {id};
      }
    }

    /** The data a session's value is computed from. */
    function Gather(w: World, id: SessionId): Inputs
      requires id in w.sessions && w.sessions[id].creditManager in w.managers && id in lastCSS
      reads this
    {
      InputsOf(w, Memory(lastCSS, tokenLastPrice, tokenLastPriceV2, allowedTokensThreshold, poolLastInterestData), id)
    }
  }

  method PutEntries<K(==), V>(m: map<K, V>, kvs: seq<(K, V)>) returns (r: map<K, V>, keys: set<K>)
    ensures r == PutAll(m, kvs) && keys == set kv | kv in kvs :: kv.0
  {
    r, keys := m, {};
    var i := 0;
    assert kvs[0..] == kvs;
    while i < |kvs|
      invariant 0 <= i <= |kvs|
      invariant PutAll(r, kvs[i..]) == PutAll(m, kvs) && keys == set kv | kv in kvs[..i] :: kv.0
    {
      assert kvs[i..][0] == kvs[i] && kvs[i..][1..] == kvs[i + 1..] && kvs[..i + 1] == kvs[..i] + [kvs[i]];
      r, keys := r[kvs[i].0 := kvs[i].1], keys + {kvs[i].0};
      i := i + 1;
    }
    assert kvs[..i] == kvs;
  }

  method LoadThresholds(m: map<(Manager, Token), int>, ts: seq<AllowedToken>)
    returns (r: map<(Manager, Token), int>, tokens: set<Token>)
    ensures r == PutThresholds(m, ts) && tokens == set a | a in ts :: a.token
  {
    r, tokens := m, {};
    var i := 0;
    assert ts[0..] == ts;
    while i < |ts|
      invariant 0 <= i <= |ts|
      invariant PutThresholds(r, ts[i..]) == PutThresholds(m, ts) && tokens == set a | a in ts[..i] :: a.token
    {
      assert ts[i..][0] == ts[i] && ts[i..][1..] == ts[i + 1..] && ts[..i + 1] == ts[..i] + [ts[i]];
      r, tokens := r[(ts[i].creditManager, ts[i].token) := ts[i].threshold], tokens + {ts[i].token};
      i := i + 1;
    }
    assert ts[..i] == ts;
  }

  method LoadPrices(m: map<Token, int>, m2: map<Token, int>, fs: seq<PriceFeed>)
    returns (r: map<Token, int>, r2: map<Token, int>, tokens: set<Token>)
    ensures r == PutPrices(m, fs, false) && r2 == PutPrices(m2, fs, true) && tokens == set f | f in fs :: f.token
  {
    r, r2, tokens := m, m2, {};
    var i := 0;
    assert fs[0..] == fs;
    while i < |fs|
      invariant 0 <= i <= |fs|
      invariant PutPrices(r, fs[i..], false) == PutPrices(m, fs, false) &&
                PutPrices(r2, fs[i..], true) == PutPrices(m2, fs, true)
      invariant tokens == set f | f in fs[..i] :: f.token
    {
      assert fs[i..][0] == fs[i] && fs[i..][1..] == fs[i + 1..] && fs[..i + 1] == fs[..i] + [fs[i]];
      if fs[i].isPriceInUSD {
        r2 := r2[fs[i].token := fs[i].price];
      } else {
        r := r[fs[i].token := fs[i].price];
      }
      tokens := tokens + {fs[i].token};
      i := i + 1;
    }
    assert fs[..i] == fs;
  }

  /** Whether an enabled, held token is among the updated ones. */
  method AnyUpdated(balances: map<Token, Balance>, updated: set<Token>) returns (r: bool)
    ensures r <==> exists t :: t in balances && Counts(balances[t]) && t in updated
  {
    r := false;
    var todo := balances.Keys;
    while todo != {}
      invariant todo <= balances.Keys
      invariant r <==> exists t :: t in balances.Keys - todo && Counts(balances[t]) && t in updated
      decreases todo
    {
      var t :| t in todo;
      if balances[t].isEnabled && balances[t].amount > 1 {
        if t in updated {
          r := true;
        }
      }
      todo := todo - {t};
    }
  }

  /** A run of blocks through the engine ends with every active session's value as a full
      recomputation would give it. */
  method Run(e: Engine, w: World, last: Block, ns: seq<Numbered>, f: Inputs -> int)
    requires Complete(w) && Ready(w, e.View(), last) && Begun(w, e.View(), last) &&
             UpToDate(w, e.View(), last, e.values, f)
    requires Plausible(w, e.View(), last, ns)
    modifies e
    ensures e.View() == MemoryAfter(old(e.View()), ns)
    ensures Ready(w, e.View(), LastBlock(last, ns)) && UpToDate(w, e.View(), LastBlock(last, ns), e.values, f)
    ensures old(e.View()) == EMPTY && ns != [] ==> ValuesListed(w, ns, ns[|ns| - 1].block, e.values, f)
  {
    IncrementalIsFull(w, e.View(), last, e.values, ns, f);
    ghost var m0, v0 := e.View(), e.values;
    ghost var at := last;
    var i := 0;
    assert ns[0..] == ns;
    while i < |ns|
      invariant 0 <= i <= |ns| && Plausible(w, e.View(), at, ns[i..])
      invariant MemoryAfter(e.View(), ns[i..]) == MemoryAfter(m0, ns)
      invariant ValuesAfter(w, e.View(), at, e.values, ns[i..], f) == ValuesAfter(w, m0, last, v0, ns, f)
    {
      assert ns[i..][0] == ns[i] && ns[i..][1..] == ns[i + 1..];
      e.ProcessBlock(w, ns[i], f);
      at := ns[i].block;
      i := i + 1;
    }
    assert ns[i..] == [];
    if m0 == EMPTY { UpToDateIsListed(w, ns, LastBlock(last, ns), e.values, f); }
  }
}
