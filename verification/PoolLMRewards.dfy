/** The stateful tracker: one object fed with transfer logs and batch ends. */
module PoolLMRewards {
  import opened Sums
  import opened RewardSchedule
  import opened Rewards
  import opened RewardFlows

  type Pool = nat
  type Payout = (Pool, Address) -> int
  type RewardMap = map<(Pool, Address), int>

  /** `r'` is `r` with every user paid what `owed` says, per pool. */
  ghost predicate Paid(r: RewardMap, r': RewardMap, owed: Payout) {
    forall pool: Pool, u: Address {:trigger Due(owed, pool, u)} ::
      Get(r', (pool, u)) == Get(r, (pool, u)) + Due(owed, pool, u)
  }

  ghost function Due(owed: Payout, pool: Pool, u: Address): int { owed(pool, u) }

  ghost function Diesels(pools: map<Symbol, Pool>, pool: Pool): set<Symbol> {
    set sym | sym in pools && pools[sym] == pool
  }

  // Rewards of one user as a function of the diesel token.

  ghost function SegmentOf(snap: Snapshot, n: int, l: Ledger, u: Address): Symbol -> int {
    (sym: Symbol) => if sym in l.supplies then
      Share(Get(l.balances, (sym, u)), Rate(snap, sym), n, l.supplies[sym]) else 0
  }

  ghost function RemainderOf(snaps: seq<Snapshot>, start: Block, to: Block, l: Ledger, u: Address): Symbol -> int {
    (sym: Symbol) => if sym in l.supplies then
      AccrueFrom(snaps, start, to, sym, Get(l.balances, (sym, u)), l.supplies[sym]) else 0
  }

  ghost function StreamOf(s: seq<Snapshot>, p: Block, l: Ledger, es: seq<Event>, u: Address): Symbol -> int {
    (sym: Symbol) => Earned(s, p, l, es, (sym, u))
  }

  // What a user is owed in a pool: the rewards of the pool's diesel tokens added up.

  ghost function SegmentPayout(snap: Snapshot, n: int, l: Ledger, pools: map<Symbol, Pool>): Payout {
    (pool: Pool, u: Address) => SumOver(Diesels(pools, pool), SegmentOf(snap, n, l, u))
  }

  ghost function RemainderPayout(snaps: seq<Snapshot>, start: Block, to: Block, l: Ledger, pools: map<Symbol,
                                 Pool>): Payout {
    (pool: Pool, u: Address) => SumOver(Diesels(pools, pool), RemainderOf(snaps, start, to, l, u))
  }

  /** The rewards of a whole stream, as `Rewards.Earned` defines them per token and user. */
  ghost function StreamPayout(s: seq<Snapshot>, p: Block, l: Ledger, es: seq<Event>, pools: map<Symbol, Pool>): Payout {
    (pool: Pool, u: Address) => SumOver(Diesels(pools, pool), StreamOf(s, p, l, es, u))
  }

  /** Tokens of `pool` for which `u` has been visited. */
  ghost function Visited(done: set<Holding>, pools: map<Symbol, Pool>, pool: Pool, u: Address): set<Symbol> {
    set k | k in done && k.1 == u && k.0 in pools && pools[k.0] == pool :: k.0
  }

  ghost function VisitedPayout(done: set<Holding>, snap: Snapshot, n: int, l: Ledger, pools: map<Symbol,
                               Pool>): Payout {
    (pool: Pool, u: Address) => SumOver(Visited(done, pools, pool, u), SegmentOf(snap, n, l, u))
  }

  class Tracker {
    var pendingCalcBlock: Block
    var dieselBalances: map<Holding, int>
    var rewards: RewardMap
    var totalSupplies: map<Symbol, int>
    const pools: map<Symbol, Pool>
    const schedule: seq<Snapshot>

    /** The ranges charged so far. */
    ghost var charged: seq<(Block, Block)>

    ghost predicate Valid()
      reads this
    {
      Ascending(schedule) && forall k :: k in dieselBalances ==> k.0 in pools
    }

    ghost function Books(): Ledger
      reads this
    {
      Ledger(dieselBalances, totalSupplies)
    }

    /** Supplies are reloaded from the saved details; balances and rewards start empty. */
    constructor (syncedTill: Block, schedule: seq<Snapshot>, pools: map<Symbol, Pool>, supplies: map<Symbol, int>)
      requires Ascending(schedule)
      ensures Valid() && pendingCalcBlock == syncedTill + 1 && Books() == Ledger(map[], supplies) &&
              rewards == map[] && charged == []
      ensures this.schedule == schedule && this.pools == pools
    {
      pendingCalcBlock := syncedTill + 1;
      dieselBalances := map[];
      rewards := map[];
      totalSupplies := supplies;
      this.schedule := schedule;
      this.pools := pools;
      charged := [];
    }

    method AddUserReward(pool: Pool, user: Address, reward: int)
      modifies this`rewards
      ensures rewards == old(rewards)[(pool, user) := Get(old(rewards), (pool, user)) + reward]
    {
      rewards := rewards[(pool, user) := Get(rewards, (pool, user)) + reward];
    }

    /** One user's share of one snapshot; a token without a supply entry pays nothing. */
    method ChargeHolding(k: Holding, snap: Snapshot, n: int, ghost start: RewardMap, ghost done: set<Holding>)
      requires Valid() && k in dieselBalances && k !in done
      requires k.0 in totalSupplies ==> totalSupplies[k.0] != 0
      requires Paid(start, rewards, VisitedPayout(done, snap, n, Books(), pools))
      modifies this`rewards
      ensures Paid(start, rewards, VisitedPayout(done + {k}, snap, n, Books(), pools))
    {
      var reward := 0;
      if k.0 in totalSupplies {
        reward := Share(dieselBalances[k], Rate(snap, k.0), n, totalSupplies[k.0]);
      }
      VisitOne(start, rewards, done, k, reward, snap, n, Books(), pools);
      AddUserReward(pools[k.0], k.1, reward);
    }

    /** One snapshot's share for every user of every token, in whatever order the map is walked. */
    method ChargeSegment(snap: Snapshot, n: int)
      requires Valid()
      requires forall k :: k in dieselBalances && k.0 in totalSupplies ==> totalSupplies[k.0] != 0
      modifies this`rewards
      ensures Paid(old(rewards), rewards, SegmentPayout(snap, n, Books(), pools))
    {
      var todo := dieselBalances.Keys;
      NobodyVisited(rewards, snap, n, Books(), pools);
      assert dieselBalances.Keys - todo == {};
      while todo != {}
        invariant todo <= dieselBalances.Keys
        invariant Paid(old(rewards), rewards, VisitedPayout(dieselBalances.Keys - todo, snap, n, Books(), pools))
        decreases todo
      {
        var k :| k in todo;
        ChargeHolding(k, snap, n, old(rewards), dieselBalances.Keys - todo);
        assert dieselBalances.Keys - todo + {k} == dieselBalances.Keys - (todo - {k});
        todo := todo - {k};
      }
      assert dieselBalances.Keys - todo == Books().balances.Keys;
      AllVisited(old(rewards), rewards, snap, n, Books(), pools);
    }

    /** The next snapshot of an answered query; yields the first block of the one after. */
    method ChargeNext(snaps: seq<Snapshot>, snapStart: Block, to: Block, ghost start: RewardMap, ghost whole: Payout)
      returns (next: Block)
      requires Valid() && snaps != []
      requires forall k :: k in dieselBalances && k.0 in totalSupplies ==> totalSupplies[k.0] != 0
      requires Owing(start, rewards, RemainderPayout(snaps, snapStart, to, Books(), pools), whole)
      modifies this`rewards
      ensures Owing(start, rewards, RemainderPayout(snaps[1..], next, to, Books(), pools), whole)
    {
      var snapEnd := to;
      if |snaps| != 1 {
        snapEnd := snaps[1].block - 1;
      }
      ChargeSegment(snaps[0], snapEnd - snapStart + 1);
      SegmentDone(start, old(rewards), rewards, snaps, snapStart, to, Books(), pools, whole);
      next := snapEnd + 1;
    }

    /** Rewards for the blocks from `from` to `to`, both included. */
    method CalculateRewards(from: Block, to: Block)
      requires Valid() && Divisible(schedule, from, to, Books())
      modifies this`rewards, this`charged
      ensures charged == old(charged) + [(from, to)]
      ensures Paid(old(rewards), rewards, StreamPayout(schedule, from, Books(), [Sync(to)], pools))
    {
      var snapshots := Query(schedule, from, to);
      var snapStart := from;
      if |snapshots| > 0 && from < snapshots[0].block {
        snapStart := snapshots[0].block;
      }
      ghost var whole := RemainderPayout(snapshots, snapStart, to, Books(), pools);
      var i := 0;
      NothingPaid(rewards, whole);
      assert snapshots[0..] == snapshots;
      while i < |snapshots|
        invariant 0 <= i <= |snapshots| && charged == old(charged)
        invariant Owing(old(rewards), rewards, RemainderPayout(snapshots[i..], snapStart, to, Books(), pools), whole)
      {
        snapStart := ChargeNext(snapshots[i..], snapStart, to, old(rewards), whole);
        assert snapshots[i..][1..] == snapshots[i + 1..];
        i := i + 1;
      }
      assert snapshots[i..] == [];
      RangeDone(old(rewards), rewards, schedule, from, to, snapStart, Books(), pools);
      charged := charged + [(from, to)];
    }

    method AddBalance(sym: Symbol, user: Address, amount: int)
      modifies this`dieselBalances
      ensures Books() == Credit(old(Books()), (sym, user), amount)
    {
      dieselBalances := dieselBalances[(sym, user) := Get(dieselBalances, (sym, user)) + amount];
    }

    /** The bookkeeping half of a transfer log. */
    method Enter(t: Event)
      requires Valid() && t.Transfer? && t.sym in pools
      modifies this`dieselBalances, this`totalSupplies
      ensures Valid() && Books() == Apply(old(Books()), t)
    {
      if t.to == NULL_ADDR {
        totalSupplies := totalSupplies[t.sym := Get(totalSupplies, t.sym) - t.amount];
      } else {
        AddBalance(t.sym, t.to, t.amount);
      }
      assert Books() == Receive(old(Books()), t);
      if t.from == NULL_ADDR {
        totalSupplies := totalSupplies[t.sym := Get(totalSupplies, t.sym) + t.amount];
      } else {
        AddBalance(t.sym, t.from, 0 - t.amount);
      }
    }

    /** Charges the blocks before that of a log which moves something. */
    method CatchUp(t: Event)
      requires Valid() && t.Transfer? && Effective(t) && pendingCalcBlock <= t.block
      requires Charges(pendingCalcBlock, t) ==> Divisible(schedule, pendingCalcBlock, ChargedTill(t), Books())
      modifies this`rewards, this`charged, this`pendingCalcBlock
      ensures Valid() && pendingCalcBlock == t.block && charged == old(charged) + Charged(old(pendingCalcBlock), t)
      ensures Paid(old(rewards), rewards, StreamPayout(schedule, old(pendingCalcBlock), Books(), [t], pools))
    {
      TransferAsSync(schedule, pendingCalcBlock, Books(), t, pools, rewards);
      ghost var r := rewards;
      if t.block != pendingCalcBlock {
        CalculateRewards(pendingCalcBlock, t.block - 1);
        SameEarnings(schedule, old(pendingCalcBlock), Books(), t, pools, r, rewards);
        pendingCalcBlock := t.block;
      }
    }

    /** A transfer log. */
    method OnLog(t: Event)
      requires Valid() && t.Transfer? && t.sym in pools && pendingCalcBlock <= t.block
      requires Charges(pendingCalcBlock, t) ==> Divisible(schedule, pendingCalcBlock, ChargedTill(t), Books())
      modifies this
      ensures Valid() && Books() == BooksAfter(old(Books()), t)
      ensures Moved(old(Books()), Books(), t)
      ensures pendingCalcBlock == PendingAfter(old(pendingCalcBlock), t)
      ensures charged == old(charged) + Charged(old(pendingCalcBlock), t)
      ensures Paid(old(rewards), rewards, StreamPayout(schedule, old(pendingCalcBlock), old(Books()), [t], pools))
    {
      ghost var l := Books();
      TransferMoves(l, t);
      if t.amount == 0 {
        TransferAsSync(schedule, pendingCalcBlock, l, t, pools, rewards);
        return;
      }
      CatchUp(t);
      Enter(t);
      assert Books() == BooksAfter(l, t);
    }

    /** The end of a sync batch. */
    method AfterSyncHook(syncedTill: Block)
      requires Valid() && Divisible(schedule, pendingCalcBlock, syncedTill, Books())
      modifies this
      ensures Valid() && Books() == old(Books()) && pendingCalcBlock == syncedTill + 1
      ensures charged == old(charged) + Charged(old(pendingCalcBlock), Sync(syncedTill))
      ensures Paid(old(rewards), rewards,
              StreamPayout(schedule, old(pendingCalcBlock), old(Books()), [Sync(syncedTill)], pools))
    {
      CalculateRewards(pendingCalcBlock, syncedTill);
      pendingCalcBlock := syncedTill + 1;
    }

    /** A whole stream: batches of logs, each closed by the batch hook. */
    method Replay(es: seq<Event>)
      requires Valid() && InOrder(pendingCalcBlock, es)
      requires AllDivisible(schedule, pendingCalcBlock, Books(), es)
      requires forall e :: e in es && e.Transfer? ==> e.sym in pools
      modifies this
      ensures Valid() && charged == old(charged) + Ranges(old(pendingCalcBlock), es)
      ensures Flowed(old(Books()), Books(), es)
      ensures Paid(old(rewards), rewards, StreamPayout(schedule, old(pendingCalcBlock), old(Books()), es, pools))
    {
      ghost var r, whole := rewards, StreamPayout(schedule, pendingCalcBlock, Books(), es, pools);
      ghost var top := Highest(es);
      var i := 0;
      assert es[0..] == es;
      NothingPaid(rewards, whole);
      while i < |es|
        invariant 0 <= i <= |es| && Valid()
        invariant InOrder(pendingCalcBlock, es[i..]) && AllDivisible(schedule, pendingCalcBlock, Books(), es[i..])
        invariant Owing(r, rewards, StreamPayout(schedule, pendingCalcBlock, Books(), es[i..], pools), whole)
        invariant BooksAt(Books(), es[i..], top) == BooksAt(old(Books()), es, top)
        invariant charged + Ranges(pendingCalcBlock, es[i..]) == old(charged) + Ranges(old(pendingCalcBlock), es)
      {
        assert es[i..][0] == es[i] && es[i..][1..] == es[i + 1..];
        ghost var p, l, r' := pendingCalcBlock, Books(), rewards;
        Regroup(charged, Charged(p, es[i]), Ranges(PendingAfter(p, es[i]), es[i + 1..]));
        match es[i] {
          case Transfer(_, _, _, _, _) => OnLog(es[i]);
          case Sync(till) => AfterSyncHook(till);
        }
        EventDone(r, r', rewards, schedule, p, l, es[i..], pools, whole);
        assert es[i] in es;
        i := i + 1;
      }
      assert es[i..] == [];
      StreamDone(r, rewards, schedule, pendingCalcBlock, Books(), pools, whole);
      StreamFlows(old(Books()), Books(), es);
    }
  }

  // ---------------------------------------------------------------------------------------------
  // Steps of the loops.

  /** `r'` has been paid all of `whole` except what is left. */
  ghost predicate Owing(r: RewardMap, r': RewardMap, left: Payout, whole: Payout) {
    forall pool: Pool, u: Address {:trigger Due(left, pool, u)} {:trigger Due(whole, pool, u)} ::
      Get(r', (pool, u)) + Due(left, pool, u) == Get(r, (pool, u)) + Due(whole, pool, u)
  }

  lemma Regroup(a: seq<(Block, Block)>, b: seq<(Block, Block)>, c: seq<(Block, Block)>)
    ensures (a + b) + c == a + (b + c)
  {}

  lemma NothingPaid(r: RewardMap, whole: Payout)
    ensures Owing(r, r, whole, whole)
  {}

  lemma NobodyVisited(r: RewardMap, snap: Snapshot, n: int, l: Ledger, pools: map<Symbol, Pool>)
    ensures Paid(r, r, VisitedPayout({}, snap, n, l, pools))
  {
    forall pool: Pool, u: Address ensures Due(VisitedPayout({}, snap, n, l, pools), pool, u) == 0 {
      assert Visited({}, pools, pool, u) == {};
    }
  }

  lemma VisitOne(r: RewardMap, r': RewardMap, done: set<Holding>, k: Holding, reward: int,
                 snap: Snapshot, n: int, l: Ledger, pools: map<Symbol, Pool>)
    requires k !in done && k.0 in pools && reward == SegmentOf(snap, n, l, k.1)(k.0)
    requires Paid(r, r', VisitedPayout(done, snap, n, l, pools))
    ensures Paid(r, r'[(pools[k.0], k.1) := Get(r', (pools[k.0], k.1)) + reward],
            VisitedPayout(done + {k}, snap, n, l, pools))
  {
    var r2 := r'[(pools[k.0], k.1) := Get(r', (pools[k.0], k.1)) + reward];
    forall pool: Pool, u: Address
      ensures Get(r2, (pool, u)) == Get(r, (pool, u)) + Due(VisitedPayout(done + {k}, snap, n, l, pools), pool, u)
    {
      assert Get(r', (pool, u)) == Get(r, (pool, u)) + Due(VisitedPayout(done, snap, n, l, pools), pool, u);
      VisitedGrows(done, k, pools, pool, u, SegmentOf(snap, n, l, u));
    }
  }

  lemma VisitedGrows(done: set<Holding>, k: Holding, pools: map<Symbol, Pool>, pool: Pool, u: Address, f: Symbol -> int)
    requires k !in done && k.0 in pools
    ensures SumOver(Visited(done + {k}, pools, pool, u), f)
            == SumOver(Visited(done, pools, pool, u), f) + (if k.1 == u && pools[k.0] == pool then f(k.0) else 0)
  {
    var v := Visited(done, pools, pool, u);
    if k.1 == u && pools[k.0] == pool {
      assert Visited(done + {k}, pools, pool, u) == v + {k.0};
      assert k.0 !in v;
      SumInsert(v, k.0, f);
    } else {
      assert Visited(done + {k}, pools, pool, u) == v;
    }
  }

  /** Tokens of a pool that the user is not listed for earn nothing. */
  lemma AllVisited(r: RewardMap, r': RewardMap, snap: Snapshot, n: int, l: Ledger, pools: map<Symbol, Pool>)
    requires Paid(r, r', VisitedPayout(l.balances.Keys, snap, n, l, pools))
    ensures Paid(r, r', SegmentPayout(snap, n, l, pools))
  {
    forall pool: Pool, u: Address
      ensures Due(VisitedPayout(l.balances.Keys, snap, n, l, pools), pool, u) ==
              Due(SegmentPayout(snap, n, l, pools), pool, u)
    {
      var f, v, d := SegmentOf(snap, n, l, u), Visited(l.balances.Keys, pools, pool, u), Diesels(pools, pool);
      forall sym | sym in d && sym !in v ensures f(sym) == 0 {
        assert (sym, u) !in l.balances;
      }
      SumSubset(v, d, f);
    }
  }

  lemma SegmentDone(r: RewardMap, r': RewardMap, r2: RewardMap, snaps: seq<Snapshot>, start: Block, to: Block,
                    l: Ledger,
                    pools: map<Symbol, Pool>, whole: Payout)
    requires snaps != []
    requires Owing(r, r', RemainderPayout(snaps, start, to, l, pools), whole)
    requires Paid(r', r2, SegmentPayout(snaps[0], SegmentEnd(snaps, to) - start + 1, l, pools))
    ensures Owing(r, r2, RemainderPayout(snaps[1..], SegmentEnd(snaps, to) + 1, to, l, pools), whole)
  {
    var end := SegmentEnd(snaps, to);
    var now, left := SegmentPayout(snaps[0], end - start + 1, l, pools),
      RemainderPayout(snaps[1..], end + 1, to, l, pools);
    forall pool: Pool, u: Address
      ensures Get(r2, (pool, u)) + Due(left, pool, u) == Get(r, (pool, u)) + Due(whole, pool, u)
    {
      assert Get(r2, (pool, u)) == Get(r', (pool, u)) + Due(now, pool, u);
      assert Get(r', (pool, u)) + Due(RemainderPayout(snaps, start, to, l, pools), pool, u) ==
             Get(r, (pool, u)) + Due(whole, pool, u);
      SumPlus(Diesels(pools, pool), SegmentOf(snaps[0], end - start + 1, l, u),
        RemainderOf(snaps[1..], end + 1, to, l, u),
              RemainderOf(snaps, start, to, l, u));
    }
  }

  lemma OneSync(s: seq<Snapshot>, p: Block, to: Block, l: Ledger, k: Holding)
    ensures Earned(s, p, l, [Sync(to)], k) == AccruedOn(s, p, to, l, k)
  {
    assert [Sync(to)][1..] == [];
  }

  lemma RangeDone(r: RewardMap, r': RewardMap, s: seq<Snapshot>, from: Block, to: Block, last: Block, l: Ledger,
                  pools: map<Symbol, Pool>)
    requires var snaps := Query(s, from, to);
             Owing(r, r', RemainderPayout([], last, to, l, pools),
               RemainderPayout(snaps, FirstCharged(snaps, from), to, l, pools))
    ensures Paid(r, r', StreamPayout(s, from, l, [Sync(to)], pools))
  {
    var snaps := Query(s, from, to);
    var none, whole := RemainderPayout([], last, to, l, pools),
      RemainderPayout(snaps, FirstCharged(snaps, from), to, l, pools);
    forall pool: Pool, u: Address
      ensures Get(r', (pool, u)) == Get(r, (pool, u)) + Due(StreamPayout(s, from, l, [Sync(to)], pools), pool, u)
    {
      assert Get(r', (pool, u)) + Due(none, pool, u) == Get(r, (pool, u)) + Due(whole, pool, u);
      SumSubset({}, Diesels(pools, pool), RemainderOf([], last, to, l, u));
      forall sym | sym in Diesels(pools, pool)
        ensures RemainderOf(snaps, FirstCharged(snaps, from), to, l, u)(sym) == StreamOf(s, from, l, [Sync(to)], u)(sym)
      {
        OneSync(s, from, to, l, (sym, u));
      }
      SumSame(Diesels(pools, pool), RemainderOf(snaps, FirstCharged(snaps, from), to, l, u),
        StreamOf(s, from, l, [Sync(to)], u));
    }
  }

  lemma OneTransfer(s: seq<Snapshot>, p: Block, l: Ledger, t: Event, k: Holding)
    requires t.Transfer?
    ensures Earned(s, p, l, [t], k) == if Effective(t) then AccruedOn(s, p, t.block - 1, l, k) else 0
  {
    assert [t][1..] == [];
  }

  /** A transfer that moves nothing, or that falls on the block still open, pays nobody. */
  lemma TransferAsSync(s: seq<Snapshot>, p: Block, l: Ledger, t: Event, pools: map<Symbol, Pool>, r: RewardMap)
    requires t.Transfer? && Ascending(s)
    ensures t.amount == 0 || t.block == p ==> Paid(r, r, StreamPayout(s, p, l, [t], pools))
  {
    if t.amount == 0 || t.block == p {
      forall pool: Pool, u: Address ensures Due(StreamPayout(s, p, l, [t], pools), pool, u) == 0 {
        forall sym | sym in Diesels(pools, pool) ensures StreamOf(s, p, l, [t], u)(sym) == 0 {
          OneTransfer(s, p, l, t, (sym, u));
          if sym in l.supplies && t.amount != 0 {
            AccruedIsClip(s, p, p - 1, sym, Get(l.balances, (sym, u)), l.supplies[sym]);
            EmptyRange(s, p, p - 1, sym, Get(l.balances, (sym, u)), l.supplies[sym]);
          }
        }
        SumSubset({}, Diesels(pools, pool), StreamOf(s, p, l, [t], u));
      }
    }
  }

  lemma SameEarnings(s: seq<Snapshot>, p: Block, l: Ledger, t: Event, pools: map<Symbol, Pool>, r: RewardMap,
                     r': RewardMap)
    requires t.Transfer? && Effective(t) && Paid(r, r', StreamPayout(s, p, l, [Sync(t.block - 1)], pools))
    ensures Paid(r, r', StreamPayout(s, p, l, [t], pools))
  {
    var sync := Sync(t.block - 1);
    forall pool: Pool, u: Address
      ensures Due(StreamPayout(s, p, l, [sync], pools), pool, u) == Due(StreamPayout(s, p, l, [t], pools), pool, u)
    {
      forall sym | sym in Diesels(pools, pool)
        ensures StreamOf(s, p, l, [sync], u)(sym) == StreamOf(s, p, l, [t], u)(sym) {
        OneSync(s, p, t.block - 1, l, (sym, u));
        OneTransfer(s, p, l, t, (sym, u));
      }
      SumSame(Diesels(pools, pool), StreamOf(s, p, l, [sync], u), StreamOf(s, p, l, [t], u));
    }
  }

  lemma OneEvent(s: seq<Snapshot>, p: Block, l: Ledger, es: seq<Event>, k: Holding)
    requires es != []
    ensures Earned(s, p, l, es, k)
            == Earned(s, p, l, [es[0]], k) + Earned(s, PendingAfter(p, es[0]), BooksAfter(l, es[0]), es[1..], k)
  {
    assert [es[0]][1..] == [];
  }

  lemma EventDone(r: RewardMap, r': RewardMap, r2: RewardMap, s: seq<Snapshot>, p: Block, l: Ledger, es: seq<Event>,
                  pools: map<Symbol, Pool>, whole: Payout)
    requires es != []
    requires Owing(r, r', StreamPayout(s, p, l, es, pools), whole)
    requires Paid(r', r2, StreamPayout(s, p, l, [es[0]], pools))
    ensures Owing(r, r2, StreamPayout(s, PendingAfter(p, es[0]), BooksAfter(l, es[0]), es[1..], pools), whole)
  {
    var p', l' := PendingAfter(p, es[0]), BooksAfter(l, es[0]);
    forall pool: Pool, u: Address
      ensures Get(r2, (pool, u)) + Due(StreamPayout(s, p', l', es[1..], pools), pool, u) ==
              Get(r, (pool, u)) + Due(whole, pool, u)
    {
      assert Get(r2, (pool, u)) == Get(r', (pool, u)) + Due(StreamPayout(s, p, l, [es[0]], pools), pool, u);
      assert Get(r', (pool, u)) + Due(StreamPayout(s, p, l, es, pools), pool, u) ==
             Get(r, (pool, u)) + Due(whole, pool, u);
      forall sym | sym in Diesels(pools, pool)
        ensures StreamOf(s, p, l, es, u)(sym) ==
                StreamOf(s, p, l, [es[0]], u)(sym) + StreamOf(s, p', l', es[1..], u)(sym)
      {
        OneEvent(s, p, l, es, (sym, u));
      }
      SumPlus(Diesels(pools, pool), StreamOf(s, p, l, [es[0]], u), StreamOf(s, p', l', es[1..], u),
        StreamOf(s, p, l, es, u));
    }
  }

  lemma StreamDone(r: RewardMap, r': RewardMap, s: seq<Snapshot>, p: Block, l: Ledger, pools: map<Symbol, Pool>,
                   whole: Payout)
    requires Owing(r, r', StreamPayout(s, p, l, [], pools), whole)
    ensures Paid(r, r', whole)
  {
    forall pool: Pool, u: Address ensures Get(r', (pool, u)) == Get(r, (pool, u)) + Due(whole, pool, u) {
      assert Get(r', (pool, u)) + Due(StreamPayout(s, p, l, [], pools), pool, u) ==
             Get(r, (pool, u)) + Due(whole, pool, u);
      SumSubset({}, Diesels(pools, pool), StreamOf(s, p, l, [], u));
    }
  }

  /** The exact block-by-block reward of a user as a function of the diesel token. */
  ghost function SharesOf(s: seq<Snapshot>, p: Block, l: Ledger, es: seq<Event>, u: Address): Symbol -> real
    requires EndsInSync(es)
  {
    (sym: Symbol) => Shares(s, l, es, sym, u, p, es[|es| - 1].till)
  }

  /** Roundings add up. */
  lemma {:induction false} SumRounded(syms: set<Symbol>, f: Symbol -> int, g: Symbol -> real, n: nat)
    requires forall sym :: sym in syms ==> Rounded(f(sym), n, g(sym))
    ensures Rounded(SumOver(syms, f), |syms| * n, RealSumOver(syms, g))
    decreases syms
  {
    if syms != {} {
      var sym :| sym in syms;
      var rest := syms - {sym};
      SumRemove(syms, sym, f);
      RealSumRemove(syms, sym, g);
      SumRounded(rest, f, g, n);
      RoundedPlus(f(sym), n, g(sym), SumOver(rest, f), |rest| * n, RealSumOver(rest, g));
      OneMoreTime(|rest|, |syms|, n);
    }
  }

  lemma OneMoreTime(m: nat, m': nat, n: nat)
    requires m' == m + 1
    ensures n + m * n == m' * n
  {
    DistributeRight(m, 1, n);
  }

  /** What a stream adds to the stored reward of a pool is the sum, over the pool's diesel tokens, of the
      block-by-block shares of the transfers' own balances and supplies, rounded down once per token and segment. */
  lemma StoredRewardRefinesNaive(r: RewardMap, r': RewardMap, s: seq<Snapshot>, p: Block, l: Ledger, es: seq<Event>,
                                 pools: map<Symbol, Pool>, pool: Pool, u: Address)
    requires Paid(r, r', StreamPayout(s, p, l, es, pools))
    requires Ascending(s) && NonNegativeRates(s) && Sound(l)
    requires InOrder(p, es) && AllFunded(l, es) && AllDivisible(s, p, l, es) && EndsInSync(es)
    ensures Rounded(Get(r', (pool, u)) - Get(r, (pool, u)), |Diesels(pools, pool)| * Roundings(s, p, es),
                    RealSumOver(Diesels(pools, pool), SharesOf(s, p, l, es, u)))
  {
    forall sym | sym in Diesels(pools, pool)
      ensures Rounded(StreamOf(s, p, l, es, u)(sym), Roundings(s, p, es), SharesOf(s, p, l, es, u)(sym))
    {
      RewardIsShares(s, p, l, es, sym, u);
    }
    SumRounded(Diesels(pools, pool), StreamOf(s, p, l, es, u), SharesOf(s, p, l, es, u), Roundings(s, p, es));
    assert Due(StreamPayout(s, p, l, es, pools), pool, u) == SumOver(Diesels(pools, pool), StreamOf(s, p, l, es, u));
  }
}
