/** What balances, supplies and rates are, read off the transfers and the schedule directly. */
module RewardFlows {
  import opened RewardSchedule
  import opened Rewards

  /** A transfer takes its amount from the sender and gives it to the receiver, users other than the zero
      address; minting raises the supply, burning lowers it; nothing else moves. */
  ghost predicate Moved(l: Ledger, l': Ledger, t: Event)
    requires t.Transfer?
  {
    && (forall sym: Symbol, u: Address ::
          Get(l'.balances, (sym, u)) == Get(l.balances, (sym, u))
            + (if sym == t.sym && u == t.to && u != 0 then t.amount else 0)
            - (if sym == t.sym && u == t.from && u != 0 then t.amount else 0))
    && (forall sym: Symbol ::
          Get(l'.supplies, sym) == Get(l.supplies, sym)
            + (if sym == t.sym && t.from == 0 then t.amount else 0)
            - (if sym == t.sym && t.to == 0 then t.amount else 0))
  }

  /** What an address is sent in one token up to block `b`. */
  function Received(es: seq<Event>, sym: Symbol, u: Address, b: Block): int {
    if es == [] then 0
    else (match es[0]
          case Transfer(block, s, _, to, amount) => if block <= b && s == sym && to == u then amount else 0
          case Sync(_) => 0)
         + Received(es[1..], sym, u, b)
  }

  /** What it sends. */
  function Sent(es: seq<Event>, sym: Symbol, u: Address, b: Block): int {
    if es == [] then 0
    else (match es[0]
          case Transfer(block, s, from, _, amount) => if block <= b && s == sym && from == u then amount else 0
          case Sync(_) => 0)
         + Sent(es[1..], sym, u, b)
  }

  /** A user's balance after block `b`: opening balance, plus received, minus sent. */
  function Balance(l: Ledger, es: seq<Event>, sym: Symbol, u: Address, b: Block): int {
    Get(l.balances, (sym, u)) + if u == 0 then 0 else Received(es, sym, u, b) - Sent(es, sym, u, b)
  }

  /** The supply after block `b`: opening supply, plus minted, minus burnt. */
  function Supply(l: Ledger, es: seq<Event>, sym: Symbol, b: Block): int {
    Get(l.supplies, sym) + Sent(es, sym, 0, b) - Received(es, sym, 0, b)
  }

  lemma TransferMoves(l: Ledger, t: Event)
    requires t.Transfer?
    ensures Moved(l, BooksAfter(l, t), t)
  {}

  /** The books at a block are opening balances and supplies, plus and minus the transfers up to it. */
  lemma {:induction false} BooksAreFlows(l: Ledger, es: seq<Event>, b: Block, sym: Symbol, u: Address)
    ensures Get(BooksAt(l, es, b).balances, (sym, u)) == Balance(l, es, sym, u, b)
    ensures Get(BooksAt(l, es, b).supplies, sym) == Supply(l, es, sym, b)
    decreases |es|
  {
    if es != [] {
      var e := es[0];
      if e.Transfer? && e.block <= b {
        TransferMoves(l, e);
        BooksAreFlows(BooksAfter(l, e), es[1..], b, sym, u);
      } else {
        BooksAreFlows(l, es[1..], b, sym, u);
      }
    }
  }

  /** The last block with a transfer. */
  function Highest(es: seq<Event>): (b: Block)
    ensures forall e :: e in es && e.Transfer? ==> e.block <= b
  {
    if es == [] then 0
    else if es[0].Transfer? && es[0].block > Highest(es[1..]) then es[0].block else Highest(es[1..])
  }

  /** All transfers of a stream have been entered. */
  ghost predicate Flowed(l: Ledger, l': Ledger, es: seq<Event>) {
    && (forall sym: Symbol, u: Address :: Get(l'.balances, (sym, u)) == Balance(l, es, sym, u, Highest(es)))
    && (forall sym: Symbol :: Get(l'.supplies, sym) == Supply(l, es, sym, Highest(es)))
  }

  lemma StreamFlows(l: Ledger, l': Ledger, es: seq<Event>)
    requires l' == BooksAt(l, es, Highest(es))
    ensures Flowed(l, l', es)
  {
    forall sym: Symbol, u: Address ensures Get(l'.balances, (sym, u)) == Balance(l, es, sym, u, Highest(es)) {
      BooksAreFlows(l, es, Highest(es), sym, u);
    }
    forall sym: Symbol ensures Get(l'.supplies, sym) == Supply(l, es, sym, Highest(es)) {
      BooksAreFlows(l, es, Highest(es), sym, 0);
    }
  }

  /** The rate in force at a block is that of the last schedule entry at or before it, zero before the
      first entry and for tokens the entry does not list. */
  ghost predicate InForce(s: seq<Snapshot>, sym: Symbol, b: Block, rate: int) {
    && ((forall i :: 0 <= i < |s| ==> b < s[i].block) ==> rate == 0)
    && (forall i :: 0 <= i < |s| && s[i].block <= b && (forall j :: i < j < |s| ==> b < s[j].block) ==>
          rate == if sym in s[i].rates then s[i].rates[sym] else 0)
  }

  lemma {:induction false} RateInForce(s: seq<Snapshot>, sym: Symbol, b: Block)
    requires Ascending(s)
    ensures InForce(s, sym, b, RateAt(s, sym, b))
  {
    if |s| > 1 && s[1].block <= b {
      RateInForce(s[1..], sym, b);
      forall i | 0 <= i < |s| && s[i].block <= b && (forall j :: i < j < |s| ==> b < s[j].block)
        ensures RateAt(s, sym, b) == if sym in s[i].rates then s[i].rates[sym] else 0
      {
        assert i > 0 && s[i] == s[1..][i - 1];
        forall j | i - 1 < j < |s[1..]| ensures b < s[1..][j].block { assert s[1..][j] == s[j + 1]; }
      }
    }
  }

  /** A user's exact reward for one block: rate times balance over supply, as the transfers give them. */
  function BlockShare(s: seq<Snapshot>, l: Ledger, es: seq<Event>, sym: Symbol, u: Address, b: Block): real {
    if Supply(l, es, sym, b) == 0 then 0.0
    else (Balance(l, es, sym, u, b) * RateAt(s, sym, b)) as real / Supply(l, es, sym, b) as real
  }

  /** The exact reward for [from, to], block by block. */
  function Shares(s: seq<Snapshot>, l: Ledger, es: seq<Event>, sym: Symbol, u: Address, from: Block, to: Block): real
    decreases to - from
  {
    if to < from then 0.0 else Shares(s, l, es, sym, u, from, to - 1) + BlockShare(s, l, es, sym, u, to)
  }

  /** The naive accrual is that reward. */
  lemma {:induction false} NaiveIsShares(s: seq<Snapshot>, l: Ledger, es: seq<Event>, sym: Symbol, u: Address,
                                         from: Block, to: Block)
    ensures Naive(s, l, es, (sym, u), from, to) == Shares(s, l, es, sym, u, from, to)
    decreases (to - from)
  {
    if from <= to {
      NaiveIsShares(s, l, es, sym, u, from, to - 1);
      BooksAreFlows(l, es, to, sym, u);
    }
  }

  /** Main result. The stored integer reward of a holding, however a stream is cut into batches, is the
      block-by-block share of the transfers' own balances and supplies, rounded down once per segment. */
  lemma RewardIsShares(s: seq<Snapshot>, p: Block, l: Ledger, es: seq<Event>, sym: Symbol, u: Address)
    requires Ascending(s) && NonNegativeRates(s) && Sound(l)
    requires InOrder(p, es) && AllFunded(l, es) && AllDivisible(s, p, l, es) && EndsInSync(es)
    ensures Rounded(Earned(s, p, l, es, (sym, u)), Roundings(s, p, es), Shares(s, l, es, sym, u, p, es[|es| - 1].till))
  {
    RefinesNaive(s, p, l, es, (sym, u));
    NaiveIsShares(s, l, es, sym, u, p, es[|es| - 1].till);
  }
}
