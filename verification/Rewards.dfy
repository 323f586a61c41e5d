/** Liquidity-mining rewards as a function of a transfer stream: the lazily computed integer reward
    of every holder, set against a naive block-by-block accrual. */
module Rewards {
  import opened Sums
  import opened RewardSchedule

  type Address = nat
  type Holding = (Symbol, Address)

  /** The zero address of EIP-20, section "Events": minting moves from it, burning moves to it. */
  const NULL_ADDR: Address := 0

  /** Diesel balances by token and user, and the tracked total supplies. */
  datatype Ledger = Ledger(balances: map<Holding, int>, supplies: map<Symbol, int>)

  /** A log of the stream, or the end of a sync batch. */
  datatype Event =
    | Transfer(block: Block, sym: Symbol, from: Address, to: Address, amount: nat)
    | Sync(till: Block)

  function Get<K>(m: map<K, int>, k: K): int { if k in m then m[k] else 0 }

  function Credit(l: Ledger, k: Holding, amount: int): Ledger {
    l.(balances := l.balances[k := Get(l.balances, k) + amount])
  }

  function Issue(l: Ledger, sym: Symbol, amount: int): Ledger {
    l.(supplies := l.supplies[sym := Get(l.supplies, sym) + amount])
  }

  function Receive(l: Ledger, e: Event): Ledger
    requires e.Transfer?
  {
    if e.to == NULL_ADDR then Issue(l, e.sym, 0 - e.amount) else Credit(l, (e.sym, e.to), e.amount)
  }

  /** Receiving side first, as the log handler does it. */
  function Apply(l: Ledger, t: Event): Ledger
    requires t.Transfer?
  {
    Send(Receive(l, t), t)
  }

  function Send(l: Ledger, e: Event): Ledger
    requires e.Transfer?
  {
    if e.from == NULL_ADDR then Issue(l, e.sym, e.amount) else Credit(l, (e.sym, e.from), 0 - e.amount)
  }

  /** Transfers of nothing leave no trace. */
  predicate Effective(e: Event) { e.Transfer? ==> e.amount != 0 }

  // ---------------------------------------------------------------------------------------------
  // The computation.

  /** Reward of holding `k` for [from, to] under the books `l`. */
  function AccruedOn(s: seq<Snapshot>, from: Block, to: Block, l: Ledger, k: Holding): int {
    if k.0 in l.supplies then Accrued(s, from, to, k.0, Get(l.balances, k), l.supplies[k.0]) else 0
  }

  /** Last block charged when `e` arrives. */
  function ChargedTill(e: Event): Block {
    match e case Transfer(c, _, _, _, _) => c - 1 case Sync(t) => t
  }

  function BooksAfter(l: Ledger, e: Event): Ledger {
    if e.Transfer? && e.amount != 0 then Apply(l, e) else l
  }

  function PendingAfter(p: Block, e: Event): Block {
    if Effective(e) then ChargedTill(e) + 1 else p
  }

  /** Reward that processing `es` adds to holding `k`, blocks from `p` on being still uncharged. */
  function Earned(s: seq<Snapshot>, p: Block, l: Ledger, es: seq<Event>, k: Holding): int
    decreases |es|
  {
    if es == [] then 0 else
      (if Effective(es[0]) then AccruedOn(s, p, ChargedTill(es[0]), l, k) else 0)
      + Earned(s, PendingAfter(p, es[0]), BooksAfter(l, es[0]), es[1..], k)
  }

  /** Number of integer divisions performed for one holding. */
  function Roundings(s: seq<Snapshot>, p: Block, es: seq<Event>): nat
    decreases |es|
  {
    if es == [] then 0 else
      (if Effective(es[0]) then Pieces(s, p, ChargedTill(es[0])) else 0)
      + Roundings(s, PendingAfter(p, es[0]), es[1..])
  }

  // ---------------------------------------------------------------------------------------------
  // The reference: every block on its own.

  /** The books once every transfer up to and including block `b` has been entered. */
  function BooksAt(l: Ledger, es: seq<Event>, b: Block): Ledger
    decreases |es|
  {
    if es == [] then l
    else if es[0].Transfer? && es[0].block <= b then BooksAt(BooksAfter(l, es[0]), es[1..], b)
    else BooksAt(l, es[1..], b)
  }

  /** Exact reward of `k` for block `b` alone. */
  function BlockReward(s: seq<Snapshot>, l: Ledger, k: Holding, b: Block): real {
    if k.0 in l.supplies && l.supplies[k.0] != 0
    then (Get(l.balances, k) * RateAt(s, k.0, b)) as real / l.supplies[k.0] as real
    else 0.0
  }

  function Naive(s: seq<Snapshot>, l: Ledger, es: seq<Event>, k: Holding, from: Block, to: Block): real
    decreases to - from
  {
    if to < from then 0.0
    else Naive(s, l, es, k, from, to - 1) + BlockReward(s, BooksAt(l, es, to), k, to)
  }

  // ---------------------------------------------------------------------------------------------
  // Which streams the program can be given.

  /** Blocks never go back. A batch may even end just before the block of its last log, which the program
      never asks for. */
  predicate InOrder(p: Block, es: seq<Event>)
    decreases |es|
  {
    es == [] || (p <= ChargedTill(es[0]) + 1 && InOrder(PendingAfter(p, es[0]), es[1..]))
  }

  /** A token transfer moves no more than the sender has. */
  predicate Funded(l: Ledger, e: Event) {
    e.Transfer? ==> e.from == NULL_ADDR || e.amount <= Get(l.balances, (e.sym, e.from))
  }

  predicate AllFunded(l: Ledger, es: seq<Event>)
    decreases |es|
  {
    es == [] || (Funded(l, es[0]) && AllFunded(BooksAfter(l, es[0]), es[1..]))
  }

  /** No supply the code would divide by is zero. */
  predicate Divisible(s: seq<Snapshot>, from: Block, to: Block, l: Ledger) {
    Query(s, from, to) != [] ==> forall k :: k in l.balances && k.0 in l.supplies ==> l.supplies[k.0] != 0
  }

  /** A log on the block still open charges nothing; a batch end always does. */
  predicate Charges(p: Block, e: Event) { Effective(e) && (e.Transfer? ==> e.block != p) }

  predicate AllDivisible(s: seq<Snapshot>, p: Block, l: Ledger, es: seq<Event>)
    decreases |es|
  {
    es == [] ||
    ((Charges(p, es[0]) ==> Divisible(s, p, ChargedTill(es[0]), l))
     && AllDivisible(s, PendingAfter(p, es[0]), BooksAfter(l, es[0]), es[1..]))
  }

  // ---------------------------------------------------------------------------------------------
  // Conservation of supply.

  ghost function Holders(l: Ledger, sym: Symbol): set<Address> {
    set k | k in l.balances && k.0 == sym :: k.1
  }

  ghost function BalanceOf(l: Ledger, sym: Symbol): Address -> int {
    (u: Address) => Get(l.balances, (sym, u))
  }

  ghost function Held(l: Ledger, sym: Symbol): int {
    SumOver(Holders(l, sym), BalanceOf(l, sym))
  }

  /** The users' balances of each token add up to its tracked supply. */
  ghost predicate Conserved(l: Ledger) {
    forall sym: Symbol :: Held(l, sym) == Get(l.supplies, sym)
  }

  predicate Solvent(l: Ledger) {
    forall k :: k in l.balances ==> 0 <= l.balances[k]
  }

  lemma CreditHeld(l: Ledger, k: Holding, amount: int, sym: Symbol)
    ensures Held(Credit(l, k, amount), sym) == Held(l, sym) + (if k.0 == sym then amount else 0)
  {
    var l' := Credit(l, k, amount);
    var f, f' := BalanceOf(l, sym), BalanceOf(l', sym);
    if k.0 != sym {
      assert Holders(l', sym) == Holders(l, sym);
      SumSame(Holders(l, sym), f, f');
    } else {
      var rest := Holders(l, sym) - {k.1};
      assert Holders(l', sym) == rest + {k.1} by {
        assert k in l'.balances;
        forall u | u in rest ensures u in Holders(l', sym) {
          assert (sym, u) in l'.balances;
        }
      }
      SumSame(rest, f, f');
      SumInsert(rest, k.1, f');
      if k.1 in Holders(l, sym) {
        SumRemove(Holders(l, sym), k.1, f);
      } else {
        assert rest == Holders(l, sym);
        assert k !in l.balances;
      }
    }
  }

  lemma IssueHeld(l: Ledger, sym: Symbol, amount: int, other: Symbol)
    ensures Held(Issue(l, sym, amount), other) == Held(l, other)
  {
    var l' := Issue(l, sym, amount);
    assert Holders(l', other) == Holders(l, other);
    SumSame(Holders(l, other), BalanceOf(l, other), BalanceOf(l', other));
  }

  /** Amount by which a step moves a token's balances ahead of its supply. */
  ghost function Drift(l: Ledger, sym: Symbol): int { Held(l, sym) - Get(l.supplies, sym) }

  lemma CreditDrift(l: Ledger, k: Holding, amount: int, sym: Symbol)
    ensures Drift(Credit(l, k, amount), sym) == Drift(l, sym) + (if k.0 == sym then amount else 0)
  {
    CreditHeld(l, k, amount, sym);
  }

  lemma IssueDrift(l: Ledger, s: Symbol, amount: int, sym: Symbol)
    ensures Drift(Issue(l, s, amount), sym) == Drift(l, sym) - (if s == sym then amount else 0)
  {
    IssueHeld(l, s, amount, sym);
  }

  lemma ReceiveDrift(l: Ledger, e: Event, sym: Symbol)
    requires e.Transfer?
    ensures Drift(Receive(l, e), sym) == Drift(l, sym) + (if e.sym == sym then e.amount else 0)
  {
    if e.to == NULL_ADDR { IssueDrift(l, e.sym, 0 - e.amount, sym); } else {
      CreditDrift(l, (e.sym, e.to), e.amount, sym);
    }
  }

  lemma SendDrift(l: Ledger, e: Event, sym: Symbol)
    requires e.Transfer?
    ensures Drift(Send(l, e), sym) == Drift(l, sym) - (if e.sym == sym then e.amount else 0)
  {
    if e.from == NULL_ADDR { IssueDrift(l, e.sym, e.amount, sym); } else {
      CreditDrift(l, (e.sym, e.from), 0 - e.amount, sym);
    }
  }

  lemma ApplyDrift(l: Ledger, e: Event, sym: Symbol)
    requires e.Transfer?
    ensures Drift(Apply(l, e), sym) == Drift(l, sym)
  {
    ReceiveDrift(l, e, sym);
    SendDrift(Receive(l, e), e, sym);
  }

  /** Every log keeps balances and supply in step: mints, burns, and transfers to oneself included. */
  lemma TransferConserves(l: Ledger, e: Event)
    requires Conserved(l)
    ensures Conserved(BooksAfter(l, e))
  {
    if e.Transfer? && e.amount != 0 {
      forall sym: Symbol ensures Held(Apply(l, e), sym) == Get(Apply(l, e).supplies, sym) {
        ApplyDrift(l, e, sym);
      }
    }
  }

  lemma TransferKeepsSolvent(l: Ledger, e: Event)
    requires Solvent(l) && Funded(l, e)
    ensures Solvent(BooksAfter(l, e))
  {}

  /** After any stream the sums still agree. */
  lemma {:induction false} StreamConserves(l: Ledger, es: seq<Event>, b: Block)
    requires Conserved(l)
    ensures Conserved(BooksAt(l, es, b))
    decreases |es|
  {
    if es != [] {
      TransferConserves(l, es[0]);
      StreamConserves(l, es[1..], b);
      StreamConserves(BooksAfter(l, es[0]), es[1..], b);
    }
  }

  // ---------------------------------------------------------------------------------------------
  // Refinement of the naive accrual.

  /** Facts about the books that make every accrual meaningful. */
  ghost predicate Sound(l: Ledger) { Conserved(l) && Solvent(l) }

  lemma PositiveSupply(s: seq<Snapshot>, from: Block, to: Block, l: Ledger, k: Holding)
    requires Sound(l) && Divisible(s, from, to, l) && Query(s, from, to) != []
    requires k in l.balances && k.0 in l.supplies
    ensures 0 < l.supplies[k.0] && 0 <= Get(l.balances, k)
  {
    assert Held(l, k.0) == Get(l.supplies, k.0);
    forall u | u in Holders(l, k.0) ensures 0 <= BalanceOf(l, k.0)(u) {
      assert (k.0, u) in l.balances;
    }
    SumMonotone({}, Holders(l, k.0), BalanceOf(l, k.0));
  }

  /** Exact accrual of `k` over [from, to] under fixed books. */
  function ExactOn(s: seq<Snapshot>, from: Block, to: Block, l: Ledger, k: Holding): real {
    if k.0 in l.supplies && l.supplies[k.0] != 0
    then (Get(l.balances, k) * RateSum(s, k.0, from, to)) as real / l.supplies[k.0] as real
    else 0.0
  }

  /** `c` is `exact` rounded down, short by less than one for each of `p` roundings. */
  ghost predicate Rounded(c: int, p: nat, exact: real) {
    c as real <= exact && (if p == 0 then c as real == exact else exact < (c + p) as real)
  }

  lemma RoundedPlus(c: int, p: nat, exact: real, c': int, p': nat, exact': real)
    requires Rounded(c, p, exact) && Rounded(c', p', exact')
    ensures Rounded(c + c', p + p', exact + exact')
  {}

  lemma RoundedFromWithin(c: int, p: nat, exact: int, supply: int)
    requires 0 < supply && Within(c, p, exact, supply)
    ensures Rounded(c, p, exact as real / supply as real)
  {
    CompareQuotient(c, exact, supply);
    CompareQuotient(c + p, exact, supply);
  }

  lemma CompareQuotient(c: int, exact: int, supply: int)
    requires 0 < supply
    ensures c * supply <= exact ==> c as real <= exact as real / supply as real
    ensures exact <= c * supply ==> exact as real / supply as real <= c as real
    ensures exact < c * supply ==> exact as real / supply as real < c as real
  {
    var d, x := supply as real, exact as real / supply as real;
    CastMul(c, supply);
    assert x * d == exact as real;
    RealOrder(c as real, x, d);
    RealOrder(x, c as real, d);
  }

  lemma CastMul(a: int, b: int)
    ensures (a * b) as real == a as real * b as real
  {}

  lemma RealOrder(a: real, b: real, d: real)
    requires 0.0 < d
    ensures a * d <= b * d <==> a <= b
  {
    if a <= b { assert (b - a) * d >= 0.0; } else { assert (a - b) * d > 0.0; }
  }

  lemma {:induction false} NoSnapshotNoAccrual(s: seq<Snapshot>, from: Block, to: Block, sym: Symbol, balance: int,
                                               supply: int)
    requires Ascending(s) && from <= to + 1 && Query(s, from, to) == []
    ensures Accrued(s, from, to, sym, balance, supply) == 0
    ensures Pieces(s, from, to) == 0 && Weighted(s, sym, from, to) == 0
  {
    if |s| >= 2 && s[1].block <= from {
      NoSnapshotNoAccrual(s[1..], from, to, sym, balance, supply);
    } else {
      BeyondRange(s, from, to, sym, balance, supply);
    }
  }

  lemma AccrualRounds(s: seq<Snapshot>, from: Block, to: Block, l: Ledger, k: Holding)
    requires Ascending(s) && NonNegativeRates(s) && from <= to + 1 && Sound(l) &&
             (from <= to ==> Divisible(s, from, to, l))
    ensures AccruedOn(s, from, to, l, k) >= 0
    ensures Rounded(AccruedOn(s, from, to, l, k), Pieces(s, from, to), ExactOn(s, from, to, l, k))
  {
    var sym := k.0;
    WeightedIsRateSum(s, sym, from, to);
    if sym !in l.supplies {
    } else if to < from {
      AccruedIsClip(s, from, to, sym, Get(l.balances, k), l.supplies[sym]);
      EmptyRange(s, from, to, sym, Get(l.balances, k), l.supplies[sym]);
    } else if Query(s, from, to) == [] {
      NoSnapshotNoAccrual(s, from, to, sym, Get(l.balances, k), l.supplies[sym]);
    } else if k in l.balances {
      PositiveSupply(s, from, to, l, k);
      AccruedIsClip(s, from, to, sym, l.balances[k], l.supplies[sym]);
      ClipBounds(s, from, to, sym, l.balances[k], l.supplies[sym]);
      RoundedFromWithin(AccruedOn(s, from, to, l, k), Pieces(s, from, to), l.balances[k] * RateSum(s, sym, from, to),
        l.supplies[sym]);
    } else {
      AccruedIsClip(s, from, to, sym, 0, l.supplies[sym]);
      NothingHeld(s, from, to, sym, l.supplies[sym]);
    }
  }

  lemma {:induction false} NothingHeld(s: seq<Snapshot>, from: Block, to: Block, sym: Symbol, supply: int)
    ensures Clip(s, from, to, sym, 0, supply) == 0
  {
    if s != [] {
      NothingHeld(s[1..], from, to, sym, supply);
    }
  }

  lemma {:induction false} BooksBefore(p: Block, l: Ledger, es: seq<Event>, b: Block)
    requires InOrder(p, es) && b < p
    ensures BooksAt(l, es, b) == l
    decreases |es|
  {
    if es != [] {
      BooksBefore(PendingAfter(p, es[0]), l, es[1..], b);
    }
  }

  /** While no event falls into [from, to], the naive accrual is the exact one under fixed books. */
  lemma {:induction false} NaiveUnderFixedBooks(s: seq<Snapshot>, l: Ledger, es: seq<Event>, k: Holding, from: Block,
                                                to: Block)
    requires InOrder(to + 1, es)
    ensures Naive(s, l, es, k, from, to) == NaiveFixed(s, l, k, from, to) == ExactOn(s, from, to, l, k)
  {
    NaiveFixedIsExact(s, l, k, from, to);
    NaiveIsFixed(s, l, es, k, from, to, to + 1);
  }

  function NaiveFixed(s: seq<Snapshot>, l: Ledger, k: Holding, from: Block, to: Block): real
    decreases (to - from)
  {
    if to < from then 0.0 else NaiveFixed(s, l, k, from, to - 1) + BlockReward(s, l, k, to)
  }

  lemma {:induction false} NaiveIsFixed(s: seq<Snapshot>, l: Ledger, es: seq<Event>, k: Holding, from: Block,
                                        to: Block, p: Block)
    requires InOrder(p, es) && to < p
    ensures Naive(s, l, es, k, from, to) == NaiveFixed(s, l, k, from, to)
    decreases (to - from)
  {
    if from <= to {
      BooksBefore(p, l, es, to);
      NaiveIsFixed(s, l, es, k, from, to - 1, p);
    }
  }

  lemma {:induction false} NaiveFixedIsExact(s: seq<Snapshot>, l: Ledger, k: Holding, from: Block, to: Block)
    ensures NaiveFixed(s, l, k, from, to) == ExactOn(s, from, to, l, k)
    decreases (to - from)
  {
    if from <= to && k.0 in l.supplies && l.supplies[k.0] != 0 {
      NaiveFixedIsExact(s, l, k, from, to - 1);
      var b, r, r', d := Get(l.balances, k), RateSum(s, k.0, from, to - 1), RateAt(s, k.0, to), l.supplies[k.0] as real;
      Distribute(b, r, r');
      AddOver((b * r) as real, (b * r') as real, d);
    } else if from <= to {
      NaiveFixedIsExact(s, l, k, from, to - 1);
    }
  }

  lemma AddOver(a: real, b: real, d: real)
    requires d != 0.0
    ensures a / d + b / d == (a + b) / d
  {
    var x, y := a / d, b / d;
    assert x * d == a && y * d == b;
    assert (x + y) * d == a + b;
  }

  lemma {:induction false} NaiveSplit(s: seq<Snapshot>, l: Ledger, es: seq<Event>, k: Holding, from: Block, mid: Block,
                                      to: Block)
    requires from <= mid + 1 <= to + 1
    ensures Naive(s, l, es, k, from, to) == Naive(s, l, es, k, from, mid) + Naive(s, l, es, k, mid + 1, to)
    decreases (to - mid)
  {
    if mid < to {
      NaiveSplit(s, l, es, k, from, mid, to - 1);
    }
  }

  /** From its block on, an event has been entered into the books. */
  lemma {:induction false} NaiveEntered(s: seq<Snapshot>, l: Ledger, es: seq<Event>, k: Holding, from: Block, to: Block)
    requires es != [] && (!Effective(es[0]) || ChargedTill(es[0]) < from)
    ensures Naive(s, l, es, k, from, to) == Naive(s, BooksAfter(l, es[0]), es[1..], k, from, to)
    decreases (to - from)
  {
    if from <= to {
      NaiveEntered(s, l, es, k, from, to - 1);
    }
  }

  predicate EndsInSync(es: seq<Event>) { es != [] && es[|es| - 1].Sync? }

  lemma {:induction false} PendingBelowEnd(p: Block, es: seq<Event>)
    requires InOrder(p, es) && EndsInSync(es)
    ensures p <= es[|es| - 1].till + 1
    decreases |es|
  {
    if |es| > 1 {
      PendingBelowEnd(PendingAfter(p, es[0]), es[1..]);
    }
  }

  /** Main result. For every ordered stream, however it is cut into batches, a holding's stored
      integer reward is the naive block-by-block reward rounded down, short by less than one unit
      for each segment charged. */
  lemma {:induction false} RefinesNaive(s: seq<Snapshot>, p: Block, l: Ledger, es: seq<Event>, k: Holding)
    requires Ascending(s) && NonNegativeRates(s) && Sound(l)
    requires InOrder(p, es) && AllFunded(l, es) && AllDivisible(s, p, l, es) && EndsInSync(es)
    ensures Rounded(Earned(s, p, l, es, k), Roundings(s, p, es), Naive(s, l, es, k, p, es[|es| - 1].till))
    decreases |es|
  {
    var e, rest, till := es[0], es[1..], es[|es| - 1].till;
    var p', l' := PendingAfter(p, e), BooksAfter(l, e);
    TransferConserves(l, e);
    TransferKeepsSolvent(l, e);
    if rest != [] {
      assert rest[|rest| - 1] == es[|es| - 1];
      RefinesNaive(s, p', l', rest, k);
    }
    if Effective(e) {
      var mid := ChargedTill(e);
      PendingBelowEnd(p, es);
      if rest != [] { PendingBelowEnd(p', rest); }
      AccrualRounds(s, p, mid, l, k);
      assert InOrder(mid + 1, es);
      NaiveUnderFixedBooks(s, l, es, k, p, mid);
      NaiveSplit(s, l, es, k, p, mid, till);
      NaiveEntered(s, l, es, k, mid + 1, till);
      if rest != [] {
        RoundedPlus(AccruedOn(s, p, mid, l, k), Pieces(s, p, mid), ExactOn(s, p, mid, l, k),
                    Earned(s, p', l', rest, k), Roundings(s, p', rest), Naive(s, l', rest, k, p', till));
      }
    } else {
      NaiveEntered(s, l, es, k, p, till);
    }
  }

  // ---------------------------------------------------------------------------------------------
  // When the division fails.

  /** The ranges charged while a stream is processed. */
  function Ranges(p: Block, es: seq<Event>): seq<(Block, Block)>
    decreases |es|
  {
    if es == [] then [] else
    Charged(p, es[0]) + Ranges(PendingAfter(p, es[0]), es[1..])
  }

  function Charged(p: Block, e: Event): seq<(Block, Block)> { if Charges(p, e) then [(p, ChargedTill(e))] else [] }

  /** How many of the ranges hold a block. */
  function Covering(rs: seq<(Block, Block)>, b: Block): nat {
    if rs == [] then 0 else (if rs[0].0 <= b <= rs[0].1 then 1 else 0) + Covering(rs[1..], b)
  }

  lemma CoveringFirst(r: (Block, Block), rs: seq<(Block, Block)>, b: Block)
    ensures Covering([r] + rs, b) == (if r.0 <= b <= r.1 then 1 else 0) + Covering(rs, b)
  {
    assert ([r] + rs)[1..] == rs;
  }

  /** However a stream is cut into batches, the charged ranges hold every block from the first pending
      one to the last synced one exactly once, and no other block. */
  lemma {:induction false} RangesTile(p: Block, es: seq<Event>, b: Block)
    requires InOrder(p, es) && EndsInSync(es)
    ensures Covering(Ranges(p, es), b) == if p <= b <= es[|es| - 1].till then 1 else 0
    decreases |es|
  {
    var e, rest := es[0], es[1..];
    var p' := PendingAfter(p, e);
    if Charges(p, e) {
      CoveringFirst((p, ChargedTill(e)), Ranges(p', rest), b);
    } else {
      assert [] + Ranges(p', rest) == Ranges(p', rest);
    }
    if rest != [] {
      assert rest[|rest| - 1] == es[|es| - 1];
      RangesTile(p', rest, b);
      PendingBelowEnd(p', rest);
    }
  }

  ghost predicate SomebodyHolds(l: Ledger, sym: Symbol) {
    exists u: Address :: (sym, u) in l.balances && 0 < l.balances[(sym, u)]
  }

  /** On sound books the division by the supply is safe exactly when no rate applies to the range or
      every token with a supply entry and listed users still has a user with a positive balance. */
  lemma DivisibleIff(s: seq<Snapshot>, from: Block, to: Block, l: Ledger)
    requires Sound(l)
    ensures Divisible(s, from, to, l) <==>
            (Query(s, from, to) != [] ==> forall k :: k in l.balances && k.0 in l.supplies ==> SomebodyHolds(l, k.0))
  {
    forall k | k in l.balances && k.0 in l.supplies
      ensures l.supplies[k.0] != 0 <==> SomebodyHolds(l, k.0)
    {
      var hs, f := Holders(l, k.0), BalanceOf(l, k.0);
      assert Held(l, k.0) == l.supplies[k.0];
      forall u | u in hs ensures 0 <= f(u) { assert (k.0, u) in l.balances; }
      if SomebodyHolds(l, k.0) {
        var u: Address :| (k.0, u) in l.balances && 0 < l.balances[(k.0, u)];
        SumRemove(hs, u, f);
        SumMonotone({}, hs - {u}, f);
      } else {
        forall u | u in hs ensures f(u) == 0 { assert (k.0, u) in l.balances; }
        SumSubset({}, hs, f);
      }
    }
  }

  /** A token minted and then burnt in full stops the program at the next charge. */
  lemma FullBurnStops(sym: Symbol, u: Address, s: seq<Snapshot>, es: seq<Event>)
    requires u != NULL_ADDR && s == [Snapshot(1, map[sym := 5])]
    requires es == [Transfer(1, sym, NULL_ADDR, u, 7), Transfer(2, sym, u, NULL_ADDR, 7), Sync(3)]
    ensures InOrder(1, es) && AllFunded(Ledger(map[], map[]), es) && !AllDivisible(s, 1, Ledger(map[], map[]), es)
  {
    var l0 := Ledger(map[], map[]);
    var l1 := BooksAfter(l0, es[0]);
    var l2 := BooksAfter(l1, es[1]);
    assert es[1..][0] == es[1] && es[1..][1..] == es[2..] && es[2..][0] == es[2] && es[2..][1..] == [];
    assert InOrder(2, es[1..]) && AllFunded(l1, es[1..]);
    assert l2.supplies[sym] == 0 && (sym, u) in l2.balances;
    assert TakeUpTo(s, 3) == [s[0]] + TakeUpTo(s[1..], 3) && s[1..] == [];
    assert Query(s, 2, 3) == s;
    assert !Divisible(s, 2, 3, l2);
    assert !AllDivisible(s, 2, l2, es[2..]);
    assert !AllDivisible(s, 1, l1, es[1..]);
  }

  // ---------------------------------------------------------------------------------------------
  // Emission.

  ghost function AccrualOf(s: seq<Snapshot>, from: Block, to: Block, l: Ledger, sym: Symbol): Address -> int {
    (u: Address) => AccruedOn(s, from, to, l, (sym, u))
  }

  ghost function EarnedBy(s: seq<Snapshot>, p: Block, l: Ledger, es: seq<Event>, sym: Symbol): Address -> int {
    (u: Address) => Earned(s, p, l, es, (sym, u))
  }

  lemma {:induction false} ScaledSum(us: set<Address>, f: Address -> int, g: Address -> int, d: int, w: int, slack: int)
    requires forall u :: u in us ==> f(u) * d <= g(u) * w + slack
    ensures SumOver(us, f) * d <= SumOver(us, g) * w + |us| * slack
    decreases us
  {
    if us != {} {
      var u :| u in us;
      SumRemove(us, u, f);
      SumRemove(us, u, g);
      ScaledSum(us - {u}, f, g, d, w, slack);
      DistributeRight(f(u), SumOver(us - {u}, f), d);
      DistributeRight(g(u), SumOver(us - {u}, g), w);
      assert |us| == |us - {u}| + 1;
      DistributeRight(|us - {u}|, 1, slack);
    }
  }

  lemma HeldBySome(l: Ledger, sym: Symbol, us: set<Address>)
    requires Sound(l)
    ensures 0 <= SumOver(us, BalanceOf(l, sym)) <= Get(l.supplies, sym)
  {
    var f, hs := BalanceOf(l, sym), Holders(l, sym);
    forall u | u in hs ensures 0 <= f(u) { assert (sym, u) in l.balances; }
    SumMonotone(us * hs, hs, f);
    assert forall u :: (sym, u) in l.balances ==> u in hs;
    SumSubset(us * hs, us, f);
    assert Held(l, sym) == Get(l.supplies, sym);
  }

  lemma {:induction false} RateSumNonNegative(s: seq<Snapshot>, sym: Symbol, from: Block, to: Block)
    requires NonNegativeRates(s)
    ensures 0 <= RateSum(s, sym, from, to)
    decreases (to - from)
  {
    if from <= to {
      RateSumNonNegative(s, sym, from, to - 1);
      RateAtNonNegative(s, sym, to);
    }
  }

  lemma {:induction false} RateAtNonNegative(s: seq<Snapshot>, sym: Symbol, b: Block)
    requires NonNegativeRates(s)
    ensures 0 <= RateAt(s, sym, b)
  {
    if |s| > 1 && s[0].block <= b && s[1].block <= b {
      RateAtNonNegative(s[1..], sym, b);
    }
  }

  /** Over one charged range, the users together get no more than the rate allots to its blocks. */
  lemma RangeEmission(s: seq<Snapshot>, from: Block, to: Block, l: Ledger, sym: Symbol, us: set<Address>)
    requires Ascending(s) && NonNegativeRates(s) && from <= to + 1 && Sound(l) &&
             (from <= to ==> Divisible(s, from, to, l))
    ensures SumOver(us, AccrualOf(s, from, to, l, sym)) <= RateSum(s, sym, from, to)
  {
    var f, w := AccrualOf(s, from, to, l, sym), RateSum(s, sym, from, to);
    RateSumNonNegative(s, sym, from, to);
    WeightedIsRateSum(s, sym, from, to);
    if sym in l.supplies && Query(s, from, to) != [] && 0 < l.supplies[sym] {
      var d := l.supplies[sym];
      forall u | u in us ensures f(u) * d <= BalanceOf(l, sym)(u) * w + 0 {
        var b := Get(l.balances, (sym, u));
        AccruedIsClip(s, from, to, sym, b, d);
        ClipBounds(s, from, to, sym, b, d);
      }
      ScaledSum(us, f, BalanceOf(l, sym), d, w, 0);
      HeldBySome(l, sym, us);
      Ordered(SumOver(us, BalanceOf(l, sym)), d, w);
      Cancel(SumOver(us, f), w, d);
    } else {
      forall u | u in us ensures f(u) == 0 {
        var k := (sym, u);
        if sym in l.supplies {
          if to < from {
            AccruedIsClip(s, from, to, sym, Get(l.balances, k), l.supplies[sym]);
            EmptyRange(s, from, to, sym, Get(l.balances, k), l.supplies[sym]);
          } else if Query(s, from, to) == [] {
            NoSnapshotNoAccrual(s, from, to, sym, Get(l.balances, k), l.supplies[sym]);
          } else {
            if k in l.balances { PositiveSupply(s, from, to, l, k); assert false; }
            AccruedIsClip(s, from, to, sym, 0, l.supplies[sym]);
            NothingHeld(s, from, to, sym, l.supplies[sym]);
          }
        }
      }
      SumSubset({}, us, f);
    }
  }

  lemma Cancel(a: int, b: int, d: int)
    requires 0 < d && a * d <= b * d
    ensures a <= b
  {}

  /** ... and, all holders counted, short of it by less than one unit per holder and segment. */
  lemma RangeEmissionFloor(s: seq<Snapshot>, from: Block, to: Block, l: Ledger, sym: Symbol)
    requires Ascending(s) && NonNegativeRates(s) && from <= to + 1 && Sound(l)
    requires sym in l.supplies && 0 < l.supplies[sym]
    ensures var emitted := SumOver(Holders(l, sym), AccrualOf(s, from, to, l, sym));
            var allotted := RateSum(s, sym, from, to);
            var roundings := |Holders(l, sym)| * Pieces(s, from, to);
            allotted <= emitted + roundings && (Pieces(s, from, to) > 0 ==> allotted < emitted + roundings)
  {
    var hs, d, p := Holders(l, sym), l.supplies[sym], Pieces(s, from, to);
    var slack := if p > 0 then p * d - 1 else 0;
    HolderFloor(s, from, to, l, sym, slack);
    var f := AccrualOf(s, from, to, l, sym);
    ScaledSum(hs, BalanceOf(l, sym), f, RateSum(s, sym, from, to), d, slack);
    assert Held(l, sym) == d;
    assert hs != {};
    CountRoundings(RateSum(s, sym, from, to), SumOver(hs, f), |hs|, p, d);
  }

  lemma HolderFloor(s: seq<Snapshot>, from: Block, to: Block, l: Ledger, sym: Symbol, slack: int)
    requires Ascending(s) && NonNegativeRates(s) && from <= to + 1 && Solvent(l)
    requires sym in l.supplies && 0 < l.supplies[sym]
    requires slack == if Pieces(s, from, to) > 0 then Pieces(s, from, to) * l.supplies[sym] - 1 else 0
    ensures forall u :: u in Holders(l, sym) ==>
              BalanceOf(l, sym)(u) * RateSum(s, sym, from, to)
              <= AccrualOf(s, from, to, l, sym)(u) * l.supplies[sym] + slack
  {
    var f, g, d, p := AccrualOf(s, from, to, l, sym), BalanceOf(l, sym), l.supplies[sym], Pieces(s, from, to);
    WeightedIsRateSum(s, sym, from, to);
    forall u | u in Holders(l, sym) ensures g(u) * RateSum(s, sym, from, to) <= f(u) * d + slack {
      assert (sym, u) in l.balances;
      AccruedIsClip(s, from, to, sym, g(u), d);
      ClipBounds(s, from, to, sym, g(u), d);
      DistributeRight(f(u), p, d);
    }
  }

  lemma CountRoundings(w: int, total: int, n: int, p: nat, d: int)
    requires 0 < d && 0 < n && d * w <= total * d + n * (if p > 0 then p * d - 1 else 0)
    ensures w <= total + n * p && (p > 0 ==> w < total + n * p)
  {
    DistributeRight(total, n * p, d);
    Associate(n, p, d);
    if p > 0 {
      Distribute(n, p * d, -1);
      if w >= total + n * p { Ordered(total + n * p, w, d); }
    } else {
      Cancel(w, total, d);
    }
  }

  lemma EarnedSum(s: seq<Snapshot>, p: Block, l: Ledger, es: seq<Event>, sym: Symbol, us: set<Address>)
    requires es != [] && Effective(es[0])
    ensures SumOver(us, EarnedBy(s, p, l, es, sym))
            == SumOver(us, AccrualOf(s, p, ChargedTill(es[0]), l, sym))
               + SumOver(us, EarnedBy(s, PendingAfter(p, es[0]), BooksAfter(l, es[0]), es[1..], sym))
  {
    SumPlus(us, AccrualOf(s, p, ChargedTill(es[0]), l, sym),
            EarnedBy(s, PendingAfter(p, es[0]), BooksAfter(l, es[0]), es[1..], sym), EarnedBy(s, p, l, es, sym));
  }

  /** Over a whole stream no set of users gets more than the schedule pays out. */
  lemma {:induction false} StreamEmission(s: seq<Snapshot>, p: Block, l: Ledger, es: seq<Event>, sym: Symbol,
                                          us: set<Address>)
    requires Ascending(s) && NonNegativeRates(s) && Sound(l)
    requires InOrder(p, es) && AllFunded(l, es) && AllDivisible(s, p, l, es) && EndsInSync(es)
    ensures SumOver(us, EarnedBy(s, p, l, es, sym)) <= RateSum(s, sym, p, es[|es| - 1].till)
    decreases |es|
  {
    var e, rest, till := es[0], es[1..], es[|es| - 1].till;
    var p', l' := PendingAfter(p, e), BooksAfter(l, e);
    TransferConserves(l, e);
    TransferKeepsSolvent(l, e);
    var later := EarnedBy(s, p', l', rest, sym);
    if rest != [] {
      assert rest[|rest| - 1] == es[|es| - 1];
      StreamEmission(s, p', l', rest, sym, us);
      PendingBelowEnd(p', rest);
    } else {
      SumSubset({}, us, later);
    }
    if Effective(e) {
      var mid := ChargedTill(e);
      RangeEmission(s, p, mid, l, sym, us);
      EarnedSum(s, p, l, es, sym, us);
      RateSumSplit(s, sym, p, mid, till);
    } else {
      SumSame(us, EarnedBy(s, p, l, es, sym), later);
    }
  }
}
