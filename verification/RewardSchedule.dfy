/** The reward-rate schedule of the liquidity-mining programme and the integer accrual of one
    holder over a range of blocks during which balance and supply do not change. */
module RewardSchedule {

  type Symbol = nat
  type Block = int

  /** One entry of the rate table: from `block` on, `rates` (reward per block and token) apply. */
  datatype Snapshot = Snapshot(block: Block, rates: map<Symbol, int>)

  predicate Ascending(s: seq<Snapshot>) {
    forall i, j :: 0 <= i < j < |s| ==> s[i].block < s[j].block
  }

  predicate NonNegativeRates(s: seq<Snapshot>) {
    forall i, sym :: 0 <= i < |s| && sym in s[i].rates ==> 0 <= s[i].rates[sym]
  }

  /** A token missing from a snapshot earns nothing. */
  function Rate(s: Snapshot, sym: Symbol): int {
    if sym in s.rates then s.rates[sym] else 0
  }

  function TakeUpTo(s: seq<Snapshot>, to: Block): seq<Snapshot> {
    if s == [] || s[0].block > to then [] else [s[0]] + TakeUpTo(s[1..], to)
  }

  /** What the rate table answers for [from, to]: ascending snapshots at or below `to`, of which
      only the first may lie at or before `from`. */
  function Query(s: seq<Snapshot>, from: Block, to: Block): seq<Snapshot> {
    if |s| >= 2 && s[1].block <= from then Query(s[1..], from, to) else TakeUpTo(s, to)
  }

  /** The rate in force at block `b`: that of the last snapshot at or before it. */
  function RateAt(s: seq<Snapshot>, sym: Symbol, b: Block): int {
    if s == [] || s[0].block > b then 0
    else if |s| == 1 || s[1].block > b then Rate(s[0], sym)
    else RateAt(s[1..], sym, b)
  }

  /** Sum of the per-block rates over [from, to]: the reference the accrual is compared with. */
  function RateSum(s: seq<Snapshot>, sym: Symbol, from: Block, to: Block): int
    decreases to - from
  {
    if to < from then 0 else RateSum(s, sym, from, to - 1) + RateAt(s, sym, to)
  }

  /** Division truncating toward zero, as big.Int.Quo; callers keep the divisor non-zero. */
  function Quo(a: int, b: int): int {
    if b == 0 then 0
    else if 0 <= a then (if 0 < b then a / b else -(a / -b))
    else (if 0 < b then -(-a / b) else -a / -b)
  }

  /** One holder's reward for `n` blocks at a constant rate. */
  function Share(balance: int, rate: int, n: int, supply: int): int {
    Quo(balance * rate * n, supply)
  }

  /** First block charged: blocks before the first snapshot earn nothing. */
  function FirstCharged(snaps: seq<Snapshot>, from: Block): Block {
    if |snaps| > 0 && from < snaps[0].block then snaps[0].block else from
  }

  function SegmentEnd(snaps: seq<Snapshot>, to: Block): Block
    requires snaps != []
  {
    if |snaps| == 1 then to else snaps[1].block - 1
  }

  /** The accrual as the loop over the answered snapshots computes it. */
  function AccrueFrom(snaps: seq<Snapshot>, start: Block, to: Block, sym: Symbol, balance: int, supply: int): int
  {
    if snaps == [] then 0 else
      var end := SegmentEnd(snaps, to);
      Share(balance, Rate(snaps[0], sym), end - start + 1, supply)
      + AccrueFrom(snaps[1..], end + 1, to, sym, balance, supply)
  }

  function Accrued(s: seq<Snapshot>, from: Block, to: Block, sym: Symbol, balance: int, supply: int): int
  {
    var snaps := Query(s, from, to);
    AccrueFrom(snaps, FirstCharged(snaps, from), to, sym, balance, supply)
  }

  // ---------------------------------------------------------------------------------------------
  // The same accrual cut out of the whole schedule: every schedule entry is charged for the part
  // of its validity interval that lies in [from, to].

  function Min(a: int, b: int): int { if a < b then a else b }
  function Max(a: int, b: int): int { if a < b then b else a }

  /** Number of blocks of [from, to] during which the head of `s` is in force. */
  function HeadBlocks(s: seq<Snapshot>, from: Block, to: Block): nat
    requires s != []
  {
    var end := if |s| == 1 then to else Min(to, s[1].block - 1);
    Max(0, end - Max(from, s[0].block) + 1)
  }

  function Clip(s: seq<Snapshot>, from: Block, to: Block, sym: Symbol, balance: int, supply: int): int
  {
    if s == [] then 0
    else Share(balance, Rate(s[0], sym), HeadBlocks(s, from, to), supply)
         + Clip(s[1..], from, to, sym, balance, supply)
  }

  function Weighted(s: seq<Snapshot>, sym: Symbol, from: Block, to: Block): int {
    if s == [] then 0 else Rate(s[0], sym) * HeadBlocks(s, from, to) + Weighted(s[1..], sym, from, to)
  }

  /** Number of schedule entries in force somewhere in [from, to]. */
  function Pieces(s: seq<Snapshot>, from: Block, to: Block): nat {
    if s == [] then 0 else (if HeadBlocks(s, from, to) > 0 then 1 else 0) + Pieces(s[1..], from, to)
  }

  lemma {:induction false} BeyondRange(s: seq<Snapshot>, from: Block, to: Block, sym: Symbol, balance: int, supply: int)
    requires Ascending(s) && (s != [] ==> s[0].block > to)
    ensures Clip(s, from, to, sym, balance, supply) == 0 && Weighted(s, sym, from, to) == 0 && Pieces(s, from, to) == 0
  {
    if s != [] {
      BeyondRange(s[1..], from, to, sym, balance, supply);
    }
  }

  lemma {:induction false} EmptyRange(s: seq<Snapshot>, from: Block, to: Block, sym: Symbol, balance: int, supply: int)
    requires to < from
    ensures Clip(s, from, to, sym, balance, supply) == 0 && Weighted(s, sym, from, to) == 0 && Pieces(s, from, to) == 0
  {
    if s != [] {
      EmptyRange(s[1..], from, to, sym, balance, supply);
    }
  }

  /** Behind the first charged block the loop and the clipping agree segment by segment. */
  lemma {:induction false} AccrueIsClip(s: seq<Snapshot>, from: Block, start: Block, to: Block, sym: Symbol,
                                        balance: int, supply: int)
    requires Ascending(s) && from <= to + 1
    requires s != [] ==> start == Max(from, s[0].block)
    requires |s| >= 2 ==> s[1].block > from
    ensures AccrueFrom(TakeUpTo(s, to), start, to, sym, balance, supply) == Clip(s, from, to, sym, balance, supply)
  {
    if s == [] {
    } else if s[0].block > to {
      BeyondRange(s, from, to, sym, balance, supply);
    } else {
      var snaps := TakeUpTo(s, to);
      assert snaps == [s[0]] + TakeUpTo(s[1..], to);
      assert snaps[1..] == TakeUpTo(s[1..], to);
      if |s| >= 2 && s[1].block <= to {
        assert snaps[1] == s[1];
        AccrueIsClip(s[1..], from, s[1].block, to, sym, balance, supply);
      } else {
        assert snaps == [s[0]];
        BeyondRange(s[1..], from, to, sym, balance, supply);
      }
    }
  }

  lemma {:induction false} AccruedIsClip(s: seq<Snapshot>, from: Block, to: Block, sym: Symbol, balance: int,
                                         supply: int)
    requires Ascending(s) && from <= to + 1
    ensures Accrued(s, from, to, sym, balance, supply) == Clip(s, from, to, sym, balance, supply)
  {
    if |s| >= 2 && s[1].block <= from {
      AccruedIsClip(s[1..], from, to, sym, balance, supply);
    } else {
      var snaps := Query(s, from, to);
      if snaps != [] {
        assert snaps[0] == s[0];
      }
      if s != [] && s[0].block > to {
        BeyondRange(s, from, to, sym, balance, supply);
      } else {
        AccrueIsClip(s, from, FirstCharged(snaps, from), to, sym, balance, supply);
      }
    }
  }

  /** The answer to a query is ascending, at or below `to`, and only its first entry may be at or before `from`. */
  lemma {:induction false} QueryShape(s: seq<Snapshot>, from: Block, to: Block)
    requires Ascending(s)
    ensures var q := Query(s, from, to);
            && Ascending(q)
            && (forall i :: 0 <= i < |q| ==> q[i] in s && q[i].block <= to)
            && (forall i :: 1 <= i < |q| ==> from < q[i].block)
  {
    if |s| >= 2 && s[1].block <= from {
      QueryShape(s[1..], from, to);
    } else {
      TakeUpToIsPrefix(s, to);
    }
  }

  lemma {:induction false} TakeUpToIsPrefix(s: seq<Snapshot>, to: Block)
    requires Ascending(s)
    ensures var q := TakeUpTo(s, to); q <= s && forall i :: 0 <= i < |q| ==> q[i].block <= to
  {
    if s != [] && s[0].block <= to {
      TakeUpToIsPrefix(s[1..], to);
    }
  }

  // ---------------------------------------------------------------------------------------------
  // Accrual against the per-block reference.

  lemma {:induction false} WeightedStep(s: seq<Snapshot>, sym: Symbol, from: Block, to: Block)
    requires Ascending(s) && from <= to
    ensures Weighted(s, sym, from, to) == Weighted(s, sym, from, to - 1) + RateAt(s, sym, to)
  {
    if s == [] {
    } else if s[0].block > to {
      BeyondRange(s, from, to, sym, 0, 1);
      BeyondRange(s, from, to - 1, sym, 0, 1);
    } else if |s| == 1 || s[1].block > to {
      BeyondRange(s[1..], from, to, sym, 0, 1);
      BeyondRange(s[1..], from, to - 1, sym, 0, 1);
      assert HeadBlocks(s, from, to) == HeadBlocks(s, from, to - 1) + 1;
    } else {
      assert HeadBlocks(s, from, to) == HeadBlocks(s, from, to - 1);
      WeightedStep(s[1..], sym, from, to);
    }
  }

  lemma {:induction false} WeightedIsRateSum(s: seq<Snapshot>, sym: Symbol, from: Block, to: Block)
    requires Ascending(s)
    ensures Weighted(s, sym, from, to) == RateSum(s, sym, from, to)
    decreases (to - from)
  {
    if to < from {
      EmptyRange(s, from, to, sym, 0, 1);
    } else {
      WeightedIsRateSum(s, sym, from, to - 1);
      WeightedStep(s, sym, from, to);
    }
  }

  lemma ShareBounds(balance: int, rate: int, n: int, supply: int)
    requires 0 <= balance && 0 <= rate && 0 <= n && 0 < supply
    ensures 0 <= Share(balance, rate, n, supply)
    ensures Share(balance, rate, n, supply) * supply <= balance * rate * n
    ensures balance * rate * n < (Share(balance, rate, n, supply) + 1) * supply
    ensures n == 0 ==> Share(balance, rate, n, supply) == 0
  {
    assert 0 <= balance * rate;
    assert 0 <= balance * rate * n;
    var a := balance * rate * n;
    assert a == (a / supply) * supply + a % supply;
  }

  /** `c` whole units stand for `exact / supply`, short by less than one unit for each of `p` roundings. */
  ghost predicate Within(c: int, p: nat, exact: int, supply: int) {
    0 <= c && c * supply <= exact && exact <= (c + p) * supply && (p > 0 ==> exact < (c + p) * supply)
  }

  lemma WithinPlus(c: int, p: nat, exact: int, c': int, p': nat, exact': int, supply: int)
    requires 0 < supply && Within(c, p, exact, supply) && Within(c', p', exact', supply)
    ensures Within(c + c', p + p', exact + exact', supply)
  {
    DistributeRight(c, c', supply);
    DistributeRight(c + p, c' + p', supply);
    assert (c + p) + (c' + p') == (c + c') + (p + p');
  }

  /** The integer accrual is at most the exact one and falls short by less than one unit a piece. */
  lemma {:induction false} ClipBounds(s: seq<Snapshot>, from: Block, to: Block, sym: Symbol, balance: int, supply: int)
    requires Ascending(s) && NonNegativeRates(s) && 0 <= balance && 0 < supply
    ensures Within(Clip(s, from, to, sym, balance, supply), Pieces(s, from, to),
                   balance * Weighted(s, sym, from, to), supply)
  {
    if s != [] {
      ClipBounds(s[1..], from, to, sym, balance, supply);
      var rate, n := Rate(s[0], sym), HeadBlocks(s, from, to);
      ShareBounds(balance, rate, n, supply);
      var head := Share(balance, rate, n, supply);
      var p: nat := if n > 0 then 1 else 0;
      assert Within(head, p, balance * rate * n, supply);
      Distribute(balance, rate * n, Weighted(s[1..], sym, from, to));
      Associate(balance, rate, n);
      WithinPlus(head, p, balance * rate * n, Clip(s[1..], from, to, sym, balance, supply), Pieces(s[1..], from, to),
                 balance * Weighted(s[1..], sym, from, to), supply);
    }
  }

  lemma Associate(a: int, b: int, c: int)
    ensures a * (b * c) == a * b * c
  {}

  lemma Distribute(a: int, b: int, c: int)
    ensures a * (b + c) == a * b + a * c
  {}

  lemma DistributeRight(a: int, b: int, c: int)
    ensures (a + b) * c == a * c + b * c
  {}

  // ---------------------------------------------------------------------------------------------
  // Splitting a range.

  lemma ShareSplit(balance: int, rate: int, m: int, n: int, supply: int)
    requires 0 <= balance && 0 <= rate && 0 <= m && 0 <= n && 0 < supply
    ensures var whole := Share(balance, rate, m + n, supply);
            var parts := Share(balance, rate, m, supply) + Share(balance, rate, n, supply);
            parts <= whole <= parts + 1
  {
    ShareBounds(balance, rate, m, supply);
    ShareBounds(balance, rate, n, supply);
    ShareBounds(balance, rate, m + n, supply);
    var x, y, z := Share(balance, rate, m, supply), Share(balance, rate, n, supply),
      Share(balance, rate, m + n, supply);
    Distribute(balance * rate, m, n);
    DistributeRight(x, y, supply);
    DistributeRight(x + 1, y + 1, supply);
    if z < x + y {
      Ordered(z + 1, x + y, supply);
      assert false;
    }
    if x + y + 2 <= z {
      Ordered(x + y + 2, z, supply);
      assert false;
    }
  }

  lemma Ordered(a: int, b: int, c: int)
    requires a <= b && 0 <= c
    ensures a * c <= b * c
  {}

  /** Charging [from, mid] and [mid + 1, to] instead of [from, to] loses at most one unit: at most
      one schedule entry is in force on both sides of the cut. */
  lemma {:induction false} ClipSplit(s: seq<Snapshot>, from: Block, mid: Block, to: Block, sym: Symbol, balance: int,
                                     supply: int)
    requires Ascending(s) && NonNegativeRates(s) && 0 <= balance && 0 < supply
    requires from <= mid + 1 <= to + 1
    ensures var whole := Clip(s, from, to, sym, balance, supply);
            var parts := Clip(s, from, mid, sym, balance, supply) + Clip(s, mid + 1, to, sym, balance, supply);
            parts <= whole <= parts + 1
  {
    if s != [] {
      var rate := Rate(s[0], sym);
      var m, n := HeadBlocks(s, from, mid), HeadBlocks(s, mid + 1, to);
      HeadSplit(s, from, mid, to);
      ShareSplit(balance, rate, m, n, supply);
      ShareBounds(balance, rate, m, supply);
      ShareBounds(balance, rate, n, supply);
      if m == 0 || n == 0 {
        ClipSplit(s[1..], from, mid, to, sym, balance, supply);
      } else {
        BeyondRange(s[1..], from, mid, sym, balance, supply);
        SameBehind(s[1..], from, mid + 1, to, sym, balance, supply);
      }
    }
  }

  lemma HeadSplit(s: seq<Snapshot>, from: Block, mid: Block, to: Block)
    requires s != [] && from <= mid + 1 <= to + 1
    ensures HeadBlocks(s, from, to) == HeadBlocks(s, from, mid) + HeadBlocks(s, mid + 1, to)
  {}

  /** Ranges that start before the first entry are charged alike. */
  lemma {:induction false} SameBehind(s: seq<Snapshot>, from: Block, from': Block, to: Block, sym: Symbol,
                                      balance: int, supply: int)
    requires Ascending(s) && (s != [] ==> from <= s[0].block && from' <= s[0].block)
    ensures Clip(s, from, to, sym, balance, supply) == Clip(s, from', to, sym, balance, supply)
  {
    if s != [] {
      SameBehind(s[1..], from, from', to, sym, balance, supply);
    }
  }

  lemma {:induction false} RateSumSplit(s: seq<Snapshot>, sym: Symbol, from: Block, mid: Block, to: Block)
    requires from <= mid + 1 <= to + 1
    ensures RateSum(s, sym, from, to) == RateSum(s, sym, from, mid) + RateSum(s, sym, mid + 1, to)
    decreases (to - mid)
  {
    if mid < to {
      RateSumSplit(s, sym, from, mid, to - 1);
    }
  }
}
