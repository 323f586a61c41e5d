/** What one more batch boundary does to the rewards of a stream. */
module RewardBatches {
  import opened RewardSchedule
  import opened Rewards

  lemma {:induction false} QueryEmpty(s: seq<Snapshot>, from: Block, to: Block)
    requires Ascending(s) && from <= to && Query(s, from, to) == []
    ensures s == [] || s[0].block > to
  {
    if |s| >= 2 && s[1].block <= from {
      QueryEmpty(s[1..], from, to);
    }
  }

  lemma AccrualSplit(s: seq<Snapshot>, from: Block, mid: Block, to: Block, l: Ledger, k: Holding)
    requires Ascending(s) && NonNegativeRates(s) && Sound(l) && (from <= to ==> Divisible(s, from, to, l))
    requires from <= mid + 1 <= to + 1
    ensures var whole := AccruedOn(s, from, to, l, k);
            var parts := AccruedOn(s, from, mid, l, k) + AccruedOn(s, mid + 1, to, l, k);
            parts <= whole <= parts + 1
  {
    if k.0 in l.supplies {
      var sym, b, d := k.0, Get(l.balances, k), l.supplies[k.0];
      AccruedIsClip(s, from, to, sym, b, d);
      AccruedIsClip(s, from, mid, sym, b, d);
      AccruedIsClip(s, mid + 1, to, sym, b, d);
      if to < from {
        EmptyRange(s, from, to, sym, b, d);
        EmptyRange(s, from, mid, sym, b, d);
        EmptyRange(s, mid + 1, to, sym, b, d);
      } else if Query(s, from, to) == [] {
        QueryEmpty(s, from, to);
        BeyondRange(s, from, to, sym, b, d);
        BeyondRange(s, from, mid, sym, b, d);
        BeyondRange(s, mid + 1, to, sym, b, d);
      } else if k in l.balances {
        PositiveSupply(s, from, to, l, k);
        ClipSplit(s, from, mid, to, sym, b, d);
      } else {
        NothingHeld(s, from, to, sym, d);
        NothingHeld(s, from, mid, sym, d);
        NothingHeld(s, mid + 1, to, sym, d);
      }
    }
  }

  lemma {:induction false} BoundaryAtFront(s: seq<Snapshot>, p: Block, x: Block, l: Ledger, es: seq<Event>, k: Holding)
    requires Ascending(s) && NonNegativeRates(s) && Sound(l)
    requires p <= x + 1 && InOrder(x + 1, es) && AllDivisible(s, p, l, es) && EndsInSync(es)
    ensures var cut := AccruedOn(s, p, x, l, k) + Earned(s, x + 1, l, es, k);
            cut <= Earned(s, p, l, es, k) <= cut + 1
    decreases |es|
  {
    if Effective(es[0]) {
      AccrualSplit(s, p, x, ChargedTill(es[0]), l, k);
    } else {
      assert es[1..][|es[1..]| - 1] == es[|es| - 1];
      BoundaryAtFront(s, p, x, l, es[1..], k);
    }
  }

  lemma {:induction false} QueryFirst(s: seq<Snapshot>, from: Block, to: Block)
    requires Ascending(s) && Query(s, from, to) != []
    ensures s[0].block <= to
  {
    if |s| >= 2 && s[1].block <= from { QueryFirst(s[1..], from, to); }
  }

  /** A part of a range divides safely if the range does. */
  lemma DivisiblePart(s: seq<Snapshot>, from: Block, to: Block, from': Block, to': Block, l: Ledger)
    requires Ascending(s) && from <= to && from <= from' && to' <= to && Divisible(s, from, to, l)
    ensures Divisible(s, from', to', l)
  {
    if Query(s, from', to') != [] && Query(s, from, to) == [] {
      QueryFirst(s, from', to');
      QueryEmpty(s, from, to);
      assert false;
    }
  }

  lemma {:induction false} FrontDivides(s: seq<Snapshot>, p: Block, x: Block, l: Ledger, es: seq<Event>)
    requires Ascending(s) && p <= x + 1 && InOrder(x + 1, es) && AllDivisible(s, p, l, es) && EndsInSync(es)
    ensures AllDivisible(s, x + 1, l, es) && (p <= x ==> Divisible(s, p, x, l))
    decreases |es|
  {
    var e := es[0];
    if !Effective(e) {
      assert es[1..][|es[1..]| - 1] == es[|es| - 1];
      FrontDivides(s, p, x, l, es[1..]);
    } else if p <= ChargedTill(e) {
      DivisiblePart(s, p, ChargedTill(e), p, x, l);
      DivisiblePart(s, p, ChargedTill(e), x + 1, ChargedTill(e), l);
    }
  }

  function PendingAfterAll(p: Block, es: seq<Event>): Block
    decreases |es|
  {
    if es == [] then p else PendingAfterAll(PendingAfter(p, es[0]), es[1..])
  }

  function BooksAfterAll(l: Ledger, es: seq<Event>): Ledger
    decreases |es|
  {
    if es == [] then l else BooksAfterAll(BooksAfter(l, es[0]), es[1..])
  }

  /** The added batch end divides safely if it charges a block, and otherwise exactly when the books at
      that point allow it. */
  lemma {:induction false} BoundaryDivides(s: seq<Snapshot>, p: Block, l: Ledger, before: seq<Event>, x: Block,
                                           after: seq<Event>)
    requires Ascending(s) && EndsInSync(after) && InOrder(p, before + [Sync(x)] + after)
    requires AllDivisible(s, p, l, before + after)
    ensures AllDivisible(s, p, l, before + [Sync(x)] + after) <==>
            PendingAfterAll(p, before) <= x || Divisible(s, PendingAfterAll(p, before), x, BooksAfterAll(l, before))
    decreases |before|
  {
    var with, without := before + [Sync(x)] + after, before + after;
    if before == [] {
      assert with[1..] == after && without == after;
      FrontDivides(s, p, x, l, after);
    } else {
      var e := before[0];
      assert with[0] == e && without[0] == e;
      assert with[1..] == before[1..] + [Sync(x)] + after;
      assert without[1..] == before[1..] + after;
      BoundaryDivides(s, PendingAfter(p, e), BooksAfter(l, e), before[1..], x, after);
    }
  }

  lemma {:induction false} BoundaryCosts(s: seq<Snapshot>, p: Block, l: Ledger, before: seq<Event>, x: Block,
                                         after: seq<Event>, k: Holding)
    requires Ascending(s) && NonNegativeRates(s) && Sound(l) && EndsInSync(after)
    requires InOrder(p, before + [Sync(x)] + after)
    requires AllFunded(l, before + after) && AllDivisible(s, p, l, before + after)
    ensures var cut := Earned(s, p, l, before + [Sync(x)] + after, k);
            cut <= Earned(s, p, l, before + after, k) <= cut + 1
    decreases |before|
  {
    var with, without := before + [Sync(x)] + after, before + after;
    if before == [] {
      assert with[1..] == after && without == after;
      BoundaryAtFront(s, p, x, l, after, k);
    } else {
      var e := before[0];
      assert with[0] == e && without[0] == e;
      assert with[1..] == before[1..] + [Sync(x)] + after;
      assert without[1..] == before[1..] + after;
      TransferConserves(l, e);
      TransferKeepsSolvent(l, e);
      BoundaryCosts(s, PendingAfter(p, e), BooksAfter(l, e), before[1..], x, after, k);
    }
  }

  /** Main result. Ending a batch once more, anywhere in a stream, lowers a holding's reward by at most one
      unit. If it ends no earlier than its last log, it cannot reach the division by zero either. */
  lemma ExtraBoundary(s: seq<Snapshot>, p: Block, l: Ledger, before: seq<Event>, x: Block, after: seq<Event>,
                      k: Holding)
    requires Ascending(s) && NonNegativeRates(s) && Sound(l) && EndsInSync(after)
    requires InOrder(p, before + [Sync(x)] + after)
    requires AllFunded(l, before + after) && AllDivisible(s, p, l, before + after)
    ensures var cut := Earned(s, p, l, before + [Sync(x)] + after, k);
            cut <= Earned(s, p, l, before + after, k) <= cut + 1
    ensures PendingAfterAll(p, before) <= x ==> AllDivisible(s, p, l, before + [Sync(x)] + after)
  {
    BoundaryCosts(s, p, l, before, x, after, k);
    BoundaryDivides(s, p, l, before, x, after);
  }
}
