/** Dropping repeated prices of a feed without losing any price. */
module PriceStore {

  import opened Wrappers

  /** Currency, token and feed. */
  datatype Key = Key(inUSD: bool, token: nat, feed: nat)

  datatype PriceFeed = PriceFeed(key: Key, block: int, price: int)

  // ---------------------------------------------------------------------------------------------
  // Reference: what a list of price feeds says about each block.

  /** The price in force at a block: the latest one listed at or before it. */
  function PriceAt(pfs: seq<PriceFeed>, key: Key, block: int): Option<int> {
    if pfs == [] then None else
    var last := pfs[|pfs| - 1];
    if last.key == key && last.block <= block then Some(last.price) else PriceAt(pfs[..|pfs| - 1], key, block)
  }

  function LastOf(pfs: seq<PriceFeed>, key: Key): Option<PriceFeed> {
    if pfs == [] then None else
    var last := pfs[|pfs| - 1];
    if last.key == key then Some(last) else LastOf(pfs[..|pfs| - 1], key)
  }

  /** Each feed is offered at strictly growing blocks. */
  predicate Ascending(pfs: seq<PriceFeed>) {
    pfs == [] ||
    (var pre, last := pfs[..|pfs| - 1], pfs[|pfs| - 1];
     Ascending(pre) && (LastOf(pre, last.key).Some? ==> LastOf(pre, last.key).value.block < last.block))
  }

  /** Neighbouring prices of a feed differ. */
  predicate NoRepeats(pfs: seq<PriceFeed>) {
    pfs == [] ||
    (var pre, last := pfs[..|pfs| - 1], pfs[|pfs| - 1];
     NoRepeats(pre) && (LastOf(pre, last.key).Some? ==> LastOf(pre, last.key).value.price != last.price))
  }

  ghost predicate SamePrices(offered: seq<PriceFeed>, stored: seq<PriceFeed>) {
    forall key, block :: PriceAt(stored, key, block) == PriceAt(offered, key, block)
  }

  /** For each feed both lists end with the same price, the stored one no later. */
  ghost predicate SameLast(offered: seq<PriceFeed>, stored: seq<PriceFeed>) {
    forall key :: if LastOf(offered, key).None? then LastOf(stored, key).None? else
      LastOf(stored, key).Some? && LastOf(stored, key).value.price == LastOf(offered, key).value.price
      && LastOf(stored, key).value.block <= LastOf(offered, key).value.block
  }

  lemma Pushed(pfs: seq<PriceFeed>, pf: PriceFeed)
    ensures var r := pfs + [pf]; r != [] && r[..|r| - 1] == pfs && r[|r| - 1] == pf
  {}

  lemma {:induction false} PriceOfLast(pfs: seq<PriceFeed>, key: Key, block: int)
    requires LastOf(pfs, key).Some? && LastOf(pfs, key).value.block <= block
    ensures PriceAt(pfs, key, block) == Some(LastOf(pfs, key).value.price)
    decreases |pfs|
  {
    if pfs[|pfs| - 1].key != key { PriceOfLast(pfs[..|pfs| - 1], key, block); }
  }

  ghost predicate Faithful(offered: seq<PriceFeed>, stored: seq<PriceFeed>) {
    Ascending(offered) && Ascending(stored) && NoRepeats(stored) && SamePrices(offered, stored) &&
      SameLast(offered, stored)
  }

  /** The offer comes after every earlier one of its feed. */
  predicate Later(offered: seq<PriceFeed>, pf: PriceFeed) {
    LastOf(offered, pf.key).Some? ==> LastOf(offered, pf.key).value.block < pf.block
  }

  /** A repeated price may be dropped. */
  lemma Dropped(offered: seq<PriceFeed>, stored: seq<PriceFeed>, pf: PriceFeed)
    requires Faithful(offered, stored) && Later(offered, pf)
    requires LastOf(offered, pf.key).Some? && LastOf(offered, pf.key).value.price == pf.price
    ensures Faithful(offered + [pf], stored)
  {
    Pushed(offered, pf);
    forall key, block ensures PriceAt(stored, key, block) == PriceAt(offered + [pf], key, block) {
      if key == pf.key && pf.block <= block { PriceOfLast(offered, key, block); }
    }
    forall key | key != pf.key ensures LastOf(offered + [pf], key) == LastOf(offered, key) {}
  }

  /** A changed price must be stored. */
  lemma Stored(offered: seq<PriceFeed>, stored: seq<PriceFeed>, pf: PriceFeed)
    requires Faithful(offered, stored) && Later(offered, pf)
    requires LastOf(offered, pf.key).Some? ==> LastOf(offered, pf.key).value.price != pf.price
    ensures Faithful(offered + [pf], stored + [pf])
  {
    Pushed(offered, pf);
    Pushed(stored, pf);
    forall key | key != pf.key
      ensures LastOf(offered + [pf], key) == LastOf(offered, key) &&
      LastOf(stored + [pf], key) == LastOf(stored, key) {}
  }

  lemma Fresh()
    ensures Faithful([], [])
  {}

  lemma {:induction false} PrefixAscending(pfs: seq<PriceFeed>, n: nat)
    requires n <= |pfs| && Ascending(pfs)
    ensures Ascending(pfs[..n])
    decreases |pfs| - n
  {
    if n < |pfs| {
      PrefixAscending(pfs, n + 1);
      assert pfs[..n + 1] == pfs[..n] + [pfs[n]];
      Pushed(pfs[..n], pfs[n]);
    } else {
      assert pfs[..n] == pfs;
    }
  }

  class PrevPriceStore {
    /** The last offer of each feed. */
    var prevPriceFeeds: map<Key, PriceFeed>
    /** The offers that were let through to the blocks. */
    var stored: seq<PriceFeed>
    ghost var offered: seq<PriceFeed>

    ghost predicate Valid()
      reads this
    {
      Faithful(offered, stored) &&
        forall key :: LastOf(offered, key) == if key in prevPriceFeeds then Some(prevPriceFeeds[key]) else None
    }

    constructor ()
      ensures Valid() && offered == [] && stored == []
    {
      prevPriceFeeds, stored, offered := map[], [], [];
      new;
      Fresh();
    }

    /** Whether the offer is new; nothing when it is not later than the last one, which stops the program. */
    method CanAddPF(pf: PriceFeed) returns (r: Option<bool>)
      requires Valid()
      modifies this
      ensures r.None? <==> !Later(old(offered), pf)
      ensures r.None? ==> Valid() && offered == old(offered) && stored == old(stored)
      ensures r.Some? ==> Valid() && offered == old(offered) + [pf]
      ensures r.Some? ==> stored == if r.value then old(stored) + [pf] else old(stored)
    {
      if pf.key in prevPriceFeeds {
        var prev := prevPriceFeeds[pf.key];
        if prev.block >= pf.block { return None; }
        if prev.price == pf.price {
          Dropped(offered, stored, pf);
          Offer(pf);
          return Some(false);
        }
      }
      Stored(offered, stored, pf);
      stored := stored + [pf];
      Offer(pf);
      r := Some(true);
    }

    method Offer(pf: PriceFeed)
      requires Faithful(offered + [pf], stored)
      requires forall key :: LastOf(offered, key) == if key in prevPriceFeeds then Some(prevPriceFeeds[key]) else None
      modifies this
      ensures Valid() && offered == old(offered) + [pf] && stored == old(stored)
    {
      Pushed(offered, pf);
      prevPriceFeeds := prevPriceFeeds[pf.key := pf];
      offered := offered + [pf];
    }

    /** Main result. A stream is accepted exactly when every feed ascends; then at every block every feed
        has the price last offered for it, and no stored price repeats the one before it. */
    method AddAll(pfs: seq<PriceFeed>) returns (ok: bool)
      requires Valid() && offered == []
      modifies this
      ensures ok <==> Ascending(pfs)
      ensures ok ==> SamePrices(pfs, stored) && NoRepeats(stored)
    {
      for i := 0 to |pfs|
        invariant Valid() && offered == pfs[..i]
      {
        assert pfs[..i + 1] == pfs[..i] + [pfs[i]];
        Pushed(pfs[..i], pfs[i]);
        var r := CanAddPF(pfs[i]);
        if r.None? {
          if Ascending(pfs) { PrefixAscending(pfs, i + 1); }
          return false;
        }
      }
      assert pfs[..|pfs|] == pfs;
      ok := true;
    }
  }
}
