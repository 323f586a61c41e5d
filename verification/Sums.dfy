/** Finite sums over sets, used wherever the program walks a Go map in an unspecified order. */
module Sums {

  ghost function SumOver<K(!new)>(s: set<K>, f: K -> int): int
  {
    if s == {} then 0 else
      var x :| x in s;
      f(x) + SumOver(s - {x}, f)
  }

  /** The order in which elements are picked does not matter. */
  lemma {:induction false} SumRemove<K(!new)>(s: set<K>, x: K, f: K -> int)
    requires x in s
    ensures SumOver(s, f) == f(x) + SumOver(s - {x}, f)
    decreases s
  {
    var y :| y in s && SumOver(s, f) == f(y) + SumOver(s - {y}, f);
    if y != x {
      SumRemove(s - {y}, x, f);
      SumRemove(s - {x}, y, f);
      assert s - {y} - {x} == s - {x} - {y};
    }
  }

  lemma SumInsert<K(!new)>(s: set<K>, x: K, f: K -> int)
    requires x !in s
    ensures SumOver(s + {x}, f) == SumOver(s, f) + f(x)
  {
    SumRemove(s + {x}, x, f);
    assert s + {x} - {x} == s;
  }

  lemma {:induction false} SumSame<K(!new)>(s: set<K>, f: K -> int, g: K -> int)
    requires forall x :: x in s ==> f(x) == g(x)
    ensures SumOver(s, f) == SumOver(s, g)
    decreases s
  {
    if s != {} {
      var x :| x in s;
      SumRemove(s, x, f);
      SumRemove(s, x, g);
      SumSame(s - {x}, f, g);
    }
  }

  lemma {:induction false} SumPlus<K(!new)>(s: set<K>, f: K -> int, g: K -> int, h: K -> int)
    requires forall x :: x in s ==> h(x) == f(x) + g(x)
    ensures SumOver(s, h) == SumOver(s, f) + SumOver(s, g)
    decreases s
  {
    if s != {} {
      var x :| x in s;
      SumRemove(s, x, f);
      SumRemove(s, x, g);
      SumRemove(s, x, h);
      SumPlus(s - {x}, f, g, h);
    }
  }

  /** Elements on which `f` vanishes do not contribute. */
  lemma {:induction false} SumSubset<K(!new)>(small: set<K>, big: set<K>, f: K -> int)
    requires small <= big
    requires forall x :: x in big && x !in small ==> f(x) == 0
    ensures SumOver(small, f) == SumOver(big, f)
    decreases big
  {
    if small != big {
      var x :| x in big && x !in small;
      SumRemove(big, x, f);
      SumSubset(small, big - {x}, f);
    } else {
      assert small == big;
    }
  }

  /** A sum of non-negative terms grows with the set. */
  lemma {:induction false} SumMonotone<K(!new)>(small: set<K>, big: set<K>, f: K -> int)
    requires small <= big
    requires forall x :: x in big ==> 0 <= f(x)
    ensures 0 <= SumOver(small, f) <= SumOver(big, f)
    decreases big
  {
    if big != {} {
      var x :| x in big;
      SumRemove(big, x, f);
      if x in small {
        SumRemove(small, x, f);
        SumMonotone(small - {x}, big - {x}, f);
      } else {
        SumMonotone(small, big - {x}, f);
      }
    }
  }

  /** The same for real terms. */
  ghost function RealSumOver<K(!new)>(s: set<K>, f: K -> real): real
  {
    if s == {} then 0.0 else
      var x :| x in s;
      f(x) + RealSumOver(s - {x}, f)
  }

  lemma {:induction false} RealSumRemove<K(!new)>(s: set<K>, x: K, f: K -> real)
    requires x in s
    ensures RealSumOver(s, f) == f(x) + RealSumOver(s - {x}, f)
    decreases s
  {
    var y :| y in s && RealSumOver(s, f) == f(y) + RealSumOver(s - {y}, f);
    if y != x {
      RealSumRemove(s - {y}, x, f);
      RealSumRemove(s - {x}, y, f);
      assert s - {y} - {x} == s - {x} - {y};
    }
  }
}
