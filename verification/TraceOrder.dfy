/** The depth-first listing of a call tree, which is how nodes report traces, can be rebuilt. */
module TraceOrder {

  import opened Wrappers
  import opened Calls
  import opened CallTree

  /** The action a call was made by. */
  function ActionOf(d: CallData): Action {
    Action(d.from, d.to, d.callerOp, d.input, if d.value.Some? then d.value.value else 0)
  }

  /** Static calls, and only those, have no value. */
  predicate Proper(t: Call)
    decreases t
  {
    t.data.callerOp.STATICCALL? == t.data.value.None? && forall i :: 0 <= i < |t.calls| ==> Proper(t.calls[i])
  }

  lemma ActionConverts(d: CallData)
    requires d.callerOp.STATICCALL? == d.value.None?
    ensures Convert(ActionOf(d)) == d
  {}

  function Preorder(t: Call, p: Path): seq<Entry>
    decreases t, |t.calls| + 1
  {
    [Entry(ActionOf(t.data), |t.calls|, p)] + PreorderBelow(t, p, |t.calls|)
  }

  function PreorderBelow(t: Call, p: Path, n: nat): seq<Entry>
    requires n <= |t.calls|
    decreases t, n
  {
    if n == 0 then [] else PreorderBelow(t, p, n - 1) + Preorder(t.calls[n - 1], p + [n - 1])
  }

  predicate Extends(q: Path, p: Path) { |p| <= |q| && q[..|p|] == p }

  ghost predicate Apart(es: seq<Entry>) {
    forall i, j :: 0 <= i < j < |es| ==> es[i].traceAddress != es[j].traceAddress
  }

  /** `es` lists the subtree `s`, which stands at `p`. */
  ghost predicate Lists(t: Call, s: Call, p: Path, es: seq<Entry>) {
    && es != [] && es[0].traceAddress == p && Apart(es)
    && (forall e :: e in es ==> Describes(e, t) && Extends(e.traceAddress, p))
    && (forall i :: 0 < i < |es| ==> ParentBefore(es, i))
    && (forall q :: At(s, q).Some? ==> Listed(es, |es|, p + q))
  }

  ghost predicate Below(e: Entry, p: Path, n: nat) {
    |p| < |e.traceAddress| && Extends(e.traceAddress, p) && e.traceAddress[|p|] < n
  }

  /** `es` lists what is below the first `n` children of `s`. */
  ghost predicate ListsBelow(t: Call, s: Call, p: Path, n: nat, es: seq<Entry>)
    requires n <= |s.calls|
  {
    && Apart(es)
    && (forall e :: e in es ==> Describes(e, t) && Below(e, p, n))
    && (forall i :: 0 <= i < |es| ==> TopOrParentBefore(es, i, p))
    && (forall k: nat, q :: k < n && At(s.calls[k], q).Some? ==> Listed(es, |es|, Child(p, k, q)))
  }

  function Child(p: Path, k: nat, q: Path): Path { p + ([k] + q) }

  ghost predicate TopOrParentBefore(es: seq<Entry>, i: nat, p: Path)
    requires i < |es|
  {
    es[i].traceAddress != [] && (Parent(es[i].traceAddress) == p || Listed(es, i, Parent(es[i].traceAddress)))
  }

  lemma ListedLeft(a: seq<Entry>, b: seq<Entry>, n: nat, m: nat, q: Path)
    requires n <= |a| && n <= m <= |a + b| && Listed(a, n, q)
    ensures Listed(a + b, m, q)
  {
    var i :| 0 <= i < n && a[i].traceAddress == q;
    assert (a + b)[i] == a[i];
  }

  lemma ListedRight(a: seq<Entry>, b: seq<Entry>, n: nat, q: Path)
    requires n <= |b| && Listed(b, n, q)
    ensures Listed(a + b, |a| + n, q)
  {
    var i :| 0 <= i < n && b[i].traceAddress == q;
    assert (a + b)[|a| + i] == b[i];
  }

  lemma ApartConcat(a: seq<Entry>, b: seq<Entry>)
    requires Apart(a) && Apart(b) && forall x, y :: x in a && y in b ==> x.traceAddress != y.traceAddress
    ensures Apart(a + b)
  {
    var c := a + b;
    forall i, j | 0 <= i < j < |c| ensures c[i].traceAddress != c[j].traceAddress {
      if i < |a| <= j { assert a[i] in a && b[j - |a|] in b; }
    }
  }

  /** An entry at or under the child `n` is below `p`, in that child. */
  lemma UnderChild(e: Entry, p: Path, n: nat)
    requires Extends(e.traceAddress, p + [n])
    ensures Below(e, p, n + 1) && e.traceAddress[|p|] == n
  {
    assert e.traceAddress[..|p|] == e.traceAddress[..|p + [n]|][..|p|];
    assert e.traceAddress[|p|] == e.traceAddress[..|p + [n]|][|p|];
  }

  lemma OrderConcat(a: seq<Entry>, b: seq<Entry>, p: Path, n: nat)
    requires forall i :: 0 <= i < |a| ==> TopOrParentBefore(a, i, p)
    requires b != [] && b[0].traceAddress == p + [n] && forall i :: 0 < i < |b| ==> ParentBefore(b, i)
    ensures forall i :: 0 <= i < |a + b| ==> TopOrParentBefore(a + b, i, p)
  {
    var c := a + b;
    forall i | 0 <= i < |c| ensures TopOrParentBefore(c, i, p) {
      if i < |a| {
        assert TopOrParentBefore(a, i, p) && c[i] == a[i];
        if Parent(a[i].traceAddress) != p { ListedLeft(a, b, i, i, Parent(a[i].traceAddress)); }
      } else if i == |a| {
        assert c[i] == b[0] && Parent(p + [n]) == p;
      } else {
        assert ParentBefore(b, i - |a|) && c[i] == b[i - |a|];
        ListedRight(a, b, i - |a|, Parent(b[i - |a|].traceAddress));
      }
    }
  }

  lemma OneChildMore(t: Call, s: Call, p: Path, n: nat, a: seq<Entry>, b: seq<Entry>)
    requires n < |s.calls| && ListsBelow(t, s, p, n, a) && Lists(t, s.calls[n], p + [n], b)
    ensures ListsBelow(t, s, p, n + 1, a + b)
  {
    forall e | e in b ensures Below(e, p, n + 1) && e.traceAddress[|p|] == n { UnderChild(e, p, n); }
    ApartConcat(a, b);
    OrderConcat(a, b, p, n);
    forall k: nat, q | k < n + 1 && At(s.calls[k], q).Some? ensures Listed(a + b, |a + b|, Child(p, k, q)) {
      if k < n {
        ListedLeft(a, b, |a|, |a + b|, Child(p, k, q));
      } else {
        assert Child(p, n, q) == p + [n] + q;
        ListedRight(a, b, |b|, p + [n] + q);
      }
    }
  }

  lemma WholeOrder(p: Path, head: Entry, kids: seq<Entry>)
    requires head.traceAddress == p && forall i :: 0 <= i < |kids| ==> TopOrParentBefore(kids, i, p)
    ensures forall i :: 0 < i < |[head] + kids| ==> ParentBefore([head] + kids, i)
  {
    var es := [head] + kids;
    forall i | 0 < i < |es| ensures ParentBefore(es, i) {
      assert TopOrParentBefore(kids, i - 1, p) && es[i] == kids[i - 1];
      if Parent(es[i].traceAddress) == p {
        assert es[0].traceAddress == p;
      } else {
        ListedRight([head], kids, i - 1, Parent(es[i].traceAddress));
      }
    }
  }

  lemma WholeListed(t: Call, s: Call, p: Path, head: Entry, kids: seq<Entry>)
    requires head.traceAddress == p && ListsBelow(t, s, p, |s.calls|, kids)
    ensures forall q :: At(s, q).Some? ==> Listed([head] + kids, |[head] + kids|, p + q)
  {
    var es := [head] + kids;
    forall q | At(s, q).Some? ensures Listed(es, |es|, p + q) {
      if q == [] {
        assert es[0].traceAddress == p + q;
      } else {
        assert q == [q[0]] + q[1..] && Child(p, q[0], q[1..]) == p + q;
        ListedRight([head], kids, |kids|, p + q);
      }
    }
  }

  lemma Whole(t: Call, s: Call, p: Path, kids: seq<Entry>)
    requires At(t, p) == Some(s) && Proper(s) && ListsBelow(t, s, p, |s.calls|, kids)
    ensures Lists(t, s, p, [Entry(ActionOf(s.data), |s.calls|, p)] + kids)
  {
    var head := Entry(ActionOf(s.data), |s.calls|, p);
    ActionConverts(s.data);
    ApartConcat([head], kids);
    WholeOrder(p, head, kids);
    WholeListed(t, s, p, head, kids);
  }

  lemma {:induction false} PreorderLists(t: Call, s: Call, p: Path)
    requires At(t, p) == Some(s) && Proper(s)
    ensures Lists(t, s, p, Preorder(s, p))
    decreases s, |s.calls| + 1
  {
    PreorderListsBelow(t, s, p, |s.calls|);
    Whole(t, s, p, PreorderBelow(s, p, |s.calls|));
  }

  lemma {:induction false} PreorderListsBelow(t: Call, s: Call, p: Path, n: nat)
    requires At(t, p) == Some(s) && Proper(s) && n <= |s.calls|
    ensures ListsBelow(t, s, p, n, PreorderBelow(s, p, n))
    decreases s, n
  {
    if n > 0 {
      PreorderListsBelow(t, s, p, n - 1);
      AtStep(t, p, n - 1);
      PreorderLists(t, s.calls[n - 1], p + [n - 1]);
      OneChildMore(t, s, p, n - 1, PreorderBelow(s, p, n - 1), Preorder(s.calls[n - 1], p + [n - 1]));
    }
  }

  /** The depth-first listing of any tree is one that the conversion accepts. */
  lemma PreorderFlattens(t: Call)
    requires Proper(t)
    ensures Flattening(t, Preorder(t, []))
  {
    PreorderLists(t, t, []);
    forall q | At(t, q).Some? ensures Listed(Preorder(t, []), |Preorder(t, [])|, q) { assert [] + q == q; }
  }

  /** Round trip for every tree: list it depth first, rebuild it, and get it back. */
  method RebuildPreorder(t: Call) returns (root: CallNode, ghost nodes: set<CallNode>)
    requires Proper(t)
    ensures Represents(root, t, nodes) && fresh(nodes)
  {
    PreorderFlattens(t);
    root, nodes := ConvertToTenderlyTrace(t, Preorder(t, []));
  }
}
