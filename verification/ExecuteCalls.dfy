/** Finding the adapter calls of a transaction: traversal of a call tree against a list of parameters. */
module ExecuteCalls {

  import opened Wrappers
  import opened Calls

  /** What is known of an ExecuteOrder event: the dapp it calls and the credit account it acts for. */
  datatype ExecuteParams = ExecuteParams(protocol: nat, creditAccount: nat)

  const EXECUTE_ORDER := "0x6ce4074a"

  predicate Enters(c: Call) { c.data.callerOp in {CALL, DELEGATECALL, JUMP} }

  predicate IsExecuteOrder(c: Call, manager: nat) {
    c.data.to == manager && |c.data.input| >= 10 && c.data.input[..10] == EXECUTE_ORDER
  }

  predicate IsDappCall(c: Call, dapp: nat) { Enters(c) && c.data.to == dapp }

  // ---------------------------------------------------------------------------------------------
  // Reference: nodes are named by paths; preorder is the lexicographic order of paths.

  predicate Before(p: Path, q: Path) {
    q != [] && (p == [] || p[0] < q[0] || (p[0] == q[0] && Before(p[1..], q[1..])))
  }

  /** The node at `p` is an executeOrder of the manager, every node down to it is entered by a call that
      may change state, and none above it is itself such an executeOrder. */
  predicate Outermost(c: Call, manager: nat, p: Path) {
    && At(c, p).Some? && Orders(At(c, p).value.data, manager)
    && (forall i :: 0 <= i <= |p| ==>
          At(c, p[..i]).Some? && At(c, p[..i]).value.data.callerOp in {CALL, DELEGATECALL, JUMP})
    && (forall i :: 0 <= i < |p| ==> At(c, p[..i]).Some? && !Orders(At(c, p[..i]).value.data, manager))
  }

  /** A call of executeOrder on the manager. */
  predicate Orders(d: CallData, manager: nat) { d.to == manager && |d.input| >= 10 && d.input[..10] == "0x6ce4074a" }

  predicate DappAt(c: Call, dapp: nat, p: Path) {
    At(c, p).Some? && At(c, p).value.data.callerOp in {CALL, DELEGATECALL, JUMP} && At(c, p).value.data.to == dapp
  }

  /** The preorder-first node that calls the dapp. */
  ghost predicate FirstDapp(c: Call, dapp: nat, p: Path) {
    DappAt(c, dapp, p) && forall q :: DappAt(c, dapp, q) ==> p == q || Before(p, q)
  }

  lemma PrefixChild(k: nat, p: Path, i: nat)
    requires i <= |p|
    ensures ([k] + p)[..i + 1] == [k] + p[..i]
  {}

  /** Below a node that is entered and is no executeOrder, being outermost is a matter of the child alone. */
  lemma OutermostChild(c: Call, manager: nat, k: nat, p: Path)
    requires Enters(c) && !IsExecuteOrder(c, manager)
    ensures Outermost(c, manager, [k] + p) <==> k < |c.calls| && Outermost(c.calls[k], manager, p)
  {
    var q := [k] + p;
    AtChild(c, k, p);
    assert q[..0] == [];
    if k < |c.calls| {
      forall i | 0 <= i <= |p| ensures At(c, q[..i + 1]) == At(c.calls[k], p[..i]) {
        AtChild(c, k, p[..i]);
        PrefixChild(k, p, i);
      }
      if Outermost(c, manager, q) {
        forall i | 0 <= i <= |p| ensures At(c.calls[k], p[..i]).Some? && Enters(At(c.calls[k], p[..i]).value) {
          assert At(c, q[..i + 1]).Some?;
        }
        forall i | 0 <= i < |p| ensures !IsExecuteOrder(At(c.calls[k], p[..i]).value, manager) {
          assert At(c, q[..i + 1]).Some?;
        }
      }
      if Outermost(c.calls[k], manager, p) {
        forall i | 0 <= i <= |q| ensures At(c, q[..i]).Some? &&
          Enters(At(c, q[..i]).value) { if i > 0 { assert At(c.calls[k], p[..i - 1]).Some?; } }
        forall i | 0 <= i < |q| ensures At(c, q[..i]).Some? &&
          !IsExecuteOrder(At(c, q[..i]).value, manager) { if i > 0 { assert At(c.calls[k], p[..i - 1]).Some?; } }
      }
    }
  }

  // ---------------------------------------------------------------------------------------------
  // The traversal order, and what it lists.

  /** The paths of the outermost executeOrder nodes, as the traversal meets them. */
  function Found(c: Call, manager: nat): seq<Path>
    decreases c, |c.calls| + 1
  {
    if !Enters(c) then [] else if IsExecuteOrder(c, manager) then [[]] else FoundIn(c, manager, |c.calls|)
  }

  /** Those below the first `n` children. */
  function FoundIn(c: Call, manager: nat, n: nat): seq<Path>
    requires n <= |c.calls|
    decreases c, n
  {
    if n == 0 then [] else FoundIn(c, manager, n - 1) + Under(n - 1, Found(c.calls[n - 1], manager))
  }

  function Under(k: nat, ps: seq<Path>): (r: seq<Path>)
    ensures |r| == |ps| && forall i :: 0 <= i < |r| ==> r[i] == [k] + ps[i]
  {
    seq(|ps|, i requires 0 <= i < |ps| => [k] + ps[i])
  }

  ghost predicate Ascending(ps: seq<Path>) { forall i, j :: 0 <= i < j < |ps| ==> Before(ps[i], ps[j]) }

  lemma UnderAscending(k: nat, ps: seq<Path>)
    requires Ascending(ps)
    ensures Ascending(Under(k, ps))
  {
    var r := Under(k, ps);
    forall i, j | 0 <= i < j < |r| ensures Before(r[i], r[j]) { assert r[i][1..] == ps[i] && r[j][1..] == ps[j]; }
  }

  lemma UnderMember(k: nat, ps: seq<Path>, p: Path)
    ensures p in Under(k, ps) <==> p != [] && p[0] == k && p[1..] in ps
  {
    var r := Under(k, ps);
    if p in r {
      var i :| 0 <= i < |r| && r[i] == p;
      assert p[1..] == ps[i];
    }
    if p != [] && p[0] == k && p[1..] in ps {
      var i :| 0 <= i < |ps| && ps[i] == p[1..];
      assert r[i] == p;
    }
  }

  lemma AscendingConcat(a: seq<Path>, b: seq<Path>)
    requires Ascending(a) && Ascending(b) && forall p, q :: p in a && q in b ==> Before(p, q)
    ensures Ascending(a + b)
  {
    var c := a + b;
    forall i, j | 0 <= i < j < |c| ensures Before(c[i], c[j]) {
      if j >= |a| && i < |a| { assert a[i] in a && b[j - |a|] in b; }
    }
  }

  /** The traversal lists exactly the outermost executeOrder nodes, in preorder, each once. */
  lemma {:induction false} FoundExact(c: Call, manager: nat)
    ensures Ascending(Found(c, manager)) && forall p :: p in Found(c, manager) <==> Outermost(c, manager, p)
    decreases c, |c.calls| + 1
  {
    var ps := Found(c, manager);
    forall p ensures p in ps <==> Outermost(c, manager, p) {
      assert p[..0] == [];
      if Enters(c) && !IsExecuteOrder(c, manager) {
        FoundInExact(c, manager, |c.calls|);
        if p != [] {
          assert p == [p[0]] + p[1..];
          OutermostChild(c, manager, p[0], p[1..]);
        }
      } else if Enters(c) && p == [] {
        assert ps[0] == p && At(c, p[..0]) == Some(c);
      }
    }
    if Enters(c) && !IsExecuteOrder(c, manager) { FoundInExact(c, manager, |c.calls|); }
  }

  /** The paths below one child. */
  lemma UnderExact(c: Call, manager: nat, k: nat, ps: seq<Path>)
    requires k < |c.calls| && Ascending(ps) && forall p :: p in ps <==> Outermost(c.calls[k], manager, p)
    ensures Ascending(Under(k, ps))
    ensures forall p :: p in Under(k, ps) <==> p != [] && p[0] == k && Outermost(c.calls[p[0]], manager, p[1..])
  {
    UnderAscending(k, ps);
    forall p ensures p in Under(k, ps) <==> p != [] && p[0] == k && Outermost(c.calls[p[0]], manager, p[1..]) {
      UnderMember(k, ps, p);
    }
  }

  lemma {:induction false} FoundInExact(c: Call, manager: nat, n: nat)
    requires n <= |c.calls|
    ensures Ascending(FoundIn(c, manager, n))
    ensures forall p :: p in FoundIn(c, manager, n) <==>
            p != [] && p[0] < n && Outermost(c.calls[p[0]], manager, p[1..])
    decreases c, n
  {
    if n > 0 {
      var b := Found(c.calls[n - 1], manager);
      FoundInExact(c, manager, n - 1);
      FoundExact(c.calls[n - 1], manager);
      UnderExact(c, manager, n - 1, b);
      ApartConcat(FoundIn(c, manager, n - 1), Under(n - 1, b), n - 1);
    }
  }

  lemma ApartConcat(a: seq<Path>, b: seq<Path>, k: nat)
    requires Ascending(a) && Ascending(b)
    requires (forall p :: p in a ==> p != [] && p[0] < k) && forall p :: p in b ==> p != [] && p[0] == k
    ensures Ascending(a + b)
  {
    AscendingConcat(a, b);
  }

  // ---------------------------------------------------------------------------------------------
  // The dapp call of an executeOrder.

  /** The input of the first dapp call, or none. */
  ghost predicate IsDapp(c: Call, dapp: nat, r: Option<string>) {
    if r.None? then forall p :: !DappAt(c, dapp, p)
    else exists p :: FirstDapp(c, dapp, p) && r.value == At(c, p).value.data.input
  }

  lemma BeforeIrreflexive(p: Path, q: Path)
    requires Before(p, q)
    ensures p != q && !Before(q, p)
    decreases |p|
  {
    if p != [] && p[0] == q[0] { BeforeIrreflexive(p[1..], q[1..]); }
  }

  /** There is at most one answer. */
  lemma DappUnique(c: Call, dapp: nat, r: Option<string>, s: Option<string>)
    requires IsDapp(c, dapp, r) && IsDapp(c, dapp, s)
    ensures r == s
  {
    if r.Some? && s.Some? {
      var p :| FirstDapp(c, dapp, p) && r.value == At(c, p).value.data.input;
      var q :| FirstDapp(c, dapp, q) && s.value == At(c, q).value.data.input;
      if p != q { BeforeIrreflexive(p, q); }
    }
  }

  lemma FirstIsRoot(c: Call, dapp: nat)
    requires IsDappCall(c, dapp)
    ensures FirstDapp(c, dapp, [])
  {
    assert At(c, []) == Some(c);
  }

  lemma FirstInChild(c: Call, dapp: nat, k: nat, p: Path)
    requires !IsDappCall(c, dapp) && k < |c.calls| && FirstDapp(c.calls[k], dapp, p)
    requires forall i, q :: 0 <= i < k ==> !DappAt(c.calls[i], dapp, q)
    ensures FirstDapp(c, dapp, [k] + p) && At(c, [k] + p) == At(c.calls[k], p)
  {
    AtChild(c, k, p);
    forall q | DappAt(c, dapp, q) ensures [k] + p == q || Before([k] + p, q) {
      assert q != [];
      assert q == [q[0]] + q[1..];
      AtChild(c, q[0], q[1..]);
      assert DappAt(c.calls[q[0]], dapp, q[1..]);
      assert ([k] + p)[1..] == p;
    }
  }

  lemma NoDapp(c: Call, dapp: nat)
    requires !IsDappCall(c, dapp) && forall i, q :: 0 <= i < |c.calls| ==> !DappAt(c.calls[i], dapp, q)
    ensures forall p :: !DappAt(c, dapp, p)
  {
    forall p ensures !DappAt(c, dapp, p) {
      if p != [] {
        assert p == [p[0]] + p[1..];
        AtChild(c, p[0], p[1..]);
        if p[0] < |c.calls| { assert !DappAt(c.calls[p[0]], dapp, p[1..]); }
      }
    }
  }

  method DappCall(call: Call, dapp: nat) returns (r: Option<string>)
    ensures IsDapp(call, dapp, r)
    decreases call
  {
    if call.data.callerOp in {CALL, DELEGATECALL, JUMP} && call.data.to == dapp {
      FirstIsRoot(call, dapp);
      return Some(call.data.input);
    }
    for i := 0 to |call.calls|
      invariant forall j, q :: 0 <= j < i ==> !DappAt(call.calls[j], dapp, q)
    {
      var known := DappCall(call.calls[i], dapp);
      if known.Some? {
        ghost var p :| FirstDapp(call.calls[i], dapp, p) && known.value == At(call.calls[i], p).value.data.input;
        FirstInChild(call, dapp, i, p);
        return known;
      }
    }
    NoDapp(call, dapp);
    r := None;
  }

  // ---------------------------------------------------------------------------------------------
  // Pairing nodes with parameters.

  /** `rs` resolves the nodes at `ps`, in order, against the parameters from `k` on, as far as those go. */
  ghost predicate Resolves(c: Call, ps: seq<Path>, params: seq<ExecuteParams>, k: nat, rs: seq<Option<string>>) {
    && (k <= |params| ==> |rs| == Least(|ps|, |params| - k)) && (k > |params| ==> rs == [])
    && forall i :: 0 <= i < |rs| ==> At(c, ps[i]).Some? && IsDapp(At(c, ps[i]).value, params[k + i].protocol, rs[i])
  }

  function Least(a: int, b: int): int { if a <= b then a else b }

  lemma ResolvesUnder(c: Call, n: nat, ps: seq<Path>, params: seq<ExecuteParams>, k: nat, rs: seq<Option<string>>)
    requires n < |c.calls| && Resolves(c.calls[n], ps, params, k, rs)
    ensures Resolves(c, Under(n, ps), params, k, rs)
  {
    forall i | 0 <= i < |rs| ensures At(c, Under(n, ps)[i]) == At(c.calls[n], ps[i]) { AtChild(c, n, ps[i]); }
  }

  lemma ResolvesConcat(c: Call, a: seq<Path>, b: seq<Path>, params: seq<ExecuteParams>, k: nat,
                       rs: seq<Option<string>>, ss: seq<Option<string>>)
    requires Resolves(c, a, params, k, rs) && Resolves(c, b, params, k + |rs|, ss)
    ensures Resolves(c, a + b, params, k, rs + ss)
  {
    var ps, ts := a + b, rs + ss;
    forall i | 0 <= i < |ts|
      ensures At(c, ps[i]).Some? && IsDapp(At(c, ps[i]).value, params[k + i].protocol, ts[i])
    {
      if i < |rs| { assert ts[i] == rs[i] && ps[i] == a[i]; }
      else { assert ts[i] == ss[i - |rs|] && |rs| == |a| && ps[i] == b[i - |rs|]; }
    }
  }

  class ExecuteFilter {
    const paramsList: seq<ExecuteParams>
    const creditManager: nat
    var paramsIndex: nat

    constructor (paramsList: seq<ExecuteParams>, creditManager: nat)
      ensures this.paramsList == paramsList && this.creditManager == creditManager && paramsIndex == 0
    {
      this.paramsList, this.creditManager, paramsIndex := paramsList, creditManager, 0;
    }

    /** The outermost executeOrder nodes in preorder, each resolved against the next parameter, until
        either run out; the index counts the parameters used. */
    method GetExecuteCalls(call: Call) returns (calls: seq<Option<string>>)
      modifies this
      ensures Resolves(call, Found(call, creditManager), paramsList, old(paramsIndex), calls)
      ensures paramsIndex == old(paramsIndex) + |calls|
      decreases call
    {
      calls := [];
      if paramsIndex >= |paramsList| { return; }
      var ep := paramsList[paramsIndex];
      var data := call.data;
      if data.callerOp in {CALL, DELEGATECALL, JUMP} {
        if creditManager == data.to && |data.input| >= 10 && data.input[..10] == EXECUTE_ORDER {
          var dapp := DappCall(call, ep.protocol);
          assert At(call, []) == Some(call);
          calls := [dapp];
          paramsIndex := paramsIndex + 1;
        } else {
          calls := Below(call);
        }
      }
    }

    method Below(call: Call) returns (calls: seq<Option<string>>)
      modifies this
      ensures Resolves(call, FoundIn(call, creditManager, |call.calls|), paramsList, old(paramsIndex), calls)
      ensures paramsIndex == old(paramsIndex) + |calls|
      decreases call, 0
    {
      calls := [];
      for i := 0 to |call.calls|
        invariant Resolves(call, FoundIn(call, creditManager, i), paramsList, old(paramsIndex), calls)
        invariant paramsIndex == old(paramsIndex) + |calls|
      {
        var more := GetExecuteCalls(call.calls[i]);
        ResolvesUnder(call, i, Found(call.calls[i], creditManager), paramsList, old(paramsIndex) + |calls|, more);
        ResolvesConcat(call, FoundIn(call, creditManager, i), Under(i, Found(call.calls[i], creditManager)),
          paramsList, old(paramsIndex), calls, more);
        calls := calls + more;
      }
    }
  }
}
