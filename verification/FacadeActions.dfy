/** Saving the facade actions of a transaction: the loops around `ExecuteOrders`. */
module FacadeActions {
  import opened Wrappers
  import opened Operations
  import opened ExecuteOrders
  import opened MulticallMatch

  predicate Sorted(ps: seq<Params>) { forall i, j :: 0 <= i < j < |ps| ==> ps[i].index <= ps[j].index }

  /** A main call of the trace, with the signatures of its multicalls; a length is given only in tests. */
  datatype TracedCall = TracedCall(name: CallName, testLen: nat, calls: seq<Signature>)

  /** The event a main call emits. */
  function MainEvent(name: CallName): Action {
    match name
    case FacadeMulticall => MultiCallStarted
    case FacadeOpenMulticall => OpenCreditAccount
    case FacadeLiquidate => LiquidateCreditAccount
    case FacadeLiquidateExpired => LiquidateCreditAccount
    case FacadeCloseAccount => CloseCreditAccount
  }

  function EventsOf(ops: seq<Operation>): seq<Action> { seq(|ops|, i requires 0 <= i < |ops| => ops[i].action) }

  /** The action is that of the call: same main event, and multicalls that match its events. */
  ghost predicate Agrees(a: FacadeAction, call: TracedCall) {
    && (match call.name
        case FacadeMulticall => a.data.action == MultiCallStarted
        case FacadeOpenMulticall => a.data.action == OpenCreditAccount
        case FacadeLiquidate => a.data.action == LiquidateCreditAccount
        case FacadeLiquidateExpired => a.data.action == LiquidateCreditAccount
        case FacadeCloseAccount => a.data.action == CloseCreditAccount)
    && Verdict(call.testLen, call.calls, EventsOf(a.multicall)) == Some(true)
  }

  ghost predicate AllAgree(actions: seq<FacadeAction>, calls: seq<TracedCall>) {
    |actions| <= |calls| && forall i :: 0 <= i < |actions| ==> Agrees(actions[i], calls[i])
  }

  method Check(a: FacadeAction, call: TracedCall) returns (ok: bool)
    ensures ok <==> Agrees(a, call)
  {
    if MainEvent(call.name) != a.data.action { return false; }
    var same := SameMulticallLenAsEvents(call.testLen, call.calls, EventsOf(a.multicall));
    ok := same == Some(true);
  }

  /** The execute orders of all actions, in order, unless an action disagrees with its call, which stops
      the program. */
  method CollectParams(actions: seq<FacadeAction>, calls: seq<TracedCall>) returns (r: Option<seq<Params>>)
    ensures r.Some? <==> AllAgree(actions, calls)
    ensures r.Some? ==> r.value == OrdersOf(actions)
  {
    var ps: seq<Params> := [];
    var i := 0;
    assert actions[0..] == actions;
    while i < |actions|
      invariant 0 <= i <= |actions| && i <= |calls| && forall j :: 0 <= j < i ==> Agrees(actions[j], calls[j])
      invariant ps + OrdersOf(actions[i..]) == OrdersOf(actions)
    {
      if i >= |calls| { return None; }
      var ok := Check(actions[i], calls[i]);
      if !ok { return None; }
      assert actions[i..][0] == actions[i] && actions[i..][1..] == actions[i + 1..];
      var orders := CollectFrom(actions[i]);
      ps := ps + orders;
      i := i + 1;
    }
    assert actions[i..] == [];
    r := Some(ps);
  }

  method CollectFrom(action: FacadeAction) returns (ps: seq<Params>)
    ensures ps == OrdersIn(action.data, action.multicall)
  {
    ps := [];
    var events := action.multicall;
    var i := 0;
    assert events[0..] == events;
    while i < |events|
      invariant 0 <= i <= |events|
      invariant ps + OrdersIn(action.data, events[i..]) == OrdersIn(action.data, events)
    {
      assert events[i..][0] == events[i] && events[i..][1..] == events[i + 1..];
      if events[i].action == ExecuteOrder {
        ps := ps + [ParamsFor(action.data, events[i])];
      }
      i := i + 1;
    }
    assert events[i..] == [];
  }

  method SortByIndex(ps: seq<Params>) returns (sorted: seq<Params>)
    ensures Sorted(sorted) && multiset(sorted) == multiset(ps)
  {
    sorted := [];
    var i := 0;
    while i < |ps|
      invariant 0 <= i <= |ps|
      invariant Sorted(sorted) && multiset(sorted) == multiset(ps[..i])
    {
      sorted := Insert(sorted, ps[i]);
      assert ps[..i + 1] == ps[..i] + [ps[i]];
      i := i + 1;
    }
    assert ps[..i] == ps;
  }

  method Insert(ps: seq<Params>, x: Params) returns (r: seq<Params>)
    requires Sorted(ps)
    ensures Sorted(r) && multiset(r) == multiset(ps) + multiset{x}
  {
    var k := |ps|;
    while k > 0 && ps[k - 1].index > x.index
      invariant 0 <= k <= |ps|
      invariant forall j :: k <= j < |ps| ==> ps[j].index > x.index
    {
      k := k - 1;
    }
    r := ps[..k] + [x] + ps[k..];
    InsertAt(ps, k, x);
  }

  lemma InsertAt(ps: seq<Params>, k: nat, x: Params)
    requires Sorted(ps) && k <= |ps|
    requires k > 0 ==> ps[k - 1].index <= x.index
    requires k < |ps| ==> x.index < ps[k].index
    ensures Sorted(ps[..k] + [x] + ps[k..]) && multiset(ps[..k] + [x] + ps[k..]) == multiset(ps) + multiset{x}
  {
    SortedAround(ps[..k], x, ps[k..]);
    SameElements(ps, k, x);
  }

  lemma SameElements(ps: seq<Params>, k: nat, x: Params)
    requires k <= |ps|
    ensures multiset(ps[..k] + [x] + ps[k..]) == multiset(ps) + multiset{x}
  {
    assert ps == ps[..k] + ps[k..];
  }

  lemma SortedAround(a: seq<Params>, x: Params, b: seq<Params>)
    requires Sorted(a) && Sorted(b)
    requires forall y :: y in a ==> y.index <= x.index
    requires forall y :: y in b ==> x.index <= y.index
    ensures Sorted(a + [x] + b)
  {
    SortedConcat(a, [x]);
    SortedConcat(a + [x], b);
  }

  lemma SortedConcat(a: seq<Params>, b: seq<Params>)
    requires Sorted(a) && Sorted(b)
    requires forall y, z :: y in a && z in b ==> y.index <= z.index
    ensures Sorted(a + b)
  {}

  /** Attaches the parsed calls to their parameters. */
  function Attach(ps: seq<Params>, calls: seq<nat>): seq<Parsed>
    requires |calls| == |ps|
  {
    seq(|ps|, i requires 0 <= i < |ps| => Parsed(ps[i], calls[i]))
  }

  method SplitOrders(zs: seq<Parsed>, others: seq<Params>) returns (saved: seq<Parsed>, rest: seq<Parsed>)
    ensures (saved, rest) == Split(zs, others)
  {
    saved, rest := [], [];
    var i, n := 0, 0;
    assert zs[0..] == zs && others[0..] == others;
    while i < |zs|
      invariant 0 <= i <= |zs| && 0 <= n <= |others|
      invariant saved + Split(zs[i..], others[n..]).0 == Split(zs, others).0
      invariant rest + Split(zs[i..], others[n..]).1 == Split(zs, others).1
    {
      assert zs[i..][0] == zs[i] && zs[i..][1..] == zs[i + 1..];
      if n < |others| && zs[i].params.index == others[n].index {
        assert others[n..][0] == others[n] && others[n..][1..] == others[n + 1..];
        saved := saved + [zs[i]];
        n := n + 1;
      } else {
        rest := rest + [zs[i]];
      }
      i := i + 1;
    }
    assert zs[i..] == [] && saved + [] == saved && rest + [] == rest;
  }

  method RejoinAction(events: seq<Operation>, rest: seq<Parsed>) returns (r: Option<(seq<Operation>, seq<Parsed>)>)
    ensures r == RejoinEvents(events, rest)
  {
    var i, n := 0, 0;
    var new_: seq<Operation> := [];
    assert events[0..] == events && rest[0..] == rest;
    PutNothing(RejoinEvents(events, rest));
    while i < |events|
      invariant 0 <= i <= |events| && 0 <= n <= |rest|
      invariant RejoinEvents(events, rest) == Put(new_, RejoinEvents(events[i..], rest[n..]))
    {
      assert events[i..][0] == events[i] && events[i..][1..] == events[i + 1..];
      if events[i].action == ExecuteOrder {
        if n >= |rest| || rest[n].params.index != events[i].logId {
          return None;
        }
        assert rest[n..][0] == rest[n] && rest[n..][1..] == rest[n + 1..];
        PutOne(new_, ToOperation(rest[n]), RejoinEvents(events[i + 1..], rest[n + 1..]));
        new_ := new_ + [ToOperation(rest[n])];
        n := n + 1;
      } else {
        PutOne(new_, events[i], RejoinEvents(events[i + 1..], rest[n..]));
        new_ := new_ + [events[i]];
      }
      i := i + 1;
    }
    assert events[i..] == [];
    assert new_ + [] == new_;
    return Some((new_, rest[n..]));
  }

  function Put(done: seq<Operation>, r: Option<(seq<Operation>, seq<Parsed>)>): Option<(seq<Operation>, seq<Parsed>)> {
    if r.Some? then Some((done + r.value.0, r.value.1)) else None
  }

  lemma PutNothing(r: Option<(seq<Operation>, seq<Parsed>)>)
    ensures Put([], r) == r
  {
    if r.Some? { assert [] + r.value.0 == r.value.0; }
  }

  lemma PutOne(done: seq<Operation>, x: Operation, r: Option<(seq<Operation>, seq<Parsed>)>)
    ensures Put(done + [x], r) == Put(done, Put([x], r))
  {
    if r.Some? { assert done + ([x] + r.value.0) == done + [x] + r.value.0; }
  }

  method RejoinActions(actions: seq<FacadeAction>, rest: seq<Parsed>) returns (r: Option<seq<FacadeAction>>)
    ensures r == Rejoin(actions, rest)
  {
    var left, i := rest, 0;
    var done: seq<FacadeAction> := [];
    assert actions[0..] == actions;
    if Rejoin(actions, rest).Some? { assert [] + Rejoin(actions, rest).value == Rejoin(actions, rest).value; }
    while i < |actions|
      invariant 0 <= i <= |actions|
      invariant Rejoin(actions, rest) ==
                (match Rejoin(actions[i..], left) case None => None case Some(v) => Some(done + v))
    {
      assert actions[i..][0] == actions[i] && actions[i..][1..] == actions[i + 1..];
      var events := RejoinAction(actions[i].multicall, left);
      if events.None? {
        return None;
      }
      left := events.value.1;
      var action := actions[i].(multicall := events.value.0);
      if Rejoin(actions[i + 1..], left).Some? {
        assert done + ([action] + Rejoin(actions[i + 1..], left).value) ==
               done + [action] + Rejoin(actions[i + 1..], left).value;
      }
      done := done + [action];
      i := i + 1;
    }
    assert actions[i..] == [];
    assert done + [] == done;
    return Some(done);
  }

  lemma {:induction false} OnlyOnce(ps: seq<Params>, x: Params)
    requires Ascending(ps)
    ensures multiset(ps)[x] <= 1
    decreases |ps|
  {
    if ps != [] {
      assert ps == [ps[0]] + ps[1..];
      TailIsAscending(ps);
      OnlyOnce(ps[1..], x);
      assert ps[0] !in ps[1..];
    }
  }

  lemma Twice(ps: seq<Params>, i: nat, j: nat)
    requires i < j < |ps| && ps[i] == ps[j]
    ensures multiset(ps)[ps[i]] >= 2
  {
    assert ps == ps[..j] + ps[j..];
    assert ps[i] in ps[..j] && ps[j] in ps[j..];
  }

  /** Sorting two ascending lists without a common index leaves no ties. */
  lemma SortedIsAscending(ps: seq<Params>, a: seq<Params>, b: seq<Params>)
    requires Sorted(ps) && Merges(ps, a, b) && Ascending(a) && Ascending(b) && Apart(a, b)
    ensures Ascending(ps)
  {
    forall i, j | 0 <= i < j < |ps| ensures ps[i].index != ps[j].index {
      assert ps[i] in multiset(ps) && ps[j] in multiset(ps);
      if ps[i] == ps[j] {
        Twice(ps, i, j);
        OnlyOnce(a, ps[i]);
        OnlyOnce(b, ps[i]);
      }
    }
  }

  /** One parsed call for each parameter, whatever the trace. */
  ghost predicate ParsesAll(parse: seq<Params> -> seq<nat>) { forall ps :: |parse(ps)| == |ps| }

  /** The operations of the orders outside multicalls. */
  method ToOperations(zs: seq<Parsed>) returns (ops: seq<Operation>)
    ensures |ops| == |zs|
    ensures forall i :: 0 <= i < |zs| ==>
              var p := zs[i].params;
              ops[i] == Operation(DappCall(zs[i].call), p.index, p.session, p.borrower, p.protocol)
  {
    ops := [];
    for i := 0 to |zs|
      invariant |ops| == i
      invariant forall j :: 0 <= j < i ==>
                  var p := zs[j].params;
                  ops[j] == Operation(DappCall(zs[j].call), p.index, p.session, p.borrower, p.protocol)
    {
      ops := ops + [ToOperation(zs[i])];
    }
  }

  /** What is saved: the operations of the orders outside multicalls, and the actions with their orders
      resolved; `params` are the orders as they were given to the parser. */
  datatype Saved = Saved(orders: seq<Operation>, actions: seq<FacadeAction>, params: seq<Params>)

  /** Some order has these parameters, and the call parsed at its place gives the operation. */
  ghost predicate FromCall(params: seq<Params>, calls: seq<nat>, p: Params, op: Operation)
    requires |calls| == |params|
  {
    exists j :: 0 <= j < |params| && params[j] == p &&
                op == Operation(DappCall(calls[j]), p.index, p.session, p.borrower, p.protocol)
  }

  /** Every inner execute order has become the operation of the call parsed at its place, with the event's
      log id and dapp and the main action's session and borrower; nothing else has changed. */
  ghost predicate InnerSaved(was: FacadeAction, now: FacadeAction, params: seq<Params>, calls: seq<nat>)
    requires |calls| == |params|
  {
    && now == was.(multicall := now.multicall) && |now.multicall| == |was.multicall|
    && forall i :: 0 <= i < |was.multicall| ==>
         var event := was.multicall[i];
         if event.action == ExecuteOrder
         then FromCall(params, calls, Params(was.data.session, event.dapp, was.data.borrower, event.logId),
           now.multicall[i])
         else now.multicall[i] == event
  }

  ghost predicate AllSaved(actions: seq<FacadeAction>, others: seq<Params>, saved: Saved, calls: seq<nat>) {
    && |calls| == |saved.params| && Ascending(saved.params)
    && |saved.orders| == |others| && |saved.actions| == |actions|
    && (forall i :: 0 <= i < |others| ==> FromCall(saved.params, calls, others[i], saved.orders[i]))
    && (forall i :: 0 <= i < |actions| ==> InnerSaved(actions[i], saved.actions[i], saved.params, calls))
  }

  lemma CallOf(ps: seq<Params>, calls: seq<nat>, z: Parsed, op: Operation)
    requires |calls| == |ps| && z in Attach(ps, calls)
    requires op == Operation(DappCall(z.call), z.params.index, z.params.session, z.params.borrower, z.params.protocol)
    ensures FromCall(ps, calls, z.params, op)
  {
    var j :| 0 <= j < |ps| && Attach(ps, calls)[j] == z;
  }

  lemma InnerIsSaved(was: FacadeAction, now: FacadeAction, ps: seq<Params>, calls: seq<nat>)
    requires |calls| == |ps| && now == was.(multicall := now.multicall)
    requires Resolved(was.data, was.multicall, now.multicall, Attach(ps, calls))
    ensures InnerSaved(was, now, ps, calls)
  {
    forall i | 0 <= i < |was.multicall| && was.multicall[i].action == ExecuteOrder
      ensures var event := was.multicall[i];
              FromCall(ps, calls, Params(was.data.session, event.dapp, was.data.borrower, event.logId),
                now.multicall[i])
    {
      var z :| z in Attach(ps, calls) && Replaces(was.data, was.multicall[i], now.multicall[i], z);
      CallOf(ps, calls, z, now.multicall[i]);
    }
  }

  lemma SavedIs(actions: seq<FacadeAction>, others: seq<Params>, saved: Saved, calls: seq<nat>, zs: seq<Parsed>,
                outer: seq<Parsed>)
    requires |calls| == |saved.params| && zs == Attach(saved.params, calls) && Ascending(saved.params)
    requires AllResolved(actions, saved.actions, zs)
    requires ParamsIn(outer) == others && |saved.orders| == |outer| && forall z :: z in outer ==> z in zs
    requires forall i :: 0 <= i < |outer| ==>
               var p := outer[i].params;
               saved.orders[i] == Operation(DappCall(outer[i].call), p.index, p.session, p.borrower, p.protocol)
    ensures AllSaved(actions, others, saved, calls)
  {
    forall i | 0 <= i < |others| ensures FromCall(saved.params, calls, others[i], saved.orders[i]) {
      assert outer[i] in outer && others[i] == outer[i].params;
      CallOf(saved.params, calls, outer[i], saved.orders[i]);
    }
    forall i | 0 <= i < |actions| ensures InnerSaved(actions[i], saved.actions[i], saved.params, calls) {
      InnerIsSaved(actions[i], saved.actions[i], saved.params, calls);
    }
  }

  /** The whole pass. It stops if and only if some action disagrees with its call; the index mismatch is
      never reached. */
  method ValidateAndSave(actions: seq<FacadeAction>, calls: seq<TracedCall>, others: seq<Params>,
                         parse: seq<Params> -> seq<nat>)
    returns (r: Option<Saved>)
    requires ParsesAll(parse)
    requires Ascending(OrdersOf(actions)) && Ascending(others) && Apart(OrdersOf(actions), others)
    ensures r.Some? <==> AllAgree(actions, calls)
    ensures r.Some? ==> AllSaved(actions, others, r.value, parse(r.value.params))
    ensures r.Some? ==> Merges(r.value.params, OrdersOf(actions), others)
  {
    var collected := CollectParams(actions, calls);
    if collected.None? { return None; }
    var inner := collected.value;
    var ps := SortByIndex(inner + others);
    SortedIsAscending(ps, inner, others);
    var zs := Attach(ps, parse(ps));
    assert ParamsIn(zs) == ps;
    var outer, rest := SplitOrders(zs, others);
    OrdersResolved(actions, others, zs);
    SplitKeeps(zs, others);
    var result := RejoinActions(actions, rest);
    var orders := ToOperations(outer);
    var saved := Saved(orders, result.value, ps);
    SavedIs(actions, others, saved, parse(ps), zs, outer);
    r := Some(saved);
  }
}
