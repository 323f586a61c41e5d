/** Resolving the execute orders of a transaction: parameters are collected from the grouped
    actions and from outside any multicall, sorted, parsed, split again and put back. */
module ExecuteOrders {
  import opened Wrappers
  import opened Operations

  datatype Params = Params(session: SessionId, protocol: Address, borrower: Address, index: nat)

  /** A parameter with the call the trace parser found for it. */
  datatype Parsed = Parsed(params: Params, call: nat)

  function ToOperation(z: Parsed): Operation {
    Operation(DappCall(z.call), z.params.index, z.params.session, z.params.borrower, z.params.protocol)
  }

  function ParamsFor(main: Operation, event: Operation): Params {
    Params(main.session, event.dapp, main.borrower, event.logId)
  }

  function OrdersIn(main: Operation, events: seq<Operation>): seq<Params> {
    if events == [] then []
    else (if events[0].action.ExecuteOrder? then [ParamsFor(main, events[0])] else []) + OrdersIn(main, events[1..])
  }

  function OrdersOf(actions: seq<FacadeAction>): seq<Params> {
    if actions == [] then [] else OrdersIn(actions[0].data, actions[0].multicall) + OrdersOf(actions[1..])
  }

  /** Orders outside multicalls are saved on their own, the others are kept for their main action. */
  function Split(zs: seq<Parsed>, others: seq<Params>): (seq<Parsed>, seq<Parsed>) {
    if zs == [] then ([], [])
    else if others != [] && zs[0].params.index == others[0].index then
      var (s, r) := Split(zs[1..], others[1..]);
      ([zs[0]] + s, r)
    else
      var (s, r) := Split(zs[1..], others);
      (s, [zs[0]] + r)
  }

  /** Puts the parsed orders back into one action's events; None is the fatal index mismatch. */
  function RejoinEvents(events: seq<Operation>, rest: seq<Parsed>): Option<(seq<Operation>, seq<Parsed>)>
    decreases |events|
  {
    if events == [] then Some(([], rest))
    else if events[0].action.ExecuteOrder? then
      if rest == [] || rest[0].params.index != events[0].logId then None
      else match RejoinEvents(events[1..], rest[1..])
        case None => None
        case Some((es, left)) => Some(([ToOperation(rest[0])] + es, left))
    else match RejoinEvents(events[1..], rest)
      case None => None
      case Some((es, left)) => Some(([events[0]] + es, left))
  }

  function Rejoin(actions: seq<FacadeAction>, rest: seq<Parsed>): Option<seq<FacadeAction>>
    decreases |actions|
  {
    if actions == [] then Some([])
    else match RejoinEvents(actions[0].multicall, rest)
      case None => None
      case Some((es, left)) =>
        match Rejoin(actions[1..], left)
        case None => None
        case Some(r) => Some([actions[0].(multicall := es)] + r)
  }

  predicate Ascending(ps: seq<Params>) { forall i, j :: 0 <= i < j < |ps| ==> ps[i].index < ps[j].index }

  function ParamsIn(zs: seq<Parsed>): seq<Params> { seq(|zs|, i requires 0 <= i < |zs| => zs[i].params) }

  // ---------------------------------------------------------------------------------------------

  /** Distinct log ids: inner orders and orders outside multicalls do not share an index. */
  predicate Apart(a: seq<Params>, b: seq<Params>) { forall x, y :: x in a && y in b ==> x.index != y.index }

  ghost predicate Merges(ps: seq<Params>, a: seq<Params>, b: seq<Params>) { multiset(ps) == multiset(a) + multiset(b) }

  lemma MergeSize(ps: seq<Params>, a: seq<Params>, b: seq<Params>)
    requires Merges(ps, a, b)
    ensures |ps| == |a| + |b|
  {
    assert |multiset(ps)| == |multiset(a) + multiset(b)|;
  }

  lemma MergeTail(ps: seq<Params>, a: seq<Params>, b: seq<Params>)
    requires Merges(ps, a, b) && ps != [] && a != [] && ps[0] == a[0]
    ensures Merges(ps[1..], a[1..], b)
  {
    assert ps == [ps[0]] + ps[1..] && a == [a[0]] + a[1..];
    assert multiset(ps) == multiset{ps[0]} + multiset(ps[1..]);
    assert multiset(a) == multiset{a[0]} + multiset(a[1..]);
    assert multiset(ps[1..]) == multiset(ps) - multiset{ps[0]};
  }

  /** An element of a merge that shares its index with the head of one list is that head. */
  lemma HeadOf(ps: seq<Params>, mine: seq<Params>, other: seq<Params>)
    requires Merges(ps, mine, other) && Ascending(mine) && Apart(other, mine)
    requires ps != [] && mine != [] && ps[0].index == mine[0].index
    ensures ps[0] == mine[0]
  {
    assert mine[0] in mine;
    assert ps[0] in multiset(ps);
    assert ps[0] in mine;
  }

  /** If it is not the head of one list, the first element of an ascending merge is the head of the other. */
  lemma HeadOfOther(ps: seq<Params>, mine: seq<Params>, other: seq<Params>)
    requires Merges(ps, mine, other) && Ascending(ps) && Ascending(mine) && Ascending(other)
    requires ps != [] && (other == [] || ps[0].index != other[0].index)
    ensures mine != [] && ps[0] == mine[0]
  {
    assert ps[0] in multiset(ps);
    if other != [] {
      assert other[0] in multiset(ps);
      assert ps[0].index <= other[0].index;
    }
    assert ps[0] !in other;
    assert ps[0] in mine;
    assert mine[0] in multiset(ps);
    assert ps[0].index <= mine[0].index;
  }

  lemma TailIsAscending(ps: seq<Params>)
    requires Ascending(ps) && ps != []
    ensures Ascending(ps[1..])
  {}

  lemma ParamsTail(zs: seq<Parsed>)
    requires zs != []
    ensures ParamsIn(zs)[0] == zs[0].params && ParamsIn(zs[1..]) == ParamsIn(zs)[1..]
  {}

  lemma ParamsCons(z: Parsed, zs: seq<Parsed>)
    ensures ParamsIn([z] + zs) == [z.params] + ParamsIn(zs)
  {}

  /** `zs` lists the parameters of two ascending, disjoint lists in ascending order. */
  ghost predicate Arranges(zs: seq<Parsed>, inner: seq<Params>, others: seq<Params>) {
    && Ascending(ParamsIn(zs)) && Ascending(inner) && Ascending(others) && Apart(inner, others)
    && Merges(ParamsIn(zs), inner, others)
  }

  lemma TakeOther(zs: seq<Parsed>, inner: seq<Params>, others: seq<Params>)
    requires Arranges(zs, inner, others) && zs != [] && others != [] && zs[0].params.index == others[0].index
    ensures zs[0].params == others[0] && Arranges(zs[1..], inner, others[1..])
  {
    var ps := ParamsIn(zs);
    ParamsTail(zs);
    TailIsAscending(ps);
    TailIsAscending(others);
    HeadOf(ps, others, inner);
    MergeTail(ps, others, inner);
  }

  lemma TakeInner(zs: seq<Parsed>, inner: seq<Params>, others: seq<Params>)
    requires Arranges(zs, inner, others) && zs != [] && (others == [] || zs[0].params.index != others[0].index)
    ensures inner != [] && zs[0].params == inner[0] && Arranges(zs[1..], inner[1..], others)
  {
    var ps := ParamsIn(zs);
    ParamsTail(zs);
    HeadOfOther(ps, inner, others);
    TailIsAscending(ps);
    TailIsAscending(inner);
    MergeTail(ps, inner, others);
  }

  /** Splitting such an arrangement gives the two lists back. */
  lemma {:induction false} SplitSeparates(zs: seq<Parsed>, inner: seq<Params>, others: seq<Params>)
    requires Arranges(zs, inner, others)
    ensures ParamsIn(Split(zs, others).0) == others && ParamsIn(Split(zs, others).1) == inner
    decreases |zs|
  {
    if zs == [] {
      MergeSize(ParamsIn(zs), inner, others);
    } else if others != [] && zs[0].params.index == others[0].index {
      TakeOther(zs, inner, others);
      SplitSeparates(zs[1..], inner, others[1..]);
      ParamsCons(zs[0], Split(zs[1..], others[1..]).0);
      assert others == [others[0]] + others[1..];
    } else {
      TakeInner(zs, inner, others);
      SplitSeparates(zs[1..], inner[1..], others);
      ParamsCons(zs[0], Split(zs[1..], others).1);
      assert inner == [inner[0]] + inner[1..];
    }
  }

  /** The order of an inner event, with the call parsed for it, has become an operation: the event's log
      id and dapp, the main action's session and borrower. */
  ghost predicate Replaces(main: Operation, event: Operation, op: Operation, z: Parsed) {
    && z.params == Params(main.session, event.dapp, main.borrower, event.logId)
    && op == Operation(DappCall(z.call), event.logId, main.session, main.borrower, event.dapp)
  }

  /** `new` is `old` with each execute order replaced by the operation of its own call. */
  ghost predicate Resolved(main: Operation, old_: seq<Operation>, new_: seq<Operation>, zs: seq<Parsed>) {
    |new_| == |old_| &&
    forall i :: 0 <= i < |old_| ==>
      if old_[i].action.ExecuteOrder?
      then exists z :: z in zs && Replaces(main, old_[i], new_[i], z)
      else new_[i] == old_[i]
  }

  lemma {:induction false} EventsRejoin(main: Operation, events: seq<Operation>, rest: seq<Parsed>, zs: seq<Parsed>)
    requires OrdersIn(main, events) <= ParamsIn(rest) && forall z :: z in rest ==> z in zs
    ensures var r := RejoinEvents(events, rest);
            r.Some? && Resolved(main, events, r.value.0, zs) && r.value.1 == rest[|OrdersIn(main, events)|..]
    decreases |events|
  {
    if events != [] {
      if events[0].action.ExecuteOrder? {
        assert ParamsIn(rest)[0] == rest[0].params == ParamsFor(main, events[0]);
        assert ParamsIn(rest[1..]) == ParamsIn(rest)[1..];
        assert OrdersIn(main, events)[1..] == OrdersIn(main, events[1..]);
        assert rest[0] in zs && Replaces(main, events[0], ToOperation(rest[0]), rest[0]);
        EventsRejoin(main, events[1..], rest[1..], zs);
      } else {
        EventsRejoin(main, events[1..], rest, zs);
      }
    }
  }

  ghost predicate AllResolved(actions: seq<FacadeAction>, result: seq<FacadeAction>, zs: seq<Parsed>) {
    |result| == |actions| &&
    forall i :: 0 <= i < |actions| ==>
      Resolved(actions[i].data, actions[i].multicall, result[i].multicall, zs)
      && result[i] == actions[i].(multicall := result[i].multicall)
  }

  lemma {:induction false} ActionsRejoin(actions: seq<FacadeAction>, rest: seq<Parsed>, zs: seq<Parsed>)
    requires ParamsIn(rest) == OrdersOf(actions) && forall z :: z in rest ==> z in zs
    ensures Rejoin(actions, rest).Some? && AllResolved(actions, Rejoin(actions, rest).value, zs)
    decreases |actions|
  {
    if actions != [] {
      var a := actions[0];
      EventsRejoin(a.data, a.multicall, rest, zs);
      var left := RejoinEvents(a.multicall, rest).value.1;
      assert ParamsIn(left) == ParamsIn(rest)[|OrdersIn(a.data, a.multicall)|..];
      ActionsRejoin(actions[1..], left, zs);
    }
  }

  lemma {:induction false} SplitKeeps(zs: seq<Parsed>, others: seq<Params>)
    ensures (forall z :: z in Split(zs, others).0 ==> z in zs) && (forall z :: z in Split(zs, others).1 ==> z in zs)
    decreases |zs|
  {
    if zs != [] {
      SplitKeeps(zs[1..], others);
      if others != [] { SplitKeeps(zs[1..], others[1..]); }
      assert zs == [zs[0]] + zs[1..];
    }
  }

  /** Main result. With distinct log ids and inputs in log order, the index-mismatch stop is never
      reached, the orders outside multicalls are saved once each and in order, and every inner order
      is replaced by the operation that carries its log id, its protocol and its main action's session. */
  lemma OrdersResolved(actions: seq<FacadeAction>, others: seq<Params>, zs: seq<Parsed>)
    requires Arranges(zs, OrdersOf(actions), others)
    ensures var (saved, rest) := Split(zs, others);
            && ParamsIn(saved) == others
            && Rejoin(actions, rest).Some?
            && AllResolved(actions, Rejoin(actions, rest).value, zs)
  {
    SplitSeparates(zs, OrdersOf(actions), others);
    SplitKeeps(zs, others);
    ActionsRejoin(actions, Split(zs, others).1, zs);
  }
}
