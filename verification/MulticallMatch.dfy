/** Comparing the multicalls of a facade call, as found in the trace, with the events attributed to it. */
module MulticallMatch {
  import opened Wrappers
  import opened Operations

  /** The four-byte signatures the comparison distinguishes. */
  datatype Signature =
    | AddCollateralCall
    | IncreaseDebtCall
    | DecreaseDebtCall
    | EnableTokenCall
    | DisableTokenCall
    | RevertIfLessThan
    | Adapter(sig: nat)

  predicate Emits(c: Signature) { !c.RevertIfLessThan? && !c.Adapter? }

  function EventOf(c: Signature): Action
    requires Emits(c)
  {
    match c
    case AddCollateralCall => AddCollateral
    case IncreaseDebtCall => IncreaseBorrowedAmount
    case DecreaseDebtCall => DecreaseBorrowedAmount
    case EnableTokenCall => TokenEnabled
    case DisableTokenCall => TokenDisabled
  }

  /** Length of the run of adapter calls at the front. */
  function AdapterRun(calls: seq<Signature>): nat
    ensures AdapterRun(calls) <= |calls|
    ensures forall i :: 0 <= i < AdapterRun(calls) ==> calls[i].Adapter?
    ensures AdapterRun(calls) < |calls| ==> !calls[AdapterRun(calls)].Adapter?
  {
    if calls == [] || !calls[0].Adapter? then 0 else 1 + AdapterRun(calls[1..])
  }

  predicate AllOrders(events: seq<Action>) { forall e :: e in events ==> e.ExecuteOrder? }

  /** The events are the calls with revert checks dropped, each facade call standing for its own
      event and each maximal run of n adapter calls for at most n execute orders. */
  ghost predicate Matches(calls: seq<Signature>, events: seq<Action>)
    decreases |calls|
  {
    if calls == [] then events == []
    else if calls[0].RevertIfLessThan? then Matches(calls[1..], events)
    else if calls[0].Adapter? then
      exists k :: RunMatches(calls, events, k) && Matches(calls[AdapterRun(calls)..], events[k..])
    else events != [] && events[0] == EventOf(calls[0]) && Matches(calls[1..], events[1..])
  }

  predicate RunMatches(calls: seq<Signature>, events: seq<Action>, k: int) {
    0 <= k <= AdapterRun(calls) && k <= |events| && AllOrders(events[..k])
  }

  /** Length of the run of execute orders at the front. */
  function OrderRun(events: seq<Action>): nat
    ensures OrderRun(events) <= |events| && AllOrders(events[..OrderRun(events)])
    ensures OrderRun(events) < |events| ==> !events[OrderRun(events)].ExecuteOrder?
  {
    if events == [] || !events[0].ExecuteOrder? then 0 else
      assert events[..1 + OrderRun(events[1..])] == [events[0]] + events[1..][..OrderRun(events[1..])];
      1 + OrderRun(events[1..])
  }

  /** A match in which every adapter run takes all execute orders in front of it, and the last event
      is used up by the last call, not before. */
  ghost predicate TightMatch(calls: seq<Signature>, events: seq<Action>)
    decreases |calls|
  {
    if calls == [] || events == [] then calls == [] && events == []
    else if calls[0].RevertIfLessThan? then TightMatch(calls[1..], events)
    else if calls[0].Adapter? then
      OrderRun(events) <= AdapterRun(calls) && TightMatch(calls[AdapterRun(calls)..], events[OrderRun(events)..])
    else events[0] == EventOf(calls[0]) && TightMatch(calls[1..], events[1..])
  }

  /** Every tight match is a match. */
  lemma {:induction false} TightIsMatch(calls: seq<Signature>, events: seq<Action>)
    requires TightMatch(calls, events)
    ensures Matches(calls, events)
    decreases |calls|
  {
    if calls != [] {
      if calls[0].RevertIfLessThan? {
        TightIsMatch(calls[1..], events);
      } else if calls[0].Adapter? {
        TightIsMatch(calls[AdapterRun(calls)..], events[OrderRun(events)..]);
        assert RunMatches(calls, events, OrderRun(events));
      } else {
        TightIsMatch(calls[1..], events[1..]);
      }
    }
  }

  lemma {:induction false} OrderRunIs(events: seq<Action>, k: nat)
    requires k < |events| && AllOrders(events[..k]) && !events[k].ExecuteOrder?
    ensures OrderRun(events) == k
    decreases k
  {
    if k > 0 {
      assert events[..k][0] == events[0] && events[..k][1..] == events[1..][..k - 1];
      OrderRunIs(events[1..], k - 1);
    }
  }

  /** Without revert checks, and with a facade call at the end, every match is tight: for such calls
      the comparison is exact. */
  lemma {:induction false} MatchIsTight(calls: seq<Signature>, events: seq<Action>)
    requires Matches(calls, events)
    requires forall c :: c in calls ==> !c.RevertIfLessThan?
    requires calls == [] || Emits(calls[|calls| - 1])
    ensures TightMatch(calls, events)
    decreases |calls|
  {
    if calls != [] {
      if calls[0].Adapter? {
        var n := AdapterRun(calls);
        var k :| RunMatches(calls, events, k) && Matches(calls[n..], events[k..]);
        assert n < |calls| && calls[n..][0] == calls[n];
        assert events[k..] != [] && events[k..][0] == events[k];
        OrderRunIs(events, k);
        MatchIsTight(calls[n..], events[k..]);
      } else {
        MatchIsTight(calls[1..], events[1..]);
      }
    }
  }

  predicate NoneEmits(calls: seq<Signature>) { forall c :: c in calls ==> !Emits(c) }

  /** The exact verdict; None is a crash, which happens when there are no events at all although
      some call emits one. */
  ghost function Verdict(testLen: nat, calls: seq<Signature>, events: seq<Action>): Option<bool> {
    if testLen != 0 then Some(testLen == |events|)
    else if events == [] then (if NoneEmits(calls) then Some(true) else None)
    else Some(TightMatch(calls, events))
  }

  /** A single facade call against a single event: right exactly for the event of its own name. */
  lemma SingleVerdict(c: Signature, e: Action)
    requires !c.RevertIfLessThan? && !c.Adapter?
    ensures Verdict(0, [c], [e]) == Some(match c
              case AddCollateralCall => e == AddCollateral
              case IncreaseDebtCall => e == IncreaseBorrowedAmount
              case DecreaseDebtCall => e == DecreaseBorrowedAmount
              case EnableTokenCall => e == TokenEnabled
              case DisableTokenCall => e == TokenDisabled)
  {
    assert [c][1..] == [] && [e][1..] == [];
    assert TightMatch([c], [e]) <==> e == EventOf(c);
  }

  /** A revert check needs no event of its own; an adapter call takes one execute order or none. */
  lemma QuietVerdict(c: Signature, sig: nat)
    requires Emits(c)
    ensures Verdict(0, [RevertIfLessThan, c], [EventOf(c)]) == Some(true)
    ensures Verdict(0, [Adapter(sig), c], [EventOf(c)]) == Some(true)
    ensures Verdict(0, [Adapter(sig), c], [ExecuteOrder, EventOf(c)]) == Some(true)
    ensures Verdict(0, [Adapter(sig), c], [ExecuteOrder, ExecuteOrder, EventOf(c)]) == Some(false)
  {
    var e := EventOf(c);
    assert [RevertIfLessThan, c][1..] == [c] && [c][1..] == [] && [e][1..] == [] && !e.ExecuteOrder?;
    assert AdapterRun([c]) == 0 && [Adapter(sig), c][1..] == [c];
    assert AdapterRun([Adapter(sig), c]) == 1;
    assert OrderRun([e]) == 0 && [e][0..] == [e];
    assert [ExecuteOrder, e][1..] == [e] && OrderRun([ExecuteOrder, e]) == 1;
    assert [ExecuteOrder, ExecuteOrder, e][1..] == [ExecuteOrder, e];
    assert OrderRun([ExecuteOrder, ExecuteOrder, e]) == 2;
    assert TightMatch([c], [e]);
  }

  /** One facade call and no events. */
  lemma NoEventsCrash()
    ensures Verdict(0, [AddCollateralCall], []) == None
  {
    assert AddCollateralCall in [AddCollateralCall] && Emits(AddCollateralCall);
  }

  method SameMulticallLenAsEvents(testLen: nat, calls: seq<Signature>, events: seq<Action>) returns (r: Option<bool>)
    ensures r == Verdict(testLen, calls, events)
    ensures testLen == 0 && r == Some(true) ==> Matches(calls, events)
  {
    if testLen != 0 {
      return Some(testLen == |events|);
    }
    ghost var goal := TightMatch(calls, events);
    var eventInd, callInd := 0, 0;
    assert calls[0..] == calls && events[0..] == events;
    while callInd < |calls| && (|events| == 0 || eventInd < |events|)
      invariant 0 <= callInd <= |calls| && 0 <= eventInd <= |events|
      invariant events != [] ==> TightMatch(calls[callInd..], events[eventInd..]) == goal
      invariant events == [] ==> NoneEmits(calls[..callInd])
    {
      ghost var i, n := callInd, eventInd;
      var call := calls[callInd];
      assert calls[i..][0] == call && (n < |events| ==> events[n..][0] == events[n]);
      if call.RevertIfLessThan? {
        callInd := callInd + 1;
        assert calls[i..][1..] == calls[callInd..] && calls[..callInd] == calls[..i] + [call];
      } else if call.Adapter? {
        var executeEvent := CountOrders(events, eventInd);
        var executeCall := CountAdapters(calls, callInd);
        eventInd := eventInd + executeEvent;
        callInd := callInd + executeCall;
        assert calls[i..][executeCall..] == calls[callInd..] && events[n..][executeEvent..] == events[eventInd..];
        if executeEvent > executeCall {
          return Some(false);
        }
        assert calls[..callInd] == calls[..i] + calls[i..callInd];
      } else {
        if |events| == 0 {
          assert call in calls;
          return None;
        }
        if events[eventInd] != EventOf(call) {
          return Some(false);
        }
        eventInd, callInd := eventInd + 1, callInd + 1;
        assert calls[i..][1..] == calls[callInd..] && events[n..][1..] == events[eventInd..];
      }
    }
    if events == [] {
      assert calls[..callInd] == calls;
      NothingToMatch(calls);
    } else if goal {
      TightIsMatch(calls, events);
    }
    return Some(callInd == |calls| && eventInd == |events|);
  }

  /** Calls that emit nothing match no events. */
  lemma {:induction false} NothingToMatch(calls: seq<Signature>)
    requires NoneEmits(calls)
    ensures Matches(calls, [])
    decreases |calls|
  {
    if calls != [] {
      assert calls[0] in calls;
      if calls[0].Adapter? {
        NothingToMatch(calls[AdapterRun(calls)..]);
        var none: seq<Action> := [];
        assert none[0..] == none && RunMatches(calls, none, 0);
      } else {
        NothingToMatch(calls[1..]);
      }
    }
  }

  method CountOrders(events: seq<Action>, from: nat) returns (k: nat)
    requires from <= |events|
    ensures from + k <= |events| && k == OrderRun(events[from..])
  {
    k := 0;
    while from + k < |events| && events[from + k] == ExecuteOrder
      invariant from + k <= |events| && k + OrderRun(events[from + k..]) == OrderRun(events[from..])
    {
      assert events[from + k..][1..] == events[from + k + 1..];
      k := k + 1;
    }
  }

  method CountAdapters(calls: seq<Signature>, from: nat) returns (k: nat)
    requires from < |calls| && calls[from].Adapter?
    ensures k > 0 && from + k <= |calls| && k == AdapterRun(calls[from..])
    ensures NoneEmits(calls[from..from + k])
  {
    k := 0;
    while from + k < |calls| && calls[from + k].Adapter?
      invariant from + k <= |calls| && k + AdapterRun(calls[from + k..]) == AdapterRun(calls[from..])
      invariant NoneEmits(calls[from..from + k])
    {
      assert calls[from + k..][1..] == calls[from + k + 1..];
      assert calls[from..from + k + 1] == calls[from..from + k] + [calls[from + k]];
      k := k + 1;
    }
  }

  // ---------------------------------------------------------------------------------------------
  // What a match means for the events.

  function FacadeEvents(events: seq<Action>): seq<Action> {
    if events == [] then [] else (if events[0].ExecuteOrder? then [] else [events[0]]) + FacadeEvents(events[1..])
  }

  function CallEvents(calls: seq<Signature>): seq<Action> {
    if calls == [] then [] else
    (match calls[0]
     case AddCollateralCall => [AddCollateral]
     case IncreaseDebtCall => [IncreaseBorrowedAmount]
     case DecreaseDebtCall => [DecreaseBorrowedAmount]
     case EnableTokenCall => [TokenEnabled]
     case DisableTokenCall => [TokenDisabled]
     case RevertIfLessThan => []
     case Adapter(_) => [])
    + CallEvents(calls[1..])
  }

  function Adapters(calls: seq<Signature>): nat {
    if calls == [] then 0 else (if calls[0].Adapter? then 1 else 0) + Adapters(calls[1..])
  }

  /** In matched events the facade events are those of the facade calls, in order, and there are no
      more execute orders than adapter calls. */
  lemma {:induction false} MatchedEvents(calls: seq<Signature>, events: seq<Action>)
    requires Matches(calls, events)
    ensures FacadeEvents(events) == CallEvents(calls)
    ensures |events| - |FacadeEvents(events)| <= Adapters(calls)
    decreases |calls|
  {
    if calls != [] {
      if calls[0].RevertIfLessThan? {
        MatchedEvents(calls[1..], events);
      } else if calls[0].Adapter? {
        var k :| RunMatches(calls, events, k) && Matches(calls[AdapterRun(calls)..], events[k..]);
        MatchedEvents(calls[AdapterRun(calls)..], events[k..]);
        SkipOrders(events, k);
        SkipAdapters(calls, AdapterRun(calls));
      } else {
        MatchedEvents(calls[1..], events[1..]);
      }
    }
  }

  lemma {:induction false} SkipOrders(events: seq<Action>, k: nat)
    requires k <= |events| && AllOrders(events[..k])
    ensures FacadeEvents(events) == FacadeEvents(events[k..])
    decreases k
  {
    if k > 0 {
      assert events[..k][0] == events[0] && events[..k][1..] == events[1..][..k - 1] &&
             events[1..][k - 1..] == events[k..];
      SkipOrders(events[1..], k - 1);
    }
  }

  lemma {:induction false} SkipAdapters(calls: seq<Signature>, k: nat)
    requires k <= |calls| && forall i :: 0 <= i < k ==> calls[i].Adapter?
    ensures CallEvents(calls) == CallEvents(calls[k..]) && Adapters(calls) == k + Adapters(calls[k..])
    decreases k
  {
    if k > 0 {
      assert calls[1..][k - 1..] == calls[k..];
      SkipAdapters(calls[1..], k - 1);
    }
  }
}
