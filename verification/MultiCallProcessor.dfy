/** The per-transaction processor object and the regrouping loop. */
module MultiCallProcessor {
  import opened Wrappers
  import opened Operations
  import opened FacadeCalls

  class Grouper {
    var running: bool
    var nonMultiCallEvents: seq<Operation>
    var noOfOpens: nat
    var facadeActions: seq<FacadeAction>

    ghost function View(): Processor
      reads this
    {
      Processor(running, nonMultiCallEvents, noOfOpens, facadeActions)
    }

    constructor ()
      ensures View() == IDLE
    {
      running := false;
      nonMultiCallEvents := [];
      noOfOpens := 0;
      facadeActions := [];
    }

    /** The outcome of one event: the specified next state, or a fatal stop. */
    ghost predicate Outcome(before: Processor, e: Event, ok: bool)
      reads this
    {
      match Step(before, e) case None => !ok case Some(q) => ok && View() == q
    }

    method AddMulticallEvent(operation: Operation) returns (ok: bool)
      modifies this
      ensures Outcome(old(View()), Inner(operation), ok)
    {
      ok := true;
      var n := |facadeActions|;
      if !running {
        if n > 0 && facadeActions[n - 1].kind == OpenEvent && operation.action == AddCollateral &&
          !facadeActions[n - 1].ended {
          if |facadeActions[n - 1].multicall| != 0 {
            return false;
          }
          facadeActions := facadeActions[..n - 1] +
            [facadeActions[n - 1].(multicall := [operation], withoutMC := true, ended := true)];
        } else {
          nonMultiCallEvents := nonMultiCallEvents + [operation];
        }
      } else {
        if n == 0 {
          return false;
        }
        facadeActions := facadeActions[..n - 1] +
          [facadeActions[n - 1].(multicall := facadeActions[n - 1].multicall + [operation])];
      }
    }

    method AddOpenEvent(openEvent: Operation) returns (ok: bool)
      modifies this
      ensures Outcome(old(View()), Opened(openEvent), ok)
    {
      if noOfOpens > 0 {
        return false;
      }
      facadeActions := facadeActions + [FacadeAction(openEvent, [], OpenEvent, false, false)];
      noOfOpens := noOfOpens + 1;
      ok := true;
    }

    method Start(startEvent: Operation) returns (ok: bool)
      modifies this
      ensures Outcome(old(View()), Started(startEvent), ok)
    {
      if running {
        return false;
      }
      var n := |facadeActions|;
      if n == 0 || facadeActions[n - 1].ended {
        facadeActions := facadeActions + [FacadeAction(startEvent, [], MulticallEvent, false, false)];
      }
      running := true;
      ok := true;
    }

    method AddCloseOrLiquidateEvent(event: Operation)
      modifies this
      ensures Outcome(old(View()), Closed(event), true)
    {
      facadeActions := facadeActions + [FacadeAction(event, [], CloseEvent, false, false)];
    }

    method End() returns (ok: bool)
      modifies this
      ensures Outcome(old(View()), Finished, ok)
    {
      if !running {
        return false;
      }
      var n := |facadeActions|;
      if n > 0 {
        facadeActions := facadeActions[..n - 1] + [facadeActions[n - 1].(ended := true)];
      }
      running := false;
      ok := true;
    }

    /** Hands out the actions, opens without a multicall apart, and forgets them. */
    method PopMainActions() returns (facade: seq<FacadeAction>, openEventWithoutMulticall: seq<FacadeAction>)
      modifies this
      ensures facade == Facade(old(facadeActions)) && openEventWithoutMulticall == PlainOpens(old(facadeActions))
      ensures View() == old(View()).(opens := 0, actions := [])
    {
      noOfOpens := 0;
      facade, openEventWithoutMulticall := [], [];
      var i := 0;
      while i < |facadeActions|
        invariant 0 <= i <= |facadeActions|
        invariant facade + Facade(facadeActions[i..]) == Facade(facadeActions)
        invariant openEventWithoutMulticall + PlainOpens(facadeActions[i..]) == PlainOpens(facadeActions)
      {
        var entry := facadeActions[i];
        assert facadeActions[i..][0] == entry && facadeActions[i..][1..] == facadeActions[i + 1..];
        if entry.kind == OpenEvent && entry.withoutMC {
          openEventWithoutMulticall := openEventWithoutMulticall + [entry];
        } else {
          facade := facade + [entry];
        }
        i := i + 1;
      }
      facadeActions := [];
    }

    method PopNonMulticallEvents() returns (calls: seq<Operation>)
      modifies this
      ensures calls == old(nonMultiCallEvents) && View() == old(View()).(others := [])
    {
      calls := nonMultiCallEvents;
      nonMultiCallEvents := [];
    }

    method Dispatch(e: Event) returns (ok: bool)
      modifies this
      ensures Outcome(old(View()), e, ok)
    {
      match e {
        case Opened(op) => ok := AddOpenEvent(op);
        case Started(op) => ok := Start(op);
        case Inner(op) => ok := AddMulticallEvent(op);
        case Finished => ok := End();
        case Closed(op) => AddCloseOrLiquidateEvent(op); ok := true;
      }
    }

    /** All events of a transaction, then both pops and the regrouping. */
    method Transaction(es: seq<Event>, calls: seq<MainCall>)
      returns (result: Option<seq<FacadeAction>>, opens: seq<FacadeAction>, others: seq<Operation>)
      requires View() == IDLE
      modifies this
      ensures match Run(IDLE, es)
              case None => result == None
              case Some(p) =>
                && result == Regroup(calls, Facade(p.actions)) && opens == PlainOpens(p.actions)
                && others == p.others && View() == IDLE.(running := p.running)
    {
      var i := 0;
      opens, others := [], [];
      assert es[0..] == es;
      while i < |es|
        invariant 0 <= i <= |es|
        invariant Run(View(), es[i..]) == Run(IDLE, es)
      {
        assert es[i..][0] == es[i] && es[i..][1..] == es[i + 1..];
        var ok := Dispatch(es[i]);
        if !ok {
          return None, [], [];
        }
        i := i + 1;
      }
      others := PopNonMulticallEvents();
      var facade;
      facade, opens := PopMainActions();
      result := Some([]);
      if |facade| > 0 {
        result := FixFacadeActionStructure(calls, facade);
      }
    }
  }

  /** Regroups the separate multicall and close actions against the calls of the trace; None where
      the program stops. */
  method FixFacadeActionStructure(mainCalls: seq<MainCall>, actions: seq<FacadeAction>)
    returns (result: Option<seq<FacadeAction>>)
    ensures result == Fix(mainCalls, actions)
  {
    if |mainCalls| > |actions| {
      TooManyCalls(mainCalls, actions);
      return None;
    }
    var ind, i := 0, 0;
    var done: seq<FacadeAction> := [];
    assert mainCalls[0..] == mainCalls && actions[0..] == actions;
    GlueNothing(Fix(mainCalls, actions));
    while i < |mainCalls|
      invariant 0 <= i <= |mainCalls| && 0 <= ind <= |actions|
      invariant Fix(mainCalls, actions) == Glue(done, Fix(mainCalls[i..], actions[ind..]))
    {
      if ind >= |actions| {
        return None;
      }
      var call, action := mainCalls[i], actions[ind];
      assert mainCalls[i..][0] == call && mainCalls[i..][1..] == mainCalls[i + 1..];
      assert actions[ind..][0] == action && actions[ind..][1..] == actions[ind + 1..];
      if call.name == FacadeOpenMulticall {
        if action.kind != OpenEvent {
          return None;
        }
      } else if call.name != FacadeMulticall {
        if call.len != 0 && |actions| > ind + 1 {
          assert actions[ind..][1] == actions[ind + 1] && actions[ind..][2..] == actions[ind + 2..];
          action := actions[ind + 1].(multicall := action.multicall);
          ind := ind + 1;
        }
      }
      GlueStep(done, action, Fix(mainCalls[i + 1..], actions[ind + 1..]));
      done := done + [action];
      ind, i := ind + 1, i + 1;
    }
    if ind != |actions| {
      return None;
    }
    assert done + [] == done;
    return Some(done);
  }

  function Glue<T>(done: seq<T>, r: Option<seq<T>>): Option<seq<T>> {
    if r.Some? then Some(done + r.value) else None
  }

  lemma GlueNothing<T>(r: Option<seq<T>>)
    ensures Glue([], r) == r
  {
    if r.Some? { assert [] + r.value == r.value; }
  }

  lemma GlueStep<T>(done: seq<T>, x: T, r: Option<seq<T>>)
    ensures Glue(done, Prepend(x, r)) == Glue(done + [x], r)
  {
    if r.Some? { assert done + ([x] + r.value) == done + [x] + r.value; }
  }

  /** A transaction put through the object comes back call by call. */
  method TransactionRoundTrip(p: Grouper, cs: seq<Call>)
    returns (result: Option<seq<FacadeAction>>, opens: seq<FacadeAction>, others: seq<Operation>)
    requires p.View() == IDLE && ValidCalls(cs) && Opens(cs) <= 1 && Clashes(cs, false) == 0
    modifies p
    ensures result == Some(Expected(cs)) && opens == ExpectedPlain(cs) && others == Sides(cs) && p.View() == IDLE
  {
    RoundTrip(cs);
    result, opens, others := p.Transaction(Emit(cs), MainCalls(cs));
  }
}
