/** Exactly which transactions are recovered, multicalls behind a close included. */
module FacadeClashes {
  import opened Wrappers
  import opened Operations
  import opened FacadeCalls

  /** What is saved of an action: all but the flag that tells whether its multicall is over. */
  function Content(a: FacadeAction): FacadeAction { a.(ended := true) }

  function Contents(actions: seq<FacadeAction>): seq<FacadeAction> {
    seq(|actions|, i requires 0 <= i < |actions| => Content(actions[i]))
  }

  lemma ContentsConcat(a: seq<FacadeAction>, b: seq<FacadeAction>)
    ensures Contents(a + b) == Contents(a) + Contents(b)
  {}

  /** The calls come back with their data and their inner events. */
  predicate Recovers(r: Option<seq<FacadeAction>>, expected: seq<FacadeAction>) {
    r.Some? && Contents(r.value) == Contents(expected)
  }

  /** Close events of a transaction are different logs. */
  predicate DistinctCloses(cs: seq<Call>) {
    forall i, j :: 0 <= i < j < |cs| && cs[i].Close? && cs[j].Close? ==> cs[i].close != cs[j].close
  }

  /** The main calls are multicalls without events, all started alike, and in the end one such close. */
  predicate EmptyTail(cs: seq<Call>, start: Operation) {
    cs != [] &&
    match cs[0]
    case Multicall(s, _, inner) => s == start && inner == [] && EmptyTail(cs[1..], start)
    case Close(_, _, s, len, inner) => len > 0 && s == start && inner == [] && MainCalls(cs[1..]) == []
    case OpenMulticall(_, _, _, _) => false
    case _ => EmptyTail(cs[1..], start)
  }

  /** From the first clash on, nothing but such a tail. */
  predicate Benign(cs: seq<Call>, blocked: bool) {
    cs == [] ||
    if blocked && StartsFresh(cs[0]) then EmptyTail(cs, cs[0].start)
    else Benign(cs[1..], BlockedAfter(cs[0], blocked))
  }

  // ---------------------------------------------------------------------------------------------
  // One action short: each call is given the action of the next.

  function ActionsOf(cs: seq<Call>): seq<FacadeAction> { Facade(Grouped(cs)) }

  lemma ActionsStep(cs: seq<Call>)
    requires cs != []
    ensures ActionsOf(cs) == (if cs[0].OpenPlain? then [] else GroupOf(cs[0])) + ActionsOf(cs[1..])
  {
    FacadeConcat(GroupOf(cs[0]), Grouped(cs[1..]));
    FacadeOfGroup(cs[0]);
  }

  lemma {:induction false} NoActions(cs: seq<Call>)
    ensures ActionsOf(cs) == [] <==> MainCalls(cs) == []
    ensures MainCalls(cs) == [] ==> Expected(cs) == []
  {
    if cs != [] {
      ActionsStep(cs);
      NoActions(cs[1..]);
    }
  }

  /** If the first action is a close, it is that of a close call. */
  lemma {:induction false} FirstClose(cs: seq<Call>) returns (i: nat)
    requires ActionsOf(cs) != [] && ActionsOf(cs)[0].kind.CloseEvent?
    ensures i < |cs| && cs[i].Close? && cs[i].close == ActionsOf(cs)[0].data
  {
    ActionsStep(cs);
    if cs[0].Side? || cs[0].OpenPlain? {
      assert ActionsOf(cs) == ActionsOf(cs[1..]);
      i := FirstClose(cs[1..]);
      i := i + 1;
    } else {
      i := 0;
    }
  }

  function CloseAction(c: Call): FacadeAction
    requires c.Close?
  {
    FacadeAction(c.close, [], CloseEvent, false, false)
  }

  lemma ContentsFirst(a: FacadeAction, rest: seq<FacadeAction>, b: FacadeAction, rest': seq<FacadeAction>)
    ensures Contents([a] + rest) == Contents([b] + rest') <==>
            Content(a) == Content(b) && Contents(rest) == Contents(rest')
  {
    var x, y := Contents([a] + rest), Contents([b] + rest');
    assert x[1..] == Contents(rest) && y[1..] == Contents(rest') && x[0] == Content(a) && y[0] == Content(b);
    if Content(a) == Content(b) && Contents(rest) == Contents(rest') {
      assert x == [Content(a)] + Contents(rest) && y == [Content(b)] + Contents(rest');
    }
  }

  lemma RecoversFirst(a: FacadeAction, r: Option<seq<FacadeAction>>, b: FacadeAction, rest: seq<FacadeAction>)
    ensures Recovers(Prepend(a, r), [b] + rest) <==> Content(a) == Content(b) && Recovers(r, rest)
  {
    if r.Some? { ContentsFirst(a, r.value, b, rest); }
  }

  /** A close whose multicall has no action of its own is right only if it is the last call and had no
      inner events. */
  lemma CloseShort(c: Call, rest: seq<Call>)
    requires c.Close? && ValidCall(c) && c.len > 0 && forall i :: 0 <= i < |rest| && rest[i].Close? ==>
             rest[i].close != c.close
    ensures Recovers(Fix(MainOf(c) + MainCalls(rest), [CloseAction(c)] + ActionsOf(rest)),
            ExpectedOf(c) + Expected(rest))
            <==> c.inner == [] && MainCalls(rest) == []
  {
    var calls, actions := MainOf(c) + MainCalls(rest), [CloseAction(c)] + ActionsOf(rest);
    assert calls[1..] == MainCalls(rest) && actions[1..] == ActionsOf(rest);
    NoActions(rest);
    if MainCalls(rest) == [] {
      RecoversFirst(CloseAction(c), Some([]), ExpectedOf(c)[0], []);
    } else {
      var next := actions[1].(multicall := []);
      assert Fix(calls, actions) == Prepend(next, Fix(MainCalls(rest), actions[2..]));
      RecoversFirst(next, Fix(MainCalls(rest), actions[2..]), ExpectedOf(c)[0], Expected(rest));
      if next.kind.CloseEvent? { var i := FirstClose(rest); }
    }
  }

  lemma NothingAdded<T>(a: seq<T>)
    ensures [] + a == a
  {}

  /** The same for a multicall: the calls behind it have to be alike and empty, up to a last close. */
  lemma {:induction false} MulticallShort(c: Call, rest: seq<Call>)
    requires c.Multicall? && ValidCalls(rest) && DistinctCloses(rest)
    ensures Recovers(Fix(MainOf(c) + MainCalls(rest), ActionsOf(rest)), ExpectedOf(c) + Expected(rest))
            <==> c.inner == [] && EmptyTail(rest, c.start)
    decreases |rest|
  {
    var calls, actions := MainOf(c) + MainCalls(rest), ActionsOf(rest);
    assert calls[0] == MainOf(c)[0] && calls[1..] == MainCalls(rest);
    if rest != [] {
      var d, more := rest[0], rest[1..];
      ActionsStep(rest);
      assert d in rest && ValidCalls(more);
      if d.Side? || d.OpenPlain? {
        NothingAdded(ActionsOf(more));
        NothingAdded(MainCalls(more));
        NothingAdded(Expected(more));
        MulticallShort(c, more);
      } else {
        var first := GroupOf(d)[0];
        var tail := Fix(MainCalls(rest), actions[1..]);
        assert Fix(calls, actions) == Prepend(first, tail);
        RecoversFirst(first, tail, ExpectedOf(c)[0], Expected(rest));
        if d.Multicall? {
          assert actions[1..] == ActionsOf(more);
          MulticallShort(d, more);
        } else if d.Close? && d.len > 0 {
          assert actions[1..] == [CloseAction(d)] + ActionsOf(more);
          CloseShort(d, more);
        }
      }
    }
  }

  // ---------------------------------------------------------------------------------------------
  // The calls before the first clash, the last of which has swallowed a multicall.

  /** Whether the latest main action after the calls is a close that no multicall has ended. */
  function BlockedAfterAll(cs: seq<Call>, blocked: bool): bool
    decreases |cs|
  {
    if cs == [] then blocked else BlockedAfterAll(cs[1..], BlockedAfter(cs[0], blocked))
  }

  function Swallow(actions: seq<FacadeAction>, inner: seq<Operation>): seq<FacadeAction>
    requires actions != []
  {
    SetLast(actions, Ended(Extended(Last(actions), inner)))
  }

  lemma SwallowConcat(a: seq<FacadeAction>, b: seq<FacadeAction>, inner: seq<Operation>)
    requires b != []
    ensures Swallow(a + b, inner) == a + Swallow(b, inner)
  {}

  /** The calls as they come back: a last close without multicalls of its own keeps what it swallowed. */
  function KeptCalls(cs: seq<Call>, inner: seq<Operation>): seq<FacadeAction>
    requires BlockedAfterAll(cs, false)
    decreases |cs|
  {
    if BlockedAfterAll(cs[1..], false) then ExpectedOf(cs[0]) + KeptCalls(cs[1..], inner)
    else [LastClose(cs[0], inner)]
  }

  function LastClose(c: Call, inner: seq<Operation>): FacadeAction
    requires c.Close?
  {
    FacadeAction(c.close, if c.len > 0 then c.inner else inner, CloseEvent, false, true)
  }

  /** A run of calls that leaves the flag as it is holds side events only. */
  lemma {:induction false} OnlySides(cs: seq<Call>)
    requires BlockedAfterAll(cs, true) && !BlockedAfterAll(cs, false)
    ensures ActionsOf(cs) == [] && MainCalls(cs) == [] && Expected(cs) == []
    decreases |cs|
  {
    if cs != [] {
      ActionsStep(cs);
      OnlySides(cs[1..]);
    }
  }

  lemma KeptShape(cs: seq<Call>)
    requires ValidCalls(cs) && BlockedAfterAll(cs, false)
    ensures |KeptCalls(cs, [])| == |Expected(cs)| && Contents(KeptCalls(cs, [])) == Contents(Expected(cs))
    decreases |cs|
  {
    var c, rest := cs[0], cs[1..];
    assert c in cs && ValidCalls(rest);
    if BlockedAfterAll(rest, false) {
      KeptShape(rest);
      ContentsConcat(ExpectedOf(c), KeptCalls(rest, []));
      ContentsConcat(ExpectedOf(c), Expected(rest));
    } else {
      OnlySides(rest);
      assert Expected(cs) == ExpectedOf(c);
    }
  }

  lemma {:induction false} KeptLength(cs: seq<Call>, inner: seq<Operation>)
    requires BlockedAfterAll(cs, false)
    ensures |KeptCalls(cs, inner)| == |Expected(cs)|
    decreases |cs|
  {
    if BlockedAfterAll(cs[1..], false) { KeptLength(cs[1..], inner); } else { OnlySides(cs[1..]); }
  }

  function GlueTo(done: seq<FacadeAction>, r: Option<seq<FacadeAction>>): Option<seq<FacadeAction>> {
    if r.Some? then Some(done + r.value) else None
  }

  /** The close action with what it swallowed. */
  function Fed(c: Call, inner: seq<Operation>): FacadeAction
    requires c.Close?
  {
    FacadeAction(c.close, inner, CloseEvent, false, true)
  }

  lemma SwallowGroup(c: Call, inner: seq<Operation>)
    requires c.Close?
    ensures c.len > 0 ==>
              Swallow(GroupOf(c), inner) ==
                  [FacadeAction(c.start, c.inner, MulticallEvent, false, true), Fed(c, inner)]
    ensures c.len == 0 ==> Swallow(GroupOf(c), inner) == [Fed(c, inner)]
  {
    NothingAdded(inner);
  }

  lemma FixTwo(call: MainCall, ms: seq<MainCall>, a: FacadeAction, b: FacadeAction, more: seq<FacadeAction>)
    requires IsClose(call.name) && call.len != 0
    ensures Fix([call] + ms, [a, b] + more) == GlueTo([b.(multicall := a.multicall)], Fix(ms, more))
  {
    assert ([call] + ms)[1..] == ms && ([a, b] + more)[2..] == more;
  }

  lemma FixOne(call: MainCall, ms: seq<MainCall>, a: FacadeAction, more: seq<FacadeAction>)
    requires IsClose(call.name) && call.len == 0
    ensures Fix([call] + ms, [a] + more) == GlueTo([a], Fix(ms, more))
  {
    assert ([call] + ms)[1..] == ms && ([a] + more)[1..] == more;
  }

  /** The last close of the calls, with what it swallowed. */
  lemma FixLastClose(c: Call, inner: seq<Operation>, ms: seq<MainCall>, more: seq<FacadeAction>)
    requires c.Close? && ValidCall(c)
    ensures Fix(MainOf(c) + ms, Swallow(GroupOf(c), inner) + more) == GlueTo([LastClose(c, inner)], Fix(ms, more))
  {
    SwallowGroup(c, inner);
    if c.len > 0 {
      FixTwo(MainOf(c)[0], ms, FacadeAction(c.start, c.inner, MulticallEvent, false, true), Fed(c, inner), more);
    } else {
      FixOne(MainOf(c)[0], ms, Fed(c, inner), more);
    }
  }

  lemma {:induction false} FixPrefix(cs: seq<Call>, inner: seq<Operation>, ms: seq<MainCall>, more: seq<FacadeAction>)
    requires ValidCalls(cs) && BlockedAfterAll(cs, false)
    ensures ActionsOf(cs) != []
    ensures Fix(MainCalls(cs) + ms, Swallow(ActionsOf(cs), inner) + more) == GlueTo(KeptCalls(cs, inner), Fix(ms, more))
    decreases |cs|
  {
    var c, rest := cs[0], cs[1..];
    assert c in cs && ValidCalls(rest);
    ActionsStep(cs);
    if BlockedAfterAll(rest, false) {
      FixPrefix(rest, inner, ms, more);
      var group, tail := if c.OpenPlain? then [] else GroupOf(c), Swallow(ActionsOf(rest), inner) + more;
      SwallowConcat(group, ActionsOf(rest), inner);
      Assoc(group, Swallow(ActionsOf(rest), inner), more);
      Assoc(MainOf(c), MainCalls(rest), ms);
      if c.OpenPlain? {
        NothingAdded(tail);
        NothingAdded(MainCalls(rest) + ms);
        NothingAdded(KeptCalls(rest, inner));
      } else {
        FixFirst(c, MainCalls(rest) + ms, tail);
      }
      if Fix(ms, more).Some? { Assoc(ExpectedOf(c), KeptCalls(rest, inner), Fix(ms, more).value); }
    } else {
      OnlySides(rest);
      Unit(GroupOf(c));
      Unit(MainOf(c));
      FixLastClose(c, inner, ms, more);
    }
  }

  // ---------------------------------------------------------------------------------------------
  // The first clash.

  /** The calls before the first clash, and what the clash decides. */
  lemma {:induction false} FirstClash(cs: seq<Call>, blocked: bool) returns (i: nat)
    requires Clashes(cs, blocked) > 0
    ensures i < |cs| && Clashes(cs[..i], blocked) == 0 && BlockedAfterAll(cs[..i], blocked) && StartsFresh(cs[i])
    ensures Clashes(cs, blocked) == 1 + Clashes(cs[i + 1..], BlockedAfter(cs[i], true))
    ensures Benign(cs, blocked) == EmptyTail(cs[i..], cs[i].start)
    decreases |cs|
  {
    if blocked && StartsFresh(cs[0]) {
      i := 0;
    } else {
      i := FirstClash(cs[1..], BlockedAfter(cs[0], blocked));
      var pre := cs[1..][..i];
      assert cs[..i + 1] == [cs[0]] + pre && cs[..i + 1][1..] == pre;
      assert cs[1..][i + 1..] == cs[i + 2..] && cs[1..][i..] == cs[i + 1..];
      i := i + 1;
    }
  }

  lemma SplitAtClash(cs: seq<Call>) returns (pre: seq<Call>, c: Call, rest: seq<Call>)
    requires Clashes(cs, false) > 0
    ensures cs == pre + ([c] + rest) && Clashes(pre, false) == 0 && BlockedAfterAll(pre, false) && StartsFresh(c)
    ensures Clashes(cs, false) == 1 + Clashes(rest, c.Close?)
    ensures Benign(cs, false) == EmptyTail([c] + rest, c.start)
  {
    var i := FirstClash(cs, false);
    pre, c, rest := cs[..i], cs[i], cs[i + 1..];
    assert cs[i..] == [c] + rest;
  }

  lemma {:induction false} NoClash(cs: seq<Call>)
    ensures Clashes(cs, false) == 0 ==> Benign(cs, false)
    ensures MainCalls(cs) == [] ==> Clashes(cs, true) == 0 && Clashes(cs, false) == 0
  {
    NoClashFrom(cs, false);
    NoMainNoClash(cs, true);
    NoMainNoClash(cs, false);
  }

  lemma {:induction false} NoClashFrom(cs: seq<Call>, blocked: bool)
    ensures Clashes(cs, blocked) == 0 ==> Benign(cs, blocked)
    decreases |cs|
  {
    if cs != [] { NoClashFrom(cs[1..], BlockedAfter(cs[0], blocked)); }
  }

  lemma {:induction false} NoMainNoClash(cs: seq<Call>, blocked: bool)
    ensures MainCalls(cs) == [] ==> Clashes(cs, blocked) == 0
    decreases |cs|
  {
    if cs != [] { NoMainNoClash(cs[1..], BlockedAfter(cs[0], blocked)); }
  }

  lemma {:induction false} TailNoClash(cs: seq<Call>, start: Operation)
    requires EmptyTail(cs, start)
    ensures Clashes(cs, false) == 0
    decreases |cs|
  {
    if cs[0].Close? { NoMainNoClash(cs[1..], true); } else { TailNoClash(cs[1..], start); }
  }

  lemma BlockedIs(p: Processor, cs: seq<Call>)
    requires Between(p)
    ensures Between(AfterAll(p, cs)) && Blocked(AfterAll(p, cs)) == BlockedAfterAll(cs, Blocked(p))
    decreases |cs|
  {
    if cs == [] {
      Unit(p.actions);
      Unit(p.others);
    } else {
      AfterCall(p, cs[0]);
      BlockedIs(After(p, cs[0]), cs[1..]);
      AfterAllStep(p, cs);
    }
  }

  lemma {:induction false} EmitConcat(a: seq<Call>, b: seq<Call>)
    ensures Emit(a + b) == Emit(a) + Emit(b) && MainCalls(a + b) == MainCalls(a) + MainCalls(b)
    ensures Expected(a + b) == Expected(a) + Expected(b) && Opens(a + b) == Opens(a) + Opens(b)
    decreases |a|
  {
    if a == [] {
      NothingAdded(b);
      NothingAdded(Emit(b));
      NothingAdded(MainCalls(b));
      NothingAdded(Expected(b));
    } else {
      var c := a + b;
      assert c[0] == a[0] && c[1..] == a[1..] + b;
      EmitConcat(a[1..], b);
      Assoc(EmitCall(a[0]), Emit(a[1..]), Emit(b));
      Assoc(MainOf(a[0]), MainCalls(a[1..]), MainCalls(b));
      Assoc(ExpectedOf(a[0]), Expected(a[1..]), Expected(b));
    }
  }

  // ---------------------------------------------------------------------------------------------
  // A transaction with one clash.

  lemma FacadeSwallow(actions: seq<FacadeAction>, inner: seq<Operation>)
    requires actions != [] && Last(actions).kind.CloseEvent?
    ensures Facade(actions) != [] && Facade(Swallow(actions, inner)) == Swallow(Facade(actions), inner)
  {
    var pre, last := actions[..|actions| - 1], Last(actions);
    assert actions == pre + [last];
    FacadeConcat(pre, [last]);
    FacadeConcat(pre, [Ended(Extended(last, inner))]);
    FacadeSingle(last);
    FacadeSingle(Ended(Extended(last, inner)));
    assert Facade(actions) == Facade(pre) + [last];
    SetLastAppended(Facade(pre), last, Ended(Extended(last, inner)));
  }

  /** The processor after a clashing call. */
  function AfterClash(p: Processor, c: Call): Processor
    requires p.actions != [] && StartsFresh(c)
  {
    p.(actions := Swallow(p.actions, c.inner) + if c.Close? then [CloseAction(c)] else [])
  }

  lemma ClashStep(p: Processor, c: Call)
    requires Between(p) && Blocked(p) && ValidCall(c) && StartsFresh(c)
    ensures Run(p, EmitCall(c)) == Some(AfterClash(p, c))
    ensures Between(AfterClash(p, c)) && Blocked(AfterClash(p, c)) == c.Close? && AfterClash(p, c).opens == p.opens
  {
    RunBlock(p, c.start, c.inner);
    var q := Run(p, Block(c.start, c.inner)).value;
    SetLastAgain(p.actions, Ended(Extended(Last(p.actions), c.inner)), Last(p.actions));
    if c.Close? {
      RunConcat(p, Block(c.start, c.inner), [Closed(c.close)]);
      RunOne(q, Closed(c.close));
    } else {
      Unit(q.actions);
    }
  }

  function ClashActions(pre: seq<Call>, c: Call, rest: seq<Call>): seq<FacadeAction>
    requires ActionsOf(pre) != [] && StartsFresh(c)
  {
    Swallow(ActionsOf(pre), c.inner) + ((if c.Close? then [CloseAction(c)] else []) + ActionsOf(rest))
  }

  /** One clash, and its surroundings. */
  predicate OneClash(pre: seq<Call>, c: Call, rest: seq<Call>) {
    && ValidCalls(pre) && ValidCall(c) && ValidCalls(rest) && Opens(pre) + Opens(rest) <= 1
    && Clashes(pre, false) == 0 && BlockedAfterAll(pre, false) && StartsFresh(c) && Clashes(rest, c.Close?) == 0
  }

  lemma BeforeClash(pre: seq<Call>, c: Call, rest: seq<Call>)
    requires OneClash(pre, c, rest)
    ensures var p := AfterAll(IDLE, pre);
            && Run(IDLE, Emit(pre)) == Some(p) && Between(p) && Blocked(p) && p.opens == Opens(pre)
            && p.actions == Grouped(pre) && ActionsOf(pre) != []
  {
    RunCalls(IDLE, pre);
    BlockedIs(IDLE, pre);
    NothingAdded(Grouped(pre));
    FacadeSwallow(Grouped(pre), []);
  }

  lemma RunOneClash(pre: seq<Call>, c: Call, rest: seq<Call>)
    requires OneClash(pre, c, rest)
    ensures ActionsOf(pre) != [] && Run(IDLE, Emit(pre) + (EmitCall(c) + Emit(rest))).Some?
    ensures Facade(Run(IDLE, Emit(pre) + (EmitCall(c) + Emit(rest))).value.actions) == ClashActions(pre, c, rest)
  {
    BeforeClash(pre, c, rest);
    var p := AfterAll(IDLE, pre);
    RunConcat(IDLE, Emit(pre), EmitCall(c) + Emit(rest));
    RunConcat(p, EmitCall(c), Emit(rest));
    ClashStep(p, c);
    var q := AfterClash(p, c);
    RunCalls(q, rest);
    ClashFacade(pre, c, rest);
  }

  lemma ClashFacade(pre: seq<Call>, c: Call, rest: seq<Call>)
    requires Grouped(pre) != [] && Last(Grouped(pre)).kind.CloseEvent? && StartsFresh(c)
    ensures ActionsOf(pre) != []
    ensures Facade(Swallow(Grouped(pre), c.inner) + (if c.Close? then [CloseAction(c)] else []) + Grouped(rest)) ==
            ClashActions(pre, c, rest)
  {
    var fed, mid := Swallow(Grouped(pre), c.inner), if c.Close? then [CloseAction(c)] else [];
    FacadeSwallow(Grouped(pre), c.inner);
    FacadeConcat(fed + mid, Grouped(rest));
    FacadeConcat(fed, mid);
    if c.Close? { FacadeSingle(CloseAction(c)); }
    Assoc(Facade(fed), mid, ActionsOf(rest));
  }

  lemma ContentsSplit(a: seq<FacadeAction>, b: seq<FacadeAction>, x: seq<FacadeAction>, y: seq<FacadeAction>)
    requires |a| == |x|
    ensures Contents(a + b) == Contents(x + y) <==> Contents(a) == Contents(x) && Contents(b) == Contents(y)
  {
    ContentsConcat(a, b);
    ContentsConcat(x, y);
    if Contents(a + b) == Contents(x + y) {
      assert Contents(a) == Contents(a + b)[..|a|] && Contents(x) == Contents(x + y)[..|a|];
      assert Contents(b) == Contents(a + b)[|a|..] && Contents(y) == Contents(x + y)[|a|..];
    }
  }

  lemma RecoversSplit(a: seq<FacadeAction>, r: Option<seq<FacadeAction>>, x: seq<FacadeAction>, y: seq<FacadeAction>)
    requires |a| == |x|
    ensures Recovers(GlueTo(a, r), x + y) <==> Contents(a) == Contents(x) && Recovers(r, y)
  {
    if r.Some? { ContentsSplit(a, r.value, x, y); }
  }

  /** The calls from the clash on come back exactly when they are an empty tail. */
  lemma TailIff(c: Call, rest: seq<Call>)
    requires ValidCall(c) && ValidCalls(rest) && DistinctCloses([c] + rest) && StartsFresh(c)
    ensures Recovers(Fix(MainOf(c) + MainCalls(rest), (if c.Close? then [CloseAction(c)] else []) + ActionsOf(rest)),
                     ExpectedOf(c) + Expected(rest))
            <==> EmptyTail([c] + rest, c.start)
  {
    var cs := [c] + rest;
    assert cs[1..] == rest;
    forall i | 0 <= i < |rest| ensures rest[i] == cs[i + 1] {}
    if c.Close? {
      forall i | 0 <= i < |rest| && rest[i].Close? ensures rest[i].close != c.close {
        assert cs[0].close != cs[i + 1].close;
      }
      CloseShort(c, rest);
    } else {
      assert DistinctCloses(rest);
      NothingAdded(ActionsOf(rest));
      MulticallShort(c, rest);
    }
  }

  lemma OneClashIff(pre: seq<Call>, c: Call, rest: seq<Call>)
    requires OneClash(pre, c, rest) && DistinctCloses([c] + rest)
    ensures ActionsOf(pre) != []
    ensures Recovers(Fix(MainCalls(pre) + (MainOf(c) + MainCalls(rest)), ClashActions(pre, c, rest)),
                     Expected(pre) + (ExpectedOf(c) + Expected(rest)))
            <==> EmptyTail([c] + rest, c.start)
  {
    var ms, more := MainOf(c) + MainCalls(rest), (if c.Close? then [CloseAction(c)] else []) + ActionsOf(rest);
    FixPrefix(pre, c.inner, ms, more);
    KeptLength(pre, c.inner);
    RecoversSplit(KeptCalls(pre, c.inner), Fix(ms, more), Expected(pre), ExpectedOf(c) + Expected(rest));
    TailIff(c, rest);
    if EmptyTail([c] + rest, c.start) { KeptShape(pre); }
  }

  /** Main result. A transaction with at most one open comes back, each call with its data and its inner
      events, if and only if no multicall starts while the latest main action is a close, or the calls from
      the first such multicall on are empty multicalls that end in an empty close. */
  lemma RoundTripIff(cs: seq<Call>)
    requires ValidCalls(cs) && Opens(cs) <= 1 && DistinctCloses(cs)
    ensures Recovers(Reconstruct(cs), Expected(cs)) <==> Benign(cs, false)
  {
    if Clashes(cs, false) == 0 {
      RoundTrip(cs);
      NoClash(cs);
    } else {
      var pre, c, rest := SplitAtClash(cs);
      ClashedIff(cs, pre, c, rest);
    }
  }

  lemma FirstOf(c: Call, rest: seq<Call>)
    ensures Emit([c] + rest) == EmitCall(c) + Emit(rest) && MainCalls([c] + rest) == MainOf(c) + MainCalls(rest)
    ensures Expected([c] + rest) == ExpectedOf(c) + Expected(rest) && Opens([c] + rest) == CallOpens(c) + Opens(rest)
  {
    assert ([c] + rest)[1..] == rest;
  }

  lemma OneClashRecovered(pre: seq<Call>, c: Call, rest: seq<Call>)
    requires OneClash(pre, c, rest) && DistinctCloses([c] + rest)
    ensures Recovers(Reconstruct(pre + ([c] + rest)), Expected(pre + ([c] + rest))) <==> EmptyTail([c] + rest, c.start)
  {
    EmitConcat(pre, [c] + rest);
    FirstOf(c, rest);
    RunOneClash(pre, c, rest);
    OneClashIff(pre, c, rest);
  }

  lemma IsOneClash(pre: seq<Call>, c: Call, rest: seq<Call>)
    requires var cs := pre + ([c] + rest); ValidCalls(cs) && Opens(cs) <= 1 && DistinctCloses(cs)
    requires Clashes(pre, false) == 0 && BlockedAfterAll(pre, false) && StartsFresh(c) && Clashes(rest, c.Close?) == 0
    ensures OneClash(pre, c, rest) && DistinctCloses([c] + rest)
  {
    var cs := pre + ([c] + rest);
    EmitConcat(pre, [c] + rest);
    FirstOf(c, rest);
    assert c == cs[|pre|];
    forall i | 0 <= i < |[c] + rest| ensures ([c] + rest)[i] == cs[|pre| + i] {}
  }

  lemma ClashedIff(cs: seq<Call>, pre: seq<Call>, c: Call, rest: seq<Call>)
    requires ValidCalls(cs) && Opens(cs) <= 1 && DistinctCloses(cs) && cs == pre + ([c] + rest)
    requires Clashes(pre, false) == 0 && BlockedAfterAll(pre, false) && StartsFresh(c)
    requires Clashes(cs, false) == 1 + Clashes(rest, c.Close?)
    ensures Recovers(Reconstruct(cs), Expected(cs)) <==> EmptyTail([c] + rest, c.start)
  {
    if Clashes(rest, c.Close?) == 0 {
      IsOneClash(pre, c, rest);
      OneClashRecovered(pre, c, rest);
    } else {
      ManyClashes(cs);
      if EmptyTail([c] + rest, c.start) { TailClashes(c, rest); }
    }
  }

  lemma TailClashes(c: Call, rest: seq<Call>)
    requires StartsFresh(c) && EmptyTail([c] + rest, c.start)
    ensures Clashes(rest, c.Close?) == 0
  {
    assert ([c] + rest)[1..] == rest;
    if c.Close? { NoMainNoClash(rest, true); } else { TailNoClash(rest, c.start); }
  }

  /** There is always an action for every clash, and one more. */
  lemma {:induction false} Surplus(cs: seq<Call>, blocked: bool)
    requires ValidCalls(cs)
    ensures Need(MainCalls(cs)) >= Clashes(cs, blocked)
    ensures !blocked && Clashes(cs, blocked) > 0 ==> Need(MainCalls(cs)) > Clashes(cs, blocked)
    decreases |cs|
  {
    if cs != [] {
      NeedConcat(MainOf(cs[0]), MainCalls(cs[1..]));
      NeedOfOne(cs[0]);
      Surplus(cs[1..], BlockedAfter(cs[0], blocked));
    }
  }

  /** Two clashes leave too few actions. */
  lemma ManyClashes(cs: seq<Call>)
    requires ValidCalls(cs) && Opens(cs) <= 1 && Clashes(cs, false) >= 2
    ensures Reconstruct(cs).None?
  {
    RunAnyCalls(IDLE, cs);
    Surplus(cs, false);
    var actions, ms := Facade(Run(IDLE, Emit(cs)).value.actions), MainCalls(cs);
    if Fix(ms, actions).Some? { FixConsumes(ms, actions); }
  }

  /** A close and then a multicall with an event: the program stops, for want of an action. */
  lemma ClashStops(name: CallName, close: Operation, start: Operation, op: Operation)
    requires IsClose(name)
    ensures var cs := [Close(name, close, start, 0, []), Multicall(start, 1, [op])];
            ValidCalls(cs) && Opens(cs) == 0 && Clashes(cs, false) == 1 && Reconstruct(cs).None?
  {
    var c, d := Close(name, close, start, 0, []), Multicall(start, 1, [op]);
    assert [c, d] == [c] + ([d] + []) && [c, d][1..] == [d] && [c][1..] == [] && [d][1..] == [];
    assert Clashes([d], true) == 1 && Opens([d]) == 0;
    FirstOf(d, []);
    FirstOf(c, [d]);
    EmitConcat([c], [d] + []);
    assert BlockedAfterAll([c], false) && OneClash([c], d, []);
    RunOneClash([c], d, []);
    ActionsStep([c]);
    assert |ActionsOf([c])| == 1 && |ClashActions([c], d, [])| == 1 && |MainCalls([c, d])| == 2;
    TooManyCalls(MainCalls([c, d]), ClashActions([c], d, []));
  }

  /** A close and then an empty close with multicalls: a clash, and yet both come back. */
  lemma ClashPasses(name: CallName, close: Operation, close': Operation, start: Operation)
    requires IsClose(name) && close != close'
    ensures var cs := [Close(name, close, start, 0, []), Close(name, close', start, 1, [])];
            Clashes(cs, false) == 1 && Recovers(Reconstruct(cs), Expected(cs))
  {
    var cs := [Close(name, close, start, 0, []), Close(name, close', start, 1, [])];
    assert cs[1..] == [cs[1]] && [cs[1]][1..] == [];
    assert Clashes([cs[1]], true) == 1 && Opens([cs[1]]) == 0;
    RoundTripIff(cs);
  }
}
