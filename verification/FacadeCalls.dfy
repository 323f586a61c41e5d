/** Grouping the event stream of a transaction into facade calls, and regrouping it against the
    names and lengths found in the call trace. */
module FacadeCalls {
  import opened Wrappers
  import opened Operations

  /** What the log handler tells the processor. */
  datatype Event =
    | Opened(op: Operation)
    | Started(op: Operation)
    | Inner(op: Operation)
    | Finished
    | Closed(op: Operation)

  datatype Processor = Processor(running: bool, others: seq<Operation>, opens: nat, actions: seq<FacadeAction>)

  const IDLE := Processor(false, [], 0, [])

  function SetLast<T>(s: seq<T>, x: T): seq<T>
    requires s != []
  {
    s[..|s| - 1] + [x]
  }

  function Last<T>(s: seq<T>): T
    requires s != []
  {
    s[|s| - 1]
  }

  lemma SetLastAgain<T>(s: seq<T>, x: T, y: T)
    requires s != []
    ensures SetLast(s, x) != [] && Last(SetLast(s, x)) == x && SetLast(SetLast(s, x), y) == SetLast(s, y)
    ensures SetLast(s, Last(s)) == s
  {}

  lemma SetLastAppended<T>(s: seq<T>, x: T, y: T)
    ensures SetLast(s + [x], y) == s + [y] && Last(s + [x]) == x
  {}

  lemma Assoc<T>(a: seq<T>, b: seq<T>, c: seq<T>)
    ensures (a + b) + c == a + (b + c)
  {}

  lemma Unit<T>(a: seq<T>)
    ensures a + [] == a && [] + a == a
  {}

  /** An open event that still waits for its collateral or its multicall. */
  predicate AwaitsCollateral(p: Processor) {
    p.actions != [] && Last(p.actions).kind.OpenEvent? && !Last(p.actions).ended
  }

  /** One event; None is a fatal stop. */
  function Step(p: Processor, e: Event): Option<Processor> {
    match e
    case Opened(op) =>
      if p.opens > 0 then None
      else Some(p.(actions := p.actions + [FacadeAction(op, [], OpenEvent, false, false)], opens := p.opens + 1))
    case Started(op) =>
      if p.running then None
      else if p.actions == [] || Last(p.actions).ended
      then Some(p.(actions := p.actions + [FacadeAction(op, [], MulticallEvent, false, false)], running := true))
      else Some(p.(running := true))
    case Inner(op) =>
      if p.running then
        if p.actions == [] then None
        else Some(p.(actions := SetLast(p.actions, Last(p.actions).(multicall := Last(p.actions).multicall + [op]))))
      else if AwaitsCollateral(p) && op.action.AddCollateral? then
        if Last(p.actions).multicall != [] then None
        else Some(p.(actions := SetLast(p.actions,
          Last(p.actions).(multicall := [op], withoutMC := true, ended := true))))
      else Some(p.(others := p.others + [op]))
    case Finished =>
      if !p.running then None
      else if p.actions == [] then Some(p.(running := false))
      else Some(p.(running := false, actions := SetLast(p.actions, Last(p.actions).(ended := true))))
    case Closed(op) =>
      Some(p.(actions := p.actions + [FacadeAction(op, [], CloseEvent, false, false)]))
  }

  function Run(p: Processor, es: seq<Event>): Option<Processor>
    decreases |es|
  {
    if es == [] then Some(p) else
      match Step(p, es[0])
      case None => None
      case Some(q) => Run(q, es[1..])
  }

  predicate Plain(a: FacadeAction) { a.kind.OpenEvent? && a.withoutMC }

  /** The actions to be matched with the call trace: all but opens without a multicall. */
  function Facade(actions: seq<FacadeAction>): seq<FacadeAction> {
    if actions == [] then []
    else if Plain(actions[0]) then Facade(actions[1..])
    else [actions[0]] + Facade(actions[1..])
  }

  function PlainOpens(actions: seq<FacadeAction>): seq<FacadeAction> {
    if actions == [] then []
    else if Plain(actions[0]) then [actions[0]] + PlainOpens(actions[1..])
    else PlainOpens(actions[1..])
  }

  /** A main call of the trace: its name and the number of multicalls passed to it. */
  datatype MainCall = MainCall(name: CallName, len: nat)

  predicate IsClose(name: CallName) {
    name.FacadeLiquidate? || name.FacadeLiquidateExpired? || name.FacadeCloseAccount?
  }

  /** Regrouping: a close that carries multicalls takes them from the action before it. */
  function Fix(calls: seq<MainCall>, actions: seq<FacadeAction>): Option<seq<FacadeAction>> {
    if calls == [] then (if actions == [] then Some([]) else None)
    else if actions == [] then None
    else if calls[0].name.FacadeOpenMulticall? && !actions[0].kind.OpenEvent? then None
    else if IsClose(calls[0].name) && calls[0].len != 0 && |actions| > 1
    then Prepend(actions[1].(multicall := actions[0].multicall), Fix(calls[1..], actions[2..]))
    else Prepend(actions[0], Fix(calls[1..], actions[1..]))
  }

  /** The regrouping is skipped when no action is left to match with the trace. */
  function Regroup(calls: seq<MainCall>, actions: seq<FacadeAction>): Option<seq<FacadeAction>> {
    if actions == [] then Some([]) else Fix(calls, actions)
  }

  function Prepend<T>(x: T, r: Option<seq<T>>): Option<seq<T>> {
    if r.Some? then Some([x] + r.value) else None
  }

  // ---------------------------------------------------------------------------------------------
  // The protocol's side: what a transaction consists of and which events it emits.

  datatype Call =
    | OpenPlain(open: Operation, collateral: Operation)
    | OpenMulticall(open: Operation, start: Operation, len: nat, inner: seq<Operation>)
    | Multicall(start: Operation, len: nat, inner: seq<Operation>)
    | Close(name: CallName, close: Operation, start: Operation, len: nat, inner: seq<Operation>)
    | Side(op: Operation)

  predicate ValidCall(c: Call) {
    match c
    case OpenPlain(_, collateral) => collateral.action.AddCollateral?
    case OpenMulticall(_, _, len, _) => len > 0
    case Multicall(_, len, _) => len > 0
    case Close(name, _, _, len, inner) =>
      && (name.FacadeLiquidate? || name.FacadeLiquidateExpired? || name.FacadeCloseAccount?)
      && (len == 0 ==> inner == [])
    case Side(_) => true
  }

  predicate ValidCalls(cs: seq<Call>) { forall c :: c in cs ==> ValidCall(c) }

  function Inners(ops: seq<Operation>): seq<Event> {
    if ops == [] then [] else [Inner(ops[0])] + Inners(ops[1..])
  }

  function Block(start: Operation, inner: seq<Operation>): seq<Event> {
    [Started(start)] + Inners(inner) + [Finished]
  }

  function EmitCall(c: Call): seq<Event> {
    match c
    case OpenPlain(open, collateral) => [Opened(open), Inner(collateral)]
    case OpenMulticall(open, start, _, inner) => [Opened(open)] + Block(start, inner)
    case Multicall(start, _, inner) => Block(start, inner)
    case Close(_, close, start, len, inner) => (if len > 0 then Block(start, inner) else []) + [Closed(close)]
    case Side(op) => [Inner(op)]
  }

  function Emit(cs: seq<Call>): seq<Event> {
    if cs == [] then [] else EmitCall(cs[0]) + Emit(cs[1..])
  }

  function MainCalls(cs: seq<Call>): seq<MainCall> {
    if cs == [] then [] else MainOf(cs[0]) + MainCalls(cs[1..])
  }

  function MainOf(c: Call): seq<MainCall> {
    match c
    case OpenMulticall(_, _, len, _) => [MainCall(FacadeOpenMulticall, len)]
    case Multicall(_, len, _) => [MainCall(FacadeMulticall, len)]
    case Close(name, _, _, len, _) => [MainCall(name, len)]
    case _ => []
  }

  /** The calls as they are to be saved, each with exactly its own inner events. */
  function Expected(cs: seq<Call>): seq<FacadeAction> {
    if cs == [] then [] else ExpectedOf(cs[0]) + Expected(cs[1..])
  }

  function ExpectedOf(c: Call): seq<FacadeAction> {
    match c
    case OpenMulticall(open, _, _, inner) => [FacadeAction(open, inner, OpenEvent, false, true)]
    case Multicall(start, _, inner) => [FacadeAction(start, inner, MulticallEvent, false, true)]
    case Close(_, close, _, _, inner) => [FacadeAction(close, inner, CloseEvent, false, false)]
    case _ => []
  }

  function ExpectedPlain(cs: seq<Call>): seq<FacadeAction> {
    if cs == [] then []
    else if cs[0].OpenPlain? then
      [FacadeAction(cs[0].open, [cs[0].collateral], OpenEvent, true, true)] + ExpectedPlain(cs[1..])
    else ExpectedPlain(cs[1..])
  }

  function Sides(cs: seq<Call>): seq<Operation> {
    if cs == [] then [] else if cs[0].Side? then [cs[0].op] + Sides(cs[1..]) else Sides(cs[1..])
  }

  function Opens(cs: seq<Call>): nat {
    if cs == [] then 0 else (if cs[0].OpenPlain? || cs[0].OpenMulticall? then 1 else 0) + Opens(cs[1..])
  }

  /** Whether the call starts a multicall of its own, not following an open event of its own. */
  predicate StartsFresh(c: Call) { c.Multicall? || (c.Close? && c.len > 0) }

  /** Whether the latest main action after `c` is a close that no multicall has ended. */
  function BlockedAfter(c: Call, blocked: bool): bool {
    if c.Side? then blocked else c.Close?
  }

  /** Number of multicalls that start while the latest main action is a close. */
  function Clashes(cs: seq<Call>, blocked: bool): nat {
    if cs == [] then 0
    else (if blocked && StartsFresh(cs[0]) then 1 else 0) + Clashes(cs[1..], BlockedAfter(cs[0], blocked))
  }

  /** Feeding a transaction to an idle processor, popping, and regrouping. */
  function Reconstruct(cs: seq<Call>): Option<seq<FacadeAction>> {
    match Run(IDLE, Emit(cs))
    case None => None
    case Some(p) => Regroup(MainCalls(cs), Facade(p.actions))
  }

  // ---------------------------------------------------------------------------------------------
  // Grouping.

  function GroupOf(c: Call): seq<FacadeAction> {
    match c
    case OpenPlain(open, collateral) => [FacadeAction(open, [collateral], OpenEvent, true, true)]
    case Close(_, close, start, len, inner) =>
      (if len > 0 then [FacadeAction(start, inner, MulticallEvent, false, true)] else []) +
        [FacadeAction(close, [], CloseEvent, false, false)]
    case _ => ExpectedOf(c)
  }

  function Grouped(cs: seq<Call>): seq<FacadeAction> {
    if cs == [] then [] else GroupOf(cs[0]) + Grouped(cs[1..])
  }

  lemma {:induction false} RunConcat(p: Processor, a: seq<Event>, b: seq<Event>)
    ensures Run(p, a + b) == match Run(p, a) case None => None case Some(q) => Run(q, b)
    decreases |a|
  {
    if a == [] {
      assert a + b == b;
    } else {
      assert (a + b)[0] == a[0] && (a + b)[1..] == a[1..] + b;
      if Step(p, a[0]).Some? { RunConcat(Step(p, a[0]).value, a[1..], b); }
    }
  }

  lemma RunOne(p: Processor, e: Event)
    ensures Run(p, [e]) == Step(p, e)
  {
    assert [e][1..] == [];
  }

  function Extended(a: FacadeAction, ops: seq<Operation>): FacadeAction { a.(multicall := a.multicall + ops) }

  function Ended(a: FacadeAction): FacadeAction { a.(ended := true) }

  lemma ExtendTwice(a: FacadeAction, op: Operation, ops: seq<Operation>)
    requires ops != [] && ops[0] == op
    ensures Extended(Extended(a, [op]), ops[1..]) == Extended(a, ops)
  {
    Assoc(a.multicall, [op], ops[1..]);
    assert [op] + ops[1..] == ops;
  }

  /** Events inside a multicall all go to the latest main action. */
  lemma {:induction false} RunInners(p: Processor, ops: seq<Operation>)
    requires p.running && p.actions != []
    ensures Run(p, Inners(ops)) == Some(p.(actions := SetLast(p.actions, Extended(Last(p.actions), ops))))
    decreases |ops|
  {
    var last := Last(p.actions);
    if ops == [] {
      Unit(last.multicall);
      SetLastAgain(p.actions, last, last);
    } else {
      var q := p.(actions := SetLast(p.actions, Extended(last, [ops[0]])));
      assert Step(p, Inner(ops[0])) == Some(q);
      assert Inners(ops)[1..] == Inners(ops[1..]);
      SetLastAgain(p.actions, Extended(last, [ops[0]]), Extended(last, ops));
      RunInners(q, ops[1..]);
      ExtendTwice(last, ops[0], ops);
    }
  }

  /** A multicall block: appended as an action of its own, or absorbed by the latest action when
      that one has not ended. */
  lemma RunBlock(p: Processor, start: Operation, inner: seq<Operation>)
    requires !p.running
    ensures Run(p, Block(start, inner)) == Some(
              if p.actions == [] || Last(p.actions).ended
              then p.(actions := p.actions + [FacadeAction(start, inner, MulticallEvent, false, true)])
              else p.(actions := SetLast(p.actions, Ended(Extended(Last(p.actions), inner)))))
  {
    var q := Step(p, Started(start)).value;
    RunConcat(p, [Started(start)] + Inners(inner), [Finished]);
    RunConcat(p, [Started(start)], Inners(inner));
    RunOne(p, Started(start));
    RunInners(q, inner);
    var last := Extended(Last(q.actions), inner);
    var r := q.(actions := SetLast(q.actions, last));
    RunOne(r, Finished);
    SetLastAgain(q.actions, last, Ended(last));
    if p.actions == [] || Last(p.actions).ended {
      SetLastAppended(p.actions, FacadeAction(start, [], MulticallEvent, false, false), Ended(last));
      Unit(inner);
    }
  }

  /** The state between calls: nothing running, no open event left waiting. */
  predicate Settled(p: Processor) { !p.running && !AwaitsCollateral(p) }

  predicate Blocked(p: Processor) { p.actions != [] && Last(p.actions).kind.CloseEvent? && !Last(p.actions).ended }

  /** Between calls the latest action has ended unless it is a close. */
  predicate Between(p: Processor) {
    Settled(p) && (p.actions == [] || Last(p.actions).ended || Last(p.actions).kind.CloseEvent?)
  }

  function CallOpens(c: Call): nat { if c.OpenPlain? || c.OpenMulticall? then 1 else 0 }

  /** The processor once the group of `c` has been appended. */
  function After(p: Processor, c: Call): Processor {
    p.(actions := p.actions + GroupOf(c), opens := p.opens + CallOpens(c), others := p.others + Sides([c]))
  }

  lemma SidesOfOne(c: Call)
    ensures Sides([c]) == if c.Side? then [c.op] else []
  {
    assert [c][1..] == [];
  }

  lemma RunOpenPlain(p: Processor, c: Call)
    requires c.OpenPlain? && ValidCall(c) && Between(p) && p.opens == 0
    ensures Run(p, EmitCall(c)) == Some(After(p, c))
  {
    var q := Step(p, Opened(c.open)).value;
    RunConcat(p, [Opened(c.open)], [Inner(c.collateral)]);
    assert [Opened(c.open)] + [Inner(c.collateral)] == EmitCall(c);
    RunOne(p, Opened(c.open));
    RunOne(q, Inner(c.collateral));
    SetLastAppended(p.actions, FacadeAction(c.open, [], OpenEvent, false, false), GroupOf(c)[0]);
    SidesOfOne(c);
    Unit(p.others);
  }

  lemma RunOpenMulticall(p: Processor, c: Call)
    requires c.OpenMulticall? && Between(p) && p.opens == 0
    ensures Run(p, EmitCall(c)) == Some(After(p, c))
  {
    var q := Step(p, Opened(c.open)).value;
    RunConcat(p, [Opened(c.open)], Block(c.start, c.inner));
    RunOne(p, Opened(c.open));
    RunBlock(q, c.start, c.inner);
    SetLastAppended(p.actions, FacadeAction(c.open, [], OpenEvent, false, false), GroupOf(c)[0]);
    Unit(c.inner);
    SidesOfOne(c);
    Unit(p.others);
  }

  lemma RunClose(p: Processor, c: Call)
    requires c.Close? && Between(p) && !(Blocked(p) && StartsFresh(c))
    ensures Run(p, EmitCall(c)) == Some(After(p, c))
  {
    SidesOfOne(c);
    Unit(p.others);
    if c.len > 0 {
      RunConcat(p, Block(c.start, c.inner), [Closed(c.close)]);
      RunBlock(p, c.start, c.inner);
      var q := Run(p, Block(c.start, c.inner)).value;
      RunOne(q, Closed(c.close));
      Assoc(p.actions, [FacadeAction(c.start, c.inner, MulticallEvent, false, true)],
        [FacadeAction(c.close, [], CloseEvent, false, false)]);
    } else {
      assert EmitCall(c) == [Closed(c.close)];
      RunOne(p, Closed(c.close));
      assert GroupOf(c) == [FacadeAction(c.close, [], CloseEvent, false, false)];
    }
  }

  lemma RunMulticall(p: Processor, c: Call)
    requires c.Multicall? && Between(p) && !Blocked(p)
    ensures Run(p, EmitCall(c)) == Some(After(p, c))
  {
    RunBlock(p, c.start, c.inner);
    SidesOfOne(c);
    Unit(p.others);
  }

  lemma RunSide(p: Processor, c: Call)
    requires c.Side? && Between(p)
    ensures Run(p, EmitCall(c)) == Some(After(p, c))
  {
    RunOne(p, Inner(c.op));
    SidesOfOne(c);
    Unit(p.actions);
  }

  /** One call without a clash appends exactly its own group. */
  lemma RunCall(p: Processor, c: Call)
    requires Between(p) && ValidCall(c) && p.opens + CallOpens(c) <= 1
    requires !(Blocked(p) && StartsFresh(c))
    ensures Run(p, EmitCall(c)) == Some(After(p, c))
  {
    match c {
      case OpenPlain(_, _) => RunOpenPlain(p, c);
      case OpenMulticall(_, _, _, _) => RunOpenMulticall(p, c);
      case Multicall(_, _, _) => RunMulticall(p, c);
      case Close(_, _, _, _, _) => RunClose(p, c);
      case Side(_) => RunSide(p, c);
    }
  }

  lemma AfterCall(p: Processor, c: Call)
    requires Between(p)
    ensures Between(After(p, c)) && Blocked(After(p, c)) == BlockedAfter(c, Blocked(p))
  {
    var q := After(p, c);
    if c.Side? {
      assert q.actions == p.actions;
    } else {
      assert Last(q.actions) == Last(GroupOf(c));
    }
  }

  function AfterAll(p: Processor, cs: seq<Call>): Processor {
    p.(actions := p.actions + Grouped(cs), opens := p.opens + Opens(cs), others := p.others + Sides(cs))
  }

  lemma AfterAllStep(p: Processor, cs: seq<Call>)
    requires cs != []
    ensures AfterAll(After(p, cs[0]), cs[1..]) == AfterAll(p, cs)
  {
    SidesOfOne(cs[0]);
    Assoc(p.actions, GroupOf(cs[0]), Grouped(cs[1..]));
    Assoc(p.others, Sides([cs[0]]), Sides(cs[1..]));
    Unit(Sides(cs[1..]));
  }

  /** Without clashes the processor holds exactly the groups of the calls and the side events. */
  lemma {:induction false} RunCalls(p: Processor, cs: seq<Call>)
    requires Between(p) && ValidCalls(cs) && p.opens + Opens(cs) <= 1 && Clashes(cs, Blocked(p)) == 0
    ensures Run(p, Emit(cs)) == Some(AfterAll(p, cs))
    decreases |cs|
  {
    if cs == [] {
      Unit(p.actions);
      Unit(p.others);
    } else {
      RunConcat(p, EmitCall(cs[0]), Emit(cs[1..]));
      RunCall(p, cs[0]);
      AfterCall(p, cs[0]);
      RunCalls(After(p, cs[0]), cs[1..]);
      AfterAllStep(p, cs);
    }
  }

  lemma {:induction false} FacadeConcat(a: seq<FacadeAction>, b: seq<FacadeAction>)
    ensures Facade(a + b) == Facade(a) + Facade(b)
    ensures PlainOpens(a + b) == PlainOpens(a) + PlainOpens(b)
  {
    if a == [] {
      assert a + b == b;
    } else {
      assert (a + b)[0] == a[0] && (a + b)[1..] == a[1..] + b;
      FacadeConcat(a[1..], b);
    }
  }

  lemma FacadeOfGroup(c: Call)
    ensures Facade(GroupOf(c)) == (if c.OpenPlain? then [] else GroupOf(c))
    ensures PlainOpens(GroupOf(c)) == (if c.OpenPlain? then GroupOf(c) else [])
  {
    var g := GroupOf(c);
    if |g| == 1 {
      assert g[1..] == [];
    } else if |g| == 2 {
      assert g[1..] == [g[1]] && [g[1]][1..] == [];
      assert Facade([g[1]]) == [g[1]] && PlainOpens([g[1]]) == [];
    }
  }

  lemma FixFirst(c: Call, ms: seq<MainCall>, actions: seq<FacadeAction>)
    requires ValidCall(c) && !c.OpenPlain?
    ensures Fix(MainOf(c) + ms, GroupOf(c) + actions) ==
            match Fix(ms, actions) case None => None case Some(r) => Some(ExpectedOf(c) + r)
  {
    var g := GroupOf(c) + actions;
    if c.Side? {
      assert MainOf(c) + ms == ms && g == actions;
      if Fix(ms, actions).Some? { assert [] + Fix(ms, actions).value == Fix(ms, actions).value; }
    } else {
      assert (MainOf(c) + ms)[1..] == ms;
      if c.Close? && c.len > 0 { assert g[2..] == actions; } else { assert g[1..] == actions; }
    }
  }

  /** Regrouping undoes the grouping. */
  lemma {:induction false} FixGrouped(cs: seq<Call>)
    requires ValidCalls(cs)
    ensures Fix(MainCalls(cs), Facade(Grouped(cs))) == Some(Expected(cs))
    decreases |cs|
  {
    if cs != [] {
      var c, rest := cs[0], cs[1..];
      FixGrouped(rest);
      FacadeConcat(GroupOf(c), Grouped(rest));
      FacadeOfGroup(c);
      if c.OpenPlain? {
        assert Facade(Grouped(cs)) == Facade(Grouped(rest)) && MainCalls(cs) == MainCalls(rest) &&
               Expected(cs) == Expected(rest);
      } else {
        FixFirst(c, MainCalls(rest), Facade(Grouped(rest)));
      }
    }
  }

  lemma {:induction false} PlainGrouped(cs: seq<Call>)
    ensures PlainOpens(Grouped(cs)) == ExpectedPlain(cs)
  {
    if cs != [] {
      PlainGrouped(cs[1..]);
      FacadeConcat(GroupOf(cs[0]), Grouped(cs[1..]));
      FacadeOfGroup(cs[0]);
    }
  }

  /** Main result. Every transaction with at most one open and no multicall started right behind a
      close is recovered exactly: main calls with their inner events, opens without multicall with
      their collateral, and the remaining events, each in order. */
  lemma {:induction false} RoundTrip(cs: seq<Call>)
    requires ValidCalls(cs) && Opens(cs) <= 1 && Clashes(cs, false) == 0
    ensures Reconstruct(cs) == Some(Expected(cs))
    ensures Run(IDLE, Emit(cs)).Some?
    ensures var p := Run(IDLE, Emit(cs)).value;
            PlainOpens(p.actions) == ExpectedPlain(cs) && p.others == Sides(cs) && !p.running
  {
    RunCalls(IDLE, cs);
    assert [] + Grouped(cs) == Grouped(cs);
    FixGrouped(cs);
    PlainGrouped(cs);
  }

  // ---------------------------------------------------------------------------------------------
  // What clashes cost.

  function Need(ms: seq<MainCall>): nat {
    if ms == [] then 0 else (if IsClose(ms[0].name) && ms[0].len != 0 then 2 else 1) + Need(ms[1..])
  }

  /** A successful regrouping has used every action: as many as the calls need, or one fewer, in
      which case the last call is a close whose action has been taken as it was. */
  lemma {:induction false} FixConsumes(ms: seq<MainCall>, actions: seq<FacadeAction>)
    requires Fix(ms, actions).Some?
    ensures |Fix(ms, actions).value| == |ms|
    ensures |actions| == Need(ms)
            || (|actions| == Need(ms) - 1 && ms != [] && Last(ms).len != 0 && IsClose(Last(ms).name)
                && actions != [] && Last(Fix(ms, actions).value) == Last(actions))
    decreases |ms|
  {
    if ms != [] {
      var two := IsClose(ms[0].name) && ms[0].len != 0 && |actions| > 1;
      var rest := if two then actions[2..] else actions[1..];
      FixConsumes(ms[1..], rest);
      if ms[1..] != [] {
        assert Last(ms) == Last(ms[1..]);
        if rest != [] { assert Last(actions) == Last(rest); }
      }
    }
  }

  lemma {:induction false} TooManyCalls(calls: seq<MainCall>, actions: seq<FacadeAction>)
    requires |calls| > |actions|
    ensures Fix(calls, actions) == None
    decreases |calls|
  {
    if actions != [] {
      TooManyCalls(calls[1..], actions[1..]);
      if |actions| > 1 { TooManyCalls(calls[1..], actions[2..]); }
    }
  }

  lemma {:induction false} NeedConcat(a: seq<MainCall>, b: seq<MainCall>)
    ensures Need(a + b) == Need(a) + Need(b)
    decreases |a|
  {
    if a == [] {
      assert a + b == b;
    } else {
      assert (a + b)[1..] == a[1..] + b;
      NeedConcat(a[1..], b);
    }
  }

  /** What one call, clash or not, does to the actions matched with the trace. */
  ghost predicate Adds(p: Processor, q: Processor, c: Call) {
    && Between(q) && q.opens == p.opens + CallOpens(c)
    && Blocked(q) == BlockedAfter(c, Blocked(p))
    && |Facade(q.actions)| == |Facade(p.actions)| + Need(MainOf(c)) - (if Blocked(p) && StartsFresh(c) then 1 else 0)
    && (c.Close? ==>
          Facade(q.actions) != [] &&
          Last(Facade(q.actions)) == FacadeAction(c.close, [], CloseEvent, false, false))
    && (c.Side? || c.OpenPlain? ==> Facade(q.actions) == Facade(p.actions))
  }

  lemma NeedOfOne(c: Call)
    ensures Need(MainOf(c)) == if c.Side? ||
            c.OpenPlain? then 0 else if c.Close? && IsClose(c.name) && c.len != 0 then 2 else 1
  {
    if MainOf(c) != [] { assert MainOf(c)[1..] == []; }
  }

  lemma AddsGroup(p: Processor, c: Call)
    requires Between(p) && ValidCall(c) && !(Blocked(p) && StartsFresh(c))
    ensures Adds(p, After(p, c), c)
  {
    AfterCall(p, c);
    FacadeConcat(p.actions, GroupOf(c));
    FacadeOfGroup(c);
    NeedOfOne(c);
  }

  /** A clashing multicall is swallowed by the close before it. */
  lemma Swallowed(p: Processor, start: Operation, inner: seq<Operation>)
    requires Between(p) && Blocked(p)
    ensures Run(p, Block(start, inner)).Some?
    ensures var q := Run(p, Block(start, inner)).value;
            Between(q) && q.opens == p.opens && !Blocked(q) && |Facade(q.actions)| == |Facade(p.actions)|
  {
    var n := |p.actions| - 1;
    var last := Ended(Extended(Last(p.actions), inner));
    RunBlock(p, start, inner);
    assert p.actions == p.actions[..n] + [Last(p.actions)];
    FacadeConcat(p.actions[..n], [Last(p.actions)]);
    FacadeConcat(p.actions[..n], [last]);
    FacadeSingle(Last(p.actions));
    FacadeSingle(last);
  }

  lemma AppendClose(q: Processor, op: Operation)
    requires Between(q)
    ensures var a := FacadeAction(op, [], CloseEvent, false, false);
            Facade(Step(q, Closed(op)).value.actions) == Facade(q.actions) + [a] &&
              Run(q, [Closed(op)]) == Step(q, Closed(op))
  {
    var a := FacadeAction(op, [], CloseEvent, false, false);
    RunOne(q, Closed(op));
    FacadeConcat(q.actions, [a]);
    FacadeSingle(a);
  }

  lemma RunClash(p: Processor, c: Call)
    requires Between(p) && ValidCall(c) && Blocked(p) && StartsFresh(c)
    ensures Run(p, EmitCall(c)).Some? && Adds(p, Run(p, EmitCall(c)).value, c)
  {
    Swallowed(p, c.start, c.inner);
    NeedOfOne(c);
    var q := Run(p, Block(c.start, c.inner)).value;
    if c.Close? {
      RunConcat(p, Block(c.start, c.inner), [Closed(c.close)]);
      AppendClose(q, c.close);
    }
  }

  lemma RunAnyCall(p: Processor, c: Call)
    requires Between(p) && ValidCall(c) && p.opens + CallOpens(c) <= 1
    ensures Run(p, EmitCall(c)).Some? && Adds(p, Run(p, EmitCall(c)).value, c)
  {
    if Blocked(p) && StartsFresh(c) {
      RunClash(p, c);
    } else {
      RunCall(p, c);
      AddsGroup(p, c);
    }
  }

  lemma FacadeSingle(a: FacadeAction)
    ensures Facade([a]) == if Plain(a) then [] else [a]
  {
    assert [a][1..] == [];
  }

  /** Over a transaction every clash costs one action, and the latest matched action stays that of
      the latest main call when this is a close. */
  lemma {:induction false} RunAnyCalls(p: Processor, cs: seq<Call>)
    requires Between(p) && ValidCalls(cs) && p.opens + Opens(cs) <= 1
    ensures Run(p, Emit(cs)).Some?
    ensures var q := Run(p, Emit(cs)).value;
            && |Facade(q.actions)| == |Facade(p.actions)| + Need(MainCalls(cs)) - Clashes(cs, Blocked(p))
            && (MainCalls(cs) == [] ==> Facade(q.actions) == Facade(p.actions))
            && (MainCalls(cs) != [] && IsClose(Last(MainCalls(cs)).name) ==>
                  Facade(q.actions) != [] && Last(Facade(q.actions)).multicall == [] && |Expected(cs)| > 0)
    decreases |cs|
  {
    if cs != [] {
      var c, rest := cs[0], cs[1..];
      RunConcat(p, EmitCall(c), Emit(rest));
      RunAnyCall(p, c);
      var q := Run(p, EmitCall(c)).value;
      RunAnyCalls(q, rest);
      NeedConcat(MainOf(c), MainCalls(rest));
      if MainCalls(rest) != [] {
        assert Last(MainCalls(cs)) == Last(MainCalls(rest));
      } else {
        assert MainCalls(cs) == MainOf(c);
      }
    }
  }

  lemma {:induction false} NoMainCalls(cs: seq<Call>)
    requires MainCalls(cs) == []
    ensures Expected(cs) == []
  {
    if cs != [] { NoMainCalls(cs[1..]); }
  }

  /** A second open is fatal. */
  lemma TwoOpensStop(p: Processor, op: Operation, op': Operation, between: seq<Event>)
    requires Run(p, [Opened(op)] + between).Some?
    ensures Run(p, [Opened(op)] + between + [Opened(op')]).None?
  {
    RunConcat(p, [Opened(op)] + between, [Opened(op')]);
    RunConcat(p, [Opened(op)], between);
    RunOne(p, Opened(op));
    OpensNeverDrop(Step(p, Opened(op)).value, between);
    RunOne(Run(p, [Opened(op)] + between).value, Opened(op'));
  }

  lemma {:induction false} OpensNeverDrop(p: Processor, es: seq<Event>)
    requires Run(p, es).Some?
    ensures Run(p, es).value.opens >= p.opens
    decreases |es|
  {
    if es != [] { OpensNeverDrop(Step(p, es[0]).value, es[1..]); }
  }
}
