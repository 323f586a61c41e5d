/** Validity intervals of a credit manager's collateral tokens. */
module AllowedTokens {

  import opened Wrappers

  datatype Key = Key(creditManager: nat, token: nat)

  /** A row of the table: in force from `start` until `disable`, or still in force when that is zero. */
  datatype Row = Row(key: Key, start: int, threshold: int, disable: int)

  /** Events of one configurator: a token is allowed, a threshold is set, a token is forbidden. */
  datatype Event = Allow(key: Key, block: int) | SetThreshold(key: Key, block: int, threshold: int) | Forbid(key: Key,
                         block: int)

  // ---------------------------------------------------------------------------------------------
  // The table as a value.

  /** The position of the last row of a key. */
  function Last(rows: seq<Row>, key: Key): (r: Option<nat>)
    ensures r.Some? ==> r.value < |rows| && rows[r.value].key == key
    ensures forall i :: 0 <= i < |rows| && rows[i].key == key ==> r.Some? && i <= r.value
  {
    if rows == [] then None else
    if rows[|rows| - 1].key == key then Some(|rows| - 1) else Last(rows[..|rows| - 1], key)
  }

  /** Zero in its lowest 64 bits, which is all that is looked at. */
  predicate LooksZero(threshold: int) { threshold % 0x1_0000_0000_0000_0000 == 0 }

  function PreviousThreshold(rows: seq<Row>, key: Key): int {
    var i := Last(rows, key);
    if i.None? then 0 else rows[i.value].threshold
  }

  function Ended(rows: seq<Row>, i: nat, block: int): seq<Row>
    requires i < |rows|
  {
    rows[i := rows[i].(disable := block)]
  }

  /** A new row, ending the one in force. */
  function Renewed(rows: seq<Row>, key: Key, block: int, threshold: int): seq<Row> {
    var i := Last(rows, key);
    (if i.Some? && rows[i.value].disable == 0 then Ended(rows, i.value, block) else rows) +
      [Row(key, block, threshold, 0)]
  }

  function After(rows: seq<Row>, e: Event): seq<Row>
    requires e.Forbid? ==> Last(rows, e.key).Some?
  {
    match e
    case Allow(key, block) => if LooksZero(PreviousThreshold(rows, key)) then rows else
      Renewed(rows, key, block, PreviousThreshold(rows, key))
    case SetThreshold(key, block, threshold) => Renewed(rows, key, block, threshold)
    case Forbid(key, block) => Ended(rows, Last(rows, key).value, block)
  }

  /** The `i`-th row is the last one of the key. */
  ghost predicate Current(rows: seq<Row>, key: Key, i: nat) {
    i < |rows| && rows[i].key == key && forall j :: i < j < |rows| ==> rows[j].key != key
  }

  /** A new row is appended, and the current row of the key ends if it was still in force. */
  ghost predicate Appended(rows: seq<Row>, rows': seq<Row>, key: Key, block: int, threshold: int) {
    && |rows'| == |rows| + 1 && rows'[|rows|] == Row(key, block, threshold, 0)
    && forall i :: 0 <= i < |rows| ==>
         rows'[i] == if Current(rows, key, i) && rows[i].disable == 0
                     then Row(rows[i].key, rows[i].start, rows[i].threshold, block) else rows[i]
  }

  /** What each event does to the table: a threshold appends a row; a bare allow does so with the current
      threshold, if there is one that is not zero in its low 64 bits; forbidding ends the current row. */
  ghost predicate Stepped(rows: seq<Row>, rows': seq<Row>, e: Event) {
    match e
    case SetThreshold(key, block, threshold) => Appended(rows, rows', key, block, threshold)
    case Allow(key, block) =>
      && (forall i :: 0 <= i < |rows| && Current(rows, key, i) ==>
            if rows[i].threshold % 18446744073709551616 == 0 then rows' == rows
            else Appended(rows, rows', key, block, rows[i].threshold))
      && ((forall i :: 0 <= i < |rows| ==> rows[i].key != key) ==> rows' == rows)
    case Forbid(key, block) =>
      |rows'| == |rows| && forall i :: 0 <= i < |rows| ==>
        rows'[i] == if Current(rows, key, i) then Row(rows[i].key, rows[i].start, rows[i].threshold, block) else rows[i]
  }

  lemma CurrentIs(rows: seq<Row>, key: Key, i: nat)
    ensures Current(rows, key, i) <==> Last(rows, key) == Some(i)
  {}

  lemma RenewedIs(rows: seq<Row>, key: Key, block: int, threshold: int)
    ensures Appended(rows, Renewed(rows, key, block, threshold), key, block, threshold)
  {
    forall i: nat ensures Current(rows, key, i) <==> Last(rows, key) == Some(i) { CurrentIs(rows, key, i); }
  }

  lemma StepIs(rows: seq<Row>, e: Event)
    requires e.Forbid? ==> Last(rows, e.key).Some?
    ensures Stepped(rows, After(rows, e), e)
  {
    var i := Last(rows, e.key);
    forall j: nat ensures Current(rows, e.key, j) <==> i == Some(j) { CurrentIs(rows, e.key, j); }
    match e
    case SetThreshold(key, block, threshold) => RenewedIs(rows, key, block, threshold);
    case Allow(key, block) => if i.Some? { RenewedIs(rows, key, block, rows[i.value].threshold); }
    case Forbid(key, block) =>
  }

  /** Every row starts before it ends; of two rows of a key the earlier has ended by the start of the
      later. Nothing happens before block 1 or after `now`. */
  ghost predicate Chained(rows: seq<Row>, now: int) {
    && (forall i :: 0 <= i < |rows| ==> Sane(rows[i], now))
    && (forall i, j :: 0 <= i < j < |rows| && rows[i].key == rows[j].key ==>
      rows[i].disable != 0 && rows[i].disable <= rows[j].start)
  }

  predicate Sane(r: Row, now: int) { 0 < r.start <= now && (r.disable == 0 || r.start <= r.disable <= now) }

  lemma EndedChained(rows: seq<Row>, key: Key, now: int, block: int)
    requires Chained(rows, now) && now <= block && Last(rows, key).Some?
    ensures Chained(Ended(rows, Last(rows, key).value, block), block)
  {}

  lemma AppendChained(rows: seq<Row>, now: int, r: Row)
    requires Chained(rows, now) && Sane(r, now) && forall i :: 0 <= i < |rows| && rows[i].key == r.key ==>
             rows[i].disable != 0 && rows[i].disable <= r.start
    ensures Chained(rows + [r], now)
  {}

  lemma AllEnded(rows: seq<Row>, now: int, key: Key, block: int)
    requires Chained(rows, now) && 0 < now <= block
    ensures var i := Last(rows, key);
            var ended := if i.Some? && rows[i.value].disable == 0 then Ended(rows, i.value, block) else rows;
            Chained(ended, block) && forall j :: 0 <= j < |ended| && ended[j].key == key ==>
              ended[j].disable != 0 && ended[j].disable <= block
  {
    var i := Last(rows, key);
    if i.Some? && rows[i.value].disable == 0 {
      EndedChained(rows, key, now, block);
      var ended := Ended(rows, i.value, block);
      forall j | 0 <= j < |ended| && ended[j].key == key ensures ended[j].disable != 0 { assert rows[j].key == key; }
    } else {
      forall j | 0 <= j < |rows| && rows[j].key == key ensures rows[j].disable != 0 { assert j <= i.value; }
    }
  }

  /** Events in block order keep the chain. */
  lemma StepChained(rows: seq<Row>, now: int, e: Event)
    requires Chained(rows, now) && 0 < now <= e.block && (e.Forbid? ==> Last(rows, e.key).Some?)
    ensures Chained(After(rows, e), e.block)
  {
    if e.Forbid? {
      EndedChained(rows, e.key, now, e.block);
    } else if After(rows, e) != rows {
      AllEnded(rows, now, e.key, e.block);
      var i := Last(rows, e.key);
      var ended := if i.Some? && rows[i.value].disable == 0 then Ended(rows, i.value, e.block) else rows;
      AppendChained(ended, e.block,
        Row(e.key, e.block, if e.Allow? then PreviousThreshold(rows, e.key) else e.threshold, 0));
    }
  }

  /** The row in force is the last one; only it can still be open, and no two rows cover the same block. */
  lemma OneInForce(rows: seq<Row>, now: int, key: Key, i: nat)
    requires Chained(rows, now) && i < |rows| && rows[i].key == key && rows[i].disable == 0
    ensures Last(rows, key) == Some(i)
  {}

  predicate Covers(r: Row, block: int) { r.start <= block && (r.disable == 0 || block < r.disable) }

  lemma NeverTwo(rows: seq<Row>, now: int, i: nat, j: nat, block: int)
    requires Chained(rows, now) && i < |rows| && j < |rows| && rows[i].key == rows[j].key && Covers(rows[i], block) &&
             Covers(rows[j], block)
    ensures i == j
  {}

  predicate InOrder(now: int, es: seq<Event>)
    decreases |es|
  {
    es == [] || (now <= es[0].block && InOrder(es[0].block, es[1..]))
  }

  /** Tokens are forbidden only when they have a row. */
  predicate ForbidsKnown(rows: seq<Row>, es: seq<Event>)
    decreases |es|
  {
    es == [] || ((es[0].Forbid? ==> Last(rows, es[0].key).Some?) && ForbidsKnown(After(rows, es[0]), es[1..]))
  }

  function Run(rows: seq<Row>, es: seq<Event>): seq<Row>
    requires ForbidsKnown(rows, es)
    decreases |es|
  {
    if es == [] then rows else Run(After(rows, es[0]), es[1..])
  }

  function Clock(now: int, es: seq<Event>): int
    decreases |es|
  {
    if es == [] then now else Clock(es[0].block, es[1..])
  }

  /** Main result: over every run in block order the rows of each token form a chain of intervals. */
  lemma {:induction false} RunChained(rows: seq<Row>, now: int, es: seq<Event>)
    requires Chained(rows, now) && 0 < now && InOrder(now, es) && ForbidsKnown(rows, es)
    ensures Chained(Run(rows, es), Clock(now, es))
    decreases |es|
  {
    if es != [] {
      StepChained(rows, now, es[0]);
      RunChained(After(rows, es[0]), es[0].block, es[1..]);
    }
  }

  /** The threshold last set for a key by the events, if any. */
  function LatestSet(es: seq<Event>, key: Key): Option<int> {
    if es == [] then None else
    var later := LatestSet(es[1..], key);
    if later.Some? then later else if es[0].SetThreshold? && es[0].key == key then Some(es[0].threshold) else None
  }

  lemma RenewedThreshold(rows: seq<Row>, key: Key, block: int, threshold: int, k: Key)
    ensures PreviousThreshold(Renewed(rows, key, block, threshold), k) == if k == key then threshold else
            PreviousThreshold(rows, k)
  {
    var i := Last(rows, key);
    var ended := if i.Some? && rows[i.value].disable == 0 then Ended(rows, i.value, block) else rows;
    LastMore(ended, Row(key, block, threshold, 0), k);
    if ended != rows { SameLast(rows, i.value, block, k); }
  }

  lemma StepThreshold(rows: seq<Row>, e: Event, k: Key)
    requires e.Forbid? ==> Last(rows, e.key).Some?
    ensures PreviousThreshold(After(rows, e), k) == if e.SetThreshold? &&
            e.key == k then e.threshold else PreviousThreshold(rows, k)
  {
    match e
    case Allow(key, block) => RenewedThreshold(rows, key, block, PreviousThreshold(rows, key), k);
    case SetThreshold(key, block, threshold) => RenewedThreshold(rows, key, block, threshold, k);
    case Forbid(key, block) => SameLast(rows, Last(rows, key).value, block, k);
  }

  /** Over every run the threshold of a token's current row is the one last set for it, however often the
      token was allowed or forbidden since. */
  lemma {:induction false} RunThreshold(rows: seq<Row>, es: seq<Event>, key: Key)
    requires ForbidsKnown(rows, es)
    ensures PreviousThreshold(Run(rows, es), key)
            == if LatestSet(es, key).Some? then LatestSet(es, key).value else PreviousThreshold(rows, key)
    decreases |es|
  {
    if es != [] {
      StepThreshold(rows, es[0], key);
      RunThreshold(After(rows, es[0]), es[1..], key);
    }
  }

  /** After every run a bare allow opens a row with the threshold last set for the token, unless that
      one looks zero, when it does nothing. */
  lemma AllowCarries(rows: seq<Row>, es: seq<Event>, key: Key, block: int)
    requires ForbidsKnown(rows, es)
    ensures var was := Run(rows, es);
            var now := After(was, Allow(key, block));
            var threshold := if LatestSet(es, key).Some? then LatestSet(es, key).value else
              PreviousThreshold(rows, key);
            && (now == was <==> LooksZero(threshold))
            && (now != was ==> |now| == |was| + 1 && now[|was|] == Row(key, block, threshold, 0))
  {
    RunThreshold(rows, es, key);
    var was := Run(rows, es);
    var now := After(was, Allow(key, block));
    if !LooksZero(PreviousThreshold(was, key)) { assert |now| == |was| + 1; }
  }

  /** After a threshold strictly between 0 and 2^64 was set last, a bare allow always opens a row with it. */
  lemma AllowReopens(rows: seq<Row>, es: seq<Event>, key: Key, block: int, threshold: int)
    requires ForbidsKnown(rows, es) && LatestSet(es, key) == Some(threshold) && 0 < threshold < 18446744073709551616
    ensures var was := Run(rows, es);
            var now := After(was, Allow(key, block));
            |now| == |was| + 1 && now[|was|] == Row(key, block, threshold, 0) && Last(now, key) == Some(|was|)
  {
    AllowCarries(rows, es, key, block);
  }

  /** A token forbidden at threshold zero stays forbidden, although it is allowed again. */
  lemma ZeroStaysForbidden(key: Key)
    ensures var es := [SetThreshold(key, 1, 0), Forbid(key, 2), Allow(key, 3)];
            ForbidsKnown([], es) && Run([], es) == [Row(key, 1, 0, 2)]
  {
    var es := [SetThreshold(key, 1, 0), Forbid(key, 2), Allow(key, 3)];
    var open, ended := [Row(key, 1, 0, 0)], [Row(key, 1, 0, 2)];
    assert es[1..] == [es[1], es[2]] && [es[1], es[2]][1..] == [es[2]] && [es[2]][1..] == [];
    assert Last([], key) == None && [] + open == open && After([], es[0]) == open;
    assert Last(open, key) == Some(0) && Last(ended, key) == Some(0);
    assert open[0 := Row(key, 1, 0, 2)] == ended && After(open, es[1]) == ended;
    assert PreviousThreshold(ended, key) == 0 && After(ended, es[2]) == ended;
    assert ForbidsKnown(ended, []) && ForbidsKnown(ended, [es[2]]) && ForbidsKnown(open, [es[1], es[2]]);
    assert Run(ended, []) == ended && Run(ended, [es[2]]) == ended && Run(open, [es[1], es[2]]) == ended;
  }

  // ---------------------------------------------------------------------------------------------
  // The repository, whose rows are shared objects.

  class AllowedToken {
    const key: Key
    const start: int
    var threshold: Option<int>
    var disableBlock: int

    constructor (key: Key, start: int, threshold: Option<int>)
      ensures this.key == key && this.start == start && this.threshold == threshold && disableBlock == 0
    {
      this.key, this.start, this.threshold, disableBlock := key, start, threshold, 0;
    }

    ghost function Value(): Row
      reads this
    {
      Row(key, start, if threshold.None? then 0 else threshold.value, disableBlock)
    }
  }

  ghost function Values(table: seq<AllowedToken>): (r: seq<Row>)
    reads set t | t in table
    ensures |r| == |table| && forall i :: 0 <= i < |table| ==> r[i] == table[i].Value()
  {
    seq(|table|, i requires 0 <= i < |table| reads if 0 <= i < |table| then {table[i]} else {} => table[i].Value())
  }

  ghost predicate AllDifferent(table: seq<AllowedToken>) {
    forall i, j :: 0 <= i < j < |table| ==> table[i] != table[j]
  }

  class AllowedTokenRepo {
    /** The rows added to the blocks, in order. */
    var table: seq<AllowedToken>
    /** The last row of each token. */
    var allowedTokens: map<Key, AllowedToken>
    /** Rows to be written again because they ended. */
    var disabledTokens: seq<AllowedToken>

    ghost function Rows(): seq<Row>
      reads this, set t | t in table
    {
      Values(table)
    }

    ghost predicate Valid()
      reads this, set t | t in table
    {
      && AllDifferent(table) && CurrentIsLast(Values(table))
      && (forall i :: 0 <= i < |table| ==> table[i].threshold.Some?)
      && (forall i :: 0 <= i < |table| && table[i].disableBlock != 0 ==> table[i] in disabledTokens)
    }

    ghost predicate CurrentIsLast(rows: seq<Row>)
      reads this
      requires |rows| == |table|
    {
      forall key :: if key in allowedTokens then Last(rows, key).Some? &&
        allowedTokens[key] == table[Last(rows, key).value] else Last(rows, key).None?
    }

    constructor ()
      ensures Valid() && Rows() == [] && disabledTokens == []
    {
      table, allowedTokens, disabledTokens := [], map[], [];
    }

    /** Ends the current row of a known token and queues it for saving. */
    method End(key: Key, block: int)
      requires Valid() && key in allowedTokens
      modifies this, allowedTokens[key]
      ensures Valid() && table == old(table) && allowedTokens == old(allowedTokens)
      ensures Rows() == Ended(old(Rows()), Last(old(Rows()), key).value, block)
      ensures disabledTokens == old(disabledTokens) + [allowedTokens[key]]
    {
      ghost var i := Last(Rows(), key).value;
      ghost var was := Rows();
      var t := allowedTokens[key];
      t.disableBlock := block;
      disabledTokens := disabledTokens + [t];
      assert Rows() == Ended(was, i, block);
      forall k ensures Last(Rows(), k) == Last(was, k) { SameLast(was, i, block, k); }
    }

    /** Makes a row the current one of its token. */
    method Enter(atoken: AllowedToken)
      requires Valid() && atoken !in table && atoken.threshold.Some? && atoken.disableBlock == 0
      modifies this
      ensures Valid() && Rows() == old(Rows()) + [atoken.Value()] && disabledTokens == old(disabledTokens)
      ensures table == old(table) + [atoken]
    {
      ghost var was := Rows();
      table := table + [atoken];
      allowedTokens := allowedTokens[atoken.key := atoken];
      assert Rows() == was + [atoken.Value()];
      forall k ensures Last(Rows(), k) == if k == atoken.key then Some(|was|) else Last(was, k) {
        LastMore(was, atoken.Value(), k);
      }
    }

    /** The event a new row stands for: without a threshold it is a bare allow. */
    static ghost function EventOf(atoken: AllowedToken): Event
      reads atoken
    {
      if atoken.threshold.None? then Allow(atoken.key, atoken.start) else
        SetThreshold(atoken.key, atoken.start, atoken.threshold.value)
    }

    method GetPreviousLiqThreshold(key: Key) returns (r: int)
      requires Valid()
      ensures r == PreviousThreshold(Rows(), key)
    {
      if key !in allowedTokens { return 0; }
      r := allowedTokens[key].threshold.value;
    }

    method AddAllowedTokenV2(atoken: AllowedToken)
      requires Valid() && atoken !in table && atoken.disableBlock == 0
      modifies this, atoken, set t | t in table
      ensures Valid() && Rows() == After(old(Rows()), old(EventOf(atoken)))
      ensures Stepped(old(Rows()), Rows(),
                      if old(atoken.threshold).None? then Allow(atoken.key, atoken.start)
                      else SetThreshold(atoken.key, atoken.start, old(atoken.threshold).value))
    {
      StepIs(Rows(), EventOf(atoken));
      Add(atoken);
    }

    method Add(atoken: AllowedToken)
      requires Valid() && atoken !in table && atoken.disableBlock == 0
      modifies this, atoken, set t | t in table
      ensures Valid() && Rows() == After(old(Rows()), old(EventOf(atoken)))
    {
      var key := atoken.key;
      var prev := GetPreviousLiqThreshold(key);
      if LooksZero(prev) && atoken.threshold.None? { return; }
      if atoken.threshold.None? { atoken.threshold := Some(prev); }
      Renew(atoken);
    }

    /** Ends the current row if it is still in force, and enters the new one. */
    method Renew(atoken: AllowedToken)
      requires Valid() && atoken !in table && atoken.disableBlock == 0 && atoken.threshold.Some?
      modifies this, set t | t in table
      ensures Valid() && Rows() == Renewed(old(Rows()), atoken.key, atoken.start, atoken.threshold.value)
    {
      if atoken.key in allowedTokens && allowedTokens[atoken.key].disableBlock == 0 {
        End(atoken.key, atoken.start);
      }
      Enter(atoken);
    }

    method DisableAllowedToken(key: Key, block: int)
      requires Valid() && key in allowedTokens
      modifies this, allowedTokens[key]
      ensures Valid() && Rows() == After(old(Rows()), Forbid(key, block))
      ensures Stepped(old(Rows()), Rows(), Forbid(key, block))
      ensures disabledTokens == old(disabledTokens) + [old(allowedTokens[key])]
    {
      StepIs(Rows(), Forbid(key, block));
      End(key, block);
    }
  }

  lemma LastMore(rows: seq<Row>, r: Row, key: Key)
    ensures Last(rows + [r], key) == if key == r.key then Some(|rows|) else Last(rows, key)
  {
    assert (rows + [r])[..|rows|] == rows;
  }

  lemma {:induction false} SameLast(rows: seq<Row>, i: nat, block: int, key: Key)
    requires i < |rows|
    ensures Last(Ended(rows, i, block), key) == Last(rows, key)
  {
    var r := Ended(rows, i, block);
    if Last(rows, key).Some? { assert r[Last(rows, key).value].key == key; }
  }
}
