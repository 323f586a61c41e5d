/** Token flows of the adapter calls of a transaction, cut out of its log stream. */
module ExecuteTransfers {

  import opened Wrappers
  import opened Calls
  import opened ExecuteCalls

  datatype Sig = ExecuteOrder | Transfer | OtherSig(id: nat)

  /** A log: the signature is its first topic, `args` are the topics after it, and `amount` is its data
      read as a number, when it can be. A log may have no topics. */
  datatype Log = NoTopics | Event(sig: Sig, args: seq<nat>, token: nat, amount: Option<nat>)

  type Transfers = map<nat, int>

  predicate IsManager(l: Log, cmEvents: set<Sig>) { l.Event? && l.sig in cmEvents }

  predicate IsExecute(l: Log) { l.Event? && l.sig == ExecuteOrder }

  predicate IsTransfer(l: Log) { l.Event? && l.sig == Transfer && |l.args| == 2 }

  // ---------------------------------------------------------------------------------------------
  // Reference: segments by position, flows by sums.

  /** The positions of the ExecuteOrder logs among the first `n`. */
  function Positions(logs: seq<Log>, n: nat): (ps: seq<nat>)
    requires n <= |logs|
    ensures |ps| <= n
    ensures forall i :: 0 <= i < |ps| ==> ps[i] < n && IsExecute(logs[ps[i]])
  {
    if n == 0 then [] else if IsExecute(logs[n - 1]) then Positions(logs, n - 1) + [n - 1] else Positions(logs, n - 1)
  }

  /** Every ExecuteOrder has its place in the list, and the list ascends. */
  lemma {:induction false} PositionsExact(logs: seq<Log>, n: nat)
    requires n <= |logs|
    ensures forall i :: 0 <= i < n && IsExecute(logs[i]) ==> i in Positions(logs, n)
    ensures forall i, j :: 0 <= i < j < |Positions(logs, n)| ==> Positions(logs, n)[i] < Positions(logs, n)[j]
  {
    if n > 0 { PositionsExact(logs, n - 1); }
  }

  /** The first manager event at or after `j`, or the end of the stream. */
  function End(logs: seq<Log>, cmEvents: set<Sig>, j: nat): (e: nat)
    requires j <= |logs|
    ensures j <= e <= |logs| && (e < |logs| ==> IsManager(logs[e], cmEvents))
    ensures forall k :: j <= k < e ==> !IsManager(logs[k], cmEvents)
    decreases |logs| - j
  {
    if j == |logs| || IsManager(logs[j], cmEvents) then j else End(logs, cmEvents, j + 1)
  }

  /** Some ExecuteOrder before `i` is followed by no manager event up to `i`. */
  ghost predicate Parsing(logs: seq<Log>, cmEvents: set<Sig>, i: nat)
    requires i <= |logs|
  {
    exists e :: 0 <= e < i && IsExecute(logs[e]) && End(logs, cmEvents, e + 1) >= i
  }

  /** What was received, sent, and sent to itself by an account, in one token. */
  function Received(logs: seq<Log>, account: nat, token: nat): nat {
    if logs == [] then 0 else
    var l := logs[|logs| - 1];
    Received(logs[..|logs| - 1], account, token)
    + if Moves(l, token) && l.args[1] == account then l.amount.value else 0
  }

  function Sent(logs: seq<Log>, account: nat, token: nat): nat {
    if logs == [] then 0 else
    var l := logs[|logs| - 1];
    Sent(logs[..|logs| - 1], account, token)
    + if Moves(l, token) && l.args[0] == account then l.amount.value else 0
  }

  function Circled(logs: seq<Log>, account: nat, token: nat): nat {
    if logs == [] then 0 else
    var l := logs[|logs| - 1];
    Circled(logs[..|logs| - 1], account, token)
    + if Moves(l, token) && l.args[0] == account == l.args[1] then l.amount.value else 0
  }

  predicate Moves(l: Log, token: nat) {
    l.Event? && l.sig == Transfer && |l.args| == 2 && l.token == token && l.amount.Some?
  }

  /** The balances recorded for a segment: one entry for each token moved by anyone; a transfer of the
      account to itself is taken for an outgoing one. */
  ghost predicate FlowOf(seg: seq<Log>, account: nat, balances: Transfers) {
    && (forall token :: token in balances <==>
          exists l :: l in seg && l.Event? && l.sig == Transfer && |l.args| == 2 && l.token == token)
    && (forall token :: token in balances ==>
          balances[token] == Received(seg, account, token) - Sent(seg, account, token) - Circled(seg, account, token))
  }

  /** The recorded flow is the real one exactly when the account sent itself nothing. */
  lemma RealFlowIff(seg: seq<Log>, account: nat, balances: Transfers, token: nat)
    requires FlowOf(seg, account, balances) && token in balances
    ensures balances[token] == Received(seg, account, token) - Sent(seg, account, token)
            <==> !exists l :: l in seg && SelfTransfer(l, account, token)
  {
    CircledIff(seg, account, token);
  }

  predicate SelfTransfer(l: Log, account: nat, token: nat) {
    Moves(l, token) && l.args[0] == account == l.args[1] && l.amount.value > 0
  }

  lemma {:induction false} CircledIff(seg: seq<Log>, account: nat, token: nat)
    ensures Circled(seg, account, token) == 0 <==> !exists l :: l in seg && SelfTransfer(l, account, token)
  {
    if seg != [] {
      var pre, l := seg[..|seg| - 1], seg[|seg| - 1];
      CircledIff(pre, account, token);
      assert seg == pre + [l];
      if SelfTransfer(l, account, token) { assert l in seg; }
    }
  }

  /** One such transfer: nothing moved, but the account is charged. */
  lemma SelfTransferCharged(account: nat, token: nat, amount: int)
    requires amount > 0
    ensures var seg := [Event(Transfer, [account, account], token, Some(amount))];
            FlowOf(seg, account, map[token := -amount]) && Received(seg, account, token) == Sent(seg, account, token)
  {
    var l := Event(Transfer, [account, account], token, Some(amount));
    assert l in [l] && [l][..|[l]| - 1] == [] && [l][|[l]| - 1] == l && Moves(l, token);
    assert Received([], account, token) == Sent([], account, token) == Circled([], account, token) == 0;
    assert Received([l], account, token) == amount;
    assert Sent([l], account, token) == amount;
    assert Circled([l], account, token) == amount;
  }

  /** The processing of log `i` fails: it has no topics, or it is a transfer inside a segment and its
      amount cannot be read or there is no parameter for the segment. */
  ghost predicate Breaks(logs: seq<Log>, cmEvents: set<Sig>, params: seq<ExecuteParams>, i: nat)
    requires i < |logs|
  {
    logs[i].NoTopics? ||
    (IsTransfer(logs[i]) && Parsing(logs, cmEvents, i) && !IsManager(logs[i], cmEvents)
     && (logs[i].amount.None? || |Positions(logs, i)| > |params|))
  }

  function Segment(logs: seq<Log>, cmEvents: set<Sig>, e: nat): seq<Log>
    requires e < |logs|
  {
    logs[e + 1..End(logs, cmEvents, e + 1)]
  }

  /** The list holds one flow for each of the first ExecuteOrder logs. */
  ghost predicate Flows(logs: seq<Log>, cmEvents: set<Sig>, params: seq<ExecuteParams>, ps: seq<nat>,
                        out: seq<Transfers>) {
    |out| <= |ps| && forall i :: 0 <= i < |out| ==>
      ps[i] < |logs| && FlowAt(Segment(logs, cmEvents, ps[i]), params, i, out[i])
  }

  /** Without a parameter there is no transfer to record either. */
  ghost predicate FlowAt(seg: seq<Log>, params: seq<ExecuteParams>, i: nat, balances: Transfers) {
    if i < |params| then FlowOf(seg, params[i].creditAccount, balances)
    else balances == map[] && forall l :: l in seg ==> !IsTransfer(l)
  }

  // ---------------------------------------------------------------------------------------------
  // Facts about extending a segment by one log.

  lemma FlowNone(seg: seq<Log>, params: seq<ExecuteParams>, i: nat, balances: Transfers, l: Log)
    requires FlowAt(seg, params, i, balances) && !IsTransfer(l)
    ensures FlowAt(seg + [l], params, i, balances)
  {
    var s := seg + [l];
    assert s[..|s| - 1] == seg && s[|s| - 1] == l;
  }

  function Booked(balances: Transfers, l: Log, account: nat): Transfers
    requires IsTransfer(l) && l.amount.Some?
  {
    var was := if l.token in balances then balances[l.token] else 0;
    balances[l.token := if l.args[0] == account then was - l.amount.value else if l.args[1] == account then
      was + l.amount.value else was]
  }

  lemma FlowMore(seg: seq<Log>, account: nat, balances: Transfers, l: Log)
    requires FlowOf(seg, account, balances) && IsTransfer(l) && l.amount.Some?
    ensures FlowOf(seg + [l], account, Booked(balances, l, account))
  {
    var s, b := seg + [l], Booked(balances, l, account);
    assert s[..|s| - 1] == seg && s[|s| - 1] == l;
    if l.token !in balances { NothingMoved(seg, account, l.token); }
    assert l in s;
    forall t ensures t in b <==> exists m :: m in s && IsTransfer(m) && m.token == t {
      if t in balances {
        var m :| m in seg && IsTransfer(m) && m.token == t;
        assert m in s;
      }
    }
  }

  lemma {:induction false} NothingMoved(seg: seq<Log>, account: nat, token: nat)
    requires forall l :: l in seg ==> !(IsTransfer(l) && l.token == token)
    ensures Received(seg, account, token) == Sent(seg, account, token) == Circled(seg, account, token) == 0
  {
    if seg != [] {
      var l := seg[|seg| - 1];
      assert l in seg;
      NothingMoved(seg[..|seg| - 1], account, token);
    }
  }

  lemma {:induction false} EndAt(logs: seq<Log>, cmEvents: set<Sig>, j: nat, e: nat)
    requires j <= e <= |logs| && (e < |logs| ==> IsManager(logs[e], cmEvents))
    requires forall k :: j <= k < e ==> !IsManager(logs[k], cmEvents)
    ensures End(logs, cmEvents, j) == e
    decreases e - j
  {
    if j < e { EndAt(logs, cmEvents, j + 1, e); }
  }

  // ---------------------------------------------------------------------------------------------
  // The scan.

  ghost predicate Quiet(logs: seq<Log>, cmEvents: set<Sig>, from: nat, to: nat)
    requires to <= |logs|
  {
    forall k :: from <= k < to ==> !IsManager(logs[k], cmEvents)
  }

  /** The variables of the scan after `n` logs. */
  datatype Scan = Scan(parsing: bool, index: int, balances: Transfers, out: seq<Transfers>)

  ghost predicate State(logs: seq<Log>, cmEvents: set<Sig>, params: seq<ExecuteParams>, n: nat, s: Scan) {
    n <= |logs| &&
    var ps := Positions(logs, n);
    && s.index == |ps| - 1 && Flows(logs, cmEvents, params, ps, s.out)
    && (s.parsing ==> s.index >= 0 && |s.out| == s.index && Open(logs, cmEvents, params, n, ps[s.index], s))
    && (!s.parsing ==> |s.out| == |ps| && AllEnded(logs, cmEvents, n))
  }

  /** The segment that began at `e` is still open after `n` logs. */
  ghost predicate Open(logs: seq<Log>, cmEvents: set<Sig>, params: seq<ExecuteParams>, n: nat, e: nat, s: Scan)
    requires n <= |logs| && s.index >= 0
  {
    e < n && IsExecute(logs[e]) && Quiet(logs, cmEvents, e + 1, n) &&
      FlowAt(logs[e + 1..n], params, s.index, s.balances)
  }

  ghost predicate AllEnded(logs: seq<Log>, cmEvents: set<Sig>, n: nat)
    requires n <= |logs|
  {
    forall e :: 0 <= e < n && IsExecute(logs[e]) ==> End(logs, cmEvents, e + 1) < n
  }

  lemma ParsingIs(logs: seq<Log>, cmEvents: set<Sig>, params: seq<ExecuteParams>, n: nat, s: Scan)
    requires State(logs, cmEvents, params, n, s)
    ensures s.parsing <==> Parsing(logs, cmEvents, n)
  {
    if s.parsing {
      var e := Positions(logs, n)[s.index];
      assert End(logs, cmEvents, e + 1) >= n;
    }
  }

  lemma FlowsMore(logs: seq<Log>, cmEvents: set<Sig>, params: seq<ExecuteParams>, n: nat, out: seq<Transfers>)
    requires n < |logs| && Flows(logs, cmEvents, params, Positions(logs, n), out)
    ensures Flows(logs, cmEvents, params, Positions(logs, n + 1), out)
  {}

  lemma FlowsAppend(logs: seq<Log>, cmEvents: set<Sig>, params: seq<ExecuteParams>, ps: seq<nat>, out: seq<Transfers>,
                    b: Transfers)
    requires Flows(logs, cmEvents, params, ps, out) && |out| < |ps| && ps[|out|] < |logs|
    requires FlowAt(Segment(logs, cmEvents, ps[|out|]), params, |out|, b)
    ensures Flows(logs, cmEvents, params, ps, out + [b])
  {}

  lemma Finished(logs: seq<Log>, cmEvents: set<Sig>, params: seq<ExecuteParams>, n: nat, s: Scan)
    requires State(logs, cmEvents, params, n, s) && s.parsing && (n < |logs| ==> IsManager(logs[n], cmEvents))
    ensures Flows(logs, cmEvents, params, Positions(logs, n), s.out + [s.balances])
  {
    var ps := Positions(logs, n);
    var e := ps[s.index];
    EndAt(logs, cmEvents, e + 1, n);
    assert Segment(logs, cmEvents, e) == logs[e + 1..n];
    FlowsAppend(logs, cmEvents, params, ps, s.out, s.balances);
  }

  lemma Ended(logs: seq<Log>, cmEvents: set<Sig>, n: nat)
    requires n < |logs| && IsManager(logs[n], cmEvents) && !IsExecute(logs[n])
    ensures AllEnded(logs, cmEvents, n + 1)
  {}

  /** A manager event closes the open segment. */
  lemma Closes(logs: seq<Log>, cmEvents: set<Sig>, params: seq<ExecuteParams>, n: nat, s: Scan)
    requires State(logs, cmEvents, params, n, s) && n < |logs| && s.parsing
    requires IsManager(logs[n], cmEvents) && !IsExecute(logs[n])
    ensures State(logs, cmEvents, params, n + 1, Scan(false, s.index, map[], s.out + [s.balances]))
  {
    Finished(logs, cmEvents, params, n, s);
    Ended(logs, cmEvents, n);
  }

  lemma FlowStart(params: seq<ExecuteParams>, i: nat)
    ensures FlowAt([], params, i, map[])
  {}

  /** An ExecuteOrder opens one; `out` holds the flows of all earlier ones. */
  lemma Opens(logs: seq<Log>, cmEvents: set<Sig>, params: seq<ExecuteParams>, n: nat, out: seq<Transfers>)
    requires n < |logs| && IsExecute(logs[n]) && ExecuteOrder in cmEvents
    requires Flows(logs, cmEvents, params, Positions(logs, n), out) && |out| == |Positions(logs, n)|
    ensures State(logs, cmEvents, params, n + 1, Scan(true, |out|, map[], out))
  {
    FlowsMore(logs, cmEvents, params, n, out);
    FlowStart(params, |out|);
    assert logs[n + 1..n + 1] == [];
    assert Positions(logs, n + 1)[|out|] == n;
  }

  lemma StaysOpen(logs: seq<Log>, cmEvents: set<Sig>, params: seq<ExecuteParams>, n: nat, e: nat, s: Scan,
                  balances: Transfers)
    requires n < |logs| && s.index >= 0 && Open(logs, cmEvents, params, n, e, s) && !IsManager(logs[n], cmEvents)
    requires FlowAt(logs[e + 1..n] + [logs[n]], params, s.index, balances)
    ensures Open(logs, cmEvents, params, n + 1, e, s.(balances := balances))
  {
    assert logs[e + 1..n] + [logs[n]] == logs[e + 1..n + 1];
  }

  lemma StaysQuiet(logs: seq<Log>, cmEvents: set<Sig>, params: seq<ExecuteParams>, n: nat, e: nat, s: Scan)
    requires n < |logs| && s.index >= 0 && Open(logs, cmEvents, params, n, e, s) && !IsManager(logs[n], cmEvents) &&
             !IsTransfer(logs[n])
    ensures Open(logs, cmEvents, params, n + 1, e, s)
  {
    FlowNone(logs[e + 1..n], params, s.index, s.balances, logs[n]);
    StaysOpen(logs, cmEvents, params, n, e, s, s.balances);
  }

  lemma Extends(logs: seq<Log>, cmEvents: set<Sig>, params: seq<ExecuteParams>, n: nat, s: Scan, balances: Transfers)
    requires State(logs, cmEvents, params, n, s) && n < |logs| && s.parsing && !IsManager(logs[n], cmEvents) &&
             !IsExecute(logs[n])
    requires Open(logs, cmEvents, params, n + 1, Positions(logs, n)[s.index], s.(balances := balances))
    ensures State(logs, cmEvents, params, n + 1, s.(balances := balances))
  {
    FlowsMore(logs, cmEvents, params, n, s.out);
  }

  lemma Passes(logs: seq<Log>, cmEvents: set<Sig>, params: seq<ExecuteParams>, n: nat, s: Scan)
    requires State(logs, cmEvents, params, n, s) && n < |logs| && !IsExecute(logs[n])
    requires s.parsing ==> !IsManager(logs[n], cmEvents) && !IsTransfer(logs[n])
    ensures State(logs, cmEvents, params, n + 1, s)
  {
    if s.parsing {
      StaysQuiet(logs, cmEvents, params, n, Positions(logs, n)[s.index], s);
      Extends(logs, cmEvents, params, n, s, s.balances);
    } else {
      FlowsMore(logs, cmEvents, params, n, s.out);
      StaysEnded(logs, cmEvents, n);
    }
  }

  lemma StaysEnded(logs: seq<Log>, cmEvents: set<Sig>, n: nat)
    requires n < |logs| && !IsExecute(logs[n]) && AllEnded(logs, cmEvents, n)
    ensures AllEnded(logs, cmEvents, n + 1)
  {}

  lemma Books(logs: seq<Log>, cmEvents: set<Sig>, params: seq<ExecuteParams>, n: nat, s: Scan)
    requires State(logs, cmEvents, params, n, s) && n < |logs| && s.parsing && !IsManager(logs[n], cmEvents)
    requires IsTransfer(logs[n]) && logs[n].amount.Some? && 0 <= s.index < |params|
    ensures State(logs, cmEvents, params, n + 1,
            s.(balances := Booked(s.balances, logs[n], params[s.index].creditAccount)))
  {
    var e, account := Positions(logs, n)[s.index], params[s.index].creditAccount;
    FlowMore(logs[e + 1..n], account, s.balances, logs[n]);
    StaysOpen(logs, cmEvents, params, n, e, s, Booked(s.balances, logs[n], account));
    Extends(logs, cmEvents, params, n, s, Booked(s.balances, logs[n], account));
  }

  /** A transfer inside a segment. */
  method Book(l: Log, account: nat, was: Transfers) returns (balances: Transfers)
    requires IsTransfer(l) && l.amount.Some?
    ensures balances == Booked(was, l, account)
  {
    balances := was;
    if l.token !in balances { balances := balances[l.token := 0]; }
    if l.args[0] == account {
      balances := balances[l.token := balances[l.token] - l.amount.value];
    } else if l.args[1] == account {
      balances := balances[l.token := balances[l.token] + l.amount.value];
    }
  }

  /** The first two tests of the loop: a manager event ends the open segment, an ExecuteOrder begins one. */
  method Delimit(logs: seq<Log>, cmEvents: set<Sig>, params: seq<ExecuteParams>, n: nat, s: Scan) returns (t: Scan)
    requires State(logs, cmEvents, params, n, s) && n < |logs| && ExecuteOrder in cmEvents && logs[n].Event?
    ensures IsManager(logs[n], cmEvents) || !s.parsing ==>
              State(logs, cmEvents, params, n + 1, t) && t.parsing == IsExecute(logs[n])
    ensures !IsManager(logs[n], cmEvents) && s.parsing ==> t == s
  {
    var sig := logs[n].sig;
    var Scan(parsing, index, balances, out) := s;
    if sig in cmEvents && parsing {
      Finished(logs, cmEvents, params, n, s);
      out, balances, parsing := out + [balances], map[], false;
    }
    if sig == ExecuteOrder {
      index, balances, parsing := index + 1, map[], true;
      Opens(logs, cmEvents, params, n, out);
    } else if sig in cmEvents && s.parsing {
      Closes(logs, cmEvents, params, n, s);
    } else if !s.parsing {
      Passes(logs, cmEvents, params, n, s);
    }
    t := Scan(parsing, index, balances, out);
  }

  /** One log. The scan goes on unless the log breaks it. */
  method Next(logs: seq<Log>, cmEvents: set<Sig>, params: seq<ExecuteParams>, n: nat, s: Scan) returns (r: Option<Scan>)
    requires State(logs, cmEvents, params, n, s) && n < |logs| && ExecuteOrder in cmEvents
    ensures r.None? <==> Breaks(logs, cmEvents, params, n)
    ensures r.Some? ==> State(logs, cmEvents, params, n + 1, r.value)
  {
    var l := logs[n];
    ParsingIs(logs, cmEvents, params, n, s);
    if l.NoTopics? { return None; }
    var t := Delimit(logs, cmEvents, params, n, s);
    if l.sig == Transfer && |l.args| == 2 && t.parsing {
      if l.amount.None? || t.index >= |params| { return None; }
      var balances := Book(l, params[t.index].creditAccount, t.balances);
      Books(logs, cmEvents, params, n, s);
      t := t.(balances := balances);
    } else if !(l.sig in cmEvents) && s.parsing {
      Passes(logs, cmEvents, params, n, s);
    }
    r := Some(t);
  }

  /** Main result: nothing if some log breaks the scan, otherwise one flow for every ExecuteOrder log,
      over the logs between it and the next manager event. */
  method GetExecuteTransfers(txLogs: seq<Log>, cmEvents: set<Sig>, params: seq<ExecuteParams>)
    returns (r: Option<seq<Transfers>>)
    requires ExecuteOrder in cmEvents
    ensures r.None? <==> exists i :: 0 <= i < |txLogs| && Breaks(txLogs, cmEvents, params, i)
    ensures r.Some? ==> |r.value| == |Positions(txLogs, |txLogs|)|
                        && Flows(txLogs, cmEvents, params, Positions(txLogs, |txLogs|), r.value)
  {
    var s := Scan(false, -1, map[], []);
    for n := 0 to |txLogs|
      invariant State(txLogs, cmEvents, params, n, s)
      invariant forall i :: 0 <= i < n ==> !Breaks(txLogs, cmEvents, params, i)
    {
      var next := Next(txLogs, cmEvents, params, n, s);
      if next.None? { return None; }
      s := next.value;
    }
    var out := s.out;
    if s.parsing {
      Finished(txLogs, cmEvents, params, |txLogs|, s);
      out := out + [s.balances];
    }
    r := Some(out);
  }

  datatype KnownCall = KnownCall(input: string, transfers: Transfers)

  /** Call `i` is the dapp call of the `i`-th outermost executeOrder node and carries the flow of the
      `i`-th ExecuteOrder log, both read against parameter `i`. */
  ghost predicate Paired(root: Call, logs: seq<Log>, manager: nat, cmEvents: set<Sig>, params: seq<ExecuteParams>,
                         i: nat, c: KnownCall) {
    var ps, es := Found(root, manager), Positions(logs, |logs|);
    && i < |params| && i < |ps| && i < |es| && At(root, ps[i]).Some?
    && IsDapp(At(root, ps[i]).value, params[i].protocol, Some(c.input))
    && FlowOf(Segment(logs, cmEvents, es[i]), params[i].creditAccount, c.transfers)
  }

  ghost predicate Unparsable(root: Call, logs: seq<Log>, manager: nat, cmEvents: set<Sig>, params: seq<ExecuteParams>) {
    || (exists i :: 0 <= i < |logs| && Breaks(logs, cmEvents, params, i))
    || |Positions(logs, |logs|)| != Least(|Found(root, manager)|, |params|)
    || (exists i ::
          0 <= i < Least(|Found(root, manager)|, |params|) &&
          Fruitless(root, Found(root, manager)[i], params[i].protocol))
  }

  ghost predicate Fruitless(root: Call, p: Path, dapp: nat) {
    At(root, p).Some? && IsDapp(At(root, p).value, dapp, None)
  }

  /** Calls and flows of a transaction, joined. Fails when a log breaks the scan, when the numbers of
      calls and flows differ, or when an executeOrder reaches no dapp call. */
  method ParseExecuteCalls(root: Call, logs: seq<Log>, manager: nat, cmEvents: set<Sig>, params: seq<ExecuteParams>)
    returns (r: Option<seq<KnownCall>>)
    requires ExecuteOrder in cmEvents
    ensures params == [] ==> r == Some([])
    ensures r.None? <==> params != [] && Unparsable(root, logs, manager, cmEvents, params)
    ensures r.Some? && params != [] ==>
              |r.value| == |Positions(logs, |logs|)| == Least(|Found(root, manager)|, |params|)
    ensures r.Some? ==> forall i :: 0 <= i < |r.value| ==> Paired(root, logs, manager, cmEvents, params, i, r.value[i])
  {
    if params == [] { return Some([]); }
    var filter := new ExecuteFilter(params, manager);
    var calls := filter.GetExecuteCalls(root);
    var transfers := GetExecuteTransfers(logs, cmEvents, params);
    if transfers.None? || |calls| != |transfers.value| { return None; }
    r := Join(root, logs, manager, cmEvents, params, calls, transfers.value);
  }

  lemma PairedAt(root: Call, logs: seq<Log>, manager: nat, cmEvents: set<Sig>, params: seq<ExecuteParams>,
                 calls: seq<Option<string>>, transfers: seq<Transfers>, i: nat)
    requires Resolves(root, Found(root, manager), params, 0, calls)
    requires Flows(logs, cmEvents, params, Positions(logs, |logs|), transfers) && i < |calls| == |transfers|
    ensures if calls[i].None? then Fruitless(root, Found(root, manager)[i], params[i].protocol)
            else Paired(root, logs, manager, cmEvents, params, i, KnownCall(calls[i].value, transfers[i]))
                 && !Fruitless(root, Found(root, manager)[i], params[i].protocol)
  {
    assert FlowAt(Segment(logs, cmEvents, Positions(logs, |logs|)[i]), params, i, transfers[i]);
  }

  /** Puts the flows into the calls. */
  method Join(ghost root: Call, ghost logs: seq<Log>, ghost manager: nat, ghost cmEvents: set<Sig>,
              ghost params: seq<ExecuteParams>, calls: seq<Option<string>>, transfers: seq<Transfers>)
    returns (r: Option<seq<KnownCall>>)
    requires Resolves(root, Found(root, manager), params, 0, calls)
    requires Flows(logs, cmEvents, params, Positions(logs, |logs|), transfers) && |calls| == |transfers|
    ensures r.None? <==> exists i :: 0 <= i < |calls| && Fruitless(root, Found(root, manager)[i], params[i].protocol)
    ensures r.Some? ==> |r.value| == |calls| && forall i :: 0 <= i < |calls| ==>
            Paired(root, logs, manager, cmEvents, params, i, r.value[i])
  {
    var known: seq<KnownCall> := [];
    for i := 0 to |calls|
      invariant |known| == i
      invariant forall j :: 0 <= j < i ==> Paired(root, logs, manager, cmEvents, params, j, known[j])
      invariant forall j :: 0 <= j < i ==> !Fruitless(root, Found(root, manager)[j], params[j].protocol)
    {
      PairedAt(root, logs, manager, cmEvents, params, calls, transfers, i);
      if calls[i].None? { return None; }
      known := known + [KnownCall(calls[i].value, transfers[i])];
    }
    r := Some(known);
  }
}
