/** Streaming the logs of a changing set of watched addresses: whenever handling a log changes the
    set, the rest of the stream is fetched anew. */
module LogStream {

  type Address = nat

  datatype Log = Log(block: int, index: nat, address: Address, topic: nat)

  predicate Before(a: Log, b: Log) { a.block < b.block || (a.block == b.block && a.index < b.index) }

  /** Chain order: strictly increasing (block, index). Block numbers are positive. */
  predicate Ordered(ls: seq<Log>) {
    && (forall i, j :: 0 <= i < j < |ls| ==> Before(ls[i], ls[j]))
    && (forall i :: 0 <= i < |ls| ==> ls[i].block > 0)
  }

  /** The adapters behind the wrapper, seen through the logs delivered to them so far: which addresses
      they watch, whether the latest log changed those, and up to which block an address is synced. */
  datatype Adapters = Adapters(watched: seq<Log> -> set<Address>, changed: seq<Log> -> bool, lastSync: Address -> int)

  /** The watched addresses change only when the adapter says so. */
  ghost predicate Honest(a: Adapters) {
    forall h, l {:trigger a.changed(h + [l])} :: !a.changed(h + [l]) ==> a.watched(h + [l]) == a.watched(h)
  }

  /** A log reaches its adapter unless that one is already synced past it. */
  predicate Delivered(a: Adapters, l: Log) { a.lastSync(l.address) < l.block }

  function Deliver(a: Adapters, h: seq<Log>, l: Log): seq<Log> { if Delivered(a, l) then h + [l] else h }

  /** The reference: walk the whole chain and handle each log whose address is watched at that moment. */
  function Walk(a: Adapters, ls: seq<Log>, h: seq<Log>): seq<Log>
    decreases |ls|
  {
    if ls == [] then []
    else if ls[0].address in a.watched(h) then [ls[0]] + Walk(a, ls[1..], Deliver(a, h, ls[0]))
    else Walk(a, ls[1..], h)
  }

  function Select(ls: seq<Log>, addrs: set<Address>): seq<Log>
    decreases |ls|
  {
    if ls == [] then [] else (if ls[0].address in addrs then [ls[0]] else []) + Select(ls[1..], addrs)
  }

  /** What the node answers: the logs of `addrs` from block `from` on. */
  function GetLogs(ls: seq<Log>, from: int, addrs: set<Address>): seq<Log>
    decreases |ls|
  {
    if ls == [] then [] else
      (if ls[0].block >= from && ls[0].address in addrs then [ls[0]] else []) + GetLogs(ls[1..], from, addrs)
  }

  /** Something the wrapper does. */
  datatype Event = Handle(log: Log) | Hook(last: int, next: int)

  /** The events for a sequence of handled logs: a hook whenever the block changes and at the end. */
  function WithHooks(hs: seq<Log>, till: int): seq<Event>
    decreases |hs|
  {
    if hs == [] then []
    else [Handle(hs[0])]
         + (if |hs| == 1 then [Hook(hs[0].block, till + 1)]
            else if hs[1].block != hs[0].block then [Hook(hs[0].block, hs[1].block)]
            else [])
         + WithHooks(hs[1..], till)
  }

  // ---------------------------------------------------------------------------------------------
  // Skipping and refetching.

  lemma OrderedTail(ls: seq<Log>, k: nat)
    requires Ordered(ls) && k <= |ls|
    ensures Ordered(ls[k..])
  {}

  /** Nothing selected, nothing to handle. */
  lemma {:induction false} NothingLeft(a: Adapters, ls: seq<Log>, h: seq<Log>)
    requires Select(ls, a.watched(h)) == []
    ensures Walk(a, ls, h) == []
    decreases |ls|
  {
    if ls != [] { NothingLeft(a, ls[1..], h); }
  }

  /** The first selected log is the next one the walk handles. */
  lemma {:induction false} NextSelected(a: Adapters, ls: seq<Log>, h: seq<Log>) returns (k: nat)
    requires Select(ls, a.watched(h)) != []
    ensures k < |ls| && ls[k] == Select(ls, a.watched(h))[0]
    ensures Select(ls[k + 1..], a.watched(h)) == Select(ls, a.watched(h))[1..]
    ensures Walk(a, ls, h) == [ls[k]] + Walk(a, ls[k + 1..], Deliver(a, h, ls[k]))
    decreases |ls|
  {
    if ls[0].address in a.watched(h) {
      k := 0;
    } else {
      var k' := NextSelected(a, ls[1..], h);
      k := k' + 1;
      assert ls[1..][k' + 1..] == ls[k + 1..];
    }
  }

  /** Index of the first log behind `l`. */
  function Behind(ls: seq<Log>, l: Log): (i: nat)
    ensures i <= |ls|
    decreases |ls|
  {
    if ls == [] || Before(l, ls[0]) then 0 else 1 + Behind(ls[1..], l)
  }

  lemma {:induction false} AllBehind(ls: seq<Log>, l: Log, addrs: set<Address>)
    requires forall i :: 0 <= i < |ls| ==> Before(l, ls[i])
    ensures GetLogs(ls, l.block, addrs) == Select(ls, addrs) &&
            (forall i :: 0 <= i < |Select(ls, addrs)| ==> Before(l, Select(ls, addrs)[i]))
    decreases |ls|
  {
    if ls != [] { AllBehind(ls[1..], l, addrs); }
  }

  /** Refetching from the block of the log just handled and cutting behind it yields exactly the
      later logs of the new addresses. */
  lemma {:induction false} Refetch(ls: seq<Log>, k: nat, addrs: set<Address>)
    requires Ordered(ls) && k < |ls|
    ensures var got := GetLogs(ls, ls[k].block, addrs); got[Behind(got, ls[k])..] == Select(ls[k + 1..], addrs)
    decreases |ls|
  {
    var l, rest := ls[k], GetLogs(ls[1..], ls[k].block, addrs);
    var got := GetLogs(ls, l.block, addrs);
    if k == 0 {
      forall i | 0 <= i < |ls[1..]| ensures Before(l, ls[1..][i]) { assert ls[1..][i] == ls[i + 1]; }
      AllBehind(ls[1..], l, addrs);
      assert Behind(rest, l) == 0;
      if l.address in addrs { assert got[1..] == rest; }
    } else {
      OrderedTail(ls, 1);
      Refetch(ls[1..], k - 1, addrs);
      assert ls[1..][k - 1] == l && ls[1..][k..] == ls[k + 1..];
      if ls[0].block >= l.block && ls[0].address in addrs {
        assert !Before(l, ls[0]) by { assert Before(ls[0], ls[k]); }
        assert got[0] == ls[0] && got[1..] == rest;
        assert got[1 + Behind(rest, l)..] == rest[Behind(rest, l)..];
      } else {
        assert got == rest;
      }
    }
  }

  lemma {:induction false} GetLogsOrdered(ls: seq<Log>, from: int, addrs: set<Address>)
    requires Ordered(ls)
    ensures Ordered(GetLogs(ls, from, addrs)) && forall x :: x in GetLogs(ls, from, addrs) ==> x in ls
    decreases |ls|
  {
    if ls != [] {
      OrderedTail(ls, 1);
      GetLogsOrdered(ls[1..], from, addrs);
      var rest := GetLogs(ls[1..], from, addrs);
      FirstBefore(ls);
      ConsOrdered(ls[0], rest);
      assert [] + rest == rest;
    }
  }

  lemma FirstBefore(ls: seq<Log>)
    requires Ordered(ls) && ls != []
    ensures ls[0].block > 0 && forall x :: x in ls[1..] ==> Before(ls[0], x) && x in ls
  {
    forall x | x in ls[1..] ensures Before(ls[0], x) && x in ls {
      var i :| 0 <= i < |ls[1..]| && ls[1..][i] == x;
      assert ls[i + 1] == x;
    }
  }

  lemma ConsOrdered(x: Log, rest: seq<Log>)
    requires Ordered(rest) && x.block > 0 && forall y :: y in rest ==> Before(x, y)
    ensures Ordered([x] + rest)
  {}

  lemma {:induction false} BehindIs(ls: seq<Log>, l: Log, k: nat)
    requires k <= |ls|
    requires forall i :: 0 <= i < k ==> !Before(l, ls[i])
    requires k < |ls| ==> Before(l, ls[k])
    ensures Behind(ls, l) == k
    decreases k
  {
    if k > 0 {
      assert ls[1..][..] == ls[1..];
      BehindIs(ls[1..], l, k - 1);
    }
  }

  /** Binary search for the first log behind `l`. */
  method SearchBehind(ls: seq<Log>, l: Log) returns (r: nat)
    requires Ordered(ls)
    ensures r == Behind(ls, l)
  {
    var lo, hi := 0, |ls|;
    while lo < hi
      invariant 0 <= lo <= hi <= |ls|
      invariant forall i :: 0 <= i < lo ==> !Before(l, ls[i])
      invariant forall i :: hi <= i < |ls| ==> Before(l, ls[i])
    {
      var mid := (lo + hi) / 2;
      if Before(l, ls[mid]) {
        forall i | mid <= i < |ls| ensures Before(l, ls[i]) { assert i == mid || Before(ls[mid], ls[i]); }
        hi := mid;
      } else {
        forall i | 0 <= i <= mid ensures !Before(l, ls[i]) { assert i == mid || Before(ls[i], ls[mid]); }
        lo := mid + 1;
      }
    }
    BehindIs(ls, l, lo);
    r := lo;
  }

  // ---------------------------------------------------------------------------------------------
  // The wrapper's loop.

  /** Events emitted while logs are still to come: no closing hook yet. */
  function Open(hs: seq<Log>): seq<Event>
    decreases |hs|
  {
    if hs == [] then []
    else if |hs| == 1 then [Handle(hs[0])]
    else Open(hs[..|hs| - 1])
         + (if hs[|hs| - 1].block != hs[|hs| - 2].block then [Hook(hs[|hs| - 2].block, hs[|hs| - 1].block)] else [])
         + [Handle(hs[|hs| - 1])]
  }

  lemma {:induction false} OpenFront(hs: seq<Log>)
    requires |hs| >= 2
    ensures Open(hs) == [Handle(hs[0])] +
            (if hs[1].block != hs[0].block then [Hook(hs[0].block, hs[1].block)] else []) + Open(hs[1..])
    decreases |hs|
  {
    var n := |hs|;
    var front := [Handle(hs[0])] + (if hs[1].block != hs[0].block then [Hook(hs[0].block, hs[1].block)] else []);
    if n == 2 {
      assert hs[..1] == [hs[0]] && hs[1..] == [hs[1]];
    } else {
      OpenFront(hs[..n - 1]);
      assert hs[..n - 1][1..] == hs[1..][..n - 2];
      var last := (if hs[n - 1].block != hs[n - 2].block then [Hook(hs[n - 2].block, hs[n - 1].block)] else []) +
        [Handle(hs[n - 1])];
      assert Open(hs) == Open(hs[..n - 1]) + last;
      assert Open(hs[1..]) == Open(hs[1..][..n - 2]) + last;
      assert front + Open(hs[1..][..n - 2]) + last == front + Open(hs[1..]);
    }
  }

  lemma {:induction false} Closing(hs: seq<Log>, till: int)
    requires hs != []
    ensures Open(hs) + [Hook(hs[|hs| - 1].block, till + 1)] == WithHooks(hs, till)
    decreases |hs|
  {
    if |hs| == 1 {
      assert hs[1..] == [];
    } else {
      OpenFront(hs);
      Closing(hs[1..], till);
      assert hs[1..][|hs[1..]| - 1] == hs[|hs| - 1];
    }
  }

  /** Where the loop stands: `pos` chain logs are behind it, `todo` is the selected rest. */
  ghost predicate Streaming(a: Adapters, chain: seq<Log>, h0: seq<Log>, handled: seq<Log>, h: seq<Log>, pos: nat,
                            todo: seq<Log>) {
    && pos <= |chain|
    && todo == Select(chain[pos..], a.watched(h))
    && handled + Walk(a, chain[pos..], h) == Walk(a, chain, h0)
  }

  /** Handling the next selected log. */
  lemma StreamStep(a: Adapters, chain: seq<Log>, h0: seq<Log>, handled: seq<Log>, h: seq<Log>, pos: nat, todo: seq<Log>)
    returns (pos': nat)
    requires Honest(a) && Ordered(chain) && Streaming(a, chain, h0, handled, h, pos, todo) && todo != []
    ensures pos < pos' <= |chain| && chain[pos' - 1] == todo[0]
    ensures var h' := Deliver(a, h, todo[0]);
            && Streaming(a, chain, h0, handled + [todo[0]], h', pos', Select(chain[pos'..], a.watched(h')))
            && (a.watched(h') == a.watched(h) ==> todo[1..] == Select(chain[pos'..], a.watched(h')))
  {
    var k := NextSelected(a, chain[pos..], h);
    pos' := pos + k + 1;
    assert chain[pos..][k + 1..] == chain[pos'..];
    var h' := Deliver(a, h, todo[0]);
    assert handled + ([todo[0]] + Walk(a, chain[pos'..], h')) == handled + [todo[0]] + Walk(a, chain[pos'..], h');
  }

  /** The hook of the block just left, if the block changes, and then the log itself. */
  method Emit(trace: seq<Event>, last: int, txLog: Log) returns (more: seq<Event>, block: int)
    requires txLog.block > 0
    ensures more == trace + (if last != 0 && last != txLog.block then [Hook(last, txLog.block)] else []) +
            [Handle(txLog)]
    ensures block == txLog.block
  {
    more, block := trace, last;
    if block == 0 {
      block := txLog.block;
    }
    if block != txLog.block {
      more := more + [Hook(block, txLog.block)];
      block := txLog.block;
    }
    more := more + [Handle(txLog)];
  }

  /** The logs that remain behind `txLog`: the list at hand, or a new one if the addresses changed. */
  method Remaining(a: Adapters, chain: seq<Log>, h: seq<Log>, txLog: Log, rest: seq<Log>, reached: bool, ghost pos: nat)
    returns (logs: seq<Log>)
    requires Ordered(chain) && 0 < pos <= |chain| && chain[pos - 1] == txLog
    requires !(reached && a.changed(h)) ==> rest == Select(chain[pos..], a.watched(h))
    ensures logs == Select(chain[pos..], a.watched(h))
  {
    logs := rest;
    if reached && a.changed(h) {
      var newTxLogs := GetLogs(chain, txLog.block, a.watched(h));
      GetLogsOrdered(chain, txLog.block, a.watched(h));
      var splitInd := SearchBehind(newTxLogs, txLog);
      Refetch(chain, pos - 1, a.watched(h));
      logs := newTxLogs[splitInd..];
    }
  }

  // ---------------------------------------------------------------------------------------------
  // Which logs of the chain are handled, said of each position.

  /** The logs kept. */
  function Kept(ls: seq<Log>, keep: seq<bool>): seq<Log>
    requires |keep| == |ls|
  {
    if ls == [] then [] else (if keep[0] then [ls[0]] else []) + Kept(ls[1..], keep[1..])
  }

  /** The kept logs that reach an adapter, which are those of blocks it is not yet synced to. */
  function Heard(a: Adapters, ls: seq<Log>, keep: seq<bool>): seq<Log>
    requires |keep| == |ls|
  {
    if ls == [] then []
    else (if keep[0] && a.lastSync(ls[0].address) < ls[0].block then [ls[0]] else []) + Heard(a, ls[1..], keep[1..])
  }

  /** A log is kept exactly if its address is watched once the logs before it have been heard. */
  ghost predicate Chosen(a: Adapters, chain: seq<Log>, h0: seq<Log>, keep: seq<bool>) {
    |keep| == |chain| && forall i :: 0 <= i < |chain| ==> KeptRightly(a, chain, h0, keep, i)
  }

  ghost predicate KeptRightly(a: Adapters, chain: seq<Log>, h0: seq<Log>, keep: seq<bool>, i: nat)
    requires i < |chain| == |keep|
  {
    keep[i] <==> chain[i].address in a.watched(h0 + Heard(a, chain[..i], keep[..i]))
  }

  /** There is only one such choice. */
  lemma ChosenUnique(a: Adapters, chain: seq<Log>, h0: seq<Log>, keep: seq<bool>, keep': seq<bool>)
    requires Chosen(a, chain, h0, keep) && Chosen(a, chain, h0, keep')
    ensures keep == keep'
  {
    SameUpTo(a, chain, h0, keep, keep', |chain|);
    assert keep == keep[..|chain|] && keep' == keep'[..|chain|];
  }

  lemma {:induction false} SameUpTo(a: Adapters, chain: seq<Log>, h0: seq<Log>, keep: seq<bool>, keep': seq<bool>,
                                    n: nat)
    requires Chosen(a, chain, h0, keep) && Chosen(a, chain, h0, keep') && n <= |chain|
    ensures keep[..n] == keep'[..n]
  {
    if n > 0 {
      SameUpTo(a, chain, h0, keep, keep', n - 1);
      assert KeptRightly(a, chain, h0, keep, n - 1) && KeptRightly(a, chain, h0, keep', n - 1);
      assert keep[..n] == keep[..n - 1] + [keep[n - 1]] && keep'[..n] == keep'[..n - 1] + [keep'[n - 1]];
    }
  }

  ghost function Choice(a: Adapters, ls: seq<Log>, h: seq<Log>): (keep: seq<bool>)
    ensures |keep| == |ls|
    decreases |ls|
  {
    if ls == [] then []
    else if ls[0].address in a.watched(h) then [true] + Choice(a, ls[1..], Deliver(a, h, ls[0]))
    else [false] + Choice(a, ls[1..], h)
  }

  /** The walk handles the logs of that choice. */
  lemma {:induction false} WalkChooses(a: Adapters, ls: seq<Log>, h: seq<Log>)
    ensures Chosen(a, ls, h, Choice(a, ls, h)) && Walk(a, ls, h) == Kept(ls, Choice(a, ls, h))
    decreases |ls|
  {
    if ls != [] {
      var keep := Choice(a, ls, h);
      var h' := if keep[0] then Deliver(a, h, ls[0]) else h;
      WalkChooses(a, ls[1..], h');
      assert keep == [keep[0]] + Choice(a, ls[1..], h') && keep[1..] == Choice(a, ls[1..], h');
      forall i | 0 <= i < |ls| ensures KeptRightly(a, ls, h, keep, i) {
        if i == 0 {
          assert ls[..0] == [] && keep[..0] == [] && h + [] == h;
        } else {
          assert KeptRightly(a, ls[1..], h', keep[1..], i - 1);
          assert ls[..i][1..] == ls[1..][..i - 1] && keep[..i][1..] == keep[1..][..i - 1];
          HeardFirst(a, ls, h, keep, i);
        }
      }
    }
  }

  lemma HeardFirst(a: Adapters, ls: seq<Log>, h: seq<Log>, keep: seq<bool>, i: nat)
    requires 0 < i <= |ls| == |keep|
    ensures var h' := if keep[0] then Deliver(a, h, ls[0]) else h;
            h + Heard(a, ls[..i], keep[..i]) == h' + Heard(a, ls[1..][..i - 1], keep[1..][..i - 1])
  {
    assert ls[..i][1..] == ls[1..][..i - 1] && keep[..i][1..] == keep[1..][..i - 1];
    var rest := Heard(a, ls[1..][..i - 1], keep[1..][..i - 1]);
    assert h + ([ls[0]] + rest) == h + [ls[0]] + rest && [] + rest == rest;
  }

  /** Each hook names the block that is left and the one that is entered, or the end of the batch. */
  ghost predicate HooksNext(tr: seq<Event>, till: int) {
    forall i :: 0 <= i < |tr| ==> NextAt(tr, till, i)
  }

  ghost predicate NextAt(tr: seq<Event>, till: int, i: nat)
    requires i < |tr|
  {
    tr[i].Hook? ==>
      if i + 1 < |tr| then tr[i + 1].Handle? && tr[i].next == tr[i + 1].log.block else tr[i].next == till + 1
  }

  lemma NextBehind(e: Event, rest: seq<Event>, till: int)
    requires HooksNext(rest, till)
    requires e.Hook? ==> if rest == [] then e.next == till + 1 else rest[0].Handle? && e.next == rest[0].log.block
    ensures HooksNext([e] + rest, till)
  {
    var tr := [e] + rest;
    forall i | 0 <= i < |tr| ensures NextAt(tr, till, i) {
      if i > 0 {
        assert NextAt(rest, till, i - 1) && tr[i] == rest[i - 1];
        if i + 1 < |tr| { assert tr[i + 1] == rest[i]; }
      } else if rest != [] {
        assert tr[1] == rest[0];
      }
    }
  }

  lemma {:induction false} HooksName(hs: seq<Log>, till: int)
    ensures HooksNext(WithHooks(hs, till), till)
    decreases |hs|
  {
    if hs != [] {
      var rest := WithHooks(hs[1..], till);
      HooksName(hs[1..], till);
      FirstEvents(hs, till);
      if |hs| > 1 { FirstEvents(hs[1..], till); }
      if EndsBlock(hs) {
        NextBehind(HookAfter(hs, till), rest, till);
        NextBehind(Handle(hs[0]), [HookAfter(hs, till)] + rest, till);
      } else {
        NextBehind(Handle(hs[0]), rest, till);
      }
    }
  }

  /** What a trace of the handled logs `hs` is: the logs in order, one hook for each block seen, placed
      behind the block's logs and before any later one, naming the next block. */
  ghost predicate TraceOf(tr: seq<Event>, hs: seq<Log>, till: int) {
    && Handles(tr) == hs && HooksInPlace(tr) && HooksNext(tr, till)
    && forall b :: HookCount(tr, b) == if exists l :: l in hs && l.block == b then 1 else 0
  }

  lemma TraceIs(hs: seq<Log>, till: int)
    requires Ordered(hs)
    ensures TraceOf(WithHooks(hs, till), hs, till)
  {
    forall b ensures HookCount(WithHooks(hs, till), b) == if exists l :: l in hs && l.block == b then 1 else 0 {
      OneHookPerBlock(hs, till, b);
    }
    OneHookPerBlock(hs, till, 0);
    HooksPlaced(hs, till);
    HooksName(hs, till);
  }

  /** The wrapper's loop over a batch of logs; `chain` is the chain up to the block synced to. It
      handles exactly the chain logs whose address is watched once the logs before them have been heard. */
  method OnLogs(a: Adapters, chain: seq<Log>, till: int, h0: seq<Log>, txLogs: seq<Log>)
    returns (trace: seq<Event>, ghost keep: seq<bool>)
    requires Honest(a) && Ordered(chain)
    requires txLogs == Select(chain, a.watched(h0))
    ensures Chosen(a, chain, h0, keep) && TraceOf(trace, Kept(chain, keep), till)
    ensures trace == WithHooks(Walk(a, chain, h0), till)
  {
    var logs, h, lastBlockNum := txLogs, h0, 0;
    trace := [];
    ghost var handled: seq<Log> := [];
    ghost var pos: nat := 0;
    assert chain[0..] == chain && [] + Walk(a, chain, h0) == Walk(a, chain, h0);
    while |logs| > 0
      invariant Streaming(a, chain, h0, handled, h, pos, logs)
      invariant trace == Open(handled) && lastBlockNum == (if handled == [] then 0 else handled[|handled| - 1].block)
      invariant handled != [] ==> lastBlockNum > 0
      decreases |chain| - pos
    {
      var txLog := logs[0];
      ghost var pos' := StreamStep(a, chain, h0, handled, h, pos, logs);
      assert chain[pos' - 1].block > 0;
      OpenStep(handled, txLog);
      trace, lastBlockNum := Emit(trace, lastBlockNum, txLog);
      var reached := Delivered(a, txLog);
      h := Deliver(a, h, txLog);
      logs := Remaining(a, chain, h, txLog, logs[1..], reached, pos');
      handled, pos := handled + [txLog], pos';
    }
    NothingLeft(a, chain[pos..], h);
    assert handled + [] == handled;
    if lastBlockNum != 0 {
      trace := trace + [Hook(lastBlockNum, till + 1)];
      Closing(handled, till);
    }
    keep := Choice(a, chain, h0);
    WalkChooses(a, chain, h0);
    WalkInOrder(a, chain, h0);
    TraceIs(handled, till);
  }

  lemma OpenStep(hs: seq<Log>, l: Log)
    ensures Open(hs + [l]) == Open(hs)
              + (if hs != [] && hs[|hs| - 1].block != l.block then [Hook(hs[|hs| - 1].block, l.block)] else []) +
                [Handle(l)]
  {
    var t := hs + [l];
    assert t[..|t| - 1] == hs;
  }

  // ---------------------------------------------------------------------------------------------
  // What the trace means.

  /** The walk handles logs in chain order, each at most once, and none that is not on the chain. */
  lemma {:induction false} WalkInOrder(a: Adapters, ls: seq<Log>, h: seq<Log>)
    requires Ordered(ls)
    ensures Ordered(Walk(a, ls, h)) && forall x :: x in Walk(a, ls, h) ==> x in ls
    decreases |ls|
  {
    if ls != [] {
      OrderedTail(ls, 1);
      var h' := if ls[0].address in a.watched(h) then Deliver(a, h, ls[0]) else h;
      WalkInOrder(a, ls[1..], h');
      var rest := Walk(a, ls[1..], h');
      if ls[0].address in a.watched(h) {
        forall x | x in rest ensures Before(ls[0], x) {
          var i :| 0 <= i < |ls[1..]| && ls[1..][i] == x;
          assert ls[i + 1] == x;
        }
        ConsOrdered(ls[0], rest);
      }
    }
  }

  function Handles(tr: seq<Event>): seq<Log> {
    if tr == [] then [] else (if tr[0].Handle? then [tr[0].log] else []) + Handles(tr[1..])
  }

  function HookCount(tr: seq<Event>, b: int): nat {
    if tr == [] then 0 else (if tr[0].Hook? && tr[0].last == b then 1 else 0) + HookCount(tr[1..], b)
  }

  predicate SeenBlock(hs: seq<Log>, b: int) { exists l :: l in hs && l.block == b }

  /** A hook comes after every log of its block and before every log of a later one. */
  predicate HooksInPlace(tr: seq<Event>) {
    forall i, j :: 0 <= i < j < |tr| ==>
      && (tr[i].Hook? && tr[j].Handle? ==> tr[i].last < tr[j].log.block)
      && (tr[i].Handle? && tr[j].Hook? ==> tr[i].log.block <= tr[j].last)
  }

  lemma {:induction false} EventsOf(hs: seq<Log>, till: int)
    ensures forall e :: e in WithHooks(hs, till) ==> if e.Handle? then e.log in hs else SeenBlock(hs, e.last)
    decreases |hs|
  {
    if hs != [] {
      EventsOf(hs[1..], till);
      assert hs[0] in hs && forall x :: x in hs[1..] ==> x in hs;
    }
  }

  lemma LaterBlocks(hs: seq<Log>)
    requires Ordered(hs) && |hs| > 1
    ensures forall l :: l in hs[1..] ==>
            hs[0].block <= l.block && (hs[1].block != hs[0].block ==> hs[0].block < l.block)
  {
    forall l | l in hs[1..] ensures hs[0].block <= l.block && (hs[1].block != hs[0].block ==> hs[0].block < l.block) {
      var i :| 0 <= i < |hs[1..]| && hs[1..][i] == l;
      assert hs[i + 1] == l && (i > 0 ==> Before(hs[1], hs[i + 1])) && Before(hs[0], hs[1]);
    }
  }

  /** Whether the first of the logs is the last of its block. */
  predicate EndsBlock(hs: seq<Log>)
    requires hs != []
  {
    |hs| == 1 || hs[1].block != hs[0].block
  }

  function HookAfter(hs: seq<Log>, till: int): Event
    requires hs != []
  {
    Hook(hs[0].block, if |hs| == 1 then till + 1 else hs[1].block)
  }

  lemma FirstEvents(hs: seq<Log>, till: int)
    requires hs != []
    ensures var rest := WithHooks(hs[1..], till);
            WithHooks(hs, till) == [Handle(hs[0])] + (if EndsBlock(hs) then [HookAfter(hs, till)] + rest else rest)
  {}

  lemma CountFirst(e: Event, rest: seq<Event>, b: int)
    ensures HookCount([e] + rest, b) == (if e.Hook? && e.last == b then 1 else 0) + HookCount(rest, b)
    ensures Handles([e] + rest) == (if e.Handle? then [e.log] else []) + Handles(rest)
  {
    assert ([e] + rest)[1..] == rest;
  }

  lemma SeenFirst(hs: seq<Log>, b: int)
    requires hs != []
    ensures SeenBlock(hs, b) <==> hs[0].block == b || SeenBlock(hs[1..], b)
  {
    assert hs == [hs[0]] + hs[1..];
  }

  /** Exactly one hook for every block seen, none for any other. */
  lemma {:induction false} OneHookPerBlock(hs: seq<Log>, till: int, b: int)
    requires Ordered(hs)
    ensures HookCount(WithHooks(hs, till), b) == if SeenBlock(hs, b) then 1 else 0
    ensures Handles(WithHooks(hs, till)) == hs
    decreases |hs|
  {
    if hs != [] {
      var rest := WithHooks(hs[1..], till);
      OrderedTail(hs, 1);
      OneHookPerBlock(hs[1..], till, b);
      FirstEvents(hs, till);
      SeenFirst(hs, b);
      if EndsBlock(hs) {
        CountFirst(HookAfter(hs, till), rest, b);
        CountFirst(Handle(hs[0]), [HookAfter(hs, till)] + rest, b);
        if |hs| > 1 { LaterBlocks(hs); }
      } else {
        CountFirst(Handle(hs[0]), rest, b);
        assert hs[1] in hs[1..];
      }
    }
  }

  /** The hook of a block runs once the block's logs have been handled and before any later log. */
  lemma {:induction false} HooksPlaced(hs: seq<Log>, till: int)
    requires Ordered(hs)
    ensures HooksInPlace(WithHooks(hs, till))
    decreases |hs|
  {
    if hs != [] {
      var rest := WithHooks(hs[1..], till);
      OrderedTail(hs, 1);
      HooksPlaced(hs[1..], till);
      EventsOf(hs[1..], till);
      FirstEvents(hs, till);
      if |hs| > 1 { LaterBlocks(hs); }
      if EndsBlock(hs) {
        PlaceHook(HookAfter(hs, till), rest);
        PlaceHandle(hs[0], [HookAfter(hs, till)] + rest);
      } else {
        PlaceHandle(hs[0], rest);
      }
    }
  }

  lemma PlaceHook(hook: Event, rest: seq<Event>)
    requires hook.Hook? && HooksInPlace(rest) && forall e :: e in rest && e.Handle? ==> hook.last < e.log.block
    ensures HooksInPlace([hook] + rest)
  {}

  lemma PlaceHandle(l: Log, rest: seq<Event>)
    requires HooksInPlace(rest) && forall e :: e in rest && e.Hook? ==> l.block <= e.last
    ensures HooksInPlace([Handle(l)] + rest)
  {}
}
