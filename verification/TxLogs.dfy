/** Grouping a block's logs by transaction, keeping the transactions worth keeping. */
module TxLogs {

  import opened Wrappers

  datatype Topic = ExecuteOrder | CloseCreditAccount | OtherTopic(id: nat)

  /** A log as a node returns it. */
  datatype TxLog = TxLog(txHash: nat, address: nat, topics: seq<Topic>, data: nat)

  /** The log as it is stored. */
  datatype Log = Log(address: nat, topics: seq<Topic>, data: nat)

  type LogStore = map<nat, seq<Log>>

  function Format(l: TxLog): Log { Log(l.address, l.topics, l.data) }

  predicate IsValid(l: TxLog) { |l.topics| > 0 && (l.topics[0].ExecuteOrder? || l.topics[0].CloseCreditAccount?) }

  // ---------------------------------------------------------------------------------------------
  // Reference: the full log lists of the transactions that hold a valid log.

  /** All logs of a transaction among the first `n`. */
  function Full(logs: seq<TxLog>, n: nat, h: nat): seq<Log>
    requires n <= |logs|
  {
    if n == 0 then [] else Full(logs, n - 1, h) + if logs[n - 1].txHash == h
      then [Log(logs[n - 1].address, logs[n - 1].topics, logs[n - 1].data)] else []
  }

  /** Some log of the transaction is an ExecuteOrder or a v2 close. */
  ghost predicate HasValid(logs: seq<TxLog>, h: nat) {
    exists l :: l in logs && l.txHash == h && |l.topics| > 0 && l.topics[0] in {ExecuteOrder, CloseCreditAccount}
  }

  /** The logs of a transaction stand together. */
  ghost predicate Contiguous(logs: seq<TxLog>) {
    forall i, j, k :: 0 <= i < j < k < |logs| && logs[i].txHash == logs[k].txHash ==> logs[j].txHash == logs[i].txHash
  }

  ghost predicate Exact(logs: seq<TxLog>, store: LogStore) {
    forall h :: (h in store <==> HasValid(logs, h)) && (h in store ==> store[h] == Full(logs, |logs|, h))
  }

  // ---------------------------------------------------------------------------------------------
  // What the scan holds, transaction by transaction, for logs in any order.

  /** The run of equal hashes that ends before `k` holds a valid log. */
  predicate RunValid(logs: seq<TxLog>, k: nat)
    requires 0 < k <= |logs|
  {
    IsValid(logs[k - 1]) || (k > 1 && logs[k - 2].txHash == logs[k - 1].txHash && RunValid(logs, k - 1))
  }

  /** A run of `h` ends at `k` without a valid log. */
  predicate BadRun(logs: seq<TxLog>, k: nat, h: nat) {
    0 < k <= |logs| && logs[k - 1].txHash == h && (k < |logs| ==> logs[k].txHash != h) && !RunValid(logs, k)
  }

  ghost predicate HasBadRun(logs: seq<TxLog>, n: nat, h: nat) { exists k :: 0 < k < n && BadRun(logs, k, h) }

  /** The logs of `h` held after `n` logs: each bad run forgets what was held. */
  function Held(logs: seq<TxLog>, n: nat, h: nat): seq<Log>
    requires n <= |logs|
  {
    if n == 0 then [] else
      (if BadRun(logs, n - 1, h) then [] else Held(logs, n - 1, h))
      + if logs[n - 1].txHash == h then [Format(logs[n - 1])] else []
  }

  function Result(logs: seq<TxLog>, h: nat): seq<Log> {
    if BadRun(logs, |logs|, h) then [] else Held(logs, |logs|, h)
  }

  function Hashes(logs: seq<TxLog>): set<nat> { set l | l in logs :: l.txHash }

  function Fetched(logs: seq<TxLog>): LogStore { map h | h in Hashes(logs) && Result(logs, h) != [] :: Result(logs, h) }

  lemma {:induction false} HeldIff(logs: seq<TxLog>, n: nat, h: nat)
    requires n <= |logs|
    ensures |Held(logs, n, h)| <= |Full(logs, n, h)|
    ensures HasBadRun(logs, n, h) ==> |Held(logs, n, h)| < |Full(logs, n, h)|
    ensures !HasBadRun(logs, n, h) ==> Held(logs, n, h) == Full(logs, n, h)
  {
    if n > 0 {
      HeldIff(logs, n - 1, h);
      BadRunMore(logs, n - 1, h);
      if BadRun(logs, n - 1, h) { FullNonEmpty(logs, n - 1, h, n - 2); }
    }
  }

  lemma BadRunMore(logs: seq<TxLog>, n: nat, h: nat)
    ensures HasBadRun(logs, n + 1, h) <==> HasBadRun(logs, n, h) || BadRun(logs, n, h)
  {
    if HasBadRun(logs, n + 1, h) && !BadRun(logs, n, h) {
      var k :| 0 < k < n + 1 && BadRun(logs, k, h);
      assert k < n;
    }
  }

  lemma {:induction false} FullNonEmpty(logs: seq<TxLog>, n: nat, h: nat, i: nat)
    requires i < n <= |logs| && logs[i].txHash == h
    ensures Full(logs, n, h) != []
  {
    if i < n - 1 { FullNonEmpty(logs, n - 1, h, i); }
  }

  lemma {:induction false} FullEmpty(logs: seq<TxLog>, n: nat, h: nat)
    requires n <= |logs| && h !in Hashes(logs)
    ensures Full(logs, n, h) == []
  {
    if n > 0 { FullEmpty(logs, n - 1, h); assert logs[n - 1] in logs; }
  }

  /** For logs in any order: a transaction that occurs keeps its full list exactly when each of its
      runs holds a valid log. */
  lemma FullIff(logs: seq<TxLog>, h: nat)
    requires h in Hashes(logs)
    ensures Result(logs, h) == Full(logs, |logs|, h) <==> !HasBadRun(logs, |logs| + 1, h)
  {
    HeldIff(logs, |logs|, h);
    BadRunMore(logs, |logs|, h);
    var i :| 0 <= i < |logs| && logs[i].txHash == h;
    FullNonEmpty(logs, |logs|, h, i);
  }

  /** Walks back from a valid or invalid log: a run without a valid log holds none anywhere in it. */
  lemma {:induction false} RunHas(logs: seq<TxLog>, k: nat, i: nat)
    requires i < k <= |logs| && IsValid(logs[i]) && forall j :: i <= j < k ==> logs[j].txHash == logs[i].txHash
    ensures RunValid(logs, k)
    decreases k
  {
    if i < k - 1 { RunHas(logs, k - 1, i); }
  }

  lemma {:induction false} RunHasNone(logs: seq<TxLog>, k: nat)
    requires 0 < k <= |logs| && forall i :: 0 <= i < k && logs[i].txHash == logs[k - 1].txHash ==> !IsValid(logs[i])
    ensures !RunValid(logs, k)
    decreases k
  {
    if k > 1 && logs[k - 2].txHash == logs[k - 1].txHash { RunHasNone(logs, k - 1); }
  }

  /** With contiguous logs, a transaction with a valid log has no bad run. */
  lemma ContiguousRun(logs: seq<TxLog>, h: nat)
    requires Contiguous(logs) && HasValid(logs, h)
    ensures !HasBadRun(logs, |logs| + 1, h)
  {
    if HasBadRun(logs, |logs| + 1, h) {
      var k :| 0 < k < |logs| + 1 && BadRun(logs, k, h);
      var i :| 0 <= i < |logs| && logs[i].txHash == h && IsValid(logs[i]);
      if i < k { RunHas(logs, k, i); }
      assert false;
    }
  }

  /** Without a valid log nothing is kept, whatever the order. */
  lemma NoValidNothing(logs: seq<TxLog>, h: nat)
    requires !HasValid(logs, h)
    ensures Result(logs, h) == []
  {
    if h in Hashes(logs) && !BadRun(logs, |logs|, h) {
      HeldNothing(logs, |logs|, h);
    } else if h !in Hashes(logs) {
      HeldIff(logs, |logs|, h);
      FullEmpty(logs, |logs|, h);
    }
  }

  lemma {:induction false} HeldNothing(logs: seq<TxLog>, n: nat, h: nat)
    requires n <= |logs| && !HasValid(logs, h) &&
             (n > 0 && logs[n - 1].txHash == h ==> n == |logs| && !BadRun(logs, n, h))
    ensures Held(logs, n, h) == []
  {
    if n > 0 {
      if logs[n - 1].txHash == h {
        NeverValid(logs, n, h);
        assert false;
      } else if n > 1 && logs[n - 2].txHash == h {
        NeverValid(logs, n - 1, h);
        assert BadRun(logs, n - 1, h);
      } else {
        HeldNothing(logs, n - 1, h);
      }
    }
  }

  lemma NeverValid(logs: seq<TxLog>, k: nat, h: nat)
    requires 0 < k <= |logs| && logs[k - 1].txHash == h && !HasValid(logs, h)
    ensures !RunValid(logs, k)
  {
    forall i | 0 <= i < k && logs[i].txHash == h ensures !IsValid(logs[i]) { assert logs[i] in logs; }
    RunHasNone(logs, k);
  }

  lemma ValidOccurs(logs: seq<TxLog>, h: nat)
    requires HasValid(logs, h)
    ensures h in Hashes(logs) && Full(logs, |logs|, h) != []
  {
    var i :| 0 <= i < |logs| && logs[i].txHash == h && IsValid(logs[i]);
    FullNonEmpty(logs, |logs|, h, i);
  }

  /** Main result for one fetch, for logs in any order: the store is exactly the full lists of the valid
      transactions if and only if each run of each valid transaction holds a valid log. */
  lemma ExactIff(logs: seq<TxLog>)
    ensures Exact(logs, Fetched(logs)) <==> forall h :: HasValid(logs, h) ==> !HasBadRun(logs, |logs| + 1, h)
  {
    forall h ensures var store := Fetched(logs);
        ((h in store <==> HasValid(logs, h)) && (h in store ==> store[h] == Full(logs, |logs|, h)))
        <==> (HasValid(logs, h) ==> !HasBadRun(logs, |logs| + 1, h))
    {
      if HasValid(logs, h) {
        ValidOccurs(logs, h);
        FullIff(logs, h);
      } else {
        NoValidNothing(logs, h);
      }
    }
  }

  /** Contiguous logs, as a node returns them, always meet the condition. */
  lemma ContiguousExact(logs: seq<TxLog>)
    requires Contiguous(logs)
    ensures Exact(logs, Fetched(logs))
  {
    forall h | HasValid(logs, h) ensures !HasBadRun(logs, |logs| + 1, h) { ContiguousRun(logs, h); }
    ExactIff(logs);
  }

  /** A transaction with nothing but a v2 close is kept, its log as the node gave it. */
  lemma CloseIsKept(h: nat, address: nat, more: seq<Topic>, data: nat)
    ensures Fetched([TxLog(h, address, [CloseCreditAccount] + more, data)])
            == map[h := [Log(address, [CloseCreditAccount] + more, data)]]
  {
    var l := TxLog(h, address, [CloseCreditAccount] + more, data);
    assert l in [l] && Contiguous([l]) && HasValid([l], h);
    ContiguousExact([l]);
    assert Full([l], 0, h) == [] && Full([l], 1, h) == [Log(l.address, l.topics, l.data)];
    assert forall k :: HasValid([l], k) <==> k == h;
  }

  /** A transaction of other logs is not. */
  lemma OtherIsDropped(h: nat, address: nat, topics: seq<Topic>, data: nat)
    requires topics == [] || topics[0].OtherTopic?
    ensures Fetched([TxLog(h, address, topics, data)]) == map[]
  {
    var l := TxLog(h, address, topics, data);
    assert Contiguous([l]) && forall k :: !HasValid([l], k);
    ContiguousExact([l]);
  }

  /** Logs that return to an earlier transaction can lose it: here the first log is dropped. */
  lemma InterleavedLoses(data: nat)
    ensures var logs := [TxLog(1, 0, [], data), TxLog(2, 0, [], 0), TxLog(1, 0, [ExecuteOrder], 0)];
            HasValid(logs, 1) && !Exact(logs, Fetched(logs))
  {
    var logs := [TxLog(1, 0, [], data), TxLog(2, 0, [], 0), TxLog(1, 0, [ExecuteOrder], 0)];
    assert logs[2] in logs && logs[0] in logs;
    assert BadRun(logs, 1, 1);
    assert 1 in Hashes(logs);
    FullIff(logs, 1);
  }

  // ---------------------------------------------------------------------------------------------
  // The scan.

  /** Hash of the logs being read, absent before the first and after the last, and whether to keep them. */
  datatype Operator = Operator(curTxHash: Option<nat>, storeCurTxHash: bool)

  ghost predicate Holds(logs: seq<TxLog>, n: nat, store: LogStore)
    requires n <= |logs|
  {
    forall h :: if h in store then store[h] == Held(logs, n, h) != [] else Held(logs, n, h) == []
  }

  ghost predicate Tracks(logs: seq<TxLog>, n: nat, op: Operator)
    requires n <= |logs|
  {
    if n == 0 then op == Operator(None, false) else op == Operator(Some(logs[n - 1].txHash), RunValid(logs, n))
  }

  /** Moving to another transaction drops the logs of the last one unless it is to be kept. */
  method Next(op: Operator, store: LogStore, newTxHash: Option<nat>) returns (op': Operator, store': LogStore)
    ensures op.curTxHash == newTxHash ==> op' == op && store' == store
    ensures op.curTxHash != newTxHash ==> op' == Operator(newTxHash, false)
    ensures op.curTxHash != newTxHash ==>
            store' == if op.storeCurTxHash || op.curTxHash.None? then store else store - {op.curTxHash.value}
  {
    op', store' := op, store;
    if op.curTxHash != newTxHash {
      if !op.storeCurTxHash && op.curTxHash.Some? { store' := store - {op.curTxHash.value}; }
      op' := Operator(newTxHash, false);
    }
  }

  function Appended(store: LogStore, h: nat, l: Log): LogStore {
    store[h := (if h in store then store[h] else []) + [l]]
  }

  lemma HoldsNext(logs: seq<TxLog>, n: nat, store: LogStore, op: Operator, store': LogStore)
    requires n < |logs| && Holds(logs, n, store) && Tracks(logs, n, op)
    requires store' == if op.curTxHash == Some(logs[n].txHash) || op.storeCurTxHash ||
             op.curTxHash.None? then store else store - {op.curTxHash.value}
    ensures Holds(logs, n + 1, Appended(store', logs[n].txHash, Format(logs[n])))
  {}

  method FetchLogs(txLogs: seq<TxLog>) returns (store: LogStore)
    ensures store == Fetched(txLogs)
    ensures Contiguous(txLogs) ==> Exact(txLogs, store)
  {
    store := map[];
    var op := Operator(None, false);
    for n := 0 to |txLogs|
      invariant Holds(txLogs, n, store) && Tracks(txLogs, n, op)
    {
      var h := txLogs[n].txHash;
      var op', store' := Next(op, store, Some(h));
      HoldsNext(txLogs, n, store, op, store');
      store := Appended(store', h, Format(txLogs[n]));
      op := op'.(storeCurTxHash := op'.storeCurTxHash || IsValid(txLogs[n]));
    }
    ghost var held := store;
    op, store := Next(op, store, None);
    ResultIs(txLogs, held, store);
    if Contiguous(txLogs) { ContiguousExact(txLogs); }
  }

  lemma ResultAt(logs: seq<TxLog>, held: LogStore, store: LogStore, h: nat)
    requires Holds(logs, |logs|, held)
    requires store == if logs == [] || RunValid(logs, |logs|) then held else held - {logs[|logs| - 1].txHash}
    ensures if h in store then store[h] == Result(logs, h) != [] else Result(logs, h) == []
  {}

  lemma ResultIs(logs: seq<TxLog>, held: LogStore, store: LogStore)
    requires Holds(logs, |logs|, held)
    requires store == if logs == [] || RunValid(logs, |logs|) then held else held - {logs[|logs| - 1].txHash}
    ensures store == Fetched(logs)
  {
    forall h ensures if h in store then h in Hashes(logs) &&
      store[h] == Result(logs, h) != [] else Result(logs, h) == [] {
      ResultAt(logs, held, store, h);
      if h !in Hashes(logs) {
        HeldIff(logs, |logs|, h);
        FullEmpty(logs, |logs|, h);
      }
    }
    SameStore(logs, store);
  }

  lemma SameStore(logs: seq<TxLog>, store: LogStore)
    requires forall h :: if h in store then h in Hashes(logs) &&
             store[h] == Result(logs, h) != [] else Result(logs, h) == []
    ensures store == Fetched(logs)
  {
    assert store.Keys == Fetched(logs).Keys;
  }
}
