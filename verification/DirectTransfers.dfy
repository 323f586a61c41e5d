/** Attribution of direct token transfers to credit sessions, one account at a time. */
module DirectTransfers {

  type Address = nat
  type Hash = nat
  type SessionId = nat
  type Block = int
  type TxKey = (Block, Hash)

  datatype Transfer = Transfer(block: Block, txHash: Hash, logId: nat, from: Address, to: Address,
                               isFromAccount: bool, isToAccount: bool, token: Address, amount: int)

  /** A credit session of an account; `closedAt` is 0 while it is open. */
  datatype Session = Session(since: Block, creditManager: Address, id: SessionId, closedAt: Block,
                             openTxHash: Hash, openLogId: nat, closedTxHash: Hash, closedLogId: nat)

  /** The transfers recorded for one account by block and transaction, and its sessions. */
  datatype AccountData = AccountData(blockNums: seq<Block>, blockPresent: set<Block>, transfers: map<TxKey,
                                     seq<Transfer>>, details: seq<Session>)

  /** What a scan returns, by block and session. */
  type Attribution = map<(Block, SessionId), seq<Transfer>>

  const NEW_ACCOUNT_DATA := AccountData([], {}, map[], [])

  predicate Ascending(bs: seq<Block>) { forall i, j :: 0 <= i < j < |bs| ==> bs[i] < bs[j] }

  /** Transfers are filed under their own block and transaction, and every block used is listed once. */
  ghost predicate Filed(ad: AccountData) {
    && (forall k, t :: k in ad.transfers && t in ad.transfers[k] ==> k == (t.block, t.txHash))
    && (forall k :: k in ad.transfers ==> k.0 in ad.blockNums)
    && (forall b :: b in ad.blockPresent <==> b in ad.blockNums)
    && (forall i, j :: 0 <= i < j < |ad.blockNums| ==> ad.blockNums[i] != ad.blockNums[j])
  }

  /** How often `t` is stored. */
  function Stored(ad: AccountData, t: Transfer): nat {
    if (t.block, t.txHash) in ad.transfers then multiset(ad.transfers[(t.block, t.txHash)])[t] else 0
  }

  // ---------------------------------------------------------------------------------------------
  // The declarative reading.

  /** The latest of the sessions that had begun by block `b`. */
  function SessionAt(details: seq<Session>, b: Block): (r: int)
    ensures -1 <= r < |details|
    ensures r >= 0 ==> details[r].since <= b
    ensures forall i :: r < i < |details| ==> details[i].since > b
  {
    if details == [] then -1
    else if details[|details| - 1].since <= b then |details| - 1
    else SessionAt(details[..|details| - 1], b)
  }

  /** Transfers before the opening or after the closing transaction of the session do not belong to it. */
  predicate OutsideLogs(s: Session, t: Transfer) {
    || (t.block == s.since && t.logId < s.openLogId && t.txHash != s.openTxHash)
    || (s.closedAt != 0 && t.block == s.closedAt && t.logId > s.closedLogId && t.txHash != s.closedTxHash)
  }

  /** Whether the account belonged to a session of `cm` at block `b`. */
  predicate Held(ad: AccountData, cm: Address, b: Block) {
    var i := SessionAt(ad.details, b);
    i >= 0 && ad.details[i].creditManager == cm && (ad.details[i].closedAt == 0 || ad.details[i].closedAt >= b)
  }

  predicate Attributed(ad: AccountData, cm: Address, from: Block, to: Block, t: Transfer) {
    from <= t.block < to && Held(ad, cm, t.block) && !OutsideLogs(ad.details[SessionAt(ad.details, t.block)], t)
  }

  /** How often a scan for `cm` over [from, to) returns `t` under block `b` and session `id`. */
  function Given(ad: AccountData, cm: Address, from: Block, to: Block, b: Block, id: SessionId, t: Transfer): nat {
    if t.block == b && Attributed(ad, cm, from, to, t) &&
      ad.details[SessionAt(ad.details, b)].id == id then Stored(ad, t) else 0
  }

  /** A transaction is dropped from the store as soon as one of its transfers has been returned. */
  predicate Dropped(ad: AccountData, cm: Address, from: Block, to: Block, k: TxKey) {
    k in ad.transfers && exists t :: t in ad.transfers[k] && Attributed(ad, cm, from, to, t)
  }

  function Count(a: Attribution, b: Block, id: SessionId, t: Transfer): nat {
    if (b, id) in a then multiset(a[(b, id)])[t] else 0
  }

  ghost predicate ResultIs(ad: AccountData, result: Attribution, cm: Address, from: Block, to: Block) {
    forall b, id, t :: Count(result, b, id, t) == Given(ad, cm, from, to, b, id, t)
  }

  function Ids(ad: AccountData): set<SessionId> { set s | s in ad.details :: s.id }

  /** Only sessions of the account appear in the result. */
  ghost predicate OwnKeys(ad: AccountData, result: Attribution) {
    forall k :: k in result ==> k.1 in Ids(ad)
  }

  ghost predicate StoreIs(ad: AccountData, ad': AccountData, cm: Address, from: Block, to: Block) {
    && ad' == ad.(transfers := ad'.transfers)
    && forall k :: (k in ad'.transfers <==> k in ad.transfers && !Dropped(ad, cm, from, to, k))
                   && (k in ad'.transfers ==> ad'.transfers[k] == ad.transfers[k])
  }

  // ---------------------------------------------------------------------------------------------
  // The scan.

  /** One transaction: the transfers that belong to the session, in order. */
  method SelectTransfers(s: Session, txs: seq<Transfer>) returns (picked: seq<Transfer>)
    ensures forall t :: multiset(picked)[t] == if OutsideLogs(s, t) then 0 else multiset(txs)[t]
    ensures picked != [] <==> exists t :: t in txs && !OutsideLogs(s, t)
  {
    picked := [];
    var i := 0;
    while i < |txs|
      invariant 0 <= i <= |txs|
      invariant forall t :: multiset(picked)[t] == if OutsideLogs(s, t) then 0 else multiset(txs[..i])[t]
      invariant picked != [] <==> exists t :: t in txs[..i] && !OutsideLogs(s, t)
    {
      assert txs[..i + 1] == txs[..i] + [txs[i]];
      if !OutsideLogs(s, txs[i]) {
        picked := picked + [txs[i]];
      }
      i := i + 1;
    }
    assert txs[..i] == txs;
  }

  /** The transfers of the transactions `ks` that belong to the session. */
  ghost predicate Picked(ad: AccountData, ks: set<TxKey>, s: Session, picked: seq<Transfer>) {
    forall t :: multiset(picked)[t] == if (t.block, t.txHash) in ks && !OutsideLogs(s, t) then Stored(ad, t) else 0
  }

  /** The store without those transactions among `ks` that have a transfer belonging to the session. */
  ghost predicate Pruned(ad: AccountData, ks: set<TxKey>, s: Session, store: map<TxKey, seq<Transfer>>) {
    && (forall k :: k in store <==> k in ad.transfers && !(k in ks && Concerned(ad, s, k)))
    && (forall k :: k in store ==> store[k] == ad.transfers[k])
  }

  predicate Concerned(ad: AccountData, s: Session, k: TxKey)
    requires k in ad.transfers
  {
    exists t :: t in ad.transfers[k] && !OutsideLogs(s, t)
  }

  function TxsAt(ad: AccountData, b: Block): set<TxKey> { set k | k in ad.transfers && k.0 == b }

  lemma PickOne(ad: AccountData, ks: set<TxKey>, s: Session, picked: seq<Transfer>, k: TxKey, here: seq<Transfer>)
    requires Filed(ad) && k in ad.transfers && k !in ks && Picked(ad, ks, s, picked)
    requires forall t :: multiset(here)[t] == if OutsideLogs(s, t) then 0 else multiset(ad.transfers[k])[t]
    ensures Picked(ad, ks + {k}, s, picked + here)
  {
    forall t: Transfer ensures multiset(here)[t] == if (t.block, t.txHash) == k &&
      !OutsideLogs(s, t) then Stored(ad, t) else 0 {
      if t in ad.transfers[k] { assert k == (t.block, t.txHash); }
    }
  }

  lemma PruneOne(ad: AccountData, ks: set<TxKey>, s: Session, store: map<TxKey, seq<Transfer>>, k: TxKey)
    requires k in ad.transfers && k !in ks && Pruned(ad, ks, s, store)
    ensures Concerned(ad, s, k) ==> Pruned(ad, ks + {k}, s, store - {k})
    ensures !Concerned(ad, s, k) ==> Pruned(ad, ks + {k}, s, store)
  {}

  /** What is still stored and what has been picked once the transactions `ks` are done. */
  ghost predicate Progress(ad: AccountData, ks: set<TxKey>, s: Session, store: map<TxKey, seq<Transfer>>,
                           picked: seq<Transfer>) {
    Picked(ad, ks, s, picked) && Pruned(ad, ks, s, store)
  }

  /** One transaction of a block. */
  method ScanTx(ad: AccountData, s: Session, k: TxKey, store: map<TxKey, seq<Transfer>>, picked: seq<Transfer>,
                ghost ks: set<TxKey>)
    returns (store': map<TxKey, seq<Transfer>>, picked': seq<Transfer>)
    requires Filed(ad) && k in ad.transfers && k !in ks && Progress(ad, ks, s, store, picked)
    ensures Progress(ad, ks + {k}, s, store', picked')
  {
    var here := SelectTransfers(s, ad.transfers[k]);
    PickOne(ad, ks, s, picked, k, here);
    PruneOne(ad, ks, s, store, k);
    store', picked' := store, picked + here;
    if here != [] {
      store' := store - {k};
    }
  }

  lemma NoProgress(ad: AccountData, none: set<TxKey>, s: Session)
    requires none == {}
    ensures Progress(ad, none, s, ad.transfers, [])
  {}

  lemma OneLess<K>(all: set<K>, todo: set<K>, k: K)
    requires todo <= all && k in todo
    ensures all - todo + {k} == all - (todo - {k}) && k !in all - todo
  {}

  /** One block, its transactions in whatever order the map is walked. */
  method ScanBlock(ad: AccountData, b: Block, s: Session)
    returns (store: map<TxKey, seq<Transfer>>, picked: seq<Transfer>)
    requires Filed(ad)
    ensures Progress(ad, TxsAt(ad, b), s, store, picked)
  {
    store, picked := ad.transfers, [];
    var todo := TxsAt(ad, b);
    ghost var all := todo;
    NoProgress(ad, all - todo, s);
    while todo != {}
      invariant todo <= all && Progress(ad, all - todo, s, store, picked)
      decreases todo
    {
      var k :| k in todo;
      OneLess(all, todo, k);
      store, picked := ScanTx(ad, s, k, store, picked, all - todo);
      todo := todo - {k};
    }
    assert all - todo == all;
  }

  // ---------------------------------------------------------------------------------------------
  // Moving the lower end of the scanned range.

  ghost predicate NothingBetween(ad: AccountData, lo: Block, hi: Block) {
    forall b :: b in ad.blockNums ==> !(lo <= b < hi)
  }

  /** Blocks that are not listed, or not held by a session of `cm`, contribute nothing. */
  lemma LowerQuietly(ad: AccountData, ad': AccountData, result: Attribution, cm: Address, lo': Block, lo: Block,
                     to: Block)
    requires Filed(ad) && lo' <= lo
    requires forall b :: b in ad.blockNums && lo' <= b < lo && b < to ==> !Held(ad, cm, b)
    requires ResultIs(ad, result, cm, lo, to) && StoreIs(ad, ad', cm, lo, to)
    ensures ResultIs(ad, result, cm, lo', to) && StoreIs(ad, ad', cm, lo', to)
  {
    forall b, id, t ensures Given(ad, cm, lo', to, b, id, t) == Given(ad, cm, lo, to, b, id, t) {
      if (t.block, t.txHash) in ad.transfers { assert t.block in ad.blockNums; }
    }
    forall k ensures Dropped(ad, cm, lo', to, k) == Dropped(ad, cm, lo, to, k) {
      if k in ad.transfers { assert k.0 in ad.blockNums; }
    }
  }

  function Existing(result: Attribution, b: Block, id: SessionId): seq<Transfer> {
    if (b, id) in result then result[(b, id)] else []
  }

  /** A held block adds the transfers of its session and drops their transactions. */
  lemma LowerByBlock(ad: AccountData, ad': AccountData, result: Attribution, cm: Address, b: Block, lo: Block,
                     to: Block,
                     store: map<TxKey, seq<Transfer>>, picked: seq<Transfer>, s: Session)
    requires Filed(ad) && b < lo && b < to && Held(ad, cm, b) && s == ad.details[SessionAt(ad.details, b)]
    requires NothingBetween(ad, b + 1, if lo < to then lo else to)
    requires ResultIs(ad, result, cm, lo, to) && StoreIs(ad, ad', cm, lo, to)
    requires Progress(ad', TxsAt(ad', b), s, store, picked)
    ensures ResultIs(ad, result[(b, s.id) := Existing(result, b, s.id) + picked], cm, b, to)
    ensures StoreIs(ad, ad'.(transfers := store), cm, b, to)
  {
    ResultByBlock(ad, ad', result, cm, b, lo, to, picked, s);
    StoreByBlock(ad, ad', cm, b, lo, to, store, s);
  }

  lemma ResultByBlock(ad: AccountData, ad': AccountData, result: Attribution, cm: Address, b: Block, lo: Block,
                      to: Block,
                      picked: seq<Transfer>, s: Session)
    requires Filed(ad) && b < lo && b < to && Held(ad, cm, b) && s == ad.details[SessionAt(ad.details, b)]
    requires NothingBetween(ad, b + 1, if lo < to then lo else to)
    requires ResultIs(ad, result, cm, lo, to) && StoreIs(ad, ad', cm, lo, to)
    requires Picked(ad', TxsAt(ad', b), s, picked)
    ensures ResultIs(ad, result[(b, s.id) := Existing(result, b, s.id) + picked], cm, b, to)
  {
    var r' := result[(b, s.id) := Existing(result, b, s.id) + picked];
    forall b', id, t ensures Count(r', b', id, t) == Given(ad, cm, b, to, b', id, t) {
      assert Count(result, b', id, t) == Given(ad, cm, lo, to, b', id, t);
      var k := (t.block, t.txHash);
      if t.block == b {
        assert Stored(ad', t) == Stored(ad, t) by { KeptBelow(ad, ad', cm, lo, to, k); }
      }
      if k in ad.transfers { assert t.block in ad.blockNums; }
    }
  }

  /** Keys below the scanned range are untouched. */
  lemma KeptBelow(ad: AccountData, ad': AccountData, cm: Address, lo: Block, to: Block, k: TxKey)
    requires Filed(ad) && StoreIs(ad, ad', cm, lo, to) && k.0 < lo
    ensures k in ad'.transfers <==> k in ad.transfers
    ensures k in ad.transfers ==> ad'.transfers[k] == ad.transfers[k]
  {
    assert !Dropped(ad, cm, lo, to, k);
  }

  lemma StoreByBlock(ad: AccountData, ad': AccountData, cm: Address, b: Block, lo: Block, to: Block,
                     store: map<TxKey, seq<Transfer>>, s: Session)
    requires Filed(ad) && b < lo && b < to && Held(ad, cm, b) && s == ad.details[SessionAt(ad.details, b)]
    requires NothingBetween(ad, b + 1, if lo < to then lo else to)
    requires StoreIs(ad, ad', cm, lo, to)
    requires Pruned(ad', TxsAt(ad', b), s, store)
    ensures StoreIs(ad, ad'.(transfers := store), cm, b, to)
  {
    forall k | k in ad.transfers
      ensures k in store <==> !Dropped(ad, cm, b, to, k)
      ensures k in store ==> store[k] == ad.transfers[k]
    {
      assert k.0 in ad.blockNums;
      if k.0 == b {
        KeptBelow(ad, ad', cm, lo, to, k);
        forall t | t in ad.transfers[k] ensures Attributed(ad, cm, b, to, t) <==> !OutsideLogs(s, t) {
          assert t.block == b;
        }
      } else {
        forall t | t in ad.transfers[k] ensures Attributed(ad, cm, b, to, t) == Attributed(ad, cm, lo, to, t) {
          assert t.block == k.0;
        }
        assert Dropped(ad, cm, b, to, k) == Dropped(ad, cm, lo, to, k);
      }
    }
  }

  lemma StillFiled(ad: AccountData, ad': AccountData, cm: Address, lo: Block, to: Block)
    requires Filed(ad) && StoreIs(ad, ad', cm, lo, to)
    ensures Filed(ad')
  {}

  /** The latest block below `to`. */
  method SkipBlocks(blocks: seq<Block>, to: Block) returns (i: int)
    requires Ascending(blocks)
    ensures -1 <= i < |blocks|
    ensures forall j :: 0 <= j <= i ==> blocks[j] < to
    ensures forall j :: i < j < |blocks| ==> blocks[j] >= to
  {
    i := |blocks| - 1;
    while i >= 0 && blocks[i] >= to
      invariant -1 <= i < |blocks|
      invariant forall j :: i < j < |blocks| ==> blocks[j] >= to
    {
      i := i - 1;
    }
  }

  /** The latest session begun by block `b`, searching downwards from `start`. */
  method SkipSessions(details: seq<Session>, start: int, b: Block) returns (i: int)
    requires -1 <= start < |details| && forall j :: start < j < |details| ==> details[j].since > b
    ensures i == SessionAt(details, b) <= start
  {
    i := start;
    while i >= 0 && details[i].since > b
      invariant -1 <= i <= start
      invariant forall j :: i < j < |details| ==> details[j].since > b
    {
      i := i - 1;
    }
  }

  /** One listed block of the scan. */
  method ScanOne(ad: AccountData, cur: AccountData, sofar: Attribution, cm: Address, b: Block, s: Session,
                 ghost lo: Block, to: Block)
    returns (ad': AccountData, result: Attribution)
    requires Filed(ad) && b < lo && b < to && SessionAt(ad.details, b) >= 0 && s == ad.details[SessionAt(ad.details, b)]
    requires NothingBetween(ad, b + 1, if lo < to then lo else to)
    requires ResultIs(ad, sofar, cm, lo, to) && StoreIs(ad, cur, cm, lo, to) && OwnKeys(ad, sofar)
    ensures ResultIs(ad, result, cm, b, to) && StoreIs(ad, ad', cm, b, to) && OwnKeys(ad, result)
  {
    ad', result := cur, sofar;
    if s.creditManager == cm && b >= s.since && (s.closedAt == 0 || s.closedAt >= b) {
      StillFiled(ad, cur, cm, lo, to);
      var store, picked := ScanBlock(cur, b, s);
      LowerByBlock(ad, cur, sofar, cm, b, lo, to, store, picked, s);
      ad' := cur.(transfers := store);
      result := sofar[(b, s.id) := Existing(sofar, b, s.id) + picked];
    } else {
      LowerQuietly(ad, cur, sofar, cm, b, lo, to);
    }
  }

  lemma NothingYet(ad: AccountData, cm: Address, lo: Block, to: Block)
    requires to <= lo
    ensures ResultIs(ad, map[], cm, lo, to) && StoreIs(ad, ad, cm, lo, to)
  {}

  /** The backward scan: blocks from the latest below `to` down to `from`, sessions alongside. It
      returns exactly the attributed transfers and forgets their transactions. */
  method GetRemainingTransfer(ad: AccountData, cm: Address, from: Block, to: Block)
    returns (ad': AccountData, result: Attribution)
    requires Filed(ad) && Ascending(ad.blockNums)
    ensures ResultIs(ad, result, cm, from, to)
    ensures StoreIs(ad, ad', cm, from, to) && OwnKeys(ad, result)
  {
    ad', result := ad, map[];
    var blocks, detailsInd := ad.blockNums, |ad.details| - 1;
    var blockInd := SkipBlocks(blocks, to);
    ghost var lo := if from < to then to else from;
    NothingYet(ad, cm, lo, to);
    while blockInd >= 0 && blocks[blockInd] >= from
      invariant -1 <= blockInd < |blocks| && from <= lo && -1 <= detailsInd < |ad.details|
      invariant forall j :: 0 <= j <= blockInd ==> blocks[j] < lo && blocks[j] < to
      invariant forall j :: blockInd < j < |blocks| ==> blocks[j] >= lo || blocks[j] >= to
      invariant forall i, j :: detailsInd < i < |ad.details| && 0 <= j <= blockInd ==> ad.details[i].since > blocks[j]
      invariant ResultIs(ad, result, cm, lo, to) && StoreIs(ad, ad', cm, lo, to) && OwnKeys(ad, result)
    {
      var b := blocks[blockInd];
      detailsInd := SkipSessions(ad.details, detailsInd, b);
      if detailsInd < 0 {
        break;
      }
      ad', result := ScanOne(ad, ad', result, cm, b, ad.details[detailsInd], lo, to);
      lo := b;
      blockInd := blockInd - 1;
    }
    assert forall b :: b in blocks && from <= b < lo && b < to ==> !Held(ad, cm, b);
    LowerQuietly(ad, ad', result, cm, from, lo, to);
  }

  // ---------------------------------------------------------------------------------------------
  // What becomes of a stored transfer.

  function Returned(ad: AccountData, cm: Address, from: Block, to: Block, t: Transfer): nat {
    if Attributed(ad, cm, from, to, t) then Stored(ad, t) else 0
  }

  /** Neither returned nor kept: forgotten together with another transfer of its transaction. */
  function Lost(ad: AccountData, cm: Address, from: Block, to: Block, t: Transfer): nat {
    if !Attributed(ad, cm, from, to, t) && Dropped(ad, cm, from, to, (t.block, t.txHash)) then Stored(ad, t) else 0
  }

  /** A scan keeps, returns or loses every stored transfer, and does exactly one of the three. */
  lemma ScanPartitions(ad: AccountData, ad': AccountData, cm: Address, from: Block, to: Block, t: Transfer)
    requires Filed(ad) && StoreIs(ad, ad', cm, from, to)
    ensures Stored(ad, t) == Stored(ad', t) + Returned(ad, cm, from, to, t) + Lost(ad, cm, from, to, t)
  {
    var k := (t.block, t.txHash);
    if k in ad.transfers && Attributed(ad, cm, from, to, t) && t in ad.transfers[k] {
      assert Dropped(ad, cm, from, to, k);
    }
  }

  /** Transactions that a session boundary cuts in two. */
  ghost predicate Straddles(ad: AccountData, cm: Address, from: Block, to: Block, k: TxKey)
    requires k in ad.transfers
  {
    from <= k.0 < to && Held(ad, cm, k.0) &&
    var s := ad.details[SessionAt(ad.details, k.0)];
    exists t, t' :: t in ad.transfers[k] && t' in ad.transfers[k] && OutsideLogs(s, t) && !OutsideLogs(s, t')
  }

  /** A scan loses a transfer if and only if some transaction in its range is cut by a session boundary. */
  lemma LosesIff(ad: AccountData, cm: Address, from: Block, to: Block)
    requires Filed(ad)
    ensures (forall t :: Lost(ad, cm, from, to, t) == 0) <==>
            (forall k :: k in ad.transfers ==> !Straddles(ad, cm, from, to, k))
  {
    forall k | k in ad.transfers && Straddles(ad, cm, from, to, k) ensures exists t :: Lost(ad, cm, from, to, t) != 0 {
      var s := ad.details[SessionAt(ad.details, k.0)];
      var t, t' :| t in ad.transfers[k] && t' in ad.transfers[k] && OutsideLogs(s, t) && !OutsideLogs(s, t');
      assert Attributed(ad, cm, from, to, t') && Dropped(ad, cm, from, to, k);
      assert Lost(ad, cm, from, to, t) != 0;
    }
    forall t | Lost(ad, cm, from, to, t) != 0 ensures exists k :: k in ad.transfers && Straddles(ad, cm, from, to, k) {
      var k := (t.block, t.txHash);
      var t' :| t' in ad.transfers[k] && Attributed(ad, cm, from, to, t');
      assert t in ad.transfers[k];
      assert Straddles(ad, cm, from, to, k);
    }
  }

  /** The log ids of a transaction lie all below a limit or all at and above it. */
  ghost predicate OneSide(txs: seq<Transfer>, limit: int) {
    (forall t :: t in txs ==> t.logId < limit) || (forall t :: t in txs ==> t.logId >= limit)
  }

  /** The boundaries of the session that fall on the block of a transaction, other than its own, leave
      the transaction on one side. */
  ghost predicate Whole(s: Session, k: TxKey, txs: seq<Transfer>) {
    && (k.0 == s.since && k.1 != s.openTxHash ==> OneSide(txs, s.openLogId))
    && (s.closedAt != 0 && k.0 == s.closedAt && k.1 != s.closedTxHash ==> OneSide(txs, s.closedLogId + 1))
  }

  /** Transactions that stay on one side of every boundary on their own block are never cut. */
  lemma ContiguousNeverStraddles(ad: AccountData, cm: Address, from: Block, to: Block, k: TxKey)
    requires Filed(ad) && k in ad.transfers
    requires forall s :: s in ad.details ==> Whole(s, k, ad.transfers[k])
    ensures !Straddles(ad, cm, from, to, k)
  {
    if from <= k.0 < to && Held(ad, cm, k.0) {
      var s := ad.details[SessionAt(ad.details, k.0)];
      assert s in ad.details;
    }
  }

  /** A transaction with logs on both sides of an opening log: its second transfer is returned, its
      first one is gone. */
  lemma CutLoses(cm: Address, token: Address)
    ensures var s := Session(5, cm, 0, 0, 1, 6, 0, 0);
            var early := Transfer(5, 2, 3, 8, 9, false, true, token, 1);
            var late := Transfer(5, 2, 9, 8, 9, false, true, token, 1);
            var ad := AccountData([5], {5}, map[(5, 2) := [early, late]], [s]);
            Filed(ad) && Lost(ad, cm, 0, 10, early) == 1 && Returned(ad, cm, 0, 10, late) == 1
  {
    var s := Session(5, cm, 0, 0, 1, 6, 0, 0);
    var early := Transfer(5, 2, 3, 8, 9, false, true, token, 1);
    var late := Transfer(5, 2, 9, 8, 9, false, true, token, 1);
    var ad := AccountData([5], {5}, map[(5, 2) := [early, late]], [s]);
    assert SessionAt(ad.details, 5) == 0 && late in ad.transfers[(5, 2)];
    assert Attributed(ad, cm, 0, 10, late) && Dropped(ad, cm, 0, 10, (5, 2));
  }
}
