/** Whole runs of the transfer manager: on a chain, where the logs of a transaction stand together, no
    recorded transfer is ever mislaid. */
module TransferRuns {
  import opened DirectTransfers
  import opened DirectTransferManager

  /** The transaction that emitted a log, by block and log id. */
  type Chain = (Block, nat) -> Hash

  /** The logs of a transaction stand together. */
  ghost predicate Contiguous(chain: Chain) {
    forall b, i: nat, j: nat, k: nat {:trigger chain(b, i), chain(b, j), chain(b, k)} ::
      i < j < k && chain(b, i) == chain(b, k) ==> chain(b, j) == chain(b, i)
  }

  predicate OnChain(chain: Chain, t: Transfer) { chain(t.block, t.logId) == t.txHash }

  predicate ClosedOnChain(chain: Chain, closedAt: Block, txHash: Hash, logId: nat) {
    closedAt != 0 ==> chain(closedAt, logId) == txHash
  }

  predicate SessionOnChain(chain: Chain, s: Session) {
    chain(s.since, s.openLogId) == s.openTxHash && ClosedOnChain(chain, s.closedAt, s.closedTxHash, s.closedLogId)
  }

  /** Everything an account holds comes from the chain. */
  ghost predicate DataOnChain(chain: Chain, ad: AccountData) {
    && (forall k, t :: k in ad.transfers && t in ad.transfers[k] ==> OnChain(chain, t))
    && (forall s :: s in ad.details ==> SessionOnChain(chain, s))
  }

  ghost predicate Genuine(chain: Chain, acc: Accounts) { forall a :: a in acc ==> DataOnChain(chain, acc[a]) }

  // ---------------------------------------------------------------------------------------------
  // Contiguous logs are never cut.

  /** A log of another transaction has all logs of a transaction on one side. */
  lemma OtherLog(chain: Chain, b: Block, h: Hash, log: nat, txs: seq<Transfer>)
    requires Contiguous(chain) && chain(b, log) != h
    requires forall t :: t in txs ==> OnChain(chain, t) && t.block == b && t.txHash == h
    ensures OneSide(txs, log) && OneSide(txs, log + 1)
  {
    forall t, t' | t in txs && t' in txs && t.logId <= log ensures t'.logId < log {
      if t'.logId >= log { assert false; }
    }
  }

  lemma ChainKeepsWhole(chain: Chain, ad: AccountData, k: TxKey, s: Session)
    requires Contiguous(chain) && Filed(ad) && DataOnChain(chain, ad) && k in ad.transfers && s in ad.details
    ensures Whole(s, k, ad.transfers[k])
  {
    var txs := ad.transfers[k];
    if k.0 == s.since && k.1 != s.openTxHash { OtherLog(chain, k.0, k.1, s.openLogId, txs); }
    if s.closedAt != 0 && k.0 == s.closedAt && k.1 != s.closedTxHash { OtherLog(chain, k.0, k.1, s.closedLogId, txs); }
  }

  /** On a chain a check mislays nothing. */
  lemma ChainMislaysNothing(chain: Chain, acc: Accounts, cm: Address, from: Block, to: Block)
    requires Contiguous(chain) && AllFiled(acc) && Genuine(chain, acc)
    ensures forall a, t :: Mislaid(acc, cm, from, to)(a, t) == 0
  {
    forall a, k | a in acc && k in acc[a].transfers ensures !Straddles(acc[a], cm, from, to, k) {
      forall s | s in acc[a].details ensures Whole(s, k, acc[a].transfers[k]) { ChainKeepsWhole(chain, acc[a], k, s); }
      ContiguousNeverStraddles(acc[a], cm, from, to, k);
    }
    NothingMislaid(acc, cm, from, to);
  }

  // ---------------------------------------------------------------------------------------------
  // Runs.

  /** A call of the manager. */
  datatype Op =
    | Record(t: Transfer)
    | Open(account: Address, s: Session)
    | Close(account: Address, since: Block, closedAt: Block, txHash: Hash, logId: nat)
    | Check(cm: Address, from: Block, to: Block)
    | Delete(block: Block, hash: Hash)
    | ClearAll
    | Sort

  predicate OpOnChain(chain: Chain, op: Op) {
    match op
    case Record(t) => OnChain(chain, t)
    case Open(_, s) => SessionOnChain(chain, s)
    case Close(_, _, closedAt, txHash, logId) => ClosedOnChain(chain, closedAt, txHash, logId)
    case _ => true
  }

  /** What has to be known of a run so far: whether blocks are in order, the highest block recorded, and
      the accounts with a session. */
  datatype Track = Track(sorted: bool, high: Block, known: set<Address>)

  function Next(tr: Track, op: Op): Track {
    match op
    case Record(t) => Track(tr.sorted && tr.high <= t.block, if tr.high <= t.block then t.block else tr.high, tr.known)
    case Open(account, _) => tr.(known := tr.known + {account})
    case ClearAll => tr.(sorted := true)
    case Sort => tr.(sorted := true)
    case _ => tr
  }

  /** Checks find the blocks in order, because transfers came in block order or were sorted since; only
      accounts with a session are closed; a session id, which names its account, belongs to one account. */
  predicate Legal(owner: SessionId -> Address, tr: Track, op: Op) {
    match op
    case Open(account, s) => owner(s.id) == account
    case Close(account, _, _, _, _) => account in tr.known
    case Check(_, _, _) => tr.sorted
    case _ => true
  }

  predicate AllLegal(owner: SessionId -> Address, tr: Track, ops: seq<Op>)
    decreases |ops|
  {
    ops == [] || (Legal(owner, tr, ops[0]) && AllLegal(owner, Next(tr, ops[0]), ops[1..]))
  }

  // ---------------------------------------------------------------------------------------------
  // What the accounts satisfy along a legal run.

  ghost predicate InBlockOrder(acc: Accounts, high: Block) {
    forall a :: a in acc ==> Ascending(acc[a].blockNums) && forall b :: b in acc[a].blockNums ==> b <= high
  }

  ghost predicate UpTo(acc: Accounts, high: Block) {
    forall a :: a in acc ==> forall b :: b in acc[a].blockNums ==> b <= high
  }

  ghost predicate Owned(owner: SessionId -> Address, acc: Accounts) {
    forall a, s :: a in acc && s in acc[a].details ==> owner(s.id) == a
  }

  ghost predicate Tracked(owner: SessionId -> Address, acc: Accounts, tr: Track) {
    Owned(owner, acc) && UpTo(acc, tr.high) && tr.known <= acc.Keys && (tr.sorted ==> InBlockOrder(acc, tr.high))
  }

  lemma FileTracked(owner: SessionId -> Address, acc: Accounts, tr: Track, account: Address, t: Transfer)
    requires AllFiled(acc) && Tracked(owner, acc, tr)
    ensures Tracked(owner, FiledWith(acc, account, t), Next(tr, Record(t)))
  {
    var ad, acc' := DataOf(acc, account), FiledWith(acc, account, t);
    var high := Next(tr, Record(t)).high;
    ProcessFiles(ad, t);
    assert forall b :: b in acc'[account].blockNums ==> b in ad.blockNums || b == t.block;
    forall a | a in acc' ensures forall b :: b in acc'[a].blockNums ==> b <= high {}
    if Next(tr, Record(t)).sorted {
      assert Ascending(ad.blockNums) && forall b :: b in ad.blockNums ==> b <= tr.high;
      AppendAscending(ad.blockNums, t.block, t.block in ad.blockPresent);
    }
  }

  lemma AppendAscending(bs: seq<Block>, b: Block, present: bool)
    requires Ascending(bs) && (forall x :: x in bs ==> x <= b) && (present || b !in bs)
    ensures Ascending(if present then bs else bs + [b])
  {
    forall i | 0 <= i < |bs| && !present ensures bs[i] < b { assert bs[i] in bs; }
  }

  lemma FiledStaysFiled(acc: Accounts, account: Address, t: Transfer)
    requires AllFiled(acc)
    ensures AllFiled(FiledWith(acc, account, t))
  {
    ProcessFiles(DataOf(acc, account), t);
  }

  lemma NotFiledTracked(owner: SessionId -> Address, acc: Accounts, tr: Track, t: Transfer)
    requires Tracked(owner, acc, tr)
    ensures Tracked(owner, acc, Next(tr, Record(t)))
  {}

  lemma RecordTwice(tr: Track, t: Transfer)
    ensures Next(Next(tr, Record(t)), Record(t)) == Next(tr, Record(t))
  {}

  lemma RecordTracked(owner: SessionId -> Address, acc: Accounts, tr: Track, t: Transfer)
    requires AllFiled(acc) && Tracked(owner, acc, tr)
    ensures Tracked(owner, Recorded(acc, t), Next(tr, Record(t)))
  {
    if t.isFromAccount {
      FileTracked(owner, acc, tr, t.from, t);
      if t.isToAccount {
        FiledStaysFiled(acc, t.from, t);
        RecordTwice(tr, t);
        FileTracked(owner, FiledWith(acc, t.from, t), Next(tr, Record(t)), t.to, t);
      }
    } else if t.isToAccount {
      FileTracked(owner, acc, tr, t.to, t);
    } else {
      NotFiledTracked(owner, acc, tr, t);
    }
  }

  /** Replacing an account's sessions by others of its own. */
  lemma DetailsTracked(owner: SessionId -> Address, acc: Accounts, tr: Track, account: Address, details: seq<Session>)
    requires Tracked(owner, acc, tr) && forall s :: s in details ==> owner(s.id) == account
    ensures Tracked(owner, acc[account := DataOf(acc, account).(details := details)],
            tr.(known := tr.known + {account}))
  {
    var acc' := acc[account := DataOf(acc, account).(details := details)];
    forall a | a in acc' ensures forall b :: b in acc'[a].blockNums ==> b <= tr.high {}
  }

  /** Operations that only take transfers away. */
  ghost predicate Shrinks(acc: Accounts, acc': Accounts) {
    acc'.Keys == acc.Keys && forall a :: a in acc ==> ShrinksData(acc[a], acc'[a])
  }

  ghost predicate ShrinksData(ad: AccountData, ad': AccountData) {
    && ad'.details == ad.details && (ad'.blockNums == ad.blockNums || ad'.blockNums == [])
    && forall k :: k in ad'.transfers ==> k in ad.transfers && ad'.transfers[k] == ad.transfers[k]
  }

  lemma ShrinksTracked(owner: SessionId -> Address, acc: Accounts, acc': Accounts, tr: Track)
    requires Tracked(owner, acc, tr) && Shrinks(acc, acc')
    ensures Tracked(owner, acc', tr)
  {
    forall a | a in acc' ensures ShrinksData(acc[a], acc'[a]) {}
  }

  lemma ShrinksGenuine(chain: Chain, acc: Accounts, acc': Accounts)
    requires Genuine(chain, acc) && Shrinks(acc, acc')
    ensures Genuine(chain, acc')
  {
    forall a | a in acc' ensures DataOnChain(chain, acc'[a]) { assert ShrinksData(acc[a], acc'[a]); }
  }

  lemma CheckShrinks(acc: Accounts, acc': Accounts, cm: Address, from: Block, to: Block)
    requires Scanned(acc, acc', acc.Keys, cm, from, to)
    ensures Shrinks(acc, acc')
  {
    forall a | a in acc ensures ShrinksData(acc[a], acc'[a]) { assert StoreIs(acc[a], acc'[a], cm, from, to); }
  }

  lemma ClearTracked(owner: SessionId -> Address, acc: Accounts, tr: Track)
    requires Tracked(owner, acc, tr)
    ensures Tracked(owner, Emptied(acc), tr.(sorted := true)) && Shrinks(acc, Emptied(acc))
  {}

  lemma SortTracked(owner: SessionId -> Address, acc: Accounts, tr: Track)
    requires AllFiled(acc) && Tracked(owner, acc, tr)
    ensures Tracked(owner, SortedData(acc), tr.(sorted := true))
  {
    var acc' := SortedData(acc);
    forall a | a in acc'
      ensures Ascending(acc'[a].blockNums) && forall b :: b in acc'[a].blockNums ==> b in acc[a].blockNums
    {
      SortSorts(acc[a].blockNums);
    }
  }

  lemma SortGenuine(chain: Chain, acc: Accounts)
    requires Genuine(chain, acc)
    ensures Genuine(chain, SortedData(acc))
  {
    forall a | a in acc ensures DataOnChain(chain, SortedData(acc)[a]) { assert DataOnChain(chain, acc[a]); }
  }

  lemma FileGenuine(chain: Chain, acc: Accounts, account: Address, t: Transfer)
    requires Genuine(chain, acc) && OnChain(chain, t)
    ensures Genuine(chain, FiledWith(acc, account, t))
  {
    assert DataOnChain(chain, DataOf(acc, account));
  }

  lemma RecordGenuine(chain: Chain, acc: Accounts, t: Transfer)
    requires Genuine(chain, acc) && OnChain(chain, t)
    ensures Genuine(chain, Recorded(acc, t))
  {
    if t.isFromAccount { FileGenuine(chain, acc, t.from, t); }
    if t.isToAccount { FileGenuine(chain, if t.isFromAccount then FiledWith(acc, t.from, t) else acc, t.to, t); }
  }

  lemma DetailsGenuine(chain: Chain, acc: Accounts, account: Address, details: seq<Session>)
    requires Genuine(chain, acc) && forall s :: s in details ==> SessionOnChain(chain, s)
    ensures Genuine(chain, acc[account := DataOf(acc, account).(details := details)])
  {
    assert DataOnChain(chain, DataOf(acc, account));
  }

  /** Nothing has been mislaid, and every recording is stored, returned or removed, one of the three. */
  ghost predicate NothingLost(acc: Accounts, f: Fates) {
    forall a, t {:trigger InStore(acc, a, t)} ::
      f.lost(a, t) == 0 && f.recorded(a, t) == InStore(acc, a, t) + f.returned(a, t) + f.removed(a, t)
  }

  ghost predicate NoneLost(f: Fates) { forall a, t :: f.lost(a, t) == 0 }

  lemma CheckLosesNothing(chain: Chain, acc: Accounts, f: Fates, cm: Address, from: Block, to: Block)
    requires Contiguous(chain) && AllFiled(acc) && Genuine(chain, acc) && NoneLost(f)
    ensures NoneLost(AfterCheck(acc, f, cm, from, to))
  {
    ChainMislaysNothing(chain, acc, cm, from, to);
  }

  ghost predicate Good(chain: Chain, acc: Accounts, f: Fates) { Genuine(chain, acc) && NoneLost(f) }

  /** A call keeps the tracking, and on a chain it keeps everything genuine and loses nothing. */
  ghost predicate Keeps(chain: Chain, owner: SessionId -> Address, tr: Track, op: Op, was: bool, acc: Accounts,
                        f: Fates) {
    Tracked(owner, acc, Next(tr, op)) && (was && OpOnChain(chain, op) ==> Good(chain, acc, f))
  }

  /** What a call does to the sessions of each account: opening appends one, closing closes those of its
      start, and nothing else touches them. */
  ghost predicate Detailed(acc: Accounts, acc': Accounts, op: Op) {
    forall a :: a in acc ==> a in acc' && DetailsBy(acc[a].details, acc'[a].details, a, op)
  }

  ghost predicate DetailsBy(was: seq<Session>, now: seq<Session>, a: Address, op: Op) {
    match op
    case Open(account, s) => now == if a == account then was + [s] else was
    case Close(account, since, closedAt, txHash, logId) =>
      |now| == |was| && forall i :: 0 <= i < |was| ==>
        if a == account then ClosedAs(was[i], now[i], since, closedAt, txHash, logId) else now[i] == was[i]
    case _ => now == was
  }

  lemma ShrinksDetailed(acc: Accounts, acc': Accounts, op: Op)
    requires Shrinks(acc, acc') && !op.Open? && !op.Close?
    ensures Detailed(acc, acc', op)
  {
    forall a | a in acc ensures DetailsBy(acc[a].details, acc'[a].details, a, op) {
      assert ShrinksData(acc[a], acc'[a]);
    }
  }

  lemma RecordDetailed(acc: Accounts, t: Transfer)
    ensures Detailed(acc, Recorded(acc, t), Record(t))
  {}

  method RecordOne(m: Manager, t: Transfer, ghost chain: Chain, ghost owner: SessionId -> Address, ghost tr: Track)
    requires m.Valid() && Tracked(owner, m.accountToData, tr)
    modifies m
    ensures m.Valid() && Detailed(old(m.accountToData), m.accountToData, Record(t))
    ensures Keeps(chain, owner, tr, Record(t), old(Good(chain, m.accountToData, m.fates)), m.accountToData, m.fates)
  {
    RecordTracked(owner, m.accountToData, tr, t);
    RecordDetailed(m.accountToData, t);
    if OnChain(chain, t) && Genuine(chain, m.accountToData) { RecordGenuine(chain, m.accountToData, t); }
    m.AddTokenTransfer(t);
  }

  lemma ForeignId(owner: SessionId -> Address, acc: Accounts, account: Address, s: Session)
    requires Owned(owner, acc) && owner(s.id) == account
    ensures forall a :: a in acc && a != account ==> s.id !in Ids(acc[a])
  {}

  lemma OwnDetails(owner: SessionId -> Address, acc: Accounts, account: Address)
    requires Owned(owner, acc)
    ensures forall s :: s in DataOf(acc, account).details ==> owner(s.id) == account
  {}

  lemma ChainDetails(chain: Chain, acc: Accounts, account: Address)
    requires Genuine(chain, acc)
    ensures forall s :: s in DataOf(acc, account).details ==> SessionOnChain(chain, s)
  {
    assert DataOnChain(chain, DataOf(acc, account));
  }

  /** Replacing an account's sessions by others of its own, from the chain. */
  lemma DetailsKeepRun(chain: Chain, owner: SessionId -> Address, tr: Track, op: Op, acc: Accounts, f: Fates,
                       account: Address, details: seq<Session>)
    requires Tracked(owner, acc, tr) && Next(tr, op) == tr.(known := tr.known + {account})
    requires forall s :: s in details ==> owner(s.id) == account
    requires Genuine(chain, acc) && OpOnChain(chain, op) ==> forall s :: s in details ==> SessionOnChain(chain, s)
    ensures var acc' := acc[account := DataOf(acc, account).(details := details)];
            Keeps(chain, owner, tr, op, Good(chain, acc, f), acc', f)
  {
    DetailsTracked(owner, acc, tr, account, details);
    if Genuine(chain, acc) && OpOnChain(chain, op) { DetailsGenuine(chain, acc, account, details); }
  }

  lemma OpenKeepsRun(chain: Chain, owner: SessionId -> Address, tr: Track, acc: Accounts, f: Fates, account: Address,
                     s: Session)
    requires Tracked(owner, acc, tr) && owner(s.id) == account
    ensures var ad := DataOf(acc, account);
            Keeps(chain, owner, tr, Open(account, s), Good(chain, acc, f),
              acc[account := ad.(details := ad.details + [s])], f)
  {
    OwnDetails(owner, acc, account);
    if Genuine(chain, acc) { ChainDetails(chain, acc, account); }
    DetailsKeepRun(chain, owner, tr, Open(account, s), acc, f, account, DataOf(acc, account).details + [s]);
  }

  method OpenOne(m: Manager, account: Address, s: Session, ghost chain: Chain, ghost owner: SessionId -> Address,
                 ghost tr: Track)
    requires m.Valid() && Tracked(owner, m.accountToData, tr) && owner(s.id) == account
    modifies m
    ensures m.Valid() && Detailed(old(m.accountToData), m.accountToData, Open(account, s))
    ensures Keeps(chain, owner, tr, Open(account, s), old(Good(chain, m.accountToData, m.fates)), m.accountToData,
            m.fates)
  {
    ForeignId(owner, m.accountToData, account, s);
    OpenKeepsRun(chain, owner, tr, m.accountToData, m.fates, account, s);
    m.AddAccountDetails(account, s);
  }

  lemma ClosedDetails(chain: Chain, owner: SessionId -> Address, acc: Accounts, op: Op)
    requires op.Close? && op.account in acc && Owned(owner, acc)
    ensures var details := SetClose(acc[op.account].details, op.since, op.closedAt, op.txHash, op.logId);
            && (forall s :: s in details ==> owner(s.id) == op.account)
            && (Genuine(chain, acc) && OpOnChain(chain, op) ==> forall s :: s in details ==> SessionOnChain(chain, s))
  {
    var was := acc[op.account].details;
    var details := SetClose(was, op.since, op.closedAt, op.txHash, op.logId);
    forall s | s in details
      ensures owner(s.id) == op.account && (Genuine(chain, acc) && OpOnChain(chain, op) ==> SessionOnChain(chain, s))
    {
      var i :| 0 <= i < |details| && details[i] == s;
      assert was[i] in acc[op.account].details;
      if Genuine(chain, acc) { assert DataOnChain(chain, acc[op.account]); }
    }
  }

  lemma CloseKeepsRun(chain: Chain, owner: SessionId -> Address, tr: Track, op: Op, acc: Accounts, f: Fates)
    requires Tracked(owner, acc, tr) && op.Close? && op.account in tr.known
    ensures var ad := acc[op.account];
            var details := SetClose(ad.details, op.since, op.closedAt, op.txHash, op.logId);
            Keeps(chain, owner, tr, op, Good(chain, acc, f), acc[op.account := ad.(details := details)], f)
  {
    ClosedDetails(chain, owner, acc, op);
    assert tr.known + {op.account} == tr.known;
    DetailsKeepRun(chain, owner, tr, op, acc, f, op.account,
                   SetClose(acc[op.account].details, op.since, op.closedAt, op.txHash, op.logId));
  }

  method CloseOne(m: Manager, op: Op, ghost chain: Chain, ghost owner: SessionId -> Address, ghost tr: Track)
    requires m.Valid() && Tracked(owner, m.accountToData, tr) && op.Close? && op.account in tr.known
    modifies m
    ensures m.Valid() && Detailed(old(m.accountToData), m.accountToData, op)
    ensures Keeps(chain, owner, tr, op, old(Good(chain, m.accountToData, m.fates)), m.accountToData, m.fates)
  {
    CloseKeepsRun(chain, owner, tr, op, m.accountToData, m.fates);
    m.CloseAccountDetails(op.account, op.since, op.closedAt, op.txHash, op.logId);
  }

  lemma CheckKeepsRun(chain: Chain, owner: SessionId -> Address, tr: Track, op: Op, acc: Accounts, f: Fates,
                      acc': Accounts)
    requires Contiguous(chain) && AllFiled(acc) && Tracked(owner, acc, tr)
    requires op.Check? && Scanned(acc, acc', acc.Keys, op.cm, op.from, op.to)
    ensures Keeps(chain, owner, tr, op, Good(chain, acc, f), acc', AfterCheck(acc, f, op.cm, op.from, op.to))
  {
    CheckShrinks(acc, acc', op.cm, op.from, op.to);
    ShrinksTracked(owner, acc, acc', tr);
    if Good(chain, acc, f) {
      CheckLosesNothing(chain, acc, f, op.cm, op.from, op.to);
      ShrinksGenuine(chain, acc, acc');
    }
  }

  method CheckOne(m: Manager, cm: Address, from: Block, to: Block, ghost chain: Chain,
                  ghost owner: SessionId -> Address,
                  ghost tr: Track)
    returns (result: Attribution)
    requires m.Valid() && Tracked(owner, m.accountToData, tr) && tr.sorted && Contiguous(chain)
    modifies m
    ensures m.Valid() && Detailed(old(m.accountToData), m.accountToData, Check(cm, from, to))
    ensures Keeps(chain, owner, tr, Check(cm, from, to), old(Good(chain, m.accountToData, m.fates)), m.accountToData,
            m.fates)
  {
    ghost var acc, f := m.accountToData, m.fates;
    result := m.CheckTokenTransfer(cm, from, to);
    CheckKeepsRun(chain, owner, tr, Check(cm, from, to), acc, f, m.accountToData);
    CheckShrinks(acc, m.accountToData, cm, from, to);
    ShrinksDetailed(acc, m.accountToData, Check(cm, from, to));
  }

  /** The accounts and fates after a call that needs no answer. */
  ghost predicate Leaves(op: Op, acc: Accounts, f: Fates, acc': Accounts, f': Fates) {
    && (op.Delete? ==> acc' == ForgottenBy(acc, (op.block, op.hash)))
    && (op.ClearAll? ==> acc' == Emptied(acc))
    && (op.Sort? ==> acc' == SortedData(acc))
    && f'.lost == f.lost
  }

  lemma DeleteTracked(owner: SessionId -> Address, acc: Accounts, tr: Track, k: TxKey)
    requires Tracked(owner, acc, tr)
    ensures Tracked(owner, ForgottenBy(acc, k), tr) && Shrinks(acc, ForgottenBy(acc, k))
  {
    ShrinksTracked(owner, acc, ForgottenBy(acc, k), tr);
  }

  lemma LeavesTracked(owner: SessionId -> Address, tr: Track, op: Op, acc: Accounts, f: Fates, acc': Accounts,
                      f': Fates)
    requires AllFiled(acc) && Tracked(owner, acc, tr)
    requires (op.Delete? || op.ClearAll? || op.Sort?) && Leaves(op, acc, f, acc', f')
    ensures Tracked(owner, acc', Next(tr, op)) && (!op.Sort? ==> Shrinks(acc, acc'))
  {
    match op
    case Delete(b, h) => DeleteTracked(owner, acc, tr, (b, h));
    case ClearAll => ClearTracked(owner, acc, tr);
    case Sort => SortTracked(owner, acc, tr);
  }

  lemma LeavesKeeps(chain: Chain, owner: SessionId -> Address, tr: Track, op: Op, acc: Accounts, f: Fates,
                    acc': Accounts, f': Fates)
    requires AllFiled(acc) && Tracked(owner, acc, tr)
    requires (op.Delete? || op.ClearAll? || op.Sort?) && Leaves(op, acc, f, acc', f')
    ensures Keeps(chain, owner, tr, op, Good(chain, acc, f), acc', f')
  {
    LeavesTracked(owner, tr, op, acc, f, acc', f');
    if Genuine(chain, acc) {
      if op.Sort? { SortGenuine(chain, acc); } else { ShrinksGenuine(chain, acc, acc'); }
    }
  }

  /** A deletion, a clearing or a sorting. */
  method CallOne(m: Manager, op: Op)
    requires m.Valid() && (op.Delete? || op.ClearAll? || op.Sort?)
    modifies m
    ensures m.Valid() && Leaves(op, old(m.accountToData), old(m.fates), m.accountToData, m.fates)
  {
    match op {
      case Delete(b, h) => m.DeleteTxHash(b, h);
      case ClearAll => m.Clear();
      case Sort => m.Init();
    }
  }

  method RemoveOne(m: Manager, op: Op, ghost chain: Chain, ghost owner: SessionId -> Address, ghost tr: Track)
    requires m.Valid() && Tracked(owner, m.accountToData, tr) && (op.Delete? || op.ClearAll? || op.Sort?)
    modifies m
    ensures m.Valid() && Detailed(old(m.accountToData), m.accountToData, op)
    ensures Keeps(chain, owner, tr, op, old(Good(chain, m.accountToData, m.fates)), m.accountToData, m.fates)
  {
    ghost var acc, f := m.accountToData, m.fates;
    CallOne(m, op);
    LeavesKeeps(chain, owner, tr, op, acc, f, m.accountToData, m.fates);
    LeavesTracked(owner, tr, op, acc, f, m.accountToData, m.fates);
    if !op.Sort? { ShrinksDetailed(acc, m.accountToData, op); }
  }

  method Perform(m: Manager, op: Op, ghost chain: Chain, ghost owner: SessionId -> Address, ghost tr: Track)
    requires m.Valid() && Tracked(owner, m.accountToData, tr) && Legal(owner, tr, op) && Contiguous(chain)
    modifies m
    ensures m.Valid() && Detailed(old(m.accountToData), m.accountToData, op)
    ensures Keeps(chain, owner, tr, op, old(Good(chain, m.accountToData, m.fates)), m.accountToData, m.fates)
  {
    match op {
      case Record(t) => RecordOne(m, t, chain, owner, tr);
      case Open(account, s) => OpenOne(m, account, s, chain, owner, tr);
      case Close(_, _, _, _, _) => CloseOne(m, op, chain, owner, tr);
      case Check(cm, from, to) => var _ := CheckOne(m, cm, from, to, chain, owner, tr);
      case _ => RemoveOne(m, op, chain, owner, tr);
    }
  }

  /** Main result. Over every legal run of a new manager, all of whose transfers and sessions come from
      a chain, nothing is mislaid: each recording is stored, returned by exactly one check, or removed. */
  method Replay(m: Manager, ops: seq<Op>, ghost chain: Chain, ghost owner: SessionId -> Address)
    requires m.Valid() && m.accountToData == map[] && NoneLost(m.fates)
    requires Contiguous(chain) && AllLegal(owner, Track(true, 0, {}), ops)
    modifies m
    ensures m.Valid() && ((forall op :: op in ops ==> OpOnChain(chain, op)) ==> NothingLost(m.accountToData, m.fates))
  {
    ghost var tr := Track(true, 0, {});
    ghost var genuine := true;
    assert ops[0..] == ops;
    for i := 0 to |ops|
      invariant m.Valid() && Tracked(owner, m.accountToData, tr) && AllLegal(owner, tr, ops[i..])
      invariant genuine == forall j :: 0 <= j < i ==> OpOnChain(chain, ops[j])
      invariant genuine ==> Good(chain, m.accountToData, m.fates)
    {
      assert ops[i..][0] == ops[i] && ops[i..][1..] == ops[i + 1..];
      Perform(m, ops[i], chain, owner, tr);
      genuine := genuine && OpOnChain(chain, ops[i]);
      tr := Next(tr, ops[i]);
    }
    if forall op :: op in ops ==> OpOnChain(chain, op) {
      assert genuine;
      AllAccounted(m.accountToData, m.txHashToAccounts, m.fates);
    }
  }

  lemma AllAccounted(acc: Accounts, holders: map<Hash, seq<Address>>, f: Fates)
    requires Inv(acc, holders, f) && NoneLost(f)
    ensures NothingLost(acc, f)
  {}

  // ---------------------------------------------------------------------------------------------
  // A closed session stays silent.

  /** The sessions of the account that began at `since` are closed at `closedAt`. */
  ghost predicate ClosedFrom(acc: Accounts, account: Address, since: Block, closedAt: Block) {
    account in acc && forall s :: s in acc[account].details && s.since == since ==> s.closedAt == closedAt
  }

  /** The call neither closes sessions of that start again nor opens another one. */
  predicate Spares(op: Op, account: Address, since: Block) {
    && (op.Close? ==> op.account != account || op.since != since)
    && (op.Open? ==> op.account != account || op.s.since != since)
  }

  lemma ClosedStays(acc: Accounts, acc': Accounts, op: Op, account: Address, since: Block, closedAt: Block)
    requires ClosedFrom(acc, account, since, closedAt) && Spares(op, account, since) && Detailed(acc, acc', op)
    ensures ClosedFrom(acc', account, since, closedAt)
  {
    var was, now := acc[account].details, acc'[account].details;
    assert DetailsBy(was, now, account, op);
    forall s | s in now && s.since == since ensures s.closedAt == closedAt {
      var i :| 0 <= i < |now| && now[i] == s;
      if i < |was| { assert was[i] in was; }
    }
  }

  lemma CloseCloses(acc: Accounts, acc': Accounts, op: Op)
    requires op.Close? && op.account in acc && Detailed(acc, acc', op)
    ensures ClosedFrom(acc', op.account, op.since, op.closedAt)
  {
    var was, now := acc[op.account].details, acc'[op.account].details;
    assert DetailsBy(was, now, op.account, op);
    forall s | s in now && s.since == op.since ensures s.closedAt == op.closedAt {
      var i :| 0 <= i < |now| && now[i] == s;
      assert ClosedAs(was[i], now[i], op.since, op.closedAt, op.txHash, op.logId);
    }
  }

  /** No answer for a session that began at `since` is of a block behind `closedAt`. */
  ghost predicate SilentAfter(ad: AccountData, since: Block, closedAt: Block, cm: Address, from: Block, to: Block) {
    forall i: nat, b, t ::
      i < |ad.details| && ad.details[i].since == since && Answer(ad, i, cm, from, to, b, t) ==> b <= closedAt
  }

  /** Where the track stands after some calls. */
  function TrackAfter(tr: Track, ops: seq<Op>): Track
    decreases |ops|
  {
    if ops == [] then tr else TrackAfter(Next(tr, ops[0]), ops[1..])
  }

  /** Main result on closing. After a close and any calls that spare it, a check returns for the sessions
      of that start nothing of a block behind the closing block. */
  method CloseThenCheck(m: Manager, close: Op, ops: seq<Op>, cm: Address, from: Block, to: Block,
                        ghost chain: Chain, ghost owner: SessionId -> Address, ghost tr: Track)
    returns (result: Attribution, ghost acc: Accounts)
    requires m.Valid() && Tracked(owner, m.accountToData, tr) && Contiguous(chain)
    requires close.Close? && close.closedAt != 0 && AllLegal(owner, tr, [close] + ops)
    requires TrackAfter(tr, [close] + ops).sorted
    requires forall op :: op in ops ==> Spares(op, close.account, close.since)
    modifies m
    ensures Answers(acc, result, cm, from, to) && close.account in acc
    ensures SilentAfter(acc[close.account], close.since, close.closedAt, cm, from, to)
  {
    ghost var tr' := tr;
    var all := [close] + ops;
    assert all[0..] == all;
    for i := 0 to |all|
      invariant m.Valid() && Tracked(owner, m.accountToData, tr') && AllLegal(owner, tr', all[i..])
      invariant TrackAfter(tr', all[i..]) == TrackAfter(tr, all)
      invariant i > 0 ==> ClosedFrom(m.accountToData, close.account, close.since, close.closedAt)
    {
      assert all[i..][0] == all[i] && all[i..][1..] == all[i + 1..];
      ghost var was := m.accountToData;
      Perform(m, all[i], chain, owner, tr');
      if i == 0 {
        CloseCloses(was, m.accountToData, close);
      } else {
        assert all[i] == ops[i - 1] && all[i] in ops;
        ClosedStays(was, m.accountToData, all[i], close.account, close.since, close.closedAt);
      }
      tr' := Next(tr', all[i]);
    }
    assert all[|all|..] == [];
    acc := m.accountToData;
    result := m.CheckTokenTransfer(cm, from, to);
    LateIsSilent(acc, close.account, close.since, close.closedAt, cm, from, to);
  }

  lemma LateIsSilent(acc: Accounts, account: Address, since: Block, closedAt: Block, cm: Address, from: Block,
                     to: Block)
    requires ClosedFrom(acc, account, since, closedAt) && closedAt != 0
    ensures SilentAfter(acc[account], since, closedAt, cm, from, to)
  {
    forall i: nat, b, t | i < |acc[account].details| && acc[account].details[i].since == since
        && Answer(acc[account], i, cm, from, to, b, t)
      ensures b <= closedAt
    {
      assert acc[account].details[i] in acc[account].details;
    }
  }
}
