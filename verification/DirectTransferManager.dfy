/** The manager of all accounts' direct transfers, with the fate of every recorded transfer. */
module DirectTransferManager {
  import opened DirectTransfers

  type Accounts = map<Address, AccountData>

  /** How often something holds of an account and a transfer. */
  type Tally = (Address, Transfer) -> nat

  ghost function InStore(acc: Accounts, a: Address, t: Transfer): nat {
    if a in acc then Stored(acc[a], t) else 0
  }

  /** What has been recorded so far, and what became of it: returned by a check, removed by a
      deletion or a clearing, or lost by a check along with another transfer of its transaction. */
  datatype Fates = Fates(recorded: Tally, returned: Tally, removed: Tally, lost: Tally)

  /** Every recording is in exactly one place: still stored, returned, removed or lost. */
  ghost predicate Balanced(acc: Accounts, f: Fates) {
    forall a, t {:trigger InStore(acc, a, t)} ::
      f.recorded(a, t) == InStore(acc, a, t) + f.returned(a, t) + f.removed(a, t) + f.lost(a, t)
  }

  ghost predicate AllFiled(acc: Accounts) { forall a :: a in acc ==> Filed(acc[a]) }

  /** Every holder of a transaction is listed under its hash. */
  ghost predicate Covered(acc: Accounts, holders: map<Hash, seq<Address>>) {
    && (forall a, k :: a in acc && k in acc[a].transfers ==> k.1 in holders && a in holders[k.1])
    && (forall h, a :: h in holders && a in holders[h] ==> a in acc)
  }

  /** No session id is used by two accounts. */
  ghost predicate SessionsApart(acc: Accounts) {
    forall a, b :: a in acc && b in acc && a != b ==> Ids(acc[a]) !! Ids(acc[b])
  }

  function Holders(m: map<Hash, seq<Address>>, h: Hash): seq<Address> { if h in m then m[h] else [] }

  function DataOf(acc: Accounts, a: Address): AccountData { if a in acc then acc[a] else NEW_ACCOUNT_DATA }

  /** Files a transfer under its block and transaction. */
  function Process(ad: AccountData, t: Transfer): AccountData {
    var k := (t.block, t.txHash);
    var txs := if k in ad.transfers then ad.transfers[k] else [];
    AccountData(if t.block in ad.blockPresent then ad.blockNums else ad.blockNums + [t.block],
                ad.blockPresent + {t.block}, ad.transfers[k := txs + [t]], ad.details)
  }

  /** The accounts once a transfer has been filed with one of its sides. */
  function FiledWith(acc: Accounts, account: Address, t: Transfer): Accounts {
    acc[account := Process(DataOf(acc, account), t)]
  }

  /** A transfer is filed with each side that is a credit account. */
  function Recorded(acc: Accounts, t: Transfer): Accounts {
    var acc1 := if t.isFromAccount then FiledWith(acc, t.from, t) else acc;
    if t.isToAccount then FiledWith(acc1, t.to, t) else acc1
  }

  lemma ProcessFiles(ad: AccountData, t: Transfer)
    requires Filed(ad)
    ensures Filed(Process(ad, t))
    ensures forall x :: Stored(Process(ad, t), x) == Stored(ad, x) + (if x == t then 1 else 0)
  {
    var ad' := Process(ad, t);
    assert t.block in ad'.blockNums;
    forall b ensures b in ad'.blockPresent <==> b in ad'.blockNums {}
  }

  /** Closing by start: block, hash and log id are entered, everything else stays. */
  predicate ClosedAs(s: Session, s': Session, since: Block, closedAt: Block, txHash: Hash, logId: nat) {
    s' == if s.since == since
          then Session(s.since, s.creditManager, s.id, closedAt, s.openTxHash, s.openLogId, txHash, logId) else s
  }

  function SetClose(details: seq<Session>, since: Block, closedAt: Block, txHash: Hash, logId: nat): (r: seq<Session>)
    ensures |r| == |details|
    ensures forall i :: 0 <= i < |r| ==> ClosedAs(details[i], r[i], since, closedAt, txHash, logId)
  {
    seq(|details|, i requires 0 <= i < |details| =>
      if details[i].since == since
      then details[i].(closedAt := closedAt, closedTxHash := txHash, closedLogId := logId) else details[i])
  }

  // ---------------------------------------------------------------------------------------------
  // Sorting the block numbers.

  function InsertBlock(bs: seq<Block>, b: Block): seq<Block> {
    if bs == [] then [b] else if b <= bs[0] then [b] + bs else [bs[0]] + InsertBlock(bs[1..], b)
  }

  function SortBlocks(bs: seq<Block>): seq<Block> {
    if bs == [] then [] else InsertBlock(SortBlocks(bs[1..]), bs[0])
  }

  lemma {:induction false} InsertSorts(bs: seq<Block>, b: Block)
    requires Ascending(bs) && b !in bs
    ensures Ascending(InsertBlock(bs, b)) && forall x :: x in InsertBlock(bs, b) <==> x == b || x in bs
  {
    if bs != [] && b > bs[0] {
      InsertSorts(bs[1..], b);
      var r := InsertBlock(bs[1..], b);
      forall j | 0 <= j < |r| ensures bs[0] < r[j] { assert r[j] in r; }
      assert bs == [bs[0]] + bs[1..];
    }
  }

  lemma {:induction false} SortSorts(bs: seq<Block>)
    requires forall i, j :: 0 <= i < j < |bs| ==> bs[i] != bs[j]
    ensures Ascending(SortBlocks(bs)) && forall x :: x in SortBlocks(bs) <==> x in bs
  {
    if bs != [] {
      SortSorts(bs[1..]);
      assert bs == [bs[0]] + bs[1..];
      InsertSorts(SortBlocks(bs[1..]), bs[0]);
    }
  }

  // ---------------------------------------------------------------------------------------------
  // A check over all accounts.

  /** The accounts in `done` have been scanned. */
  ghost predicate Scanned(acc: Accounts, acc': Accounts, done: set<Address>, cm: Address, from: Block, to: Block) {
    acc'.Keys == acc.Keys &&
    forall a :: a in acc ==> if a in done then StoreIs(acc[a], acc'[a], cm, from, to) else acc'[a] == acc[a]
  }

  /** The result lists, under each session of a scanned account, what the account gave ... */
  ghost predicate Lists(acc: Accounts, done: set<Address>, result: Attribution, cm: Address, from: Block, to: Block) {
    forall a, b, id, t :: a in done && a in acc && id in Ids(acc[a]) ==>
      Count(result, b, id, t) == Given(acc[a], cm, from, to, b, id, t)
  }

  /** ... and nothing under any other session. */
  ghost predicate Concerns(acc: Accounts, done: set<Address>, result: Attribution) {
    forall k :: k in result ==> OfScanned(acc, done, k.1)
  }

  ghost predicate OfScanned(acc: Accounts, done: set<Address>, id: SessionId) {
    exists a :: a in done && a in acc && id in Ids(acc[a])
  }

  ghost predicate Gathered(acc: Accounts, done: set<Address>, result: Attribution, cm: Address, from: Block,
                           to: Block) {
    Lists(acc, done, result, cm, from, to) && Concerns(acc, done, result)
  }

  lemma Foreign(acc: Accounts, done: set<Address>, a: Address, id: SessionId)
    requires SessionsApart(acc) && a in acc && a !in done && id in Ids(acc[a])
    ensures !OfScanned(acc, done, id)
  {}

  lemma ConcernsMore(acc: Accounts, done: set<Address>, result: Attribution, a: Address, more: Attribution)
    requires a in acc && Concerns(acc, done, result) && OwnKeys(acc[a], more)
    ensures Concerns(acc, done + {a}, result + more)
  {
    forall k | k in result + more ensures OfScanned(acc, done + {a}, k.1) {
      if k in more {
        assert a in done + {a};
      } else {
        assert OfScanned(acc, done, k.1);
        var x :| x in done && x in acc && k.1 in Ids(acc[x]);
        assert x in done + {a};
      }
    }
  }

  lemma GatherOne(acc: Accounts, done: set<Address>, result: Attribution, a: Address, more: Attribution, cm: Address,
                  from: Block, to: Block)
    requires SessionsApart(acc) && a in acc && a !in done && Gathered(acc, done, result, cm, from, to)
    requires ResultIs(acc[a], more, cm, from, to) && OwnKeys(acc[a], more)
    ensures Gathered(acc, done + {a}, result + more, cm, from, to)
  {
    ConcernsMore(acc, done, result, a, more);
    forall x, b, id, t | x in done + {a} && x in acc && id in Ids(acc[x])
      ensures Count(result + more, b, id, t) == Given(acc[x], cm, from, to, b, id, t)
    {
      if x == a {
        Foreign(acc, done, a, id);
        assert (b, id) !in result && Count(result + more, b, id, t) == Count(more, b, id, t);
        assert Count(more, b, id, t) == Given(acc[a], cm, from, to, b, id, t);
      } else {
        assert x in done && Ids(acc[x]) !! Ids(acc[a]);
        assert (b, id) !in more;
        assert Count(result, b, id, t) == Given(acc[x], cm, from, to, b, id, t);
      }
    }
  }

  /** An account without sessions is skipped; a scan would have returned nothing. */
  lemma NoSessions(ad: AccountData, cm: Address, from: Block, to: Block)
    requires ad.details == []
    ensures ResultIs(ad, map[], cm, from, to) && StoreIs(ad, ad, cm, from, to)
  {}

  ghost predicate NothingCut(acc: Accounts, cm: Address, from: Block, to: Block) {
    forall a, k :: a in acc && k in acc[a].transfers ==> !Straddles(acc[a], cm, from, to, k)
  }

  ghost function Handed(acc: Accounts, cm: Address, from: Block, to: Block): Tally {
    (a: Address, t: Transfer) => if a in acc then Returned(acc[a], cm, from, to, t) else 0
  }

  ghost function Mislaid(acc: Accounts, cm: Address, from: Block, to: Block): Tally {
    (a: Address, t: Transfer) => if a in acc then Lost(acc[a], cm, from, to, t) else 0
  }

  ghost function Plus(x: Tally, y: Tally): Tally { (a: Address, t: Transfer) => x(a, t) + y(a, t) }

  /** What a check hands out for an account is what its result lists under the account's session. */
  lemma HandedIsListed(acc: Accounts, result: Attribution, cm: Address, from: Block, to: Block, a: Address, t: Transfer)
    requires Gathered(acc, acc.Keys, result, cm, from, to) && a in acc
    ensures Handed(acc, cm, from, to)(a, t) > 0 ==>
              SessionAt(acc[a].details, t.block) >= 0
              && Count(result, t.block, acc[a].details[SessionAt(acc[a].details, t.block)].id, t) ==
                Handed(acc, cm, from, to)(a, t)
  {
    if Handed(acc, cm, from, to)(a, t) > 0 {
      var s := acc[a].details[SessionAt(acc[a].details, t.block)];
      assert s in acc[a].details && s.id in Ids(acc[a]);
    }
  }

  /** A transfer is an answer for the `i`-th session of an account: it is stored, its block is in range and
      the session is the last one begun by then, of the manager asked for and not closed before the block,
      and the transfer lies neither before the opening log nor after the closing log, transactions of
      those logs excepted. */
  predicate Answer(ad: AccountData, i: nat, cm: Address, from: Block, to: Block, b: Block, t: Transfer)
    requires i < |ad.details|
  {
    var s := ad.details[i];
    && (b, t.txHash) in ad.transfers && t in ad.transfers[(b, t.txHash)] && t.block == b && from <= b < to
    && s.since <= b && (forall j :: i < j < |ad.details| ==> b < ad.details[j].since)
    && s.creditManager == cm && (s.closedAt == 0 || b <= s.closedAt)
    && (b == s.since && t.logId < s.openLogId ==> t.txHash == s.openTxHash)
    && (s.closedAt != 0 && b == s.closedAt && t.logId > s.closedLogId ==> t.txHash == s.closedTxHash)
  }

  lemma AnswerIs(ad: AccountData, i: nat, cm: Address, from: Block, to: Block, b: Block, t: Transfer)
    requires Filed(ad) && i < |ad.details|
    ensures Answer(ad, i, cm, from, to, b, t) <==>
            i == SessionAt(ad.details, b) && Given(ad, cm, from, to, b, ad.details[i].id, t) > 0
    ensures Answer(ad, i, cm, from, to, b, t) ==>
              Given(ad, cm, from, to, b, ad.details[i].id, t) == multiset(ad.transfers[(b, t.txHash)])[t]
  {}

  predicate AnswerOf(acc: Accounts, a: Address, i: nat, id: SessionId, cm: Address, from: Block, to: Block, b: Block,
                     t: Transfer)
  {
    a in acc && i < |acc[a].details| && acc[a].details[i].id == id && Answer(acc[a], i, cm, from, to, b, t)
  }

  /** A result holds under a block and a session exactly the answers for that session, each as often as it
      is stored. */
  ghost predicate Answers(acc: Accounts, result: Attribution, cm: Address, from: Block, to: Block) {
    && (forall b, id, t :: Count(result, b, id, t) > 0 ==>
      exists a, i: nat :: AnswerOf(acc, a, i, id, cm, from, to, b, t))
    && (forall a, i: nat, b, id, t :: AnswerOf(acc, a, i, id, cm, from, to, b, t) ==>
          Count(result, b, id, t) == multiset(acc[a].transfers[(b, t.txHash)])[t] > 0)
  }

  /** Main result for one check: it returns exactly the answers. */
  lemma CheckAnswers(acc: Accounts, result: Attribution, cm: Address, from: Block, to: Block)
    requires AllFiled(acc) && SessionsApart(acc) && Gathered(acc, acc.Keys, result, cm, from, to)
    ensures Answers(acc, result, cm, from, to)
  {
    forall a, i: nat, b, id, t | AnswerOf(acc, a, i, id, cm, from, to, b, t)
      ensures Count(result, b, id, t) == multiset(acc[a].transfers[(b, t.txHash)])[t] > 0
    {
      AnswerIs(acc[a], i, cm, from, to, b, t);
      assert acc[a].details[i] in acc[a].details && id in Ids(acc[a]);
    }
    forall b, id, t | Count(result, b, id, t) > 0
      ensures exists a, i: nat :: AnswerOf(acc, a, i, id, cm, from, to, b, t)
    {
      assert (b, id) in result && OfScanned(acc, acc.Keys, id);
      var a :| a in acc && id in Ids(acc[a]);
      assert Count(result, b, id, t) == Given(acc[a], cm, from, to, b, id, t);
      AnswerIs(acc[a], SessionAt(acc[a].details, b), cm, from, to, b, t);
      assert AnswerOf(acc, a, SessionAt(acc[a].details, b), id, cm, from, to, b, t);
    }
  }

  /** Closing silences the sessions of that start for later blocks, and changes no other session's answers. */
  lemma ClosingAnswers(ad: AccountData, ad': AccountData, since: Block, closedAt: Block, txHash: Hash, logId: nat,
                       i: nat, cm: Address, from: Block, to: Block, b: Block, t: Transfer)
    requires ad' == ad.(details := ad'.details) && |ad'.details| == |ad.details| && i < |ad.details|
    requires forall j :: 0 <= j < |ad.details| ==>
               ClosedAs(ad.details[j], ad'.details[j], since, closedAt, txHash, logId)
    ensures ad.details[i].since == since && closedAt != 0 && closedAt < b ==> !Answer(ad', i, cm, from, to, b, t)
    ensures ad.details[i].since != since ==>
              (Answer(ad', i, cm, from, to, b, t) <==> Answer(ad, i, cm, from, to, b, t))
  {}

  // ---------------------------------------------------------------------------------------------
  // The invariant and how each operation keeps it.

  ghost predicate Inv(acc: Accounts, holders: map<Hash, seq<Address>>, f: Fates) {
    AllFiled(acc) && Covered(acc, holders) && SessionsApart(acc) && Balanced(acc, f)
  }

  ghost function One(account: Address, t: Transfer): Tally {
    (a: Address, x: Transfer) => if a == account && x == t then 1 else 0
  }

  ghost function AtTx(acc: Accounts, k: TxKey): Tally {
    (a: Address, t: Transfer) => if (t.block, t.txHash) == k then InStore(acc, a, t) else 0
  }

  ghost function Everything(acc: Accounts): Tally { (a: Address, t: Transfer) => InStore(acc, a, t) }

  lemma FileKeeps(acc: Accounts, holders: map<Hash, seq<Address>>, f: Fates, account: Address, t: Transfer)
    requires Inv(acc, holders, f)
    ensures Inv(acc[account := Process(DataOf(acc, account), t)],
            holders[t.txHash := Holders(holders, t.txHash) + [account]],
                f.(recorded := Plus(f.recorded, One(account, t))))
  {
    var ad := DataOf(acc, account);
    var acc' := acc[account := Process(ad, t)];
    assert AllFiled(acc') by { ProcessFiles(ad, t); }
    FileCovers(acc, holders, account, t);
    forall a, x ensures Plus(f.recorded, One(account, t))(a, x) ==
      InStore(acc', a, x) + f.returned(a, x) + f.removed(a, x) + f.lost(a, x) {
      assert f.recorded(a, x) == InStore(acc, a, x) + f.returned(a, x) + f.removed(a, x) + f.lost(a, x);
      FileStores(acc, account, t, a, x);
    }
  }

  lemma FileStores(acc: Accounts, account: Address, t: Transfer, a: Address, x: Transfer)
    requires AllFiled(acc)
    ensures InStore(acc[account := Process(DataOf(acc, account), t)], a, x) ==
            InStore(acc, a, x) + One(account, t)(a, x)
  {
    ProcessFiles(DataOf(acc, account), t);
  }

  lemma FileCovers(acc: Accounts, holders: map<Hash, seq<Address>>, account: Address, t: Transfer)
    requires Covered(acc, holders) && SessionsApart(acc)
    ensures var acc' := acc[account := Process(DataOf(acc, account), t)];
            Covered(acc', holders[t.txHash := Holders(holders, t.txHash) + [account]]) && SessionsApart(acc')
  {
    var acc' := acc[account := Process(DataOf(acc, account), t)];
    assert Ids(acc'[account]) == Ids(DataOf(acc, account));
  }

  /** Changing only an account's sessions. */
  lemma DetailsKeep(acc: Accounts, holders: map<Hash, seq<Address>>, f: Fates,
                    account: Address, details: seq<Session>)
    requires Inv(acc, holders, f)
    requires forall a, s :: a in acc && a != account && s in details ==> s.id !in Ids(acc[a])
    ensures Inv(acc[account := DataOf(acc, account).(details := details)], holders, f)
  {
    var acc' := acc[account := DataOf(acc, account).(details := details)];
    forall a, t ensures f.recorded(a, t) == InStore(acc', a, t) + f.returned(a, t) + f.removed(a, t) + f.lost(a, t) {
      assert f.recorded(a, t) == InStore(acc, a, t) + f.returned(a, t) + f.removed(a, t) + f.lost(a, t);
    }
  }

  /** The fates after a check. */
  ghost function AfterCheck(acc: Accounts, f: Fates, cm: Address, from: Block, to: Block): Fates {
    f.(returned := Plus(f.returned, Handed(acc, cm, from, to)), lost := Plus(f.lost, Mislaid(acc, cm, from, to)))
  }

  lemma CheckKeeps(acc: Accounts, acc': Accounts, holders: map<Hash, seq<Address>>, cm: Address, from: Block,
                   to: Block, f: Fates)
    requires Inv(acc, holders, f) && Scanned(acc, acc', acc.Keys, cm, from, to)
    ensures Inv(acc', holders, AfterCheck(acc, f, cm, from, to))
  {
    var f' := AfterCheck(acc, f, cm, from, to);
    forall a | a in acc' ensures Filed(acc'[a]) && Ids(acc'[a]) == Ids(acc[a]) {
      StillFiled(acc[a], acc'[a], cm, from, to);
    }
    forall a, t ensures f'.recorded(a, t) ==
      InStore(acc', a, t) + f'.returned(a, t) + f'.removed(a, t) + f'.lost(a, t) {
      assert f.recorded(a, t) == InStore(acc, a, t) + f.returned(a, t) + f.removed(a, t) + f.lost(a, t);
      if a in acc {
        ScanPartitions(acc[a], acc'[a], cm, from, to, t);
      }
    }
  }

  /** A check loses nothing if and only if no transaction in its range is cut by a session boundary. */
  lemma NothingMislaid(acc: Accounts, cm: Address, from: Block, to: Block)
    requires AllFiled(acc)
    ensures (forall a, t :: Mislaid(acc, cm, from, to)(a, t) == 0) <==> NothingCut(acc, cm, from, to)
  {
    forall a | a in acc
      ensures (forall t :: Mislaid(acc, cm, from, to)(a, t) == 0) <==>
              (forall k :: k in acc[a].transfers ==> !Straddles(acc[a], cm, from, to, k))
    {
      LosesIff(acc[a], cm, from, to);
      assert forall t :: Mislaid(acc, cm, from, to)(a, t) == Lost(acc[a], cm, from, to, t);
    }
  }

  /** `acc'` is `acc` with the transaction removed from the accounts in `done`. */
  ghost predicate Without(acc: Accounts, acc': Accounts, done: set<Address>, k: TxKey) {
    acc'.Keys == acc.Keys &&
    forall a :: a in acc ==> acc'[a] == if a in done then Forget(acc[a], k) else acc[a]
  }

  function Forget(ad: AccountData, k: TxKey): AccountData { ad.(transfers := ad.transfers - {k}) }

  function ForgottenBy(acc: Accounts, k: TxKey): Accounts { map a | a in acc :: Forget(acc[a], k) }

  ghost function Listed(holders: seq<Address>, n: nat): set<Address>
    requires n <= |holders|
  {
    set a | a in holders[..n]
  }

  lemma WithoutOne(acc: Accounts, acc': Accounts, holders: seq<Address>, n: nat, k: TxKey)
    requires n < |holders| && holders[n] in acc && Without(acc, acc', Listed(holders, n), k)
    ensures Without(acc, acc'[holders[n] := Forget(acc'[holders[n]], k)], Listed(holders, n + 1), k)
  {
    assert holders[..n + 1] == holders[..n] + [holders[n]];
  }

  /** Deleting from the listed holders deletes from everybody. */
  lemma DeleteReaches(acc: Accounts, acc': Accounts, holders: map<Hash, seq<Address>>, k: TxKey)
    requires Covered(acc, holders) && Without(acc, acc', Listed(Holders(holders, k.1), |Holders(holders, k.1)|), k)
    ensures acc'.Keys == acc.Keys && forall a :: a in acc ==> acc'[a] == Forget(acc[a], k)
  {
    var hs := Holders(holders, k.1);
    assert hs[..|hs|] == hs;
    forall a | a in acc ensures acc'[a] == Forget(acc[a], k) {
      if k in acc[a].transfers {
        assert a in hs;
      } else {
        assert acc[a].transfers - {k} == acc[a].transfers;
      }
    }
  }

  lemma ForgetStores(ad: AccountData, k: TxKey)
    requires Filed(ad)
    ensures Filed(Forget(ad, k)) && Ids(Forget(ad, k)) == Ids(ad)
    ensures forall t :: Stored(Forget(ad, k), t) == if (t.block, t.txHash) == k then 0 else Stored(ad, t)
  {}

  lemma DeleteKeeps(acc: Accounts, acc': Accounts, holders: map<Hash, seq<Address>>, k: TxKey, f: Fates)
    requires Inv(acc, holders, f)
    requires Without(acc, acc', Listed(Holders(holders, k.1), |Holders(holders, k.1)|), k)
    ensures Inv(acc', holders, f.(removed := Plus(f.removed, AtTx(acc, k))))
    ensures forall a :: a in acc' ==> k !in acc'[a].transfers
  {
    DeleteReaches(acc, acc', holders, k);
    forall a | a in acc ensures Ids(acc'[a]) == Ids(acc[a]) && Filed(acc'[a]) {
      ForgetStores(acc[a], k);
    }
    forall a, t ensures f.recorded(a, t) ==
      InStore(acc', a, t) + f.returned(a, t) + Plus(f.removed, AtTx(acc, k))(a, t) + f.lost(a, t) {
      assert f.recorded(a, t) == InStore(acc, a, t) + f.returned(a, t) + f.removed(a, t) + f.lost(a, t);
      if a in acc { ForgetStores(acc[a], k); }
    }
  }

  function Emptied(acc: Accounts): Accounts { map a | a in acc :: NEW_ACCOUNT_DATA.(details := acc[a].details) }

  lemma ClearKeeps(acc: Accounts, holders: map<Hash, seq<Address>>, f: Fates)
    requires Inv(acc, holders, f)
    ensures Inv(Emptied(acc), map[], f.(removed := Plus(f.removed, Everything(acc))))
  {
    var acc' := Emptied(acc);
    assert forall a :: a in acc ==> Ids(acc'[a]) == Ids(acc[a]);
    forall a, t ensures f.recorded(a, t) ==
      InStore(acc', a, t) + f.returned(a, t) + Plus(f.removed, Everything(acc))(a, t) + f.lost(a, t) {
      assert f.recorded(a, t) == InStore(acc, a, t) + f.returned(a, t) + f.removed(a, t) + f.lost(a, t);
    }
  }

  function SortedData(acc: Accounts): Accounts {
    map a | a in acc :: acc[a].(blockNums := SortBlocks(acc[a].blockNums))
  }

  lemma InitKeeps(acc: Accounts, holders: map<Hash, seq<Address>>, f: Fates)
    requires Inv(acc, holders, f)
    ensures Inv(SortedData(acc), holders, f)
    ensures forall a :: a in acc ==> Ascending(SortedData(acc)[a].blockNums)
  {
    var acc' := SortedData(acc);
    forall a | a in acc ensures Ascending(acc'[a].blockNums) && Filed(acc'[a]) && Ids(acc'[a]) == Ids(acc[a]) {
      SortSorts(acc[a].blockNums);
    }
    forall a, t ensures f.recorded(a, t) == InStore(acc', a, t) + f.returned(a, t) + f.removed(a, t) + f.lost(a, t) {
      assert f.recorded(a, t) == InStore(acc, a, t) + f.returned(a, t) + f.removed(a, t) + f.lost(a, t);
    }
  }

  class Manager {
    var accountToData: Accounts
    var txHashToAccounts: map<Hash, seq<Address>>
    ghost var fates: Fates

    ghost predicate Valid()
      reads this
    {
      Inv(accountToData, txHashToAccounts, fates)
    }

    ghost predicate Sorted()
      reads this
    {
      forall a :: a in accountToData ==> Ascending(accountToData[a].blockNums)
    }

    constructor ()
      ensures Valid() && accountToData == map[]
      ensures forall a, t :: fates.recorded(a, t) == 0 && fates.lost(a, t) == 0
    {
      accountToData := map[];
      txHashToAccounts := map[];
      fates := Fates((a, t) => 0, (a, t) => 0, (a, t) => 0, (a, t) => 0);
    }

    /** Records a transfer for one of its two sides. */
    method File(account: Address, t: Transfer)
      requires Valid()
      modifies this
      ensures Valid() && fates == old(fates).(recorded := Plus(old(fates).recorded, One(account, t)))
      ensures accountToData == FiledWith(old(accountToData), account, t)
    {
      FileKeeps(accountToData, txHashToAccounts, fates, account, t);
      txHashToAccounts := txHashToAccounts[t.txHash := Holders(txHashToAccounts, t.txHash) + [account]];
      accountToData := accountToData[account := Process(DataOf(accountToData, account), t)];
      fates := fates.(recorded := Plus(fates.recorded, One(account, t)));
    }

    method AddTokenTransfer(t: Transfer)
      requires Valid()
      modifies this
      ensures Valid() && fates == old(fates).(recorded := fates.recorded)
      ensures accountToData == Recorded(old(accountToData), t)
      ensures forall a, x :: fates.recorded(a, x) == old(fates).recorded(a, x)
                + (if x == t && t.isFromAccount && a == t.from then 1 else 0) +
                  (if x == t && t.isToAccount && a == t.to then 1 else 0)
    {
      if t.isFromAccount {
        File(t.from, t);
      }
      if t.isToAccount {
        File(t.to, t);
      }
    }

    method AddAccountDetails(account: Address, s: Session)
      requires Valid() && forall a :: a in accountToData && a != account ==> s.id !in Ids(accountToData[a])
      modifies this`accountToData
      ensures Valid() && account in accountToData
      ensures accountToData ==
              old(accountToData)[account := DataOf(old(accountToData),
              account).(details := DataOf(old(accountToData), account).details + [s])]
    {
      var ad := DataOf(accountToData, account);
      forall a, x | a in accountToData && a != account && x in ad.details + [s] ensures x.id !in Ids(accountToData[a]) {
        if x in ad.details { assert x.id in Ids(ad); }
      }
      DetailsKeep(accountToData, txHashToAccounts, fates, account, ad.details + [s]);
      accountToData := accountToData[account := ad.(details := ad.details + [s])];
    }

    method CloseAccountDetails(account: Address, since: Block, closedAt: Block, closeTxHash: Hash, logId: nat)
      requires Valid() && account in accountToData
      modifies this`accountToData
      ensures Valid()
      ensures accountToData.Keys == old(accountToData).Keys
      ensures forall a :: a in accountToData && a != account ==> accountToData[a] == old(accountToData)[a]
      ensures accountToData[account] == old(accountToData)[account].(details := accountToData[account].details)
      ensures var was, now := old(accountToData)[account].details, accountToData[account].details;
              |now| == |was| && forall i :: 0 <= i < |was| ==>
                ClosedAs(was[i], now[i], since, closedAt, closeTxHash, logId)
      ensures accountToData == old(accountToData)[account := old(accountToData)[account].(details :=
                SetClose(old(accountToData)[account].details, since, closedAt, closeTxHash, logId))]
    {
      var ad := accountToData[account];
      var details := SetClose(ad.details, since, closedAt, closeTxHash, logId);
      forall a, x | a in accountToData && a != account && x in details ensures x.id !in Ids(accountToData[a]) {
        var i :| 0 <= i < |details| && details[i] == x;
        assert ad.details[i] in ad.details && x.id in Ids(ad);
      }
      DetailsKeep(accountToData, txHashToAccounts, fates, account, details);
      accountToData := accountToData[account := ad.(details := details)];
    }

    /** All transfers that belong to `cm` in [from, to): handed out and forgotten. */
    method CheckTokenTransfer(cm: Address, from: Block, to: Block) returns (result: Attribution)
      requires Valid() && Sorted()
      modifies this`accountToData, this`fates
      ensures Valid() && Sorted()
      ensures Gathered(old(accountToData), old(accountToData).Keys, result, cm, from, to)
      ensures Answers(old(accountToData), result, cm, from, to)
      ensures fates == AfterCheck(old(accountToData), old(fates), cm, from, to)
      ensures Scanned(old(accountToData), accountToData, old(accountToData).Keys, cm, from, to)
    {
      var acc';
      acc', result := CheckAll(accountToData, cm, from, to);
      CheckAnswers(accountToData, result, cm, from, to);
      CheckKeeps(accountToData, acc', txHashToAccounts, cm, from, to, fates);
      fates := AfterCheck(accountToData, fates, cm, from, to);
      accountToData := acc';
    }

    /** Forgets a transaction for every account that holds it. */
    method DeleteTxHash(b: Block, h: Hash)
      requires Valid()
      modifies this`accountToData, this`fates
      ensures Valid() && fates == old(fates).(removed := Plus(old(fates).removed, AtTx(old(accountToData), (b, h))))
      ensures forall a :: a in accountToData ==> (b, h) !in accountToData[a].transfers
      ensures accountToData == ForgottenBy(old(accountToData), (b, h))
    {
      var acc' := DeleteFrom(accountToData, Holders(txHashToAccounts, h), (b, h));
      DeleteKeeps(accountToData, acc', txHashToAccounts, (b, h), fates);
      DeleteReaches(accountToData, acc', txHashToAccounts, (b, h));
      assert acc' == ForgottenBy(accountToData, (b, h));
      fates := fates.(removed := Plus(fates.removed, AtTx(accountToData, (b, h))));
      accountToData := acc';
    }

    /** Forgets every stored transfer. */
    method Clear()
      requires Valid()
      modifies this
      ensures Valid() && fates == old(fates).(removed := Plus(old(fates).removed, Everything(old(accountToData))))
      ensures accountToData == Emptied(old(accountToData))
    {
      ClearKeeps(accountToData, txHashToAccounts, fates);
      fates := fates.(removed := Plus(fates.removed, Everything(accountToData)));
      accountToData := Emptied(accountToData);
      txHashToAccounts := map[];
    }

    /** Sorts every account's block numbers. */
    method Init()
      requires Valid()
      modifies this`accountToData
      ensures Valid() && Sorted() && accountToData == SortedData(old(accountToData))
    {
      InitKeeps(accountToData, txHashToAccounts, fates);
      accountToData := SortedData(accountToData);
    }
  }

  /** The accounts in `done` have been scanned and their transfers gathered. */
  ghost predicate Checked(acc: Accounts, acc': Accounts, done: set<Address>, result: Attribution, cm: Address,
                          from: Block, to: Block) {
    Scanned(acc, acc', done, cm, from, to) && Gathered(acc, done, result, cm, from, to)
  }

  method CheckNext(ghost acc: Accounts, cur: Accounts, ghost done: set<Address>, sofar: Attribution, a: Address,
                   cm: Address, from: Block, to: Block)
    returns (acc': Accounts, result: Attribution)
    requires AllFiled(acc) && SessionsApart(acc) && a in acc && a !in done && Ascending(acc[a].blockNums)
    requires Checked(acc, cur, done, sofar, cm, from, to)
    ensures Checked(acc, acc', done + {a}, result, cm, from, to)
  {
    var ad', more := CheckAccount(cur[a], cm, from, to);
    GatherOne(acc, done, sofar, a, more, cm, from, to);
    ScanOneMore(acc, cur, done, a, ad', cm, from, to);
    acc', result := cur[a := ad'], sofar + more;
  }

  lemma NothingChecked(acc: Accounts, none: set<Address>, cm: Address, from: Block, to: Block)
    requires none == {}
    ensures Checked(acc, acc, none, map[], cm, from, to)
  {}

  /** Scans the accounts one by one, in whatever order the map is walked. */
  method CheckAll(acc: Accounts, cm: Address, from: Block, to: Block) returns (acc': Accounts, result: Attribution)
    requires AllFiled(acc) && SessionsApart(acc) && forall a :: a in acc ==> Ascending(acc[a].blockNums)
    ensures Checked(acc, acc', acc.Keys, result, cm, from, to)
  {
    acc', result := acc, map[];
    var todo := acc.Keys;
    NothingChecked(acc, acc.Keys - todo, cm, from, to);
    while todo != {}
      invariant todo <= acc.Keys && Checked(acc, acc', acc.Keys - todo, result, cm, from, to)
      decreases todo
    {
      var a :| a in todo;
      OneLess(acc.Keys, todo, a);
      acc', result := CheckNext(acc, acc', acc.Keys - todo, result, a, cm, from, to);
      todo := todo - {a};
    }
    assert acc.Keys - todo == acc.Keys;
  }

  lemma ScanOneMore(acc: Accounts, acc': Accounts, done: set<Address>, a: Address, ad': AccountData, cm: Address,
                    from: Block, to: Block)
    requires Scanned(acc, acc', done, cm, from, to) && a in acc && a !in done && StoreIs(acc[a], ad', cm, from, to)
    ensures Scanned(acc, acc'[a := ad'], done + {a}, cm, from, to)
  {}

  method CheckAccount(ad: AccountData, cm: Address, from: Block, to: Block)
    returns (ad': AccountData, result: Attribution)
    requires Filed(ad) && Ascending(ad.blockNums)
    ensures ResultIs(ad, result, cm, from, to) && StoreIs(ad, ad', cm, from, to) && OwnKeys(ad, result)
  {
    if |ad.details| == 0 {
      NoSessions(ad, cm, from, to);
      return ad, map[];
    }
    ad', result := GetRemainingTransfer(ad, cm, from, to);
  }

  method DeleteFrom(acc: Accounts, holders: seq<Address>, k: TxKey) returns (acc': Accounts)
    requires forall a :: a in holders ==> a in acc
    ensures Without(acc, acc', Listed(holders, |holders|), k)
  {
    acc' := acc;
    var i := 0;
    while i < |holders|
      invariant 0 <= i <= |holders| && Without(acc, acc', Listed(holders, i), k)
    {
      WithoutOne(acc, acc', holders, i, k);
      acc' := acc'[holders[i] := Forget(acc'[holders[i]], k)];
      i := i + 1;
    }
  }
}
