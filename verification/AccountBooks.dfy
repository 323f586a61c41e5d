/** The books of a credit manager: account counts and borrowed totals, over every run of events. */
module AccountBooks {

  import opened Wrappers
  import opened Sums

  type Owner = nat
  type Block = int

  /** Made of the account and the position of the opening log, so no two openings share one. */
  datatype SessionId = SessionId(account: nat, block: Block, logIndex: nat)

  datatype Status = Active | Closed | Liquidated | Repaid

  datatype Pnl = Pnl(profit: int, loss: int, borrowed: int)

  datatype Books = Books(
    openedCount: int, totalOpened: int, totalClosed: int, totalLiquidated: int, totalRepaid: int,
    sessions: map<Owner, SessionId>,
    closedSessions: map<SessionId, Status>,
    repo: map<SessionId, Status>,
    borrowedForBlock: Option<int>, totalBorrowed: int, totalLosses: int, totalProfit: int,
    pnl: map<Block, Pnl>)

  datatype Event =
    | Open(owner: Owner, id: SessionId, borrow: int)
    | Finish(owner: Owner, status: Status)
    | TransferAccount(owner: Owner, newOwner: Owner)
    | IncreaseV1(owner: Owner, amount: int)
    | ChangeV2(owner: Owner, amount: int)
    | PoolRepay(block: Block, pnl: Pnl)
    | CloseSessions
    | CalculateStat(block: Block)

  // ---------------------------------------------------------------------------------------------
  // One event. `None` stands for the failures that stop the program.

  function After(b: Books, e: Event): Option<Books>
    requires e.Finish? ==> !e.status.Active?
  {
    match e
    case Open(owner, id, borrow) => if borrow < 0 then None else Some(Opened(b, owner, id, borrow))
    case Finish(owner, status) => if owner !in b.sessions then None else Some(Finished(b, owner, status))
    case TransferAccount(owner, newOwner) => if owner !in b.sessions then None else
      Some(Transferred(b, owner, newOwner))
    case IncreaseV1(owner, amount) => if owner !in b.sessions || amount < 0 then None else Some(AddBorrow(b, amount))
    case ChangeV2(owner, amount) => if owner !in b.sessions then None else
      Some(if amount > 0 then AddBorrow(b, amount) else b)
    case PoolRepay(block, pnl) => Some(b.(pnl := PnlAdded(b.pnl, block, pnl)))
    case CloseSessions => Some(SessionsClosed(b))
    case CalculateStat(block) => Some(StatTaken(b, block))
  }

  function Opened(b: Books, owner: Owner, id: SessionId, borrow: int): Books {
    AddBorrow(b, borrow).(openedCount := b.openedCount + 1, totalOpened := b.totalOpened + 1,
                          sessions := b.sessions[owner := id], repo := b.repo[id := Active])
  }

  function Finished(b: Books, owner: Owner, status: Status): Books
    requires owner in b.sessions && !status.Active?
  {
    Counted(b, status).(closedSessions := b.closedSessions[b.sessions[owner] := status],
      sessions := b.sessions - {owner})
  }

  function Transferred(b: Books, owner: Owner, newOwner: Owner): Books
    requires owner in b.sessions
  {
    b.(sessions := (b.sessions - {owner})[newOwner := b.sessions[owner]])
  }

  function SessionsClosed(b: Books): Books {
    b.(openedCount := b.openedCount - |b.closedSessions|, repo := b.repo + b.closedSessions, closedSessions := map[])
  }

  function StatTaken(b: Books, block: Block): Books {
    var p := if block in b.pnl then b.pnl[block] else Pnl(0, 0, 0);
    b.(totalBorrowed := b.totalBorrowed + Waiting(b) - p.borrowed, totalLosses := b.totalLosses + p.loss,
       totalProfit := b.totalProfit + p.profit, pnl := b.pnl - {block},
       borrowedForBlock := if b.borrowedForBlock.None? then None else Some(0))
  }

  function AddBorrow(b: Books, amount: int): Books { b.(borrowedForBlock := Some(Waiting(b) + amount)) }

  /** The borrows of the current block, not yet in the total. */
  function Waiting(b: Books): int { if b.borrowedForBlock.None? then 0 else b.borrowedForBlock.value }

  function Counted(b: Books, status: Status): Books
    requires !status.Active?
  {
    match status
    case Closed => b.(totalClosed := b.totalClosed + 1)
    case Liquidated => b.(totalLiquidated := b.totalLiquidated + 1)
    case Repaid => b.(totalRepaid := b.totalRepaid + 1)
  }

  function Plus(p: Pnl, q: Pnl): Pnl { Pnl(p.profit + q.profit, p.loss + q.loss, p.borrowed + q.borrowed) }

  function PnlAdded(pnl: map<Block, Pnl>, block: Block, p: Pnl): map<Block, Pnl> {
    pnl[block := if block in pnl then Plus(pnl[block], p) else p]
  }

  predicate WellFormed(es: seq<Event>) { forall e :: e in es && e.Finish? ==> !e.status.Active? }

  function Run(b: Books, es: seq<Event>): Option<Books>
    requires WellFormed(es)
    decreases |es|
  {
    if es == [] then Some(b) else
    var r := After(b, es[0]);
    if r.None? then None else Run(r.value, es[1..])
  }

  // ---------------------------------------------------------------------------------------------
  // Counting.

  ghost function ActiveIn(repo: map<SessionId, Status>): set<SessionId> { set id | id in repo && repo[id] == Active }

  ghost function ActiveIds(b: Books): set<SessionId> { ActiveIn(b.repo) }

  /** Active sessions that no owner points to and that are not about to be closed. */
  ghost function Orphans(b: Books): set<SessionId> { ActiveIds(b) - b.sessions.Values - b.closedSessions.Keys }

  ghost predicate Injective(m: map<Owner, SessionId>) { forall a, c :: a in m && c in m && m[a] == m[c] ==> a == c }

  ghost predicate Apart<T(!new)>(owned: set<T>, pending: set<T>, all: set<T>) {
    owned !! pending && owned <= all && pending <= all
  }

  ghost predicate NoneActive(m: map<SessionId, Status>) { forall id :: id in m ==> !m[id].Active? }

  ghost predicate Sound(b: Books) {
    && Injective(b.sessions) && Apart(b.sessions.Values, b.closedSessions.Keys, ActiveIds(b)) &&
      NoneActive(b.closedSessions)
    && b.openedCount == |ActiveIds(b)|
    && b.totalOpened == b.openedCount - |b.closedSessions| + b.totalClosed + b.totalLiquidated + b.totalRepaid
  }

  lemma {:induction false} InjectiveSize(m: map<Owner, SessionId>)
    requires Injective(m)
    ensures |m.Values| == |m|
    decreases |m|
  {
    if m != map[] {
      var a :| a in m;
      var rest := m - {a};
      assert Injective(rest);
      assert m.Values == rest.Values + {m[a]} && m[a] !in rest.Values by { Without(m, a); }
      InjectiveSize(rest);
    }
  }

  lemma Without(m: map<Owner, SessionId>, a: Owner)
    requires Injective(m) && a in m
    ensures (m - {a}).Values == m.Values - {m[a]}
  {
    forall id ensures id in (m - {a}).Values <==> id in m.Values - {m[a]} {
      if id in m.Values - {m[a]} {
        var c :| c in m && m[c] == id;
        assert c in m - {a};
      }
    }
  }

  lemma ApartSize<T(!new)>(owned: set<T>, pending: set<T>, all: set<T>)
    requires Apart(owned, pending, all)
    ensures |all| == |owned| + |pending| + |all - owned - pending|
  {
    assert all == owned + pending + (all - owned - pending);
  }

  /** Opened accounts are those with an owner, those about to be closed, and the orphans. */
  lemma CountSplits(b: Books)
    requires Sound(b)
    ensures b.openedCount == |b.sessions| + |b.closedSessions| + |Orphans(b)|
    ensures b.openedCount == |b.sessions| + |b.closedSessions| <==> Orphans(b) == {}
  {
    InjectiveSize(b.sessions);
    ApartSize(b.sessions.Values, b.closedSessions.Keys, ActiveIds(b));
    assert |b.closedSessions.Keys| == |b.closedSessions|;
  }

  /** The session that an event takes from its owner without ending it. */
  function Overwritten(m: map<Owner, SessionId>, e: Event): set<SessionId> {
    match e
    case Open(owner, _, _) => if owner in m then {m[owner]} else {}
    case TransferAccount(owner, newOwner) => if newOwner in m && newOwner != owner then {m[newOwner]} else {}
    case _ => {}
  }

  /** What an event does to the owner map. */
  function Owners(m: map<Owner, SessionId>, e: Event): map<Owner, SessionId> {
    match e
    case Open(owner, id, _) => m[owner := id]
    case Finish(owner, _) => m - {owner}
    case TransferAccount(owner, newOwner) => if owner in m then (m - {owner})[newOwner := m[owner]] else m
    case _ => m
  }

  predicate NoOverwrite(m: map<Owner, SessionId>, es: seq<Event>)
    decreases |es|
  {
    es == [] || (Overwritten(m, es[0]) == {} && NoOverwrite(Owners(m, es[0]), es[1..]))
  }

  lemma Entered(m: map<Owner, SessionId>, a: Owner, id: SessionId)
    requires Injective(m) && id !in m.Values
    ensures Injective(m[a := id]) && m[a := id].Values == m.Values - (if a in m then {m[a]} else {}) + {id}
  {
    var r := m[a := id];
    forall x ensures x in r.Values <==> x in m.Values - (if a in m then {m[a]} else {}) + {id} {
      if x in m.Values && (a in m ==> x != m[a]) {
        var c :| c in m && m[c] == x;
        assert r[c] == x;
      }
      if x == id { assert r[a] == x; }
    }
  }

  lemma ActiveMore(repo: map<SessionId, Status>, id: SessionId)
    requires id !in repo
    ensures ActiveIn(repo[id := Active]) == ActiveIn(repo) + {id} && |ActiveIn(repo) + {id}| == |ActiveIn(repo)| + 1
  {}

  lemma ActiveLess(repo: map<SessionId, Status>, ended: map<SessionId, Status>)
    requires NoneActive(ended) && ended.Keys <= ActiveIn(repo)
    ensures ActiveIn(repo + ended) == ActiveIn(repo) - ended.Keys &&
            |ActiveIn(repo) - ended.Keys| == |ActiveIn(repo)| - |ended|
  {
    assert |ended.Keys| == |ended|;
    ApartSize({}, ended.Keys, ActiveIn(repo));
    assert ActiveIn(repo) - {} == ActiveIn(repo);
  }

  /** A new member replaces an old one: that one is now in neither set. */
  lemma ApartReplaced<T(!new)>(owned: set<T>, pending: set<T>, all: set<T>, x: T, gone: set<T>)
    requires Apart(owned, pending, all) && x !in all && gone <= owned
    ensures Apart(owned - gone + {x}, pending, all + {x})
    ensures all + {x} - (owned - gone + {x}) - pending == (all - owned - pending) + gone
  {}

  lemma ApartMoved<T(!new)>(owned: set<T>, pending: set<T>, all: set<T>, x: T)
    requires Apart(owned, pending, all) && x in owned
    ensures Apart(owned - {x}, pending + {x}, all) && all - (owned - {x}) - (pending + {x}) == all - owned - pending
  {}

  lemma ApartLost<T(!new)>(owned: set<T>, pending: set<T>, all: set<T>, gone: set<T>)
    requires Apart(owned, pending, all) && gone <= owned
    ensures Apart(owned - gone, pending, all) && all - (owned - gone) - pending == (all - owned - pending) + gone
  {}

  lemma ApartEnded<T(!new)>(owned: set<T>, pending: set<T>, all: set<T>)
    requires Apart(owned, pending, all)
    ensures Apart(owned, {}, all - pending) && all - pending - owned - {} == all - owned - pending
  {}

  lemma OpenSound(b: Books, owner: Owner, id: SessionId, borrow: int)
    requires Sound(b) && id !in b.repo
    ensures Sound(Opened(b, owner, id, borrow))
    ensures Orphans(Opened(b, owner, id, borrow)) == Orphans(b) + Overwritten(b.sessions, Open(owner, id, borrow))
  {
    Entered(b.sessions, owner, id);
    ActiveMore(b.repo, id);
    ApartReplaced(b.sessions.Values, b.closedSessions.Keys, ActiveIds(b), id, if owner in b.sessions then
      {b.sessions[owner]} else {});
  }

  lemma OneMorePending(m: map<SessionId, Status>, id: SessionId, status: Status)
    requires NoneActive(m) && id !in m && !status.Active?
    ensures NoneActive(m[id := status]) && m[id := status].Keys == m.Keys + {id} && |m[id := status]| == |m| + 1
  {
    var r := m[id := status];
    assert r.Keys == m.Keys + {id} && |r.Keys| == |r| && |m.Keys| == |m|;
  }

  lemma FinishSound(b: Books, owner: Owner, status: Status)
    requires Sound(b) && owner in b.sessions && !status.Active?
    ensures Sound(Finished(b, owner, status)) && Orphans(Finished(b, owner, status)) == Orphans(b)
  {
    var id := b.sessions[owner];
    Without(b.sessions, owner);
    ApartMoved(b.sessions.Values, b.closedSessions.Keys, ActiveIds(b), id);
    OneMorePending(b.closedSessions, id, status);
  }

  /** Handing a session over: the owners are as before, except for what the new owner had. */
  lemma HandedOver(m: map<Owner, SessionId>, owner: Owner, newOwner: Owner)
    requires Injective(m) && owner in m
    ensures var r := (m - {owner})[newOwner := m[owner]];
            Injective(r) && r.Values == m.Values - Overwritten(m, TransferAccount(owner, newOwner))
  {
    Without(m, owner);
    assert Injective(m - {owner});
    Entered(m - {owner}, newOwner, m[owner]);
  }

  lemma TransferSound(b: Books, owner: Owner, newOwner: Owner)
    requires Sound(b) && owner in b.sessions
    ensures Sound(Transferred(b, owner, newOwner))
    ensures Orphans(Transferred(b, owner, newOwner)) ==
            Orphans(b) + Overwritten(b.sessions, TransferAccount(owner, newOwner))
  {
    HandedOver(b.sessions, owner, newOwner);
    ApartLost(b.sessions.Values, b.closedSessions.Keys, ActiveIds(b),
      Overwritten(b.sessions, TransferAccount(owner, newOwner)));
  }

  lemma CloseSound(b: Books)
    requires Sound(b)
    ensures Sound(SessionsClosed(b)) && Orphans(SessionsClosed(b)) == Orphans(b)
  {
    ActiveLess(b.repo, b.closedSessions);
    ApartEnded(b.sessions.Values, b.closedSessions.Keys, ActiveIds(b));
  }

  ghost predicate SameAccounts(b: Books, c: Books) {
    && c.openedCount == b.openedCount && c.totalOpened == b.totalOpened && c.totalClosed == b.totalClosed
    && c.totalLiquidated == b.totalLiquidated && c.totalRepaid == b.totalRepaid
    && c.sessions == b.sessions && c.closedSessions == b.closedSessions && c.repo == b.repo
  }

  lemma OthersSound(b: Books, c: Books)
    requires Sound(b) && SameAccounts(b, c)
    ensures Sound(c) && Orphans(c) == Orphans(b)
  {}

  /** Counts stay sound; orphans appear exactly where an owner is overwritten. */
  ghost predicate Kept(b: Books, e: Event, c: Books) {
    Sound(c) && Orphans(c) == Orphans(b) + Overwritten(b.sessions, e) && c.sessions == Owners(b.sessions, e)
  }

  lemma KeptPlain(b: Books, e: Event, c: Books)
    requires Sound(c) && Orphans(c) == Orphans(b) && Overwritten(b.sessions, e) == {} &&
             c.sessions == Owners(b.sessions, e)
    ensures Kept(b, e, c)
  {
    NothingMore(Orphans(b), Overwritten(b.sessions, e));
  }

  lemma NothingMore<T(!new)>(s: set<T>, none: set<T>)
    requires none == {}
    ensures s + none == s
  {}

  lemma OpenKept(b: Books, owner: Owner, id: SessionId, borrow: int)
    requires Sound(b) && id !in b.repo
    ensures Kept(b, Open(owner, id, borrow), Opened(b, owner, id, borrow))
  {
    OpenSound(b, owner, id, borrow);
  }

  lemma FinishKept(b: Books, owner: Owner, status: Status)
    requires Sound(b) && owner in b.sessions && !status.Active?
    ensures Kept(b, Finish(owner, status), Finished(b, owner, status))
  {
    FinishSound(b, owner, status);
    KeptPlain(b, Finish(owner, status), Finished(b, owner, status));
  }

  lemma TransferKept(b: Books, owner: Owner, newOwner: Owner)
    requires Sound(b) && owner in b.sessions
    ensures Kept(b, TransferAccount(owner, newOwner), Transferred(b, owner, newOwner))
  {
    TransferSound(b, owner, newOwner);
  }

  lemma CloseKept(b: Books)
    requires Sound(b)
    ensures Kept(b, CloseSessions, SessionsClosed(b))
  {
    CloseSound(b);
    KeptPlain(b, CloseSessions, SessionsClosed(b));
  }

  lemma OthersKept(b: Books, e: Event, c: Books)
    requires Sound(b) && SameAccounts(b, c) && (e.IncreaseV1? || e.ChangeV2? || e.PoolRepay? || e.CalculateStat?)
    ensures Kept(b, e, c)
  {
    OthersSound(b, c);
    KeptPlain(b, e, c);
  }

  /** Every event keeps the counts. */
  lemma StepSound(b: Books, e: Event)
    requires Sound(b) && (e.Finish? ==> !e.status.Active?) && After(b, e).Some? && (e.Open? ==> e.id !in b.repo)
    ensures Kept(b, e, After(b, e).value)
  {
    match e
    case Open(owner, id, borrow) => OpenKept(b, owner, id, borrow);
    case Finish(owner, status) => FinishKept(b, owner, status);
    case TransferAccount(owner, newOwner) => TransferKept(b, owner, newOwner);
    case CloseSessions => CloseKept(b);
    case IncreaseV1(_, amount) => OthersKept(b, e, AddBorrow(b, amount));
    case ChangeV2(_, amount) => OthersKept(b, e, if amount > 0 then AddBorrow(b, amount) else b);
    case PoolRepay(block, pnl) => OthersKept(b, e, b.(pnl := PnlAdded(b.pnl, block, pnl)));
    case CalculateStat(block) => OthersKept(b, e, StatTaken(b, block));
  }

  /** Openings carry identifiers not used before. */
  ghost predicate FreshIds(b: Books, es: seq<Event>) { NewTo(b.repo.Keys, es) }

  ghost predicate NewTo(known: set<SessionId>, es: seq<Event>) {
    && (forall i :: 0 <= i < |es| && es[i].Open? ==> es[i].id !in known)
    && forall i, j :: 0 <= i < j < |es| && es[i].Open? && es[j].Open? ==> es[i].id != es[j].id
  }

  lemma StepRepo(b: Books, e: Event)
    requires (e.Finish? ==> !e.status.Active?) && After(b, e).Some? && b.closedSessions.Keys <= ActiveIds(b)
    ensures After(b, e).value.repo.Keys == b.repo.Keys + if e.Open? then {e.id} else {}
  {
    if e.CloseSessions? { ClosedKeys(b.repo, b.closedSessions); }
    if e.Finish? { assert After(b, e).value.repo == b.repo; }
  }

  lemma ClosedKeys(repo: map<SessionId, Status>, ended: map<SessionId, Status>)
    requires ended.Keys <= ActiveIn(repo)
    ensures (repo + ended).Keys == repo.Keys + {}
  {
    assert ended.Keys <= repo.Keys;
  }

  lemma StepFresh(b: Books, es: seq<Event>)
    requires es != [] && WellFormed(es) && FreshIds(b, es) && es[0] in es && After(b, es[0]).Some? &&
             b.closedSessions.Keys <= ActiveIds(b)
    ensures FreshIds(After(b, es[0]).value, es[1..])
  {
    StepRepo(b, es[0]);
    FreshRest(b.repo.Keys, After(b, es[0]).value.repo.Keys, es);
  }

  lemma FreshRest(known: set<SessionId>, known': set<SessionId>, es: seq<Event>)
    requires es != [] && NewTo(known, es) && known' == known + if es[0].Open? then {es[0].id} else {}
    ensures NewTo(known', es[1..])
  {
    forall i | 0 <= i < |es[1..]| && es[1..][i].Open? ensures es[1..][i].id !in known' {
      assert es[1..][i] == es[i + 1];
    }
  }

  /** Main result on counts. In every reachable state the counts are sound, and the opened count is the
      number of owners plus the sessions waiting to be closed exactly when no event of the run took a
      session from an owner without ending it. */
  lemma {:induction false} RunCounts(b: Books, es: seq<Event>)
    requires WellFormed(es) && Sound(b) && FreshIds(b, es) && Run(b, es).Some?
    ensures var c := Run(b, es).value;
            Sound(c) && (Orphans(c) == {} <==> Orphans(b) == {} && NoOverwrite(b.sessions, es))
    ensures var c := Run(b, es).value;
            c.totalOpened == c.openedCount - |c.closedSessions| + c.totalClosed + c.totalLiquidated + c.totalRepaid
            && (Orphans(b) == {} ==>
              (c.openedCount == |c.sessions| + |c.closedSessions| <==> NoOverwrite(b.sessions, es)))
    decreases |es|
  {
    if es != [] {
      assert es[0] in es;
      StepSound(b, es[0]);
      StepFresh(b, es);
      RunCounts(After(b, es[0]).value, es[1..]);
    }
    CountSplits(Run(b, es).value);
  }

  /** Such a run: the second opening hides the first session, which is counted for ever. */
  lemma OverwriteMiscounts(owner: Owner, id: SessionId, other: SessionId)
    requires id != other
    ensures var b := Books(0, 0, 0, 0, 0, map[], map[], map[], None, 0, 0, 0, map[]);
            var c := After(After(b, Open(owner, id, 1)).value, Open(owner, other, 1)).value;
            Sound(b) && c.openedCount == 2 && |c.sessions| + |c.closedSessions| == 1
  {
    var b := Books(0, 0, 0, 0, 0, map[], map[], map[], None, 0, 0, 0, map[]);
    assert ActiveIds(b) == {};
    var c := After(After(b, Open(owner, id, 1)).value, Open(owner, other, 1)).value;
    assert c.sessions == map[owner := other];
  }

  // ---------------------------------------------------------------------------------------------
  // Borrowed totals.

  function BorrowOf(e: Event): int {
    match e
    case Open(_, _, borrow) => borrow
    case IncreaseV1(_, amount) => amount
    case ChangeV2(_, amount) => if amount > 0 then amount else 0
    case _ => 0
  }

  function RepayOf(e: Event): Pnl { if e.PoolRepay? then e.pnl else Pnl(0, 0, 0) }

  ghost function Part(pnl: map<Block, Pnl>, f: Pnl -> int): Block -> int { k => if k in pnl then f(pnl[k]) else 0 }

  /** The repays not yet consumed. */
  ghost function Pending(pnl: map<Block, Pnl>, f: Pnl -> int): int { SumOver(pnl.Keys, Part(pnl, f)) }

  ghost predicate Additive(f: Pnl -> int) {
    f(Pnl(0, 0, 0)) == 0 && forall p, q :: f(Plus(p, q)) == f(p) + f(q)
  }

  lemma PendingTaken(pnl: map<Block, Pnl>, block: Block, f: Pnl -> int)
    ensures Pending(pnl, f) == Pending(pnl - {block}, f) + if block in pnl then f(pnl[block]) else 0
  {
    var rest := pnl - {block};
    if block in pnl {
      SumRemove(pnl.Keys, block, Part(pnl, f));
      assert rest.Keys == pnl.Keys - {block};
      SumSame(rest.Keys, Part(pnl, f), Part(rest, f));
    } else {
      assert rest == pnl;
    }
  }

  lemma PendingAdded(pnl: map<Block, Pnl>, block: Block, p: Pnl, f: Pnl -> int)
    requires Additive(f)
    ensures Pending(PnlAdded(pnl, block, p), f) == Pending(pnl, f) + f(p)
  {
    PendingTaken(pnl, block, f);
    PendingTaken(PnlAdded(pnl, block, p), block, f);
    assert PnlAdded(pnl, block, p) - {block} == pnl - {block};
  }

  ghost const BORROWED_PART: Pnl -> int := (p: Pnl) => p.borrowed
  ghost const LOSS_PART: Pnl -> int := (p: Pnl) => p.loss
  ghost const PROFIT_PART: Pnl -> int := (p: Pnl) => p.profit

  /** Borrows seen minus repays seen, however far each has got. */
  ghost function NetBorrowed(b: Books): int { b.totalBorrowed + Waiting(b) - Pending(b.pnl, BORROWED_PART) }

  ghost function NetLosses(b: Books): int { b.totalLosses + Pending(b.pnl, LOSS_PART) }

  ghost function NetProfit(b: Books): int { b.totalProfit + Pending(b.pnl, PROFIT_PART) }

  ghost predicate NetKept(b: Books, e: Event, c: Books) {
    && NetBorrowed(c) == NetBorrowed(b) + BorrowOf(e) - RepayOf(e).borrowed
    && NetLosses(c) == NetLosses(b) + RepayOf(e).loss && NetProfit(c) == NetProfit(b) + RepayOf(e).profit
  }

  lemma RepayNet(b: Books, block: Block, p: Pnl)
    ensures NetKept(b, PoolRepay(block, p), b.(pnl := PnlAdded(b.pnl, block, p)))
  {
    PendingAdded(b.pnl, block, p, BORROWED_PART);
    PendingAdded(b.pnl, block, p, LOSS_PART);
    PendingAdded(b.pnl, block, p, PROFIT_PART);
  }

  lemma StatNet(b: Books, block: Block)
    ensures NetKept(b, CalculateStat(block), StatTaken(b, block))
  {
    PendingTaken(b.pnl, block, BORROWED_PART);
    PendingTaken(b.pnl, block, LOSS_PART);
    PendingTaken(b.pnl, block, PROFIT_PART);
  }

  ghost predicate OnlyWaiting(b: Books, e: Event, c: Books) {
    && c.pnl == b.pnl && c.totalBorrowed == b.totalBorrowed && c.totalLosses == b.totalLosses &&
      c.totalProfit == b.totalProfit
    && !e.PoolRepay? && Waiting(c) == Waiting(b) + BorrowOf(e)
  }

  lemma OthersNet(b: Books, e: Event, c: Books)
    requires OnlyWaiting(b, e, c)
    ensures NetKept(b, e, c)
  {}

  lemma StepWaits(b: Books, e: Event)
    requires (e.Finish? ==> !e.status.Active?) && After(b, e).Some? && !e.PoolRepay? && !e.CalculateStat?
    ensures OnlyWaiting(b, e, After(b, e).value)
  {
    match e
    case Open(owner, id, borrow) => OpenWaits(b, owner, id, borrow);
    case Finish(owner, status) => FinishWaits(b, owner, status);
    case TransferAccount(owner, newOwner) => assert OnlyWaiting(b, e, Transferred(b, owner, newOwner));
    case CloseSessions => assert OnlyWaiting(b, e, SessionsClosed(b));
    case IncreaseV1(_, amount) => assert OnlyWaiting(b, e, AddBorrow(b, amount));
    case ChangeV2(_, amount) => assert OnlyWaiting(b, e, if amount > 0 then AddBorrow(b, amount) else b);
  }

  lemma OpenWaits(b: Books, owner: Owner, id: SessionId, borrow: int)
    ensures OnlyWaiting(b, Open(owner, id, borrow), Opened(b, owner, id, borrow))
  {}

  lemma FinishWaits(b: Books, owner: Owner, status: Status)
    requires owner in b.sessions && !status.Active?
    ensures OnlyWaiting(b, Finish(owner, status), Finished(b, owner, status))
  {}

  /** Every event moves the net totals by exactly what it borrows or repays. */
  lemma StepBorrowed(b: Books, e: Event)
    requires (e.Finish? ==> !e.status.Active?) && After(b, e).Some?
    ensures NetKept(b, e, After(b, e).value)
  {
    match e
    case PoolRepay(block, p) => RepayNet(b, block, p);
    case CalculateStat(block) => StatNet(b, block);
    case _ =>
      StepWaits(b, e);
      OthersNet(b, e, After(b, e).value);
  }

  function Borrows(es: seq<Event>): int { if es == [] then 0 else BorrowOf(es[0]) + Borrows(es[1..]) }

  function Repays(es: seq<Event>): Pnl {
    if es == [] then Pnl(0, 0, 0) else
    Plus(RepayOf(es[0]), Repays(es[1..]))
  }

  /** Main result on totals: over every run each borrow is added once and each pool repay subtracted once. */
  lemma {:induction false} RunTotals(b: Books, es: seq<Event>)
    requires WellFormed(es) && Run(b, es).Some?
    ensures var c := Run(b, es).value;
            && NetBorrowed(c) == NetBorrowed(b) + Borrows(es) - Repays(es).borrowed
            && NetLosses(c) == NetLosses(b) + Repays(es).loss && NetProfit(c) == NetProfit(b) + Repays(es).profit
    decreases |es|
  {
    if es != [] {
      assert es[0] in es;
      StepBorrowed(b, es[0]);
      RunTotals(After(b, es[0]).value, es[1..]);
    }
  }

  /** With nothing left waiting, the totals are the plain sums. */
  lemma SettledTotals(b: Books, es: seq<Event>)
    requires WellFormed(es) && Run(b, es).Some? && Waiting(b) == 0 && b.pnl == map[]
    requires var c := Run(b, es).value; Waiting(c) == 0 && c.pnl == map[]
    ensures var c := Run(b, es).value;
            c.totalBorrowed == b.totalBorrowed + Borrows(es) - Repays(es).borrowed
            && c.totalLosses == b.totalLosses + Repays(es).loss && c.totalProfit == b.totalProfit + Repays(es).profit
  {
    RunTotals(b, es);
  }
}
