/** The credit manager's handlers, which keep the account books in place. */
module CreditManager {

  import opened Wrappers
  import opened AccountBooks

  /** Repays reported by the pool, merged per block until the manager consumes them. */
  class PnlCM {
    var curPnl: map<Block, Pnl>

    constructor ()
      ensures curPnl == map[]
    {
      curPnl := map[];
    }

    method Get(block: Block) returns (r: Option<Pnl>)
      modifies this
      ensures r == (if block in old(curPnl) then Some(old(curPnl)[block]) else None) && curPnl == old(curPnl) - {block}
    {
      r := if block in curPnl then Some(curPnl[block]) else None;
      curPnl := curPnl - {block};
    }

    method Set(block: Block, pnl: Pnl)
      modifies this
      ensures curPnl == PnlAdded(old(curPnl), block, pnl)
    {
      var merged := pnl;
      if block in curPnl {
        var oldPnl := curPnl[block];
        merged := Pnl(oldPnl.profit + pnl.profit, oldPnl.loss + pnl.loss, oldPnl.borrowed + pnl.borrowed);
      }
      curPnl := curPnl[block := merged];
    }
  }

  /** The entries of `m` for the keys in `done`. */
  ghost function Only(m: map<SessionId, Status>, done: set<SessionId>): map<SessionId, Status> {
    map k | k in m && k in done :: m[k]
  }

  /** The books while closed sessions are being ended, those in `todo` still to come. */
  ghost function PartlyClosed(was: Books, todo: set<SessionId>): Books {
    var m := was.closedSessions;
    was.(openedCount := was.openedCount - |m.Keys - todo|, repo := was.repo + Only(m, m.Keys - todo))
  }

  ghost function OneClosed(b: Books, id: SessionId): Books
    requires id in b.closedSessions
  {
    b.(openedCount := b.openedCount - 1, repo := b.repo[id := b.closedSessions[id]])
  }

  lemma OnlyMore(repo: map<SessionId, Status>, m: map<SessionId, Status>, todo: set<SessionId>, k: SessionId)
    requires todo <= m.Keys && k in todo
    ensures repo + Only(m, m.Keys - (todo - {k})) == (repo + Only(m, m.Keys - todo))[k := m[k]]
    ensures |m.Keys - (todo - {k})| == |m.Keys - todo| + 1
  {
    assert m.Keys - (todo - {k}) == m.Keys - todo + {k};
  }

  lemma ClosedMore(was: Books, todo: set<SessionId>, id: SessionId)
    requires todo <= was.closedSessions.Keys && id in todo
    ensures PartlyClosed(was, todo - {id}) == OneClosed(PartlyClosed(was, todo), id)
  {
    OnlyMore(was.repo, was.closedSessions, todo, id);
  }

  lemma ClosedNone(was: Books)
    ensures PartlyClosed(was, was.closedSessions.Keys) == was
  {
    var m := was.closedSessions;
    assert m.Keys - m.Keys == {} && Only(m, {}) == map[] && was.repo + map[] == was.repo;
  }

  lemma ClosedAll(was: Books)
    ensures PartlyClosed(was, {}).(closedSessions := map[]) == SessionsClosed(was)
  {
    var m := was.closedSessions;
    assert m.Keys - {} == m.Keys && Only(m, m.Keys) == m && |m.Keys| == |m|;
  }

  class Manager {
    var openedAccountsCount: int
    var totalOpenedAccounts: int
    var totalClosedAccounts: int
    var totalLiquidatedAccounts: int
    var totalRepaidAccounts: int
    var sessions: map<Owner, SessionId>
    var closedSessions: map<SessionId, Status>
    /** The status of every session ever opened. */
    var repo: map<SessionId, Status>
    var borrowedAmountForBlock: Option<int>
    var totalBorrowed: int
    var totalLosses: int
    var totalProfit: int
    const pnlOnCM: PnlCM

    ghost function View(): Books
      reads this, pnlOnCM
    {
      Books(openedAccountsCount, totalOpenedAccounts, totalClosedAccounts, totalLiquidatedAccounts, totalRepaidAccounts,
            sessions, closedSessions, repo, borrowedAmountForBlock, totalBorrowed, totalLosses, totalProfit,
              pnlOnCM.curPnl)
    }

    constructor (pnl: PnlCM)
      requires pnl.curPnl == map[]
      ensures pnlOnCM == pnl && Sound(View()) && Orphans(View()) == {} && NetBorrowed(View()) == 0
    {
      openedAccountsCount, totalOpenedAccounts, totalClosedAccounts, totalLiquidatedAccounts, totalRepaidAccounts := 0,
        0, 0, 0, 0;
      sessions, closedSessions, repo := map[], map[], map[];
      borrowedAmountForBlock, totalBorrowed, totalLosses, totalProfit := None, 0, 0, 0;
      pnlOnCM := pnl;
      new;
      EmptyBooks(View());
    }

    /** Adds to the borrows of the block; a negative amount stops the program. */
    method AddBorrowAmountForBlock(amount: int) returns (ok: bool)
      modifies this
      ensures ok <==> amount >= 0
      ensures View() == if ok then AddBorrow(old(View()), amount) else old(View())
    {
      if amount < 0 { return false; }
      if borrowedAmountForBlock.None? { borrowedAmountForBlock := Some(0); }
      borrowedAmountForBlock := Some(borrowedAmountForBlock.value + amount);
      ok := true;
    }

    method GetBorrowAmountForBlockAndClear() returns (last: int)
      modifies this
      ensures last == Waiting(old(View()))
      ensures View() == old(View()).(borrowedForBlock := if old(View()).borrowedForBlock.None? then None else Some(0))
    {
      if borrowedAmountForBlock.None? { return 0; }
      last := borrowedAmountForBlock.value;
      borrowedAmountForBlock := Some(0);
    }

    method OnOpenCreditAccount(owner: Owner, id: SessionId, borrow: int) returns (ok: bool)
      modifies this
      ensures ok <==> borrow >= 0
      ensures ok ==> sessions == old(sessions)[owner := id] && repo == old(repo)[id := Active]
      ensures ok ==> openedAccountsCount == old(openedAccountsCount) + 1
      ensures ok ==> totalOpenedAccounts == old(totalOpenedAccounts) + 1
      ensures ok ==> View() == Opened(old(View()), owner, id, borrow)
    {
      totalOpenedAccounts := totalOpenedAccounts + 1;
      openedAccountsCount := openedAccountsCount + 1;
      ok := AddBorrowAmountForBlock(borrow);
      if ok {
        sessions := sessions[owner := id];
        repo := repo[id := Active];
      }
    }

    /** Closing, liquidating and repaying differ in the counter and in the status to be recorded. */
    method OnFinish(owner: Owner, status: Status) returns (ok: bool)
      requires !status.Active?
      modifies this
      ensures ok <==> owner in old(sessions)
      ensures ok ==> sessions == old(sessions) - {owner} && repo == old(repo)
      ensures ok ==> closedSessions == old(closedSessions)[old(sessions)[owner] := status]
      ensures totalClosedAccounts == old(totalClosedAccounts) + if status == Closed then 1 else 0
      ensures totalLiquidatedAccounts == old(totalLiquidatedAccounts) + if status == Liquidated then 1 else 0
      ensures totalRepaidAccounts == old(totalRepaidAccounts) + if status == Repaid then 1 else 0
      ensures ok ==> View() == Finished(old(View()), owner, status)
    {
      match status {
        case Closed => totalClosedAccounts := totalClosedAccounts + 1;
        case Liquidated => totalLiquidatedAccounts := totalLiquidatedAccounts + 1;
        case Repaid => totalRepaidAccounts := totalRepaidAccounts + 1;
      }
      if owner !in sessions { return false; }
      closedSessions := closedSessions[sessions[owner] := status];
      sessions := sessions - {owner};
      ok := true;
    }

    method OnTransferAccount(owner: Owner, newOwner: Owner) returns (ok: bool)
      modifies this
      ensures ok <==> owner in old(sessions)
      ensures ok ==> sessions == (old(sessions) - {owner})[newOwner := old(sessions)[owner]]
      ensures ok ==> View() == Transferred(old(View()), owner, newOwner)
    {
      if owner !in sessions { return false; }
      var id := sessions[owner];
      sessions := sessions - {owner};
      sessions := sessions[newOwner := id];
      ok := true;
    }

    method OnIncreaseBorrowedAmount(owner: Owner, amount: int) returns (ok: bool)
      modifies this
      ensures ok <==> After(old(View()), IncreaseV1(owner, amount)).Some?
      ensures ok ==> Some(View()) == After(old(View()), IncreaseV1(owner, amount))
    {
      ok := AddBorrowAmountForBlock(amount);
      ok := ok && owner in sessions;
    }

    method OnIncreaseBorrowedAmountV2(owner: Owner, amount: int) returns (ok: bool)
      modifies this
      ensures ok <==> After(old(View()), ChangeV2(owner, amount)).Some?
      ensures ok ==> Some(View()) == After(old(View()), ChangeV2(owner, amount))
    {
      if amount > 0 { var _ := AddBorrowAmountForBlock(amount); }
      ok := owner in sessions;
    }

    /** Ends the sessions closed since the last call, in whatever order the map is walked. */
    method FetchFromDCForChangedSessions()
      modifies this
      ensures openedAccountsCount == old(openedAccountsCount) - |old(closedSessions)| && closedSessions == map[]
      ensures repo == old(repo) + old(closedSessions) && sessions == old(sessions)
      ensures View() == SessionsClosed(old(View()))
    {
      var todo := closedSessions.Keys;
      ghost var was := View();
      ClosedNone(was);
      while todo != {}
        invariant todo <= was.closedSessions.Keys && View() == PartlyClosed(was, todo)
        decreases todo
      {
        var id :| id in todo;
        ClosedMore(was, todo, id);
        CloseSession(id);
        todo := todo - {id};
      }
      ClosedAll(was);
      closedSessions := map[];
    }

    method CloseSession(id: SessionId)
      requires id in closedSessions
      modifies this
      ensures View() == OneClosed(old(View()), id)
    {
      openedAccountsCount := openedAccountsCount - 1;
      repo := repo[id := closedSessions[id]];
    }

    /** Folds the block's borrows and the repays reported for the block into the totals. */
    method CalculateCMStat(block: Block)
      modifies this, pnlOnCM
      ensures View() == StatTaken(old(View()), block)
    {
      var borrowed := GetBorrowAmountForBlockAndClear();
      totalBorrowed := totalBorrowed + borrowed;
      var pnl := pnlOnCM.Get(block);
      if pnl.Some? {
        totalBorrowed := totalBorrowed - pnl.value.borrowed;
        totalLosses := totalLosses + pnl.value.loss;
        totalProfit := totalProfit + pnl.value.profit;
      }
    }

    method Handle(e: Event) returns (ok: bool)
      requires e.Finish? ==> !e.status.Active?
      modifies this, pnlOnCM
      ensures ok <==> After(old(View()), e).Some?
      ensures ok ==> Some(View()) == After(old(View()), e)
    {
      ok := true;
      match e {
        case Open(owner, id, borrow) => ok := OnOpenCreditAccount(owner, id, borrow);
        case Finish(owner, status) => ok := OnFinish(owner, status);
        case TransferAccount(owner, newOwner) => ok := OnTransferAccount(owner, newOwner);
        case IncreaseV1(owner, amount) => ok := OnIncreaseBorrowedAmount(owner, amount);
        case ChangeV2(owner, amount) => ok := OnIncreaseBorrowedAmountV2(owner, amount);
        case PoolRepay(block, pnl) => pnlOnCM.Set(block, pnl);
        case CloseSessions => FetchFromDCForChangedSessions();
        case CalculateStat(block) => CalculateCMStat(block);
      }
    }

    /** A whole run: stops where an event fails, otherwise leaves the books of the run. */
    method Replay(es: seq<Event>) returns (ok: bool)
      requires WellFormed(es)
      modifies this, pnlOnCM
      ensures ok <==> Run(old(View()), es).Some?
      ensures ok ==> Some(View()) == Run(old(View()), es)
      ensures ok && Sound(old(View())) && FreshIds(old(View()), es) ==> Sound(View())
    {
      assert es[0..] == es;
      for i := 0 to |es|
        invariant Run(View(), es[i..]) == Run(old(View()), es)
      {
        assert es[i] in es && es[i..][1..] == es[i + 1..];
        ok := Handle(es[i]);
        if !ok { return false; }
      }
      if Sound(old(View())) && FreshIds(old(View()), es) { RunCounts(old(View()), es); }
      ok := true;
    }
  }

  lemma EmptyBooks(b: Books)
    requires b == Books(0, 0, 0, 0, 0, map[], map[], map[], None, 0, 0, 0, map[])
    ensures Sound(b) && Orphans(b) == {} && NetBorrowed(b) == 0
  {
    assert ActiveIds(b) == {};
  }
}
