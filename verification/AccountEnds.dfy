/** How accounts end: each total counts its own kind of ending, and each session keeps the status of its own. */
module AccountEnds {
  import opened Wrappers
  import opened AccountBooks

  /** The number of accounts that the events end in a given way. */
  function Ends(es: seq<Event>, status: Status): nat {
    if es == [] then 0 else (if es[0].Finish? && es[0].status == status then 1 else 0) + Ends(es[1..], status)
  }

  function Openings(es: seq<Event>): nat {
    if es == [] then 0 else (if es[0].Open? then 1 else 0) + Openings(es[1..])
  }

  /** The owner map after the first `n` events. */
  function OwnersAfter(m: map<Owner, SessionId>, es: seq<Event>, n: nat): map<Owner, SessionId>
    requires n <= |es|
    decreases n
  {
    if n == 0 then m else OwnersAfter(Owners(m, es[0]), es[1..], n - 1)
  }

  ghost predicate Tallied(b: Books, c: Books, opens: nat, closed: nat, liquidated: nat, repaid: nat) {
    && c.totalOpened == b.totalOpened + opens && c.totalClosed == b.totalClosed + closed
    && c.totalLiquidated == b.totalLiquidated + liquidated && c.totalRepaid == b.totalRepaid + repaid
  }

  lemma StepTallied(b: Books, e: Event)
    requires (e.Finish? ==> !e.status.Active?) && After(b, e).Some?
    ensures Tallied(b, After(b, e).value, Openings([e]), Ends([e], Closed), Ends([e], Liquidated), Ends([e], Repaid))
  {
    assert [e][1..] == [];
    match e
    case Open(owner, id, borrow) => assert Tallied(b, Opened(b, owner, id, borrow), 1, 0, 0, 0);
    case Finish(owner, status) => FinishTallied(b, owner, status);
    case TransferAccount(owner, newOwner) => assert Tallied(b, Transferred(b, owner, newOwner), 0, 0, 0, 0);
    case CloseSessions => assert Tallied(b, SessionsClosed(b), 0, 0, 0, 0);
    case CalculateStat(block) => assert Tallied(b, StatTaken(b, block), 0, 0, 0, 0);
    case _ =>
  }

  lemma FinishTallied(b: Books, owner: Owner, status: Status)
    requires owner in b.sessions && !status.Active?
    ensures Tallied(b, Finished(b, owner, status), 0, if status == Closed then 1 else 0,
                    if status == Liquidated then 1 else 0, if status == Repaid then 1 else 0)
  {}

  lemma FirstEnds(es: seq<Event>)
    requires es != []
    ensures Openings(es) == Openings([es[0]]) + Openings(es[1..])
    ensures forall status :: Ends(es, status) == Ends([es[0]], status) + Ends(es[1..], status)
  {
    assert [es[0]][1..] == [];
  }

  /** Each total counts the events of its own kind. */
  lemma {:induction false} RunTallied(b: Books, es: seq<Event>)
    requires WellFormed(es) && Run(b, es).Some?
    ensures Tallied(b, Run(b, es).value, Openings(es), Ends(es, Closed), Ends(es, Liquidated), Ends(es, Repaid))
    decreases |es|
  {
    if es != [] {
      assert es[0] in es;
      StepTallied(b, es[0]);
      RunTallied(After(b, es[0]).value, es[1..]);
      FirstEnds(es);
    }
  }
  lemma {:induction false} RunOwners(b: Books, es: seq<Event>)
    requires WellFormed(es) && Sound(b) && FreshIds(b, es) && Run(b, es).Some?
    ensures Run(b, es).value.sessions == OwnersAfter(b.sessions, es, |es|)
    decreases |es|
  {
    if es != [] {
      assert es[0] in es;
      StepSound(b, es[0]);
      StepFresh(b, es);
      assert After(b, es[0]).value.sessions == Owners(b.sessions, es[0]);
      RunOwners(After(b, es[0]).value, es[1..]);
    }
  }

  lemma NotPending(b: Books, id: SessionId)
    requires Sound(b) && id in b.repo && !b.repo[id].Active?
    ensures id !in b.closedSessions
  {
    assert id !in ActiveIds(b);
    assert id !in b.closedSessions.Keys;
  }

  lemma RepoAfter(b: Books, e: Event)
    requires (e.Finish? ==> !e.status.Active?) && After(b, e).Some?
    ensures After(b, e).value.repo ==
            if e.Open? then b.repo[e.id := Active] else if e.CloseSessions? then b.repo + b.closedSessions else b.repo
  {
    match e
    case Finish(owner, status) => FinishRepo(b, owner, status);
    case _ =>
  }

  lemma FinishRepo(b: Books, owner: Owner, status: Status)
    requires owner in b.sessions && !status.Active?
    ensures Finished(b, owner, status).repo == b.repo
  {}

  /** A recorded end is never overwritten. */
  lemma StepStatus(b: Books, e: Event, id: SessionId)
    requires Sound(b) && (e.Finish? ==> !e.status.Active?) && After(b, e).Some? && (e.Open? ==> e.id !in b.repo)
    requires id in b.repo && !b.repo[id].Active?
    ensures var c := After(b, e).value; id in c.repo && c.repo[id] == b.repo[id]
  {
    NotPending(b, id);
    RepoAfter(b, e);
  }

  lemma {:induction false} StatusStays(b: Books, es: seq<Event>, id: SessionId)
    requires WellFormed(es) && Sound(b) && FreshIds(b, es) && Run(b, es).Some? && id in b.repo && !b.repo[id].Active?
    ensures var c := Run(b, es).value; id in c.repo && c.repo[id] == b.repo[id]
    decreases |es|
  {
    if es != [] {
      assert es[0] in es;
      StepSound(b, es[0]);
      StepFresh(b, es);
      StepStatus(b, es[0], id);
      StatusStays(After(b, es[0]).value, es[1..], id);
    }
  }

  /** A pending end stays pending until the sessions are closed, and is recorded then. */
  lemma StepPending(b: Books, e: Event, id: SessionId)
    requires Sound(b) && (e.Finish? ==> !e.status.Active?) && After(b, e).Some? && id in b.closedSessions
    ensures var c := After(b, e).value;
            if e.CloseSessions? then id in c.repo && c.repo[id] == b.closedSessions[id] && !c.repo[id].Active?
            else id in c.closedSessions && c.closedSessions[id] == b.closedSessions[id]
  {
    if e.Finish? { FinishPending(b, e.owner, e.status, id); }
  }

  lemma FinishPending(b: Books, owner: Owner, status: Status, id: SessionId)
    requires Sound(b) && owner in b.sessions && !status.Active? && id in b.closedSessions
    ensures var c := Finished(b, owner, status); id in c.closedSessions && c.closedSessions[id] == b.closedSessions[id]
  {
    assert b.sessions[owner] in b.sessions.Values;
  }

  lemma {:induction false} PendingEnds(b: Books, es: seq<Event>, id: SessionId)
    requires WellFormed(es) && Sound(b) && FreshIds(b, es) && Run(b, es).Some? && id in b.closedSessions
    requires CloseSessions in es
    ensures var c := Run(b, es).value; id in c.repo && c.repo[id] == b.closedSessions[id]
    decreases |es|
  {
    assert es[0] in es;
    StepSound(b, es[0]);
    StepFresh(b, es);
    StepPending(b, es[0], id);
    if es[0].CloseSessions? {
      StatusStays(After(b, es[0]).value, es[1..], id);
    } else {
      PendingEnds(After(b, es[0]).value, es[1..], id);
    }
  }

  /** Main result on endings. The session that an owner has when it is closed, liquidated or repaid ends
      with just that status once sessions have been closed, whatever else happens. */
  lemma {:induction false} EndsAsFinished(b: Books, es: seq<Event>, n: nat)
    requires WellFormed(es) && Sound(b) && FreshIds(b, es) && Run(b, es).Some?
    requires n < |es| && es[n].Finish? && CloseSessions in es[n..]
    ensures var owners := OwnersAfter(b.sessions, es, n);
            && es[n].owner in owners
            && var c := Run(b, es).value; owners[es[n].owner] in c.repo && c.repo[owners[es[n].owner]] == es[n].status
    decreases n
  {
    assert es[0] in es;
    StepSound(b, es[0]);
    StepFresh(b, es);
    if n == 0 {
      assert es[0..] == es && CloseSessions in es[1..];
      PendingEnds(After(b, es[0]).value, es[1..], b.sessions[es[0].owner]);
    } else {
      assert es[n..] == es[1..][n - 1..];
      EndsAsFinished(After(b, es[0]).value, es[1..], n - 1);
    }
  }
}
