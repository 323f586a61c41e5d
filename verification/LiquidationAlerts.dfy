/** The low-health alert: which debts are remembered, and when the alert is sent. */
module LiquidationAlerts {

  import opened Wrappers

  type SessionId = nat

  datatype Debt = Debt(session: SessionId, block: int, healthFactor: int, totalValue: int, debt: int)

  /** First block of the current unhealthy streak, and whether its alert has been sent. */
  datatype LiquidableAccount = LiquidableAccount(blockNum: int, notified: bool)

  /** What the engine remembers of one session. */
  datatype Memory = Memory(lastDebt: Option<Debt>, account: Option<LiquidableAccount>)

  const BLANK := Memory(None, None)

  const HEALTHY := 10000
  const ALERT_AFTER := 20

  predicate Healthy(d: Debt) { d.healthFactor >= HEALTHY }

  /** A processed debt; `forced` debts are always stored. */
  datatype Input = Input(debt: Debt, forced: bool)

  /** Throttling, and the comparison of amounts it uses. */
  datatype Config = Config(throttle: bool, minBlocks: int, differs: (int, int) -> bool)

  /** Whether the new debt replaces the stored one. */
  predicate Replaces(cfg: Config, last: Option<Debt>, i: Input) {
    || !cfg.throttle
    || last.None? || i.forced
    || i.debt.block - last.value.block >= cfg.minBlocks
    || cfg.differs(last.value.totalValue, i.debt.totalValue)
    || cfg.differs(last.value.debt, i.debt.debt)
    || Healthy(i.debt) != Healthy(last.value)
  }

  function Notified(a: Option<LiquidableAccount>): bool { a.Some? && a.value.notified }

  /** The tracker entry after comparing the new debt with the stored one. */
  function Tracked(m: Memory, d: Debt): Option<LiquidableAccount> {
    if m.lastDebt.None? || Healthy(m.lastDebt.value) == Healthy(d) then m.account
    else if Healthy(d) then Some(LiquidableAccount(0, false))
    else Some(LiquidableAccount(d.block, Notified(m.account)))
  }

  predicate Overdue(a: Option<LiquidableAccount>, d: Debt) { a.Some? && d.block - a.value.blockNum >= ALERT_AFTER }

  /** Whether processing `d` sends the low-health alert. */
  predicate Alerts(m: Memory, d: Debt) {
    !Healthy(d) && Overdue(Tracked(m, d), d) && !Notified(Tracked(m, d))
  }

  /** Whether processing `d` sends the all-clear. */
  predicate AllClear(m: Memory, d: Debt) {
    m.lastDebt.Some? && !Healthy(m.lastDebt.value) && Healthy(d) && Overdue(m.account, d)
  }

  function Next(cfg: Config, m: Memory, i: Input): Memory {
    var a := Tracked(m, i.debt);
    Memory(if Replaces(cfg, m.lastDebt, i) then Some(i.debt) else m.lastDebt,
           if Alerts(m, i.debt) then Some(a.value.(notified := true)) else a)
  }

  // ---------------------------------------------------------------------------------------------
  // The declarative reading: streaks of unhealthy debts.

  /** Start of the unhealthy streak that the first `n` debts end in; `n` if they end in a healthy one. */
  function StreakStart(ds: seq<Debt>, n: nat): (j: nat)
    requires n <= |ds|
    ensures j <= n
    ensures forall k :: j <= k < n ==> ds[k].healthFactor < 10000
    ensures j > 0 ==> ds[j - 1].healthFactor >= 10000
  {
    if n == 0 then 0 else if Healthy(ds[n - 1]) then n else StreakStart(ds, n - 1)
  }

  predicate LateAt(ds: seq<Debt>, j: nat, k: nat)
    requires j < |ds| && k < |ds|
  {
    ds[k].block - ds[j].block >= 20
  }

  predicate LateBefore(ds: seq<Debt>, j: nat, n: nat)
    requires j < |ds| && n <= |ds|
  {
    exists k :: j <= k < n && LateAt(ds, j, k)
  }

  /** The alert is due at debt `i`: unhealthy, in a streak that followed a healthy debt, 20 or more
      blocks into it, and no earlier debt of the streak was. */
  predicate AlertDue(ds: seq<Debt>, i: nat)
    requires i < |ds|
  {
    var j := StreakStart(ds, i + 1);
    0 < j <= i && LateAt(ds, j, i) && !LateBefore(ds, j, i)
  }

  /** The all-clear is due at debt `i`: healthy again after a streak that began 20 or more blocks ago. */
  predicate AllClearDue(ds: seq<Debt>, i: nat)
    requires i < |ds|
  {
    var j := StreakStart(ds, i);
    ds[i].healthFactor >= 10000 && 0 < j < i && LateAt(ds, j, i)
  }

  /** The memory after the first `n` debts: the stored debt is on the same side of the health limit
      as the latest one, and the tracker holds the start of the streak. */
  ghost predicate Remembers(ds: seq<Debt>, n: nat, m: Memory)
    requires n <= |ds|
  {
    && (m.lastDebt.Some? <==> n > 0)
    && (n == 0 ==> m.account == None)
    && (n > 0 ==> Healthy(m.lastDebt.value) == Healthy(ds[n - 1]))
    && var j := StreakStart(ds, n);
       if j == n then !Notified(m.account)
       else if j == 0 then m.account == None
       else m.account == Some(LiquidableAccount(ds[j].block, LateBefore(ds, j, n)))
  }

  lemma NextRemembers(cfg: Config, ds: seq<Debt>, n: nat, m: Memory, forced: bool)
    requires n < |ds| && Remembers(ds, n, m)
    ensures Remembers(ds, n + 1, Next(cfg, m, Input(ds[n], forced)))
    ensures Alerts(m, ds[n]) <==> AlertDue(ds, n)
    ensures AllClear(m, ds[n]) <==> AllClearDue(ds, n)
  {
    var d, j, j' := ds[n], StreakStart(ds, n), StreakStart(ds, n + 1);
    if !Healthy(d) {
      assert j' == j;
      if 0 < j < n {
        assert LateBefore(ds, j, n + 1) <==> LateBefore(ds, j, n) || LateAt(ds, j, n);
      } else if j == n > 0 {
        assert !LateAt(ds, j, n) && !LateBefore(ds, j, n + 1) && !LateBefore(ds, j, n);
      }
    }
  }

  /** Every debt of an unhealthy streak belongs to the same streak. */
  lemma {:induction false} SameStreak(ds: seq<Debt>, i: nat, n: nat)
    requires i <= n <= |ds| && StreakStart(ds, n) < i
    ensures StreakStart(ds, i) == StreakStart(ds, n)
    decreases n - i
  {
    if i < n { SameStreak(ds, i + 1, n); }
  }

  lemma {:induction false} FirstLate(ds: seq<Debt>, j: nat, n: nat) returns (k: nat)
    requires j < n <= |ds| && LateBefore(ds, j, n)
    ensures j <= k < n && LateAt(ds, j, k) && !LateBefore(ds, j, k)
  {
    k := n - 1;
    if LateBefore(ds, j, n - 1) { k := FirstLate(ds, j, n - 1); }
  }

  /** A streak that followed a healthy debt has exactly one alert once it is 20 blocks old, and none before. */
  lemma OneAlertPerStreak(ds: seq<Debt>, n: nat)
    requires n <= |ds| && 0 < StreakStart(ds, n) < n
    ensures var j := StreakStart(ds, n);
            && (LateBefore(ds, j, n) <==> exists i :: j <= i < n && AlertDue(ds, i))
            && (forall i, k :: j <= i < k < n && AlertDue(ds, i) ==> !AlertDue(ds, k))
  {
    var j := StreakStart(ds, n);
    forall i | j < i <= n ensures StreakStart(ds, i) == j { SameStreak(ds, i, n); }
    if LateBefore(ds, j, n) {
      var k := FirstLate(ds, j, n);
      assert AlertDue(ds, k);
    }
  }

  // ---------------------------------------------------------------------------------------------
  // All sessions interleaved.

  /** The debts of session `s` among the first `n` inputs. */
  function Of(inputs: seq<Input>, s: SessionId, n: nat): seq<Debt>
    requires n <= |inputs|
  {
    if n == 0 then []
    else Of(inputs, s, n - 1) + (if inputs[n - 1].debt.session == s then [inputs[n - 1].debt] else [])
  }

  class Engine {
    var lastDebts: map<SessionId, Debt>
    var liquidableBlockTracker: map<SessionId, LiquidableAccount>
    var debts: seq<Debt>
    const config: Config

    ghost function View(s: SessionId): Memory
      reads this
    {
      Memory(if s in lastDebts then Some(lastDebts[s]) else None,
             if s in liquidableBlockTracker then Some(liquidableBlockTracker[s]) else None)
    }

    constructor (config: Config)
      ensures this.config == config && debts == [] && forall s :: View(s) == BLANK
    {
      lastDebts, liquidableBlockTracker, debts := map[], map[], [];
      this.config := config;
    }

    method AddLiquidableAccount(s: SessionId, newBlockNum: int)
      modifies this`liquidableBlockTracker
      ensures liquidableBlockTracker ==
              old(liquidableBlockTracker)[s := LiquidableAccount(newBlockNum, Notified(old(View(s)).account))]
    {
      if s !in liquidableBlockTracker {
        liquidableBlockTracker := liquidableBlockTracker[s := LiquidableAccount(newBlockNum, false)];
      } else {
        liquidableBlockTracker := liquidableBlockTracker[s := liquidableBlockTracker[s].(blockNum := newBlockNum)];
      }
    }

    method NotifiedIfLiquidable(s: SessionId, notified: bool)
      requires s in liquidableBlockTracker
      modifies this`liquidableBlockTracker
      ensures liquidableBlockTracker ==
              old(liquidableBlockTracker)[s := old(liquidableBlockTracker)[s].(notified := notified)]
    {
      liquidableBlockTracker := liquidableBlockTracker[s := liquidableBlockTracker[s].(notified := notified)];
    }

    /** Compares a debt with the stored one; reports which messages are sent. */
    method LiquidationCheck(debt: Debt) returns (alert: bool, clear: bool)
      modifies this`liquidableBlockTracker
      ensures alert <==> Alerts(old(View(debt.session)), debt)
      ensures clear <==> AllClear(old(View(debt.session)), debt)
      ensures View(debt.session).account == Next(config, old(View(debt.session)), Input(debt, false)).account
      ensures forall s :: s != debt.session ==> View(s) == old(View(s))
    {
      var s := debt.session;
      alert, clear := false, false;
      if s in lastDebts {
        var lastDebt := lastDebts[s];
        if !(lastDebt.healthFactor >= 10000) && debt.healthFactor >= 10000 {
          if s in liquidableBlockTracker && debt.block - liquidableBlockTracker[s].blockNum >= 20 {
            clear := true;
          }
          AddLiquidableAccount(s, 0);
          NotifiedIfLiquidable(s, false);
        } else if lastDebt.healthFactor >= 10000 && !(debt.healthFactor >= 10000) {
          AddLiquidableAccount(s, debt.block);
        }
      }
      if !(debt.healthFactor >= 10000) && s in liquidableBlockTracker
         && debt.block - liquidableBlockTracker[s].blockNum >= 20 && !liquidableBlockTracker[s].notified {
        NotifiedIfLiquidable(s, true);
        alert := true;
      }
    }

    /** Stores a debt unless throttling drops it. */
    method AddDebt(debt: Debt, forceAdd: bool)
      modifies this`lastDebts, this`debts
      ensures !config.throttle || debt.session !in old(lastDebts) || forceAdd ==>
                lastDebts == old(lastDebts)[debt.session := debt] && debts == old(debts) + [debt]
      ensures config.throttle && debt.session in old(lastDebts) && !forceAdd ==>
                var last := old(lastDebts)[debt.session];
                if || config.minBlocks <= debt.block - last.block
                   || config.differs(last.totalValue, debt.totalValue) || config.differs(last.debt, debt.debt)
                   || (debt.healthFactor < 10000 <= last.healthFactor) ||
                     (last.healthFactor < 10000 <= debt.healthFactor)
                then lastDebts == old(lastDebts)[debt.session := debt] && debts == old(debts) + [debt]
                else lastDebts == old(lastDebts) && debts == old(debts)
      ensures var last := old(View(debt.session)).lastDebt;
              if Replaces(config, last, Input(debt, forceAdd))
              then lastDebts == old(lastDebts)[debt.session := debt] && debts == old(debts) + [debt]
              else lastDebts == old(lastDebts) && debts == old(debts)
    {
      var add := true;
      if config.throttle {
        if debt.session !in lastDebts || forceAdd {
        } else {
          var last := lastDebts[debt.session];
          add := debt.block - last.block >= config.minBlocks
                 || config.differs(last.totalValue, debt.totalValue)
                 || config.differs(last.debt, debt.debt)
                 || (debt.healthFactor >= 10000) != (last.healthFactor >= 10000);
        }
      }
      if add {
        lastDebts := lastDebts[debt.session := debt];
        debts := debts + [debt];
      }
    }

    /** One processed debt: first the check, then the store. */
    method Handle(i: Input) returns (alert: bool, clear: bool)
      modifies this
      ensures alert <==> Alerts(old(View(i.debt.session)), i.debt)
      ensures clear <==> AllClear(old(View(i.debt.session)), i.debt)
      ensures View(i.debt.session) == Next(config, old(View(i.debt.session)), i)
      ensures forall s :: s != i.debt.session ==> View(s) == old(View(s))
    {
      alert, clear := LiquidationCheck(i.debt);
      AddDebt(i.debt, i.forced);
    }

    /** After the first `n` inputs every session is remembered as its own debts demand. */
    ghost predicate Recalls(inputs: seq<Input>, n: nat)
      requires n <= |inputs|
      reads this
    {
      forall s :: RecallsOf(inputs, n, s, View(s))
    }

    method HandleNext(ghost inputs: seq<Input>, ghost n: nat, i: Input) returns (alert: bool, clear: bool)
      requires n < |inputs| && i == inputs[n] && Recalls(inputs, n)
      modifies this
      ensures Recalls(inputs, n + 1)
      ensures alert == AlertDueAt(inputs, n) && clear == AllClearDueAt(inputs, n)
    {
      NextOf(config, inputs, n, View(i.debt.session));
      alert, clear := Handle(i);
      forall t ensures RecallsOf(inputs, n + 1, t, View(t)) {
        if t != i.debt.session {
          assert old(RecallsOf(inputs, n, t, View(t)));
          OtherSession(inputs, n, t, View(t));
        }
      }
    }

    /** A new engine recalls the empty past. */
    lemma NothingRecalled(inputs: seq<Input>)
      requires forall s :: View(s) == BLANK
      ensures Recalls(inputs, 0)
    {
      forall s ensures RecallsOf(inputs, 0, s, View(s)) { assert View(s) == BLANK; }
    }

    /** Main result. The engine recalls the first `k` debts, none if it is new, and handles the others. For
        every interleaving of sessions, throttled or not, a low-health alert is sent at exactly the debts
        where one is due, and so is the all-clear. */
    method HandleAll(inputs: seq<Input>, k: nat) returns (alerts: seq<bool>, clears: seq<bool>)
      requires k <= |inputs| && Recalls(inputs, k)
      modifies this
      ensures alerts == AlertsDue(inputs, k, |inputs|) && clears == ClearsDue(inputs, k, |inputs|)
      ensures Recalls(inputs, |inputs|)
    {
      alerts, clears := [], [];
      var n := k;
      while n < |inputs|
        invariant k <= n <= |inputs| && Recalls(inputs, n)
        invariant alerts == AlertsDue(inputs, k, n) && clears == ClearsDue(inputs, k, n)
      {
        var alert, clear := HandleNext(inputs, n, inputs[n]);
        alerts, clears := alerts + [alert], clears + [clear];
        n := n + 1;
      }
    }
  }

  lemma OfGrows(inputs: seq<Input>, n: nat)
    requires n < |inputs|
    ensures var s := inputs[n].debt.session; Of(inputs, s, n + 1) == Of(inputs, s, n) + [inputs[n].debt]
  {}

  /** Whether an alert is due at input `i`, judged by the debts of its own session. */
  ghost predicate AlertDueAt(inputs: seq<Input>, i: nat)
    requires i < |inputs|
  {
    OfGrows(inputs, i);
    var ds := Of(inputs, inputs[i].debt.session, i + 1);
    AlertDue(ds, |ds| - 1)
  }

  ghost predicate AllClearDueAt(inputs: seq<Input>, i: nat)
    requires i < |inputs|
  {
    OfGrows(inputs, i);
    var ds := Of(inputs, inputs[i].debt.session, i + 1);
    AllClearDue(ds, |ds| - 1)
  }

  /** For each input from `k` up to `n`, whether its alert is due; and the same for the all-clear. */
  ghost function AlertsDue(inputs: seq<Input>, k: nat, n: nat): (r: seq<bool>)
    requires k <= n <= |inputs|
    ensures |r| == n - k
  {
    if n == k then [] else AlertsDue(inputs, k, n - 1) + [AlertDueAt(inputs, n - 1)]
  }

  ghost function ClearsDue(inputs: seq<Input>, k: nat, n: nat): (r: seq<bool>)
    requires k <= n <= |inputs|
    ensures |r| == n - k
  {
    if n == k then [] else ClearsDue(inputs, k, n - 1) + [AllClearDueAt(inputs, n - 1)]
  }

  ghost predicate RecallsOf(inputs: seq<Input>, n: nat, s: SessionId, m: Memory)
    requires n <= |inputs|
  {
    Remembers(Of(inputs, s, n), |Of(inputs, s, n)|, m)
  }

  lemma OtherSession(inputs: seq<Input>, n: nat, s: SessionId, m: Memory)
    requires n < |inputs| && s != inputs[n].debt.session && RecallsOf(inputs, n, s, m)
    ensures RecallsOf(inputs, n + 1, s, m)
  {
    assert Of(inputs, s, n + 1) == Of(inputs, s, n);
  }

  lemma NextOf(cfg: Config, inputs: seq<Input>, n: nat, m: Memory)
    requires n < |inputs| && RecallsOf(inputs, n, inputs[n].debt.session, m)
    ensures RecallsOf(inputs, n + 1, inputs[n].debt.session, Next(cfg, m, inputs[n]))
    ensures Alerts(m, inputs[n].debt) <==> AlertDueAt(inputs, n)
    ensures AllClear(m, inputs[n].debt) <==> AllClearDueAt(inputs, n)
  {
    var s := inputs[n].debt.session;
    var a, b := Of(inputs, s, n), Of(inputs, s, n + 1);
    OfGrows(inputs, n);
    assert b[..|a|] == a && b[|a|] == inputs[n].debt;
    Longer(a, b, |a|, m);
    NextRemembers(cfg, b, |a|, m, inputs[n].forced);
  }

  lemma {:induction false} StreakOfPrefix(a: seq<Debt>, b: seq<Debt>, n: nat)
    requires n <= |a| <= |b| && b[..|a|] == a
    ensures StreakStart(a, n) == StreakStart(b, n)
  {
    if n > 0 {
      assert a[n - 1] == b[n - 1];
      StreakOfPrefix(a, b, n - 1);
    }
  }

  lemma Longer(a: seq<Debt>, b: seq<Debt>, n: nat, m: Memory)
    requires n <= |a| <= |b| && b[..|a|] == a && Remembers(a, n, m)
    ensures Remembers(b, n, m)
  {
    StreakOfPrefix(a, b, n);
    assert forall i :: 0 <= i < |a| ==> a[i] == b[i];
    var j := StreakStart(a, n);
    if 0 < j < n {
      assert LateBefore(a, j, n) <==> LateBefore(b, j, n) by {
        assert forall k :: j <= k < n ==> (LateAt(a, j, k) <==> LateAt(b, j, k));
      }
    }
  }
}
