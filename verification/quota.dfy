/** The quota ledger (src/hooks/useQuota.ts): reading a user's remaining
    analyses, the billing-cycle rollover performed by
    checkAndResetQuotaIfNeeded, and the force reset. Each operation takes the
    table and the backend's read/write outcomes as inputs and returns its
    result together with the table afterwards. */
module Quota {
  import opened Wrappers
  import opened Plans
  import opened SubscriptionTable

  datatype QuotaInfo = QuotaInfo(analysesUsed: int, analysesLimit: int, analysesRemaining: int, needsReset: bool)

  /** What checkAndResetQuotaIfNeeded returns, and the table after its write. */
  datatype CheckOutcome = CheckOutcome(remaining: int, table: Table)

  /** What forceResetQuota returns, and the table after its write. */
  datatype ForceOutcome = ForceOutcome(success: bool, table: Table)

  /** The four states of the rollover state machine. */
  datatype CyclePhase = NoRecord | Uninitialised | InCycle | PastCycleEnd

  /** Query predicate `.eq('user_id', uid)`. */
  function OfUser(uid: string): Row -> bool {
    (r: Row) => r.userId == uid
  }

  /** Query predicate `.eq('user_id', uid).eq('subscription_status', 'active')`. */
  function ActiveOfUser(uid: string): Row -> bool {
    (r: Row) => r.userId == uid && r.status == Active
  }

  /** The active-row read followed by `.single()`; a failed read
      (`readOk == false`) yields nothing either. */
  function ActiveRow(t: Table, uid: string, readOk: bool): (r: Option<Row>)
    ensures r.Some? ==> readOk && r.value in t && r.value.userId == uid && r.value.status == Active
    ensures r.Some? <==> readOk && |Where(t, ActiveOfUser(uid))| == 1
  {
    if readOk then Single(Where(t, ActiveOfUser(uid))) else None
  }

  // ---------------------------------------------------------------------
  // getUserQuota

  /** The pending-reset test: a cycle end is stored and `now` is strictly
      after it. */
  predicate NeedsReset(row: Row, now: nat) {
    row.cycleEnd.Some? && now > row.cycleEnd.value
  }

  /** The limit getUserQuota reports: the stored limit when it is truthy,
      else the catalog's limit for the stored plan name, else 0. */
  function DisplayLimit(row: Row): (l: int)
    ensures row.monthlyLimit.GetOr(0) != 0 ==> l == row.monthlyLimit.value
    ensures row.monthlyLimit.GetOr(0) == 0 ==>
              forall p: PlanName :: row.planName == Some(Text(p)) ==> l == GetPlanLimit(p)
    ensures row.monthlyLimit.GetOr(0) == 0 && (row.planName.None? || !IsValidPlanName(row.planName.value)) ==> l == 0
  {
    if row.monthlyLimit.GetOr(0) != 0 then row.monthlyLimit.value
    else if row.planName.Some? then LimitByName(row.planName.value).GetOr(0)
    else 0
  }

  /** The quota figures derived from one row. */
  function QuotaOf(row: Row, now: nat): (q: QuotaInfo)
    ensures q.analysesUsed == row.usedThisMonth.GetOr(0)
    ensures q.analysesLimit == DisplayLimit(row)
    ensures q.analysesRemaining >= 0
    ensures q.analysesRemaining >= q.analysesLimit - q.analysesUsed
    ensures q.analysesRemaining == 0 || q.analysesRemaining == q.analysesLimit - q.analysesUsed
    ensures q.analysesUsed >= 0 && q.analysesLimit >= 0 ==> q.analysesRemaining <= q.analysesLimit
    ensures q.needsReset <==> NeedsReset(row, now)
  {
    var used := row.usedThisMonth.GetOr(0);
    var limit := DisplayLimit(row);
    QuotaInfo(used, limit, Max(0, limit - used), row.cycleEnd.Some? && now > row.cycleEnd.value)
  }

  /** getUserQuota: nothing when the read fails or there is no single active
      row; otherwise the figures of that row. */
  function GetUserQuota(t: Table, uid: string, readOk: bool, now: nat): (r: Option<QuotaInfo>)
    ensures r.Some? <==> ActiveRow(t, uid, readOk).Some?
    ensures r.Some? ==> r.value == QuotaOf(ActiveRow(t, uid, readOk).value, now)
  {
    match ActiveRow(t, uid, readOk)
    case None => None
    case Some(row) => Some(QuotaOf(row, now))
  }

  // ---------------------------------------------------------------------
  // checkAndResetQuotaIfNeeded

  /** The limit the check works with: the stored limit when not null (`??`,
      so a stored 0 is kept), else the catalog's limit for the caller's plan. */
  function CheckLimit(row: Row, activePlan: PlanName): (l: int)
    ensures row.monthlyLimit.Some? ==> l == row.monthlyLimit.value
    ensures row.monthlyLimit.None? ==> l == GetPlanLimit(activePlan)
  {
    row.monthlyLimit.GetOr(GetPlanLimit(activePlan))
  }

  /** The first-time write: a cycle starting now, one period long. */
  function InitCycle(limit: int, now: nat, period: nat): Row -> Row {
    (r: Row) => r.(cycleStart := Some(now), cycleEnd := Some(now + period),
            monthlyLimit := Some(limit), updatedAt := Some(now))
  }

  /** The rollover write: the next cycle starts where the old one ended. */
  function RollCycle(limit: int, oldEnd: nat, period: nat, now: nat): Row -> Row {
    (r: Row) => r.(usedThisMonth := Some(0), cycleStart := Some(oldEnd), cycleEnd := Some(oldEnd + period),
            monthlyLimit := Some(limit), updatedAt := Some(now))
  }

  /** The branch the check takes. */
  function Phase(t: Table, uid: string, readOk: bool, now: nat): CyclePhase {
    match ActiveRow(t, uid, readOk)
    case None => NoRecord
    case Some(row) =>
      match row.cycleEnd
      case None => Uninitialised
      case Some(end) => if now > end then PastCycleEnd else InCycle
  }

  /** The fields neither the check nor the force reset ever write. */
  predicate SameIdentity(a: Row, b: Row) {
    && a.id == b.id && a.userId == b.userId && a.purchaseToken == b.purchaseToken
    && a.planName == b.planName && a.status == b.status && a.autoRenew == b.autoRenew
    && a.cancelledAt == b.cancelledAt && a.endDate == b.endDate && a.pauseStart == b.pauseStart
  }

  /** A row whose stored cycle is exactly one billing period long. */
  predicate CycleOfPeriod(row: Row, period: nat) {
    row.cycleStart.Some? && row.cycleEnd.Some? && row.cycleEnd.value == row.cycleStart.value + period
  }

  /** A row whose stored limit and usage are not negative. */
  predicate WellFormed(row: Row) {
    row.monthlyLimit.GetOr(0) >= 0 && row.usedThisMonth.GetOr(0) >= 0
  }

  /** checkAndResetQuotaIfNeeded, as written. The writes are scoped by user
      id only, so they reach every row of the user, not just the active one.
      A failed write (`writeOk == false`) leaves the table as it was. */
  function CheckAndReset(t: Table, uid: string, activePlan: PlanName, now: nat, dev: bool, readOk: bool, writeOk: bool)
    : (r: CheckOutcome)
    ensures |r.table| == |t|
    ensures ActiveRow(t, uid, readOk).None? ==> r == CheckOutcome(0, t)
    ensures ActiveRow(t, uid, readOk).Some? && WellFormed(ActiveRow(t, uid, readOk).value) ==>
              r.remaining <= CheckLimit(ActiveRow(t, uid, readOk).value, activePlan)
    ensures !writeOk ==> r.table == t
    ensures Phase(t, uid, readOk, now) == Uninitialised ==>
              var row := ActiveRow(t, uid, readOk).value;
              && r.remaining == CheckLimit(row, activePlan) - row.usedThisMonth.GetOr(0)
              && (writeOk ==> forall i :: 0 <= i < |t| && t[i].userId == uid ==>
                    && r.table[i].cycleStart == Some(now)
                    && r.table[i].cycleEnd == Some(now + BillingPeriodMs(dev))
                    && r.table[i].monthlyLimit == Some(CheckLimit(row, activePlan))
                    && r.table[i].usedThisMonth == t[i].usedThisMonth)
    ensures Phase(t, uid, readOk, now) == PastCycleEnd ==>
              var row := ActiveRow(t, uid, readOk).value;
              var limit := CheckLimit(row, activePlan);
              && (writeOk ==> r.remaining == limit)
              && (writeOk ==> forall i :: 0 <= i < |t| && t[i].userId == uid ==>
                    && r.table[i].usedThisMonth == Some(0)
                    && r.table[i].cycleStart == row.cycleEnd
                    && r.table[i].cycleEnd == Some(row.cycleEnd.value + BillingPeriodMs(dev))
                    && r.table[i].monthlyLimit == Some(limit))
              && (!writeOk ==> r.remaining == Max(limit - row.usedThisMonth.GetOr(0), 0))
    ensures Phase(t, uid, readOk, now) == InCycle ==>
              var row := ActiveRow(t, uid, readOk).value;
              r == CheckOutcome(Max(CheckLimit(row, activePlan) - row.usedThisMonth.GetOr(0), 0), t)
  {
    match ActiveRow(t, uid, readOk)
    case None => CheckOutcome(0, t)
    case Some(row) =>
      var limit := CheckLimit(row, activePlan);
      var used := row.usedThisMonth.GetOr(0);
      var period := BillingPeriodMs(dev);
      match row.cycleEnd
      case None =>
        // The write's outcome does not change the returned figure.
        CheckOutcome(limit - used, if writeOk then UpdateWhere(t, OfUser(uid), InitCycle(limit, now, period)) else t)
      case Some(end) =>
        if now > end then
          if writeOk then CheckOutcome(limit, UpdateWhere(t, OfUser(uid), RollCycle(limit, end, period, now)))
          else CheckOutcome(Max(limit - used, 0), t)
        else
          CheckOutcome(Max(limit - used, 0), t)
  }

  /** What the check's writes may touch: only the caller's rows, never
      their identity, status or lifecycle fields, and every row it changes
      is left holding a cycle exactly one billing period long. */
  lemma CheckFrame(t: Table, uid: string, activePlan: PlanName, now: nat, dev: bool, readOk: bool, writeOk: bool)
    ensures var u := CheckAndReset(t, uid, activePlan, now, dev, readOk, writeOk).table;
            && (forall i :: 0 <= i < |t| ==> SameIdentity(u[i], t[i]))
            && (forall i :: 0 <= i < |t| && t[i].userId != uid ==> u[i] == t[i])
            && (forall i :: 0 <= i < |t| && u[i] != t[i] ==> CycleOfPeriod(u[i], BillingPeriodMs(dev)))
  {
    var period := BillingPeriodMs(dev);
    if ActiveRow(t, uid, readOk).Some? && writeOk {
      var row := ActiveRow(t, uid, readOk).value;
      var limit := CheckLimit(row, activePlan);
      if row.cycleEnd.None? {
        UserWriteFrame(t, uid, InitCycle(limit, now, period), period);
      } else if now > row.cycleEnd.value {
        UserWriteFrame(t, uid, RollCycle(limit, row.cycleEnd.value, period, now), period);
      }
    }
  }

  /** A write to the user's rows with a change that keeps identity and
      leaves a one-period cycle touches nothing else. */
  lemma UserWriteFrame(t: Table, uid: string, change: Row -> Row, period: nat)
    requires forall r :: SameIdentity(change(r), r) && CycleOfPeriod(change(r), period)
    ensures var u := UpdateWhere(t, OfUser(uid), change);
            && (forall i :: 0 <= i < |t| ==> SameIdentity(u[i], t[i]))
            && (forall i :: 0 <= i < |t| && t[i].userId != uid ==> u[i] == t[i])
            && (forall i :: 0 <= i < |t| && u[i] != t[i] ==> CycleOfPeriod(u[i], period))
  {
  }

  /** The check with its result clamped at zero, as two of its three
      branches already do; it performs the same writes. */
  function CheckAndResetClamped(t: Table, uid: string, activePlan: PlanName, now: nat, dev: bool, readOk: bool, writeOk: bool)
    : (r: CheckOutcome)
    ensures r.table == CheckAndReset(t, uid, activePlan, now, dev, readOk, writeOk).table
    ensures r.remaining >= 0
    ensures ActiveRow(t, uid, readOk).Some? && WellFormed(ActiveRow(t, uid, readOk).value) ==>
              r.remaining <= CheckLimit(ActiveRow(t, uid, readOk).value, activePlan)
  {
    var o := CheckAndReset(t, uid, activePlan, now, dev, readOk, writeOk);
    CheckOutcome(Max(o.remaining, 0), o.table)
  }

  /** A write to the user's rows that keeps user id and status keeps the
      active row where it was, with the write applied to it. */
  lemma ActiveRowAfterUserWrite(t: Table, uid: string, change: Row -> Row)
    requires forall r :: change(r).userId == r.userId && change(r).status == r.status
    ensures ActiveRow(UpdateWhere(t, OfUser(uid), change), uid, true)
         == (match ActiveRow(t, uid, true) case Some(row) => Some(change(row)) case None => None)
  {
    assert forall r :: ActiveOfUser(uid)(change(r)) == ActiveOfUser(uid)(r);
    WhereAfterUpdate(t, ActiveOfUser(uid), OfUser(uid), change);
  }

  /** No active row, or a failed read: the check returns 0 and writes nothing. */
  lemma CheckWithoutRecord(t: Table, uid: string, activePlan: PlanName, now: nat, dev: bool, readOk: bool, writeOk: bool)
    requires Phase(t, uid, readOk, now) == NoRecord
    ensures CheckAndReset(t, uid, activePlan, now, dev, readOk, writeOk) == CheckOutcome(0, t)
  {
  }

  /** The first check on a row without a cycle: the user's rows get a cycle
      starting now and one period long, and the stored limit; usage is kept;
      the result is the unclamped `limit - used`. */
  lemma CheckInitialisesCycle(t: Table, uid: string, activePlan: PlanName, now: nat, dev: bool, writeOk: bool)
    requires Phase(t, uid, true, now) == Uninitialised
    ensures var row := ActiveRow(t, uid, true).value;
            var r := CheckAndReset(t, uid, activePlan, now, dev, true, writeOk);
            && r.remaining == CheckLimit(row, activePlan) - row.usedThisMonth.GetOr(0)
            && (writeOk ==> forall i :: 0 <= i < |t| && t[i].userId == uid ==>
                  && r.table[i].cycleStart == Some(now)
                  && r.table[i].cycleEnd == Some(now + BillingPeriodMs(dev))
                  && r.table[i].monthlyLimit == Some(CheckLimit(row, activePlan))
                  && r.table[i].usedThisMonth == t[i].usedThisMonth)
            && (!writeOk ==> r.table == t)
  {
  }

  /** Past the cycle end: the next cycle starts at the old end (not at
      `now`), is one period long, usage is zeroed and the full limit is
      returned; if the write fails the old remaining figure is returned. */
  lemma CheckRollsOverFromOldEnd(t: Table, uid: string, activePlan: PlanName, now: nat, dev: bool, writeOk: bool)
    requires Phase(t, uid, true, now) == PastCycleEnd
    ensures var row := ActiveRow(t, uid, true).value;
            var oldEnd := row.cycleEnd.value;
            var limit := CheckLimit(row, activePlan);
            var r := CheckAndReset(t, uid, activePlan, now, dev, true, writeOk);
            && (writeOk ==> r.remaining == limit)
            && (writeOk ==> forall i :: 0 <= i < |t| && t[i].userId == uid ==>
                  && r.table[i].usedThisMonth == Some(0)
                  && r.table[i].cycleStart == Some(oldEnd)
                  && r.table[i].cycleEnd == Some(oldEnd + BillingPeriodMs(dev))
                  && r.table[i].monthlyLimit == Some(limit))
            && (!writeOk ==> r.remaining == Max(limit - row.usedThisMonth.GetOr(0), 0) && r.table == t)
  {
  }

  /** Within the cycle: no write, and the clamped remaining figure. */
  lemma CheckWithinCycleWritesNothing(t: Table, uid: string, activePlan: PlanName, now: nat, dev: bool, writeOk: bool)
    requires Phase(t, uid, true, now) == InCycle
    ensures var row := ActiveRow(t, uid, true).value;
            var r := CheckAndReset(t, uid, activePlan, now, dev, true, writeOk);
            r == CheckOutcome(Max(CheckLimit(row, activePlan) - row.usedThisMonth.GetOr(0), 0), t)
  {
  }

  /** getUserQuota's pending-reset flag is exactly the check's rollover
      branch. */
  lemma NeedsResetIsRollover(t: Table, uid: string, readOk: bool, now: nat)
    requires GetUserQuota(t, uid, readOk, now).Some?
    ensures GetUserQuota(t, uid, readOk, now).value.needsReset <==> Phase(t, uid, readOk, now) == PastCycleEnd
  {
  }

  /** A Basic row with 5 of 5 used and a cycle that ended a day ago: the
      check returns the full 5 and zeroes the usage. */
  lemma ExhaustedRowRollsOver(now: nat)
    requires now >= 2_678_400_000
    ensures var row := Row(1, "user", None, Some("Basic"), Some(5), Some(5), Some(now - 2_678_400_000),
                           Some(now - 86_400_000), Active, true, None, None, None, None);
            var r := CheckAndReset([row], "user", Basic, now, false, true, true);
            r.remaining == 5 && r.table[0].usedThisMonth == Some(0)
  {
    var row := Row(1, "user", None, Some("Basic"), Some(5), Some(5), Some(now - 2_678_400_000),
                   Some(now - 86_400_000), Active, true, None, None, None, None);
    assert Where([row], ActiveOfUser("user")) == [row];
  }

  /** After a successful check, getUserQuota at the same instant reports the
      same remaining figure as the clamped check, provided both read the same
      limit (a non-zero stored limit, or none stored and the row's plan name
      is the caller's plan); a reset is still pending only when the check was
      more than a whole period late. */
  lemma QuotaAfterCheckAgrees(t: Table, uid: string, activePlan: PlanName, now: nat, dev: bool)
    requires ActiveRow(t, uid, true).Some?
    requires SameLimit(ActiveRow(t, uid, true).value, activePlan)
    ensures QuotaMatchesCheck(t, uid, activePlan, now, dev)
  {
    var row := ActiveRow(t, uid, true).value;
    var limit := CheckLimit(row, activePlan);
    var period := BillingPeriodMs(dev);
    ParseText(activePlan);
    if row.cycleEnd.None? {
      QuotaAfterCheckWrite(t, uid, activePlan, now, dev, InitCycle(limit, now, period));
    } else if now > row.cycleEnd.value {
      QuotaAfterCheckWrite(t, uid, activePlan, now, dev, RollCycle(limit, row.cycleEnd.value, period, now));
    } else {
      assert CheckAndReset(t, uid, activePlan, now, dev, true, true).table == t;
      assert DisplayLimit(row) == limit;
    }
  }

  /** What QuotaAfterCheckAgrees promises of one check. */
  predicate QuotaMatchesCheck(t: Table, uid: string, activePlan: PlanName, now: nat, dev: bool)
    requires ActiveRow(t, uid, true).Some?
  {
    var row := ActiveRow(t, uid, true).value;
    var c := CheckAndResetClamped(t, uid, activePlan, now, dev, true, true);
    var q := GetUserQuota(c.table, uid, true, now);
    && q.Some?
    && q.value.analysesRemaining == c.remaining
    && (q.value.needsReset ==> row.cycleEnd.Some? && now > row.cycleEnd.value + BillingPeriodMs(dev))
  }

  /** QuotaAfterCheckAgrees for the two branches that write. */
  lemma QuotaAfterCheckWrite(t: Table, uid: string, activePlan: PlanName, now: nat, dev: bool, change: Row -> Row)
    requires ActiveRow(t, uid, true).Some?
    requires SameLimit(ActiveRow(t, uid, true).value, activePlan)
    requires IsValidPlanName(Text(activePlan)) && LimitByName(Text(activePlan)) == Some(GetPlanLimit(activePlan))
    requires CheckAndReset(t, uid, activePlan, now, dev, true, true).table == UpdateWhere(t, OfUser(uid), change)
    requires forall r :: change(r).userId == r.userId && change(r).status == r.status
    requires var row := ActiveRow(t, uid, true).value;
             && change(row).planName == row.planName
             && change(row).monthlyLimit == Some(CheckLimit(row, activePlan))
             && change(row).usedThisMonth == (if row.cycleEnd.None? then row.usedThisMonth else Some(0))
             && change(row).cycleEnd.Some?
             && change(row).cycleEnd.value >= (if row.cycleEnd.None? then now else row.cycleEnd.value) + BillingPeriodMs(dev)
    ensures QuotaMatchesCheck(t, uid, activePlan, now, dev)
  {
    var row := ActiveRow(t, uid, true).value;
    QuotaAfterWrite(t, uid, activePlan, now, change);
    assert DisplayLimit(change(row)) == CheckLimit(row, activePlan);
  }

  /** The check and getUserQuota read the same limit from a row: its stored
      limit is non-zero (`??` and `||` agree), or none is stored and the row
      names the caller's plan. */
  predicate SameLimit(row: Row, activePlan: PlanName) {
    || (row.monthlyLimit.Some? && row.monthlyLimit.value != 0)
    || (row.monthlyLimit.None? && row.planName == Some(Text(activePlan)))
  }

  /** getUserQuota right after one of the check's writes sees the written
      row. */
  lemma QuotaAfterWrite(t: Table, uid: string, activePlan: PlanName, now: nat, change: Row -> Row)
    requires ActiveRow(t, uid, true).Some?
    requires forall r :: change(r).userId == r.userId && change(r).status == r.status
    ensures GetUserQuota(UpdateWhere(t, OfUser(uid), change), uid, true, now)
         == Some(QuotaOf(change(ActiveRow(t, uid, true).value), now))
  {
    ActiveRowAfterUserWrite(t, uid, change);
  }

  // ---------------------------------------------------------------------
  // Repeated checks stay on the original billing grid.

  /** Successive checks, reads and writes succeeding, at the instants `nows`. */
  function CheckAll(t: Table, uid: string, activePlan: PlanName, nows: seq<nat>, dev: bool): Table
    decreases |nows|
  {
    if |nows| == 0 then t
    else CheckAll(CheckAndReset(t, uid, activePlan, nows[0], dev, true, true).table, uid, activePlan, nows[1..], dev)
  }

  /** A cycle end `k` whole periods after `end0`. */
  function GridPoint(end0: nat, k: nat, period: nat): nat {
    end0 + k * period
  }

  lemma GridNext(end0: nat, k: nat, period: nat)
    ensures GridPoint(end0, k, period) + period == GridPoint(end0, k + 1, period)
  {
    assert (k + 1) * period == k * period + period;
  }

  /** One check, reads and writes succeeding, keeps the active row and
      either leaves its cycle end alone or moves it exactly one period on;
      `k'` is the grid index afterwards. */
  lemma CheckStepOnGrid(t: Table, uid: string, activePlan: PlanName, now: nat, dev: bool, end0: nat, k: nat)
    returns (k': nat)
    requires ActiveRow(t, uid, true).Some?
    requires ActiveRow(t, uid, true).value.cycleEnd == Some(GridPoint(end0, k, BillingPeriodMs(dev)))
    ensures k' == k || k' == k + 1
    ensures var next := ActiveRow(CheckAndReset(t, uid, activePlan, now, dev, true, true).table, uid, true);
            next.Some? && next.value.cycleEnd == Some(GridPoint(end0, k', BillingPeriodMs(dev)))
  {
    var row := ActiveRow(t, uid, true).value;
    var period := BillingPeriodMs(dev);
    if now > row.cycleEnd.value {
      var change := RollCycle(CheckLimit(row, activePlan), row.cycleEnd.value, period, now);
      assert CheckAndReset(t, uid, activePlan, now, dev, true, true).table == UpdateWhere(t, OfUser(uid), change);
      ActiveRowAfterUserWrite(t, uid, change);
      GridNext(end0, k, period);
      k' := k + 1;
    } else {
      assert CheckAndReset(t, uid, activePlan, now, dev, true, true).table == t;
      k' := k;
    }
  }

  /** However many checks run, and however late, the user keeps an active
      row whose cycle end lies a whole number of periods after the original
      one: rollovers never drift towards the instant of the check. */
  lemma {:induction false} ChecksStayOnGrid(t: Table, uid: string, activePlan: PlanName, nows: seq<nat>, dev: bool, end0: nat, k: nat)
    returns (j: nat)
    requires ActiveRow(t, uid, true).Some?
    requires ActiveRow(t, uid, true).value.cycleEnd == Some(GridPoint(end0, k, BillingPeriodMs(dev)))
    ensures j >= k
    ensures ActiveRow(CheckAll(t, uid, activePlan, nows, dev), uid, true).Some?
    ensures ActiveRow(CheckAll(t, uid, activePlan, nows, dev), uid, true).value.cycleEnd
            == Some(GridPoint(end0, j, BillingPeriodMs(dev)))
    decreases |nows|
  {
    if |nows| == 0 {
      j := k;
    } else {
      var next := CheckAndReset(t, uid, activePlan, nows[0], dev, true, true).table;
      assert CheckAll(t, uid, activePlan, nows, dev) == CheckAll(next, uid, activePlan, nows[1..], dev);
      var k' := CheckStepOnGrid(t, uid, activePlan, nows[0], dev, end0, k);
      j := ChecksStayOnGrid(next, uid, activePlan, nows[1..], dev, end0, k');
    }
  }

  // ---------------------------------------------------------------------
  // Idempotence, and where the code as written loses it.

  /** With a stored limit of 5, 7 analyses used and no cycle yet, the check as
      written returns -2, and the same check at the same instant right after
      returns 0. */
  lemma UninitialisedRecheckDisagrees(now: nat)
    ensures var row := Row(1, "user", None, Some("Basic"), Some(5), Some(7), None, None, Active, true, None, None, None, None);
            var first := CheckAndReset([row], "user", Basic, now, false, true, true);
            var second := CheckAndReset(first.table, "user", Basic, now, false, true, true);
            first.remaining == -2 && second.remaining == 0
  {
    var row := Row(1, "user", None, Some("Basic"), Some(5), Some(7), None, None, Active, true, None, None, None, None);
    assert Where([row], ActiveOfUser("user")) == [row];
    var first := CheckAndReset([row], "user", Basic, now, false, true, true);
    var row' := InitCycle(5, now, BillingPeriodMs(false))(row);
    assert first.table == [row'];
    assert Where([row'], ActiveOfUser("user")) == [row'];
  }

  /** The clamped check is idempotent: run twice at the same instant, with
      no event in between, it returns the same figure (a failed write followed
      by a successful one is two different events and is excluded). */
  lemma ClampedCheckIdempotent(t: Table, uid: string, activePlan: PlanName, now: nat, dev: bool, firstWriteOk: bool, secondWriteOk: bool)
    requires firstWriteOk || !secondWriteOk
    ensures var first := CheckAndResetClamped(t, uid, activePlan, now, dev, true, firstWriteOk);
            CheckAndResetClamped(first.table, uid, activePlan, now, dev, true, secondWriteOk).remaining == first.remaining
    ensures var row := ActiveRow(t, uid, true);
            var first := CheckAndResetClamped(t, uid, activePlan, now, dev, true, firstWriteOk);
            (row.None? || row.value.cycleEnd.None? || now <= row.value.cycleEnd.value + BillingPeriodMs(dev))
            ==> CheckAndResetClamped(first.table, uid, activePlan, now, dev, true, secondWriteOk).table == first.table
  {
    var first := CheckAndReset(t, uid, activePlan, now, dev, true, firstWriteOk);
    if ActiveRow(t, uid, true).Some? && firstWriteOk {
      var row := ActiveRow(t, uid, true).value;
      var limit := CheckLimit(row, activePlan);
      var period := BillingPeriodMs(dev);
      if row.cycleEnd.None? {
        RecheckAfterWrite(t, uid, activePlan, now, dev, secondWriteOk, InitCycle(limit, now, period));
      } else if now > row.cycleEnd.value {
        RecheckAfterWrite(t, uid, activePlan, now, dev, secondWriteOk, RollCycle(limit, row.cycleEnd.value, period, now));
      }
    }
  }

  /** A check more than one period late moves the cycle on by one period
      only, to an end that is still past: the same check at the same instant
      rolls over again and writes again, and usage recorded in between is
      wiped and the full limit handed out once more. */
  lemma LateCheckWritesTwice()
    ensures var period := BillingPeriodMs(false);
            var now := 3 * period + 10;
            var row := Row(1, "user", None, Some("Basic"), Some(5), Some(5), Some(0), Some(period),
                           Active, true, None, None, None, None);
            var first := CheckAndResetClamped([row], "user", Basic, now, false, true, true);
            var used := [first.table[0].(usedThisMonth := Some(3))];
            var second := CheckAndResetClamped(used, "user", Basic, now, false, true, true);
            && first.remaining == 5 && first.table[0].cycleEnd == Some(2 * period)
            && CheckAndResetClamped(first.table, "user", Basic, now, false, true, true).table != first.table
            && second.remaining == 5 && second.table[0].usedThisMonth == Some(0)
            && second.table[0].cycleEnd == Some(3 * period)
  {
    var period := BillingPeriodMs(false);
    var now := 3 * period + 10;
    var row := Row(1, "user", None, Some("Basic"), Some(5), Some(5), Some(0), Some(period),
                   Active, true, None, None, None, None);
    assert Where([row], ActiveOfUser("user")) == [row];
    var row1 := RollCycle(5, period, period, now)(row);
    assert CheckAndReset([row], "user", Basic, now, false, true, true).table == [row1];
    assert Where([row1], ActiveOfUser("user")) == [row1];
    var row2 := RollCycle(5, 2 * period, period, now)(row1);
    assert CheckAndReset([row1], "user", Basic, now, false, true, true).table == [row2];
    var used := row1.(usedThisMonth := Some(3));
    assert Where([used], ActiveOfUser("user")) == [used];
    assert CheckAndReset([used], "user", Basic, now, false, true, true).table
        == [RollCycle(5, 2 * period, period, now)(used)];
  }

  /** A check that follows one of the check's own writes, at the same
      instant, sees the written row: the same limit, the written usage, and a
      cycle end that is no earlier than the old one. */
  lemma RecheckAfterWrite(t: Table, uid: string, activePlan: PlanName, now: nat, dev: bool, writeOk: bool, change: Row -> Row)
    requires ActiveRow(t, uid, true).Some?
    requires var row := ActiveRow(t, uid, true).value;
             || change == InitCycle(CheckLimit(row, activePlan), now, BillingPeriodMs(dev))
             || (row.cycleEnd.Some? && now > row.cycleEnd.value &&
                 change == RollCycle(CheckLimit(row, activePlan), row.cycleEnd.value, BillingPeriodMs(dev), now))
    ensures var row := ActiveRow(t, uid, true).value;
            var again := CheckAndResetClamped(UpdateWhere(t, OfUser(uid), change), uid, activePlan, now, dev, true, writeOk);
            again.remaining == Max(CheckLimit(row, activePlan) - change(row).usedThisMonth.GetOr(0), 0)
    ensures var row := ActiveRow(t, uid, true).value;
            var again := CheckAndResetClamped(UpdateWhere(t, OfUser(uid), change), uid, activePlan, now, dev, true, writeOk);
            change(row).cycleEnd.Some? && now <= change(row).cycleEnd.value ==> again.table == UpdateWhere(t, OfUser(uid), change)
  {
    ActiveRowAfterUserWrite(t, uid, change);
  }

  // ---------------------------------------------------------------------
  // forceResetQuota

  /** The force-reset write: usage zeroed, nothing else but the update time. */
  function ClearUsage(now: nat): Row -> Row {
    (r: Row) => r.(usedThisMonth := Some(0), updatedAt := Some(now))
  }

  /** forceResetQuota: zeroes the usage of the user's active rows (however
      many there are; no `.single()` here) and reports whether the write
      succeeded. */
  function ForceResetQuota(t: Table, uid: string, now: nat, writeOk: bool): (r: ForceOutcome)
    ensures r.success == writeOk
    ensures !writeOk ==> r.table == t
    ensures |r.table| == |t|
    ensures forall i :: 0 <= i < |t| ==> SameIdentity(r.table[i], t[i])
    ensures forall i :: 0 <= i < |t| && !(t[i].userId == uid && t[i].status == Active) ==> r.table[i] == t[i]
    ensures forall i :: 0 <= i < |t| && r.table[i] != t[i] ==>
              && r.table[i].usedThisMonth == Some(0)
              && r.table[i].monthlyLimit == t[i].monthlyLimit
              && r.table[i].cycleStart == t[i].cycleStart
              && r.table[i].cycleEnd == t[i].cycleEnd
    ensures writeOk ==> forall i :: 0 <= i < |t| && t[i].userId == uid && t[i].status == Active ==>
              r.table[i].usedThisMonth == Some(0)
  {
    if writeOk then ForceOutcome(true, UpdateWhere(t, ActiveOfUser(uid), ClearUsage(now)))
    else ForceOutcome(false, t)
  }

  /** After a successful force reset the user's quota shows the whole limit
      again, and a second force reset changes nothing more. */
  lemma ForceResetRestoresQuota(t: Table, uid: string, now: nat, later: nat)
    requires ActiveRow(t, uid, true).Some?
    ensures var r := ForceResetQuota(t, uid, now, true);
            var q := GetUserQuota(r.table, uid, true, later);
            && q.Some?
            && q.value.analysesUsed == 0
            && q.value.analysesRemaining == Max(DisplayLimit(ActiveRow(t, uid, true).value), 0)
            && ForceResetQuota(r.table, uid, now, true).table == r.table
  {
    var change := ClearUsage(now);
    assert forall r :: ActiveOfUser(uid)(change(r)) == ActiveOfUser(uid)(r);
    WhereAfterUpdate(t, ActiveOfUser(uid), ActiveOfUser(uid), change);
    UpdateTwice(t, ActiveOfUser(uid), change);
  }

  /** With no active row the force reset still reports success. */
  lemma ForceResetWithoutActiveRow(t: Table, uid: string, now: nat)
    requires forall i :: 0 <= i < |t| ==> !(t[i].userId == uid && t[i].status == Active)
    ensures ForceResetQuota(t, uid, now, true) == ForceOutcome(true, t)
  {
  }
}
