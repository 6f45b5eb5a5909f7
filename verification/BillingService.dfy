/**
 * The subscription calls and the renewal sweep, written on the tables. Each method is proved to do what
 * Billing describes, and the two batch loops of the sweep to end and to leave nothing unattended.
 */
module BillingService {
  import opened Prelude
  import opened CoinBook
  import opened CoinBookProofs
  import opened CoinMoves
  import opened CoinService
  import opened Batches
  import B = Billing

  type File = B.File

  const BATCH := 50

  // ---------------------------------------------------------------------------------------------
  // The queries of the sweep
  // ---------------------------------------------------------------------------------------------

  predicate RenewalDue(f: File, now: Time) {
    f.sub.status.Active? && f.sub.autoRenew && f.sub.nextRenewalAt.Some? && f.sub.nextRenewalAt.value <= now
  }

  predicate Overdue(f: File, now: Time) {
    f.sub.status.PastDue? && f.sub.nextRenewalAt.Some? && f.sub.nextRenewalAt.value <= now
  }

  /** A past-due plan comes before the sweep at some time exactly when it has a retry moment. */
  lemma SweptAtSomeTime(f: File)
    requires f.sub.status.PastDue?
    ensures (exists now: Time :: Overdue(f, now)) <==> f.sub.nextRenewalAt.Some?
  {
    if f.sub.nextRenewalAt.Some? {
      assert Overdue(f, f.sub.nextRenewalAt.value);
    }
  }

  /**
   * Not every plan that falls past due is ended by a sweep. Switching auto-renew off takes one away from
   * every sweep exactly when the window before its retry moment is still open; the plan could still be
   * ended at any time, but nothing lists it.
   */
  lemma StoppingHidesFromSweep(f: File, now: Time, windowHours: int)
    requires f.sub.status.PastDue? && f.sub.nextRenewalAt.Some?
    ensures var g := B.StopAutoRenew(f, now, windowHours);
            && g.sub.status.PastDue?
            && ((forall t: Time :: !Overdue(g, t)) <==> !B.WindowClosed(f, now, windowHours))
            && (!B.WindowClosed(f, now, windowHours) ==> forall t: Time :: B.Expire(g, t).sub.status.Expired?)
  {
    SweptAtSomeTime(B.StopAutoRenew(f, now, windowHours));
    if forall t: Time :: !Overdue(f, t) {
      SweptAtSomeTime(f);
    }
  }

  /** Such an input: a failed renewal with 48 hours of grace, stopped at once with a window of 24 hours. */
  lemma FailedThenStopped(f: File, plan: B.Plan, clock: Time, t: Time)
    ensures var failed := B.Unpaid(f, plan, clock + 48 * B.HOUR_MS);
            var stopped := B.StopAutoRenew(failed, clock, 24);
            && failed.sub.status.PastDue? && Overdue(failed, clock + 48 * B.HOUR_MS)
            && stopped.sub.status.PastDue? && !Overdue(stopped, t)
  {
  }

  datatype Query = DueForRenewal | LeftUnpaid

  predicate Wanted(q: Query, f: File, now: Time) {
    if q.DueForRenewal? then RenewalDue(f, now) else Overdue(f, now)
  }

  function MomentOf(f: File): Time {
    if f.sub.nextRenewalAt.Some? then f.sub.nextRenewalAt.value else 0
  }

  /** The next batch, the earliest renewal moment first; fewer than BATCH rows only if these are all there are. */
  function Batch(files: seq<File>, q: Query, now: Time): (ids: seq<nat>)
    ensures Distinct(ids) && Within(files, ids) && |ids| <= BATCH
    ensures forall k :: 0 <= k < |ids| ==> Wanted(q, files[ids[k]], now)
    ensures |ids| < BATCH ==> forall i :: 0 <= i < |files| && Wanted(q, files[i], now) ==> i in ids
  {
    Earliest(AllWanted(files, q, now), Moments(files), BATCH)
  }

  function AllWanted(files: seq<File>, q: Query, now: Time): seq<bool> {
    seq(|files|, i requires 0 <= i < |files| => Wanted(q, files[i], now))
  }

  function Moments(files: seq<File>): seq<Time> {
    seq(|files|, i requires 0 <= i < |files| => MomentOf(files[i]))
  }

  /** A row that a batch leaves out is no earlier than any it takes. */
  lemma EarliestRenewalFirst(files: seq<File>, q: Query, now: Time, i: nat, k: nat)
    requires i < |files| && Wanted(q, files[i], now)
    requires i !in Batch(files, q, now) && k < |Batch(files, q, now)|
    ensures MomentOf(files[Batch(files, q, now)[k]]) <= MomentOf(files[i])
  {
    LeftOutIsLater(AllWanted(files, q, now), Moments(files), BATCH, i, k);
  }

  // ---------------------------------------------------------------------------------------------
  // How far behind the plans are
  // ---------------------------------------------------------------------------------------------

  type Plans = map<B.PlanId, B.Plan>

  function PlanOf(plans: Plans, f: File): Option<B.Plan> {
    if f.sub.plan in plans then Some(plans[f.sub.plan]) else None
  }

  /** Due, and the sweep will attempt it. */
  predicate Attempted(plans: Plans, f: File, now: Time) {
    RenewalDue(f, now) && B.Renewable(f, PlanOf(plans, f))
  }

  /** Due, but its plan is gone or inactive: the renewal returns without writing anything. */
  predicate Stuck(plans: Plans, f: File, now: Time) {
    RenewalDue(f, now) && !B.Renewable(f, PlanOf(plans, f))
  }

  function Behind(plans: Plans, f: File, now: Time): nat {
    if Attempted(plans, f, now) && f.sub.periodEnd <= now then now - f.sub.periodEnd + 1 else 0
  }

  function TotalBehind(plans: Plans, files: seq<File>, now: Time): nat {
    if files == [] then 0
    else TotalBehind(plans, files[..|files| - 1], now) + Behind(plans, files[|files| - 1], now)
  }

  lemma {:induction false} BehindUpdated(plans: Plans, files: seq<File>, i: nat, g: File, now: Time)
    requires i < |files|
    ensures TotalBehind(plans, files[i := g], now)
            == TotalBehind(plans, files, now) - Behind(plans, files[i], now) + Behind(plans, g, now)
  {
    var last := |files| - 1;
    if i == last {
      assert files[i := g][..last] == files[..last];
    } else {
      assert files[i := g][..last] == files[..last][i := g];
      BehindUpdated(plans, files[..last], i, g, now);
    }
  }

  function Renewals(files: seq<File>): nat {
    if files == [] then 0 else Renewals(files[..|files| - 1]) + files[|files| - 1].sub.renewalsCompleted
  }

  lemma {:induction false} RenewalsUpdated(files: seq<File>, i: nat, g: File)
    requires i < |files|
    ensures Renewals(files[i := g]) == Renewals(files) - files[i].sub.renewalsCompleted + g.sub.renewalsCompleted
  {
    var last := |files| - 1;
    if i == last {
      assert files[i := g][..last] == files[..last];
    } else {
      assert files[i := g][..last] == files[..last][i := g];
      RenewalsUpdated(files[..last], i, g);
    }
  }

  function OverdueCount(files: seq<File>, now: Time): nat {
    if files == [] then 0
    else OverdueCount(files[..|files| - 1], now) + if Overdue(files[|files| - 1], now) then 1 else 0
  }

  lemma {:induction false} OverdueUpdated(files: seq<File>, i: nat, g: File, now: Time)
    requires i < |files|
    ensures OverdueCount(files[i := g], now)
            == OverdueCount(files, now) - (if Overdue(files[i], now) then 1 else 0) + (if Overdue(g, now) then 1 else 0)
  {
    var last := |files| - 1;
    if i == last {
      assert files[i := g][..last] == files[..last];
    } else {
      assert files[i := g][..last] == files[..last][i := g];
      OverdueUpdated(files[..last], i, g, now);
    }
  }

  lemma {:induction false} OverdueSame(was: seq<File>, files: seq<File>, now: Time)
    requires |was| == |files| && forall i :: 0 <= i < |files| ==> (Overdue(was[i], now) <==> Overdue(files[i], now))
    ensures OverdueCount(was, now) == OverdueCount(files, now)
  {
    if files != [] {
      OverdueSame(was[..|was| - 1], files[..|files| - 1], now);
    }
  }

  // ---------------------------------------------------------------------------------------------
  // Why the first loop ends, and when it does not
  // ---------------------------------------------------------------------------------------------

  function StuckFiles(plans: Plans, files: seq<File>, now: Time): set<nat> {
    set i: nat | i < |files| && Stuck(plans, files[i], now)
  }

  /** A full batch holds a plan that can be renewed, as long as fewer than BATCH due plans are stuck. */
  lemma FullBatchMoves(plans: Plans, files: seq<File>, now: Time)
    requires |StuckFiles(plans, files, now)| < BATCH && |Batch(files, DueForRenewal, now)| == BATCH
    ensures exists k :: 0 <= k < BATCH && Attempted(plans, files[Batch(files, DueForRenewal, now)[k]], now)
  {
    var ids := Batch(files, DueForRenewal, now);
    if forall k :: 0 <= k < BATCH ==> !Attempted(plans, files[ids[k]], now) {
      forall k | 0 <= k < |ids| ensures ids[k] in StuckFiles(plans, files, now) {
        assert Wanted(DueForRenewal, files[ids[k]], now);
      }
      DistinctCount(ids, StuckFiles(plans, files, now));
    }
  }

  /**
   * The condition cannot be dropped: with BATCH or more stuck plans every batch is full however far the
   * others were renewed, so the loop never sees the short batch it waits for.
   */
  lemma StuckBatchesStayFull(plans: Plans, files: seq<File>, later: seq<File>, now: Time)
    requires |StuckFiles(plans, files, now)| >= BATCH && |later| == |files|
    requires forall i :: 0 <= i < |files| && Stuck(plans, files[i], now) ==> later[i] == files[i]
    ensures |Batch(later, DueForRenewal, now)| == BATCH
  {
    var ids := Batch(later, DueForRenewal, now);
    if |ids| < BATCH {
      forall i: nat | i in StuckFiles(plans, files, now) ensures i in ids {
        assert Wanted(DueForRenewal, later[i], now);
      }
      HoldsAll(ids, StuckFiles(plans, files, now));
    }
  }

  /** One renewal lowers how far its plan is behind. */
  lemma RenewalCatchesUp(b: Book, plans: Plans, id: nat, f: File, rows: seq<LotId>, now: Time, retryAt: Time)
    requires Agree(b) && IsSelection(b.lots, f.sub.wallet, now, rows) && B.FileOk(b, id, f)
    requires Attempted(plans, f, now) && plans[f.sub.plan].durationDays >= 1
    ensures Behind(plans, B.Renew(b, id, f, PlanOf(plans, f), rows, now, retryAt).1, now) < Behind(plans, f, now)
  {
    B.RenewKeeps(b, id, f, PlanOf(plans, f), rows, now, retryAt);
  }

  lemma RenewKeysWithin(b: Book, id: nat, f: File, plan: Option<B.Plan>, rows: seq<LotId>, now: Time, retryAt: Time, n: nat)
    requires Agree(b) && IsSelection(b.lots, f.sub.wallet, now, rows) && B.FileOk(b, id, f)
    requires id < n && KeysWithin(b.ledger, n)
    ensures KeysWithin(B.Renew(b, id, f, plan, rows, now, retryAt).0.ledger, n)
  {
    if B.Renewable(f, plan) && Spend(b, f.sub.wallet, B.RenewalRequest(id, f, plan.value), rows, now).1.Ok? {
      B.CycleKeyIsFresh(b, id, f);
      SpendEffect(b, f.sub.wallet, B.RenewalRequest(id, f, plan.value), rows, now);
    }
  }

  /** A key a caller sends is no cycle's, so an activation leaves every other subscription alone. */
  lemma ActivateGrows(b: Book, f: File, plan: Option<B.Plan>, key: Option<Key>, rows: seq<LotId>, now: Time, taken: set<nat>, n: nat)
    requires Agree(b) && IsSelection(b.lots, f.sub.wallet, now, rows) && !KeyUsed(b.ledger, key)
    requires (key.Some? ==> key.value.CallerKey?) && KeysWithin(b.ledger, n)
    ensures var after := B.Activate(b, f, plan, key, rows, now, taken).0;
            KeysWithin(after.ledger, n) && forall j: nat :: B.Grows(b, after, j)
  {
    if B.Activatable(f, plan) && Spend(b, f.sub.wallet, B.FirstRequest(f, key), rows, now).1.Ok? {
      SpendEffect(b, f.sub.wallet, B.FirstRequest(f, key), rows, now);
    }
  }

  /**
   * What the sweep leaves of one file: attempted if it could be, with at least one cycle more and still
   * running or past due; otherwise as it was. A plan that fell past due in this run is not overdue yet.
   */
  predicate Attended(plans: Plans, was: File, f: File, now: Time, clock: Time) {
    if Attempted(plans, was, now) then
      && |f.cycles| > |was.cycles| && f.sub.wallet == was.sub.wallet && f.sub.plan == was.sub.plan
      && (f.sub.status.Active? || f.sub.status.PastDue?) && f.sub.autoRenew
      && (clock >= now ==> !Overdue(f, now))
    else f == was
  }

  /** Every file is as it was or attended; when complete, every file that could be attempted was. */
  predicate Progress(plans: Plans, was: seq<File>, files: seq<File>, now: Time, clock: Time, complete: bool) {
    && |was| == |files|
    && forall i :: 0 <= i < |files| ==> Attended(plans, was[i], files[i], now, clock) || (!complete && files[i] == was[i])
  }

  lemma ProgressOn(plans: Plans, was: seq<File>, before: seq<File>, files: seq<File>, now: Time, clock: Time, complete: bool)
    requires Progress(plans, was, before, now, clock, false) && Progress(plans, before, files, now, clock, complete)
    ensures Progress(plans, was, files, now, clock, complete)
  {
    forall i | 0 <= i < |files| ensures Attended(plans, was[i], files[i], now, clock) || (!complete && files[i] == was[i]) {
      assert Attended(plans, before[i], files[i], now, clock) || (!complete && files[i] == before[i]);
      assert Attended(plans, was[i], before[i], now, clock) || before[i] == was[i];
    }
  }

  lemma StuckSame(plans: Plans, was: seq<File>, files: seq<File>, now: Time, clock: Time)
    requires Progress(plans, was, files, now, clock, false)
    ensures StuckFiles(plans, files, now) == StuckFiles(plans, was, now)
  {
  }

  /** The first n files of a batch are attended, all others untouched. */
  predicate BatchDone(plans: Plans, was: seq<File>, files: seq<File>, ids: seq<nat>, n: nat, now: Time, clock: Time)
    requires n <= |ids| && Within(was, ids)
  {
    && |was| == |files|
    && (forall k :: 0 <= k < n ==> Attended(plans, was[ids[k]], files[ids[k]], now, clock))
    && (forall k :: n <= k < |ids| ==> files[ids[k]] == was[ids[k]])
    && (forall i: nat :: i < |files| && i !in ids ==> files[i] == was[i])
  }

  lemma BatchGoesOn(plans: Plans, was: seq<File>, files: seq<File>, ids: seq<nat>, n: nat, now: Time, clock: Time, g: File)
    requires n < |ids| && Within(was, ids) && Distinct(ids) && BatchDone(plans, was, files, ids, n, now, clock)
    requires Attended(plans, files[ids[n]], g, now, clock)
    ensures BatchDone(plans, was, files[ids[n] := g], ids, n + 1, now, clock)
  {
  }

  lemma BatchIsProgress(plans: Plans, was: seq<File>, files: seq<File>, ids: seq<nat>, now: Time, clock: Time)
    requires ids == Batch(was, DueForRenewal, now) && BatchDone(plans, was, files, ids, |ids|, now, clock)
    ensures Progress(plans, was, files, now, clock, |ids| < BATCH)
  {
    forall i | 0 <= i < |files|
      ensures Attended(plans, was[i], files[i], now, clock) || (|ids| == BATCH && files[i] == was[i])
    {
      if i in ids {
        var k :| 0 <= k < |ids| && ids[k] == i;
      } else if |ids| < BATCH {
        assert !Wanted(DueForRenewal, was[i], now);
      }
    }
  }

  /** Every file is as it was, or was overdue and has been ended. */
  predicate EndedSome(was: seq<File>, files: seq<File>, now: Time) {
    && |was| == |files|
    && forall i :: 0 <= i < |files| ==> files[i] == was[i] || (Overdue(was[i], now) && files[i] == B.Expire(was[i], now))
  }

  /** The first n plans of a batch are ended, all others untouched. */
  predicate EndDone(was: seq<File>, files: seq<File>, ids: seq<nat>, n: nat, now: Time)
    requires n <= |ids| && Within(was, ids)
  {
    && |was| == |files|
    && (forall k :: 0 <= k < n ==> files[ids[k]] == B.Expire(was[ids[k]], now))
    && (forall k :: n <= k < |ids| ==> files[ids[k]] == was[ids[k]])
    && (forall i: nat :: i < |files| && i !in ids ==> files[i] == was[i])
  }

  lemma EndGoesOn(was: seq<File>, files: seq<File>, ids: seq<nat>, n: nat, now: Time)
    requires n < |ids| && Within(was, ids) && Distinct(ids) && EndDone(was, files, ids, n, now)
    ensures EndDone(was, files[ids[n] := B.Expire(files[ids[n]], now)], ids, n + 1, now)
  {
  }

  lemma EndIsSome(was: seq<File>, files: seq<File>, ids: seq<nat>, now: Time)
    requires Within(was, ids) && EndDone(was, files, ids, |ids|, now)
    requires forall k :: 0 <= k < |ids| ==> Overdue(was[ids[k]], now)
    ensures EndedSome(was, files, now)
  {
    forall i | 0 <= i < |files| ensures files[i] == was[i] || (Overdue(was[i], now) && files[i] == B.Expire(was[i], now)) {
      if i in ids {
        var k :| 0 <= k < |ids| && ids[k] == i;
      }
    }
  }

  lemma NoneLeft(before: seq<File>, files: seq<File>, ids: seq<nat>, now: Time)
    requires ids == Batch(before, LeftUnpaid, now) && EndedSome(before, files, now)
    requires forall k :: 0 <= k < |ids| ==> files[ids[k]] == B.Expire(before[ids[k]], now)
    ensures |ids| < BATCH ==> forall i :: 0 <= i < |files| ==> !Overdue(files[i], now)
  {
    if |ids| < BATCH {
      forall i | 0 <= i < |files| ensures !Overdue(files[i], now) {
        if Wanted(LeftUnpaid, before[i], now) {
          var k :| 0 <= k < |ids| && ids[k] == i;
        }
      }
    }
  }

  lemma {:induction false} NoneOverdue(files: seq<File>, now: Time)
    requires forall i :: 0 <= i < |files| ==> !Overdue(files[i], now)
    ensures OverdueCount(files, now) == 0
  {
    if files != [] { NoneOverdue(files[..|files| - 1], now); }
  }

  lemma {:induction false} RenewalsSame(was: seq<File>, files: seq<File>, now: Time)
    requires EndedSome(was, files, now)
    ensures Renewals(was) == Renewals(files)
  {
    if files != [] {
      var last := |files| - 1;
      assert files[last] == was[last] || files[last] == B.Expire(was[last], now);
      RenewalsSame(was[..last], files[..last], now);
    }
  }

  /** An unpaid cycle at the end leaves everything paid as it was. */
  lemma FailedAttemptKeeps(b: Book, id: nat, was: File, f: File)
    requires B.FileOk(b, id, was) && was.sub.status.Active? && f.sub.status.PastDue?
    requires f.sub == was.sub.(status := f.sub.status, nextRenewalAt := f.sub.nextRenewalAt)
    requires |f.cycles| == |was.cycles| + 1 && f.cycles[..|was.cycles|] == was.cycles
    requires var c := f.cycles[|was.cycles|];
             !c.paid && c.number == B.NextCycle(was) && c.start == was.sub.periodEnd && c.main == c.bonus == 0 && c.row.None?
    ensures B.FileOk(b, id, f)
  {
    assert f.cycles[..B.PaidCount(f)] == was.cycles[..B.PaidCount(was)];
  }

  /** Only subscriptions that exist have cycle keys in the ledger. */
  predicate KeysWithin(ledger: seq<Entry>, n: nat) {
    forall i :: 0 <= i < |ledger| && ledger[i].key.Some? && ledger[i].key.value.CycleKey? ==> ledger[i].key.value.subscription < n
  }

  ghost predicate AllOk(b: Book, files: seq<File>) {
    forall i :: 0 <= i < |files| ==> B.FileOk(b, i, files[i])
  }

  predicate StandsOn(f: File, row: nat) {
    exists k :: 0 <= k < |f.cycles| && f.cycles[k].row == Some(row)
  }

  predicate SomeStandsOn(files: seq<File>, row: nat) {
    exists i :: 0 <= i < |files| && StandsOn(files[i], row)
  }

  /** The ledger rows that already stand on a cycle of some subscription. */
  ghost function TakenRows(b: Book, files: seq<File>): set<nat> {
    set r: nat | r < |b.ledger| && SomeStandsOn(files, r)
  }

  lemma RowsOfCyclesKnown(b: Book, files: seq<File>)
    requires AllOk(b, files)
    ensures forall row: nat :: SomeStandsOn(files, row) ==> row < |b.ledger|
  {
    forall row: nat | SomeStandsOn(files, row) ensures row < |b.ledger| {
      var i :| 0 <= i < |files| && StandsOn(files[i], row);
      var f := files[i];
      var k :| 0 <= k < |f.cycles| && f.cycles[k].row == Some(row);
      assert B.FileOk(b, i, f);
      if k < B.PaidCount(f) {
        assert B.Billed(b.ledger, i, f.sub.wallet, f.cycles[..B.PaidCount(f)], k);
      }
    }
  }

  /** No member has two plans open at once. */
  ghost predicate OneOpenEach(files: seq<File>) {
    forall i, j, w :: 0 <= i < j < |files| && B.OpenPlan(files[i], w) ==> !B.OpenPlan(files[j], w)
  }

  /** An event of one plan keeps that, as it opens nothing that had ended. */
  lemma EventKeepsOneOpen(b: Book, files: seq<File>, i: nat, e: B.Event)
    requires OneOpenEach(files) && i < |files| && B.Legal(B.State(b, files[i]), i, e)
    ensures OneOpenEach(files[i := B.Next(B.State(b, files[i]), i, e).file])
  {
    var next := files[i := B.Next(B.State(b, files[i]), i, e).file];
    forall j, k, w | 0 <= j < k < |next| && B.OpenPlan(next[j], w) ensures !B.OpenPlan(next[k], w) {
      B.EndedStaysEnded(B.State(b, files[i]), i, e, w);
      assert B.OpenPlan(files[j], w);
    }
  }

  datatype Refusal =
    | PlanNotFound | PlanNotActive | NoPrice | HasOpenPlan | NotPending | WindowClosed
    | RowTaken | NotCharged(why: CoinBook.Refusal)

  // ---------------------------------------------------------------------------------------------
  // The calls
  // ---------------------------------------------------------------------------------------------

  class Subscriptions {
    var files: seq<File>
    var plans: Plans
    const coins: CoinTables
    const graceHours: int
    const windowHours: int

    ghost predicate Valid()
      reads this, coins
    {
      && Agree(coins.Tables())
      && AllOk(coins.Tables(), files)
      && (forall p :: p in plans ==> plans[p].durationDays >= 1)
      && KeysWithin(coins.ledger, |files|)
    }

    constructor (coins: CoinTables, plans: Plans, graceHours: int, windowHours: int)
      requires Agree(coins.Tables()) && KeysWithin(coins.ledger, 0)
      requires forall p :: p in plans ==> plans[p].durationDays >= 1
      ensures Valid() && files == [] && this.coins == coins && this.plans == plans
      ensures this.graceHours == graceHours && this.windowHours == windowHours
    {
      files, this.plans, this.coins, this.graceHours, this.windowHours := [], plans, coins, graceHours, windowHours;
    }

    function RetryAt(clock: Time): Time {
      clock + Max(1, graceHours) * B.HOUR_MS
    }

    /**
     * A failed plan has its whole grace time, at least one hour: no sweep ends it before, and any sweep from
     * then on does.
     */
    lemma GraceIsKept(f: File, plan: B.Plan, clock: Time, t: Time)
      requires B.Renewable(f, Some(plan))
      ensures var failed := B.Unpaid(f, plan, RetryAt(clock));
              && (Overdue(failed, t) <==> t >= clock + (if graceHours >= 1 then graceHours else 1) * 3_600_000)
              && (B.Expire(failed, t).sub.status.Expired? <==> Overdue(failed, t))
    {
    }

    method HasOpen(w: WalletId) returns (found: bool)
      ensures found <==> exists i :: 0 <= i < |files| && B.OpenPlan(files[i], w)
    {
      for i := 0 to |files|
        invariant forall j :: 0 <= j < i ==> !B.OpenPlan(files[j], w)
      {
        if B.OpenPlan(files[i], w) { return true; }
      }
      return false;
    }

    /** Appends a PENDING file to `files`; the tables stay, and a wallet never has two open plans. */
    method Subscribe(w: WalletId, planId: B.PlanId, now: Time) returns (answer: Outcome<nat, Refusal>)
      requires Valid() && w in coins.wallets
      modifies this`files
      ensures Valid()
      ensures answer.Ok? <==> planId in plans && plans[planId].isActive && plans[planId].price.Some?
                              && !exists i :: 0 <= i < |old(files)| && B.OpenPlan(old(files)[i], w)
      ensures answer.Ok? ==> answer.value == |old(files)|
                             && files == old(files) + [B.Subscribed(w, planId, plans[planId], plans[planId].price.value, now)]
      ensures answer.Err? ==>
                && files == old(files)
                && answer.error == (if planId !in plans then PlanNotFound
                                    else if !plans[planId].isActive then PlanNotActive
                                    else if plans[planId].price.None? then NoPrice
                                    else HasOpenPlan)
      ensures OneOpenEach(old(files)) ==> OneOpenEach(files)
    {
      if planId !in plans { return Err(PlanNotFound); }
      var plan := plans[planId];
      if !plan.isActive { return Err(PlanNotActive); }
      if plan.price.None? { return Err(NoPrice); }
      var open := HasOpen(w);
      if open { return Err(HasOpenPlan); }
      B.SubscribedIsGood(coins.Tables(), |files|, w, planId, plan, plan.price.value, now);
      var end := now + plan.durationDays * DAY_MS;
      var sub := B.Subscription(w, planId, B.Pending, true, plan.price.value, now, end, Some(end), 0);
      files := files + [B.File(sub, [])];
      return Ok(|files| - 1);
    }

    method HasCycleOn(row: nat) returns (found: bool)
      ensures found <==> SomeStandsOn(files, row)
    {
      for i := 0 to |files|
        invariant forall j :: 0 <= j < i ==> !StandsOn(files[j], row)
      {
        for k := 0 to |files[i].cycles|
          invariant forall j :: 0 <= j < k ==> files[i].cycles[j].row != Some(row)
        {
          if files[i].cycles[k].row == Some(row) {
            assert StandsOn(files[i], row);
            return true;
          }
        }
      }
      return false;
    }

    /** B.Activate on the tables; Valid survives a key that is fresh and the caller's own. */
    method Activate(i: nat, key: Option<Key>, now: Time) returns (answer: Outcome<Movement, Refusal>)
      requires Valid() && i < |files|
      modifies this`files, coins
      ensures !KeyUsed(old(coins.ledger), key) && (key.Some? ==> key.value.CallerKey?) ==> Valid()
      ensures |files| == |old(files)| && files == old(files)[i := files[i]]
      ensures (coins.Tables(), files[i])
              == B.Activate(old(coins.Tables()), old(files)[i], PlanOf(plans, old(files)[i]), key,
                            SpendableLots(old(coins.lots), old(files)[i].sub.wallet, now), now,
                            old(TakenRows(coins.Tables(), files)))
      ensures answer.Ok? <==> files != old(files)
      ensures answer == Err(NotPending) <==> !old(files)[i].sub.status.Pending?
      ensures answer == Err(PlanNotFound) <==> old(files)[i].sub.status.Pending? && old(files)[i].sub.plan !in plans
      ensures answer == Err(PlanNotActive) <==>
                old(files)[i].sub.status.Pending? && old(files)[i].sub.plan in plans && !plans[old(files)[i].sub.plan].isActive
    {
      if !KeyUsed(coins.ledger, key) && (key.Some? ==> key.value.CallerKey?) {
        ActivateKeepsAll(i, key, SpendableLots(coins.lots, files[i].sub.wallet, now), now);
      }
      var f := files[i];
      if !f.sub.status.Pending? { return Err(NotPending); }
      if f.sub.plan !in plans { return Err(PlanNotFound); }
      var plan := plans[f.sub.plan];
      if !plan.isActive { return Err(PlanNotActive); }
      RowsOfCyclesKnown(coins.Tables(), files);
      answer := StartPlan(i, plan, key, now);
    }

    /** One transaction: the charge, the running plan and its first cycle, or none of them. */
    method StartPlan(i: nat, plan: B.Plan, key: Option<Key>, now: Time) returns (answer: Outcome<Movement, Refusal>)
      requires Agree(coins.Tables()) && i < |files| && B.Activatable(files[i], Some(plan))
      requires forall row: nat :: SomeStandsOn(files, row) ==> row < |coins.ledger|
      modifies this`files, coins
      ensures |files| == |old(files)| && files == old(files)[i := files[i]]
      ensures (coins.Tables(), files[i])
              == B.Activate(old(coins.Tables()), old(files)[i], Some(plan), key,
                            SpendableLots(old(coins.lots), old(files)[i].sub.wallet, now), now,
                            old(TakenRows(coins.Tables(), files)))
      ensures answer.Ok? <==> files != old(files)
      ensures answer.Err? ==> answer.error.RowTaken? || answer.error.NotCharged?
    {
      var f := files[i];
      // `now` replaces the start that Subscribe wrote.
      var periodEnd := now + plan.durationDays * DAY_MS;
      var wallets, lots, ledger := coins.wallets, coins.lots, coins.ledger;
      var charged := coins.Spend(f.sub.wallet, SpendRequest(Cause(PlanPayment, None, None), f.sub.price, key), now);
      match charged
      case Err(why) =>
        coins.wallets, coins.lots, coins.ledger := wallets, lots, ledger;
        return Err(NotCharged(why));
      case Ok(movement) =>
        var taken := HasCycleOn(movement.transaction);
        if taken {
          // The unique index refuses the cycle, which undoes the transaction.
          coins.wallets, coins.lots, coins.ledger := wallets, lots, ledger;
          return Err(RowTaken);
        }
        var first := B.Cycle(1, now, periodEnd, f.sub.price, true, movement.main, movement.bonus, Some(movement.transaction));
        files := files[i := B.File(f.sub.(status := B.Active, autoRenew := true, periodStart := now, periodEnd := periodEnd,
                                          nextRenewalAt := Some(periodEnd)), f.cycles + [first])];
        assert files[i].sub.status != f.sub.status;
        return Ok(movement);
    }

    lemma ActivateKeepsAll(i: nat, key: Option<Key>, rows: seq<LotId>, now: Time)
      requires Valid() && i < |files| && IsSelection(coins.lots, files[i].sub.wallet, now, rows)
      requires !KeyUsed(coins.ledger, key) && (key.Some? ==> key.value.CallerKey?)
      ensures var (after, g) := B.Activate(coins.Tables(), files[i], PlanOf(plans, files[i]), key, rows, now,
                                           TakenRows(coins.Tables(), files));
              Agree(after) && KeysWithin(after.ledger, |files|) && AllOk(after, files[i := g])
    {
      var b := coins.Tables();
      var taken := TakenRows(b, files);
      var plan := PlanOf(plans, files[i]);
      var (after, g) := B.Activate(b, files[i], plan, key, rows, now, taken);
      B.ActivateKeeps(b, i, files[i], plan, key, rows, now, taken);
      ActivateGrows(b, files[i], plan, key, rows, now, taken, |files|);
      var next := files[i := g];
      forall j | 0 <= j < |next| ensures B.FileOk(after, j, next[j]) {
        if j != i {
          B.FileStays(b, after, j, files[j]);
        }
      }
    }

    /** Refused once the window has closed; the paid period is untouched either way. */
    method CancelAutoRenew(i: nat, now: Time) returns (answer: Outcome<File, Refusal>)
      requires Valid() && i < |files|
      modifies this`files
      ensures Valid() && files == old(files)[i := B.StopAutoRenew(old(files)[i], now, windowHours)]
      ensures answer == if B.WindowClosed(old(files)[i], now, windowHours) then Err(WindowClosed) else Ok(files[i])
    {
      var f := files[i];
      if f.sub.nextRenewalAt.Some? {
        var deadline := f.sub.nextRenewalAt.value - windowHours * B.HOUR_MS;
        if deadline <= now { return Err(WindowClosed); }
      }
      files := files[i := f.(sub := f.sub.(autoRenew := false, nextRenewalAt := None))];
      return Ok(files[i]);
    }

    /** Puts `periodEnd` back as the renewal date. */
    method ResumeAutoRenew(i: nat)
      requires Valid() && i < |files|
      modifies this`files
      ensures Valid() && files == old(files)[i := B.ResumeAutoRenew(old(files)[i])]
    {
      var f := files[i];
      if f.sub.autoRenew { return; }
      files := files[i := f.(sub := f.sub.(autoRenew := true, nextRenewalAt := Some(f.sub.periodEnd)))];
    }

    /** The plan ends now, whatever its status was. */
    method CancelByAdmin(i: nat)
      requires Valid() && i < |files|
      modifies this`files
      ensures Valid() && files == old(files)[i := B.CancelByAdmin(old(files)[i])]
      ensures files[i].sub.status.Cancelled? && !files[i].sub.autoRenew && files[i].sub.nextRenewalAt.None?
      ensures files[i].cycles == old(files)[i].cycles && files[i].sub.periodEnd == old(files)[i].sub.periodEnd
      ensures forall t: Time :: !RenewalDue(files[i], t) && !Overdue(files[i], t)
    {
      var f := files[i];
      files := files[i := f.(sub := f.sub.(status := B.Cancelled, autoRenew := false, nextRenewalAt := None))];
    }

    /** Charges one cycle of one subscription; no other file changes. */
    method Renew(i: nat, now: Time, clock: Time) returns (renewed: bool)
      requires Valid() && i < |files|
      modifies this`files, coins
      ensures Valid() && |files| == |old(files)| && files == old(files)[i := files[i]]
      ensures (coins.Tables(), files[i])
              == B.Renew(old(coins.Tables()), i, old(files)[i], PlanOf(plans, old(files)[i]),
                         SpendableLots(old(coins.lots), old(files)[i].sub.wallet, now), now, RetryAt(clock))
      ensures renewed <==> files[i].sub.renewalsCompleted == old(files)[i].sub.renewalsCompleted + 1
      ensures !renewed ==> files[i].sub.renewalsCompleted == old(files)[i].sub.renewalsCompleted
    {
      RenewKeepsAll(i, SpendableLots(coins.lots, files[i].sub.wallet, now), now, RetryAt(clock));
      var f := files[i];
      if !f.sub.status.Active? || !f.sub.autoRenew { return false; }
      if f.sub.plan !in plans || !plans[f.sub.plan].isActive { return false; }
      renewed := ChargeCycle(i, plans[f.sub.plan], now, clock);
    }

    /** The charge itself; a refusal is caught and written down. */
    method ChargeCycle(i: nat, plan: B.Plan, now: Time, clock: Time) returns (renewed: bool)
      requires Agree(coins.Tables()) && i < |files| && B.Renewable(files[i], Some(plan))
      modifies this`files, coins
      ensures |files| == |old(files)| && files == old(files)[i := files[i]]
      ensures (coins.Tables(), files[i])
              == B.Renew(old(coins.Tables()), i, old(files)[i], Some(plan),
                         SpendableLots(old(coins.lots), old(files)[i].sub.wallet, now), now, RetryAt(clock))
      ensures renewed <==> files[i].sub.renewalsCompleted == old(files)[i].sub.renewalsCompleted + 1
      ensures !renewed ==> files[i].sub.renewalsCompleted == old(files)[i].sub.renewalsCompleted
    {
      var f := files[i];
      var cycle := f.sub.renewalsCompleted + 2;
      var periodEnd := f.sub.periodEnd + plan.durationDays * DAY_MS;
      var price := if plan.price.Some? then plan.price.value else f.sub.price;
      var rq := SpendRequest(Cause(PlanRenewal, None, None), price, Some(CycleKey(i, cycle)));
      var answer := coins.Spend(f.sub.wallet, rq, now);
      match answer
      case Err(_) =>
        MarkPastDue(i, cycle, periodEnd, price, RetryAt(clock));
        assert files[i].cycles == f.cycles + [B.Cycle(cycle, f.sub.periodEnd, periodEnd, price, false, 0, 0, None)];
        assert files[i] == B.Unpaid(f, plan, RetryAt(clock));
        renewed := false;
      case Ok(movement) =>
        var paid := B.Cycle(cycle, f.sub.periodEnd, periodEnd, price, true, movement.main, movement.bonus, Some(movement.transaction));
        var sub := f.sub.(status := B.Active, price := price, periodStart := f.sub.periodEnd, periodEnd := periodEnd,
                          nextRenewalAt := Some(periodEnd), renewalsCompleted := f.sub.renewalsCompleted + 1);
        files := files[i := B.File(sub, f.cycles + [paid])];
        renewed := true;
    }

    /**
     * Adds the failed attempt: whatever was paid and every date but the retry moment stay, and a file that
     * was in order for its next cycle is in order afterwards.
     */
    method MarkPastDue(i: nat, cycle: nat, periodEnd: Time, price: int, retryAt: Time)
      requires i < |files|
      modifies this`files
      ensures |files| == |old(files)| && forall j :: 0 <= j < |files| && j != i ==> files[j] == old(files)[j]
      ensures var was, f := old(files)[i], files[i];
              && |f.cycles| == |was.cycles| + 1 && f.cycles[..|was.cycles|] == was.cycles
              && !f.cycles[|was.cycles|].paid && f.cycles[|was.cycles|].row.None?
              && f.cycles[|was.cycles|].main == f.cycles[|was.cycles|].bonus == 0
              && f.cycles[|was.cycles|].start == was.sub.periodEnd && f.cycles[|was.cycles|].end == periodEnd
              && f.cycles[|was.cycles|].number == cycle && f.cycles[|was.cycles|].price == price
      ensures var was, sub := old(files)[i].sub, files[i].sub;
              && sub.status.PastDue? && sub.nextRenewalAt == Some(retryAt)
              && sub.periodStart == was.periodStart && sub.periodEnd == was.periodEnd && sub.price == was.price
              && sub.renewalsCompleted == was.renewalsCompleted && sub.autoRenew == was.autoRenew
              && sub.wallet == was.wallet && sub.plan == was.plan
      ensures old(files)[i].sub.status.Active? && cycle == B.NextCycle(old(files)[i]) ==>
                forall b: Book :: B.FileOk(b, i, old(files)[i]) ==> B.FileOk(b, i, files[i])
    {
      var f := files[i];
      var failed := B.Cycle(cycle, f.sub.periodEnd, periodEnd, price, false, 0, 0, None);
      files := files[i := B.File(f.sub.(status := B.PastDue, nextRenewalAt := Some(retryAt)), f.cycles + [failed])];
      assert files[i].cycles[..|f.cycles|] == f.cycles;
      if f.sub.status.Active? && cycle == B.NextCycle(f) {
        forall b: Book | B.FileOk(b, i, f) ensures B.FileOk(b, i, files[i]) {
          FailedAttemptKeeps(b, i, f, files[i]);
        }
      }
    }

    /** One renewal keeps its own file and every other. */
    lemma RenewKeepsAll(i: nat, rows: seq<LotId>, now: Time, retryAt: Time)
      requires Valid() && i < |files| && IsSelection(coins.lots, files[i].sub.wallet, now, rows)
      ensures var (after, g) := B.Renew(coins.Tables(), i, files[i], PlanOf(plans, files[i]), rows, now, retryAt);
              Agree(after) && KeysWithin(after.ledger, |files|) && AllOk(after, files[i := g])
    {
      var b := coins.Tables();
      var plan := PlanOf(plans, files[i]);
      var (after, g) := B.Renew(b, i, files[i], plan, rows, now, retryAt);
      B.RenewKeeps(b, i, files[i], plan, rows, now, retryAt);
      B.RenewGrows(b, i, files[i], plan, rows, now, retryAt, |files|);
      assert KeysWithin(after.ledger, |files|) by { RenewKeysWithin(b, i, files[i], plan, rows, now, retryAt, |files|); }
      var next := files[i := g];
      forall j | 0 <= j < |next| ensures B.FileOk(after, j, next[j]) {
        if j != i {
          B.RenewGrows(b, i, files[i], plan, rows, now, retryAt, j);
          B.FileStays(b, after, j, files[j]);
        }
      }
    }

    /** Ends a plan whose grace period is over. */
    method Expire(i: nat, now: Time) returns (ended: bool)
      requires Valid() && i < |files|
      modifies this`files
      ensures Valid() && files == old(files)[i := B.Expire(old(files)[i], now)]
      ensures ended <==> files != old(files)
    {
      var f := files[i];
      if !f.sub.status.PastDue? { return false; }
      if f.sub.nextRenewalAt.Some? && f.sub.nextRenewalAt.value > now { return false; }
      files := files[i := f.(sub := f.sub.(status := B.Expired, autoRenew := false, nextRenewalAt := None))];
      assert files[i].sub.status != f.sub.status;
      return true;
    }

    // -------------------------------------------------------------------------------------------
    // The sweep
    // -------------------------------------------------------------------------------------------

    /** One plan of a batch: attempted if its plan is on sale, left exactly as it was otherwise. */
    method RenewOne(i: nat, now: Time, clock: Time) returns (renewed: bool)
      requires Valid() && i < |files| && RenewalDue(files[i], now)
      modifies this`files, coins
      ensures Valid() && |files| == |old(files)| && files == old(files)[i := files[i]]
      ensures Attended(plans, old(files)[i], files[i], now, clock)
      ensures Renewals(files) == Renewals(old(files)) + if renewed then 1 else 0
      ensures TotalBehind(plans, files, now) <= TotalBehind(plans, old(files), now)
      ensures Attempted(plans, old(files)[i], now) ==> TotalBehind(plans, files, now) < TotalBehind(plans, old(files), now)
    {
      ghost var f := files[i];
      if Attempted(plans, f, now) {
        RenewalCatchesUp(coins.Tables(), plans, i, f, SpendableLots(coins.lots, f.sub.wallet, now), now, RetryAt(clock));
      }
      renewed := Renew(i, now, clock);
      BehindUpdated(plans, old(files), i, files[i], now);
      RenewalsUpdated(old(files), i, files[i]);
    }

    method RenewBatch(ids: seq<nat>, now: Time, clock: Time) returns (renewed: nat)
      requires Valid() && Distinct(ids) && Within(files, ids)
      requires forall k :: 0 <= k < |ids| ==> RenewalDue(files[ids[k]], now)
      modifies this`files, coins
      ensures Valid() && BatchDone(plans, old(files), files, ids, |ids|, now, clock)
      ensures Renewals(files) == Renewals(old(files)) + renewed
      ensures TotalBehind(plans, files, now) <= TotalBehind(plans, old(files), now)
      ensures (exists k :: 0 <= k < |ids| && Attempted(plans, old(files)[ids[k]], now)) ==>
                TotalBehind(plans, files, now) < TotalBehind(plans, old(files), now)
    {
      renewed := 0;
      ghost var was, moved := files, false;
      for n := 0 to |ids|
        invariant Valid() && BatchDone(plans, was, files, ids, n, now, clock)
        invariant Renewals(files) == Renewals(was) + renewed
        invariant TotalBehind(plans, files, now) <= TotalBehind(plans, was, now)
        invariant moved ==> TotalBehind(plans, files, now) < TotalBehind(plans, was, now)
        invariant forall k :: 0 <= k < n && Attempted(plans, was[ids[k]], now) ==> moved
      {
        ghost var before := files;
        var done := RenewOne(ids[n], now, clock);
        BatchGoesOn(plans, was, before, ids, n, now, clock, files[ids[n]]);
        if done { renewed := renewed + 1; }
        moved := moved || Attempted(plans, was[ids[n]], now);
      }
    }

    /**
     * Renews what is due. Ends as long as fewer than BATCH due plans are stuck. Every plan that was due
     * and can be renewed got at least one attempt, every other file is untouched.
     */
    method RenewAll(now: Time, clock: Time) returns (renewed: nat)
      requires Valid() && |StuckFiles(plans, files, now)| < BATCH
      modifies this`files, coins
      ensures Valid() && Progress(plans, old(files), files, now, clock, true)
      ensures Renewals(files) == Renewals(old(files)) + renewed
    {
      renewed := 0;
      var ended := false;
      ghost var was := files;
      while !ended
        invariant Valid() && Progress(plans, was, files, now, clock, ended)
        invariant Renewals(files) == Renewals(was) + renewed
        invariant |StuckFiles(plans, files, now)| < BATCH
        decreases !ended, TotalBehind(plans, files, now)
      {
        var due := Batch(files, DueForRenewal, now);
        ghost var before := files;
        if |due| == BATCH {
          FullBatchMoves(plans, files, now);
        }
        forall k | 0 <= k < |due| ensures RenewalDue(files[due[k]], now) {
          assert Wanted(DueForRenewal, files[due[k]], now);
        }
        if |due| > 0 {
          var n := RenewBatch(due, now, clock);
          renewed := renewed + n;
        }
        ended := |due| < BATCH;
        BatchIsProgress(plans, before, files, due, now, clock);
        StuckSame(plans, before, files, now, clock);
        ProgressOn(plans, was, before, files, now, clock, ended);
      }
    }

    method ExpireOne(i: nat, now: Time) returns (ended: bool)
      requires Valid() && i < |files| && Overdue(files[i], now)
      modifies this`files
      ensures Valid() && files == old(files)[i := B.Expire(old(files)[i], now)] && ended
      ensures !Overdue(files[i], now)
    {
      ended := Expire(i, now);
      assert files[i].sub.status.Expired? && old(files)[i].sub.status.PastDue?;
    }

    method EndBatch(ids: seq<nat>, now: Time) returns (expired: nat)
      requires Valid() && Distinct(ids) && Within(files, ids)
      requires forall k :: 0 <= k < |ids| ==> Overdue(files[ids[k]], now)
      modifies this`files
      ensures Valid() && EndedSome(old(files), files, now)
      ensures forall k :: 0 <= k < |ids| ==> files[ids[k]] == B.Expire(old(files)[ids[k]], now)
      ensures expired == |ids| && OverdueCount(files, now) == OverdueCount(old(files), now) - expired
    {
      expired := 0;
      ghost var was := files;
      for n := 0 to |ids|
        invariant Valid() && EndDone(was, files, ids, n, now)
        invariant expired == n && OverdueCount(files, now) == OverdueCount(was, now) - n
      {
        OverdueUpdated(files, ids[n], B.Expire(files[ids[n]], now), now);
        EndGoesOn(was, files, ids, n, now);
        var ended := ExpireOne(ids[n], now);
        if ended { expired := expired + 1; }
      }
      EndIsSome(was, files, ids, now);
    }

    /** Ends every plan whose grace period is over; always terminates. */
    method EndUnpaid(now: Time) returns (expired: nat)
      requires Valid()
      modifies this`files
      ensures Valid() && EndedSome(old(files), files, now)
      ensures forall i :: 0 <= i < |files| ==> !Overdue(files[i], now)
      ensures forall i :: 0 <= i < |files| ==>
                files[i] == if Overdue(old(files)[i], now) then B.Expire(old(files)[i], now) else old(files)[i]
      ensures expired == OverdueCount(old(files), now)
    {
      expired := 0;
      var ended := false;
      while !ended
        invariant Valid() && EndedSome(old(files), files, now)
        invariant expired == OverdueCount(old(files), now) - OverdueCount(files, now)
        invariant ended ==> forall i :: 0 <= i < |files| ==> !Overdue(files[i], now)
        decreases !ended, OverdueCount(files, now)
      {
        var unpaid := Batch(files, LeftUnpaid, now);
        ghost var before := files;
        forall k | 0 <= k < |unpaid| ensures Overdue(files[unpaid[k]], now) {
          assert Wanted(LeftUnpaid, files[unpaid[k]], now);
        }
        if |unpaid| > 0 {
          var n := EndBatch(unpaid, now);
          expired := expired + n;
        }
        ended := |unpaid| < BATCH;
        NoneLeft(before, files, unpaid, now);
      }
      NoneOverdue(files, now);
    }

    /**
     * The sweep. With fewer than BATCH stuck plans it ends; every plan that was due and can be renewed
     * was attempted, no plan is left overdue, the plans that were not due are untouched, and a plan that
     * falls past due in this run is not ended by it.
     */
    method RenewDue(now: Time, clock: Time) returns (renewed: nat, expired: nat)
      requires Valid() && |StuckFiles(plans, files, now)| < BATCH
      modifies this`files, coins
      ensures Valid() && |files| == |old(files)|
      ensures forall i :: 0 <= i < |files| && Attempted(plans, old(files)[i], now) ==> |files[i].cycles| > |old(files)[i].cycles|
      ensures forall i :: 0 <= i < |files| ==> !Overdue(files[i], now)
      ensures forall i :: 0 <= i < |files| && !Attempted(plans, old(files)[i], now) ==>
                files[i] == if Overdue(old(files)[i], now) then B.Expire(old(files)[i], now) else old(files)[i]
      ensures clock >= now ==> forall i :: 0 <= i < |files| && old(files)[i].sub.status.Active? ==> !files[i].sub.status.Expired?
      ensures Renewals(files) == Renewals(old(files)) + renewed
      ensures clock >= now ==> expired == OverdueCount(old(files), now)
    {
      ghost var was := files;
      renewed := RenewAll(now, clock);
      ghost var between := files;
      expired := EndUnpaid(now);
      RenewalsSame(between, files, now);
      forall i | 0 <= i < |files|
        ensures Attempted(plans, was[i], now) ==> |files[i].cycles| > |was[i].cycles|
        ensures clock >= now ==> (Overdue(was[i], now) <==> Overdue(between[i], now))
        ensures clock >= now && was[i].sub.status.Active? ==> !files[i].sub.status.Expired?
        ensures !Attempted(plans, was[i], now) ==> files[i] == if Overdue(was[i], now) then B.Expire(was[i], now) else was[i]
      {
        assert Attended(plans, was[i], between[i], now, clock);
        assert files[i] == between[i] || (Overdue(between[i], now) && files[i] == B.Expire(between[i], now));
      }
      if clock >= now {
        OverdueSame(was, between, now);
      }
    }
  }
}
