/**
 * Subscriptions and their billed cycles: activation, renewal, a renewal that finds no Coins, the end
 * of an unpaid plan, auto-renew switched off and on, and cancellation by the Admin. The Coins move in
 * the book of CoinBook.
 */
module Billing {
  import opened Prelude
  import opened CoinBook
  import opened CoinBookProofs
  import opened CoinMoves

  type SubscriptionId = nat
  type PlanId = nat

  const HOUR_MS := 3_600_000

  datatype Status = Pending | Active | PastDue | Cancelled | Expired

  /** A plan as one call reads it, with the price in force at that moment if there is one. */
  datatype Plan = Plan(isActive: bool, durationDays: nat, price: Option<int>)

  datatype Subscription = Subscription(wallet: WalletId, plan: PlanId, status: Status, autoRenew: bool, price: int,
                                       periodStart: Time, periodEnd: Time, nextRenewalAt: Option<Time>,
                                       renewalsCompleted: nat)

  /** A billed cycle; a FAILED one has no Coins and no ledger row. */
  datatype Cycle = Cycle(number: nat, start: Time, end: Time, price: int, paid: bool, main: int, bonus: int,
                         row: Option<nat>)

  datatype File = File(sub: Subscription, cycles: seq<Cycle>)

  // ---------------------------------------------------------------------------------------------
  // The calls
  // ---------------------------------------------------------------------------------------------

  /** The quote of the first cycle; no Coin moves. */
  function Subscribed(w: WalletId, id: PlanId, plan: Plan, price: int, now: Time): File {
    var end := now + plan.durationDays * DAY_MS;
    File(Subscription(w, id, Pending, true, price, now, end, Some(end), 0), [])
  }

  predicate Activatable(f: File, plan: Option<Plan>) {
    f.sub.status.Pending? && plan.Some? && plan.value.isActive
  }

  function FirstRequest(f: File, key: Option<Key>): SpendRequest {
    SpendRequest(Cause(PlanPayment, None, None), f.sub.price, key)
  }

  /**
   * Takes the first cycle's Coins and starts the period; refused, everything stays as it was. `taken` are
   * the ledger rows that already stand on a cycle: a second cycle on one of them breaks the unique index,
   * which undoes the call. A renewal's own key keeps it clear of them (RenewalRowIsNew).
   */
  function Activate(b: Book, f: File, plan: Option<Plan>, key: Option<Key>, rows: seq<LotId>, now: Time, taken: set<nat>): (Book, File)
    requires forall k :: 0 <= k < |rows| ==> rows[k] < |b.lots|
  {
    if !Activatable(f, plan) then (b, f)
    else
      var (after, answer) := Spend(b, f.sub.wallet, FirstRequest(f, key), rows, now);
      match answer
      case Err(_) => (b, f)
      case Ok(m) =>
        var end := now + plan.value.durationDays * DAY_MS;
        if m.transaction in taken then (b, f)
        else (after, File(f.sub.(status := Active, autoRenew := true, periodStart := now, periodEnd := end, nextRenewalAt := Some(end)),
                          f.cycles + [Cycle(1, now, end, f.sub.price, true, m.main, m.bonus, Some(m.transaction))]))
  }

  /** Every row a cycle stands on is in the ledger. */
  predicate TakenKnown(b: Book, taken: set<nat>) {
    forall r :: r in taken ==> r < |b.ledger|
  }

  predicate Renewable(f: File, plan: Option<Plan>) {
    f.sub.status.Active? && f.sub.autoRenew && plan.Some? && plan.value.isActive
  }

  function RenewalPrice(f: File, plan: Plan): int {
    if plan.price.Some? then plan.price.value else f.sub.price
  }

  function NextCycle(f: File): nat {
    f.sub.renewalsCompleted + 2
  }

  function RenewalRequest(id: SubscriptionId, f: File, plan: Plan): SpendRequest {
    SpendRequest(Cause(PlanRenewal, None, None), RenewalPrice(f, plan), Some(CycleKey(id, NextCycle(f))))
  }

  /** The file after a refused charge: one unpaid cycle, PAST_DUE, and a retry moment in place of the renewal date. */
  function Unpaid(f: File, plan: Plan, retryAt: Time): File {
    File(f.sub.(status := PastDue, nextRenewalAt := Some(retryAt)),
         f.cycles + [Cycle(NextCycle(f), f.sub.periodEnd, f.sub.periodEnd + plan.durationDays * DAY_MS, RenewalPrice(f, plan),
                           false, 0, 0, None)])
  }

  function Paid(f: File, plan: Plan, m: Movement): File {
    var end := f.sub.periodEnd + plan.durationDays * DAY_MS;
    File(f.sub.(status := Active, price := RenewalPrice(f, plan), periodStart := f.sub.periodEnd, periodEnd := end,
                nextRenewalAt := Some(end), renewalsCompleted := f.sub.renewalsCompleted + 1),
         f.cycles + [Cycle(NextCycle(f), f.sub.periodEnd, end, RenewalPrice(f, plan), true, m.main, m.bonus, Some(m.transaction))])
  }

  /** Charges one cycle; a refused charge is caught and still written down. */
  function Renew(b: Book, id: SubscriptionId, f: File, plan: Option<Plan>, rows: seq<LotId>, now: Time, retryAt: Time): (Book, File)
    requires forall k :: 0 <= k < |rows| ==> rows[k] < |b.lots|
  {
    if !Renewable(f, plan) then (b, f)
    else
      var (after, answer) := Spend(b, f.sub.wallet, RenewalRequest(id, f, plan.value), rows, now);
      match answer
      case Err(_) => (b, Unpaid(f, plan.value, retryAt))
      case Ok(m) => (after, Paid(f, plan.value, m))
  }

  /** The grace period is over. */
  function Expire(f: File, now: Time): File {
    if !f.sub.status.PastDue? || (f.sub.nextRenewalAt.Some? && f.sub.nextRenewalAt.value > now) then f
    else f.(sub := f.sub.(status := Expired, autoRenew := false, nextRenewalAt := None))
  }

  predicate WindowClosed(f: File, now: Time, windowHours: int) {
    f.sub.nextRenewalAt.Some? && f.sub.nextRenewalAt.value - windowHours * HOUR_MS <= now
  }

  /** Not guarded on the status, and neither is its opposite. */
  function StopAutoRenew(f: File, now: Time, windowHours: int): File {
    if WindowClosed(f, now, windowHours) then f
    else f.(sub := f.sub.(autoRenew := false, nextRenewalAt := None))
  }

  function ResumeAutoRenew(f: File): File {
    if f.sub.autoRenew then f
    else f.(sub := f.sub.(autoRenew := true, nextRenewalAt := Some(f.sub.periodEnd)))
  }

  function CancelByAdmin(f: File): File {
    f.(sub := f.sub.(status := Cancelled, autoRenew := false, nextRenewalAt := None))
  }

  // ---------------------------------------------------------------------------------------------
  // What a file promises
  // ---------------------------------------------------------------------------------------------

  function PaidCount(f: File): nat {
    f.sub.renewalsCompleted + 1
  }

  /** The rows from `from` up to `to` are the whole payment of this cycle. */
  predicate CarriedBy(ledger: seq<Entry>, w: WalletId, kind: EntryKind, c: Cycle, from: nat, to: nat)
  {
    && from < to <= |ledger|
    && MainSum(ledger[..to], w) == MainSum(ledger[..from], w) - c.main
    && BonusSum(ledger[..to], w) == BonusSum(ledger[..from], w) - c.bonus
    && forall i :: from <= i < to ==> ledger[i].wallet == w && ledger[i].cause.kind == kind
  }

  function KindOf(k: nat): EntryKind {
    if k == 0 then PlanPayment else PlanRenewal
  }

  /** The payment has an end, and the next paid cycle's payment begins no earlier. */
  ghost predicate PaidApart(ledger: seq<Entry>, w: WalletId, paid: seq<Cycle>, k: nat)
    requires k < |paid| && paid[k].row.Some?
  {
    exists to: nat :: CarriedBy(ledger, w, KindOf(k), paid[k], paid[k].row.value, to)
                      && (k + 1 < |paid| && paid[k + 1].row.Some? ==> to <= paid[k + 1].row.value)
  }

  /** One paid cycle: numbered, abutting, priced at what was charged, and paid by ledger rows of its own. */
  ghost predicate Billed(ledger: seq<Entry>, id: SubscriptionId, w: WalletId, paid: seq<Cycle>, k: nat)
    requires k < |paid|
  {
    var c := paid[k];
    && c.paid && c.number == k + 1
    && (k > 0 ==> c.start == paid[k - 1].end)
    && c.price == c.main + c.bonus && c.main >= 0 && c.bonus >= 0 && c.price > 0
    && c.row.Some? && c.row.value < |ledger|
    && (k > 0 ==> ledger[c.row.value].key == Some(CycleKey(id, k + 1)))
    && PaidApart(ledger, w, paid, k)
  }

  ghost predicate AllBilled(ledger: seq<Entry>, id: SubscriptionId, w: WalletId, paid: seq<Cycle>) {
    forall k :: 0 <= k < |paid| ==> Billed(ledger, id, w, paid, k)
  }

  /** The cycles of an activated plan: all paid and gapless, but for at most one failed attempt at the end. */
  ghost predicate HistoryOk(ledger: seq<Entry>, id: SubscriptionId, f: File) {
    var n := PaidCount(f);
    && n <= |f.cycles| <= n + 1
    && AllBilled(ledger, id, f.sub.wallet, f.cycles[..n])
    && f.sub.periodStart == f.cycles[n - 1].start && f.sub.periodEnd == f.cycles[n - 1].end
    && f.sub.price == f.cycles[n - 1].price
    && (|f.cycles| == n + 1 ==>
          !f.cycles[n].paid && f.cycles[n].number == n + 1 && f.cycles[n].start == f.sub.periodEnd
          && f.cycles[n].main == f.cycles[n].bonus == 0 && f.cycles[n].row.None?)
  }

  predicate StatusOk(f: File) {
    match f.sub.status
    case Pending => f.cycles == []
    case Active =>
      |f.cycles| == PaidCount(f) && f.sub.nextRenewalAt == if f.sub.autoRenew then Some(f.sub.periodEnd) else None
    case PastDue => |f.cycles| == PaidCount(f) + 1
    case Expired => |f.cycles| == PaidCount(f) + 1
    case Cancelled => true
  }

  predicate IsCycleKey(key: Option<Key>, id: SubscriptionId) {
    key.Some? && key.value.CycleKey? && key.value.subscription == id
  }

  predicate KeysAhead(ledger: seq<Entry>, id: SubscriptionId, f: File) {
    forall i :: 0 <= i < |ledger| && IsCycleKey(ledger[i].key, id) ==> ledger[i].key.value.cycle < NextCycle(f)
  }

  ghost predicate FileOk(b: Book, id: SubscriptionId, f: File) {
    && f.sub.wallet in b.wallets
    && KeysAhead(b.ledger, id, f)
    && (if f.cycles == [] then f.sub.renewalsCompleted == 0 else HistoryOk(b.ledger, id, f))
    && StatusOk(f)
  }

  // ---------------------------------------------------------------------------------------------
  // Other people's payments
  // ---------------------------------------------------------------------------------------------

  /** The tables moved on without touching the keys of this subscription. */
  predicate Grows(b: Book, next: Book, id: SubscriptionId) {
    && b.ledger <= next.ledger && b.wallets.Keys <= next.wallets.Keys
    && forall i :: |b.ledger| <= i < |next.ledger| ==> !IsCycleKey(next.ledger[i].key, id)
  }

  lemma CarriedStays(ledger: seq<Entry>, next: seq<Entry>, w: WalletId, kind: EntryKind, c: Cycle, from: nat, to: nat)
    requires ledger <= next && CarriedBy(ledger, w, kind, c, from, to)
    ensures CarriedBy(next, w, kind, c, from, to)
  {
    assert next[..to] == ledger[..to] && next[..from] == ledger[..from];
  }

  /** Later rows, and a later cycle paid by them, leave a payment where it is. */
  lemma PaidApartStays(ledger: seq<Entry>, next: seq<Entry>, w: WalletId, paid: seq<Cycle>, more: seq<Cycle>, k: nat)
    requires k < |paid| && paid[k].row.Some? && ledger <= next && PaidApart(ledger, w, paid, k)
    requires forall i :: 0 <= i < |more| && more[i].row.Some? ==> more[i].row.value >= |ledger|
    ensures PaidApart(next, w, paid + more, k)
  {
    var kind := KindOf(k);
    var from := paid[k].row.value;
    var to: nat :| CarriedBy(ledger, w, kind, paid[k], from, to)
                   && (k + 1 < |paid| && paid[k + 1].row.Some? ==> to <= paid[k + 1].row.value);
    CarriedStays(ledger, next, w, kind, paid[k], from, to);
    assert (paid + more)[k] == paid[k];
    assert CarriedBy(next, w, kind, (paid + more)[k], from, to);
  }

  lemma BilledStays(ledger: seq<Entry>, next: seq<Entry>, id: SubscriptionId, w: WalletId, paid: seq<Cycle>, k: nat)
    requires k < |paid| && ledger <= next && Billed(ledger, id, w, paid, k)
    ensures Billed(next, id, w, paid, k)
  {
    PaidApartStays(ledger, next, w, paid, [], k);
    assert paid + [] == paid;
  }

  lemma AllBilledStays(ledger: seq<Entry>, next: seq<Entry>, id: SubscriptionId, w: WalletId, paid: seq<Cycle>)
    requires ledger <= next && AllBilled(ledger, id, w, paid)
    ensures AllBilled(next, id, w, paid)
  {
    forall k | 0 <= k < |paid| ensures Billed(next, id, w, paid, k) {
      BilledStays(ledger, next, id, w, paid, k);
    }
  }

  lemma FileStays(b: Book, next: Book, id: SubscriptionId, f: File)
    requires FileOk(b, id, f) && Grows(b, next, id)
    ensures FileOk(next, id, f)
  {
    if f.cycles != [] {
      AllBilledStays(b.ledger, next.ledger, id, f.sub.wallet, f.cycles[..PaidCount(f)]);
    }
  }

  // ---------------------------------------------------------------------------------------------
  // One paid cycle more
  // ---------------------------------------------------------------------------------------------

  /** A payment under a fresh key is carried by exactly the rows it appended. */
  lemma PaymentCarried(b: Book, w: WalletId, rq: SpendRequest, rows: seq<LotId>, now: Time, c: Cycle)
    requires Agree(b) && IsSelection(b.lots, w, now, rows) && !KeyUsed(b.ledger, rq.key)
    requires Spend(b, w, rq, rows, now).1.Ok?
    requires var m := Spend(b, w, rq, rows, now).1.value; c.main == m.main && c.bonus == m.bonus
    ensures var after := Spend(b, w, rq, rows, now).0;
            CarriedBy(after.ledger, w, rq.cause.kind, c, |b.ledger|, |after.ledger|)
  {
    var after := Spend(b, w, rq, rows, now).0;
    SpendAgrees(b, w, rq, rows, now);
    SpendEffect(b, w, rq, rows, now);
    assert WalletAgrees(b, w) && WalletAgrees(after, w);
    assert after.ledger[..|after.ledger|] == after.ledger && after.ledger[..|b.ledger|] == b.ledger;
  }

  lemma AnotherBilled(ledger: seq<Entry>, next: seq<Entry>, id: SubscriptionId, w: WalletId, paid: seq<Cycle>, c: Cycle)
    requires ledger < next && AllBilled(ledger, id, w, paid)
    requires c.paid && c.number == |paid| + 1 && c.price == c.main + c.bonus && c.main >= 0 && c.bonus >= 0 && c.price > 0
    requires c.row == Some(|ledger|)
    requires paid != [] ==> c.start == paid[|paid| - 1].end && next[|ledger|].key == Some(CycleKey(id, |paid| + 1))
    requires CarriedBy(next, w, KindOf(|paid|), c, |ledger|, |next|)
    ensures AllBilled(next, id, w, paid + [c])
  {
    forall k | 0 <= k < |paid| + 1 ensures Billed(next, id, w, paid + [c], k) {
      if k < |paid| {
        assert Billed(ledger, id, w, paid, k);
        PaidApartStays(ledger, next, w, paid, [c], k);
      } else {
        assert CarriedBy(next, w, KindOf(k), (paid + [c])[k], |ledger|, |next|);
      }
    }
  }

  predicate FreshKey(b: Book, id: SubscriptionId, key: Option<Key>) {
    !KeyUsed(b.ledger, key) && !IsCycleKey(key, id)
  }

  lemma ActivatedKeeps(b: Book, id: SubscriptionId, f: File, plan: Option<Plan>, key: Option<Key>, rows: seq<LotId>, now: Time, taken: set<nat>)
    requires Agree(b) && IsSelection(b.lots, f.sub.wallet, now, rows) && FileOk(b, id, f) && FreshKey(b, id, key)
    requires TakenKnown(b, taken)
    requires Activatable(f, plan) && Spend(b, f.sub.wallet, FirstRequest(f, key), rows, now).1.Ok?
    ensures var (after, g) := Activate(b, f, plan, key, rows, now, taken);
            FileOk(after, id, g)
  {
    var rq := FirstRequest(f, key);
    var (after, g) := Activate(b, f, plan, key, rows, now, taken);
    SpendEffect(b, f.sub.wallet, rq, rows, now);
    SpendVerdict(b, f.sub.wallet, rq, rows, now);
    PaymentCarried(b, f.sub.wallet, rq, rows, now, g.cycles[0]);
    AnotherBilled(b.ledger, after.ledger, id, f.sub.wallet, [], g.cycles[0]);
    assert g.cycles[..1] == [] + [g.cycles[0]];
  }

  lemma ActivateKeeps(b: Book, id: SubscriptionId, f: File, plan: Option<Plan>, key: Option<Key>, rows: seq<LotId>, now: Time,
                      taken: set<nat>)
    requires Agree(b) && IsSelection(b.lots, f.sub.wallet, now, rows) && FileOk(b, id, f) && FreshKey(b, id, key)
    requires TakenKnown(b, taken)
    ensures var (after, g) := Activate(b, f, plan, key, rows, now, taken);
            Agree(after) && FileOk(after, id, g)
  {
    SpendAgrees(b, f.sub.wallet, FirstRequest(f, key), rows, now);
    if Activatable(f, plan) && Spend(b, f.sub.wallet, FirstRequest(f, key), rows, now).1.Ok? {
      ActivatedKeeps(b, id, f, plan, key, rows, now, taken);
    }
  }

  lemma CycleKeyIsFresh(b: Book, id: SubscriptionId, f: File)
    requires FileOk(b, id, f)
    ensures !KeyUsed(b.ledger, Some(CycleKey(id, NextCycle(f))))
  {
  }

  lemma PaidKeeps(b: Book, id: SubscriptionId, f: File, plan: Plan, rows: seq<LotId>, now: Time)
    requires Agree(b) && IsSelection(b.lots, f.sub.wallet, now, rows) && FileOk(b, id, f)
    requires Renewable(f, Some(plan)) && Spend(b, f.sub.wallet, RenewalRequest(id, f, plan), rows, now).1.Ok?
    ensures var (after, answer) := Spend(b, f.sub.wallet, RenewalRequest(id, f, plan), rows, now);
            FileOk(after, id, Paid(f, plan, answer.value))
  {
    CycleKeyIsFresh(b, id, f);
    var rq := RenewalRequest(id, f, plan);
    var (after, answer) := Spend(b, f.sub.wallet, rq, rows, now);
    var g := Paid(f, plan, answer.value);
    var n := PaidCount(f);
    SpendEffect(b, f.sub.wallet, rq, rows, now);
    SpendVerdict(b, f.sub.wallet, rq, rows, now);
    PaymentCarried(b, f.sub.wallet, rq, rows, now, g.cycles[n]);
    assert f.cycles[..n] == f.cycles && g.cycles[..n + 1] == f.cycles + [g.cycles[n]];
    AnotherBilled(b.ledger, after.ledger, id, f.sub.wallet, f.cycles, g.cycles[n]);
  }

  lemma RenewKeeps(b: Book, id: SubscriptionId, f: File, plan: Option<Plan>, rows: seq<LotId>, now: Time, retryAt: Time)
    requires Agree(b) && IsSelection(b.lots, f.sub.wallet, now, rows) && FileOk(b, id, f)
    ensures var (after, g) := Renew(b, id, f, plan, rows, now, retryAt);
            Agree(after) && FileOk(after, id, g)
  {
    if Renewable(f, plan) {
      var rq := RenewalRequest(id, f, plan.value);
      SpendAgrees(b, f.sub.wallet, rq, rows, now);
      var (after, answer) := Spend(b, f.sub.wallet, rq, rows, now);
      if answer.Ok? {
        PaidKeeps(b, id, f, plan.value, rows, now);
      } else {
        var g := Unpaid(f, plan.value, retryAt);
        assert g.cycles[..PaidCount(f)] == f.cycles[..PaidCount(f)];
      }
    }
  }

  /** The rows of a renewal carry this cycle's key or none, so no other subscription notices. */
  lemma RenewGrows(b: Book, id: SubscriptionId, f: File, plan: Option<Plan>, rows: seq<LotId>, now: Time, retryAt: Time,
                   other: SubscriptionId)
    requires Agree(b) && IsSelection(b.lots, f.sub.wallet, now, rows) && FileOk(b, id, f) && other != id
    ensures Grows(b, Renew(b, id, f, plan, rows, now, retryAt).0, other)
  {
    if Renewable(f, plan) && Spend(b, f.sub.wallet, RenewalRequest(id, f, plan.value), rows, now).1.Ok? {
      CycleKeyIsFresh(b, id, f);
      SpendEffect(b, f.sub.wallet, RenewalRequest(id, f, plan.value), rows, now);
    }
  }

  // ---------------------------------------------------------------------------------------------
  // Exact outcomes
  // ---------------------------------------------------------------------------------------------

  /**
   * A renewal is paid exactly when its price is positive and the wallet can pay it. Otherwise, although
   * the transaction commits, no Coin and no row moves, the period stays, and one FAILED cycle is added.
   */
  lemma RenewVerdict(b: Book, id: SubscriptionId, f: File, plan: Plan, rows: seq<LotId>, now: Time, retryAt: Time)
    requires Agree(b) && IsSelection(b.lots, f.sub.wallet, now, rows) && FileOk(b, id, f) && Renewable(f, Some(plan))
    ensures var (after, g) := Renew(b, id, f, Some(plan), rows, now, retryAt);
            var price := if plan.price.Some? then plan.price.value else f.sub.price;
            if 0 < price <= Purse(b, f.sub.wallet, now) then
              && g.sub.renewalsCompleted == f.sub.renewalsCompleted + 1 && g.sub.status.Active? && g.sub.price == price
              && g.sub.periodStart == f.sub.periodEnd && g.sub.periodEnd == f.sub.periodEnd + plan.durationDays * DAY_MS
              && Purse(after, f.sub.wallet, now) <= Purse(b, f.sub.wallet, now)
              && after.wallets[f.sub.wallet].main + after.wallets[f.sub.wallet].bonus
                 == b.wallets[f.sub.wallet].main + b.wallets[f.sub.wallet].bonus - price
            else
              && after == b && g.sub.status.PastDue?
              && g.sub == f.sub.(status := PastDue, nextRenewalAt := Some(retryAt))
              && |g.cycles| == |f.cycles| + 1 && g.cycles[..|f.cycles|] == f.cycles && !g.cycles[|f.cycles|].paid
              && g.cycles[|f.cycles|].price == price
              && g.cycles[|f.cycles|].end - g.cycles[|f.cycles|].start == plan.durationDays * DAY_MS
  {
    CycleKeyIsFresh(b, id, f);
    var rq := RenewalRequest(id, f, plan);
    SpendVerdict(b, f.sub.wallet, rq, rows, now);
    var (after, answer) := Spend(b, f.sub.wallet, rq, rows, now);
    if answer.Ok? {
      SpendEffect(b, f.sub.wallet, rq, rows, now);
      PurseFalls(b, f.sub.wallet, rq, rows, now);
    }
  }

  lemma PurseFalls(b: Book, w: WalletId, rq: SpendRequest, rows: seq<LotId>, now: Time)
    requires Agree(b) && IsSelection(b.lots, w, now, rows) && !KeyUsed(b.ledger, rq.key)
    requires Spend(b, w, rq, rows, now).1.Ok?
    ensures Purse(Spend(b, w, rq, rows, now).0, w, now) <= Purse(b, w, now)
  {
    SpendEffect(b, w, rq, rows, now);
    AgreeIsSound(b);
    DrainOnlyLowers(b.lots, rows, Spend(b, w, rq, rows, now).1.value.bonus, w, now);
  }

  lemma {:induction false} DrainOnlyLowers(lots: seq<Lot>, rows: seq<LotId>, amount: int, w: WalletId, now: Time)
    requires AllSound(lots) && forall k :: 0 <= k < |rows| ==> rows[k] < |lots|
    ensures Held(Drain(lots, rows, amount, now), w, Some(now)) <= Held(lots, w, Some(now))
    decreases |rows|
  {
    if rows != [] && amount > 0 {
      var taken := Min(lots[rows[0]].remaining, amount);
      var next := Taken(lots[rows[0]], taken, now);
      HeldUpdated(lots, rows[0], next, w, Some(now));
      DrainOnlyLowers(lots[rows[0] := next], rows[1..], amount - taken, w, now);
    }
  }

  /**
   * An activation under a fresh key goes through exactly when the quote is pending, the plan is on sale
   * and the price is positive and covered. The period then starts now, whenever it was quoted.
   */
  lemma ActivationVerdict(b: Book, id: SubscriptionId, f: File, plan: Option<Plan>, key: Option<Key>, rows: seq<LotId>, now: Time,
                          taken: set<nat>)
    requires Agree(b) && IsSelection(b.lots, f.sub.wallet, now, rows) && FileOk(b, id, f) && !KeyUsed(b.ledger, key)
    requires TakenKnown(b, taken)
    ensures var (after, g) := Activate(b, f, plan, key, rows, now, taken);
            if f.sub.status.Pending? && plan.Some? && plan.value.isActive && 0 < f.sub.price <= Purse(b, f.sub.wallet, now) then
              && g.sub.status.Active? && g.sub.periodStart == now && g.sub.periodEnd == now + plan.value.durationDays * DAY_MS
              && g.sub.nextRenewalAt == Some(g.sub.periodEnd) && g.sub.autoRenew && |g.cycles| == 1
              && g.cycles[0].start == now && g.cycles[0].end == g.sub.periodEnd && g.cycles[0].price == g.sub.price == f.sub.price
              && after.wallets[f.sub.wallet].main + after.wallets[f.sub.wallet].bonus
                 == b.wallets[f.sub.wallet].main + b.wallets[f.sub.wallet].bonus - f.sub.price
            else after == b && g == f
  {
    if Activatable(f, plan) {
      SpendVerdict(b, f.sub.wallet, FirstRequest(f, key), rows, now);
      if Spend(b, f.sub.wallet, FirstRequest(f, key), rows, now).1.Ok? {
        SpendEffect(b, f.sub.wallet, FirstRequest(f, key), rows, now);
      }
    }
  }

  /** An activation that goes through moves Coins exactly when its key was not in the ledger yet. */
  lemma ActivationPaysExactly(b: Book, f: File, plan: Option<Plan>, key: Option<Key>, rows: seq<LotId>, now: Time, taken: set<nat>)
    requires Agree(b) && IsSelection(b.lots, f.sub.wallet, now, rows)
    requires Activate(b, f, plan, key, rows, now, taken).1.sub.status.Active? && f.sub.status.Pending?
    ensures Activate(b, f, plan, key, rows, now, taken).0 != b <==> !KeyUsed(b.ledger, key)
  {
    if !KeyUsed(b.ledger, key) {
      SpendEffect(b, f.sub.wallet, FirstRequest(f, key), rows, now);
    }
  }

  /** A plan starts without a charge exactly for a used key on whose row no cycle stands. */
  lemma UnchargedExactly(b: Book, f: File, plan: Option<Plan>, key: Option<Key>, rows: seq<LotId>, now: Time, taken: set<nat>)
    requires Agree(b) && IsSelection(b.lots, f.sub.wallet, now, rows)
    ensures var (after, g) := Activate(b, f, plan, key, rows, now, taken);
            g != f && after == b <==> Activatable(f, plan) && KeyUsed(b.ledger, key) && KeyRow(b.ledger, key) !in taken
    ensures KeyUsed(b.ledger, key) ==> Activate(b, f, plan, key, rows, now, taken).0 == b
  {
    var (after, g) := Activate(b, f, plan, key, rows, now, taken);
    if KeyUsed(b.ledger, key) {
      assert g != f ==> g.sub.status != f.sub.status;
    } else if g != f {
      SpendEffect(b, f.sub.wallet, FirstRequest(f, key), rows, now);
    }
  }

  const MONTHLY := Plan(true, 30, Some(90))

  /** Such an input: with the key of a top-up of five Coins, a plan at 90 runs. */
  lemma TopUpKeyActivatesForNothing(now: Time)
    ensures Agree(TOPPED_UP) && Purse(TOPPED_UP, 0, now) == 5
    ensures var f := Subscribed(0, 0, MONTHLY, 90, now);
            var (after, g) := Activate(TOPPED_UP, f, Some(MONTHLY), Some(OrderKey(0)), [], now, {});
            after == TOPPED_UP && g.sub.status.Active? && |g.cycles| == 1 && g.cycles[0].paid && g.cycles[0].price == 90
  {
    ToppedUpAgrees(now);
    UnchargedExactly(TOPPED_UP, Subscribed(0, 0, MONTHLY, 90, now), Some(MONTHLY), Some(OrderKey(0)), [], now, {});
  }

  /** A renewal stands on a ledger row of its own, whatever rows other cycles stand on. */
  lemma RenewalRowIsNew(b: Book, id: SubscriptionId, f: File, plan: Plan, rows: seq<LotId>, now: Time, taken: set<nat>)
    requires Agree(b) && IsSelection(b.lots, f.sub.wallet, now, rows) && FileOk(b, id, f) && TakenKnown(b, taken)
    ensures var answer := Spend(b, f.sub.wallet, RenewalRequest(id, f, plan), rows, now).1;
            answer.Ok? ==> answer.value.transaction !in taken
  {
    CycleKeyIsFresh(b, id, f);
  }

  // ---------------------------------------------------------------------------------------------
  // Every run
  // ---------------------------------------------------------------------------------------------

  /** What may happen to one subscription; Elsewhere is whatever the rest of the platform does to the Coins. */
  datatype Event =
    | Activates(plan: Option<Plan>, key: Option<Key>, rows: seq<LotId>, now: Time, taken: set<nat>)
    | Renews(plan: Option<Plan>, rows: seq<LotId>, now: Time, retryAt: Time)
    | Expires(now: Time)
    | StopsAutoRenew(now: Time, windowHours: int)
    | ResumesAutoRenew
    | CancelledByAdmin
    | Elsewhere(next: Book)

  datatype State = State(book: Book, file: File)

  /** Lots as the query lists them; keys not shared between operations; other services keep the tables in agreement. */
  predicate Legal(s: State, id: SubscriptionId, e: Event) {
    match e
    case Activates(_, key, rows, now, taken) =>
      IsSelection(s.book.lots, s.file.sub.wallet, now, rows) && FreshKey(s.book, id, key) && TakenKnown(s.book, taken)
    case Renews(_, rows, now, _) => IsSelection(s.book.lots, s.file.sub.wallet, now, rows)
    case Elsewhere(next) => Agree(next) && Grows(s.book, next, id)
    case _ => true
  }

  function Next(s: State, id: SubscriptionId, e: Event): State
    requires Legal(s, id, e)
  {
    match e
    case Activates(plan, key, rows, now, taken) => var (b, f) := Activate(s.book, s.file, plan, key, rows, now, taken); State(b, f)
    case Renews(plan, rows, now, retryAt) => var (b, f) := Renew(s.book, id, s.file, plan, rows, now, retryAt); State(b, f)
    case Expires(now) => s.(file := Expire(s.file, now))
    case StopsAutoRenew(now, windowHours) => s.(file := StopAutoRenew(s.file, now, windowHours))
    case ResumesAutoRenew => s.(file := ResumeAutoRenew(s.file))
    case CancelledByAdmin => s.(file := CancelByAdmin(s.file))
    case Elsewhere(next) => s.(book := next)
  }

  ghost predicate Good(s: State, id: SubscriptionId) {
    Agree(s.book) && FileOk(s.book, id, s.file)
  }

  lemma NextKeeps(s: State, id: SubscriptionId, e: Event)
    requires Good(s, id) && Legal(s, id, e)
    ensures Good(Next(s, id, e), id)
  {
    match e
    case Activates(plan, key, rows, now, taken) => ActivateKeeps(s.book, id, s.file, plan, key, rows, now, taken);
    case Renews(plan, rows, now, retryAt) => RenewKeeps(s.book, id, s.file, plan, rows, now, retryAt);
    case Elsewhere(next) => FileStays(s.book, next, id, s.file);
    case _ =>
  }

  predicate Run(states: seq<State>, id: SubscriptionId, events: seq<Event>) {
    && |states| == |events| + 1
    && forall k :: 0 <= k < |events| ==> Legal(states[k], id, events[k]) && states[k + 1] == Next(states[k], id, events[k])
  }

  lemma {:induction false} RunKeeps(states: seq<State>, id: SubscriptionId, events: seq<Event>, n: nat)
    requires Run(states, id, events) && Good(states[0], id) && n <= |events|
    ensures Good(states[n], id)
  {
    if n > 0 {
      RunKeeps(states, id, events, n - 1);
      NextKeeps(states[n - 1], id, events[n - 1]);
    }
  }

  /** A new quote starts a good run as long as no cycle of it was ever charged. */
  lemma SubscribedIsGood(b: Book, id: SubscriptionId, w: WalletId, planId: PlanId, plan: Plan, price: int, now: Time)
    requires Agree(b) && w in b.wallets
    requires forall i :: 0 <= i < |b.ledger| ==> !IsCycleKey(b.ledger[i].key, id)
    ensures Good(State(b, Subscribed(w, planId, plan, price, now)), id)
  {
  }

  /** The cycles as an activated plan shows them. */
  predicate Gapless(f: File) {
    var paid := PaidCount(f);
    && paid <= |f.cycles| <= paid + 1
    && (forall k :: 0 <= k < |f.cycles| ==> (f.cycles[k].paid <==> k < paid) && f.cycles[k].number == k + 1)
    && (forall k :: 0 < k < |f.cycles| ==> f.cycles[k].start == f.cycles[k - 1].end)
    && (forall k :: 0 <= k < paid ==> f.cycles[k].price == f.cycles[k].main + f.cycles[k].bonus)
    && f.sub.periodStart == f.cycles[paid - 1].start && f.sub.periodEnd == f.cycles[paid - 1].end
  }

  lemma GoodIsGapless(s: State, id: SubscriptionId)
    requires Good(s, id) && s.file.cycles != []
    ensures Gapless(s.file)
  {
    var f := s.file;
    var paid := f.cycles[..PaidCount(f)];
    forall k | 0 <= k < |paid|
      ensures f.cycles[k].paid && f.cycles[k].number == k + 1 && f.cycles[k].price == f.cycles[k].main + f.cycles[k].bonus
      ensures k > 0 ==> f.cycles[k].start == f.cycles[k - 1].end
    {
      assert Billed(s.book.ledger, id, f.sub.wallet, paid, k);
    }
  }

  /**
   * Billing history of an activated plan, after any run: the paid cycles are numbered 1 to
   * renewalsCompleted + 1, each period starts where the one before ends, the current period is the last
   * one's, every price is what was charged and is carried by ledger rows of its own, and while ACTIVE
   * the next renewal is the end of the period exactly when auto-renew is on.
   */
  lemma HistoryIsGapless(states: seq<State>, id: SubscriptionId, events: seq<Event>, n: nat)
    requires Run(states, id, events) && Good(states[0], id) && n <= |events| && states[n].file.cycles != []
    ensures Gapless(states[n].file)
    ensures AllBilled(states[n].book.ledger, id, states[n].file.sub.wallet, states[n].file.cycles[..PaidCount(states[n].file)])
    ensures var sub := states[n].file.sub;
            sub.status.Active? ==> sub.nextRenewalAt == if sub.autoRenew then Some(sub.periodEnd) else None
  {
    RunKeeps(states, id, events, n);
    GoodIsGapless(states[n], id);
  }

  predicate Ended(f: File) {
    f.sub.status.PastDue? || f.sub.status.Expired? || f.sub.status.Cancelled?
  }

  /** A plan that fell due unpaid is never charged again: only an ending changes its status, nothing its cycles. */
  lemma {:induction false} PastDueOnlyEnds(states: seq<State>, id: SubscriptionId, events: seq<Event>, m: nat, n: nat)
    requires Run(states, id, events) && m <= n <= |events| && states[m].file.sub.status.PastDue?
    ensures Ended(states[n].file)
    ensures states[n].file.cycles == states[m].file.cycles && states[n].file.sub.periodEnd == states[m].file.sub.periodEnd
    ensures m < n && !events[n - 1].Elsewhere? ==> states[n].book == states[n - 1].book
    decreases n
  {
    if m < n {
      PastDueOnlyEnds(states, id, events, m, n - 1);
      assert states[n] == Next(states[n - 1], id, events[n - 1]);
    }
  }

  // ---------------------------------------------------------------------------------------------
  // Calls that take a plan off the sweep, or put it back
  // ---------------------------------------------------------------------------------------------

  /** No call may charge this plan: it is neither waiting for its first payment nor due to be renewed. */
  predicate Chargeable(f: File) {
    f.sub.status.Pending? || (f.sub.status.Active? && f.sub.autoRenew)
  }

  /** A call moves Coins of a plan only while it waits for its first payment or renews itself. */
  lemma OnlyChargeablePays(s: State, id: SubscriptionId, e: Event)
    requires Legal(s, id, e) && !e.Elsewhere? && Next(s, id, e).book != s.book
    ensures Chargeable(s.file) && (e.Activates? <==> s.file.sub.status.Pending?) && (e.Renews? <==> s.file.sub.status.Active?)
  {
  }

  predicate CancelledAsOf(f: File, cycles: seq<Cycle>) {
    f.sub.status.Cancelled? && f.cycles == cycles
  }

  lemma CancelledStays(s: State, id: SubscriptionId, e: Event)
    requires Legal(s, id, e) && s.file.sub.status.Cancelled?
    ensures CancelledAsOf(Next(s, id, e).file, s.file.cycles)
    ensures !e.Elsewhere? ==> Next(s, id, e).book == s.book
  {
  }

  /**
   * A plan cancelled by the Admin has ended for good: in every later state it is CANCELLED with the cycles
   * it had, and no call about it moves Coins again. Right after the call nothing is left to renew.
   */
  lemma {:induction false} CancellationIsFinal(states: seq<State>, id: SubscriptionId, events: seq<Event>, m: nat, n: nat)
    requires Run(states, id, events) && m < n <= |events| && events[m].CancelledByAdmin?
    ensures CancelledAsOf(states[n].file, states[m].file.cycles)
    ensures m + 1 < n && !events[n - 1].Elsewhere? ==> states[n].book == states[n - 1].book
    ensures states[m + 1].book == states[m].book
    ensures var before, after := states[m].file.sub, states[m + 1].file.sub;
            && !after.autoRenew && after.nextRenewalAt.None?
            && after.periodEnd == before.periodEnd && after.renewalsCompleted == before.renewalsCompleted
            && after.wallet == before.wallet && after.price == before.price
    decreases n
  {
    assert states[m + 1] == Next(states[m], id, events[m]);
    if m + 1 < n {
      CancellationIsFinal(states, id, events, m, n - 1);
      assert states[n] == Next(states[n - 1], id, events[n - 1]);
      CancelledStays(states[n - 1], id, events[n - 1]);
    }
  }

  /** When auto-renew can still be switched off, and what that leaves as it was. */
  lemma StopVerdict(f: File, now: Time, windowHours: int)
    ensures var g := StopAutoRenew(f, now, windowHours);
            if f.sub.nextRenewalAt.None? || now < f.sub.nextRenewalAt.value - windowHours * 3_600_000
            then !g.sub.autoRenew && g.sub.nextRenewalAt.None?
                 && g == f.(sub := f.sub.(autoRenew := false, nextRenewalAt := None))
            else g == f
  {
  }

  /** Switched off, with nothing done about it since. */
  predicate StoppedBetween(states: seq<State>, events: seq<Event>, m: nat, n: nat)
    requires |states| == |events| + 1 && m < n <= |events|
  {
    && events[m].StopsAutoRenew? && !states[m + 1].file.sub.autoRenew
    && forall k :: m < k < n ==> !events[k].ResumesAutoRenew?
  }

  /**
   * A running plan whose auto-renew was switched off is not charged again until somebody switches it on:
   * it keeps the period it paid for, and no event of its own moves Coins.
   */
  lemma {:induction false} StoppedIsNotCharged(states: seq<State>, id: SubscriptionId, events: seq<Event>, m: nat, n: nat)
    requires Run(states, id, events) && m < n <= |events| && StoppedBetween(states, events, m, n)
    requires states[m].file.sub.status.Active?
    ensures !states[n].file.sub.autoRenew && states[n].file.cycles == states[m].file.cycles
    ensures states[n].file.sub.status.Active? || states[n].file.sub.status.Cancelled?
    ensures states[n].file.sub.periodEnd == states[m].file.sub.periodEnd
    ensures !events[n - 1].Elsewhere? ==> states[n].book == states[n - 1].book
    decreases n
  {
    assert states[m + 1] == Next(states[m], id, events[m]);
    if m + 1 < n {
      StoppedIsNotCharged(states, id, events, m, n - 1);
      assert states[n] == Next(states[n - 1], id, events[n - 1]);
    }
  }

  /** Off and on again gives back an ACTIVE plan in good standing exactly as it was, if the window was open. */
  lemma StopAndResume(b: Book, id: SubscriptionId, f: File, now: Time, windowHours: int)
    requires FileOk(b, id, f) && f.sub.status.Active?
    ensures var g := ResumeAutoRenew(StopAutoRenew(f, now, windowHours));
            && g.sub.autoRenew && g.sub.nextRenewalAt == Some(f.sub.periodEnd)
            && g == f.(sub := f.sub.(autoRenew := true, nextRenewalAt := Some(f.sub.periodEnd)))
  {
  }

  /** Which plans end at a moment: those past due whose retry moment has come or was cleared. */
  lemma ExpireVerdict(f: File, now: Time)
    ensures var g := Expire(f, now);
            && (g.sub.status.Expired? <==> f.sub.status.Expired? || (f.sub.status.PastDue?
                                           && (f.sub.nextRenewalAt.None? || f.sub.nextRenewalAt.value <= now)))
            && (g != f ==> g.sub.status.Expired? && !g.sub.autoRenew && g.sub.nextRenewalAt.None?)
            && g.cycles == f.cycles && g.sub.wallet == f.sub.wallet && g.sub.plan == f.sub.plan && g.sub.price == f.sub.price
            && g.sub.periodStart == f.sub.periodStart && g.sub.periodEnd == f.sub.periodEnd
            && g.sub.renewalsCompleted == f.sub.renewalsCompleted
  {
  }

  /** A member's plan that is waiting, running or past due. */
  predicate OpenPlan(f: File, w: WalletId) {
    f.sub.wallet == w && (f.sub.status.Active? || f.sub.status.PastDue? || f.sub.status.Pending?)
  }

  /** Whatever can still be charged is open, and a plan that has ended is never opened again by an event. */
  lemma EndedStaysEnded(s: State, id: SubscriptionId, e: Event, w: WalletId)
    requires Legal(s, id, e)
    ensures Next(s, id, e).file.sub.wallet == s.file.sub.wallet
    ensures OpenPlan(Next(s, id, e).file, w) ==> OpenPlan(s.file, w)
    ensures Chargeable(s.file) ==> OpenPlan(s.file, s.file.sub.wallet)
  {
  }

  /** The price quoted is the price charged, for as many days as quoted from the day it is paid. */
  lemma QuoteIsCharged(b: Book, id: SubscriptionId, w: WalletId, planId: PlanId, quoted: Plan, price: int, at: Time,
                       plan: Plan, key: Option<Key>, rows: seq<LotId>, now: Time, taken: set<nat>)
    requires Agree(b) && w in b.wallets && IsSelection(b.lots, w, now, rows) && !KeyUsed(b.ledger, key) && TakenKnown(b, taken)
    requires forall i :: 0 <= i < |b.ledger| ==> !IsCycleKey(b.ledger[i].key, id)
    requires plan.isActive && plan.durationDays == quoted.durationDays && 0 < price <= Purse(b, w, now)
    ensures var f := Subscribed(w, planId, quoted, price, at);
            var (after, g) := Activate(b, f, Some(plan), key, rows, now, taken);
            && g.sub.status.Active? && g.sub.plan == planId && g.sub.wallet == w && g.sub.renewalsCompleted == 0
            && g.sub.periodEnd - g.sub.periodStart == f.sub.periodEnd - f.sub.periodStart && f.sub.periodStart == at
            && g.cycles[0].price == price && g.cycles[0].main + g.cycles[0].bonus == price
            && after.wallets[w].main + after.wallets[w].bonus == b.wallets[w].main + b.wallets[w].bonus - price
  {
    var f := Subscribed(w, planId, quoted, price, at);
    SubscribedIsGood(b, id, w, planId, quoted, price, at);
    ActivationVerdict(b, id, f, Some(plan), key, rows, now, taken);
    SpendEffect(b, w, FirstRequest(f, key), rows, now);
  }
}
