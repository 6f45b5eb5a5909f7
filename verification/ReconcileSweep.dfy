/**
 * The batch loop that asks the gateways about open payment attempts, running alone: when it ends, what it
 * leaves behind, and when it does not end.
 */
module ReconcileSweep {
  import opened Prelude
  import opened CoinBook
  import opened CoinMoves
  import opened CoinService
  import opened Batches
  import opened TopUps
  import opened TopUpService

  const BATCH := 100

  const RECONCILE_AFTER_MS := 600_000

  /** What a probe comes back with; a probe that throws says as little as an unknown outcome. */
  datatype Answer = Confirmed(amountVnd: Option<int>) | Denied | Silent

  /** What the gateways answer, by batch and attempt. */
  type Answers = (nat, nat) -> Answer

  type Quoted = terms: Terms | terms.rateVnd > 0 witness TWO_REPORTS

  /** An order with its one open attempt; `handled` says that a delivery for the attempt was handled. */
  datatype Attempt = Attempt(terms: Quoted, createdAt: Time, desk: Desk, handled: bool)

  predicate Stale(a: Attempt, threshold: Time) {
    a.desk.payment.Pending? && a.createdAt <= threshold && !a.handled
  }

  /** The amount to settle; a gateway that names none is taken to confirm the quoted one. */
  function SettledAmount(a: Attempt, answer: Answer): int
    requires answer.Confirmed?
  {
    if answer.amountVnd.Some? then answer.amountVnd.value else a.terms.amountVnd
  }

  function Probed(a: Attempt, answer: Answer): (r: Attempt) {
    match answer
    case Confirmed(_) => a.(desk := Settled(a.terms, a.desk, SettledAmount(a, answer)))
    case Denied => a.(desk := a.desk.(payment := Failed, order := Failed))
    case Silent => a
  }

  /** The answer ends the attempt: a denial, or the quoted amount for an order that is open and buys a Coin. */
  predicate Resolves(a: Attempt, answer: Answer) {
    match answer
    case Confirmed(_) =>
      && a.desk.order.Pending? && SettledAmount(a, answer) == a.terms.amountVnd
      && (CoinsGranted(a.terms) != 0 || a.desk.ledger != [])
    case Denied => true
    case Silent => false
  }

  /** What a resolved attempt shows: closed without a Coin, or paid once with the Coins of the quote. */
  predicate Closed(a: Attempt, b: Attempt, answer: Answer) {
    && b == a.(desk := b.desk) && b.desk.callbacks == a.desk.callbacks && b.desk.workers == a.desk.workers
    && if answer.Denied? then b.desk.payment == b.desk.order == Failed && b.desk.ledger == a.desk.ledger
       else b.desk.payment == b.desk.order == Paid
            && b.desk.ledger == if a.desk.ledger == [] then [a.terms.amountVnd / a.terms.rateVnd] else a.desk.ledger
  }

  /**
   * A probe takes an attempt off the list exactly when it resolves it. A denial then closes attempt and
   * order, a confirmation pays both and leaves the ledger row; otherwise nothing is written.
   */
  lemma ProbedMeans(a: Attempt, answer: Answer, threshold: Time)
    requires Stale(a, threshold)
    ensures Stale(Probed(a, answer), threshold) <==> !Resolves(a, answer)
    ensures !Resolves(a, answer) ==> Probed(a, answer) == a
    ensures Resolves(a, answer) ==> Closed(a, Probed(a, answer), answer)
  {
  }

  /** Only a denial, or the quoted amount for an order that is open and buys a Coin, resolves an attempt. */
  lemma ResolvesMeans(a: Attempt, answer: Answer)
    ensures Resolves(a, answer) <==>
              match answer
              case Silent => false
              case Denied => true
              case Confirmed(amountVnd) =>
                && a.desk.order.Pending? && (amountVnd.Some? ==> amountVnd.value == a.terms.amountVnd)
                && (a.desk.ledger != [] || a.terms.amountVnd / a.terms.rateVnd != 0)
  {
  }

  // ---------------------------------------------------------------------------------------------
  // The query and one batch
  // ---------------------------------------------------------------------------------------------

  /** The next batch, the oldest attempt first. */
  function Batch(attempts: seq<Attempt>, threshold: Time): (ids: seq<nat>)
    ensures Distinct(ids) && Within(attempts, ids) && |ids| <= BATCH
    ensures forall k :: 0 <= k < |ids| ==> Stale(attempts[ids[k]], threshold)
    ensures |ids| < BATCH ==> forall i: nat :: i < |attempts| && Stale(attempts[i], threshold) ==> i in ids
  {
    Earliest(Wanted(attempts, threshold), Moments(attempts), BATCH)
  }

  function Wanted(attempts: seq<Attempt>, threshold: Time): seq<bool> {
    seq(|attempts|, i requires 0 <= i < |attempts| => Stale(attempts[i], threshold))
  }

  function Moments(attempts: seq<Attempt>): seq<Time> {
    seq(|attempts|, i requires 0 <= i < |attempts| => attempts[i].createdAt)
  }

  /** A stale attempt that a batch leaves out is no older than any it takes. */
  lemma OldestFirst(attempts: seq<Attempt>, threshold: Time, i: nat, k: nat)
    requires i < |attempts| && Stale(attempts[i], threshold)
    requires i !in Batch(attempts, threshold) && k < |Batch(attempts, threshold)|
    ensures attempts[Batch(attempts, threshold)[k]].createdAt <= attempts[i].createdAt
  {
    LeftOutIsLater(Wanted(attempts, threshold), Moments(attempts), BATCH, i, k);
  }

  /** All attempts after one batch was probed. */
  function Round(attempts: seq<Attempt>, answers: Answers, threshold: Time, round: nat): (r: seq<Attempt>)
    ensures |r| == |attempts|
  {
    var ids := Batch(attempts, threshold);
    seq(|attempts|, i requires 0 <= i < |attempts| => if i in ids then Probed(attempts[i], answers(round, i)) else attempts[i])
  }

  function Rounds(attempts: seq<Attempt>, answers: Answers, threshold: Time, n: nat): (r: seq<Attempt>)
    ensures |r| == |attempts|
  {
    if n == 0 then attempts else Round(Rounds(attempts, answers, threshold, n - 1), answers, threshold, n - 1)
  }

  /** The attempt was resolved by the answer of one of the first n batches. */
  predicate ResolvedBefore(a: Attempt, b: Attempt, answers: Answers, i: nat, n: nat) {
    exists r: nat :: r < n && Resolves(a, answers(r, i)) && Closed(a, b, answers(r, i))
  }

  /** Every attempt is as it was, or it was stale and one answer resolved it. */
  lemma {:induction false} RoundsResolve(attempts: seq<Attempt>, answers: Answers, threshold: Time, n: nat, i: nat)
    requires i < |attempts|
    ensures var b := Rounds(attempts, answers, threshold, n)[i];
            b == attempts[i]
            || (Stale(attempts[i], threshold) && !Stale(b, threshold) && ResolvedBefore(attempts[i], b, answers, i, n))
  {
    if n > 0 {
      var before := Rounds(attempts, answers, threshold, n - 1);
      RoundsResolve(attempts, answers, threshold, n - 1, i);
      if i in Batch(before, threshold) {
        ProbedMeans(before[i], answers(n - 1, i), threshold);
      }
    }
  }

  // ---------------------------------------------------------------------------------------------
  // Why the loop ends, and when it does not
  // ---------------------------------------------------------------------------------------------

  function StaleIds(attempts: seq<Attempt>, threshold: Time): set<nat> {
    set i: nat | i < |attempts| && Stale(attempts[i], threshold)
  }

  /** The stale attempts that the answers of one batch would not resolve. */
  function StuckIds(attempts: seq<Attempt>, answers: Answers, threshold: Time, round: nat): set<nat> {
    set i: nat | i < |attempts| && Stale(attempts[i], threshold) && !Resolves(attempts[i], answers(round, i))
  }

  /** No attempt becomes stale in a batch, and none that stays stale changes. */
  lemma RoundShrinks(attempts: seq<Attempt>, answers: Answers, threshold: Time, round: nat)
    ensures var next := Round(attempts, answers, threshold, round);
            && StaleIds(next, threshold) <= StaleIds(attempts, threshold)
            && (forall i :: i in StaleIds(next, threshold) ==> next[i] == attempts[i])
            && (forall r: nat :: StuckIds(next, answers, threshold, r) <= StuckIds(attempts, answers, threshold, r))
  {
    var next := Round(attempts, answers, threshold, round);
    forall i: nat | i < |attempts| && Stale(next[i], threshold) ensures next[i] == attempts[i] {
      if i in Batch(attempts, threshold) {
        ProbedMeans(attempts[i], answers(round, i), threshold);
      }
    }
  }

  /** A full batch resolves an attempt, as long as its answers leave fewer than BATCH stuck. */
  lemma FullRoundMoves(attempts: seq<Attempt>, answers: Answers, threshold: Time, round: nat)
    requires |Batch(attempts, threshold)| == BATCH && |StuckIds(attempts, answers, threshold, round)| < BATCH
    ensures |StaleIds(Round(attempts, answers, threshold, round), threshold)| < |StaleIds(attempts, threshold)|
  {
    var ids := Batch(attempts, threshold);
    var next := Round(attempts, answers, threshold, round);
    var stuck := StuckIds(attempts, answers, threshold, round);
    if forall k :: 0 <= k < |ids| ==> ids[k] in stuck {
      DistinctCount(ids, stuck);
    }
    var k :| 0 <= k < |ids| && ids[k] !in stuck;
    var id := ids[k];
    ProbedMeans(attempts[id], answers(round, id), threshold);
    RoundShrinks(attempts, answers, threshold, round);
    SubsetCount(StaleIds(next, threshold) + {id}, StaleIds(attempts, threshold));
  }

  ghost predicate FewStuck(attempts: seq<Attempt>, answers: Answers, threshold: Time) {
    forall r: nat :: |StuckIds(attempts, answers, threshold, r)| < BATCH
  }

  /** A batch leaves no more stuck, and a full one leaves fewer stale. */
  lemma RoundGoesOn(attempts: seq<Attempt>, answers: Answers, threshold: Time, round: nat)
    requires FewStuck(attempts, answers, threshold)
    ensures var next := Round(attempts, answers, threshold, round);
            && FewStuck(next, answers, threshold)
            && (!ShortBatch(attempts, threshold) ==> |StaleIds(next, threshold)| < |StaleIds(attempts, threshold)|)
  {
    var next := Round(attempts, answers, threshold, round);
    RoundShrinks(attempts, answers, threshold, round);
    forall r: nat ensures |StuckIds(next, answers, threshold, r)| < BATCH {
      SubsetCount(StuckIds(next, answers, threshold, r), StuckIds(attempts, answers, threshold, r));
    }
    if !ShortBatch(attempts, threshold) {
      FullRoundMoves(attempts, answers, threshold, round);
    }
  }

  predicate ShortBatch(attempts: seq<Attempt>, threshold: Time) {
    |Batch(attempts, threshold)| < BATCH
  }

  /** With fewer than BATCH stuck attempts for the answers of every batch, a short batch comes. */
  lemma {:induction false} ShortBatchComes(attempts: seq<Attempt>, answers: Answers, threshold: Time, n: nat)
    requires FewStuck(Rounds(attempts, answers, threshold, n), answers, threshold)
    ensures exists m: nat :: ShortBatch(Rounds(attempts, answers, threshold, m), threshold)
    decreases |StaleIds(Rounds(attempts, answers, threshold, n), threshold)|
  {
    var now := Rounds(attempts, answers, threshold, n);
    if !ShortBatch(now, threshold) {
      RoundGoesOn(now, answers, threshold, n);
      ShortBatchComes(attempts, answers, threshold, n + 1);
    }
  }

  /**
   * The condition cannot be dropped: with BATCH or more attempts that no answer resolves every batch is
   * full, so the loop never sees the short batch it waits for.
   */
  lemma StuckAttemptsStayFull(attempts: seq<Attempt>, answers: Answers, threshold: Time, never: set<nat>, n: nat)
    requires |never| >= BATCH && forall i, r: nat :: i in never ==> i in StuckIds(attempts, answers, threshold, r)
    ensures |Batch(Rounds(attempts, answers, threshold, n), threshold)| == BATCH
  {
    var now := Rounds(attempts, answers, threshold, n);
    var ids := Batch(now, threshold);
    forall i: nat | i in never ensures i < |now| && Stale(now[i], threshold) {
      assert i in StuckIds(attempts, answers, threshold, 0);
      RoundsResolve(attempts, answers, threshold, n, i);
      forall r: nat ensures !Resolves(attempts[i], answers(r, i)) {
        assert i in StuckIds(attempts, answers, threshold, r);
      }
    }
    if |ids| < BATCH {
      HoldsAll(ids, never);
    }
  }

  ghost predicate SameEveryTime(answers: Answers) {
    forall r: nat, i: nat :: answers(r, i) == answers(0, i)
  }

  /** If the gateways do not change their answers during the run, it ends exactly when fewer than BATCH attempts are stuck. */
  lemma EndsExactly(attempts: seq<Attempt>, answers: Answers, threshold: Time)
    requires SameEveryTime(answers)
    ensures (exists n: nat :: ShortBatch(Rounds(attempts, answers, threshold, n), threshold))
            <==> |StuckIds(attempts, answers, threshold, 0)| < BATCH
  {
    var stuck := StuckIds(attempts, answers, threshold, 0);
    forall r: nat ensures StuckIds(attempts, answers, threshold, r) == stuck {
    }
    assert Rounds(attempts, answers, threshold, 0) == attempts;
    if |stuck| < BATCH {
      ShortBatchComes(attempts, answers, threshold, 0);
    } else {
      forall n: nat ensures !ShortBatch(Rounds(attempts, answers, threshold, n), threshold) {
        StuckAttemptsStayFull(attempts, answers, threshold, stuck, n);
      }
    }
  }

  // ---------------------------------------------------------------------------------------------
  // The loop
  // ---------------------------------------------------------------------------------------------

  /** How many attempts have the status. */
  function CountWith(attempts: seq<Attempt>, status: Status): nat {
    if attempts == [] then 0
    else CountWith(attempts[..|attempts| - 1], status) + if attempts[|attempts| - 1].desk.payment == status then 1 else 0
  }

  lemma {:induction false} CountUpdated(attempts: seq<Attempt>, i: nat, a: Attempt, status: Status)
    requires i < |attempts| && attempts[i].desk.payment != status
    ensures CountWith(attempts[i := a], status) == CountWith(attempts, status) + if a.desk.payment == status then 1 else 0
  {
    var last := |attempts| - 1;
    if i == last {
      assert attempts[i := a][..last] == attempts[..last];
    } else {
      assert attempts[i := a][..last] == attempts[..last][i := a];
      CountUpdated(attempts[..last], i, a, status);
    }
  }

  /** An attempt that is closed, too young, or that a delivery has handled is not asked about, whatever the answers. */
  lemma NotAskedAbout(was: seq<Attempt>, attempts: seq<Attempt>, answers: Answers, now: Time, n: nat, i: nat)
    requires Stopped(was, attempts, answers, now - 600_000, n) && i < |was|
    requires !was[i].desk.payment.Pending? || was[i].createdAt > now - 600_000 || was[i].handled
    ensures attempts[i] == was[i]
  {
    StoppedLeaves(was, attempts, answers, now - 600_000, n);
  }

  /** The first n attempts of a batch are probed, all others untouched. */
  predicate BatchDone(was: seq<Attempt>, attempts: seq<Attempt>, ids: seq<nat>, answers: Answers, round: nat, n: nat)
    requires n <= |ids|
  {
    && |attempts| == |was|
    && forall i :: 0 <= i < |was| ==> attempts[i] == if i in ids[..n] then Probed(was[i], answers(round, i)) else was[i]
  }

  lemma BatchGoesOn(was: seq<Attempt>, attempts: seq<Attempt>, ids: seq<nat>, answers: Answers, round: nat, n: nat)
    requires n < |ids| && Within(was, ids) && Distinct(ids) && BatchDone(was, attempts, ids, answers, round, n)
    ensures attempts[ids[n]] == was[ids[n]]
    ensures BatchDone(was, attempts[ids[n] := Probed(was[ids[n]], answers(round, ids[n]))], ids, answers, round, n + 1)
  {
    assert ids[..n + 1] == ids[..n] + [ids[n]];
  }

  lemma WholeBatch(was: seq<Attempt>, attempts: seq<Attempt>, answers: Answers, threshold: Time, round: nat)
    requires var ids := Batch(was, threshold); BatchDone(was, attempts, ids, answers, round, |ids|)
    ensures attempts == Round(was, answers, threshold, round)
  {
    var ids := Batch(was, threshold);
    assert ids[..|ids|] == ids;
  }

  /** After a short batch only attempts that its answers did not resolve are still stale. */
  lemma ShortRoundLeaves(attempts: seq<Attempt>, answers: Answers, threshold: Time, round: nat, i: nat)
    requires i < |attempts| && ShortBatch(attempts, threshold)
    ensures var next := Round(attempts, answers, threshold, round);
            Stale(next[i], threshold) ==> next[i] == attempts[i] && !Resolves(attempts[i], answers(round, i))
  {
    if i in Batch(attempts, threshold) {
      ProbedMeans(attempts[i], answers(round, i), threshold);
    }
  }

  /** The loop stopped after batch number n: every batch before it was full, and it was not. */
  predicate Stopped(was: seq<Attempt>, attempts: seq<Attempt>, answers: Answers, threshold: Time, n: nat) {
    && n > 0 && attempts == Rounds(was, answers, threshold, n)
    && ShortBatch(Rounds(was, answers, threshold, n - 1), threshold)
    && forall m: nat :: m < n - 1 ==> !ShortBatch(Rounds(was, answers, threshold, m), threshold)
  }

  predicate ReconciledSoFar(was: seq<Attempt>, attempts: seq<Attempt>, answers: Answers, threshold: Time, n: nat, ended: bool) {
    if ended then Stopped(was, attempts, answers, threshold, n)
    else
      && attempts == Rounds(was, answers, threshold, n)
      && forall m: nat :: m < n ==> !ShortBatch(Rounds(was, answers, threshold, m), threshold)
  }

  /** How many attempts the first n batches asked about. */
  function AskedIn(was: seq<Attempt>, answers: Answers, threshold: Time, n: nat): nat {
    if n == 0 then 0
    else AskedIn(was, answers, threshold, n - 1) + |Batch(Rounds(was, answers, threshold, n - 1), threshold)|
  }

  lemma ReconciledOn(was: seq<Attempt>, attempts: seq<Attempt>, answers: Answers, threshold: Time, n: nat)
    requires ReconciledSoFar(was, attempts, answers, threshold, n, false)
    ensures var next := Round(attempts, answers, threshold, n);
            ReconciledSoFar(was, next, answers, threshold, n + 1, ShortBatch(attempts, threshold))
    ensures AskedIn(was, answers, threshold, n + 1) == AskedIn(was, answers, threshold, n) + |Batch(attempts, threshold)|
  {
  }

  /** What is still stale when the loop stops was not resolved in the last batch; that and what never was stale is untouched. */
  lemma StoppedLeaves(was: seq<Attempt>, attempts: seq<Attempt>, answers: Answers, threshold: Time, n: nat)
    requires Stopped(was, attempts, answers, threshold, n)
    ensures forall i: nat :: i < |was| && Stale(attempts[i], threshold) ==>
              attempts[i] == was[i] && !Resolves(was[i], answers(n - 1, i))
    ensures forall i: nat :: i < |was| && !Stale(was[i], threshold) ==> attempts[i] == was[i]
    ensures forall i: nat :: i < |was| && attempts[i] != was[i] ==> ResolvedBefore(was[i], attempts[i], answers, i, n)
  {
    forall i: nat | i < |was|
      ensures Stale(attempts[i], threshold) ==> attempts[i] == was[i] && !Resolves(was[i], answers(n - 1, i))
      ensures !Stale(was[i], threshold) ==> attempts[i] == was[i]
      ensures attempts[i] != was[i] ==> ResolvedBefore(was[i], attempts[i], answers, i, n)
    {
      RoundsResolve(was, answers, threshold, n, i);
      ShortRoundLeaves(Rounds(was, answers, threshold, n - 1), answers, threshold, n - 1, i);
    }
  }

  class Reconciler {
    const orders: seq<TopUpOrder>
    const createdAt: seq<Time>
    const coins: CoinTables

    /** Every order credits the same tables under a key of its own. */
    ghost predicate Valid()
      reads orders, coins
    {
      && |createdAt| == |orders|
      && (forall i :: 0 <= i < |orders| ==> orders[i].coins == coins && orders[i].Valid())
      && (forall i, j :: 0 <= i < j < |orders| ==> orders[i] != orders[j] && orders[i].key != orders[j].key)
    }

    function AttemptOf(i: nat): Attempt
      requires Valid() && i < |orders|
      reads orders, coins
    {
      Attempt(orders[i].terms, createdAt[i], orders[i].Seen(map[]), orders[i].Handled())
    }

    function Attempts(): (attempts: seq<Attempt>)
      requires Valid()
      reads orders, coins
      ensures |attempts| == |orders| && forall i :: 0 <= i < |orders| ==> attempts[i] == AttemptOf(i)
    {
      seq(|orders|, i requires 0 <= i < |orders| && Valid() reads orders, coins => AttemptOf(i))
    }

    constructor (orders: seq<TopUpOrder>, createdAt: seq<Time>, coins: CoinTables)
      requires |createdAt| == |orders|
      requires forall i :: 0 <= i < |orders| ==> orders[i].coins == coins && orders[i].Valid()
      requires forall i, j :: 0 <= i < j < |orders| ==> orders[i] != orders[j] && orders[i].key != orders[j].key
      ensures Valid() && this.orders == orders && this.createdAt == createdAt && this.coins == coins
    {
      this.orders, this.createdAt, this.coins := orders, createdAt, coins;
    }

    /** The settlement of one order leaves every other as it was. */
    method SettleOne(i: nat, amountVnd: int, now: Time) returns (settled: bool)
      requires Valid() && i < |orders|
      modifies orders[i], coins
      ensures Valid()
      ensures AttemptOf(i) == old(AttemptOf(i)).(desk := Settled(orders[i].terms, old(orders[i].Seen(map[])), amountVnd))
      ensures forall j :: 0 <= j < |orders| && j != i ==> AttemptOf(j) == old(AttemptOf(j))
      ensures coins.Tables() == if settled then CoinBook.Credit(old(coins.Tables()), orders[i].wallet, orders[i].TheCredit(), now).0
                                else old(coins.Tables())
      ensures settled <==> old(orders[i].payment.Pending? && orders[i].order.Pending?) && orders[i].payment.Paid?
    {
      ghost var before := coins.Tables();
      settled := orders[i].Settle(amountVnd, now);
      if settled {
        CreditedElsewhere(before, orders[i].wallet, orders[i].TheCredit(), now, coins.Tables());
      }
    }

    method FailOne(i: nat)
      requires Valid() && i < |orders|
      modifies orders[i]
      ensures Valid()
      ensures AttemptOf(i) == Probed(old(AttemptOf(i)), Denied) && orders[i].payment == orders[i].order == Failed
      ensures forall j :: 0 <= j < |orders| && j != i ==> AttemptOf(j) == old(AttemptOf(j))
    {
      orders[i].MarkPaymentFailed(Failed);
    }

    /** One attempt; only what its answer resolves is written, and Coins move only for a settled one. */
    method Probe(i: nat, answer: Answer, threshold: Time, now: Time) returns (settled: bool, failed: bool)
      requires Valid() && i < |orders| && Stale(Attempts()[i], threshold)
      modifies orders, coins
      ensures Valid() && Attempts() == old(Attempts())[i := Probed(old(Attempts())[i], answer)]
      ensures coins.Tables() == if settled then CoinBook.Credit(old(coins.Tables()), orders[i].wallet, orders[i].TheCredit(), now).0
                                else old(coins.Tables())
      ensures settled <==> Resolves(old(Attempts())[i], answer) && answer.Confirmed?
      ensures failed <==> answer.Denied?
      ensures failed ==> orders[i].payment == orders[i].order == Failed
      ensures settled ==> orders[i].payment == orders[i].order == Paid
    {
      settled, failed := false, false;
      ghost var was := Attempts();
      match answer
      case Confirmed(amountVnd) =>
        var amount := if amountVnd.Some? then amountVnd.value else orders[i].terms.amountVnd;
        settled := SettleOne(i, amount, now);
        assert Attempts() == was[i := Probed(was[i], answer)];
      case Denied =>
        FailOne(i);
        failed := true;
        assert Attempts() == was[i := Probed(was[i], answer)];
      case Silent =>
    }

    method ProbeBatch(ids: seq<nat>, answers: Answers, round: nat, threshold: Time, now: Time) returns (settled: nat, failed: nat)
      requires Valid() && ids == Batch(Attempts(), threshold)
      modifies orders, coins
      ensures Valid() && Attempts() == Round(old(Attempts()), answers, threshold, round)
      ensures settled == CountWith(Attempts(), Paid) - CountWith(old(Attempts()), Paid)
      ensures failed == CountWith(Attempts(), Failed) - CountWith(old(Attempts()), Failed)
    {
      settled, failed := 0, 0;
      ghost var was := Attempts();
      for n := 0 to |ids|
        invariant Valid() && BatchDone(was, Attempts(), ids, answers, round, n)
        invariant settled == CountWith(Attempts(), Paid) - CountWith(was, Paid)
        invariant failed == CountWith(Attempts(), Failed) - CountWith(was, Failed)
      {
        var answer := answers(round, ids[n]);
        BatchGoesOn(was, Attempts(), ids, answers, round, n);
        ProbedMeans(was[ids[n]], answer, threshold);
        CountUpdated(Attempts(), ids[n], Probed(was[ids[n]], answer), Paid);
        CountUpdated(Attempts(), ids[n], Probed(was[ids[n]], answer), Failed);
        var paid, denied := Probe(ids[n], answer, threshold, now);
        if paid { settled := settled + 1; }
        if denied { failed := failed + 1; }
      }
      WholeBatch(was, Attempts(), answers, threshold, round);
    }

    /**
     * Probes batch after batch. Ends as long as the answers of every batch leave fewer than BATCH attempts
     * stuck, and counts what it asked, settled and failed; StoppedLeaves says what is left then.
     */
    method ReconcileDue(answers: Answers, now: Time) returns (pending: nat, settled: nat, failed: nat, ghost batches: nat)
      requires Valid() && FewStuck(Attempts(), answers, now - RECONCILE_AFTER_MS)
      modifies orders, coins
      ensures Valid() && Stopped(old(Attempts()), Attempts(), answers, now - RECONCILE_AFTER_MS, batches)
      ensures pending == AskedIn(old(Attempts()), answers, now - RECONCILE_AFTER_MS, batches)
      ensures settled == CountWith(Attempts(), Paid) - CountWith(old(Attempts()), Paid)
      ensures failed == CountWith(Attempts(), Failed) - CountWith(old(Attempts()), Failed)
    {
      var threshold := now - RECONCILE_AFTER_MS;
      pending, settled, failed := 0, 0, 0;
      ghost var was, seen := Attempts(), Attempts();
      var round, ended := 0, false;
      while !ended
        invariant Valid() && seen == Attempts() && FewStuck(seen, answers, threshold)
        invariant ReconciledSoFar(was, seen, answers, threshold, round, ended)
        invariant pending == AskedIn(was, answers, threshold, round)
        invariant settled == CountWith(seen, Paid) - CountWith(was, Paid)
        invariant failed == CountWith(seen, Failed) - CountWith(was, Failed)
        decreases !ended, |StaleIds(seen, threshold)|
      {
        RoundGoesOn(seen, answers, threshold, round);
        ReconciledOn(was, seen, answers, threshold, round);
        var ids := Batch(Attempts(), threshold);
        pending := pending + |ids|;
        var s, f := ProbeBatch(ids, answers, round, threshold, now);
        settled, failed := settled + s, failed + f;
        ended := |ids| < BATCH;
        seen := Attempts();
        round := round + 1;
      }
      batches := round;
    }
  }
}
