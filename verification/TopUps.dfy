/**
 * One top-up order, its payment attempt and everything that may touch them at the same time: gateway
 * deliveries with retries, the reconcile sweep, the expiry sweep and a payment link that fails. Every
 * database read or write is one step, steps of different workers interleave freely, and a worker may
 * crash between any two of its steps. A database transaction that writes is one step.
 */
module TopUps {
  import opened Prelude

  type WorkerId = nat
  type EventId = nat

  datatype Status = Pending | Paid | Failed | Cancelled | Expired

  datatype Verdict = Success | Failure | GivenUp

  /** What the gateway says under one event id; every retry of the delivery repeats it. */
  datatype Report = Report(verdict: Verdict, amountVnd: int)

  /** What the order was quoted at, and what the gateway will ever report about it. */
  datatype Terms = Terms(amountVnd: int, rateVnd: int, reports: map<EventId, Report>)

  function CoinsGranted(terms: Terms): int
    requires terms.rateVnd > 0
  {
    terms.amountVnd / terms.rateVnd
  }

  /** Who runs a settlement, and with which amount. */
  datatype Source = FromHook(event: EventId) | FromSweep

  /** Where a worker stands; each step reads or writes the database once. */
  datatype Pc =
    | IpnPeek(event: EventId)
    | HookLookup(event: EventId)
    | HookResolve(event: EventId, recorded: bool)
    | HookRecord(event: EventId, payment: Status, order: Status)
    | HookDecide(event: EventId, payment: Status, order: Status)
    | HookCloseOrder(event: EventId)
    | HookHandle(event: EventId)
    | SettleRead(source: Source, amountVnd: int)
    | SettleKey(source: Source)
    | SettleCommit(source: Source, replayed: bool)
    | SweepSelect
    | SweepProbe
    | SweepFail
    | ExpirySelect
    | ExpireOrder
    | ExpirePayment
    | Answered(event: EventId)
    | Over

  /** Callback rows by event id (whether handled), the ledger rows under the order's key, and the workers. */
  datatype Desk = Desk(payment: Status, order: Status, ledger: seq<int>, callbacks: map<EventId, bool>,
                       workers: map<WorkerId, Pc>)

  const OPENED := Desk(Pending, Pending, [], map[], map[])

  datatype ProbeResult = ProbePaid(amountVnd: int) | ProbeFailed | ProbeUnknown

  datatype Action =
    | Arrive(w: WorkerId, event: EventId)
    | ArriveIpn(w: WorkerId, event: EventId)
    | StartSweep(w: WorkerId)
    | StartExpiry(w: WorkerId)
    | LinkFails
    | Probe(w: WorkerId, outcome: ProbeResult)
    | Run(w: WorkerId)
    | Crash(w: WorkerId)

  function At(s: Desk, w: WorkerId, pc: Pc): Desk {
    s.(workers := s.workers[w := pc])
  }

  /** Where a settlement goes when it is over, whether it committed, was refused or rolled back. */
  function AfterSettle(source: Source): Pc {
    match source case FromHook(event) => HookHandle(event) case FromSweep => Over
  }

  function Closing(verdict: Verdict): Status {
    if verdict.GivenUp? then Cancelled else Failed
  }

  predicate Payable(s: Desk) {
    s.payment.Pending? && s.order.Pending?
  }

  predicate SomeHandled(callbacks: map<EventId, bool>) {
    exists e :: e in callbacks && callbacks[e]
  }

  /** One step of one worker. */
  function RunStep(terms: Terms, s: Desk, w: WorkerId): Desk
    requires terms.rateVnd > 0 && w in s.workers
  {
    match s.workers[w]
    case IpnPeek(e) => At(s, w, if s.payment.Paid? then Answered(e) else HookLookup(e))
    case HookLookup(e) =>
      At(s, w, if e in s.callbacks && s.callbacks[e] then Answered(e) else HookResolve(e, e in s.callbacks))
    case HookResolve(e, recorded) =>
      At(s, w, if recorded then HookDecide(e, s.payment, s.order) else HookRecord(e, s.payment, s.order))
    case HookRecord(e, payment, order) =>
      if e !in s.callbacks then At(s.(callbacks := s.callbacks[e := false]), w, HookDecide(e, payment, order))
      // Another delivery won the race: answered when it finished, otherwise its work is done here.
      else At(s, w, if s.callbacks[e] then Answered(e) else HookDecide(e, payment, order))
    case HookDecide(e, payment, order) =>
      if !payment.Pending? || !order.Pending? then At(s.(callbacks := s.callbacks[e := true]), w, Answered(e))
      else if e !in terms.reports then At(s, w, Over)
      else if !terms.reports[e].verdict.Success? then
        var closed := Closing(terms.reports[e].verdict);
        At(s.(payment := closed, order := closed), w, HookHandle(e))
      else if terms.reports[e].amountVnd != terms.amountVnd then At(s.(payment := Failed), w, HookCloseOrder(e))
      else At(s, w, SettleRead(FromHook(e), terms.reports[e].amountVnd))
    case HookCloseOrder(e) => At(s.(order := Failed), w, HookHandle(e))
    case HookHandle(e) => At(s.(callbacks := s.callbacks[e := true]), w, Answered(e))
    case SettleRead(source, amountVnd) =>
      // A wrong amount is written and rolled back by the throw that follows.
      At(s, w, if Payable(s) && amountVnd == terms.amountVnd then SettleKey(source) else AfterSettle(source))
    case SettleKey(source) => At(s, w, SettleCommit(source, s.ledger != []))
    case SettleCommit(source, replayed) =>
      if !replayed && (CoinsGranted(terms) == 0 || s.ledger != []) then At(s, w, AfterSettle(source))
      else
        At(s.(payment := Paid, order := Paid, ledger := if replayed then s.ledger else [CoinsGranted(terms)]), w,
           AfterSettle(source))
    case SweepSelect => At(s, w, if s.payment.Pending? && !SomeHandled(s.callbacks) then SweepProbe else Over)
    case SweepFail => At(s.(payment := Failed, order := Failed), w, Over)
    case ExpirySelect => At(s, w, if s.order.Pending? then ExpireOrder else Over)
    case ExpireOrder => At(s.(order := if s.order.Pending? then Expired else s.order), w, ExpirePayment)
    case ExpirePayment => At(s.(payment := if s.payment.Pending? then Expired else s.payment), w, Over)
    case SweepProbe => s
    case Answered(_) => s
    case Over => s
  }

  function Step(terms: Terms, s: Desk, a: Action): Desk
    requires terms.rateVnd > 0
  {
    match a
    case Arrive(w, e) => if w !in s.workers && e in terms.reports then At(s, w, HookLookup(e)) else s
    case ArriveIpn(w, e) => if w !in s.workers && e in terms.reports then At(s, w, IpnPeek(e)) else s
    case StartSweep(w) => if w !in s.workers then At(s, w, SweepSelect) else s
    case StartExpiry(w) => if w !in s.workers then At(s, w, ExpirySelect) else s
    case LinkFails => s.(payment := Failed, order := Failed)
    case Probe(w, outcome) =>
      if w !in s.workers || !s.workers[w].SweepProbe? then s
      else
        (match outcome
         case ProbePaid(amountVnd) => At(s, w, SettleRead(FromSweep, amountVnd))
         case ProbeFailed => At(s, w, SweepFail)
         case ProbeUnknown => At(s, w, Over))
    case Run(w) => if w in s.workers then RunStep(terms, s, w) else s
    case Crash(w) => s.(workers := s.workers - {w})
  }

  // ---------------------------------------------------------------------------------------------
  // What holds in every run
  // ---------------------------------------------------------------------------------------------

  /** A successful report of exactly the quoted amount. */
  predicate Matching(terms: Terms, e: EventId) {
    e in terms.reports && terms.reports[e] == Report(Success, terms.amountVnd)
  }

  /** The order cannot be paid any more, or its amount buys no Coin. */
  predicate Closed(terms: Terms, s: Desk)
    requires terms.rateVnd > 0
  {
    !Payable(s) || CoinsGranted(terms) == 0
  }

  /** What a worker has learnt is still true. */
  predicate PcOk(terms: Terms, s: Desk, pc: Pc)
    requires terms.rateVnd > 0
  {
    match pc
    case HookRecord(_, payment, order) => (payment.Pending? && order.Pending?) || !Payable(s)
    case HookDecide(_, payment, order) => (payment.Pending? && order.Pending?) || !Payable(s)
    case HookCloseOrder(e) => !Matching(terms, e)
    case HookHandle(e) => Matching(terms, e) ==> Closed(terms, s)
    case SettleRead(FromHook(e), amountVnd) => Matching(terms, e) ==> amountVnd == terms.amountVnd
    case SettleCommit(_, replayed) => replayed ==> s.ledger != []
    case Answered(e) => Matching(terms, e) ==> Closed(terms, s)
    case _ => true
  }

  /** Credited at most once, by the quoted Coins, and never while the order is still open. */
  predicate LedgerOk(terms: Terms, s: Desk)
    requires terms.rateVnd > 0
  {
    && (s.ledger == [] || (s.ledger == [CoinsGranted(terms)] && CoinsGranted(terms) != 0 && !Payable(s)))
    && (s.order.Paid? || s.payment.Paid? ==> s.ledger != [])
  }

  /** A matching delivery marked as handled left nothing to do. */
  predicate CallbacksOk(terms: Terms, s: Desk)
    requires terms.rateVnd > 0
  {
    forall e :: e in s.callbacks && s.callbacks[e] && Matching(terms, e) ==> Closed(terms, s)
  }

  predicate DeskOk(terms: Terms, s: Desk)
    requires terms.rateVnd > 0
  {
    && LedgerOk(terms, s)
    && CallbacksOk(terms, s)
    && (forall w :: w in s.workers ==> PcOk(terms, s, s.workers[w]))
  }

  /** What no later step takes back: a closed order stays closed, a ledger row stays. */
  predicate Follows(s: Desk, next: Desk) {
    (!Payable(s) ==> !Payable(next)) && (s.ledger != [] ==> next.ledger == s.ledger)
  }

  lemma RunFollows(terms: Terms, s: Desk, w: WorkerId, next: Desk)
    requires terms.rateVnd > 0 && w in s.workers && LedgerOk(terms, s) && PcOk(terms, s, s.workers[w])
    requires next == RunStep(terms, s, w)
    ensures LedgerOk(terms, next) && Follows(s, next)
  {
  }

  lemma RunMoves(terms: Terms, s: Desk, w: WorkerId, next: Desk)
    requires terms.rateVnd > 0 && w in s.workers && DeskOk(terms, s)
    requires next == RunStep(terms, s, w)
    ensures next.workers == s.workers[w := next.workers[w]] && PcOk(terms, next, next.workers[w])
  {
    assert PcOk(terms, s, s.workers[w]);
  }

  lemma RunHandles(terms: Terms, s: Desk, w: WorkerId, next: Desk)
    requires terms.rateVnd > 0 && w in s.workers && DeskOk(terms, s)
    requires next == RunStep(terms, s, w) && Follows(s, next)
    ensures CallbacksOk(terms, next)
  {
    assert PcOk(terms, s, s.workers[w]);
    forall e | e in next.callbacks && next.callbacks[e] && Matching(terms, e) ensures Closed(terms, next) {
      assert e in s.callbacks && s.callbacks[e] ==> Closed(terms, s);
    }
  }

  lemma StepKeeps(terms: Terms, s: Desk, a: Action)
    requires terms.rateVnd > 0 && DeskOk(terms, s)
    ensures DeskOk(terms, Step(terms, s, a)) && Follows(s, Step(terms, s, a))
  {
    var next := Step(terms, s, a);
    if a.Run? && a.w in s.workers {
      RunFollows(terms, s, a.w, next);
      RunMoves(terms, s, a.w, next);
      RunHandles(terms, s, a.w, next);
    }
    forall v | v in next.workers ensures PcOk(terms, next, next.workers[v]) {
      assert v in s.workers ==> PcOk(terms, s, s.workers[v]);
    }
  }

  predicate Trace(terms: Terms, desks: seq<Desk>, actions: seq<Action>)
    requires terms.rateVnd > 0
  {
    && |desks| == |actions| + 1 && desks[0] == OPENED
    && forall k :: 0 <= k < |actions| ==> desks[k + 1] == Step(terms, desks[k], actions[k])
  }

  lemma {:induction false} TraceOk(terms: Terms, desks: seq<Desk>, actions: seq<Action>, n: nat)
    requires terms.rateVnd > 0 && Trace(terms, desks, actions) && n <= |actions|
    ensures DeskOk(terms, desks[n])
  {
    if n > 0 {
      TraceOk(terms, desks, actions, n - 1);
      StepKeeps(terms, desks[n - 1], actions[n - 1]);
    }
  }

  /**
   * Whatever interleaves and whoever crashes: the order is credited at most once, by the quoted Coins,
   * and an order shown as PAID was credited.
   */
  lemma CreditedAtMostOnce(terms: Terms, desks: seq<Desk>, actions: seq<Action>, n: nat)
    requires terms.rateVnd > 0 && Trace(terms, desks, actions) && n <= |actions|
    ensures |desks[n].ledger| <= 1
    ensures desks[n].ledger != [] ==> desks[n].ledger[0] == CoinsGranted(terms) != 0
    ensures desks[n].order.Paid? ==> desks[n].ledger != []
  {
    TraceOk(terms, desks, actions, n);
  }

  /** The Coins promised are never worth more than the amount charged, and one Coin more would be. */
  lemma QuoteRoundsDown(terms: Terms)
    requires terms.rateVnd > 0 && terms.amountVnd >= 0
    ensures CoinsGranted(terms) * terms.rateVnd <= terms.amountVnd < (CoinsGranted(terms) + 1) * terms.rateVnd
    ensures CoinsGranted(terms) > 0 <==> terms.amountVnd >= terms.rateVnd
  {
    var q := CoinsGranted(terms);
    assert q >= 1 ==> q * terms.rateVnd >= terms.rateVnd;
    assert q <= 0 ==> (q + 1) * terms.rateVnd <= terms.rateVnd;
  }

  // ---------------------------------------------------------------------------------------------
  // Closing writes that come late
  // ---------------------------------------------------------------------------------------------

  /** A write that closes the attempt or the order without looking at its status again. */
  predicate ClosingWrite(terms: Terms, s: Desk, a: Action) {
    a.LinkFails?
    || (a.Run? && a.w in s.workers
        && match s.workers[a.w]
           case HookDecide(e, payment, order) =>
             payment.Pending? && order.Pending? && e in terms.reports && terms.reports[e] != Report(Success, terms.amountVnd)
           case HookCloseOrder(_) => true
           case SweepFail => true
           case _ => false)
  }

  /** Attempt, order and ledger tell the same story: credited and both PAID, or not credited and neither. */
  predicate Consistent(s: Desk) {
    if s.ledger == [] then !s.payment.Paid? && !s.order.Paid? else s.payment.Paid? && s.order.Paid?
  }

  /** A step keeps the story straight exactly when it is not a closing write on a credited order. */
  lemma ConsistentExactly(terms: Terms, s: Desk, a: Action)
    requires terms.rateVnd > 0 && DeskOk(terms, s) && Consistent(s)
    ensures Consistent(Step(terms, s, a)) <==> !(ClosingWrite(terms, s, a) && s.ledger != [])
  {
    StepKeeps(terms, s, a);
    if a.Run? && a.w in s.workers {
      assert PcOk(terms, s, s.workers[a.w]);
    }
  }

  /** No closing write landed on an order already credited. */
  predicate ClosedInTime(terms: Terms, desks: seq<Desk>, actions: seq<Action>)
    requires |desks| == |actions| + 1
  {
    forall k :: 0 <= k < |actions| && ClosingWrite(terms, desks[k], actions[k]) ==> desks[k].ledger == []
  }

  lemma {:induction false} TraceConsistent(terms: Terms, desks: seq<Desk>, actions: seq<Action>, n: nat)
    requires terms.rateVnd > 0 && Trace(terms, desks, actions) && n <= |actions|
    requires ClosedInTime(terms, desks, actions)
    ensures Consistent(desks[n])
  {
    if n > 0 {
      TraceConsistent(terms, desks, actions, n - 1);
      TraceOk(terms, desks, actions, n - 1);
      ConsistentExactly(terms, desks[n - 1], actions[n - 1]);
    }
  }

  /**
   * When a matching success delivery is answered, the order is PAID with exactly its one ledger row, or
   * it is closed without one; it is still open only if its amount buys no Coin at all.
   */
  lemma AnsweredIsSettled(terms: Terms, desks: seq<Desk>, actions: seq<Action>, n: nat, w: WorkerId)
    requires terms.rateVnd > 0 && Trace(terms, desks, actions) && n <= |actions|
    requires ClosedInTime(terms, desks, actions)
    requires w in desks[n].workers && desks[n].workers[w].Answered? && Matching(terms, desks[n].workers[w].event)
    requires CoinsGranted(terms) != 0
    ensures (desks[n].order.Paid? && desks[n].payment.Paid? && desks[n].ledger == [CoinsGranted(terms)])
            || (!Payable(desks[n]) && !desks[n].order.Paid? && desks[n].ledger == [])
  {
    TraceOk(terms, desks, actions, n);
    TraceConsistent(terms, desks, actions, n);
    assert PcOk(terms, desks[n], desks[n].workers[w]);
  }

  // ---------------------------------------------------------------------------------------------
  // Redelivery finishes the work
  // ---------------------------------------------------------------------------------------------

  /** Steps a delivery still needs. */
  function Remaining(pc: Pc): nat {
    match pc
    case IpnPeek(_) => 9
    case HookLookup(_) => 8
    case HookResolve(_, _) => 7
    case HookRecord(_, _, _) => 6
    case HookDecide(_, _, _) => 5
    case SettleRead(_, _) => 4
    case SettleKey(_) => 3
    case SettleCommit(_, _) => 2
    case HookCloseOrder(_) => 2
    case HookHandle(_) => 1
    case _ => 0
  }

  predicate Delivering(pc: Pc, e: EventId) {
    match pc
    case IpnPeek(f) => f == e
    case HookLookup(f) => f == e
    case HookResolve(f, _) => f == e
    case HookRecord(f, _, _) => f == e
    case HookDecide(f, _, _) => f == e
    case HookCloseOrder(f) => f == e
    case HookHandle(f) => f == e
    case SettleRead(source, _) => source == FromHook(e)
    case SettleKey(source) => source == FromHook(e)
    case SettleCommit(source, _) => source == FromHook(e)
    case Answered(f) => f == e
    case _ => false
  }

  function RunAlone(terms: Terms, s: Desk, w: WorkerId, n: nat): Desk
    requires terms.rateVnd > 0
    decreases n
  {
    if n == 0 then s else RunAlone(terms, Step(terms, s, Run(w)), w, n - 1)
  }

  /** From any state, crashes and half-done work included, a delivery left to run is answered. */
  lemma {:induction false} DeliveryIsAnswered(terms: Terms, s: Desk, w: WorkerId, e: EventId)
    requires terms.rateVnd > 0 && DeskOk(terms, s) && w in s.workers && Delivering(s.workers[w], e) && e in terms.reports
    ensures exists n: nat :: n <= Remaining(s.workers[w]) && w in RunAlone(terms, s, w, n).workers
                        && RunAlone(terms, s, w, n).workers[w] == Answered(e) && DeskOk(terms, RunAlone(terms, s, w, n))
    decreases Remaining(s.workers[w])
  {
    if s.workers[w] == Answered(e) {
      assert RunAlone(terms, s, w, 0) == s;
    } else {
      var next := Step(terms, s, Run(w));
      StepKeeps(terms, s, Run(w));
      DeliveryIsAnswered(terms, next, w, e);
      var n: nat :| n <= Remaining(next.workers[w]) && w in RunAlone(terms, next, w, n).workers
               && RunAlone(terms, next, w, n).workers[w] == Answered(e) && DeskOk(terms, RunAlone(terms, next, w, n));
      assert RunAlone(terms, s, w, n + 1) == RunAlone(terms, next, w, n);
    }
  }

  // ---------------------------------------------------------------------------------------------
  // One delivery from start to end
  // ---------------------------------------------------------------------------------------------

  lemma {:induction false} RunsAdd(terms: Terms, s: Desk, w: WorkerId, m: nat, n: nat)
    requires terms.rateVnd > 0
    ensures RunAlone(terms, s, w, m + n) == RunAlone(terms, RunAlone(terms, s, w, m), w, n)
    decreases m
  {
    if m > 0 {
      RunsAdd(terms, Step(terms, s, Run(w)), w, m - 1, n);
    }
  }

  /** The settlement transaction as a whole. */
  function Settled(terms: Terms, s: Desk, amountVnd: int): Desk
    requires terms.rateVnd > 0
  {
    if Payable(s) && amountVnd == terms.amountVnd && (s.ledger != [] || CoinsGranted(terms) != 0) then
      s.(payment := Paid, order := Paid, ledger := if s.ledger != [] then s.ledger else [CoinsGranted(terms)])
    else s
  }

  /** A recorded delivery as a whole. */
  function Decided(terms: Terms, s: Desk, e: EventId): Desk
    requires terms.rateVnd > 0 && e in terms.reports
  {
    var report := terms.reports[e];
    var closed := Closing(report.verdict);
    var done :=
      if !Payable(s) then s
      else if !report.verdict.Success? then s.(payment := closed, order := closed)
      else if report.amountVnd != terms.amountVnd then s.(payment := Failed, order := Failed)
      else Settled(terms, s, report.amountVnd);
    done.(callbacks := s.callbacks[e := true])
  }

  /** A delivery as a whole: one handled before changes nothing. */
  function Delivered(terms: Terms, s: Desk, e: EventId): Desk
    requires terms.rateVnd > 0 && e in terms.reports
  {
    if e in s.callbacks && s.callbacks[e] then s else Decided(terms, s, e)
  }

  lemma SettlementRuns(terms: Terms, s: Desk, w: WorkerId, source: Source, amountVnd: int) returns (n: nat)
    requires terms.rateVnd > 0 && w in s.workers && s.workers[w] == SettleRead(source, amountVnd)
    ensures RunAlone(terms, s, w, n) == At(Settled(terms, s, amountVnd), w, AfterSettle(source))
  {
    var a := Step(terms, s, Run(w));
    assert RunAlone(terms, s, w, 1) == a;
    if !Payable(s) || amountVnd != terms.amountVnd {
      return 1;
    }
    var b := Step(terms, a, Run(w));
    var c := Step(terms, b, Run(w));
    assert c == At(Settled(terms, s, amountVnd), w, AfterSettle(source));
    assert RunAlone(terms, s, w, 3) == RunAlone(terms, a, w, 2) == RunAlone(terms, b, w, 1) == c;
    return 3;
  }

  /** The steps between the decision and the mark, for an order that is still open. */
  lemma ClosingRuns(terms: Terms, s: Desk, w: WorkerId, e: EventId) returns (n: nat)
    requires terms.rateVnd > 0 && e in terms.reports && Payable(s)
    requires w in s.workers && s.workers[w] == HookDecide(e, Pending, Pending)
    ensures RunAlone(terms, Step(terms, s, Run(w)), w, n)
            == At(Decided(terms, s, e).(callbacks := s.callbacks), w, HookHandle(e))
  {
    var a := Step(terms, s, Run(w));
    if a.workers[w].HookCloseOrder? {
      assert RunAlone(terms, a, w, 1) == Step(terms, a, Run(w));
      return 1;
    } else if a.workers[w].SettleRead? {
      n := SettlementRuns(terms, a, w, FromHook(e), terms.amountVnd);
    } else {
      return 0;
    }
  }

  lemma DecisionRuns(terms: Terms, s: Desk, w: WorkerId, e: EventId) returns (n: nat)
    requires terms.rateVnd > 0 && e in terms.reports
    requires w in s.workers && s.workers[w] == HookDecide(e, s.payment, s.order)
    ensures RunAlone(terms, s, w, n) == At(Decided(terms, s, e), w, Answered(e))
  {
    var a := Step(terms, s, Run(w));
    assert RunAlone(terms, s, w, 1) == a;
    if !Payable(s) {
      return 1;
    }
    var steps := ClosingRuns(terms, s, w, e);
    var b := RunAlone(terms, a, w, steps);
    assert RunAlone(terms, b, w, 1) == Step(terms, b, Run(w));
    RunsAdd(terms, a, w, steps, 1);
    return steps + 2;
  }

  /** A delivery not handled before reaches its decision on what it read, with its row recorded. */
  lemma RecordRuns(terms: Terms, s: Desk, w: WorkerId, e: EventId) returns (n: nat)
    requires terms.rateVnd > 0 && e in terms.reports && w in s.workers && s.workers[w] == HookLookup(e)
    requires !(e in s.callbacks && s.callbacks[e])
    ensures RunAlone(terms, s, w, n)
            == At(s.(callbacks := s.callbacks[e := false]), w, HookDecide(e, s.payment, s.order))
  {
    var a := Step(terms, s, Run(w));
    var b := Step(terms, a, Run(w));
    assert RunAlone(terms, s, w, 2) == RunAlone(terms, a, w, 1) == b;
    if e in s.callbacks {
      assert s.callbacks == s.callbacks[e := false];
      return 2;
    }
    var c := Step(terms, b, Run(w));
    assert RunAlone(terms, s, w, 3) == RunAlone(terms, a, w, 2) == RunAlone(terms, b, w, 1) == c;
    return 3;
  }

  lemma RecordedThenDecided(terms: Terms, s: Desk, w: WorkerId, e: EventId)
    requires terms.rateVnd > 0 && e in terms.reports && !(e in s.callbacks && s.callbacks[e])
    ensures var recorded := At(s.(callbacks := s.callbacks[e := false]), w, HookDecide(e, s.payment, s.order));
            At(Decided(terms, recorded, e), w, Answered(e)) == At(Delivered(terms, s, e), w, Answered(e))
  {
    assert s.callbacks[e := false][e := true] == s.callbacks[e := true];
    assert s.workers[w := HookDecide(e, s.payment, s.order)][w := Answered(e)] == s.workers[w := Answered(e)];
  }

  /** A delivery that nothing interrupts does all of its work and is answered. */
  lemma DeliveryRuns(terms: Terms, s: Desk, w: WorkerId, e: EventId) returns (n: nat)
    requires terms.rateVnd > 0 && e in terms.reports && w in s.workers && s.workers[w] == HookLookup(e)
    ensures RunAlone(terms, s, w, n) == At(Delivered(terms, s, e), w, Answered(e))
  {
    if e in s.callbacks && s.callbacks[e] {
      assert RunAlone(terms, s, w, 1) == Step(terms, s, Run(w));
      return 1;
    }
    var steps := RecordRuns(terms, s, w, e);
    var recorded := RunAlone(terms, s, w, steps);
    var more := DecisionRuns(terms, recorded, w, e);
    RecordedThenDecided(terms, s, w, e);
    RunsAdd(terms, s, w, steps, more);
    return steps + more;
  }

  /**
   * A matching delivery that runs alone on an open order, whatever earlier attempts left behind, is
   * answered with the order credited and PAID, or, exactly when its amount buys no Coin, still open.
   */
  lemma LoneDeliveryPays(terms: Terms, s: Desk, w: WorkerId, e: EventId)
    requires terms.rateVnd > 0 && DeskOk(terms, s) && Payable(s) && w !in s.workers && Matching(terms, e)
    ensures exists n: nat :: var r := RunAlone(terms, Step(terms, s, Arrive(w, e)), w, n);
              && w in r.workers && r.workers[w] == Answered(e)
              && (CoinsGranted(terms) != 0 ==> r.order.Paid? && r.payment.Paid? && r.ledger == [CoinsGranted(terms)])
              && (CoinsGranted(terms) == 0 ==> Payable(r) && r.ledger == [])
  {
    var arrived := Step(terms, s, Arrive(w, e));
    if e in s.callbacks && s.callbacks[e] {
      assert CoinsGranted(terms) == 0;
    }
    var n := DeliveryRuns(terms, arrived, w, e);
    var r := RunAlone(terms, arrived, w, n);
    assert r == At(Delivered(terms, arrived, e), w, Answered(e));
  }

  // ---------------------------------------------------------------------------------------------
  // What else closes an order
  // ---------------------------------------------------------------------------------------------

  /** The desk but for its workers. */
  predicate Shows(s: Desk, payment: Status, order: Status, ledger: seq<int>, callbacks: map<EventId, bool>) {
    s.payment == payment && s.order == order && s.ledger == ledger && s.callbacks == callbacks
  }

  /**
   * A delivery that does not match, running alone on an open order, closes attempt and order without a
   * Coin: CANCELLED if the member gave up, FAILED if the payment failed or the amount is not the quoted one.
   */
  lemma LoneDeliveryCloses(terms: Terms, s: Desk, w: WorkerId, e: EventId) returns (n: nat)
    requires terms.rateVnd > 0 && Payable(s) && w !in s.workers && e in terms.reports && !Matching(terms, e)
    requires !(e in s.callbacks && s.callbacks[e])
    ensures var r := RunAlone(terms, Step(terms, s, Arrive(w, e)), w, n);
            var closed := if terms.reports[e].verdict.GivenUp? then Cancelled else Failed;
            && w in r.workers && r.workers[w] == Answered(e)
            && Shows(r, closed, closed, s.ledger, s.callbacks[e := true])
  {
    var arrived := Step(terms, s, Arrive(w, e));
    n := DeliveryRuns(terms, arrived, w, e);
    assert RunAlone(terms, arrived, w, n) == At(Delivered(terms, arrived, e), w, Answered(e));
  }

  /** A delivery for an order that is closed, or one handled before, only answers. */
  lemma LateDeliveryOnlyAnswers(terms: Terms, s: Desk, w: WorkerId, e: EventId) returns (n: nat)
    requires terms.rateVnd > 0 && w !in s.workers && e in terms.reports
    requires !Payable(s) || (e in s.callbacks && s.callbacks[e])
    ensures var r := RunAlone(terms, Step(terms, s, Arrive(w, e)), w, n);
            && w in r.workers && r.workers[w] == Answered(e)
            && Shows(r, s.payment, s.order, s.ledger, s.callbacks[e := true])
  {
    var arrived := Step(terms, s, Arrive(w, e));
    n := DeliveryRuns(terms, arrived, w, e);
    assert RunAlone(terms, arrived, w, n) == At(Delivered(terms, arrived, e), w, Answered(e));
    if e in s.callbacks && s.callbacks[e] {
      assert s.callbacks == s.callbacks[e := true];
    }
  }

  /** The confirmation call of a gateway answers a paid order at once and is a delivery otherwise. */
  lemma ConfirmationIsDelivery(terms: Terms, s: Desk, w: WorkerId, e: EventId)
    requires terms.rateVnd > 0 && w !in s.workers && e in terms.reports
    ensures RunAlone(terms, Step(terms, s, ArriveIpn(w, e)), w, 1)
            == if s.payment.Paid? then At(s, w, Answered(e)) else Step(terms, s, Arrive(w, e))
  {
    var peeked := Step(terms, s, ArriveIpn(w, e));
    assert RunAlone(terms, peeked, w, 1) == Step(terms, peeked, Run(w));
    assert s.workers[w := IpnPeek(e)][w := HookLookup(e)] == s.workers[w := HookLookup(e)];
    assert s.workers[w := IpnPeek(e)][w := Answered(e)] == s.workers[w := Answered(e)];
  }

  /** The expiry sweep alone: an open order and its open attempt run out, anything else stays as it is. */
  lemma LoneExpiry(terms: Terms, s: Desk, w: WorkerId)
    requires terms.rateVnd > 0 && w !in s.workers
    ensures var r := RunAlone(terms, Step(terms, s, StartExpiry(w)), w, 3);
            && w in r.workers && r.workers[w] == Over
            && if s.order.Pending? then Shows(r, if s.payment.Pending? then Expired else s.payment, Expired, s.ledger, s.callbacks)
               else Shows(r, s.payment, s.order, s.ledger, s.callbacks)
  {
    var a := Step(terms, s, StartExpiry(w));
    var b := Step(terms, a, Run(w));
    var c := Step(terms, b, Run(w));
    var d := Step(terms, c, Run(w));
    assert RunAlone(terms, a, w, 3) == RunAlone(terms, b, w, 2) == RunAlone(terms, c, w, 1) == d;
  }

  /** The reconcile sweep alone on an attempt nobody handled: the probe's outcome decides. */
  lemma LoneProbe(terms: Terms, s: Desk, w: WorkerId, outcome: ProbeResult) returns (n: nat)
    requires terms.rateVnd > 0 && w !in s.workers && s.payment.Pending? && !SomeHandled(s.callbacks)
    ensures var selected := RunAlone(terms, Step(terms, s, StartSweep(w)), w, 1);
            var r := RunAlone(terms, Step(terms, selected, Probe(w, outcome)), w, n);
            && w in r.workers && r.workers[w] == Over
            && match outcome
               case ProbeUnknown => Shows(r, s.payment, s.order, s.ledger, s.callbacks)
               case ProbeFailed => Shows(r, Failed, Failed, s.ledger, s.callbacks)
               case ProbePaid(amountVnd) =>
                 if !s.order.Pending? || amountVnd != terms.amountVnd || (s.ledger == [] && amountVnd / terms.rateVnd == 0)
                 then Shows(r, s.payment, s.order, s.ledger, s.callbacks)
                 else Shows(r, Paid, Paid, if s.ledger == [] then [amountVnd / terms.rateVnd] else s.ledger, s.callbacks)
  {
    var a := Step(terms, s, StartSweep(w));
    var selected := Step(terms, a, Run(w));
    assert RunAlone(terms, a, w, 1) == selected;
    var probed := Step(terms, selected, Probe(w, outcome));
    match outcome
    case ProbeUnknown => n := 0;
    case ProbeFailed =>
      assert RunAlone(terms, probed, w, 1) == Step(terms, probed, Run(w));
      n := 1;
    case ProbePaid(amountVnd) =>
      n := SettlementRuns(terms, probed, w, FromSweep, amountVnd);
  }

  /** A sweep leaves an attempt alone that is closed or that some delivery has handled. */
  lemma SweepPassesOver(terms: Terms, s: Desk, w: WorkerId)
    requires terms.rateVnd > 0 && w !in s.workers && (!s.payment.Pending? || SomeHandled(s.callbacks))
    ensures var r := RunAlone(terms, Step(terms, s, StartSweep(w)), w, 1);
            && w in r.workers && r.workers[w] == Over && Shows(r, s.payment, s.order, s.ledger, s.callbacks)
  {
    var a := Step(terms, s, StartSweep(w));
    assert RunAlone(terms, a, w, 1) == Step(terms, a, Run(w));
  }

  /** A payment link that cannot be made closes attempt and order. */
  lemma FailedLinkCloses(terms: Terms, s: Desk)
    requires terms.rateVnd > 0
    ensures Shows(Step(terms, s, LinkFails), Failed, Failed, s.ledger, s.callbacks)
  {
  }

  const TWO_REPORTS := Terms(1000, 100, map[0 := Report(Success, 999), 1 := Report(Success, 1000)])

  /**
   * The condition on closing writes cannot be dropped. Delivery 0, with a wrong amount, reads the open
   * order; delivery 1, with the right one, settles it and is answered; then delivery 0 goes on and
   * leaves a credited order shown as FAILED.
   */
  lemma WrongAmountWrittenLate() returns (n: nat)
    ensures var read := RunAlone(TWO_REPORTS, Step(TWO_REPORTS, OPENED, Arrive(0, 0)), 0, 3);
            var settled := RunAlone(TWO_REPORTS, Step(TWO_REPORTS, read, Arrive(1, 1)), 1, n);
            var late := RunAlone(TWO_REPORTS, settled, 0, 3);
            && settled.order.Paid? && settled.payment.Paid? && settled.ledger == [10]
            && settled.workers == map[0 := HookDecide(0, Pending, Pending), 1 := Answered(1)]
            && late.order.Failed? && late.payment.Failed? && late.ledger == [10]
  {
    var read := RunAlone(TWO_REPORTS, Step(TWO_REPORTS, OPENED, Arrive(0, 0)), 0, 3);
    ReadsFirst();
    var arrived := Step(TWO_REPORTS, read, Arrive(1, 1));
    n := DeliveryRuns(TWO_REPORTS, arrived, 1, 1);
    var settled := RunAlone(TWO_REPORTS, arrived, 1, n);
    assert settled == At(Delivered(TWO_REPORTS, arrived, 1), 1, Answered(1));
    WritesLate(settled);
  }

  lemma ReadsFirst()
    ensures RunAlone(TWO_REPORTS, Step(TWO_REPORTS, OPENED, Arrive(0, 0)), 0, 3)
            == Desk(Pending, Pending, [], map[0 := false], map[0 := HookDecide(0, Pending, Pending)])
  {
    var a := Step(TWO_REPORTS, OPENED, Arrive(0, 0));
    var b := Step(TWO_REPORTS, a, Run(0));
    var c := Step(TWO_REPORTS, b, Run(0));
    var d := Step(TWO_REPORTS, c, Run(0));
    assert d == Desk(Pending, Pending, [], map[0 := false], map[0 := HookDecide(0, Pending, Pending)]);
    assert RunAlone(TWO_REPORTS, a, 0, 3) == RunAlone(TWO_REPORTS, b, 0, 2) == RunAlone(TWO_REPORTS, c, 0, 1) == d;
  }

  lemma WritesLate(s: Desk)
    requires 0 in s.workers && s.workers[0] == HookDecide(0, Pending, Pending)
    ensures var late := RunAlone(TWO_REPORTS, s, 0, 3);
            late.order.Failed? && late.payment.Failed? && late.ledger == s.ledger
  {
    var a := Step(TWO_REPORTS, s, Run(0));
    var b := Step(TWO_REPORTS, a, Run(0));
    var c := Step(TWO_REPORTS, b, Run(0));
    assert RunAlone(TWO_REPORTS, s, 0, 3) == RunAlone(TWO_REPORTS, a, 0, 2) == RunAlone(TWO_REPORTS, b, 0, 1) == c;
  }
}
