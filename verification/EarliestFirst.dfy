/**
 * Why the lots that run out first are drained first. Two histories of the lot table receive the same
 * grants, payments and expiries; one pays by the listing, the other from any lots it likes. At every
 * moment the first holds at least as many Coins for every later date.
 */
module EarliestFirst {
  import opened Prelude
  import opened CoinBook
  import opened CoinBookProofs
  import opened CoinMoves

  // ---------------------------------------------------------------------------------------------
  // Any way to pay
  // ---------------------------------------------------------------------------------------------

  predicate LotDrawn(lot: Lot, next: Lot, w: WalletId, now: Time) {
    next == lot
    || (Spendable(lot, w, now) && 0 <= next.remaining < lot.remaining
        && next == Taken(lot, lot.remaining - next.remaining, now))
  }

  /** Some Coins left some spendable lots of the wallet, in whatever way. */
  predicate Draws(lots: seq<Lot>, next: seq<Lot>, w: WalletId, now: Time) {
    |next| == |lots| && forall i :: 0 <= i < |lots| ==> LotDrawn(lots[i], next[i], w, now)
  }

  predicate PaysSomehow(lots: seq<Lot>, next: seq<Lot>, w: WalletId, amount: int, now: Time) {
    Draws(lots, next, w, now) && Held(next, w, Some(now)) == Held(lots, w, Some(now)) - amount
  }

  predicate Due(lot: Lot, now: Time) {
    lot.expiresAt <= now
  }

  // ---------------------------------------------------------------------------------------------
  // Facts about what is held
  // ---------------------------------------------------------------------------------------------

  lemma {:induction false} HeldMonotone(lots: seq<Lot>, w: WalletId, now: Time, t: Time)
    requires AllSound(lots) && now <= t
    ensures Held(lots, w, Some(t)) <= Held(lots, w, Some(now)) <= Held(lots, w, None)
  {
    if lots != [] {
      assert LotSound(lots[|lots| - 1]);
      HeldMonotone(lots[..|lots| - 1], w, now, t);
    }
  }

  lemma {:induction false} HeldAllLate(lots: seq<Lot>, w: WalletId, now: Time, t: Time)
    requires AllSound(lots) && now <= t
    requires forall i :: 0 <= i < |lots| && Spendable(lots[i], w, now) ==> lots[i].expiresAt > t
    ensures Held(lots, w, Some(t)) == Held(lots, w, Some(now))
  {
    if lots != [] {
      var last := lots[|lots| - 1];
      assert LotSound(last) && (Spendable(last, w, now) ==> last.expiresAt > t);
      HeldAllLate(lots[..|lots| - 1], w, now, t);
    }
  }

  /** A draw lowers what is held for every date, and by the same amount with or without the lots already due. */
  lemma {:induction false} DrawsLowers(lots: seq<Lot>, next: seq<Lot>, w: WalletId, now: Time, v: WalletId, after: Option<Time>)
    requires Draws(lots, next, w, now)
    ensures Held(next, v, after) <= Held(lots, v, after)
    ensures Held(lots, v, None) - Held(next, v, None) == Held(lots, v, Some(now)) - Held(next, v, Some(now))
    ensures v != w ==> Held(next, v, None) == Held(lots, v, None)
  {
    if lots != [] {
      var last := |lots| - 1;
      assert LotDrawn(lots[last], next[last], w, now);
      assert Draws(lots[..last], next[..last], w, now);
      DrawsLowers(lots[..last], next[..last], w, now, v, after);
    }
  }

  lemma DrawsSound(lots: seq<Lot>, next: seq<Lot>, w: WalletId, now: Time)
    requires AllSound(lots) && Draws(lots, next, w, now)
    ensures AllSound(next)
  {
    forall i | 0 <= i < |next| ensures LotSound(next[i]) {
      assert LotSound(lots[i]) && LotDrawn(lots[i], next[i], w, now);
    }
  }

  /** The listing is one way to pay. */
  lemma ListingDraws(lots: seq<Lot>, w: WalletId, rows: seq<LotId>, amount: int, now: Time)
    requires IsSelection(lots, w, now, rows)
    ensures Draws(lots, Drain(lots, rows, amount, now), w, now)
  {
    var next := Drain(lots, rows, amount, now);
    forall i | 0 <= i < |lots| ensures LotDrawn(lots[i], next[i], w, now) {
      DrainFrame(lots, rows, amount, now, i);
      if i in rows {
        var k :| 0 <= k < |rows| && rows[k] == i;
        DrainShares(lots, w, rows, amount, now, k);
      }
    }
  }

  /** The first listed lot outlives a date only if every Coin held now does. */
  lemma FirstOutlives(lots: seq<Lot>, w: WalletId, rows: seq<LotId>, now: Time, t: Time)
    requires AllSound(lots) && IsListing(lots, w, now, rows) && rows != [] && now <= t
    ensures lots[rows[0]].expiresAt > t ==> Held(lots, w, Some(t)) == Held(lots, w, Some(now))
    ensures lots[rows[0]].expiresAt <= t ==> Held(lots, w, Some(t)) <= Held(lots, w, Some(now)) - lots[rows[0]].remaining
  {
    if lots[rows[0]].expiresAt > t {
      AllAsLate(lots, w, rows, now, t);
      HeldAllLate(lots, w, now, t);
    } else {
      var emptied := lots[rows[0] := Taken(lots[rows[0]], lots[rows[0]].remaining, now)];
      HeldUpdated(lots, rows[0], emptied[rows[0]], w, Some(t));
      HeldUpdated(lots, rows[0], emptied[rows[0]], w, Some(now));
      HeldMonotone(emptied, w, now, t);
    }
  }

  /** What the listing leaves for a later date: all of it, unless the earlier lots could not cover the payment. */
  lemma {:induction false} ListingLeavesMost(lots: seq<Lot>, w: WalletId, rows: seq<LotId>, amount: int, now: Time, t: Time)
    requires AllSound(lots) && IsListing(lots, w, now, rows)
    requires 0 <= amount <= Held(lots, w, Some(now)) && now <= t
    ensures Held(Drain(lots, rows, amount, now), w, Some(t)) == Min(Held(lots, w, Some(t)), Held(lots, w, Some(now)) - amount)
    decreases |rows|, 0
  {
    HeldMonotone(lots, w, now, t);
    SelectionSum(lots, w, now, rows);
    if rows != [] && amount > 0 {
      FirstOutlives(lots, w, rows, now, t);
      if lots[rows[0]].remaining < amount {
        var taken := lots[rows[0]].remaining;
        var emptied := lots[rows[0] := Taken(lots[rows[0]], taken, now)];
        EmptiedHeld(lots, w, rows, now, t, emptied);
        EmptiedSound(lots, rows[0], now);
        ListingTail(lots, w, now, rows);
        LeavesMostNext(emptied, w, rows[1..], amount - taken, now, t, taken, Held(lots, w, Some(now)), Held(lots, w, Some(t)));
      } else {
        DrainStops(lots, rows, amount, now);
        HeldUpdated(lots, rows[0], Taken(lots[rows[0]], amount, now), w, Some(t));
      }
    }
  }

  /** The rest of the payment, with what was held before the first lot was emptied. */
  lemma {:induction false} LeavesMostNext(emptied: seq<Lot>, w: WalletId, rest: seq<LotId>, amount: int, now: Time, t: Time,
                                          taken: int, heldNow: int, heldThen: int)
    requires AllSound(emptied) && IsListing(emptied, w, now, rest) && now <= t
    requires 0 < amount && taken >= 0 && Held(emptied, w, Some(now)) == heldNow - taken && amount <= heldNow - taken
    requires (Held(emptied, w, Some(t)) == heldThen - taken && heldThen == heldNow)
             || (Held(emptied, w, Some(t)) == heldThen && heldThen <= heldNow - taken)
    ensures Held(Drain(emptied, rest, amount, now), w, Some(t)) == Min(heldThen, heldNow - taken - amount)
    decreases |rest|, 1
  {
    ListingLeavesMost(emptied, w, rest, amount, now, t);
  }

  /** The Coins of the emptied first lot are missing now, and later too if it would have lasted. */
  lemma EmptiedHeld(lots: seq<Lot>, w: WalletId, rows: seq<LotId>, now: Time, t: Time, emptied: seq<Lot>)
    requires AllSound(lots) && IsListing(lots, w, now, rows) && rows != [] && now <= t
    requires emptied == lots[rows[0] := Taken(lots[rows[0]], lots[rows[0]].remaining, now)]
    ensures Held(emptied, w, Some(now)) == Held(lots, w, Some(now)) - lots[rows[0]].remaining
    ensures if lots[rows[0]].expiresAt > t
            then Held(emptied, w, Some(t)) == Held(lots, w, Some(t)) - lots[rows[0]].remaining
                 && Held(lots, w, Some(t)) == Held(lots, w, Some(now))
            else Held(emptied, w, Some(t)) == Held(lots, w, Some(t)) <= Held(lots, w, Some(now)) - lots[rows[0]].remaining
  {
    FirstOutlives(lots, w, rows, now, t);
    HeldUpdated(lots, rows[0], emptied[rows[0]], w, Some(t));
    HeldUpdated(lots, rows[0], emptied[rows[0]], w, Some(now));
  }

  lemma EmptiedSound(lots: seq<Lot>, id: LotId, now: Time)
    requires AllSound(lots) && id < |lots|
    ensures AllSound(lots[id := Taken(lots[id], lots[id].remaining, now)])
  {
  }

  lemma AllAsLate(lots: seq<Lot>, w: WalletId, rows: seq<LotId>, now: Time, t: Time)
    requires IsListing(lots, w, now, rows) && rows != [] && lots[rows[0]].expiresAt > t
    ensures forall i :: 0 <= i < |lots| && Spendable(lots[i], w, now) ==> lots[i].expiresAt > t
  {
    forall i | 0 <= i < |lots| && Spendable(lots[i], w, now) ensures lots[i].expiresAt > t {
      var k :| 0 <= k < |rows| && rows[k] == i;
      assert k == 0 || NotAfter(lots[rows[0]], lots[rows[k]]);
    }
  }

  // ---------------------------------------------------------------------------------------------
  // Two histories of the same events
  // ---------------------------------------------------------------------------------------------

  datatype Event =
    | Grant(lot: Lot, at: Time)
    | Pay(w: WalletId, amount: int, at: Time)
    | Expire(id: LotId, at: Time)

  function Closed(lots: seq<Lot>, id: LotId, now: Time): seq<Lot> {
    if id < |lots| && Open(lots[id]) && Due(lots[id], now)
    then lots[id := lots[id].(remaining := 0, closedAt := Some(now))]
    else lots
  }

  /** The platform: the earliest-expiring lots pay; a payment they cannot cover is refused. */
  ghost predicate ListedStep(lots: seq<Lot>, e: Event, next: seq<Lot>) {
    match e
    case Grant(lot, _) => LotSound(lot) && next == lots + [lot]
    case Pay(w, amount, at) =>
      if amount <= Held(lots, w, Some(at))
      then exists rows :: IsListing(lots, w, at, rows) && next == Drain(lots, rows, amount, at)
      else next == lots
    case Expire(id, at) => next == Closed(lots, id, at)
  }

  /** A rival that covers every payment from lots of its own choice. */
  predicate RivalStep(lots: seq<Lot>, e: Event, next: seq<Lot>) {
    match e
    case Grant(lot, _) => LotSound(lot) && next == lots + [lot]
    case Pay(w, amount, at) => amount >= 0 && PaysSomehow(lots, next, w, amount, at)
    case Expire(id, at) => next == Closed(lots, id, at)
  }

  ghost predicate Histories(listed: seq<seq<Lot>>, rival: seq<seq<Lot>>, events: seq<Event>) {
    && |listed| == |rival| == |events| + 1
    && listed[0] == rival[0] && AllSound(listed[0])
    && (forall i :: 0 <= i < |events| ==> ListedStep(listed[i], events[i], listed[i + 1]))
    && (forall i :: 0 <= i < |events| ==> RivalStep(rival[i], events[i], rival[i + 1]))
    && (forall i, j :: 0 <= i < j < |events| ==> events[i].at <= events[j].at)
  }

  /** At least as many Coins for every date from `now` on, in every wallet. */
  ghost predicate Dominates(lots: seq<Lot>, other: seq<Lot>, now: Time) {
    forall w: WalletId, t: Time :: t >= now ==> Held(lots, w, Some(t)) >= Held(other, w, Some(t))
  }

  lemma ClosedKeeps(lots: seq<Lot>, id: LotId, now: Time, w: WalletId, t: Time)
    requires AllSound(lots)
    ensures AllSound(Closed(lots, id, now))
    ensures t >= now ==> Held(Closed(lots, id, now), w, Some(t)) == Held(lots, w, Some(t))
  {
    if Closed(lots, id, now) != lots {
      HeldUpdated(lots, id, lots[id].(remaining := 0, closedAt := Some(now)), w, Some(t));
    }
  }

  /** One event keeps the lead, and a payment the rival covers is never refused. */
  lemma StepKeepsLead(lots: seq<Lot>, other: seq<Lot>, e: Event, lots': seq<Lot>, other': seq<Lot>)
    requires AllSound(lots) && AllSound(other) && Dominates(lots, other, e.at)
    requires ListedStep(lots, e, lots') && RivalStep(other, e, other')
    ensures AllSound(lots') && AllSound(other') && Dominates(lots', other', e.at)
    ensures e.Pay? ==> e.amount <= Held(lots, e.w, Some(e.at)) && PaysSomehow(lots, lots', e.w, e.amount, e.at)
  {
    match e
    case Grant(lot, at) =>
      forall w: WalletId, t: Time | t >= at ensures Held(lots', w, Some(t)) >= Held(other', w, Some(t)) {
        HeldAppended(lots, lot, w, Some(t));
        HeldAppended(other, lot, w, Some(t));
      }
    case Expire(id, at) =>
      ClosedKeeps(lots, id, at, 0, at);
      ClosedKeeps(other, id, at, 0, at);
      forall w: WalletId, t: Time | t >= at ensures Held(lots', w, Some(t)) >= Held(other', w, Some(t)) {
        ClosedKeeps(lots, id, at, w, t);
        ClosedKeeps(other, id, at, w, t);
      }
    case Pay(w, amount, at) =>
      RivalAffords(lots, other, other', w, amount, at);
      var rows :| IsListing(lots, w, at, rows) && lots' == Drain(lots, rows, amount, at);
      ListingPays(lots, w, rows, amount, at);
      DrawsSound(lots, lots', w, at);
      DrawsSound(other, other', w, at);
      forall v: WalletId, t: Time | t >= at ensures Held(lots', v, Some(t)) >= Held(other', v, Some(t)) {
        PaymentKeepsLead(lots, other, rows, w, amount, at, other', v, t);
      }
  }

  lemma RivalAffords(lots: seq<Lot>, other: seq<Lot>, other': seq<Lot>, w: WalletId, amount: int, at: Time)
    requires AllSound(other) && Dominates(lots, other, at) && PaysSomehow(other, other', w, amount, at)
    ensures amount <= Held(lots, w, Some(at))
  {
    DrawsSound(other, other', w, at);
    HeldNonNegative(other', w, Some(at));
    assert Held(lots, w, Some(at)) >= Held(other, w, Some(at));
  }

  lemma ListingPays(lots: seq<Lot>, w: WalletId, rows: seq<LotId>, amount: int, at: Time)
    requires AllSound(lots) && IsListing(lots, w, at, rows) && 0 <= amount <= Held(lots, w, Some(at))
    ensures PaysSomehow(lots, Drain(lots, rows, amount, at), w, amount, at)
  {
    ListingDraws(lots, w, rows, amount, at);
    ListingLeavesMost(lots, w, rows, amount, at, at);
  }

  lemma PaymentKeepsLead(lots: seq<Lot>, other: seq<Lot>, rows: seq<LotId>, w: WalletId, amount: int, at: Time,
                         other': seq<Lot>, v: WalletId, t: Time)
    requires AllSound(lots) && AllSound(other) && Dominates(lots, other, at)
    requires IsListing(lots, w, at, rows) && 0 <= amount <= Held(lots, w, Some(at)) && PaysSomehow(other, other', w, amount, at)
    requires t >= at
    ensures Held(Drain(lots, rows, amount, at), v, Some(t)) >= Held(other', v, Some(t))
  {
    var lots' := Drain(lots, rows, amount, at);
    DrawsLowers(other, other', w, at, v, Some(t));
    assert Held(lots, v, Some(t)) >= Held(other, v, Some(t));
    if v == w {
      ListingLeavesMost(lots, w, rows, amount, at, t);
      DrawsSound(other, other', w, at);
      HeldMonotone(other', w, at, t);
      assert Held(lots, w, Some(at)) >= Held(other, w, Some(at));
    } else {
      ListingDraws(lots, w, rows, amount, at);
      HeldElsewhere(lots, lots', w, at, v, t);
    }
  }

  lemma {:induction false} HeldElsewhere(lots: seq<Lot>, next: seq<Lot>, w: WalletId, now: Time, v: WalletId, t: Time)
    requires Draws(lots, next, w, now) && v != w
    ensures Held(next, v, Some(t)) == Held(lots, v, Some(t))
  {
    if lots != [] {
      var last := |lots| - 1;
      assert LotDrawn(lots[last], next[last], w, now);
      assert Draws(lots[..last], next[..last], w, now);
      HeldElsewhere(lots[..last], next[..last], w, now, v, t);
    }
  }

  /**
   * Over a whole history: after every event the listing holds at least as many Coins for every date,
   * so it covers every payment the rival covers.
   */
  lemma {:induction false} EarliestFirstLeads(listed: seq<seq<Lot>>, rival: seq<seq<Lot>>, events: seq<Event>, n: nat)
    requires Histories(listed, rival, events) && n <= |events|
    ensures AllSound(listed[n]) && AllSound(rival[n])
    ensures n > 0 ==> Dominates(listed[n], rival[n], events[n - 1].at)
    ensures forall i :: 0 <= i < n && events[i].Pay? ==>
              events[i].amount <= Held(listed[i], events[i].w, Some(events[i].at))
              && PaysSomehow(listed[i], listed[i + 1], events[i].w, events[i].amount, events[i].at)
  {
    if n > 0 {
      EarliestFirstLeads(listed, rival, events, n - 1);
      var e := events[n - 1];
      assert ListedStep(listed[n - 1], e, listed[n]) && RivalStep(rival[n - 1], e, rival[n]);
      if n > 1 {
        assert events[n - 2].at <= e.at;
      }
      StepKeepsLead(listed[n - 1], rival[n - 1], e, listed[n], rival[n]);
    }
  }

  // ---------------------------------------------------------------------------------------------
  // Coins lost to expiry
  // ---------------------------------------------------------------------------------------------

  /** Coins of a wallet the expiry sweep took in the first n events. */
  function Swept(states: seq<seq<Lot>>, events: seq<Event>, w: WalletId, n: nat): int
    requires |states| == |events| + 1 && n <= |events|
  {
    if n == 0 then 0
    else
      var e := events[n - 1];
      Swept(states, events, w, n - 1)
      + if e.Expire? then Held(states[n - 1], w, None) - Held(states[n], w, None) else 0
  }

  /** Coins of a wallet lost by the last event: swept, or lying in lots already due. */
  function Lost(states: seq<seq<Lot>>, events: seq<Event>, w: WalletId): int
    requires |states| == |events| + 1 && events != []
  {
    var now := events[|events| - 1].at;
    var last := states[|events|];
    Swept(states, events, w, |events|) + Held(last, w, None) - Held(last, w, Some(now))
  }

  /** Granted less paid in the first n events. */
  function Net(events: seq<Event>, w: WalletId, n: nat): int
    requires n <= |events|
  {
    if n == 0 then 0
    else
      Net(events, w, n - 1)
      + match events[n - 1]
        case Grant(lot, _) => if lot.wallet == w then lot.remaining else 0
        case Pay(v, amount, _) => if v == w then -amount else 0
        case Expire(_, _) => 0
  }

  /** One event of a history in which every payment is covered somehow. */
  predicate CoveredStep(lots: seq<Lot>, e: Event, next: seq<Lot>) {
    match e
    case Grant(lot, _) => next == lots + [lot]
    case Pay(w, amount, at) => PaysSomehow(lots, next, w, amount, at)
    case Expire(_, _) => true
  }

  lemma {:induction false} CoinsAccountedFor(states: seq<seq<Lot>>, events: seq<Event>, w: WalletId, n: nat)
    requires |states| == |events| + 1 && n <= |events|
    requires forall i :: 0 <= i < n ==> CoveredStep(states[i], events[i], states[i + 1])
    ensures Held(states[n], w, None) + Swept(states, events, w, n) == Held(states[0], w, None) + Net(events, w, n)
  {
    if n > 0 {
      CoinsAccountedFor(states, events, w, n - 1);
      assert CoveredStep(states[n - 1], events[n - 1], states[n]);
      match events[n - 1]
      case Grant(lot, _) => HeldAppended(states[n - 1], lot, w, None);
      case Pay(v, amount, at) => DrawsLowers(states[n - 1], states[n], v, at, w, None);
      case Expire(_, _) =>
    }
  }

  /** No other choice of lots for the same payments loses fewer Coins to expiry. */
  lemma EarliestFirstLosesLeast(listed: seq<seq<Lot>>, rival: seq<seq<Lot>>, events: seq<Event>, w: WalletId)
    requires Histories(listed, rival, events) && events != []
    ensures Lost(listed, events, w) <= Lost(rival, events, w)
  {
    var n := |events|;
    EarliestFirstLeads(listed, rival, events, n);
    forall i | 0 <= i < n
      ensures CoveredStep(listed[i], events[i], listed[i + 1]) && CoveredStep(rival[i], events[i], rival[i + 1])
    {
      assert ListedStep(listed[i], events[i], listed[i + 1]) && RivalStep(rival[i], events[i], rival[i + 1]);
    }
    CoinsAccountedFor(listed, events, w, n);
    CoinsAccountedFor(rival, events, w, n);
    assert Dominates(listed[n], rival[n], events[n - 1].at);
  }
}
