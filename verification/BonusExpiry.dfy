/**
 * The expiry sweep reads lots outside any transaction and closes them later, one transaction each.
 * When that stale read is sound, that no lot expires twice under any interleaving, and that the sweep
 * running alone ends with no due lot open.
 */
module BonusExpiry {
  import opened Prelude
  import opened CoinBook
  import opened CoinBookProofs
  import opened CoinMoves
  import opened CoinService

  predicate DueOpen(lot: Lot, now: Time) {
    Open(lot) && lot.expiresAt <= now
  }

  // ---------------------------------------------------------------------------------------------
  // Interleaved transactions
  // ---------------------------------------------------------------------------------------------

  /** One committed transaction on the wallets; an expiry carries what its sweep read, and when it read it. */
  datatype Op =
    | Opens(w: WalletId)
    | Credits(w: WalletId, credit: CreditRequest, now: Time)
    | Spends(w: WalletId, spend: SpendRequest, rows: seq<LotId>, now: Time)
    | Adjusts(w: WalletId, adjust: AdjustRequest, rows: seq<LotId>, now: Time)
    | Expires(id: LotId, amount: int, now: Time, readAt: nat)

  predicate Legal(b: Book, op: Op) {
    match op
    case Opens(_) => true
    case Credits(_, rq, _) => rq.main >= 0 && rq.bonus >= 0 && !rq.cause.kind.BonusExpiry?
    case Spends(w, rq, rows, now) => IsSelection(b.lots, w, now, rows) && !rq.cause.kind.BonusExpiry?
    case Adjusts(w, _, rows, now) => IsSelection(b.lots, w, now, rows)
    case Expires(_, _, _, _) => true
  }

  function Apply(b: Book, op: Op): Book
    requires Legal(b, op)
  {
    match op
    case Opens(w) => OpenWallet(b, w)
    case Credits(w, rq, now) => Credit(b, w, rq, now).0
    case Spends(w, rq, rows, now) => Spend(b, w, rq, rows, now).0
    case Adjusts(w, rq, rows, now) => Adjust(b, w, rq, rows, now).0
    case Expires(id, amount, now, _) => ExpireLot(b, id, amount, now)
  }

  predicate Run(books: seq<Book>, ops: seq<Op>) {
    && |books| == |ops| + 1
    && forall i :: 0 <= i < |ops| ==> Legal(books[i], ops[i]) && books[i + 1] == Apply(books[i], ops[i])
  }

  /** The sweep at step i carries a row it read at an earlier step: open, due, and holding `amount` then. */
  predicate ReadEarlier(books: seq<Book>, op: Op, i: nat)
    requires op.Expires? && i < |books|
  {
    && op.readAt <= i
    && op.id < |books[op.readAt].lots|
    && DueOpen(books[op.readAt].lots[op.id], op.now)
    && op.amount == books[op.readAt].lots[op.id].remaining
  }

  /** A payment or correction between read and lock uses a clock not earlier than the sweep's. */
  predicate ClockNotEarlier(op: Op, now: Time) {
    (op.Spends? || op.Adjusts?) ==> op.now >= now
  }

  predicate SweepsReadInTime(books: seq<Book>, ops: seq<Op>) {
    && |books| == |ops| + 1
    && forall i :: 0 <= i < |ops| && ops[i].Expires? ==>
         && ReadEarlier(books, ops[i], i)
         && forall j :: ops[i].readAt <= j < i ==> ClockNotEarlier(ops[j], ops[i].now)
  }

  // ---------------------------------------------------------------------------------------------
  // What one transaction does to one lot
  // ---------------------------------------------------------------------------------------------

  lemma DrainLeavesUnspendable(lots: seq<Lot>, w: WalletId, rows: seq<LotId>, amount: int, now: Time, id: LotId)
    requires IsSelection(lots, w, now, rows) && id < |lots| && !Spendable(lots[id], w, now)
    ensures Drain(lots, rows, amount, now)[id] == lots[id]
  {
    DrainFrame(lots, rows, amount, now, id);
  }

  lemma SpendLeavesAlone(b: Book, w: WalletId, rq: SpendRequest, rows: seq<LotId>, at: Time, id: LotId)
    requires Legal(b, Spends(w, rq, rows, at)) && id < |b.lots| && !Spendable(b.lots[id], b.lots[id].wallet, at)
    ensures id < |Apply(b, Spends(w, rq, rows, at)).lots| && Apply(b, Spends(w, rq, rows, at)).lots[id] == b.lots[id]
  {
    if w in b.wallets {
      var main := Min(b.wallets[w].main, rq.amount);
      TakeLotsDrains(Post(b, w, rq.cause, -main, 0, None, rq.key), w, rq.cause, rows, rq.amount - main, None, at);
      DrainLeavesUnspendable(b.lots, w, rows, rq.amount - main, at, id);
    }
  }

  lemma AdjustLeavesAlone(b: Book, w: WalletId, rq: AdjustRequest, rows: seq<LotId>, at: Time, id: LotId)
    requires Legal(b, Adjusts(w, rq, rows, at)) && id < |b.lots| && !Spendable(b.lots[id], b.lots[id].wallet, at)
    ensures id < |Apply(b, Adjusts(w, rq, rows, at)).lots| && Apply(b, Adjusts(w, rq, rows, at)).lots[id] == b.lots[id]
  {
    if w in b.wallets && rq.bonus < 0 {
      TakeLotsDrains(b, w, ADJUSTED, rows, -rq.bonus, rq.key, at);
      DrainLeavesUnspendable(b.lots, w, rows, -rq.bonus, at, id);
    }
  }

  /** No transaction touches a closed lot, and payments at a clock past its date do not touch a due one. */
  lemma LotLeftAlone(b: Book, op: Op, id: LotId, now: Time)
    requires Legal(b, op) && id < |b.lots|
    requires b.lots[id].closedAt.Some? || (b.lots[id].expiresAt <= now && ClockNotEarlier(op, now))
    ensures id < |Apply(b, op).lots|
    ensures Apply(b, op).lots[id] == b.lots[id] || (op.Expires? && Apply(b, op).lots[id].closedAt.Some?)
  {
    match op
    case Opens(_) =>
    case Credits(_, _, _) =>
    case Expires(_, _, _, _) =>
    case Spends(w, rq, rows, at) => SpendLeavesAlone(b, w, rq, rows, at, id);
    case Adjusts(w, rq, rows, at) => AdjustLeavesAlone(b, w, rq, rows, at, id);
  }

  // ---------------------------------------------------------------------------------------------
  // The stale read
  // ---------------------------------------------------------------------------------------------

  /** From the read to the lock the lot either keeps what was read or is closed by another sweep. */
  lemma {:induction false} LotSinceRead(books: seq<Book>, ops: seq<Op>, i: nat, n: nat)
    requires Run(books, ops) && SweepsReadInTime(books, ops)
    requires i < |ops| && ops[i].Expires? && ops[i].readAt <= n <= i
    ensures ops[i].id < |books[n].lots|
    ensures var lot := books[n].lots[ops[i].id];
            lot.closedAt.Some? || lot == books[ops[i].readAt].lots[ops[i].id]
    decreases n
  {
    if n > ops[i].readAt {
      LotSinceRead(books, ops, i, n - 1);
      assert ClockNotEarlier(ops[n - 1], ops[i].now);
      assert books[n] == Apply(books[n - 1], ops[n - 1]);
      LotLeftAlone(books[n - 1], ops[n - 1], ops[i].id, ops[i].now);
    }
  }

  /** So the amount a sweep subtracts is what the lot still holds, if the lot is still open at all. */
  lemma StaleReadIsSound(books: seq<Book>, ops: seq<Op>, i: nat)
    requires Run(books, ops) && SweepsReadInTime(books, ops) && i < |ops| && ops[i].Expires?
    ensures ops[i].id < |books[i].lots|
    ensures Open(books[i].lots[ops[i].id]) ==> books[i].lots[ops[i].id].remaining == ops[i].amount
  {
    LotSinceRead(books, ops, i, i);
  }

  lemma OpensAgrees(b: Book, w: WalletId)
    requires Agree(b)
    ensures Agree(OpenWallet(b, w))
  {
    var r := OpenWallet(b, w);
    if w !in b.wallets {
      NothingOf(b, w);
      forall v | v in r.wallets ensures WalletAgrees(r, v) {
        assert v != w ==> WalletAgrees(b, v);
      }
      forall id | 0 <= id < |r.lots| ensures LotAgrees(r, id) { assert LotAgrees(b, id); }
      forall i | 0 <= i < |r.ledger| ensures RowPlaced(r, i) { assert RowPlaced(b, i); }
    }
  }

  lemma NothingOf(b: Book, w: WalletId)
    requires Agree(b) && w !in b.wallets
    ensures MainSum(b.ledger, w) == 0 && BonusSum(b.ledger, w) == 0 && Held(b.lots, w, None) == 0
  {
    forall i | 0 <= i < |b.ledger| ensures b.ledger[i].wallet != w { assert RowPlaced(b, i); }
    forall id | 0 <= id < |b.lots| ensures b.lots[id].wallet != w { assert LotAgrees(b, id); }
    NoRowsOfWallet(b.ledger, w);
    NoLotsOfWallet(b.lots, w);
  }

  lemma {:induction false} NoRowsOfWallet(ledger: seq<Entry>, w: WalletId)
    requires forall i :: 0 <= i < |ledger| ==> ledger[i].wallet != w
    ensures MainSum(ledger, w) == 0 && BonusSum(ledger, w) == 0
  {
    if ledger != [] { NoRowsOfWallet(ledger[..|ledger| - 1], w); }
  }

  lemma {:induction false} NoLotsOfWallet(lots: seq<Lot>, w: WalletId)
    requires forall i :: 0 <= i < |lots| ==> lots[i].wallet != w
    ensures Held(lots, w, None) == 0
  {
    if lots != [] { NoLotsOfWallet(lots[..|lots| - 1], w); }
  }

  lemma StepAgrees(b: Book, op: Op)
    requires Agree(b) && Legal(b, op)
    requires op.Expires? && op.id < |b.lots| && Open(b.lots[op.id]) ==> b.lots[op.id].remaining == op.amount
    ensures Agree(Apply(b, op))
  {
    match op
    case Opens(w) => OpensAgrees(b, w);
    case Credits(w, rq, now) => CreditAgrees(b, w, rq, now);
    case Spends(w, rq, rows, now) => SpendAgrees(b, w, rq, rows, now);
    case Adjusts(w, rq, rows, now) => AdjustAgrees(b, w, rq, rows, now);
    case Expires(id, amount, now, _) => ExpireAgreesExactly(b, id, amount, now);
  }

  /** Wallet, lots and ledger agree after every transaction of every run whose sweeps read in time. */
  lemma {:induction false} EveryRunAgrees(books: seq<Book>, ops: seq<Op>, n: nat)
    requires Run(books, ops) && SweepsReadInTime(books, ops) && Agree(books[0]) && n <= |ops|
    ensures Agree(books[n])
  {
    if n > 0 {
      EveryRunAgrees(books, ops, n - 1);
      assert books[n] == Apply(books[n - 1], ops[n - 1]) && Legal(books[n - 1], ops[n - 1]);
      if ops[n - 1].Expires? {
        StaleReadIsSound(books, ops, n - 1);
      }
      StepAgrees(books[n - 1], ops[n - 1]);
    }
  }

  /** A payment whose clock is not earlier than the sweep's leaves a due lot alone. */
  lemma SpendLeavesDue(b: Book, w: WalletId, rq: SpendRequest, rows: seq<LotId>, clock: Time, id: LotId, now: Time)
    requires IsSelection(b.lots, w, clock, rows) && id < |b.lots| && DueOpen(b.lots[id], now)
    ensures var between := Spend(b, w, rq, rows, clock).0;
            id < |between.lots| && (clock >= now ==> between.lots[id] == b.lots[id])
  {
    if w in b.wallets {
      var main := Min(b.wallets[w].main, rq.amount);
      TakeLotsDrains(Post(b, w, rq.cause, -main, 0, None, rq.key), w, rq.cause, rows, rq.amount - main, None, clock);
      if clock >= now {
        DrainLeavesUnspendable(b.lots, w, rows, rq.amount - main, clock, id);
      }
    }
  }

  function PlaceOf(rows: seq<LotId>, id: LotId): (k: nat)
    requires id in rows
    ensures k < |rows| && rows[k] == id
  {
    if rows[0] == id then 0 else 1 + PlaceOf(rows[1..], id)
  }

  /** What a payment takes out of one lot, read off the tables before it. */
  function TakenFrom(b: Book, w: WalletId, rq: SpendRequest, rows: seq<LotId>, clock: Time, id: LotId): int
    requires forall k :: 0 <= k < |rows| ==> rows[k] < |b.lots|
  {
    if KeyUsed(b.ledger, rq.key) || rq.amount <= 0 || w !in b.wallets || rq.amount > Purse(b, w, clock) || id !in rows then 0
    else LotShare(b.lots, rows, rq.amount - Min(b.wallets[w].main, rq.amount), PlaceOf(rows, id))
  }

  lemma SpendTakes(b: Book, w: WalletId, rq: SpendRequest, rows: seq<LotId>, clock: Time, id: LotId)
    requires Agree(b) && IsSelection(b.lots, w, clock, rows) && id < |b.lots|
    ensures var between := Spend(b, w, rq, rows, clock).0;
            id < |between.lots| && between.lots[id].remaining == b.lots[id].remaining - TakenFrom(b, w, rq, rows, clock, id)
  {
    if !KeyUsed(b.ledger, rq.key) {
      SpendVerdict(b, w, rq, rows, clock);
      if Spend(b, w, rq, rows, clock).1.Ok? {
        var bonus := rq.amount - Min(b.wallets[w].main, rq.amount);
        SpendEffect(b, w, rq, rows, clock);
        DrainFrame(b.lots, rows, bonus, clock, id);
        if id in rows {
          DrainShares(b.lots, w, rows, bonus, clock, PlaceOf(rows, id));
        }
      }
    }
  }

  /**
   * One payment committing between the read of a lot and its expiry, at any clock: the tables agree
   * afterwards exactly when the payment takes nothing out of that lot or all of it.
   */
  lemma StaleReadExactly(b: Book, w: WalletId, rq: SpendRequest, rows: seq<LotId>, clock: Time, id: LotId, now: Time)
    requires Agree(b) && IsSelection(b.lots, w, clock, rows)
    requires id < |b.lots| && DueOpen(b.lots[id], now)
    ensures var between := Spend(b, w, rq, rows, clock).0;
            && id < |between.lots|
            && (Agree(ExpireLot(between, id, b.lots[id].remaining, now))
                <==> !(0 < TakenFrom(b, w, rq, rows, clock, id) < b.lots[id].remaining))
            && between.lots[id].remaining == b.lots[id].remaining - TakenFrom(b, w, rq, rows, clock, id)
            && (clock >= now ==> between.lots[id] == b.lots[id])
  {
    var between := Spend(b, w, rq, rows, clock).0;
    SpendAgrees(b, w, rq, rows, clock);
    SpendTakes(b, w, rq, rows, clock, id);
    SpendLeavesDue(b, w, rq, rows, clock, id, now);
    assert LotAgrees(between, id) && LotAgrees(b, id);
    ExpireAgreesExactly(between, id, b.lots[id].remaining, now);
  }

  /** An expiry that finds its lot no longer open, or holding exactly what was read. */
  predicate Fits(b: Book, op: Op) {
    op.Expires? && op.id < |b.lots| && Open(b.lots[op.id]) ==> b.lots[op.id].remaining == op.amount
  }

  /** In any interleaving the tables agree up to a point exactly when every expiry before it fits. */
  lemma {:induction false} RunAgreesExactly(books: seq<Book>, ops: seq<Op>, n: nat)
    requires Run(books, ops) && Agree(books[0]) && n <= |ops|
    ensures (forall m :: 0 <= m <= n ==> Agree(books[m])) <==> (forall i :: 0 <= i < n ==> Fits(books[i], ops[i]))
  {
    if n > 0 {
      RunAgreesExactly(books, ops, n - 1);
      var b, op := books[n - 1], ops[n - 1];
      assert books[n] == Apply(b, op) && Legal(b, op);
      if Agree(b) {
        if Fits(b, op) {
          StepAgrees(b, op);
        } else {
          ExpireAgreesExactly(b, op.id, op.amount, op.now);
        }
      }
    }
  }

  /** A wallet with a single lot of two bonus Coins that runs out after a day. */
  const TWO_COINS := Credit(NO_MOVES, 0, CreditRequest(Cause(SignupBonus, None, None), 0, 2, 1, None), 0).0

  const ONE_COIN := SpendRequest(Cause(EpisodePurchase, None, None), 1, None)

  lemma TwoCoinsAgree()
    ensures Agree(TWO_COINS) && TWO_COINS.wallets == map[0 := Wallet(0, 2, 1)]
    ensures TWO_COINS.lots == [Lot(0, 2, 2, 0, DAY_MS, None)]
  {
    assert Agree(NO_MOVES);
    CreditAgrees(NO_MOVES, 0, CreditRequest(Cause(SignupBonus, None, None), 0, 2, 1, None), 0);
  }

  /**
   * The clock condition cannot be dropped: a payment whose clock was read before the sweep's takes one
   * of the two Coins, the sweep then subtracts two, and the tables no longer agree.
   */
  lemma EarlierClockBreaksAgreement()
    ensures Agree(TWO_COINS) && |TWO_COINS.lots| == 1 && DueOpen(TWO_COINS.lots[0], DAY_MS)
    ensures IsListing(TWO_COINS.lots, 0, DAY_MS - 1, [0])
    ensures Spend(TWO_COINS, 0, ONE_COIN, [0], DAY_MS - 1).1.Ok?
    ensures !Agree(ExpireLot(Spend(TWO_COINS, 0, ONE_COIN, [0], DAY_MS - 1).0, 0, TWO_COINS.lots[0].remaining, DAY_MS))
  {
    TwoCoinsAgree();
    var b := TWO_COINS;
    var rows: seq<LotId> := [0];
    assert BonusOf(b.lots, rows) == 2 by { assert BonusOf(b.lots, rows[1..]) == 0; }
    var paid := Post(b, 0, ONE_COIN.cause, 0, 0, None, None);
    TakeLotsDrains(paid, 0, ONE_COIN.cause, rows, 1, None, DAY_MS - 1);
    DrainStops(paid.lots, rows, 1, DAY_MS - 1);
    StaleReadExactly(b, 0, ONE_COIN, rows, DAY_MS - 1, 0, DAY_MS);
  }

  // ---------------------------------------------------------------------------------------------
  // No lot expires twice
  // ---------------------------------------------------------------------------------------------

  function ExpiryRows(ledger: seq<Entry>, id: LotId): nat {
    if ledger == [] then 0
    else
      var e := ledger[|ledger| - 1];
      ExpiryRows(ledger[..|ledger| - 1], id) + if e.lot == Some(id) && e.cause.kind.BonusExpiry? then 1 else 0
  }

  lemma {:induction false} ExpiryRowsOfMore(was: seq<Entry>, ledger: seq<Entry>, id: LotId)
    requires was <= ledger
    requires forall i :: |was| <= i < |ledger| ==> !ledger[i].cause.kind.BonusExpiry?
    ensures ExpiryRows(ledger, id) == ExpiryRows(was, id)
  {
    if |ledger| > |was| {
      ExpiryRowsOfMore(was, ledger[..|ledger| - 1], id);
    } else {
      assert ledger == was;
    }
  }

  /** A lot has no expiry row while it is open, and never more than one. */
  predicate ExpiredOnce(b: Book, id: LotId) {
    ExpiryRows(b.ledger, id) <= if id < |b.lots| && b.lots[id].closedAt.Some? then 1 else 0
  }

  /** Every row a payment appends carries the cause of the payment. */
  lemma SpendRows(b: Book, w: WalletId, rq: SpendRequest, rows: seq<LotId>, now: Time)
    requires Known(b.lots, rows)
    ensures var r := Spend(b, w, rq, rows, now).0.ledger;
            b.ledger <= r && forall i :: |b.ledger| <= i < |r| ==> r[i].cause == rq.cause
  {
    if w in b.wallets {
      var main := Min(b.wallets[w].main, rq.amount);
      TakeLotsRows(Post(b, w, rq.cause, -main, 0, None, rq.key), w, rq.cause, rows, rq.amount - main, None, now);
    }
  }

  lemma AdjustRows(b: Book, w: WalletId, rq: AdjustRequest, rows: seq<LotId>, now: Time)
    requires Known(b.lots, rows)
    ensures var r := Adjust(b, w, rq, rows, now).0.ledger;
            b.ledger <= r && forall i :: |b.ledger| <= i < |r| ==> r[i].cause == ADJUSTED
  {
    if w in b.wallets && rq.bonus < 0 {
      TakeLotsRows(b, w, ADJUSTED, rows, -rq.bonus, rq.key, now);
    }
  }

  lemma OtherMovesWriteNoExpiry(b: Book, op: Op, id: LotId)
    requires Legal(b, op) && !op.Expires?
    ensures ExpiryRows(Apply(b, op).ledger, id) == ExpiryRows(b.ledger, id)
  {
    match op
    case Opens(_) =>
    case Credits(w, rq, now) => ExpiryRowsOfMore(b.ledger, Credit(b, w, rq, now).0.ledger, id);
    case Spends(w, rq, rows, now) =>
      SpendRows(b, w, rq, rows, now);
      ExpiryRowsOfMore(b.ledger, Spend(b, w, rq, rows, now).0.ledger, id);
    case Adjusts(w, rq, rows, now) =>
      AdjustRows(b, w, rq, rows, now);
      ExpiryRowsOfMore(b.ledger, Adjust(b, w, rq, rows, now).0.ledger, id);
  }

  lemma StepExpiresOnce(b: Book, op: Op, id: LotId)
    requires Legal(b, op) && ExpiredOnce(b, id)
    ensures ExpiredOnce(Apply(b, op), id)
  {
    var r := Apply(b, op);
    if id < |b.lots| && b.lots[id].closedAt.Some? {
      LotLeftAlone(b, op, id, b.lots[id].expiresAt);
    }
    if op.Expires? {
      if r != b {
        assert r.ledger[..|b.ledger|] == b.ledger;
      }
    } else {
      OtherMovesWriteNoExpiry(b, op, id);
    }
  }

  /** Whatever the interleaving and the clocks, any number of sweeps writes at most one expiry row per lot. */
  lemma {:induction false} EveryRunExpiresOnce(books: seq<Book>, ops: seq<Op>, n: nat, id: LotId)
    requires Run(books, ops) && ExpiredOnce(books[0], id) && n <= |ops|
    ensures ExpiredOnce(books[n], id)
  {
    if n > 0 {
      EveryRunExpiresOnce(books, ops, n - 1, id);
      assert books[n] == Apply(books[n - 1], ops[n - 1]);
      StepExpiresOnce(books[n - 1], ops[n - 1], id);
    }
  }

  /** The op closes the lot: it is an expiry of it and finds it open. */
  predicate Closes(b: Book, op: Op, id: LotId) {
    op.Expires? && op.id == id && id < |b.lots| && Open(b.lots[id])
  }

  /** How many of the first n transactions closed the lot by an expiry. */
  function Closings(books: seq<Book>, ops: seq<Op>, id: LotId, n: nat): nat
    requires n <= |ops| < |books|
  {
    if n == 0 then 0
    else Closings(books, ops, id, n - 1) + if Closes(books[n - 1], ops[n - 1], id) then 1 else 0
  }

  lemma StepWritesExpiry(b: Book, op: Op, id: LotId)
    requires Legal(b, op) && LotsOwned(b)
    ensures ExpiryRows(Apply(b, op).ledger, id) == ExpiryRows(b.ledger, id) + if Closes(b, op, id) then 1 else 0
  {
    if op.Expires? {
      var r := Apply(b, op);
      assert r != b ==> r.ledger[..|b.ledger|] == b.ledger;
    } else {
      OtherMovesWriteNoExpiry(b, op, id);
    }
  }

  predicate LotsOwned(b: Book) {
    forall i: nat :: i < |b.lots| ==> b.lots[i].wallet in b.wallets
  }

  lemma TakeLotsKeepsOwners(b: Book, w: WalletId, cause: Cause, rows: seq<LotId>, amount: int, key: Option<Key>, now: Time)
    requires w in b.wallets && LotsOwned(b) && Known(b.lots, rows)
    ensures LotsOwned(TakeLots(b, w, cause, rows, amount, key, now))
  {
    var r := TakeLots(b, w, cause, rows, amount, key, now);
    TakeLotsDrains(b, w, cause, rows, amount, key, now);
    forall i: nat | i < |r.lots| ensures r.lots[i].wallet in r.wallets {
      DrainFrame(b.lots, rows, amount, now, i);
    }
  }

  lemma OwnersStay(b: Book, op: Op)
    requires Legal(b, op) && LotsOwned(b)
    ensures LotsOwned(Apply(b, op))
  {
    match op
    case Opens(_) =>
    case Credits(_, _, _) =>
    case Expires(_, _, _, _) =>
    case Spends(w, rq, rows, now) =>
      if w in b.wallets {
        var main := Min(b.wallets[w].main, rq.amount);
        TakeLotsKeepsOwners(Post(b, w, rq.cause, -main, 0, None, rq.key), w, rq.cause, rows, rq.amount - main, None, now);
      }
    case Adjusts(w, rq, rows, now) =>
      if w in b.wallets {
        TakeLotsKeepsOwners(b, w, ADJUSTED, rows, -rq.bonus, rq.key, now);
      }
  }

  lemma {:induction false} RunKeepsOwners(books: seq<Book>, ops: seq<Op>, n: nat)
    requires Run(books, ops) && LotsOwned(books[0]) && n <= |ops|
    ensures LotsOwned(books[n])
  {
    if n > 0 {
      RunKeepsOwners(books, ops, n - 1);
      assert books[n] == Apply(books[n - 1], ops[n - 1]);
      OwnersStay(books[n - 1], ops[n - 1]);
    }
  }

  /** Over any interleaving a lot has one expiry row for every sweep that found it open, and no other. */
  lemma {:induction false} ExpiryRowsExactly(books: seq<Book>, ops: seq<Op>, n: nat, id: LotId)
    requires Run(books, ops) && LotsOwned(books[0]) && n <= |ops|
    ensures ExpiryRows(books[n].ledger, id) == ExpiryRows(books[0].ledger, id) + Closings(books, ops, id, n)
  {
    if n > 0 {
      ExpiryRowsExactly(books, ops, n - 1, id);
      RunKeepsOwners(books, ops, n - 1);
      assert books[n] == Apply(books[n - 1], ops[n - 1]);
      StepWritesExpiry(books[n - 1], ops[n - 1], id);
    }
  }
}
