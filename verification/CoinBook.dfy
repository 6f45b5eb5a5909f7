/**
 * The Coin wallets as values: wallets, bonus lots and the append-only ledger, and what each move does
 * to the three tables together. A move is composed of postings: one ledger row with the two counters
 * moved by the amounts on that row. CoinService writes one table after another (lots, then rows,
 * then counters) and is proved to arrive at the same tables.
 */
module CoinBook {
  import opened Prelude

  type WalletId = nat
  type LotId = nat
  type Time = int

  const DAY_MS := 86_400_000

  /**
   * Idempotency keys: one per top-up order, one per cycle of a subscription, and the ones callers send.
   * Keys of different operations are told apart, as the services build them from different texts.
   */
  datatype Key = OrderKey(order: nat) | CycleKey(subscription: nat, cycle: nat) | CallerKey(text: nat)

  datatype EntryKind =
    | TopUp | SignupBonus | DailyReward | Refund | Adjustment | BonusExpiry
    | EpisodePurchase | SeriesPurchase | PlanPayment | PlanRenewal

  datatype Wallet = Wallet(main: int, bonus: int, version: nat)

  datatype Lot = Lot(wallet: WalletId, original: int, remaining: int, grantedAt: Time, expiresAt: Time,
                     closedAt: Option<Time>)

  /** What a row says about its cause: the kind, what it refers to and the row it reverses. */
  datatype Cause = Cause(kind: EntryKind, reference: Option<nat>, reverses: Option<nat>)

  datatype Entry = Entry(wallet: WalletId, cause: Cause, main: int, bonus: int, lot: Option<LotId>,
                         key: Option<Key>, mainAfter: int, bonusAfter: int)

  datatype Book = Book(wallets: map<WalletId, Wallet>, lots: seq<Lot>, ledger: seq<Entry>)

  datatype Movement = Movement(transaction: nat, main: int, bonus: int, mainBalance: int, bonusBalance: int)

  datatype Refusal =
    | NotPositive
    | Insufficient(required: int, main: int, bonus: int, missing: int)
    | NothingToCredit
    | NothingToAdjust
    | SplitTheCorrection
    | NoSuchWallet
    | DuplicateKey

  type Answer = Outcome<Movement, Refusal>

  // ---------------------------------------------------------------------------------------------
  // Sums over the tables
  // ---------------------------------------------------------------------------------------------

  function MainSum(ledger: seq<Entry>, w: WalletId): int {
    if ledger == [] then 0
    else
      var e := ledger[|ledger| - 1];
      MainSum(ledger[..|ledger| - 1], w) + if e.wallet == w then e.main else 0
  }

  function BonusSum(ledger: seq<Entry>, w: WalletId): int {
    if ledger == [] then 0
    else
      var e := ledger[|ledger| - 1];
      BonusSum(ledger[..|ledger| - 1], w) + if e.wallet == w then e.bonus else 0
  }

  /** What the ledger says is left in one lot: its grant less every debit that names it. */
  function LotSum(ledger: seq<Entry>, id: LotId): int {
    if ledger == [] then 0
    else
      var e := ledger[|ledger| - 1];
      LotSum(ledger[..|ledger| - 1], id) + if e.lot == Some(id) then e.bonus else 0
  }

  predicate Counts(lot: Lot, w: WalletId, after: Option<Time>) {
    lot.wallet == w && (after.None? || lot.expiresAt > after.value)
  }

  /** Bonus Coins a wallet holds in lots; with a time, only in the lots that outlive it. */
  function Held(lots: seq<Lot>, w: WalletId, after: Option<Time>): int {
    if lots == [] then 0
    else
      var lot := lots[|lots| - 1];
      Held(lots[..|lots| - 1], w, after) + if Counts(lot, w, after) then lot.remaining else 0
  }

  // ---------------------------------------------------------------------------------------------
  // Lots
  // ---------------------------------------------------------------------------------------------

  predicate Spendable(lot: Lot, w: WalletId, now: Time) {
    lot.wallet == w && lot.remaining > 0 && lot.closedAt.None? && lot.expiresAt > now
  }

  /** Every spendable lot once, in some order. */
  predicate IsSelection(lots: seq<Lot>, w: WalletId, now: Time, rows: seq<LotId>) {
    && (forall k :: 0 <= k < |rows| ==> rows[k] < |lots| && Spendable(lots[rows[k]], w, now))
    && (forall j, k :: 0 <= j < k < |rows| ==> rows[j] != rows[k])
    && (forall i :: 0 <= i < |lots| && Spendable(lots[i], w, now) ==> i in rows)
  }

  predicate NotAfter(a: Lot, b: Lot) {
    a.expiresAt < b.expiresAt || (a.expiresAt == b.expiresAt && a.grantedAt <= b.grantedAt)
  }

  /** An answer of the spendable-lots query: ties in both dates may come in any order. */
  predicate IsListing(lots: seq<Lot>, w: WalletId, now: Time, rows: seq<LotId>) {
    && IsSelection(lots, w, now, rows)
    && forall j, k :: 0 <= j < k < |rows| ==> NotAfter(lots[rows[j]], lots[rows[k]])
  }

  function BonusOf(lots: seq<Lot>, rows: seq<LotId>): int
    requires forall k :: 0 <= k < |rows| ==> rows[k] < |lots|
  {
    if rows == [] then 0 else lots[rows[0]].remaining + BonusOf(lots, rows[1..])
  }

  function Taken(lot: Lot, amount: int, now: Time): Lot {
    var left := lot.remaining - amount;
    lot.(remaining := left, closedAt := if left == 0 then Some(now) else None)
  }

  /** The lot table after `amount` was drawn from the lots in the given order. */
  function Drain(lots: seq<Lot>, rows: seq<LotId>, amount: int, now: Time): (r: seq<Lot>)
    requires forall k :: 0 <= k < |rows| ==> rows[k] < |lots|
    ensures |r| == |lots|
    decreases |rows|
  {
    if rows == [] || amount <= 0 then lots
    else
      var taken := Min(lots[rows[0]].remaining, amount);
      Drain(lots[rows[0] := Taken(lots[rows[0]], taken, now)], rows[1..], amount - taken, now)
  }

  // ---------------------------------------------------------------------------------------------
  // Moves
  // ---------------------------------------------------------------------------------------------

  /** One ledger row and the counters it explains. */
  function Post(b: Book, w: WalletId, cause: Cause, main: int, bonus: int, lot: Option<LotId>, key: Option<Key>): Book
    requires w in b.wallets
  {
    var was := b.wallets[w];
    var wallet := was.(main := was.main + main, bonus := was.bonus + bonus);
    Book(b.wallets[w := wallet], b.lots,
         b.ledger + [Entry(w, cause, main, bonus, lot, key, wallet.main, wallet.bonus)])
  }

  function Bumped(b: Book, w: WalletId): Book
    requires w in b.wallets
  {
    b.(wallets := b.wallets[w := b.wallets[w].(version := b.wallets[w].version + 1)])
  }

  function TakeOne(b: Book, w: WalletId, cause: Cause, id: LotId, amount: int, key: Option<Key>, now: Time): Book
    requires w in b.wallets && id < |b.lots|
  {
    Post(b.(lots := b.lots[id := Taken(b.lots[id], amount, now)]), w, cause, 0, -amount, Some(id), key)
  }

  /** Drains the lots in the given order, one posting per lot; only the first posting carries the key. */
  function TakeLots(b: Book, w: WalletId, cause: Cause, rows: seq<LotId>, amount: int, key: Option<Key>, now: Time): (r: Book)
    requires w in b.wallets
    requires forall k :: 0 <= k < |rows| ==> rows[k] < |b.lots|
    ensures r.wallets.Keys == b.wallets.Keys && |r.lots| == |b.lots|
    decreases |rows|
  {
    if rows == [] || amount <= 0 then b
    else
      var taken := Min(b.lots[rows[0]].remaining, amount);
      TakeLots(TakeOne(b, w, cause, rows[0], taken, key, now), w, cause, rows[1..], amount - taken, None, now)
  }

  predicate KeyUsed(ledger: seq<Entry>, key: Option<Key>) {
    key.Some? && exists i :: 0 <= i < |ledger| && ledger[i].key == key
  }

  /** The row a key points at. */
  function KeyRow(ledger: seq<Entry>, key: Option<Key>): (i: nat)
    requires KeyUsed(ledger, key)
    ensures i < |ledger| && ledger[i].key == key
  {
    if ledger[|ledger| - 1].key == key then |ledger| - 1 else KeyRow(ledger[..|ledger| - 1], key)
  }

  /** The answer to a repeated key, read off one row with both amounts negated. */
  function Replayed(ledger: seq<Entry>, key: Option<Key>): Movement
    requires KeyUsed(ledger, key)
  {
    var i := KeyRow(ledger, key);
    Movement(i, -ledger[i].main, -ledger[i].bonus, ledger[i].mainAfter, ledger[i].bonusAfter)
  }

  datatype SpendRequest = SpendRequest(cause: Cause, amount: int, key: Option<Key>)

  /** Takes `main` main Coins on the first row and the rest of the payment out of the lots. */
  function Charged(b: Book, w: WalletId, rq: SpendRequest, rows: seq<LotId>, main: int, now: Time): (r: Book)
    requires w in b.wallets
    requires forall k :: 0 <= k < |rows| ==> rows[k] < |b.lots|
    ensures r.wallets.Keys == b.wallets.Keys
  {
    var paid := Post(b, w, rq.cause, -main, 0, None, rq.key);
    Bumped(TakeLots(paid, w, rq.cause, rows, rq.amount - main, None, now), w)
  }

  /** `rows` is what the spendable-lots query answered. */
  function Spend(b: Book, w: WalletId, rq: SpendRequest, rows: seq<LotId>, now: Time): (Book, Answer)
    requires forall k :: 0 <= k < |rows| ==> rows[k] < |b.lots|
  {
    if KeyUsed(b.ledger, rq.key) then (b, Ok(Replayed(b.ledger, rq.key)))
    else if rq.amount <= 0 then (b, Err(NotPositive))
    else if w !in b.wallets then (b, Err(NoSuchWallet))
    else
      var main := Min(b.wallets[w].main, rq.amount);
      var bonus := rq.amount - main;
      var available := BonusOf(b.lots, rows);
      if available < bonus then
        (b, Err(Insufficient(rq.amount, b.wallets[w].main, available, rq.amount - b.wallets[w].main - available)))
      else
        var done := Charged(b, w, rq, rows, main, now);
        (done, Ok(Movement(|b.ledger|, main, bonus, done.wallets[w].main, done.wallets[w].bonus)))
  }

  datatype CreditRequest = CreditRequest(cause: Cause, main: int, bonus: int, days: int, key: Option<Key>)

  function Opened(b: Book, w: WalletId, bonus: int, days: int, now: Time): Book {
    if bonus <= 0 then b
    else b.(lots := b.lots + [Lot(w, bonus, bonus, now, now + days * DAY_MS, None)])
  }

  function Credit(b: Book, w: WalletId, rq: CreditRequest, now: Time): (Book, Answer) {
    if KeyUsed(b.ledger, rq.key) then (b, Ok(Replayed(b.ledger, rq.key)))
    else if rq.main == 0 && rq.bonus == 0 then (b, Err(NothingToCredit))
    else if w !in b.wallets then (b, Err(NoSuchWallet))
    else
      var lot := if rq.bonus > 0 then Some(|b.lots|) else None;
      var done := Bumped(Post(Opened(b, w, rq.bonus, rq.days, now), w, rq.cause, rq.main, rq.bonus, lot, rq.key), w);
      (done, Ok(Movement(|b.ledger|, rq.main, rq.bonus, done.wallets[w].main, done.wallets[w].bonus)))
  }

  const ADJUSTED := Cause(Adjustment, None, None)

  datatype AdjustRequest = AdjustRequest(main: int, bonus: int, days: int, key: Option<Key>)

  /** A manual correction. A key already in the ledger breaks the unique index, so nothing is written. */
  function Adjust(b: Book, w: WalletId, rq: AdjustRequest, rows: seq<LotId>, now: Time): (Book, Answer)
    requires forall k :: 0 <= k < |rows| ==> rows[k] < |b.lots|
  {
    if rq.main == 0 && rq.bonus == 0 then (b, Err(NothingToAdjust))
    else if rq.bonus < 0 && rq.main != 0 then (b, Err(SplitTheCorrection))
    else if w !in b.wallets then (b, Err(NoSuchWallet))
    else if rq.bonus < 0 then DebitBonus(b, w, -rq.bonus, rq.key, rows, now)
    else if b.wallets[w].main + rq.main < 0 then
      (b, Err(Insufficient(-rq.main, b.wallets[w].main, 0, -rq.main - b.wallets[w].main)))
    else if KeyUsed(b.ledger, rq.key) then (b, Err(DuplicateKey))
    else
      var lot := if rq.bonus > 0 then Some(|b.lots|) else None;
      var done := Bumped(Post(Opened(b, w, rq.bonus, rq.days, now), w, ADJUSTED, rq.main, rq.bonus, lot, rq.key), w);
      (done, Ok(Movement(|b.ledger|, rq.main, rq.bonus, done.wallets[w].main, done.wallets[w].bonus)))
  }

  function DebitBonus(b: Book, w: WalletId, wanted: int, key: Option<Key>, rows: seq<LotId>, now: Time): (Book, Answer)
    requires w in b.wallets
    requires forall k :: 0 <= k < |rows| ==> rows[k] < |b.lots|
  {
    var available := BonusOf(b.lots, rows);
    if available < wanted then (b, Err(Insufficient(wanted, b.wallets[w].main, available, wanted - available)))
    else if KeyUsed(b.ledger, key) then (b, Err(DuplicateKey))
    else
      var done := Bumped(TakeLots(b, w, ADJUSTED, rows, wanted, key, now), w);
      (done, Ok(Movement(|b.ledger|, 0, wanted, done.wallets[w].main, done.wallets[w].bonus)))
  }

  predicate Open(lot: Lot) {
    lot.closedAt.None? && lot.remaining > 0
  }

  const EXPIRED := Cause(BonusExpiry, None, None)

  /** Closes a lot and takes `amount` out of its wallet; a lot that is no longer open is left alone. */
  function ExpireLot(b: Book, id: LotId, amount: int, now: Time): Book {
    if id >= |b.lots| || !Open(b.lots[id]) || b.lots[id].wallet !in b.wallets then b
    else
      var closed := b.(lots := b.lots[id := b.lots[id].(remaining := 0, closedAt := Some(now))]);
      Bumped(Post(closed, b.lots[id].wallet, EXPIRED, 0, -amount, Some(id), None), b.lots[id].wallet)
  }

  function OpenWallet(b: Book, w: WalletId): Book {
    if w in b.wallets then b else b.(wallets := b.wallets[w := Wallet(0, 0, 0)])
  }

  // ---------------------------------------------------------------------------------------------
  // Agreement of the three tables
  // ---------------------------------------------------------------------------------------------

  predicate WalletAgrees(b: Book, w: WalletId)
    requires w in b.wallets
  {
    && b.wallets[w].main >= 0
    && b.wallets[w].main == MainSum(b.ledger, w)
    && b.wallets[w].bonus == BonusSum(b.ledger, w)
    && b.wallets[w].bonus == Held(b.lots, w, None)
  }

  predicate LotSound(lot: Lot) {
    0 <= lot.remaining <= lot.original && (lot.closedAt.Some? <==> lot.remaining == 0)
  }

  predicate LotAgrees(b: Book, id: LotId)
    requires id < |b.lots|
  {
    LotSound(b.lots[id]) && b.lots[id].wallet in b.wallets && b.lots[id].remaining == LotSum(b.ledger, id)
  }

  predicate RowAgrees(ledger: seq<Entry>, i: nat)
    requires i < |ledger|
  {
    && ledger[i].mainAfter == MainSum(ledger[..i + 1], ledger[i].wallet)
    && ledger[i].bonusAfter == BonusSum(ledger[..i + 1], ledger[i].wallet)
  }

  predicate RowPlaced(b: Book, i: nat)
    requires i < |b.ledger|
  {
    b.ledger[i].wallet in b.wallets && (b.ledger[i].lot.Some? ==> b.ledger[i].lot.value < |b.lots|)
  }

  predicate SameKey(ledger: seq<Entry>, i: nat, j: nat)
    requires i < |ledger| && j < |ledger|
  {
    ledger[i].key.Some? && ledger[i].key == ledger[j].key
  }

  predicate UniqueKeys(ledger: seq<Entry>) {
    forall i: nat, j: nat :: i < j < |ledger| ==> !SameKey(ledger, i, j)
  }

  /**
   * Wallet, lots and ledger agree: the counters are the sums of the ledger and, for bonus Coins, of
   * the lots; every lot holds what its rows leave; a lot is closed exactly when empty; every row's
   * balances are the prefix sums; a key occurs once.
   */
  predicate Agree(b: Book) {
    && (forall w :: w in b.wallets ==> WalletAgrees(b, w))
    && (forall id :: 0 <= id < |b.lots| ==> LotAgrees(b, id))
    && (forall i :: 0 <= i < |b.ledger| ==> RowAgrees(b.ledger, i))
    && (forall i :: 0 <= i < |b.ledger| ==> RowPlaced(b, i))
    && UniqueKeys(b.ledger)
  }
}
