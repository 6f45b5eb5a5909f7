/**
 * The services that write a wallet, one table after another: lots are drained one
 * by one, ledger rows are collected in a loop over the debits, the two counters are written last.
 * Every method is proved to arrive at the tables CoinBook describes and to keep them in agreement.
 */
module CoinService {
  import opened Prelude
  import opened CoinBook
  import opened CoinBookProofs
  import opened CoinMoves

  // ---------------------------------------------------------------------------------------------
  // The lot queries
  // ---------------------------------------------------------------------------------------------

  predicate Known(lots: seq<Lot>, rows: seq<LotId>) {
    forall k :: 0 <= k < |rows| ==> rows[k] < |lots|
  }

  predicate Ordered(lots: seq<Lot>, rows: seq<LotId>)
    requires Known(lots, rows)
  {
    forall j, k :: 0 <= j < k < |rows| ==> NotAfter(lots[rows[j]], lots[rows[k]])
  }

  function Insert(lots: seq<Lot>, rows: seq<LotId>, id: LotId): (r: seq<LotId>)
    requires id < |lots| && Known(lots, rows)
    ensures forall i :: i in r <==> i in rows || i == id
    ensures Distinct(rows) && id !in rows ==> Distinct(r)
    ensures Known(lots, r)
  {
    if rows == [] || !NotAfter(lots[rows[0]], lots[id]) then [id] + rows
    else
      var rest := Insert(lots, rows[1..], id);
      assert Distinct(rows) ==> Distinct(rows[1..]) && rows[0] !in rows[1..];
      [rows[0]] + rest
  }

  lemma {:induction false} InsertOrdered(lots: seq<Lot>, rows: seq<LotId>, id: LotId)
    requires id < |lots| && Known(lots, rows) && Ordered(lots, rows)
    ensures Ordered(lots, Insert(lots, rows, id))
  {
    if rows != [] && NotAfter(lots[rows[0]], lots[id]) {
      var rest := Insert(lots, rows[1..], id);
      InsertOrdered(lots, rows[1..], id);
      forall k | 0 <= k < |rest| ensures NotAfter(lots[rows[0]], lots[rest[k]]) {
        assert rest[k] in rest;
      }
    } else if rows != [] {
      assert forall k :: 0 < k < |rows| ==> NotAfter(lots[rows[0]], lots[rows[k]]);
    }
  }

  /** A lot put in its place among lots listed before. */
  function Placed(lots: seq<Lot>, rows: seq<LotId>, id: LotId): (r: seq<LotId>)
    requires id < |lots| && Known(lots, rows) && Ordered(lots, rows) && Distinct(rows) && id !in rows
    ensures forall i :: i in r <==> i in rows || i == id
    ensures Distinct(r) && Known(lots, r) && Ordered(lots, r)
  {
    InsertOrdered(lots, rows, id);
    Insert(lots, rows, id)
  }

  /** The wanted lots among the first n, the one expiring first first. */
  function ListFirst(lots: seq<Lot>, wanted: Lot -> bool, n: nat): (rows: seq<LotId>)
    requires n <= |lots|
    ensures forall i: nat :: i in rows <==> i < n && wanted(lots[i])
    ensures Distinct(rows) && Known(lots, rows) && Ordered(lots, rows)
  {
    if n == 0 then []
    else
      var before := ListFirst(lots, wanted, n - 1);
      if wanted(lots[n - 1]) then Placed(lots, before, n - 1) else before
  }

  function SpendableLots(lots: seq<Lot>, w: WalletId, now: Time): (rows: seq<LotId>)
    ensures IsListing(lots, w, now, rows)
  {
    ListFirst(lots, (lot: Lot) => Spendable(lot, w, now), |lots|)
  }

  // ---------------------------------------------------------------------------------------------
  // Debits and the rows they are written as
  // ---------------------------------------------------------------------------------------------

  datatype Debit = Debit(id: LotId, amount: int)

  function Debits(lots: seq<Lot>, rows: seq<LotId>, amount: int): seq<Debit>
    requires forall k :: 0 <= k < |rows| ==> rows[k] < |lots|
  {
    if rows == [] || amount <= 0 then []
    else
      var taken := Min(lots[rows[0]].remaining, amount);
      [Debit(rows[0], taken)] + Debits(lots, rows[1..], amount - taken)
  }

  function Total(debits: seq<Debit>): int {
    if debits == [] then 0 else debits[0].amount + Total(debits[1..])
  }

  /** One row per debit, with running balances; the key stands on the first. */
  function LotRows(w: WalletId, cause: Cause, debits: seq<Debit>, key: Option<Key>, main: int, bonus: int): seq<Entry> {
    if debits == [] then []
    else
      var left := bonus - debits[0].amount;
      [Entry(w, cause, 0, -debits[0].amount, Some(debits[0].id), key, main, left)]
      + LotRows(w, cause, debits[1..], None, main, left)
  }

  lemma {:induction false} DebitsFrame(was: seq<Lot>, lots: seq<Lot>, rows: seq<LotId>, amount: int)
    requires |was| == |lots|
    requires forall k :: 0 <= k < |rows| ==> rows[k] < |lots| && was[rows[k]].remaining == lots[rows[k]].remaining
    ensures Debits(was, rows, amount) == Debits(lots, rows, amount)
    decreases |rows|
  {
    if rows != [] {
      DebitsFrame(was, lots, rows[1..], amount - Min(was[rows[0]].remaining, amount));
    }
  }

  /** The first posting of a draw: its debit, its row and its share of the counter. */
  lemma FirstWritten(b: Book, w: WalletId, cause: Cause, rows: seq<LotId>, amount: int, key: Option<Key>, now: Time,
                     taken: int, next: Book)
    requires w in b.wallets && Known(b.lots, rows) && Distinct(rows) && rows != [] && amount > 0
    requires taken == Min(b.lots[rows[0]].remaining, amount) && next == TakeOne(b, w, cause, rows[0], taken, key, now)
    ensures var rest := Debits(next.lots, rows[1..], amount - taken);
            var debits := Debits(b.lots, rows, amount);
            var row := Entry(w, cause, 0, -taken, Some(rows[0]), key, b.wallets[w].main, b.wallets[w].bonus - taken);
            && Total(debits) == taken + Total(rest)
            && next.ledger == b.ledger + [row]
            && LotRows(w, cause, debits, key, b.wallets[w].main, b.wallets[w].bonus)
               == [row] + LotRows(w, cause, rest, None, next.wallets[w].main, next.wallets[w].bonus)
  {
    DebitsFrame(b.lots, next.lots, rows[1..], amount - taken);
    var debits := Debits(b.lots, rows, amount);
    assert debits[0] == Debit(rows[0], taken) && debits[1..] == Debits(b.lots, rows[1..], amount - taken);
  }

  /** Lots, rows and counter written separately are the postings one after another. */
  lemma {:induction false} TakeLotsWritten(b: Book, w: WalletId, cause: Cause, rows: seq<LotId>, amount: int,
                                           key: Option<Key>, now: Time, r: Book)
    requires w in b.wallets && Known(b.lots, rows) && Distinct(rows)
    requires r == TakeLots(b, w, cause, rows, amount, key, now)
    ensures var debits := Debits(b.lots, rows, amount);
            && r.lots == Drain(b.lots, rows, amount, now)
            && r.ledger == b.ledger + LotRows(w, cause, debits, key, b.wallets[w].main, b.wallets[w].bonus)
            && r.wallets == b.wallets[w := b.wallets[w].(bonus := b.wallets[w].bonus - Total(debits))]
    decreases |rows|
  {
    if rows != [] && amount > 0 {
      var taken := Min(b.lots[rows[0]].remaining, amount);
      var next := TakeOne(b, w, cause, rows[0], taken, key, now);
      FirstWritten(b, w, cause, rows, amount, key, now, taken, next);
      TakeLotsWritten(next, w, cause, rows[1..], amount - taken, None, now, r);
    }
  }

  /** One posting and the version written as one row and one wallet update. */
  lemma PostWritten(b: Book, w: WalletId, cause: Cause, main: int, bonus: int, lot: Option<LotId>, key: Option<Key>)
    requires w in b.wallets
    ensures var after := Wallet(b.wallets[w].main + main, b.wallets[w].bonus + bonus, b.wallets[w].version + 1);
            Bumped(Post(b, w, cause, main, bonus, lot, key), w)
            == Book(b.wallets[w := after], b.lots, b.ledger + [Entry(w, cause, main, bonus, lot, key, after.main, after.bonus)])
  {
  }

  /** A whole draw and the version written as lots, rows and one wallet update. */
  lemma DrawWritten(b: Book, w: WalletId, cause: Cause, rows: seq<LotId>, amount: int, key: Option<Key>, now: Time)
    requires w in b.wallets && forall k :: 0 <= k < |rows| ==> rows[k] < |b.lots|
    requires Distinct(rows)
    ensures var debits := Debits(b.lots, rows, amount);
            var was := b.wallets[w];
            Bumped(TakeLots(b, w, cause, rows, amount, key, now), w)
            == Book(b.wallets[w := Wallet(was.main, was.bonus - Total(debits), was.version + 1)],
                    Drain(b.lots, rows, amount, now),
                    b.ledger + LotRows(w, cause, debits, key, was.main, was.bonus))
  {
    TakeLotsWritten(b, w, cause, rows, amount, key, now, TakeLots(b, w, cause, rows, amount, key, now));
  }

  /** The rows of a payment, written as the keyed row and the lot rows. */
  lemma ChargedRowsWritten(b: Book, w: WalletId, rq: SpendRequest, rows: seq<LotId>, main: int, now: Time)
    requires w in b.wallets && Known(b.lots, rows) && Distinct(rows)
    ensures var debits := Debits(b.lots, rows, rq.amount - main);
            var was := b.wallets[w];
            Charged(b, w, rq, rows, main, now).ledger
            == b.ledger + ([Entry(w, rq.cause, -main, 0, None, rq.key, was.main - main, was.bonus)]
                           + LotRows(w, rq.cause, debits, None, was.main - main, was.bonus))
  {
    var paid := Post(b, w, rq.cause, -main, 0, None, rq.key);
    var row := Entry(w, rq.cause, -main, 0, None, rq.key, b.wallets[w].main - main, b.wallets[w].bonus);
    DrawWritten(paid, w, rq.cause, rows, rq.amount - main, None, now);
    var more := LotRows(w, rq.cause, Debits(b.lots, rows, rq.amount - main), None, row.mainAfter, row.bonusAfter);
    assert paid.ledger == b.ledger + [row];
    assert (b.ledger + [row]) + more == b.ledger + ([row] + more);
  }

  /** Its lots and counters. */
  lemma ChargedCountersWritten(b: Book, w: WalletId, rq: SpendRequest, rows: seq<LotId>, main: int, now: Time)
    requires w in b.wallets && Known(b.lots, rows) && Distinct(rows)
    ensures var r := Charged(b, w, rq, rows, main, now);
            var was := b.wallets[w];
            && r.lots == Drain(b.lots, rows, rq.amount - main, now)
            && r.wallets == b.wallets[w := Wallet(was.main - main, was.bonus - Total(Debits(b.lots, rows, rq.amount - main)), was.version + 1)]
  {
    DrawWritten(Post(b, w, rq.cause, -main, 0, None, rq.key), w, rq.cause, rows, rq.amount - main, None, now);
  }

  // ---------------------------------------------------------------------------------------------
  // The tables and the services
  // ---------------------------------------------------------------------------------------------

  class CoinTables {
    var wallets: map<WalletId, Wallet>
    var lots: seq<Lot>
    var ledger: seq<Entry>

    ghost function Tables(): Book
      reads this
    {
      Book(wallets, lots, ledger)
    }

    constructor ()
      ensures Tables() == Book(map[], [], []) && Agree(Tables())
    {
      wallets, lots, ledger := map[], [], [];
    }

    /** The row a key was written on, if any. */
    method FindKey(key: Option<Key>) returns (found: Option<nat>)
      ensures found.Some? <==> KeyUsed(ledger, key)
      ensures found.Some? ==> found.value == KeyRow(ledger, key)
    {
      if key.None? { return None; }
      var i := |ledger|;
      while i > 0
        invariant 0 <= i <= |ledger|
        invariant forall j :: i <= j < |ledger| ==> ledger[j].key != key
      {
        i := i - 1;
        if ledger[i].key == key {
          KeyRowIsLast(ledger, key, i);
          return Some(i);
        }
      }
      return None;
    }

    /** Writes Drain into `lots` row by row, up to the first row with nothing left to draw, and lists the debits. */
    method ConsumeLots(rows: seq<LotId>, amount: int, now: Time) returns (debits: seq<Debit>)
      requires forall k :: 0 <= k < |rows| ==> rows[k] < |lots|
      requires forall j, k :: 0 <= j < k < |rows| ==> rows[j] != rows[k]
      modifies this`lots
      ensures lots == Drain(old(lots), rows, amount, now)
      ensures debits == Debits(old(lots), rows, amount)
    {
      debits := [];
      var left := amount;
      for k := 0 to |rows|
        invariant |lots| == |old(lots)|
        invariant forall j :: k <= j < |rows| ==> lots[rows[j]] == old(lots)[rows[j]]
        invariant Drain(lots, rows[k..], left, now) == Drain(old(lots), rows, amount, now)
        invariant debits + Debits(old(lots), rows[k..], left) == Debits(old(lots), rows, amount)
      {
        if left <= 0 { break; }
        assert rows[k..][1..] == rows[k + 1..];
        var lot := lots[rows[k]];
        var taken := Min(lot.remaining, left);
        var remaining := lot.remaining - taken;
        lots := lots[rows[k] := lot.(remaining := remaining, closedAt := if remaining == 0 then Some(now) else None)];
        debits := debits + [Debit(rows[k], taken)];
        left := left - taken;
      }
    }

    method BumpWallet(w: WalletId, main: int, bonus: int)
      requires w in wallets
      modifies this`wallets
      ensures wallets == old(wallets)[w := Wallet(main, bonus, old(wallets)[w].version + 1)]
    {
      wallets := wallets[w := Wallet(main, bonus, wallets[w].version + 1)];
    }

    /** CoinBook.Spend on the fields, with SpendableLots as the listing. */
    method Spend(w: WalletId, rq: SpendRequest, now: Time) returns (answer: Answer)
      requires Agree(Tables())
      modifies this
      ensures (Tables(), answer) == CoinBook.Spend(old(Tables()), w, rq, SpendableLots(old(lots), w, now), now)
      ensures Agree(Tables())
    {
      SpendAgrees(Tables(), w, rq, SpendableLots(lots, w, now), now);
      var replayed := FindKey(rq.key);
      if replayed.Some? {
        var entry := ledger[replayed.value];
        return Ok(Movement(replayed.value, -entry.main, -entry.bonus, entry.mainAfter, entry.bonusAfter));
      }
      if rq.amount <= 0 { return Err(NotPositive); }
      if w !in wallets { return Err(NoSuchWallet); }
      var wallet := wallets[w];
      var mainCoins := Min(wallet.main, rq.amount);
      var bonusCoins := rq.amount - mainCoins;
      var listed := SpendableLots(lots, w, now);
      var available := BonusOf(lots, listed);
      if available < bonusCoins {
        return Err(Insufficient(rq.amount, wallet.main, available, rq.amount - wallet.main - available));
      }
      var movement := Charge(w, rq, listed, mainCoins, now);
      return Ok(movement);
    }

    /** Writes a payment the wallet can cover: lots, then rows, then the counters. */
    method Charge(w: WalletId, rq: SpendRequest, listed: seq<LotId>, mainCoins: int, now: Time) returns (movement: Movement)
      requires w in wallets && Known(lots, listed) && Distinct(listed)
      modifies this
      ensures Tables() == Charged(old(Tables()), w, rq, listed, mainCoins, now)
      ensures movement == Movement(|old(ledger)|, mainCoins, rq.amount - mainCoins, wallets[w].main, wallets[w].bonus)
    {
      var wallet := wallets[w];
      ChargedRowsWritten(Tables(), w, rq, listed, mainCoins, now);
      ChargedCountersWritten(Tables(), w, rq, listed, mainCoins, now);
      var debits := ConsumeLots(listed, rq.amount - mainCoins, now);
      var mainAfter := wallet.main - mainCoins;
      // The keyed row carries `mainCoins` only; the lot rows follow it.
      var rows, bonusAfter := DebitRows(w, rq.cause, debits, None, mainAfter, wallet.bonus);
      var first := |ledger|;
      ledger := ledger + ([Entry(w, rq.cause, -mainCoins, 0, None, rq.key, mainAfter, wallet.bonus)] + rows);
      BumpWallet(w, mainAfter, bonusAfter);
      return Movement(first, mainCoins, rq.amount - mainCoins, mainAfter, bonusAfter);
    }

    /** One row per debit with the running bonus balance; only the first carries the key. */
    static method DebitRows(w: WalletId, cause: Cause, debits: seq<Debit>, key: Option<Key>, main: int, bonus: int)
      returns (rows: seq<Entry>, bonusAfter: int)
      ensures rows == LotRows(w, cause, debits, key, main, bonus)
      ensures bonusAfter == bonus - Total(debits)
    {
      rows, bonusAfter := [], bonus;
      for k := 0 to |debits|
        invariant |rows| == k
        invariant rows + LotRows(w, cause, debits[k..], if k == 0 then key else None, main, bonusAfter)
                  == LotRows(w, cause, debits, key, main, bonus)
        invariant bonusAfter == bonus - Total(debits) + Total(debits[k..])
      {
        assert debits[k..][1..] == debits[k + 1..];
        bonusAfter := bonusAfter - debits[k].amount;
        rows := rows + [Entry(w, cause, 0, -debits[k].amount, Some(debits[k].id), if k == 0 then key else None, main, bonusAfter)];
      }
    }

    /** Appends one lot for a positive `bonus` and returns its place. */
    method OpenLot(w: WalletId, bonus: int, days: int, now: Time) returns (id: Option<LotId>)
      modifies this`lots
      ensures lots == Opened(old(Tables()), w, bonus, days, now).lots
      ensures id == if bonus > 0 then Some(|old(lots)|) else None
    {
      if bonus <= 0 { return None; }
      lots := lots + [Lot(w, bonus, bonus, now, now + days * DAY_MS, None)];
      return Some(|lots| - 1);
    }

    /** CoinBook.Credit on the fields; without a negative amount it keeps Agree. */
    method Credit(w: WalletId, rq: CreditRequest, now: Time) returns (answer: Answer)
      requires Agree(Tables())
      modifies this
      ensures (Tables(), answer) == CoinBook.Credit(old(Tables()), w, rq, now)
      ensures rq.main >= 0 && rq.bonus >= 0 ==> Agree(Tables())
    {
      if rq.main >= 0 && rq.bonus >= 0 {
        CreditAgrees(Tables(), w, rq, now);
      }
      var replayed := FindKey(rq.key);
      if replayed.Some? {
        var entry := ledger[replayed.value];
        return Ok(Movement(replayed.value, -entry.main, -entry.bonus, entry.mainAfter, entry.bonusAfter));
      }
      if rq.main == 0 && rq.bonus == 0 { return Err(NothingToCredit); }
      if w !in wallets { return Err(NoSuchWallet); }
      var wallet := wallets[w];
      PostWritten(Opened(Tables(), w, rq.bonus, rq.days, now), w, rq.cause, rq.main, rq.bonus,
                  if rq.bonus > 0 then Some(|lots|) else None, rq.key);
      var lot := OpenLot(w, rq.bonus, rq.days, now);
      var main, bonus := wallet.main + rq.main, wallet.bonus + rq.bonus;
      var entry := |ledger|;
      ledger := ledger + [Entry(w, rq.cause, rq.main, rq.bonus, lot, rq.key, main, bonus)];
      BumpWallet(w, main, bonus);
      return Ok(Movement(entry, rq.main, rq.bonus, main, bonus));
    }

    /** A manual correction by the Admin. */
    method Adjust(w: WalletId, rq: AdjustRequest, now: Time) returns (answer: Answer)
      requires Agree(Tables())
      modifies this
      ensures (Tables(), answer) == CoinBook.Adjust(old(Tables()), w, rq, SpendableLots(old(lots), w, now), now)
      ensures Agree(Tables())
    {
      AdjustAgrees(Tables(), w, rq, SpendableLots(lots, w, now), now);
      if rq.main == 0 && rq.bonus == 0 { return Err(NothingToAdjust); }
      if rq.bonus < 0 && rq.main != 0 { return Err(SplitTheCorrection); }
      if w !in wallets { return Err(NoSuchWallet); }
      if rq.bonus < 0 {
        answer := DebitBonus(w, rq, now);
      } else {
        answer := DebitMain(w, rq, now);
      }
    }

    /** Too negative is refused; the unique key is the database's last word, and then nothing was written. */
    method DebitMain(w: WalletId, rq: AdjustRequest, now: Time) returns (answer: Answer)
      requires w in wallets && rq.bonus >= 0 && (rq.main != 0 || rq.bonus != 0)
      modifies this
      ensures (Tables(), answer) == CoinBook.Adjust(old(Tables()), w, rq, [], now)
    {
      var wallet := wallets[w];
      if wallet.main + rq.main < 0 {
        return Err(Insufficient(-rq.main, wallet.main, 0, -rq.main - wallet.main));
      }
      var used := FindKey(rq.key);
      if used.Some? { return Err(DuplicateKey); }
      var main, bonus := wallet.main + rq.main, wallet.bonus + rq.bonus;
      PostWritten(Opened(Tables(), w, rq.bonus, rq.days, now), w, ADJUSTED, rq.main, rq.bonus,
                  if rq.bonus > 0 then Some(|lots|) else None, rq.key);
      var lot := OpenLot(w, rq.bonus, rq.days, now);
      var entry := |ledger|;
      ledger := ledger + [Entry(w, ADJUSTED, rq.main, rq.bonus, lot, rq.key, main, bonus)];
      BumpWallet(w, main, bonus);
      return Ok(Movement(entry, rq.main, rq.bonus, main, bonus));
    }

    /** CoinBook.DebitBonus on the fields, with SpendableLots as the listing. */
    method DebitBonus(w: WalletId, rq: AdjustRequest, now: Time) returns (answer: Answer)
      requires w in wallets && rq.bonus < 0
      modifies this
      ensures (Tables(), answer)
              == CoinBook.DebitBonus(old(Tables()), w, -rq.bonus, rq.key, SpendableLots(old(lots), w, now), now)
    {
      var wallet := wallets[w];
      var wanted := -rq.bonus;
      var listed := SpendableLots(lots, w, now);
      var available := BonusOf(lots, listed);
      if available < wanted {
        return Err(Insufficient(wanted, wallet.main, available, wanted - available));
      }
      var used := FindKey(rq.key);
      if used.Some? { return Err(DuplicateKey); }
      DrawWritten(Tables(), w, ADJUSTED, listed, wanted, rq.key, now);
      var debits := ConsumeLots(listed, wanted, now);
      var rows, bonusAfter := DebitRows(w, ADJUSTED, debits, rq.key, wallet.main, wallet.bonus);
      var first := |ledger|;
      ledger := ledger + rows;
      BumpWallet(w, wallet.main, bonusAfter);
      return Ok(Movement(first, 0, wanted, wallet.main, bonusAfter));
    }

    /** The single BONUS_EXPIRY row and the counter of an expired lot; the caller closes the lot. */
    method ExpireBonus(w: WalletId, id: LotId, amount: int)
      requires w in wallets
      modifies this
      ensures Tables() == Bumped(Post(old(Tables()), w, EXPIRED, 0, -amount, Some(id), None), w)
    {
      var wallet := wallets[w];
      var bonus := wallet.bonus - amount;
      ledger := ledger + [Entry(w, EXPIRED, 0, -amount, Some(id), None, wallet.main, bonus)];
      BumpWallet(w, wallet.main, bonus);
    }
  }

  lemma {:induction false} KeyRowIsLast(ledger: seq<Entry>, key: Option<Key>, i: nat)
    requires i < |ledger| && ledger[i].key == key && key.Some?
    requires forall j :: i < j < |ledger| ==> ledger[j].key != key
    ensures KeyUsed(ledger, key) && KeyRow(ledger, key) == i
  {
    if i < |ledger| - 1 {
      KeyRowIsLast(ledger[..|ledger| - 1], key, i);
    }
  }
}
