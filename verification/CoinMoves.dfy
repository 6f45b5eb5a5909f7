/** What the moves of a wallet promise: agreement of the tables, exact outcomes, keys that move once. */
module CoinMoves {
  import opened Prelude
  import opened CoinBook
  import opened CoinBookProofs

  lemma AgreeIsSound(b: Book)
    requires Agree(b)
    ensures AllSound(b.lots)
  {
    forall i | 0 <= i < |b.lots| ensures LotSound(b.lots[i]) {
      assert LotAgrees(b, i);
    }
  }

  lemma {:induction false} HeldNonNegative(lots: seq<Lot>, w: WalletId, after: Option<Time>)
    requires AllSound(lots)
    ensures Held(lots, w, after) >= 0
  {
    if lots != [] {
      assert LotSound(lots[|lots| - 1]);
      HeldNonNegative(lots[..|lots| - 1], w, after);
    }
  }

  /** Both balances of every wallet are never negative. */
  lemma BalancesNonNegative(b: Book, w: WalletId)
    requires Agree(b) && w in b.wallets
    ensures b.wallets[w].main >= 0 && b.wallets[w].bonus >= 0
  {
    assert WalletAgrees(b, w);
    AgreeIsSound(b);
    HeldNonNegative(b.lots, w, None);
  }

  /** What a wallet can pay at one moment: its main Coins and the bonus Coins that have not run out. */
  function Purse(b: Book, w: WalletId, now: Time): int {
    if w in b.wallets then b.wallets[w].main + Held(b.lots, w, Some(now)) else 0
  }

  // ---------------------------------------------------------------------------------------------
  // Spending
  // ---------------------------------------------------------------------------------------------

  lemma ChargedAgrees(b: Book, w: WalletId, rq: SpendRequest, rows: seq<LotId>, main: int, now: Time)
    requires Agree(b) && w in b.wallets && main <= b.wallets[w].main
    requires IsSelection(b.lots, w, now, rows) && !KeyUsed(b.ledger, rq.key)
    ensures Agree(Charged(b, w, rq, rows, main, now))
  {
    var paid := Post(b, w, rq.cause, -main, 0, None, rq.key);
    PostAgrees(b, b.lots, w, rq.cause, -main, 0, None, rq.key);
    DrawAgrees(paid, w, rq.cause, rows, rq.amount - main, None, now);
  }

  lemma SpendAgrees(b: Book, w: WalletId, rq: SpendRequest, rows: seq<LotId>, now: Time)
    requires Agree(b) && IsSelection(b.lots, w, now, rows)
    ensures Agree(Spend(b, w, rq, rows, now).0)
  {
    if w in b.wallets && !KeyUsed(b.ledger, rq.key) {
      ChargedAgrees(b, w, rq, rows, Min(b.wallets[w].main, rq.amount), now);
    }
  }

  /**
   * A payment under a fresh key goes through exactly when it is positive and the wallet can pay it;
   * a refused one changes nothing and reports exactly the shortfall.
   */
  lemma SpendVerdict(b: Book, w: WalletId, rq: SpendRequest, rows: seq<LotId>, now: Time)
    requires Agree(b) && IsSelection(b.lots, w, now, rows) && !KeyUsed(b.ledger, rq.key)
    ensures var (after, answer) := Spend(b, w, rq, rows, now);
            && (answer.Ok? <==> rq.amount > 0 && w in b.wallets && rq.amount <= Purse(b, w, now))
            && (answer.Err? ==>
                  && after == b
                  && answer.error == (if rq.amount <= 0 then NotPositive
                                      else if w !in b.wallets then NoSuchWallet
                                      else Insufficient(rq.amount, b.wallets[w].main, Held(b.lots, w, Some(now)), rq.amount - Purse(b, w, now))))
  {
    AgreeIsSound(b);
    SelectionSum(b.lots, w, now, rows);
    HeldNonNegative(b.lots, w, Some(now));
  }

  /** A payment the lots can cover, in full: the two counters and the lots. */
  lemma ChargedEffect(b: Book, w: WalletId, rq: SpendRequest, rows: seq<LotId>, main: int, now: Time)
    requires w in b.wallets && IsSelection(b.lots, w, now, rows) && 0 <= rq.amount - main <= BonusOf(b.lots, rows)
    ensures var after := Charged(b, w, rq, rows, main, now);
            && after.wallets
               == b.wallets[w := Wallet(b.wallets[w].main - main, b.wallets[w].bonus - (rq.amount - main), b.wallets[w].version + 1)]
            && after.lots == Drain(b.lots, rows, rq.amount - main, now)
  {
    var paid := Post(b, w, rq.cause, -main, 0, None, rq.key);
    TakeLotsCharges(paid, w, rq.cause, rows, rq.amount - main, None, now);
    TakeLotsDrains(paid, w, rq.cause, rows, rq.amount - main, None, now);
  }

  /** Its rows: the main part under the key, then one debit per lot. */
  lemma ChargedRows(b: Book, w: WalletId, rq: SpendRequest, rows: seq<LotId>, main: int, now: Time)
    requires w in b.wallets && forall k :: 0 <= k < |rows| ==> rows[k] < |b.lots|
    ensures var r := Charged(b, w, rq, rows, main, now).ledger;
            && b.ledger < r
            && r[|b.ledger|] == Entry(w, rq.cause, -main, 0, None, rq.key, b.wallets[w].main - main, b.wallets[w].bonus)
            && forall i :: |b.ledger| < i < |r| ==> IsLotDebit(r[i], w, rq.cause, None)
  {
    var paid := Post(b, w, rq.cause, -main, 0, None, rq.key);
    TakeLotsRows(paid, w, rq.cause, rows, rq.amount - main, None, now);
    assert paid.ledger[|b.ledger|].key == rq.key;
  }

  /** Main Coins leave before bonus Coins, bonus Coins leave the listed lots in order, no other wallet moves. */
  lemma SpendEffect(b: Book, w: WalletId, rq: SpendRequest, rows: seq<LotId>, now: Time)
    requires Agree(b) && IsSelection(b.lots, w, now, rows) && !KeyUsed(b.ledger, rq.key)
    requires Spend(b, w, rq, rows, now).1.Ok?
    ensures var (after, answer) := Spend(b, w, rq, rows, now);
            var m := answer.value;
            && m.main + m.bonus == rq.amount && m.main >= 0 && m.bonus >= 0
            && (m.bonus > 0 ==> after.wallets[w].main == 0)
            && after.wallets == b.wallets[w := Wallet(b.wallets[w].main - m.main, b.wallets[w].bonus - m.bonus, b.wallets[w].version + 1)]
            && m.mainBalance == after.wallets[w].main && m.bonusBalance == after.wallets[w].bonus
            && after.lots == Drain(b.lots, rows, m.bonus, now)
            && m.transaction == |b.ledger| && b.ledger < after.ledger
            && after.ledger[m.transaction].key == rq.key
            && after.ledger[m.transaction].wallet == w && after.ledger[m.transaction].cause == rq.cause
            && after.ledger[m.transaction].main == -m.main && after.ledger[m.transaction].bonus == 0
            && forall i :: |b.ledger| < i < |after.ledger| ==> IsLotDebit(after.ledger[i], w, rq.cause, None)
  {
    assert WalletAgrees(b, w);
    ChargedEffect(b, w, rq, rows, Min(b.wallets[w].main, rq.amount), now);
    ChargedRows(b, w, rq, rows, Min(b.wallets[w].main, rq.amount), now);
  }

  // ---------------------------------------------------------------------------------------------
  // Crediting
  // ---------------------------------------------------------------------------------------------

  lemma OpenedIsLotChange(b: Book, w: WalletId, bonus: int, days: int, now: Time)
    requires bonus >= 0
    ensures LotChange(b.lots, Opened(b, w, bonus, days, now).lots, w, bonus, if bonus > 0 then Some(|b.lots|) else None)
  {
  }

  /**
   * A credit keeps the tables in agreement exactly when it does not take Coins out: a negative bonus
   * amount would leave the lots behind, a negative main amount could overdraw the wallet.
   */
  lemma CreditAgreesExactly(b: Book, w: WalletId, rq: CreditRequest, now: Time)
    requires Agree(b) && Credit(b, w, rq, now).1.Ok? && !KeyUsed(b.ledger, rq.key)
    ensures Agree(Credit(b, w, rq, now).0) <==> rq.bonus >= 0 && b.wallets[w].main + rq.main >= 0
  {
    var lot := if rq.bonus > 0 then Some(|b.lots|) else None;
    var posted := Post(Opened(b, w, rq.bonus, rq.days, now), w, rq.cause, rq.main, rq.bonus, lot, rq.key);
    assert WalletAgrees(b, w);
    if rq.bonus >= 0 && b.wallets[w].main + rq.main >= 0 {
      OpenedIsLotChange(b, w, rq.bonus, rq.days, now);
      PostAgrees(b, Opened(b, w, rq.bonus, rq.days, now).lots, w, rq.cause, rq.main, rq.bonus, lot, rq.key);
      BumpedAgrees(posted, w);
    } else {
      if rq.bonus < 0 {
        assert posted.lots == b.lots;
      }
      assert !WalletAgrees(Bumped(posted, w), w);
    }
  }

  lemma CreditAgrees(b: Book, w: WalletId, rq: CreditRequest, now: Time)
    requires Agree(b) && rq.main >= 0 && rq.bonus >= 0
    ensures Agree(Credit(b, w, rq, now).0)
  {
    if w in b.wallets {
      assert WalletAgrees(b, w);
    }
    if Credit(b, w, rq, now).0 != b {
      CreditAgreesExactly(b, w, rq, now);
    }
  }

  predicate RowOf(e: Entry, w: WalletId, cause: Cause, main: int, bonus: int, key: Option<Key>) {
    e.wallet == w && e.cause == cause && e.main == main && e.bonus == bonus && e.key == key
  }

  /** Bonus Coins come as one untouched lot that counts as granted now; without any no lot changes. */
  predicate GrantedLot(was: seq<Lot>, lots: seq<Lot>, w: WalletId, bonus: int, now: Time) {
    if bonus <= 0 then lots == was
    else
      && |lots| == |was| + 1 && lots[..|was|] == was
      && var lot := lots[|was|];
         lot.wallet == w && lot.original == lot.remaining == bonus && lot.grantedAt == now && lot.closedAt.None?
  }

  /**
   * A credit under a fresh key goes through exactly when it adds something to a wallet that exists. It
   * adds each amount to its own counter and to the purse, and bonus Coins run out after the given days.
   */
  lemma CreditEffect(b: Book, w: WalletId, rq: CreditRequest, now: Time, later: Time)
    requires rq.main >= 0 && rq.bonus >= 0 && !KeyUsed(b.ledger, rq.key) && now <= later
    ensures var (after, answer) := Credit(b, w, rq, now);
            && (answer.Ok? <==> w in b.wallets && rq.main + rq.bonus > 0)
            && (answer.Err? ==> after == b && answer.error == if rq.main + rq.bonus == 0 then NothingToCredit else NoSuchWallet)
            && (answer.Ok? ==>
                  && after.wallets
                     == b.wallets[w := Wallet(b.wallets[w].main + rq.main, b.wallets[w].bonus + rq.bonus, b.wallets[w].version + 1)]
                  && after.ledger[..|b.ledger|] == b.ledger && |after.ledger| == |b.ledger| + 1
                  && RowOf(after.ledger[|b.ledger|], w, rq.cause, rq.main, rq.bonus, rq.key)
                  && answer.value.transaction == |b.ledger| && answer.value.main == rq.main && answer.value.bonus == rq.bonus
                  && GrantedLot(b.lots, after.lots, w, rq.bonus, now)
                  && Purse(after, w, later) == Purse(b, w, later) + rq.main + if later < now + rq.days * DAY_MS then rq.bonus else 0)
  {
    if w in b.wallets && rq.bonus > 0 {
      HeldAppended(b.lots, Lot(w, rq.bonus, rq.bonus, now, now + rq.days * DAY_MS, None), w, Some(later));
    }
  }

  // ---------------------------------------------------------------------------------------------
  // Corrections by the Admin
  // ---------------------------------------------------------------------------------------------

  lemma AdjustAgrees(b: Book, w: WalletId, rq: AdjustRequest, rows: seq<LotId>, now: Time)
    requires Agree(b) && IsSelection(b.lots, w, now, rows)
    ensures Agree(Adjust(b, w, rq, rows, now).0)
  {
    if Adjust(b, w, rq, rows, now).0 != b {
      if rq.bonus < 0 {
        DrawAgrees(b, w, ADJUSTED, rows, -rq.bonus, rq.key, now);
      } else {
        var lot := if rq.bonus > 0 then Some(|b.lots|) else None;
        OpenedIsLotChange(b, w, rq.bonus, rq.days, now);
        PostAgrees(b, Opened(b, w, rq.bonus, rq.days, now).lots, w, ADJUSTED, rq.main, rq.bonus, lot, rq.key);
        BumpedAgrees(Post(Opened(b, w, rq.bonus, rq.days, now), w, ADJUSTED, rq.main, rq.bonus, lot, rq.key), w);
      }
    }
  }

  /** A correction moves both counters by exactly what was asked, or nothing at all. */
  lemma AdjustMovesAllOrNothing(b: Book, w: WalletId, rq: AdjustRequest, rows: seq<LotId>, now: Time)
    requires Agree(b) && IsSelection(b.lots, w, now, rows)
    ensures var (after, answer) := Adjust(b, w, rq, rows, now);
            if answer.Ok?
            then after.wallets
                     == b.wallets[w := Wallet(b.wallets[w].main + rq.main, b.wallets[w].bonus + rq.bonus, b.wallets[w].version + 1)]
            else after == b
  {
    if Adjust(b, w, rq, rows, now).1.Ok? && rq.bonus < 0 {
      TakeLotsCharges(b, w, ADJUSTED, rows, -rq.bonus, rq.key, now);
    }
  }

  /**
   * A correction that adds bonus Coins or leaves them alone: when it is accepted under a fresh key, and
   * what the wallet can pay from then on, until the given days are over and afterwards.
   */
  lemma GrantVerdict(b: Book, w: WalletId, rq: AdjustRequest, rows: seq<LotId>, now: Time, later: Time)
    requires rq.bonus >= 0 && !KeyUsed(b.ledger, rq.key) && now <= later
    requires forall k :: 0 <= k < |rows| ==> rows[k] < |b.lots|
    ensures var (after, answer) := Adjust(b, w, rq, rows, now);
            && (answer.Ok? <==> w in b.wallets && (rq.main != 0 || rq.bonus != 0) && b.wallets[w].main + rq.main >= 0)
            && (answer.Err? ==> after == b)
            && (answer.Ok? ==>
                  && Purse(after, w, later) == Purse(b, w, later) + rq.main + (if later < now + rq.days * DAY_MS then rq.bonus else 0)
                  && GrantedLot(b.lots, after.lots, w, rq.bonus, now)
                  && |after.ledger| == |b.ledger| + 1 && after.ledger[..|b.ledger|] == b.ledger
                  && RowOf(after.ledger[|b.ledger|], w, Cause(Adjustment, None, None), rq.main, rq.bonus, rq.key)
                  && answer.value == Movement(|b.ledger|, rq.main, rq.bonus, after.wallets[w].main, after.wallets[w].bonus))
  {
    if w in b.wallets && rq.bonus > 0 {
      HeldAppended(b.lots, Lot(w, rq.bonus, rq.bonus, now, now + rq.days * DAY_MS, None), w, Some(later));
    }
  }

  /**
   * A correction that takes bonus Coins back: accepted exactly when it asks for nothing else, the key is
   * fresh and the Coins that have not run out cover it. It then draws on the lots like a payment.
   */
  lemma TakeBackVerdict(b: Book, w: WalletId, rq: AdjustRequest, rows: seq<LotId>, now: Time)
    requires Agree(b) && IsSelection(b.lots, w, now, rows) && rq.bonus < 0
    ensures var (after, answer) := Adjust(b, w, rq, rows, now);
            && (answer.Ok? <==> && rq.main == 0 && w in b.wallets && !KeyUsed(b.ledger, rq.key)
                                && -rq.bonus <= Held(b.lots, w, Some(now)))
            && (answer.Err? ==> after == b)
            && (answer.Err? && rq.main == 0 && w in b.wallets && -rq.bonus > Held(b.lots, w, Some(now)) ==>
                  answer.error == Insufficient(-rq.bonus, b.wallets[w].main, Held(b.lots, w, Some(now)),
                                               -rq.bonus - Held(b.lots, w, Some(now))))
            && (answer.Ok? ==>
                  && after.lots == Drain(b.lots, rows, -rq.bonus, now)
                  && after.wallets == b.wallets[w := Wallet(b.wallets[w].main, b.wallets[w].bonus + rq.bonus, b.wallets[w].version + 1)]
                  && b.ledger < after.ledger && IsLotDebit(after.ledger[|b.ledger|], w, Cause(Adjustment, None, None), rq.key)
                  && (forall i :: |b.ledger| < i < |after.ledger| ==> IsLotDebit(after.ledger[i], w, Cause(Adjustment, None, None), None))
                  && answer.value == Movement(|b.ledger|, 0, -rq.bonus, after.wallets[w].main, after.wallets[w].bonus))
  {
    AgreeIsSound(b);
    SelectionSum(b.lots, w, now, rows);
    if Adjust(b, w, rq, rows, now).1.Ok? {
      TakeBackDraws(b, w, -rq.bonus, rq.key, rows, now, TakeLots(b, w, ADJUSTED, rows, -rq.bonus, rq.key, now));
    }
  }

  /** What a correction is refused for; every refusal leaves the tables as they are. */
  lemma AdjustRefusals(b: Book, w: WalletId, rq: AdjustRequest, rows: seq<LotId>, now: Time)
    requires Agree(b) && IsSelection(b.lots, w, now, rows)
    ensures var (after, answer) := Adjust(b, w, rq, rows, now);
            && (answer == Err(NothingToAdjust) <==> rq.main == 0 && rq.bonus == 0)
            && (answer == Err(SplitTheCorrection) <==> rq.bonus < 0 && rq.main != 0)
            && (answer == Err(NoSuchWallet) <==> w !in b.wallets && (rq.main != 0 || rq.bonus != 0) && (rq.main == 0 || rq.bonus >= 0))
            && (answer.Err? && answer.error.Insufficient? && rq.bonus >= 0 ==>
                  answer.error == Insufficient(-rq.main, b.wallets[w].main, 0, -(b.wallets[w].main + rq.main)))
            && (answer == Err(DuplicateKey) ==> KeyUsed(b.ledger, rq.key))
            && (answer.Err? ==> after == b)
  {
  }

  /** A new wallet is empty, can pay nothing, and opening it again changes nothing. */
  lemma OpenedEmpty(b: Book, w: WalletId, now: Time)
    requires Agree(b)
    ensures var after := OpenWallet(b, w);
            && w in after.wallets && Agree(after) && OpenWallet(after, w) == after
            && after.lots == b.lots && after.ledger == b.ledger
            && (forall v :: v in b.wallets ==> v in after.wallets && after.wallets[v] == b.wallets[v])
            && (w !in b.wallets ==> after.wallets[w].main == after.wallets[w].bonus == 0 && Purse(after, w, now) == 0)
  {
    if w !in b.wallets {
      NothingOf(b, w, |b.ledger|, |b.lots|, Some(now));
      NothingOf(b, w, |b.ledger|, |b.lots|, None);
      assert b.ledger[..|b.ledger|] == b.ledger && b.lots[..|b.lots|] == b.lots;
      var after := OpenWallet(b, w);
      forall v | v in after.wallets ensures WalletAgrees(after, v) {
        assert v in b.wallets ==> WalletAgrees(b, v);
      }
      forall i: nat | i < |b.ledger| ensures RowPlaced(after, i) {
        assert RowPlaced(b, i);
      }
      forall id: nat | id < |b.lots| ensures LotAgrees(after, id) {
        assert LotAgrees(b, id);
      }
    }
  }

  /** No row and no lot names a wallet that does not exist. */
  lemma {:induction false} NothingOf(b: Book, w: WalletId, rows: nat, lots: nat, after: Option<Time>)
    requires Agree(b) && w !in b.wallets && rows <= |b.ledger| && lots <= |b.lots|
    ensures MainSum(b.ledger[..rows], w) == 0 && BonusSum(b.ledger[..rows], w) == 0 && Held(b.lots[..lots], w, after) == 0
    decreases rows + lots
  {
    if rows > 0 {
      NothingOf(b, w, rows - 1, lots, after);
      assert RowPlaced(b, rows - 1);
      assert b.ledger[..rows][..rows - 1] == b.ledger[..rows - 1] && b.ledger[..rows][rows - 1] == b.ledger[rows - 1];
    } else if lots > 0 {
      NothingOf(b, w, rows, lots - 1, after);
      assert LotAgrees(b, lots - 1);
      assert b.lots[..lots][..lots - 1] == b.lots[..lots - 1] && b.lots[..lots][lots - 1] == b.lots[lots - 1];
    }
  }

  lemma TakeBackDraws(b: Book, w: WalletId, wanted: int, key: Option<Key>, rows: seq<LotId>, now: Time, taken: Book)
    requires w in b.wallets && IsSelection(b.lots, w, now, rows) && 0 < wanted <= BonusOf(b.lots, rows)
    requires taken == TakeLots(b, w, ADJUSTED, rows, wanted, key, now)
    ensures taken.lots == Drain(b.lots, rows, wanted, now) && b.ledger < taken.ledger
    ensures taken.wallets == b.wallets[w := b.wallets[w].(bonus := b.wallets[w].bonus - wanted)]
    ensures forall i :: |b.ledger| <= i < |taken.ledger| ==>
              IsLotDebit(taken.ledger[i], w, Cause(Adjustment, None, None), if i == |b.ledger| then key else None)
  {
    TakeLotsDrains(b, w, ADJUSTED, rows, wanted, key, now);
    TakeLotsCharges(b, w, ADJUSTED, rows, wanted, key, now);
    TakeLotsRows(b, w, ADJUSTED, rows, wanted, key, now);
    if taken.ledger == b.ledger {
      TakeLotsWrites(b, w, rows, wanted, key, now);
    }
  }

  /** A draw that takes something writes a row. */
  lemma TakeLotsWrites(b: Book, w: WalletId, rows: seq<LotId>, wanted: int, key: Option<Key>, now: Time)
    requires w in b.wallets && rows != [] && wanted > 0 && forall k :: 0 <= k < |rows| ==> rows[k] < |b.lots|
    ensures |TakeLots(b, w, ADJUSTED, rows, wanted, key, now).ledger| > |b.ledger|
  {
    var taken := Min(b.lots[rows[0]].remaining, wanted);
    var next := TakeOne(b, w, ADJUSTED, rows[0], taken, key, now);
    TakeLotsRows(next, w, ADJUSTED, rows[1..], wanted - taken, None, now);
  }

  // ---------------------------------------------------------------------------------------------
  // Expiry of one lot
  // ---------------------------------------------------------------------------------------------

  /**
   * Closing a lot with an amount read earlier keeps the tables in agreement exactly when the lot is
   * no longer open or still holds that amount.
   */
  lemma ExpireAgreesExactly(b: Book, id: LotId, amount: int, now: Time)
    requires Agree(b)
    ensures Agree(ExpireLot(b, id, amount, now)) <==> id >= |b.lots| || !Open(b.lots[id]) || b.lots[id].remaining == amount
  {
    if id < |b.lots| && Open(b.lots[id]) {
      assert LotAgrees(b, id);
      var w := b.lots[id].wallet;
      assert WalletAgrees(b, w);
      var lots := b.lots[id := b.lots[id].(remaining := 0, closedAt := Some(now))];
      var posted := Post(b.(lots := lots), w, EXPIRED, 0, -amount, Some(id), None);
      if b.lots[id].remaining == amount {
        PostAgrees(b, lots, w, EXPIRED, 0, -amount, Some(id), None);
      } else {
        HeldUpdated(b.lots, id, lots[id], w, None);
        assert !WalletAgrees(posted, w);
      }
      BumpedAgrees(posted, w);
    }
  }

  /** An open lot is emptied and closed for good, its wallet pays the amount read, and one expiry row says so. */
  lemma ExpireEffect(b: Book, id: LotId, amount: int, now: Time)
    requires Agree(b)
    ensures var after := ExpireLot(b, id, amount, now);
            if id < |b.lots| && Open(b.lots[id]) then
              && after.lots == b.lots[id := b.lots[id].(remaining := 0, closedAt := Some(now))]
              && (forall v :: v in b.wallets ==> v in after.wallets && after.wallets[v].main == b.wallets[v].main)
              && (forall v :: v in b.wallets ==>
                    after.wallets[v].bonus == b.wallets[v].bonus - if v == b.lots[id].wallet then amount else 0)
              && |after.ledger| == |b.ledger| + 1 && after.ledger[..|b.ledger|] == b.ledger
              && after.ledger[|b.ledger|].lot == Some(id) && after.ledger[|b.ledger|].cause.kind.BonusExpiry?
              && RowOf(after.ledger[|b.ledger|], b.lots[id].wallet, after.ledger[|b.ledger|].cause, 0, -amount, None)
            else after == b
  {
    if id < |b.lots| {
      assert LotAgrees(b, id);
    }
  }

  // ---------------------------------------------------------------------------------------------
  // Repeated keys
  // ---------------------------------------------------------------------------------------------

  /** A key in the ledger moves nothing, whatever the call asks for. */
  lemma RepeatedKeyMovesNothing(b: Book, w: WalletId, spend: SpendRequest, credit: CreditRequest, adjust: AdjustRequest,
                                rows: seq<LotId>, now: Time, key: Option<Key>)
    requires KeyUsed(b.ledger, key) && spend.key == key && credit.key == key && adjust.key == key
    requires forall k :: 0 <= k < |rows| ==> rows[k] < |b.lots|
    ensures Spend(b, w, spend, rows, now).0 == b
    ensures Credit(b, w, credit, now).0 == b
    ensures Adjust(b, w, adjust, rows, now).0 == b
  {
  }

  lemma KeyRowIsUnique(ledger: seq<Entry>, key: Option<Key>, i: nat)
    requires UniqueKeys(ledger) && i < |ledger| && ledger[i].key == key && key.Some?
    ensures KeyUsed(ledger, key) && KeyRow(ledger, key) == i
  {
    assert SameKey(ledger, KeyRow(ledger, key), i) && SameKey(ledger, i, KeyRow(ledger, key));
  }

  /** The row that carries the key of a payment: the main part, with the bonus balance still untouched. */
  lemma KeyedRow(b: Book, w: WalletId, rq: SpendRequest, rows: seq<LotId>, now: Time)
    requires Agree(b) && IsSelection(b.lots, w, now, rows) && !KeyUsed(b.ledger, rq.key) && rq.key.Some?
    requires Spend(b, w, rq, rows, now).1.Ok?
    ensures var once := Spend(b, w, rq, rows, now).0;
            var main := Min(b.wallets[w].main, rq.amount);
            && KeyUsed(once.ledger, rq.key) && KeyRow(once.ledger, rq.key) == |b.ledger| < |once.ledger|
            && once.ledger[|b.ledger|]
               == Entry(w, rq.cause, -main, 0, None, rq.key, b.wallets[w].main - main, b.wallets[w].bonus)
  {
    SpendAgrees(b, w, rq, rows, now);
    ChargedRows(b, w, rq, rows, Min(b.wallets[w].main, rq.amount), now);
    KeyRowIsUnique(Spend(b, w, rq, rows, now).0.ledger, rq.key, |b.ledger|);
  }

  /**
   * Sending a payment twice under one key moves the wallet once. The second answer repeats the row and
   * the main part; it equals the first answer exactly when the main balance covered the payment.
   */
  lemma SpendTwice(b: Book, w: WalletId, rq: SpendRequest, rows: seq<LotId>, now: Time, again: seq<LotId>, later: Time)
    requires Agree(b) && IsSelection(b.lots, w, now, rows) && !KeyUsed(b.ledger, rq.key) && rq.key.Some?
    requires Spend(b, w, rq, rows, now).1.Ok?
    requires IsSelection(Spend(b, w, rq, rows, now).0.lots, w, later, again)
    ensures var (once, first) := Spend(b, w, rq, rows, now);
            var (twice, second) := Spend(once, w, rq, again, later);
            && twice == once
            && second.Ok? && second.value.transaction == first.value.transaction && second.value.main == first.value.main
            && (second == first <==> rq.amount <= b.wallets[w].main)
  {
    KeyedRow(b, w, rq, rows, now);
    SpendEffect(b, w, rq, rows, now);
    var once := Spend(b, w, rq, rows, now).0;
    var main := Min(b.wallets[w].main, rq.amount);
    assert Spend(once, w, rq, again, later) == (once, Ok(Replayed(once.ledger, rq.key)));
    assert Replayed(once.ledger, rq.key) == Movement(|b.ledger|, main, 0, b.wallets[w].main - main, b.wallets[w].bonus);
  }

  /** A repeated credit is answered with both amounts negated, so it never repeats the first answer. */
  lemma CreditTwice(b: Book, w: WalletId, rq: CreditRequest, now: Time, later: Time)
    requires Agree(b) && rq.main >= 0 && rq.bonus >= 0 && !KeyUsed(b.ledger, rq.key) && rq.key.Some?
    requires Credit(b, w, rq, now).1.Ok?
    ensures var (once, first) := Credit(b, w, rq, now);
            var (twice, second) := Credit(once, w, rq, later);
            && twice == once && second != first
            && second == Ok(first.value.(main := -first.value.main, bonus := -first.value.bonus))
  {
    var (once, first) := Credit(b, w, rq, now);
    CreditAgrees(b, w, rq, now);
    KeyRowIsUnique(once.ledger, rq.key, |b.ledger|);
  }

  // ---------------------------------------------------------------------------------------------
  // A wallet to show inputs on
  // ---------------------------------------------------------------------------------------------

  const NO_MOVES := Book(map[0 := Wallet(0, 0, 0)], [], [])

  const FIVE_COINS := CreditRequest(Cause(TopUp, None, None), 5, 0, 0, Some(OrderKey(0)))

  /** The wallet after a top-up of five Coins. */
  const TOPPED_UP := Credit(NO_MOVES, 0, FIVE_COINS, 0).0

  lemma ToppedUpAgrees(now: Time)
    ensures Agree(TOPPED_UP) && TOPPED_UP.lots == [] && |TOPPED_UP.ledger| == 1 && Purse(TOPPED_UP, 0, now) == 5
    ensures KeyUsed(TOPPED_UP.ledger, Some(OrderKey(0))) && KeyRow(TOPPED_UP.ledger, Some(OrderKey(0))) == 0
  {
    assert Agree(NO_MOVES);
    CreditAgrees(NO_MOVES, 0, FIVE_COINS, 0);
    assert TOPPED_UP.ledger[0].key == Some(OrderKey(0));
  }
}
