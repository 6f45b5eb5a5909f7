/** Every move keeps wallets, lots and ledger in agreement, and says exactly when it could not. */
module CoinBookProofs {
  import opened Prelude
  import opened CoinBook

  // ---------------------------------------------------------------------------------------------
  // How the sums follow one row or one lot
  // ---------------------------------------------------------------------------------------------

  lemma SumsOfAppended(ledger: seq<Entry>, e: Entry, w: WalletId, id: LotId)
    ensures MainSum(ledger + [e], w) == MainSum(ledger, w) + if e.wallet == w then e.main else 0
    ensures BonusSum(ledger + [e], w) == BonusSum(ledger, w) + if e.wallet == w then e.bonus else 0
    ensures LotSum(ledger + [e], id) == LotSum(ledger, id) + if e.lot == Some(id) then e.bonus else 0
  {
    assert (ledger + [e])[..|ledger|] == ledger;
  }

  lemma HeldAppended(lots: seq<Lot>, lot: Lot, w: WalletId, after: Option<Time>)
    ensures Held(lots + [lot], w, after) == Held(lots, w, after) + if Counts(lot, w, after) then lot.remaining else 0
  {
    assert (lots + [lot])[..|lots|] == lots;
  }

  function Share(lot: Lot, w: WalletId, after: Option<Time>): int {
    if Counts(lot, w, after) then lot.remaining else 0
  }

  lemma {:induction false} HeldUpdated(lots: seq<Lot>, id: LotId, lot: Lot, w: WalletId, after: Option<Time>)
    requires id < |lots|
    ensures Held(lots[id := lot], w, after) == Held(lots, w, after) - Share(lots[id], w, after) + Share(lot, w, after)
  {
    var last := |lots| - 1;
    if id == last {
      assert lots[id := lot][..last] == lots[..last];
    } else {
      assert lots[id := lot][..last] == lots[..last][id := lot];
      HeldUpdated(lots[..last], id, lot, w, after);
    }
  }

  lemma {:induction false} NoRowsOfLot(ledger: seq<Entry>, id: LotId)
    requires forall i :: 0 <= i < |ledger| ==> ledger[i].lot != Some(id)
    ensures LotSum(ledger, id) == 0
  {
    if ledger != [] {
      NoRowsOfLot(ledger[..|ledger| - 1], id);
    }
  }

  // ---------------------------------------------------------------------------------------------
  // One posting
  // ---------------------------------------------------------------------------------------------

  /** The lot table changes by exactly the bonus amount of the row: nowhere, in one lot, or by a new lot. */
  predicate LotChange(was: seq<Lot>, lots: seq<Lot>, w: WalletId, bonus: int, lot: Option<LotId>) {
    match lot
    case None => lots == was && bonus == 0
    case Some(id) =>
      && id < |lots|
      && lots[id].wallet == w
      && LotSound(lots[id])
      && if id < |was|
         then lots == was[id := lots[id]] && was[id].wallet == w && lots[id].remaining == was[id].remaining + bonus
         else id == |was| && lots == was + [lots[id]] && lots[id].remaining == bonus
  }

  lemma PostKeepsWallets(b: Book, lots: seq<Lot>, w: WalletId, cause: Cause, main: int, bonus: int,
                         lot: Option<LotId>, key: Option<Key>, v: WalletId)
    requires Agree(b) && w in b.wallets && b.wallets[w].main + main >= 0
    requires LotChange(b.lots, lots, w, bonus, lot)
    requires v in b.wallets
    ensures WalletAgrees(Post(b.(lots := lots), w, cause, main, bonus, lot, key), v)
  {
    var r := Post(b.(lots := lots), w, cause, main, bonus, lot, key);
    assert WalletAgrees(b, v) && WalletAgrees(b, w);
    SumsOfAppended(b.ledger, r.ledger[|b.ledger|], v, 0);
    match lot
    case None =>
    case Some(id) =>
      if id < |b.lots| {
        HeldUpdated(b.lots, id, lots[id], v, None);
      } else {
        HeldAppended(b.lots, lots[id], v, None);
      }
  }

  lemma PostKeepsLots(b: Book, lots: seq<Lot>, w: WalletId, cause: Cause, main: int, bonus: int,
                      lot: Option<LotId>, key: Option<Key>, id: LotId)
    requires Agree(b) && w in b.wallets
    requires LotChange(b.lots, lots, w, bonus, lot)
    requires id < |lots|
    ensures LotAgrees(Post(b.(lots := lots), w, cause, main, bonus, lot, key), id)
  {
    var r := Post(b.(lots := lots), w, cause, main, bonus, lot, key);
    SumsOfAppended(b.ledger, r.ledger[|b.ledger|], w, id);
    if id < |b.lots| {
      assert LotAgrees(b, id);
    } else {
      forall i | 0 <= i < |b.ledger| ensures b.ledger[i].lot != Some(id) {
        assert RowPlaced(b, i);
      }
      NoRowsOfLot(b.ledger, id);
    }
  }

  lemma PostKeepsRows(b: Book, lots: seq<Lot>, w: WalletId, cause: Cause, main: int, bonus: int,
                      lot: Option<LotId>, key: Option<Key>, i: nat)
    requires Agree(b) && w in b.wallets
    requires LotChange(b.lots, lots, w, bonus, lot)
    requires i <= |b.ledger|
    ensures RowAgrees(Post(b.(lots := lots), w, cause, main, bonus, lot, key).ledger, i)
    ensures RowPlaced(Post(b.(lots := lots), w, cause, main, bonus, lot, key), i)
  {
    var r := Post(b.(lots := lots), w, cause, main, bonus, lot, key);
    if i < |b.ledger| {
      assert RowAgrees(b.ledger, i) && RowPlaced(b, i);
      assert r.ledger[..i + 1] == b.ledger[..i + 1];
    } else {
      assert WalletAgrees(b, w);
      SumsOfAppended(b.ledger, r.ledger[i], w, 0);
      assert r.ledger[..i + 1] == b.ledger + [r.ledger[i]];
    }
  }

  lemma PostKeepsKeys(ledger: seq<Entry>, e: Entry)
    requires UniqueKeys(ledger) && !KeyUsed(ledger, e.key)
    ensures UniqueKeys(ledger + [e])
  {
    forall i: nat, j: nat | i < j < |ledger| + 1 ensures !SameKey(ledger + [e], i, j) {
      if j < |ledger| {
        assert !SameKey(ledger, i, j);
      }
    }
  }

  lemma PostAgrees(b: Book, lots: seq<Lot>, w: WalletId, cause: Cause, main: int, bonus: int,
                   lot: Option<LotId>, key: Option<Key>)
    requires Agree(b) && w in b.wallets && b.wallets[w].main + main >= 0
    requires LotChange(b.lots, lots, w, bonus, lot)
    requires !KeyUsed(b.ledger, key)
    ensures Agree(Post(b.(lots := lots), w, cause, main, bonus, lot, key))
  {
    var r := Post(b.(lots := lots), w, cause, main, bonus, lot, key);
    forall v | v in r.wallets ensures WalletAgrees(r, v) {
      PostKeepsWallets(b, lots, w, cause, main, bonus, lot, key, v);
    }
    forall id | 0 <= id < |r.lots| ensures LotAgrees(r, id) {
      PostKeepsLots(b, lots, w, cause, main, bonus, lot, key, id);
    }
    forall i | 0 <= i < |r.ledger| ensures RowAgrees(r.ledger, i) && RowPlaced(r, i) {
      PostKeepsRows(b, lots, w, cause, main, bonus, lot, key, i);
    }
    PostKeepsKeys(b.ledger, r.ledger[|b.ledger|]);
  }

  lemma BumpedAgrees(b: Book, w: WalletId)
    requires w in b.wallets
    ensures Agree(Bumped(b, w)) <==> Agree(b)
  {
    var r := Bumped(b, w);
    forall v | v in b.wallets ensures WalletAgrees(r, v) <==> WalletAgrees(b, v) {}
    forall id | 0 <= id < |b.lots| ensures LotAgrees(r, id) <==> LotAgrees(b, id) {}
    forall i | 0 <= i < |b.ledger| ensures RowPlaced(r, i) <==> RowPlaced(b, i) {}
  }

  // ---------------------------------------------------------------------------------------------
  // Selections of spendable lots
  // ---------------------------------------------------------------------------------------------

  predicate AllSound(lots: seq<Lot>) {
    forall i :: 0 <= i < |lots| ==> LotSound(lots[i])
  }

  /** An emptied first lot leaves the rest of the listing a listing. */
  lemma ListingTail(lots: seq<Lot>, w: WalletId, now: Time, rows: seq<LotId>)
    requires IsSelection(lots, w, now, rows) && rows != []
    ensures var emptied := lots[rows[0] := Taken(lots[rows[0]], lots[rows[0]].remaining, now)];
            IsSelection(emptied, w, now, rows[1..])
            && (IsListing(lots, w, now, rows) ==> IsListing(emptied, w, now, rows[1..]))
  {
    var emptied := lots[rows[0] := Taken(lots[rows[0]], lots[rows[0]].remaining, now)];
    forall i | 0 <= i < |emptied| && Spendable(emptied[i], w, now) ensures i in rows[1..] {
      assert i in rows && i != rows[0];
    }
  }

  lemma {:induction false} BonusOfFrame(was: seq<Lot>, lots: seq<Lot>, rows: seq<LotId>)
    requires |was| == |lots|
    requires forall k :: 0 <= k < |rows| ==> rows[k] < |lots| && was[rows[k]].remaining == lots[rows[k]].remaining
    ensures BonusOf(was, rows) == BonusOf(lots, rows)
  {
    if rows != [] {
      BonusOfFrame(was, lots, rows[1..]);
    }
  }

  lemma {:induction false} NothingHeld(lots: seq<Lot>, w: WalletId, now: Time)
    requires AllSound(lots)
    requires forall i :: 0 <= i < |lots| ==> !Spendable(lots[i], w, now)
    ensures Held(lots, w, Some(now)) == 0
  {
    if lots != [] {
      assert LotSound(lots[|lots| - 1]) && !Spendable(lots[|lots| - 1], w, now);
      NothingHeld(lots[..|lots| - 1], w, now);
    }
  }

  /** The sum over the listed lots is the sum the balance query computes in the database. */
  lemma {:induction false} SelectionSum(lots: seq<Lot>, w: WalletId, now: Time, rows: seq<LotId>)
    requires AllSound(lots) && IsSelection(lots, w, now, rows)
    ensures BonusOf(lots, rows) == Held(lots, w, Some(now))
    decreases |rows|
  {
    if rows == [] {
      NothingHeld(lots, w, now);
    } else {
      var id := rows[0];
      var emptied := lots[id := Taken(lots[id], lots[id].remaining, now)];
      ListingTail(lots, w, now, rows);
      SelectionSum(emptied, w, now, rows[1..]);
      HeldUpdated(lots, id, emptied[id], w, Some(now));
      BonusOfFrame(lots, emptied, rows[1..]);
    }
  }

  // ---------------------------------------------------------------------------------------------
  // Draining lots
  // ---------------------------------------------------------------------------------------------

  lemma TakeOneAgrees(b: Book, w: WalletId, cause: Cause, id: LotId, amount: int, key: Option<Key>, now: Time)
    requires Agree(b) && w in b.wallets && !KeyUsed(b.ledger, key)
    requires id < |b.lots| && Spendable(b.lots[id], w, now) && 0 <= amount <= b.lots[id].remaining
    ensures Agree(TakeOne(b, w, cause, id, amount, key, now))
  {
    assert LotAgrees(b, id) && WalletAgrees(b, w);
    PostAgrees(b, b.lots[id := Taken(b.lots[id], amount, now)], w, cause, 0, -amount, Some(id), key);
  }

  /** After the first listed lot is emptied, the rest of the listing is a listing of what is left. */
  lemma FirstTaken(b: Book, w: WalletId, cause: Cause, rows: seq<LotId>, key: Option<Key>, now: Time, next: Book)
    requires w in b.wallets && IsSelection(b.lots, w, now, rows) && rows != []
    requires next == TakeOne(b, w, cause, rows[0], b.lots[rows[0]].remaining, key, now)
    ensures IsSelection(next.lots, w, now, rows[1..])
    ensures BonusOf(next.lots, rows[1..]) == BonusOf(b.lots, rows) - b.lots[rows[0]].remaining
  {
    ListingTail(b.lots, w, now, rows);
    BonusOfFrame(b.lots, next.lots, rows[1..]);
  }

  lemma FirstTakenAgrees(b: Book, w: WalletId, cause: Cause, rows: seq<LotId>, amount: int, key: Option<Key>, now: Time,
                         next: Book)
    requires Agree(b) && w in b.wallets && !KeyUsed(b.ledger, key)
    requires IsSelection(b.lots, w, now, rows) && rows != [] && amount > 0
    requires next == TakeOne(b, w, cause, rows[0], Min(b.lots[rows[0]].remaining, amount), key, now)
    ensures Agree(next) && w in next.wallets && |next.lots| == |b.lots|
    ensures b.lots[rows[0]].remaining < amount ==> IsSelection(next.lots, w, now, rows[1..])
  {
    TakeOneAgrees(b, w, cause, rows[0], Min(b.lots[rows[0]].remaining, amount), key, now);
    if b.lots[rows[0]].remaining < amount {
      FirstTaken(b, w, cause, rows, key, now, next);
    }
  }

  lemma {:induction false} TakeLotsAgrees(b: Book, w: WalletId, cause: Cause, rows: seq<LotId>, amount: int,
                                          key: Option<Key>, now: Time, r: Book)
    requires Agree(b) && w in b.wallets && !KeyUsed(b.ledger, key)
    requires IsSelection(b.lots, w, now, rows) && r == TakeLots(b, w, cause, rows, amount, key, now)
    ensures Agree(r)
    decreases |rows|
  {
    if rows != [] && amount > 0 {
      var taken := Min(b.lots[rows[0]].remaining, amount);
      var next := TakeOne(b, w, cause, rows[0], taken, key, now);
      FirstTakenAgrees(b, w, cause, rows, amount, key, now, next);
      if taken < amount {
        TakeLotsAgrees(next, w, cause, rows[1..], amount - taken, None, now, r);
      } else {
        assert r == next;
      }
    }
  }

  /** A whole draw keeps the tables in agreement. */
  lemma DrawAgrees(b: Book, w: WalletId, cause: Cause, rows: seq<LotId>, amount: int, key: Option<Key>, now: Time)
    requires Agree(b) && w in b.wallets && !KeyUsed(b.ledger, key) && IsSelection(b.lots, w, now, rows)
    ensures Agree(Bumped(TakeLots(b, w, cause, rows, amount, key, now), w))
  {
    var r := TakeLots(b, w, cause, rows, amount, key, now);
    TakeLotsAgrees(b, w, cause, rows, amount, key, now, r);
    BumpedAgrees(r, w);
  }

  lemma {:induction false} TakeLotsDrains(b: Book, w: WalletId, cause: Cause, rows: seq<LotId>, amount: int,
                                          key: Option<Key>, now: Time)
    requires w in b.wallets && forall k :: 0 <= k < |rows| ==> rows[k] < |b.lots|
    ensures TakeLots(b, w, cause, rows, amount, key, now).lots == Drain(b.lots, rows, amount, now)
    decreases |rows|
  {
    if rows != [] && amount > 0 {
      var taken := Min(b.lots[rows[0]].remaining, amount);
      TakeLotsDrains(TakeOne(b, w, cause, rows[0], taken, key, now), w, cause, rows[1..], amount - taken, None, now);
    }
  }

  /** Only the bonus counter of the one wallet moves, by the whole amount when the lots cover it. */
  lemma {:induction false} TakeLotsCharges(b: Book, w: WalletId, cause: Cause, rows: seq<LotId>, amount: int,
                                           key: Option<Key>, now: Time)
    requires w in b.wallets && IsSelection(b.lots, w, now, rows)
    requires 0 <= amount <= BonusOf(b.lots, rows)
    ensures TakeLots(b, w, cause, rows, amount, key, now).wallets
            == b.wallets[w := b.wallets[w].(bonus := b.wallets[w].bonus - amount)]
    decreases |rows|
  {
    if rows != [] && amount > 0 {
      var taken := Min(b.lots[rows[0]].remaining, amount);
      var next := TakeOne(b, w, cause, rows[0], taken, key, now);
      if taken < amount {
        FirstTaken(b, w, cause, rows, key, now, next);
        TakeLotsCharges(next, w, cause, rows[1..], amount - taken, None, now);
      } else {
        assert TakeLots(next, w, cause, rows[1..], amount - taken, None, now) == next;
      }
    }
  }

  /** The ledger only grows, by debits of lots of that wallet; the key stands on the first of them. */
  lemma {:induction false} TakeLotsRows(b: Book, w: WalletId, cause: Cause, rows: seq<LotId>, amount: int,
                                        key: Option<Key>, now: Time)
    requires w in b.wallets && forall k :: 0 <= k < |rows| ==> rows[k] < |b.lots|
    ensures var r := TakeLots(b, w, cause, rows, amount, key, now).ledger;
            && b.ledger <= r
            && forall i :: |b.ledger| <= i < |r| ==> IsLotDebit(r[i], w, cause, if i == |b.ledger| then key else None)
    decreases |rows|
  {
    if rows != [] && amount > 0 {
      var taken := Min(b.lots[rows[0]].remaining, amount);
      TakeLotsRows(TakeOne(b, w, cause, rows[0], taken, key, now), w, cause, rows[1..], amount - taken, None, now);
    }
  }

  predicate IsLotDebit(e: Entry, w: WalletId, cause: Cause, key: Option<Key>) {
    e.wallet == w && e.cause == cause && e.main == 0 && e.lot.Some? && e.key == key
  }

  // ---------------------------------------------------------------------------------------------
  // Which lots a draw empties
  // ---------------------------------------------------------------------------------------------

  lemma {:induction false} BonusOfNonNegative(lots: seq<Lot>, rows: seq<LotId>)
    requires forall k :: 0 <= k < |rows| ==> rows[k] < |lots| && lots[rows[k]].remaining >= 0
    ensures BonusOf(lots, rows) >= 0
  {
    if rows != [] {
      BonusOfNonNegative(lots, rows[1..]);
    }
  }

  /** A lot outside the listing keeps everything; a listed lot keeps its wallet and its dates. */
  lemma {:induction false} DrainFrame(lots: seq<Lot>, rows: seq<LotId>, amount: int, now: Time, i: nat)
    requires i < |lots| && forall k :: 0 <= k < |rows| ==> rows[k] < |lots|
    ensures var after := Drain(lots, rows, amount, now)[i];
            && after == lots[i].(remaining := after.remaining, closedAt := after.closedAt)
            && (i !in rows ==> after == lots[i])
    decreases |rows|
  {
    if rows != [] && amount > 0 {
      var taken := Min(lots[rows[0]].remaining, amount);
      DrainFrame(lots[rows[0] := Taken(lots[rows[0]], taken, now)], rows[1..], amount - taken, now, i);
    }
  }

  /** What a draw of `amount` takes out of the k-th listed lot: only what the lots before it could not cover. */
  function LotShare(lots: seq<Lot>, rows: seq<LotId>, amount: int, k: nat): int
    requires k < |rows| && forall j :: 0 <= j < |rows| ==> rows[j] < |lots|
  {
    Min(lots[rows[k]].remaining, Max(0, amount - BonusOf(lots, rows[..k])))
  }

  lemma DrainFirst(lots: seq<Lot>, rows: seq<LotId>, amount: int, now: Time)
    requires rows != [] && forall k :: 0 <= k < |rows| ==> rows[k] < |lots|
    requires rows[0] !in rows[1..]
    ensures Drain(lots, rows, amount, now)[rows[0]]
            == if amount <= 0 then lots[rows[0]]
               else Taken(lots[rows[0]], Min(lots[rows[0]].remaining, amount), now)
  {
    if amount > 0 {
      var taken := Min(lots[rows[0]].remaining, amount);
      DrainFrame(lots[rows[0] := Taken(lots[rows[0]], taken, now)], rows[1..], amount - taken, now, rows[0]);
    }
  }

  /** Greedy, lot by lot: each listed lot gives its share and is closed exactly when that empties it. */
  lemma {:induction false} DrainShares(lots: seq<Lot>, w: WalletId, rows: seq<LotId>, amount: int, now: Time, k: nat)
    requires IsSelection(lots, w, now, rows) && k < |rows|
    ensures Drain(lots, rows, amount, now)[rows[k]]
            == if LotShare(lots, rows, amount, k) == 0 then lots[rows[k]]
               else Taken(lots[rows[k]], LotShare(lots, rows, amount, k), now)
    ensures var was, lot := lots[rows[k]], Drain(lots, rows, amount, now)[rows[k]];
            && lot.remaining == was.remaining - LotShare(lots, rows, amount, k)
            && lot.closedAt == (if lot.remaining == 0 then Some(now) else None)
    decreases |rows|
  {
    if k == 0 {
      DrainFirst(lots, rows, amount, now);
    } else {
      LotShareTail(lots, w, rows, amount, now, k);
      if amount > 0 {
        var id := rows[0];
        if lots[id].remaining < amount {
          ListingTail(lots, w, now, rows);
          DrainShares(lots[id := Taken(lots[id], lots[id].remaining, now)], w, rows[1..], amount - lots[id].remaining, now, k - 1);
        } else {
          DrainStops(lots, rows, amount, now);
        }
      }
    }
  }

  lemma DrainStops(lots: seq<Lot>, rows: seq<LotId>, amount: int, now: Time)
    requires rows != [] && forall k :: 0 <= k < |rows| ==> rows[k] < |lots|
    requires 0 < amount <= lots[rows[0]].remaining
    ensures Drain(lots, rows, amount, now) == lots[rows[0] := Taken(lots[rows[0]], amount, now)]
  {
    assert Drain(lots[rows[0] := Taken(lots[rows[0]], amount, now)], rows[1..], 0, now)
        == lots[rows[0] := Taken(lots[rows[0]], amount, now)];
  }

  /** A later lot's share of the draw is its share of what the first lot could not cover. */
  lemma LotShareTail(lots: seq<Lot>, w: WalletId, rows: seq<LotId>, amount: int, now: Time, k: nat)
    requires IsSelection(lots, w, now, rows) && 0 < k < |rows|
    ensures var first := lots[rows[0]];
            var emptied := lots[rows[0] := Taken(first, first.remaining, now)];
            && LotShare(lots, rows, amount, k) == LotShare(emptied, rows[1..], amount - first.remaining, k - 1)
            && (amount <= first.remaining ==> LotShare(lots, rows, amount, k) == 0)
  {
    var first := lots[rows[0]];
    var emptied := lots[rows[0] := Taken(first, first.remaining, now)];
    var before := rows[1..][..k - 1];
    assert rows[..k][1..] == before;
    BonusOfFrame(lots, emptied, before);
    BonusOfNonNegative(lots, before);
  }
}
