/** The batch loop of the expiry sweep running alone: it ends, and no due lot is left open. */
module BonusSweep {
  import opened Prelude
  import opened CoinBook
  import opened CoinBookProofs
  import opened CoinMoves
  import opened CoinService
  import opened BonusExpiry

  const BATCH := 200

  function Shut(lot: Lot, now: Time): Lot {
    if DueOpen(lot, now) then lot.(remaining := 0, closedAt := Some(now)) else lot
  }

  function DueCount(lots: seq<Lot>, now: Time): nat {
    if lots == [] then 0
    else DueCount(lots[..|lots| - 1], now) + if DueOpen(lots[|lots| - 1], now) then 1 else 0
  }

  function DueCoins(lots: seq<Lot>, now: Time): int {
    if lots == [] then 0
    else DueCoins(lots[..|lots| - 1], now) + if DueOpen(lots[|lots| - 1], now) then lots[|lots| - 1].remaining else 0
  }

  lemma {:induction false} ShutCounts(lots: seq<Lot>, id: LotId, now: Time)
    requires id < |lots| && DueOpen(lots[id], now)
    ensures DueCount(lots[id := Shut(lots[id], now)], now) == DueCount(lots, now) - 1
    ensures DueCoins(lots[id := Shut(lots[id], now)], now) == DueCoins(lots, now) - lots[id].remaining
  {
    var last := |lots| - 1;
    var next := lots[id := Shut(lots[id], now)];
    if id == last {
      assert next[..last] == lots[..last];
    } else {
      assert next[..last] == lots[..last][id := Shut(lots[id], now)];
      ShutCounts(lots[..last], id, now);
    }
  }

  lemma {:induction false} NothingDue(lots: seq<Lot>, now: Time)
    requires forall i :: 0 <= i < |lots| ==> !DueOpen(lots[i], now)
    ensures DueCount(lots, now) == 0 && DueCoins(lots, now) == 0
  {
    if lots != [] { NothingDue(lots[..|lots| - 1], now); }
  }

  /** Every lot is as it was, or due and shut by the sweep. */
  predicate Swept(was: seq<Lot>, lots: seq<Lot>, now: Time) {
    |lots| == |was| && forall i :: 0 <= i < |lots| ==> lots[i] == was[i] || lots[i] == Shut(was[i], now)
  }

  lemma {:induction false} SweptHeld(was: seq<Lot>, lots: seq<Lot>, w: WalletId, now: Time)
    requires AllSound(was) && Swept(was, lots, now)
    requires forall i :: 0 <= i < |lots| ==> !DueOpen(lots[i], now)
    ensures Held(lots, w, None) == Held(was, w, Some(now))
  {
    if lots != [] {
      var last := |lots| - 1;
      assert LotSound(was[last]) && !DueOpen(lots[last], now);
      assert Swept(was[..last], lots[..last], now);
      SweptHeld(was[..last], lots[..last], w, now);
    }
  }

  /** Closes one lot the batch named; another sweep may have closed it, and then nothing is written. */
  method Expire(db: CoinTables, id: LotId, amount: int, now: Time)
    requires Agree(db.Tables()) && id < |db.lots|
    modifies db
    ensures db.Tables() == ExpireLot(old(db.Tables()), id, amount, now)
  {
    assert LotAgrees(db.Tables(), id);
    var lot := db.lots[id];
    if lot.closedAt.Some? || lot.remaining <= 0 { return; }
    db.lots := db.lots[id := lot.(remaining := 0, closedAt := Some(now))];
    db.ExpireBonus(lot.wallet, id, amount);
  }

  /** The next batch of due lots, the one that ran out first first. */
  function DueBatch(lots: seq<Lot>, now: Time): (due: seq<LotId>)
    ensures Distinct(due) && |due| <= BATCH
    ensures forall k :: 0 <= k < |due| ==> due[k] < |lots| && DueOpen(lots[due[k]], now)
    ensures |due| < BATCH ==> forall i :: 0 <= i < |lots| && DueOpen(lots[i], now) ==> i in due
  {
    var all := ListFirst(lots, (lot: Lot) => DueOpen(lot, now), |lots|);
    if |all| <= BATCH then all else all[..BATCH]
  }

  /** One lot of the batch: what the tables are after its transaction. */
  method ExpireRead(db: CoinTables, id: LotId, now: Time)
    requires Agree(db.Tables()) && id < |db.lots| && DueOpen(db.lots[id], now)
    modifies db
    ensures Agree(db.Tables()) && db.wallets.Keys == old(db.wallets.Keys)
    ensures db.lots == old(db.lots)[id := Shut(old(db.lots)[id], now)]
    ensures DueCount(db.lots, now) == DueCount(old(db.lots), now) - 1
    ensures DueCoins(db.lots, now) == DueCoins(old(db.lots), now) - old(db.lots)[id].remaining
  {
    ShutCounts(db.lots, id, now);
    ExpireAgreesExactly(db.Tables(), id, db.lots[id].remaining, now);
    assert LotAgrees(db.Tables(), id);
    Expire(db, id, db.lots[id].remaining, now);
  }

  /** The first n lots of a batch are shut, all others untouched. */
  predicate BatchDone(was: seq<Lot>, lots: seq<Lot>, due: seq<LotId>, n: nat, now: Time)
    requires n <= |due| && Known(was, due)
  {
    && Swept(was, lots, now)
    && (forall j :: 0 <= j < n ==> lots[due[j]] == Shut(was[due[j]], now))
    && (forall j :: n <= j < |due| ==> lots[due[j]] == was[due[j]])
  }

  lemma BatchGoesOn(was: seq<Lot>, lots: seq<Lot>, due: seq<LotId>, n: nat, now: Time)
    requires n < |due| && Known(was, due) && Distinct(due) && BatchDone(was, lots, due, n, now)
    ensures BatchDone(was, lots[due[n] := Shut(lots[due[n]], now)], due, n + 1, now)
  {
  }

  method ExpireBatch(db: CoinTables, due: seq<LotId>, now: Time) returns (closed: nat, coins: int)
    requires Agree(db.Tables()) && Distinct(due)
    requires forall k :: 0 <= k < |due| ==> due[k] < |db.lots| && DueOpen(db.lots[due[k]], now)
    modifies db
    ensures Agree(db.Tables()) && db.wallets.Keys == old(db.wallets.Keys)
    ensures Swept(old(db.lots), db.lots, now)
    ensures forall k :: 0 <= k < |due| ==> db.lots[due[k]] == Shut(old(db.lots)[due[k]], now)
    ensures closed == |due| && DueCount(db.lots, now) == DueCount(old(db.lots), now) - closed
    ensures coins == DueCoins(old(db.lots), now) - DueCoins(db.lots, now)
  {
    closed, coins := 0, 0;
    ghost var was := db.lots;
    for k := 0 to |due|
      invariant Agree(db.Tables()) && db.wallets.Keys == old(db.wallets.Keys)
      invariant BatchDone(was, db.lots, due, k, now) && closed == k
      invariant DueCount(db.lots, now) == DueCount(was, now) - k
      invariant coins == DueCoins(was, now) - DueCoins(db.lots, now)
    {
      var read := db.lots[due[k]];
      BatchGoesOn(was, db.lots, due, k, now);
      ExpireRead(db, due[k], now);
      closed := closed + 1;
      coins := coins + read.remaining;
    }
  }

  /** Runs batches until none is full; `closed` and `coins` are the due lots and their Coins at the start. */
  method ExpireDue(db: CoinTables, now: Time) returns (closed: nat, coins: int)
    requires Agree(db.Tables())
    modifies db
    ensures Agree(db.Tables()) && db.wallets.Keys == old(db.wallets.Keys)
    ensures Swept(old(db.lots), db.lots, now)
    ensures forall i :: 0 <= i < |db.lots| ==> !DueOpen(db.lots[i], now)
    ensures forall w :: w in db.wallets ==> db.wallets[w].bonus == Held(old(db.lots), w, Some(now))
    ensures closed == DueCount(old(db.lots), now) && coins == DueCoins(old(db.lots), now)
  {
    closed, coins := 0, 0;
    var ended := false;
    while !ended
      invariant Agree(db.Tables()) && db.wallets.Keys == old(db.wallets.Keys)
      invariant Swept(old(db.lots), db.lots, now)
      invariant closed == DueCount(old(db.lots), now) - DueCount(db.lots, now)
      invariant coins == DueCoins(old(db.lots), now) - DueCoins(db.lots, now)
      invariant ended ==> forall i :: 0 <= i < |db.lots| ==> !DueOpen(db.lots[i], now)
      decreases !ended, DueCount(db.lots, now)
    {
      var due := DueBatch(db.lots, now);
      if |due| == 0 {
        ended := true;
      } else {
        var n, c := ExpireBatch(db, due, now);
        closed, coins := closed + n, coins + c;
        ended := |due| < BATCH;
      }
    }
    NothingDue(db.lots, now);
    AgreeIsSound(old(db.Tables()));
    forall w | w in db.wallets ensures db.wallets[w].bonus == Held(old(db.lots), w, Some(now)) {
      assert WalletAgrees(db.Tables(), w);
      SweptHeld(old(db.lots), db.lots, w, now);
    }
  }
}
