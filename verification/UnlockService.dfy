/** The purchase of an episode and the refunds of a removal, written on the tables. */
module UnlockService {
  import opened Prelude
  import opened CoinBook
  import opened CoinMoves
  import opened CoinService
  import opened Unlocks
  import opened Refunds

  class Library {
    var episodes: map<EpisodeId, Episode>
    var accesses: seq<Access>
    var bundles: seq<Bundle>
    var movies: map<MovieId, Series>
    var running: set<WalletId>
    const freeStarters: nat
    const lowestPrice: nat
    const coins: CoinTables

    ghost function TheShop(): Shop
      reads this, coins
    {
      Shop(coins.Tables(), movies, episodes, accesses, bundles, running, freeStarters, lowestPrice)
    }

    /** Nothing released, nothing bought, over tables in which no episode was ever paid for. */
    constructor (coins: CoinTables, freeStarters: nat, lowestPrice: nat)
      requires Agree(coins.Tables()) && forall k :: 0 <= k < |coins.ledger| ==> Neutral(coins.ledger[k])
      ensures ShopOk(TheShop()) && NoOverlap(TheShop()) && this.coins == coins && accesses == [] && bundles == [] && episodes == map[]
    {
      this.coins, this.freeStarters, this.lowestPrice := coins, freeStarters, lowestPrice;
      movies, episodes, accesses, bundles, running := map[], map[], [], [], {};
      new;
      NeutralRows([], coins.ledger);
      forall i: nat ensures ExpectedCount([], coins.ledger, i) {}
      forall k | 0 <= k < |coins.ledger| ensures RefundFits(coins.ledger[k], []) {}
    }

    /** How the wallet would cover a price right now. */
    method Afford(w: WalletId, amount: int, now: Time) returns (quote: Quote)
      requires Agree(coins.Tables()) && w in coins.wallets
      ensures quote == Affordability(coins.Tables(), w, amount, SpendableLots(coins.lots, w, now))
      ensures quote.enough <==> amount <= Purse(coins.Tables(), w, now)
      ensures quote.missing == Max(0, amount - Purse(coins.Tables(), w, now))
      ensures quote.splitMain + quote.splitBonus == Min(amount, Purse(coins.Tables(), w, now))
      ensures quote.splitMain <= quote.main && 0 <= quote.splitBonus <= quote.bonus
      ensures quote.splitBonus > 0 ==> quote.splitMain == quote.main
    {
      QuoteMeans(coins.Tables(), w, amount, SpendableLots(coins.lots, w, now), now);
      var wallet := coins.wallets[w];
      var bonus := BonusOf(coins.lots, SpendableLots(coins.lots, w, now));
      var (splitMain, splitBonus) := PlannedSplit(wallet.main, bonus, amount);
      return Quote(wallet.main, bonus, splitMain + splitBonus >= amount, Max(0, amount - wallet.main - bonus), splitMain, splitBonus);
    }

    /** Whether the member holds an unrevoked access to the episode. */
    method HasBought(w: WalletId, e: EpisodeId) returns (found: bool)
      ensures found == Owns(TheShop(), w, e)
    {
      for i := 0 to |accesses|
        invariant forall j :: 0 <= j < i ==> accesses[j].user != w || accesses[j].episode != e || accesses[j].revoked
      {
        if accesses[i].user == w && accesses[i].episode == e && !accesses[i].revoked { return true; }
      }
      return false;
    }

    method HasSeries(w: WalletId, m: MovieId) returns (found: bool)
      ensures found == OwnsSeries(TheShop(), w, m)
    {
      for i := 0 to |bundles|
        invariant forall j :: 0 <= j < i ==> bundles[j].user != w || bundles[j].movie != m
      {
        if bundles[i].user == w && bundles[i].movie == m { return true; }
      }
      return false;
    }

    method HasBoughtIn(w: WalletId, m: MovieId) returns (found: bool)
      ensures found == OwnsInSeries(TheShop(), w, m)
    {
      for i := 0 to |accesses|
        invariant forall j :: 0 <= j < i ==> !InSeries(TheShop(), accesses[j], w, m)
      {
        var a := accesses[i];
        if a.user == w && !a.revoked && a.episode in episodes && episodes[a.episode].movie == m { return true; }
      }
      return false;
    }

    method FindReplay(e: EpisodeId, w: WalletId, key: Option<Key>) returns (receipt: Option<Receipt>)
      ensures receipt.Some? <==> Repeats(TheShop(), e, w, key)
      ensures receipt.Some? ==> forall rows, now :: (forall k :: 0 <= k < |rows| ==> rows[k] < |coins.lots|) ==>
                Unlocks.Purchase(TheShop(), e, w, key, rows, now) == (TheShop(), Ok(receipt.value))
    {
      var row := coins.FindKey(key);
      if row.None? { return None; }
      var found := AccessOf(accesses, row.value);
      if found.None? { return None; }
      var access := accesses[found.value];
      if access.user != w || access.episode != e { return None; }
      var entry := coins.ledger[row.value];
      return Some(Receipt(access.paid, -entry.main, -entry.bonus, entry.mainAfter, entry.bonusAfter));
    }

    /** What stands against a purchase before any Coin is asked for. */
    method WhyNot(e: EpisodeId, w: WalletId) returns (refused: Option<Unlocks.Refusal>)
      ensures refused.None? <==> Buyable(TheShop(), e, w)
      ensures refused == (if !OnSale(TheShop(), e) then Some(NotPublished)
                          else if episodes[e].price.None? then Some(NotPriced)
                          else if !Buyable(TheShop(), e, w) then Some(AlreadyOwned)
                          else None)
    {
      if e !in episodes || !episodes[e].published { return Some(NotPublished); }
      var episode := episodes[e];
      if episode.price.None? { return Some(NotPriced); }
      if episode.number <= freeStarters || episode.price.value == 0 { return Some(AlreadyOwned); }
      var bought := HasBought(w, e);
      var inside := HasSeries(w, episode.movie);
      return if bought || inside || w in running then Some(AlreadyOwned) else None;
    }

    /** Unlocks one episode with Coins; refused, nothing is written. */
    method Purchase(e: EpisodeId, w: WalletId, key: Option<Key>, now: Time) returns (answer: Outcome<Receipt, Unlocks.Refusal>)
      requires ShopOk(TheShop()) && w in coins.wallets
      modifies this`accesses, coins
      ensures (TheShop(), answer)
              == Unlocks.Purchase(old(TheShop()), e, w, key, SpendableLots(old(coins.lots), w, now), now)
      ensures old(KeyIsOwn(TheShop(), e, w, key)) ==> ShopOk(TheShop())
    {
      ghost var rows := SpendableLots(coins.lots, w, now);
      if KeyIsOwn(TheShop(), e, w, key) {
        PurchaseKeeps(TheShop(), e, w, key, rows, now);
      }
      var replayed := FindReplay(e, w, key);
      if replayed.Some? { return Ok(replayed.value); }
      var refused := WhyNot(e, w);
      if refused.Some? { return Err(refused.value); }
      answer := Sell(e, w, episodes[e].price.value, key, now);
    }

    /** One transaction: the charge and the access, or neither. */
    method Sell(e: EpisodeId, w: WalletId, price: nat, key: Option<Key>, now: Time)
      returns (answer: Outcome<Receipt, Unlocks.Refusal>)
      requires Agree(coins.Tables())
      modifies this`accesses, coins
      ensures var rows := SpendableLots(old(coins.lots), w, now);
              var (after, paid) := CoinBook.Spend(old(coins.Tables()), w, PurchaseRequest(price, key), rows, now);
              if paid.Ok? && AccessOf(old(accesses), paid.value.transaction).None? then
                && coins.Tables() == after && accesses == old(accesses) + [Access(w, e, price, paid.value.transaction, false)]
                && answer == Ok(Receipt(price, paid.value.main, paid.value.bonus, paid.value.mainBalance, paid.value.bonusBalance))
              else
                && coins.Tables() == old(coins.Tables()) && accesses == old(accesses)
                && answer == Err(if paid.Ok? then RowTaken else NotCharged(paid.error))
    {
      var wallets, lots, ledger := coins.wallets, coins.lots, coins.ledger;
      var charged := coins.Spend(w, SpendRequest(Cause(EpisodePurchase, None, None), price, key), now);
      match charged
      case Err(why) =>
        coins.wallets, coins.lots, coins.ledger := wallets, lots, ledger;
        return Err(NotCharged(why));
      case Ok(m) =>
        var taken := AccessOf(accesses, m.transaction);
        if taken.Some? {
          // The unique index refuses the access, which undoes the transaction.
          coins.wallets, coins.lots, coins.ledger := wallets, lots, ledger;
          return Err(RowTaken);
        }
        accesses := accesses + [Access(w, e, price, m.transaction, false)];
        return Ok(Receipt(price, m.main, m.bonus, m.mainBalance, m.bonusBalance));
    }

    method FindSeriesReplay(m: MovieId, w: WalletId, key: Option<Key>) returns (receipt: Option<Receipt>)
      ensures receipt.Some? <==> RepeatsSeries(TheShop(), m, w, key)
      ensures receipt.Some? ==> forall rows, now :: (forall k :: 0 <= k < |rows| ==> rows[k] < |coins.lots|) ==>
                Unlocks.PurchaseSeries(TheShop(), m, w, key, rows, now) == (TheShop(), Ok(receipt.value))
    {
      var row := coins.FindKey(key);
      if row.None? { return None; }
      var found := BundleOf(bundles, row.value);
      if found.None? { return None; }
      var bundle := bundles[found.value];
      if bundle.user != w || bundle.movie != m { return None; }
      var entry := coins.ledger[row.value];
      return Some(Receipt(bundle.paid, -entry.main, -entry.bonus, entry.mainAfter, entry.bonusAfter));
    }

    /** Unlocks a whole series with Coins; refused, nothing is written. */
    method PurchaseSeries(m: MovieId, w: WalletId, key: Option<Key>, now: Time) returns (answer: Outcome<Receipt, Unlocks.Refusal>)
      requires ShopOk(TheShop()) && w in coins.wallets
      modifies this`bundles, coins
      ensures (TheShop(), answer)
              == Unlocks.PurchaseSeries(old(TheShop()), m, w, key, SpendableLots(old(coins.lots), w, now), now)
      ensures !KeyUsed(old(coins.ledger), key) || old(RepeatsSeries(TheShop(), m, w, key)) ==> ShopOk(TheShop())
    {
      ghost var rows := SpendableLots(coins.lots, w, now);
      if !KeyUsed(coins.ledger, key) || RepeatsSeries(TheShop(), m, w, key) {
        SeriesKeeps(TheShop(), m, w, key, rows, now);
      }
      var replayed := FindSeriesReplay(m, w, key);
      if replayed.Some? { return Ok(replayed.value); }
      if m !in movies || movies[m].price.None? { return Err(NotSold); }
      var inside := HasSeries(w, m);
      var bought := HasBoughtIn(w, m);
      if inside || w in running || bought { return Err(AlreadyOwned); }
      answer := SellSeries(m, w, movies[m].price.value, key, now);
    }

    /** One transaction: the charge and the bundle, or neither. */
    method SellSeries(m: MovieId, w: WalletId, price: nat, key: Option<Key>, now: Time)
      returns (answer: Outcome<Receipt, Unlocks.Refusal>)
      requires Agree(coins.Tables())
      modifies this`bundles, coins
      ensures var rows := SpendableLots(old(coins.lots), w, now);
              var (after, paid) := CoinBook.Spend(old(coins.Tables()), w, SeriesRequest(price, key), rows, now);
              if paid.Ok? && BundleOf(old(bundles), paid.value.transaction).None? then
                && coins.Tables() == after && bundles == old(bundles) + [Bundle(w, m, price, paid.value.transaction)]
                && answer == Ok(Receipt(price, paid.value.main, paid.value.bonus, paid.value.mainBalance, paid.value.bonusBalance))
              else
                && coins.Tables() == old(coins.Tables()) && bundles == old(bundles)
                && answer == Err(if paid.Ok? then RowTaken else NotCharged(paid.error))
    {
      var wallets, lots, ledger := coins.wallets, coins.lots, coins.ledger;
      var charged := coins.Spend(w, SpendRequest(Cause(EntryKind.SeriesPurchase, None, None), price, key), now);
      match charged
      case Err(why) =>
        coins.wallets, coins.lots, coins.ledger := wallets, lots, ledger;
        return Err(NotCharged(why));
      case Ok(mv) =>
        var taken := BundleOf(bundles, mv.transaction);
        if taken.Some? {
          // The unique index refuses the bundle, which undoes the transaction.
          coins.wallets, coins.lots, coins.ledger := wallets, lots, ledger;
          return Err(RowTaken);
        }
        bundles := bundles + [Bundle(w, m, price, mv.transaction)];
        return Ok(Receipt(price, mv.main, mv.bonus, mv.mainBalance, mv.bonusBalance));
    }

    /** Pays one purchase back into main Coins and revokes it. */
    method RefundAccess(i: nat, now: Time)
      requires ShopOk(TheShop()) && i < |accesses| && !accesses[i].revoked
      modifies this`accesses, coins
      ensures TheShop() == RefundOne(old(TheShop()), i, now) && ShopOk(TheShop())
    {
      RefundKeeps(TheShop(), i, now);
      var access := accesses[i];
      if access.paid > 0 {
        var movement := coins.Credit(access.user, CreditRequest(Cause(Refund, Some(i), Some(access.row)), access.paid, 0, 0, None), now);
      }
      accesses := accesses[i := access.(revoked := true)];
    }

    method RefundEach(due: seq<nat>, now: Time)
      requires ShopOk(TheShop())
      requires forall k :: 0 <= k < |due| ==> due[k] < |accesses| && !accesses[due[k]].revoked
      requires forall j, k :: 0 <= j < k < |due| ==> due[j] < due[k]
      modifies this`accesses, coins
      ensures TheShop() == RefundList(old(TheShop()), due, now) && ShopOk(TheShop())
    {
      ghost var was := TheShop();
      for k := 0 to |due|
        invariant ShopOk(TheShop())
        invariant forall j :: k <= j < |due| ==> due[j] < |accesses| && !accesses[due[j]].revoked
        invariant RefundList(TheShop(), due[k..], now) == RefundList(was, due, now)
      {
        assert due[k..][1..] == due[k + 1..];
        RefundAccess(due[k], now);
      }
    }

    /** Pays back every member who bought an episode that is taken down for good; returns how many. */
    method RefundEpisodeRemoval(e: EpisodeId, now: Time) returns (count: nat)
      requires ShopOk(TheShop())
      modifies this`accesses, coins
      ensures TheShop() == RefundAll(old(TheShop()), e, now) && ShopOk(TheShop())
      ensures |accesses| == |old(accesses)|
      ensures forall i :: 0 <= i < |accesses| ==>
                accesses[i] == if old(accesses)[i].episode == e then old(accesses)[i].(revoked := true) else old(accesses)[i]
      ensures PaidBack(coins.ledger) - old(PaidBack(coins.ledger)) == RevokedPrices(accesses) - RevokedPrices(old(accesses))
      ensures count == |DueIds(old(accesses), e, |old(accesses)|)|
    {
      ghost var was := TheShop();
      RefundAllKeeps(was, e, now);
      var due := DueIds(accesses, e, |accesses|);
      RefundEach(due, now);
      assert TheShop() == RefundAll(was, e, now);
      return |due|;
    }

    /** The take-down for good, with its refunds in the same transaction. */
    method RemoveEpisode(e: EpisodeId, refundOnRemoval: bool, now: Time)
      requires ShopOk(TheShop()) && OnSale(TheShop(), e)
      modifies this`episodes, this`accesses, coins
      ensures TheShop() == Remove(old(TheShop()), e, refundOnRemoval, now) && ShopOk(TheShop())
    {
      RemoveKeeps(TheShop(), e, refundOnRemoval, now);
      episodes := episodes[e := episodes[e].(published := false)];
      if refundOnRemoval {
        var count := RefundEpisodeRemoval(e, now);
      }
    }
  }
}
