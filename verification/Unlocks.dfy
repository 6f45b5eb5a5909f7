/**
 * Who may watch an episode and what unlocking it costs: the access decision, the quote, the purchase of
 * one episode or of a whole series, and what a key sent before does to them.
 */
module Unlocks {
  import opened Prelude
  import opened CoinBook
  import opened CoinBookProofs
  import opened CoinMoves

  type EpisodeId = nat
  type MovieId = nat

  /** A price is never negative; a row may predate its price. */
  datatype Episode = Episode(movie: MovieId, number: nat, published: bool, price: Option<nat>)

  /** One bought episode: who paid, how much, the ledger row of the payment, and whether it was taken back. */
  datatype Access = Access(user: WalletId, episode: EpisodeId, paid: nat, row: nat, revoked: bool)

  /** One bought series; nothing takes it back. */
  datatype Bundle = Bundle(user: WalletId, movie: MovieId, paid: nat, row: nat)

  /** A movie that is not cancelled, with the price of the whole series if it is sold as one. */
  datatype Series = Series(price: Option<nat>)

  /** Everything the decision reads; members are named by their wallet. */
  datatype Shop = Shop(book: Book, movies: map<MovieId, Series>, episodes: map<EpisodeId, Episode>, accesses: seq<Access>,
                       bundles: seq<Bundle>, running: set<WalletId>, freeStarters: nat, lowestPrice: nat)

  // ---------------------------------------------------------------------------------------------
  // Quote and decision
  // ---------------------------------------------------------------------------------------------

  datatype Quote = Quote(main: int, bonus: int, enough: bool, missing: int, splitMain: int, splitBonus: int)

  /** Main part and bonus part of an amount; short of the amount when the two balances are. */
  function PlannedSplit(main: int, bonus: int, amount: int): (int, int) {
    var fromMain := Min(main, amount);
    (fromMain, Min(bonus, amount - fromMain))
  }

  /** `rows` are the lots whose Coins the balance query adds up. */
  function Affordability(b: Book, w: WalletId, amount: int, rows: seq<LotId>): Quote
    requires w in b.wallets && forall k :: 0 <= k < |rows| ==> rows[k] < |b.lots|
  {
    var main := b.wallets[w].main;
    var bonus := BonusOf(b.lots, rows);
    var (splitMain, splitBonus) := PlannedSplit(main, bonus, amount);
    Quote(main, bonus, splitMain + splitBonus >= amount, Max(0, amount - main - bonus), splitMain, splitBonus)
  }

  /** The quote says what the wallet can pay at this moment, whatever is asked of it. */
  lemma QuoteMeans(b: Book, w: WalletId, amount: int, rows: seq<LotId>, now: Time)
    requires Agree(b) && w in b.wallets && IsSelection(b.lots, w, now, rows)
    ensures var q := Affordability(b, w, amount, rows);
            && (q.enough <==> amount <= Purse(b, w, now))
            && q.missing == Max(0, amount - Purse(b, w, now))
            && q.splitMain + q.splitBonus == Min(amount, Purse(b, w, now))
            && q.splitMain <= q.main == b.wallets[w].main && 0 <= q.splitBonus <= q.bonus == Held(b.lots, w, Some(now))
            && (q.splitBonus > 0 ==> q.splitMain == q.main)
  {
    AgreeIsSound(b);
    SelectionSum(b.lots, w, now, rows);
    HeldNonNegative(b.lots, w, Some(now));
  }

  datatype Ground = FreeStarter | Free | RunningPlan | BoughtEpisode | BoughtSeries

  datatype Decision = NotFound | Granted(ground: Ground) | AskToLogIn | Refused(price: nat, quote: Quote)

  predicate Owns(s: Shop, w: WalletId, e: EpisodeId) {
    exists i :: 0 <= i < |s.accesses| && s.accesses[i].user == w && s.accesses[i].episode == e && !s.accesses[i].revoked
  }

  predicate OwnsSeries(s: Shop, w: WalletId, m: MovieId) {
    exists i :: 0 <= i < |s.bundles| && s.bundles[i].user == w && s.bundles[i].movie == m
  }

  predicate OnSale(s: Shop, e: EpisodeId) {
    e in s.episodes && s.episodes[e].published
  }

  predicate IsFree(s: Shop, e: EpisodeId, price: nat)
    requires e in s.episodes
  {
    s.episodes[e].number <= s.freeStarters || price == 0
  }

  /** The first ground that opens the episode to this caller, or the quote for it. */
  function Decide(s: Shop, e: EpisodeId, user: Option<WalletId>, rows: seq<LotId>): Decision
    requires user.Some? ==> user.value in s.book.wallets
    requires forall k :: 0 <= k < |rows| ==> rows[k] < |s.book.lots|
  {
    if !OnSale(s, e) then NotFound
    else
      var price := if s.episodes[e].price.Some? then s.episodes[e].price.value else s.lowestPrice;
      if s.episodes[e].number <= s.freeStarters then Granted(FreeStarter)
      else if price == 0 then Granted(Free)
      else if user.None? then AskToLogIn
      else if user.value in s.running then Granted(RunningPlan)
      else if Owns(s, user.value, e) then Granted(BoughtEpisode)
      else if OwnsSeries(s, user.value, s.episodes[e].movie) then Granted(BoughtSeries)
      else Refused(price, Affordability(s.book, user.value, price, rows))
  }

  /** What the caller is asked to pay: the episode's price, or the lowest one while it has none. */
  function ShownPrice(s: Shop, e: EpisodeId): nat
    requires e in s.episodes
  {
    if s.episodes[e].price.Some? then s.episodes[e].price.value else s.lowestPrice
  }

  predicate StandsOpen(s: Shop, e: EpisodeId, w: WalletId)
    requires e in s.episodes
  {
    IsFree(s, e, ShownPrice(s, e)) || w in s.running || Owns(s, w, e) || OwnsSeries(s, w, s.episodes[e].movie)
  }

  /**
   * Who may watch. Access is granted exactly for an episode on air that is free to everybody or that this
   * member has a plan, an access or a bundle for, and the ground named is one that holds. A caller without
   * an account is otherwise asked to log in, and a member is shown the price and what the wallet covers.
   */
  lemma DecisionMeans(s: Shop, e: EpisodeId, user: Option<WalletId>, rows: seq<LotId>)
    requires user.Some? ==> user.value in s.book.wallets
    requires forall k :: 0 <= k < |rows| ==> rows[k] < |s.book.lots|
    ensures var d := Decide(s, e, user, rows);
            && (d.NotFound? <==> !OnSale(s, e))
            && (d.Granted? <==> OnSale(s, e) && (IsFree(s, e, ShownPrice(s, e)) || (user.Some? && StandsOpen(s, e, user.value))))
            && (d.AskToLogIn? <==> OnSale(s, e) && user.None? && !IsFree(s, e, ShownPrice(s, e)))
            && (d.Refused? ==> user.Some? && d.price == ShownPrice(s, e)
                               && d.quote == Affordability(s.book, user.value, ShownPrice(s, e), rows))
            && (d.Granted? ==> GroundHolds(s, e, user, d.ground))
  {
  }

  /** A ground is named only where it holds, and one that costs nothing before one that was paid for. */
  predicate GroundHolds(s: Shop, e: EpisodeId, user: Option<WalletId>, ground: Ground)
    requires e in s.episodes
  {
    var free := IsFree(s, e, ShownPrice(s, e));
    match ground
    case FreeStarter => s.episodes[e].number <= s.freeStarters
    case Free => s.episodes[e].number > s.freeStarters && ShownPrice(s, e) == 0
    case RunningPlan => !free && user.Some? && user.value in s.running
    case BoughtEpisode => !free && user.Some? && user.value !in s.running && Owns(s, user.value, e)
    case BoughtSeries =>
      !free && user.Some? && user.value !in s.running && !Owns(s, user.value, e)
      && OwnsSeries(s, user.value, s.episodes[e].movie)
  }

  /** A guest sees what any member without a plan, an access or a bundle of the series sees, but for the quote. */
  lemma GuestSeesTheSame(s: Shop, e: EpisodeId, w: WalletId, rows: seq<LotId>)
    requires w in s.book.wallets && forall k :: 0 <= k < |rows| ==> rows[k] < |s.book.lots|
    requires w !in s.running && !Owns(s, w, e) && (e in s.episodes ==> !OwnsSeries(s, w, s.episodes[e].movie))
    ensures var guest, member := Decide(s, e, None, rows), Decide(s, e, Some(w), rows);
            if member.Refused? then guest.AskToLogIn? else guest == member
  {
  }

  // ---------------------------------------------------------------------------------------------
  // Purchase
  // ---------------------------------------------------------------------------------------------

  datatype Receipt = Receipt(paid: nat, main: int, bonus: int, mainBalance: int, bonusBalance: int)

  datatype Refusal = NotPublished | NotPriced | NotSold | AlreadyOwned | RowTaken | NotCharged(why: CoinBook.Refusal)

  /** The item bought by a ledger row. */
  function BoughtBy<T>(items: seq<T>, rowOf: T -> nat, row: nat): (found: Option<nat>)
    ensures found.Some? ==> found.value < |items| && rowOf(items[found.value]) == row
    ensures found.None? ==> forall i :: 0 <= i < |items| ==> rowOf(items[i]) != row
  {
    if items == [] then None
    else if rowOf(items[|items| - 1]) == row then Some(|items| - 1)
    else BoughtBy(items[..|items| - 1], rowOf, row)
  }

  function AccessRow(a: Access): nat {
    a.row
  }

  function BundleRow(b: Bundle): nat {
    b.row
  }

  /** The access a ledger row paid for. */
  function AccessOf(accesses: seq<Access>, row: nat): Option<nat> {
    BoughtBy(accesses, AccessRow, row)
  }

  /** Every payment an access or a bundle names is in the ledger. */
  predicate RowsKnown(s: Shop) {
    && (forall i :: 0 <= i < |s.accesses| ==> s.accesses[i].row < |s.book.ledger|)
    && (forall i :: 0 <= i < |s.bundles| ==> s.bundles[i].row < |s.book.ledger|)
  }

  /** A key of the same purchase sent before: its row paid for this member's access to this episode. */
  predicate Repeats(s: Shop, e: EpisodeId, w: WalletId, key: Option<Key>) {
    && KeyUsed(s.book.ledger, key)
    && var found := AccessOf(s.accesses, KeyRow(s.book.ledger, key));
       found.Some? && s.accesses[found.value].user == w && s.accesses[found.value].episode == e
  }

  function PurchaseRequest(price: nat, key: Option<Key>): SpendRequest {
    SpendRequest(Cause(EpisodePurchase, None, None), price, key)
  }

  predicate Buyable(s: Shop, e: EpisodeId, w: WalletId) {
    && OnSale(s, e) && s.episodes[e].price.Some? && !IsFree(s, e, s.episodes[e].price.value)
    && !Owns(s, w, e) && !OwnsSeries(s, w, s.episodes[e].movie) && w !in s.running
  }

  function Purchase(s: Shop, e: EpisodeId, w: WalletId, key: Option<Key>, rows: seq<LotId>, now: Time): (Shop, Outcome<Receipt, Refusal>)
    requires forall k :: 0 <= k < |rows| ==> rows[k] < |s.book.lots|
  {
    if Repeats(s, e, w, key) then
      var r := Replayed(s.book.ledger, key);
      var i := AccessOf(s.accesses, KeyRow(s.book.ledger, key)).value;
      (s, Ok(Receipt(s.accesses[i].paid, r.main, r.bonus, r.mainBalance, r.bonusBalance)))
    else if !OnSale(s, e) then (s, Err(NotPublished))
    else if s.episodes[e].price.None? then (s, Err(NotPriced))
    else if !Buyable(s, e, w) then (s, Err(AlreadyOwned))
    else
      var price := s.episodes[e].price.value;
      var (after, answer) := Spend(s.book, w, PurchaseRequest(price, key), rows, now);
      match answer
      case Err(why) => (s, Err(NotCharged(why)))
      case Ok(m) =>
        // The row of a payment may stand on one access only; the index undoes the whole call.
        if AccessOf(s.accesses, m.transaction).Some? then (s, Err(RowTaken))
        else (s.(book := after, accesses := s.accesses + [Access(w, e, price, m.transaction, false)]),
              Ok(Receipt(price, m.main, m.bonus, m.mainBalance, m.bonusBalance)))
  }

  /** Any unrevoked access to an episode of the movie. */
  predicate OwnsInSeries(s: Shop, w: WalletId, m: MovieId) {
    exists i :: 0 <= i < |s.accesses| && InSeries(s, s.accesses[i], w, m)
  }

  predicate InSeries(s: Shop, a: Access, w: WalletId, m: MovieId) {
    a.user == w && !a.revoked && a.episode in s.episodes && s.episodes[a.episode].movie == m
  }

  function BundleOf(bundles: seq<Bundle>, row: nat): Option<nat> {
    BoughtBy(bundles, BundleRow, row)
  }

  predicate RepeatsSeries(s: Shop, m: MovieId, w: WalletId, key: Option<Key>) {
    && KeyUsed(s.book.ledger, key)
    && var found := BundleOf(s.bundles, KeyRow(s.book.ledger, key));
       found.Some? && s.bundles[found.value].user == w && s.bundles[found.value].movie == m
  }

  predicate SoldAsSeries(s: Shop, m: MovieId) {
    m in s.movies && s.movies[m].price.Some?
  }

  predicate SeriesBuyable(s: Shop, m: MovieId, w: WalletId) {
    SoldAsSeries(s, m) && !OwnsSeries(s, w, m) && w !in s.running && !OwnsInSeries(s, w, m)
  }

  function SeriesRequest(price: nat, key: Option<Key>): SpendRequest {
    SpendRequest(Cause(SeriesPurchase, None, None), price, key)
  }

  /** The whole series at once; a member already inside the movie buys no bundle. */
  function PurchaseSeries(s: Shop, m: MovieId, w: WalletId, key: Option<Key>, rows: seq<LotId>, now: Time)
    : (Shop, Outcome<Receipt, Refusal>)
    requires forall k :: 0 <= k < |rows| ==> rows[k] < |s.book.lots|
  {
    if RepeatsSeries(s, m, w, key) then
      var r := Replayed(s.book.ledger, key);
      var i := BundleOf(s.bundles, KeyRow(s.book.ledger, key)).value;
      (s, Ok(Receipt(s.bundles[i].paid, r.main, r.bonus, r.mainBalance, r.bonusBalance)))
    else if !SoldAsSeries(s, m) then (s, Err(NotSold))
    else if !SeriesBuyable(s, m, w) then (s, Err(AlreadyOwned))
    else
      var price := s.movies[m].price.value;
      var (after, answer) := Spend(s.book, w, SeriesRequest(price, key), rows, now);
      match answer
      case Err(why) => (s, Err(NotCharged(why)))
      case Ok(mv) =>
        if BundleOf(s.bundles, mv.transaction).Some? then (s, Err(RowTaken))
        else (s.(book := after, bundles := s.bundles + [Bundle(w, m, price, mv.transaction)]),
              Ok(Receipt(price, mv.main, mv.bonus, mv.mainBalance, mv.bonusBalance)))
  }

  /**
   * A bundle under a fresh key is sold exactly when the movie is sold as a series, the member has nothing
   * of it yet and the Coins cover it. It opens every published episode of the movie, and none of them can
   * be bought again.
   */
  lemma SeriesOpensItsEpisodes(s: Shop, m: MovieId, w: WalletId, key: Option<Key>, rows: seq<LotId>, now: Time,
                               e: EpisodeId, again: Option<Key>, later: seq<LotId>, laterOn: Time)
    requires Agree(s.book) && w in s.book.wallets && IsSelection(s.book.lots, w, now, rows) && !KeyUsed(s.book.ledger, key)
    requires RowsKnown(s)
    ensures var (after, answer) := PurchaseSeries(s, m, w, key, rows, now);
            && (answer.Ok? <==> && SoldAsSeries(s, m) && 0 < s.movies[m].price.value <= Purse(s.book, w, now)
                                && !OwnsSeries(s, w, m) && !OwnsInSeries(s, w, m) && w !in s.running)
            && (answer.Err? ==> after == s)
            && (answer.Ok? && OnSale(s, e) && s.episodes[e].movie == m
                && w in after.book.wallets && (forall k :: 0 <= k < |later| ==> later[k] < |after.book.lots|) ==>
                  && Decide(after, e, Some(w), later).Granted?
                  && (!Repeats(after, e, w, again) ==> Purchase(after, e, w, again, later, laterOn).1.Err?
                                                       && Purchase(after, e, w, again, later, laterOn).0 == after))
  {
    if SoldAsSeries(s, m) {
      SpendVerdict(s.book, w, SeriesRequest(s.movies[m].price.value, key), rows, now);
    }
    var (after, answer) := PurchaseSeries(s, m, w, key, rows, now);
    if answer.Ok? {
      assert after.bundles[|s.bundles|].user == w && OwnsSeries(after, w, m);
    }
  }

  /**
   * Quote, decision and charge agree at one instant. For a member, a priced episode and a fresh key, the
   * purchase goes through exactly when the decision refuses access and says the Coins are enough; it
   * then takes exactly the planned split, and the decision grants afterwards. When the Coins are not
   * enough, the shortfall it showed is the one the charge reports.
   */
  lemma QuoteDecisionAndChargeAgree(s: Shop, e: EpisodeId, w: WalletId, key: Option<Key>, rows: seq<LotId>, now: Time)
    requires Agree(s.book) && w in s.book.wallets && IsSelection(s.book.lots, w, now, rows) && !KeyUsed(s.book.ledger, key)
    requires RowsKnown(s)
    requires e in s.episodes && s.episodes[e].price.Some?
    ensures var d := Decide(s, e, Some(w), rows);
            var (after, answer) := Purchase(s, e, w, key, rows, now);
            && (answer.Ok? <==> d.Refused? && d.quote.enough)
            && (answer.Ok? ==> answer.value.main == d.quote.splitMain && answer.value.bonus == d.quote.splitBonus
                               && answer.value.paid == d.price && w in after.book.wallets
                               && after.book.wallets[w].main == s.book.wallets[w].main - d.quote.splitMain
                               && after.book.wallets[w].bonus == s.book.wallets[w].bonus - d.quote.splitBonus)
            && (d.Refused? && !d.quote.enough ==>
                  after == s && answer == Err(NotCharged(Insufficient(d.price, d.quote.main, d.quote.bonus, d.quote.missing))))
    ensures var (after, answer) := Purchase(s, e, w, key, rows, now);
            answer.Ok? ==> forall later :: (forall k :: 0 <= k < |later| ==> later[k] < |after.book.lots|) && w in after.book.wallets ==>
                                             Decide(after, e, Some(w), later) == Granted(BoughtEpisode)
  {
    if Buyable(s, e, w) {
      var rq := PurchaseRequest(s.episodes[e].price.value, key);
      SpendVerdict(s.book, w, rq, rows, now);
      AgreeIsSound(s.book);
      SelectionSum(s.book.lots, w, now, rows);
      HeldNonNegative(s.book.lots, w, Some(now));
      assert WalletAgrees(s.book, w);
      var (after, answer) := Purchase(s, e, w, key, rows, now);
      if answer.Ok? {
        SpendEffect(s.book, w, rq, rows, now);
        assert after.accesses[|s.accesses|].user == w && Owns(after, w, e);
      }
    }
  }

  /** A purchase that goes through takes Coins exactly when its key was not in the ledger before. */
  lemma PurchaseChargesExactly(s: Shop, e: EpisodeId, w: WalletId, key: Option<Key>, rows: seq<LotId>, now: Time)
    requires Agree(s.book) && IsSelection(s.book.lots, w, now, rows)
    requires Purchase(s, e, w, key, rows, now).1.Ok?
    ensures Purchase(s, e, w, key, rows, now).0.book != s.book <==> !KeyUsed(s.book.ledger, key)
  {
    if !KeyUsed(s.book.ledger, key) {
      SpendEffect(s.book, w, PurchaseRequest(s.episodes[e].price.value, key), rows, now);
    }
  }

  /**
   * What a purchase that is no repetition is refused for. An episode counts as owned already exactly when
   * the decision grants it, so nobody pays for what is open and nobody is turned away as an owner of what
   * is not.
   */
  lemma PurchaseRefusals(s: Shop, e: EpisodeId, w: WalletId, key: Option<Key>, rows: seq<LotId>, now: Time)
    requires Agree(s.book) && w in s.book.wallets && IsSelection(s.book.lots, w, now, rows) && !Repeats(s, e, w, key)
    requires RowsKnown(s)
    ensures var (after, answer) := Purchase(s, e, w, key, rows, now);
            && (answer.Err? ==> after == s)
            && (answer == Err(NotPublished) <==> Decide(s, e, Some(w), rows).NotFound?)
            && (answer == Err(NotPriced) <==> OnSale(s, e) && s.episodes[e].price.None?)
            && (answer == Err(AlreadyOwned) <==> OnSale(s, e) && s.episodes[e].price.Some? && Decide(s, e, Some(w), rows).Granted?)
            && (answer == Err(RowTaken) ==> KeyUsed(s.book.ledger, key))
            && answer != Err(NotSold)
  {
    if Buyable(s, e, w) {
      var rq := PurchaseRequest(s.episodes[e].price.value, key);
      if !KeyUsed(s.book.ledger, key) && Spend(s.book, w, rq, rows, now).1.Ok? {
        SpendEffect(s.book, w, rq, rows, now);
      }
    }
  }

  /**
   * Buying twice under one key: the second call finds the access of the first, changes nothing and shows
   * the same price and the same main part; the whole receipt is the same exactly when main Coins paid all.
   */
  lemma PurchaseTwice(s: Shop, e: EpisodeId, w: WalletId, key: Option<Key>, rows: seq<LotId>, now: Time,
                      again: seq<LotId>, later: Time)
    requires Agree(s.book) && IsSelection(s.book.lots, w, now, rows) && !KeyUsed(s.book.ledger, key) && key.Some?
    requires RowsKnown(s) && Purchase(s, e, w, key, rows, now).1.Ok?
    requires forall k :: 0 <= k < |again| ==> again[k] < |Purchase(s, e, w, key, rows, now).0.book.lots|
    ensures var (once, first) := Purchase(s, e, w, key, rows, now);
            var (twice, second) := Purchase(once, e, w, key, again, later);
            && twice == once && second.Ok?
            && first.value.paid == first.value.main + first.value.bonus == s.episodes[e].price.value
            && second.value.paid == first.value.paid && second.value.main == first.value.main
            && (second == first <==> s.episodes[e].price.value <= s.book.wallets[w].main)
  {
    var rq := PurchaseRequest(s.episodes[e].price.value, key);
    var once := Purchase(s, e, w, key, rows, now).0;
    SpendEffect(s.book, w, rq, rows, now);
    KeyedRow(s.book, w, rq, rows, now);
    NewestFound(s.accesses, AccessRow, once.accesses[|s.accesses|]);
  }

  lemma NewestFound<T>(items: seq<T>, rowOf: T -> nat, item: T)
    ensures BoughtBy(items + [item], rowOf, rowOf(item)) == Some(|items|)
  {
  }

  /** The same for a bundle, which costs the series' price at that moment. */
  lemma SeriesTwice(s: Shop, m: MovieId, w: WalletId, key: Option<Key>, rows: seq<LotId>, now: Time,
                    again: seq<LotId>, later: Time)
    requires Agree(s.book) && IsSelection(s.book.lots, w, now, rows) && !KeyUsed(s.book.ledger, key) && key.Some?
    requires RowsKnown(s) && PurchaseSeries(s, m, w, key, rows, now).1.Ok?
    requires forall k :: 0 <= k < |again| ==> again[k] < |PurchaseSeries(s, m, w, key, rows, now).0.book.lots|
    ensures var (once, first) := PurchaseSeries(s, m, w, key, rows, now);
            var (twice, second) := PurchaseSeries(once, m, w, key, again, later);
            && twice == once && second.Ok?
            && first.value.paid == first.value.main + first.value.bonus == s.movies[m].price.value
            && once.bundles == s.bundles + [Bundle(w, m, first.value.paid, |s.book.ledger|)]
            && second.value.paid == first.value.paid && second.value.main == first.value.main
            && (second == first <==> s.movies[m].price.value <= s.book.wallets[w].main)
  {
    var rq := SeriesRequest(s.movies[m].price.value, key);
    var once := PurchaseSeries(s, m, w, key, rows, now).0;
    SpendEffect(s.book, w, rq, rows, now);
    KeyedRow(s.book, w, rq, rows, now);
    NewestFound(s.bundles, BundleRow, once.bundles[|s.bundles|]);
  }

  predicate HoldsEpisodeOf(s: Shop, w: WalletId, m: MovieId) {
    exists e :: e in s.episodes && s.episodes[e].movie == m && Owns(s, w, e)
  }

  /** What a bundle that is no repetition is refused for; a purchase that was paid back does not count. */
  lemma SeriesRefusals(s: Shop, m: MovieId, w: WalletId, key: Option<Key>, rows: seq<LotId>, now: Time)
    requires Agree(s.book) && IsSelection(s.book.lots, w, now, rows) && !RepeatsSeries(s, m, w, key) && RowsKnown(s)
    ensures var (after, answer) := PurchaseSeries(s, m, w, key, rows, now);
            && (answer.Err? ==> after == s)
            && (answer == Err(NotSold) <==> !SoldAsSeries(s, m))
            && (answer == Err(AlreadyOwned) <==>
                  SoldAsSeries(s, m) && (w in s.running || OwnsSeries(s, w, m) || HoldsEpisodeOf(s, w, m)))
            && (answer == Err(RowTaken) ==> KeyUsed(s.book.ledger, key))
            && answer != Err(NotPublished) && answer != Err(NotPriced)
  {
    if OwnsInSeries(s, w, m) {
      var i :| 0 <= i < |s.accesses| && InSeries(s, s.accesses[i], w, m);
      assert Owns(s, w, s.accesses[i].episode);
    }
    if HoldsEpisodeOf(s, w, m) {
      var e :| e in s.episodes && s.episodes[e].movie == m && Owns(s, w, e);
      var i :| 0 <= i < |s.accesses| && s.accesses[i].user == w && s.accesses[i].episode == e && !s.accesses[i].revoked;
      assert InSeries(s, s.accesses[i], w, m);
    }
    if SeriesBuyable(s, m, w) {
      var rq := SeriesRequest(s.movies[m].price.value, key);
      if !KeyUsed(s.book.ledger, key) && Spend(s.book, w, rq, rows, now).1.Ok? {
        SpendEffect(s.book, w, rq, rows, now);
      }
    }
  }

  // ---------------------------------------------------------------------------------------------
  // Keys that were used before
  // ---------------------------------------------------------------------------------------------

  /**
   * A repeated purchase is always answered with success and changes nothing. The decision agrees with
   * that answer exactly when the episode is on air and the repeated access still stands or something
   * else opens it.
   */
  lemma RepeatedPurchaseExactly(s: Shop, e: EpisodeId, w: WalletId, key: Option<Key>, rows: seq<LotId>, now: Time)
    requires w in s.book.wallets && Repeats(s, e, w, key) && forall k :: 0 <= k < |rows| ==> rows[k] < |s.book.lots|
    ensures var a := s.accesses[AccessOf(s.accesses, KeyRow(s.book.ledger, key)).value];
            && Purchase(s, e, w, key, rows, now).0 == s && Purchase(s, e, w, key, rows, now).1.Ok?
            && Purchase(s, e, w, key, rows, now).1.value.paid == a.paid
            && (Decide(s, e, Some(w), rows).Granted? <==> OnSale(s, e) && (!a.revoked || StandsOpen(s, e, w)))
  {
    var i := AccessOf(s.accesses, KeyRow(s.book.ledger, key)).value;
    if !s.accesses[i].revoked {
      assert Owns(s, w, e);
    }
  }

  /** The same for a series, which nothing takes back: only an episode that is not on air is refused. */
  lemma RepeatedSeriesExactly(s: Shop, m: MovieId, w: WalletId, key: Option<Key>, rows: seq<LotId>, now: Time, e: EpisodeId)
    requires w in s.book.wallets && RepeatsSeries(s, m, w, key) && forall k :: 0 <= k < |rows| ==> rows[k] < |s.book.lots|
    requires e in s.episodes && s.episodes[e].movie == m
    ensures PurchaseSeries(s, m, w, key, rows, now).0 == s && PurchaseSeries(s, m, w, key, rows, now).1.Ok?
    ensures Decide(s, e, Some(w), rows).Granted? <==> OnSale(s, e)
  {
    var i := BundleOf(s.bundles, KeyRow(s.book.ledger, key)).value;
    assert s.bundles[i].user == w && OwnsSeries(s, w, m);
  }

  /**
   * A key in the ledger never moves Coins. It is answered with success exactly for a repetition or for a
   * sale on a row that no access stands on yet, and only the latter writes an access.
   */
  lemma UsedKeyExactly(s: Shop, e: EpisodeId, w: WalletId, key: Option<Key>, rows: seq<LotId>, now: Time)
    requires KeyUsed(s.book.ledger, key) && forall k :: 0 <= k < |rows| ==> rows[k] < |s.book.lots|
    ensures var (after, answer) := Purchase(s, e, w, key, rows, now);
            var row := KeyRow(s.book.ledger, key);
            var sold := Buyable(s, e, w) && AccessOf(s.accesses, row).None?;
            && after.book == s.book
            && (answer.Ok? <==> Repeats(s, e, w, key) || sold)
            && after.accesses == if sold then s.accesses + [Access(w, e, s.episodes[e].price.value, row, false)] else s.accesses
  {
  }

  /** An access is granted without a charge exactly for a used key on whose row no access stands. */
  lemma UnchargedExactly(s: Shop, e: EpisodeId, w: WalletId, key: Option<Key>, rows: seq<LotId>, now: Time)
    requires Agree(s.book) && IsSelection(s.book.lots, w, now, rows)
    ensures var (after, answer) := Purchase(s, e, w, key, rows, now);
            after.accesses != s.accesses && after.book == s.book
            <==> KeyUsed(s.book.ledger, key) && AccessOf(s.accesses, KeyRow(s.book.ledger, key)).None? && Buyable(s, e, w)
  {
    if KeyUsed(s.book.ledger, key) {
      UsedKeyExactly(s, e, w, key, rows, now);
    } else if Purchase(s, e, w, key, rows, now).1.Ok? {
      SpendEffect(s.book, w, PurchaseRequest(s.episodes[e].price.value, key), rows, now);
    }
  }

  lemma UsedSeriesKeyExactly(s: Shop, m: MovieId, w: WalletId, key: Option<Key>, rows: seq<LotId>, now: Time)
    requires KeyUsed(s.book.ledger, key) && forall k :: 0 <= k < |rows| ==> rows[k] < |s.book.lots|
    ensures var (after, answer) := PurchaseSeries(s, m, w, key, rows, now);
            var row := KeyRow(s.book.ledger, key);
            var sold := SeriesBuyable(s, m, w) && BundleOf(s.bundles, row).None?;
            && after.book == s.book
            && (answer.Ok? <==> RepeatsSeries(s, m, w, key) || sold)
            && after.bundles == if sold then s.bundles + [Bundle(w, m, s.movies[m].price.value, row)] else s.bundles
  {
    if RepeatsSeries(s, m, w, key) {
      assert BundleOf(s.bundles, KeyRow(s.book.ledger, key)).Some?;
    }
  }

  lemma UnchargedSeriesExactly(s: Shop, m: MovieId, w: WalletId, key: Option<Key>, rows: seq<LotId>, now: Time)
    requires Agree(s.book) && IsSelection(s.book.lots, w, now, rows)
    ensures var (after, answer) := PurchaseSeries(s, m, w, key, rows, now);
            after.bundles != s.bundles && after.book == s.book
            <==> KeyUsed(s.book.ledger, key) && BundleOf(s.bundles, KeyRow(s.book.ledger, key)).None? && SeriesBuyable(s, m, w)
  {
    if KeyUsed(s.book.ledger, key) {
      UsedSeriesKeyExactly(s, m, w, key, rows, now);
    } else if PurchaseSeries(s, m, w, key, rows, now).1.Ok? {
      SpendEffect(s.book, w, SeriesRequest(s.movies[m].price.value, key), rows, now);
    }
  }

  /** The topped-up wallet next to an episode and a series at 50. */
  const ONE_EPISODE := Shop(TOPPED_UP, map[0 := Series(Some(50))], map[0 := Episode(0, 1, true, Some(50))], [], [], {}, 0, 0)

  /** Such an input: with the key of the top-up, an episode or a series the wallet cannot pay is granted for nothing. */
  lemma TopUpKeyBuysForNothing(now: Time)
    ensures Agree(TOPPED_UP) && RowsKnown(ONE_EPISODE) && Purse(TOPPED_UP, 0, now) == 5
    ensures var (after, answer) := Purchase(ONE_EPISODE, 0, 0, Some(OrderKey(0)), [], now);
            answer.Ok? && after.book == TOPPED_UP && Decide(after, 0, Some(0), []) == Granted(BoughtEpisode)
    ensures var (after, answer) := PurchaseSeries(ONE_EPISODE, 0, 0, Some(OrderKey(0)), [], now);
            answer.Ok? && after.book == TOPPED_UP && Decide(after, 0, Some(0), []) == Granted(BoughtSeries)
  {
    ToppedUpAgrees(now);
    UsedKeyExactly(ONE_EPISODE, 0, 0, Some(OrderKey(0)), [], now);
    UsedSeriesKeyExactly(ONE_EPISODE, 0, 0, Some(OrderKey(0)), [], now);
    var after := Purchase(ONE_EPISODE, 0, 0, Some(OrderKey(0)), [], now).0;
    assert after.accesses[0].user == 0;
    var whole := PurchaseSeries(ONE_EPISODE, 0, 0, Some(OrderKey(0)), [], now).0;
    assert whole.bundles[0].user == 0;
  }
}
