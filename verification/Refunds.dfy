/**
 * The refunds of a permanent removal, and what every run of purchases, removals and releases conserves.
 */
module Refunds {
  import opened Prelude
  import opened CoinBook
  import opened CoinBookProofs
  import opened CoinMoves
  import opened Unlocks

  // ---------------------------------------------------------------------------------------------
  // Removal
  // ---------------------------------------------------------------------------------------------

  predicate DueBack(a: Access, e: EpisodeId) {
    a.episode == e && !a.revoked
  }

  /** The accesses a removal pays back, among the first n. */
  function DueIds(accesses: seq<Access>, e: EpisodeId, n: nat): (ids: seq<nat>)
    requires n <= |accesses|
    ensures forall i: nat :: i in ids <==> i < n && DueBack(accesses[i], e)
    ensures forall k :: 0 <= k < |ids| ==> ids[k] < n && DueBack(accesses[ids[k]], e)
    ensures forall j, k :: 0 <= j < k < |ids| ==> ids[j] < ids[k]
  {
    if n == 0 then []
    else
      var before := DueIds(accesses, e, n - 1);
      assert forall k :: 0 <= k < |before| ==> before[k] in before;
      before + if DueBack(accesses[n - 1], e) then [n - 1] else []
  }

  function RefundRequest(a: Access, i: nat): CreditRequest {
    CreditRequest(Cause(Refund, Some(i), Some(a.row)), a.paid, 0, 0, None)
  }

  /** Pays one access back into main Coins and revokes it; nothing is credited for a price of zero. */
  function RefundOne(s: Shop, i: nat, now: Time): Shop
    requires i < |s.accesses|
  {
    var a := s.accesses[i];
    var book := if a.paid <= 0 then s.book else Credit(s.book, a.user, RefundRequest(a, i), now).0;
    s.(book := book, accesses := s.accesses[i := a.(revoked := true)])
  }

  function RefundList(s: Shop, ids: seq<nat>, now: Time): (r: Shop)
    requires forall k :: 0 <= k < |ids| ==> ids[k] < |s.accesses|
    ensures |r.accesses| == |s.accesses|
    decreases |ids|
  {
    if ids == [] then s else RefundList(RefundOne(s, ids[0], now), ids[1..], now)
  }

  function TakenDown(s: Shop, e: EpisodeId): Shop {
    if e in s.episodes then s.(episodes := s.episodes[e := s.episodes[e].(published := false)]) else s
  }

  /** Every purchase of the episode is paid back. */
  function RefundAll(s: Shop, e: EpisodeId, now: Time): Shop {
    RefundList(s, DueIds(s.accesses, e, |s.accesses|), now)
  }

  /** TakenDown, followed by RefundAll when `refunds` is on. */
  function Remove(s: Shop, e: EpisodeId, refunds: bool, now: Time): Shop {
    if refunds then RefundAll(TakenDown(s, e), e, now) else TakenDown(s, e)
  }

  // ---------------------------------------------------------------------------------------------
  // What is paid and what is paid back
  // ---------------------------------------------------------------------------------------------

  predicate IsRefundOf(e: Entry, i: nat) {
    e.cause.kind.Refund? && e.cause.reference == Some(i)
  }

  function RefundCount(ledger: seq<Entry>, i: nat): nat {
    if ledger == [] then 0
    else RefundCount(ledger[..|ledger| - 1], i) + if IsRefundOf(ledger[|ledger| - 1], i) then 1 else 0
  }

  /** Coins the ledger paid back. */
  function PaidBack(ledger: seq<Entry>): int {
    if ledger == [] then 0
    else PaidBack(ledger[..|ledger| - 1]) + if ledger[|ledger| - 1].cause.kind.Refund? then ledger[|ledger| - 1].main else 0
  }

  /** Coins the ledger took for episodes. */
  function PaidIn(ledger: seq<Entry>): int {
    if ledger == [] then 0
    else
      var e := ledger[|ledger| - 1];
      PaidIn(ledger[..|ledger| - 1]) - if e.cause.kind.EpisodePurchase? then e.main + e.bonus else 0
  }

  function Prices(accesses: seq<Access>): nat {
    if accesses == [] then 0 else Prices(accesses[..|accesses| - 1]) + accesses[|accesses| - 1].paid
  }

  function RevokedPrices(accesses: seq<Access>): nat {
    if accesses == [] then 0
    else
      var a := accesses[|accesses| - 1];
      RevokedPrices(accesses[..|accesses| - 1]) + if a.revoked then a.paid else 0
  }

  lemma {:induction false} RevokedUpdated(accesses: seq<Access>, i: nat)
    requires i < |accesses| && !accesses[i].revoked
    ensures var next := accesses[i := accesses[i].(revoked := true)];
            RevokedPrices(next) == RevokedPrices(accesses) + accesses[i].paid && Prices(next) == Prices(accesses)
  {
    var last := |accesses| - 1;
    var next := accesses[i := accesses[i].(revoked := true)];
    if i == last {
      assert next[..last] == accesses[..last];
    } else {
      assert next[..last] == accesses[..last][i := accesses[i].(revoked := true)];
      RevokedUpdated(accesses[..last], i);
    }
  }

  lemma AccessAdded(accesses: seq<Access>, a: Access)
    ensures Prices(accesses + [a]) == Prices(accesses) + a.paid
    ensures RevokedPrices(accesses + [a]) == RevokedPrices(accesses) + if a.revoked then a.paid else 0
  {
    assert (accesses + [a])[..|accesses|] == accesses;
  }

  predicate Neutral(e: Entry) {
    !e.cause.kind.Refund? && !e.cause.kind.EpisodePurchase?
  }

  /** Rows of other kinds change none of these sums. */
  lemma {:induction false} NeutralRows(was: seq<Entry>, ledger: seq<Entry>)
    requires was <= ledger && forall k :: |was| <= k < |ledger| ==> Neutral(ledger[k])
    ensures PaidBack(ledger) == PaidBack(was) && PaidIn(ledger) == PaidIn(was)
    ensures forall i: nat :: RefundCount(ledger, i) == RefundCount(was, i)
  {
    if |ledger| > |was| {
      NeutralRows(was, ledger[..|ledger| - 1]);
    } else {
      assert ledger == was;
    }
  }

  /** Rows of one payment for an episode add up to what left the wallet. */
  lemma {:induction false} PaymentRows(was: seq<Entry>, ledger: seq<Entry>, w: WalletId)
    requires was <= ledger
    requires forall k :: |was| <= k < |ledger| ==> ledger[k].wallet == w && ledger[k].cause.kind.EpisodePurchase?
    ensures PaidIn(ledger) - PaidIn(was) == MainSum(was, w) + BonusSum(was, w) - MainSum(ledger, w) - BonusSum(ledger, w)
    ensures PaidBack(ledger) == PaidBack(was) && forall i: nat :: RefundCount(ledger, i) == RefundCount(was, i)
  {
    if |ledger| > |was| {
      PaymentRows(was, ledger[..|ledger| - 1], w);
    } else {
      assert ledger == was;
    }
  }

  // ---------------------------------------------------------------------------------------------
  // The invariant
  // ---------------------------------------------------------------------------------------------

  /** A refund pays exactly the price of a revoked access, in main Coins, to who paid it. */
  predicate RefundFits(e: Entry, accesses: seq<Access>) {
    e.cause.kind.Refund? ==>
      && e.cause.reference.Some? && e.cause.reference.value < |accesses|
      && var a := accesses[e.cause.reference.value];
         a.revoked && e.wallet == a.user && e.main == a.paid && e.bonus == 0 && e.cause.reverses == Some(a.row)
  }

  predicate ExpectedCount(accesses: seq<Access>, ledger: seq<Entry>, i: nat) {
    RefundCount(ledger, i) == if i < |accesses| && accesses[i].revoked && accesses[i].paid > 0 then 1 else 0
  }

  ghost predicate RefundsOk(ledger: seq<Entry>, accesses: seq<Access>) {
    && (forall i: nat :: ExpectedCount(accesses, ledger, i))
    && (forall k :: 0 <= k < |ledger| ==> RefundFits(ledger[k], accesses))
    && PaidBack(ledger) == RevokedPrices(accesses)
    && PaidIn(ledger) == Prices(accesses)
  }

  predicate OneLive(accesses: seq<Access>) {
    forall i, j :: 0 <= i < j < |accesses| && !accesses[i].revoked && !accesses[j].revoked ==>
                     accesses[i].user != accesses[j].user || accesses[i].episode != accesses[j].episode
  }

  /** Nobody holds a whole series and a bought episode of it. */
  predicate NoOverlap(s: Shop) {
    forall i :: 0 <= i < |s.accesses| && !s.accesses[i].revoked ==>
                  s.accesses[i].episode in s.episodes
                  && !OwnsSeries(s, s.accesses[i].user, s.episodes[s.accesses[i].episode].movie)
  }

  ghost predicate ShopOk(s: Shop) {
    && Agree(s.book)
    && (forall i :: 0 <= i < |s.accesses| ==> s.accesses[i].user in s.book.wallets)
    && RefundsOk(s.book.ledger, s.accesses)
    && OneLive(s.accesses)
  }

  /** The ledger after one access is revoked: one row more that refunds it, or none for a price of zero. */
  predicate RefundAdded(was: seq<Entry>, ledger: seq<Entry>, a: Access, i: nat) {
    if a.paid == 0 then ledger == was
    else
      && |ledger| == |was| + 1 && ledger[..|was|] == was
      && IsRefundOf(ledger[|was|], i) && ledger[|was|].wallet == a.user && ledger[|was|].main == a.paid
      && ledger[|was|].bonus == 0 && ledger[|was|].cause.reverses == Some(a.row)
  }

  lemma RefundedBook(s: Shop, i: nat, now: Time)
    requires Agree(s.book) && i < |s.accesses| && s.accesses[i].user in s.book.wallets
    ensures var r := RefundOne(s, i, now);
            && Agree(r.book) && r.book.wallets.Keys == s.book.wallets.Keys
            && RefundAdded(s.book.ledger, r.book.ledger, s.accesses[i], i)
  {
    var a := s.accesses[i];
    CreditAgrees(s.book, a.user, RefundRequest(a, i), now);
    var after := Credit(s.book, a.user, RefundRequest(a, i), now).0;
    assert a.paid > 0 ==> after.ledger[..|s.book.ledger|] == s.book.ledger;
  }

  lemma RefundsOkAfter(was: seq<Entry>, ledger: seq<Entry>, accesses: seq<Access>, i: nat)
    requires RefundsOk(was, accesses) && i < |accesses| && !accesses[i].revoked && RefundAdded(was, ledger, accesses[i], i)
    ensures RefundsOk(ledger, accesses[i := accesses[i].(revoked := true)])
  {
    var next := accesses[i := accesses[i].(revoked := true)];
    RevokedUpdated(accesses, i);
    forall j: nat ensures ExpectedCount(next, ledger, j) {
      assert ExpectedCount(accesses, was, j);
    }
    forall k | 0 <= k < |ledger| ensures RefundFits(ledger[k], next) {
      if k < |was| {
        assert ledger[k] == was[k] && RefundFits(was[k], accesses);
      }
    }
  }

  lemma RefundKeeps(s: Shop, i: nat, now: Time)
    requires ShopOk(s) && i < |s.accesses| && !s.accesses[i].revoked
    ensures ShopOk(RefundOne(s, i, now))
    ensures RefundOne(s, i, now).book.wallets.Keys == s.book.wallets.Keys
    ensures s.book.ledger <= RefundOne(s, i, now).book.ledger
  {
    RefundedBook(s, i, now);
    RefundsOkAfter(s.book.ledger, RefundOne(s, i, now).book.ledger, s.accesses, i);
  }

  lemma {:induction false} RefundListKeeps(s: Shop, ids: seq<nat>, now: Time)
    requires ShopOk(s)
    requires forall k :: 0 <= k < |ids| ==> ids[k] < |s.accesses| && !s.accesses[ids[k]].revoked
    requires forall j, k :: 0 <= j < k < |ids| ==> ids[j] < ids[k]
    ensures var r := RefundList(s, ids, now);
            && ShopOk(r)
            && (forall i: nat :: i < |r.accesses| ==> r.accesses[i] == if i in ids then s.accesses[i].(revoked := true) else s.accesses[i])
            && r == s.(book := r.book, accesses := r.accesses)
            && s.book.ledger <= r.book.ledger && r.book.wallets.Keys == s.book.wallets.Keys
    decreases |ids|
  {
    if ids != [] {
      RefundKeeps(s, ids[0], now);
      var next := RefundOne(s, ids[0], now);
      RefundListKeeps(next, ids[1..], now);
      assert forall i :: i in ids <==> i == ids[0] || i in ids[1..];
    }
  }

  lemma RefundAllKeeps(s: Shop, e: EpisodeId, now: Time)
    requires ShopOk(s)
    ensures var r := RefundAll(s, e, now);
            && ShopOk(r) && |r.accesses| == |s.accesses| && r == s.(book := r.book, accesses := r.accesses)
            && s.book.ledger <= r.book.ledger && r.book.wallets.Keys == s.book.wallets.Keys
            && (forall i :: 0 <= i < |r.accesses| ==>
                  r.accesses[i] == if s.accesses[i].episode == e then s.accesses[i].(revoked := true) else s.accesses[i])
  {
    RefundListKeeps(s, DueIds(s.accesses, e, |s.accesses|), now);
  }

  /**
   * A removal with refunds leaves no unrevoked purchase of that episode and touches no other; a removal
   * without refunds leaves every purchase as it was.
   */
  lemma RemoveKeeps(s: Shop, e: EpisodeId, refunds: bool, now: Time)
    requires ShopOk(s)
    ensures var r := Remove(s, e, refunds, now);
            && ShopOk(r) && |r.accesses| == |s.accesses| && !OnSale(r, e)
            && s.book.ledger <= r.book.ledger && r.book.wallets.Keys == s.book.wallets.Keys
            && r == s.(book := r.book, accesses := r.accesses, episodes := r.episodes) && r.episodes.Keys == s.episodes.Keys
            && (forall x :: x in s.episodes ==> r.episodes[x].movie == s.episodes[x].movie)
            && (forall i :: 0 <= i < |r.accesses| ==>
                  r.accesses[i] == if refunds && s.accesses[i].episode == e then s.accesses[i].(revoked := true) else s.accesses[i])
  {
    if refunds {
      RefundAllKeeps(TakenDown(s, e), e, now);
    }
  }

  lemma {:induction false} AccessOfKept(accesses: seq<Access>, next: seq<Access>, row: nat)
    requires |accesses| == |next|
    requires forall i :: 0 <= i < |next| ==> next[i] == accesses[i].(revoked := next[i].revoked)
    ensures AccessOf(next, row) == AccessOf(accesses, row)
  {
    if accesses != [] {
      AccessOfKept(accesses[..|accesses| - 1], next[..|next| - 1], row);
    }
  }

  /**
   * A repeated purchase is answered from its old row, so after a removal that paid it back and a new
   * release the same key is told that access is granted while the decision refuses it.
   */
  lemma RepeatAfterRemoval(s: Shop, e: EpisodeId, episode: Episode, w: WalletId, key: Option<Key>, rows: seq<LotId>,
                           now: Time, later: Time)
    requires ShopOk(s) && w in s.book.wallets && Repeats(s, e, w, key)
    requires episode.published && episode.price.Some? && episode.price.value > 0 && episode.number > s.freeStarters
    requires w !in s.running && !OwnsSeries(s, w, episode.movie)
    ensures var again := RemovedAndReleased(s, e, episode, now);
            && w in again.book.wallets
            && ((forall k :: 0 <= k < |rows| ==> rows[k] < |again.book.lots|) ==>
                  Purchase(again, e, w, key, rows, later).1.Ok? && Purchase(again, e, w, key, rows, later).0 == again
                  && Decide(again, e, Some(w), rows).Refused?)
  {
    var again := RemovedAndReleased(s, e, episode, now);
    RepeatsAgain(s, e, episode, w, key, now);
    NothingOwnedAgain(s, e, episode, w, now);
    if forall k :: 0 <= k < |rows| ==> rows[k] < |again.book.lots| {
      RepeatAnswered(again, e, w, key, rows, later);
    }
  }

  lemma NothingOwnedAgain(s: Shop, e: EpisodeId, episode: Episode, w: WalletId, now: Time)
    requires ShopOk(s) && w in s.book.wallets && w !in s.running && !OwnsSeries(s, w, episode.movie)
    ensures var again := RemovedAndReleased(s, e, episode, now);
            && !Owns(again, w, e) && !OwnsSeries(again, w, episode.movie) && w !in again.running
            && w in again.book.wallets && again.freeStarters == s.freeStarters && again.episodes[e] == episode
  {
    RemoveKeeps(s, e, true, now);
  }

  lemma RepeatAnswered(s: Shop, e: EpisodeId, w: WalletId, key: Option<Key>, rows: seq<LotId>, now: Time)
    requires Repeats(s, e, w, key) && forall k :: 0 <= k < |rows| ==> rows[k] < |s.book.lots|
    ensures Purchase(s, e, w, key, rows, now).1.Ok? && Purchase(s, e, w, key, rows, now).0 == s
  {
  }

  function RemovedAndReleased(s: Shop, e: EpisodeId, episode: Episode, now: Time): Shop {
    var removed := Remove(s, e, true, now);
    removed.(episodes := removed.episodes[e := episode])
  }

  lemma RepeatsAgain(s: Shop, e: EpisodeId, episode: Episode, w: WalletId, key: Option<Key>, now: Time)
    requires ShopOk(s) && Repeats(s, e, w, key)
    ensures Repeats(RemovedAndReleased(s, e, episode, now), e, w, key)
  {
    var again := RemovedAndReleased(s, e, episode, now);
    RemoveKeeps(s, e, true, now);
    var row := KeyRow(s.book.ledger, key);
    KeyRowIsUnique(again.book.ledger, key, row);
    AccessOfKept(s.accesses, again.accesses, row);
  }

  /** Keys are not shared between different operations: a used one repeats this very purchase. */
  predicate KeyIsOwn(s: Shop, e: EpisodeId, w: WalletId, key: Option<Key>) {
    !KeyUsed(s.book.ledger, key) || Repeats(s, e, w, key)
  }

  /** What a payment for an episode does to the sums. */
  lemma PaymentSums(b: Book, w: WalletId, rq: SpendRequest, rows: seq<LotId>, now: Time)
    requires Agree(b) && IsSelection(b.lots, w, now, rows) && !KeyUsed(b.ledger, rq.key)
    requires rq.cause.kind.EpisodePurchase? && Spend(b, w, rq, rows, now).1.Ok?
    ensures var after := Spend(b, w, rq, rows, now).0;
            && Agree(after) && b.ledger <= after.ledger && after.wallets.Keys == b.wallets.Keys
            && (forall k :: |b.ledger| <= k < |after.ledger| ==> !after.ledger[k].cause.kind.Refund?)
            && PaidIn(after.ledger) == PaidIn(b.ledger) + rq.amount && PaidBack(after.ledger) == PaidBack(b.ledger)
            && forall i: nat :: RefundCount(after.ledger, i) == RefundCount(b.ledger, i)
  {
    var after := Spend(b, w, rq, rows, now).0;
    SpendAgrees(b, w, rq, rows, now);
    SpendEffect(b, w, rq, rows, now);
    assert WalletAgrees(b, w) && WalletAgrees(after, w);
    PaymentRows(b.ledger, after.ledger, w);
  }

  lemma PurchaseKeeps(s: Shop, e: EpisodeId, w: WalletId, key: Option<Key>, rows: seq<LotId>, now: Time)
    requires ShopOk(s) && w in s.book.wallets && IsSelection(s.book.lots, w, now, rows) && KeyIsOwn(s, e, w, key)
    ensures ShopOk(Purchase(s, e, w, key, rows, now).0)
  {
    var r := Purchase(s, e, w, key, rows, now).0;
    if r != s {
      PaymentSums(s.book, w, PurchaseRequest(s.episodes[e].price.value, key), rows, now);
      AccessAdded(s.accesses, r.accesses[|s.accesses|]);
      PurchaseRefundsOk(s, r);
    }
  }

  lemma PurchaseRefundsOk(s: Shop, r: Shop)
    requires RefundsOk(s.book.ledger, s.accesses) && s.book.ledger <= r.book.ledger
    requires forall k :: |s.book.ledger| <= k < |r.book.ledger| ==> !r.book.ledger[k].cause.kind.Refund?
    requires |r.accesses| == |s.accesses| + 1 && r.accesses[..|s.accesses|] == s.accesses && !r.accesses[|s.accesses|].revoked
    requires forall i: nat :: RefundCount(r.book.ledger, i) == RefundCount(s.book.ledger, i)
    requires PaidBack(r.book.ledger) == PaidBack(s.book.ledger) && RevokedPrices(r.accesses) == RevokedPrices(s.accesses)
    requires PaidIn(r.book.ledger) - PaidIn(s.book.ledger) == Prices(r.accesses) - Prices(s.accesses)
    ensures RefundsOk(r.book.ledger, r.accesses)
  {
    forall j: nat ensures ExpectedCount(r.accesses, r.book.ledger, j) {
      assert ExpectedCount(s.accesses, s.book.ledger, j);
    }
    forall k | 0 <= k < |r.book.ledger| ensures RefundFits(r.book.ledger[k], r.accesses) {
      if k < |s.book.ledger| {
        assert RefundFits(s.book.ledger[k], s.accesses);
      }
    }
  }

  // ---------------------------------------------------------------------------------------------
  // Every run
  // ---------------------------------------------------------------------------------------------

  datatype Event =
    | Buys(e: EpisodeId, w: WalletId, key: Option<Key>, rows: seq<LotId>, now: Time)
    | Removes(e: EpisodeId, refunds: bool, now: Time)
    | Releases(e: EpisodeId, episode: Episode)
    | BuysSeries(m: MovieId, w: WalletId, key: Option<Key>, rows: seq<LotId>, now: Time)
    | Changes(movies: map<MovieId, Series>, running: set<WalletId>, freeStarters: nat, lowestPrice: nat)
    | Elsewhere(next: Book)

  /** Moves that neither buy an episode nor pay one back. */
  predicate PaidElsewhere(b: Book, next: Book) {
    && Agree(next) && b.ledger <= next.ledger && b.wallets.Keys <= next.wallets.Keys
    && forall k :: |b.ledger| <= k < |next.ledger| ==> Neutral(next.ledger[k])
  }

  predicate Legal(s: Shop, event: Event) {
    match event
    case Buys(e, w, key, rows, now) => w in s.book.wallets && IsSelection(s.book.lots, w, now, rows) && KeyIsOwn(s, e, w, key)
    case BuysSeries(m, w, key, rows, now) =>
      && w in s.book.wallets && IsSelection(s.book.lots, w, now, rows)
      && (!KeyUsed(s.book.ledger, key) || RepeatsSeries(s, m, w, key))
    case Releases(e, episode) => e in s.episodes ==> episode.movie == s.episodes[e].movie
    case Elsewhere(next) => PaidElsewhere(s.book, next)
    case _ => true
  }

  function Next(s: Shop, event: Event): Shop
    requires Legal(s, event)
  {
    match event
    case Buys(e, w, key, rows, now) => Purchase(s, e, w, key, rows, now).0
    case Removes(e, refunds, now) => Remove(s, e, refunds, now)
    case Releases(e, episode) => s.(episodes := s.episodes[e := episode])
    case BuysSeries(m, w, key, rows, now) => PurchaseSeries(s, m, w, key, rows, now).0
    case Changes(movies, running, freeStarters, lowestPrice) =>
      s.(movies := movies, running := running, freeStarters := freeStarters, lowestPrice := lowestPrice)
    case Elsewhere(next) => s.(book := next)
  }

  lemma ElsewhereKeeps(s: Shop, next: Book)
    requires ShopOk(s) && PaidElsewhere(s.book, next)
    ensures ShopOk(s.(book := next))
  {
    NeutralRows(s.book.ledger, next.ledger);
    forall j: nat ensures ExpectedCount(s.accesses, next.ledger, j) {
      assert ExpectedCount(s.accesses, s.book.ledger, j);
    }
    forall k | 0 <= k < |next.ledger| ensures RefundFits(next.ledger[k], s.accesses) {
      if k < |s.book.ledger| {
        assert RefundFits(s.book.ledger[k], s.accesses);
      }
    }
  }

  lemma SeriesKeeps(s: Shop, m: MovieId, w: WalletId, key: Option<Key>, rows: seq<LotId>, now: Time)
    requires ShopOk(s) && Legal(s, BuysSeries(m, w, key, rows, now))
    ensures ShopOk(PurchaseSeries(s, m, w, key, rows, now).0)
  {
    var r := PurchaseSeries(s, m, w, key, rows, now).0;
    if r != s {
      SeriesPaidElsewhere(s.book, w, SeriesRequest(s.movies[m].price.value, key), rows, now, r.book);
      ElsewhereKeeps(s, r.book);
    }
  }

  lemma SeriesPaidElsewhere(b: Book, w: WalletId, rq: SpendRequest, rows: seq<LotId>, now: Time, next: Book)
    requires Agree(b) && w in b.wallets && IsSelection(b.lots, w, now, rows) && !KeyUsed(b.ledger, rq.key)
    requires rq.cause.kind.SeriesPurchase? && next == Spend(b, w, rq, rows, now).0
    ensures PaidElsewhere(b, next)
  {
    SpendAgrees(b, w, rq, rows, now);
    if next != b {
      SpendEffect(b, w, rq, rows, now);
    }
  }

  lemma OverlapAfterSeries(s: Shop, m: MovieId, w: WalletId, key: Option<Key>, rows: seq<LotId>, now: Time, next: Shop)
    requires NoOverlap(s) && forall k :: 0 <= k < |rows| ==> rows[k] < |s.book.lots|
    requires next == PurchaseSeries(s, m, w, key, rows, now).0
    ensures NoOverlap(next)
  {
    forall i | 0 <= i < |next.accesses| && !next.accesses[i].revoked
      ensures next.accesses[i].episode in next.episodes
              && !OwnsSeries(next, next.accesses[i].user, next.episodes[next.accesses[i].episode].movie)
    {
      assert next != s ==> !InSeries(s, s.accesses[i], w, m);
    }
  }

  lemma OverlapAfterPurchase(s: Shop, e: EpisodeId, w: WalletId, key: Option<Key>, rows: seq<LotId>, now: Time, next: Shop)
    requires NoOverlap(s) && forall k :: 0 <= k < |rows| ==> rows[k] < |s.book.lots|
    requires next == Purchase(s, e, w, key, rows, now).0
    ensures NoOverlap(next)
  {
  }

  lemma OverlapAfterRemoval(s: Shop, e: EpisodeId, refunds: bool, now: Time, next: Shop)
    requires ShopOk(s) && NoOverlap(s) && next == Remove(s, e, refunds, now)
    ensures NoOverlap(next)
  {
    RemoveKeeps(s, e, refunds, now);
  }

  /** No event lets a member hold a series and a bought episode of it. */
  lemma OverlapNext(s: Shop, event: Event, next: Shop)
    requires ShopOk(s) && NoOverlap(s) && Legal(s, event) && next == Next(s, event)
    ensures NoOverlap(next)
  {
    match event
    case Buys(e, w, key, rows, now) => OverlapAfterPurchase(s, e, w, key, rows, now, next);
    case Removes(e, refunds, now) => OverlapAfterRemoval(s, e, refunds, now, next);
    case BuysSeries(m, w, key, rows, now) => OverlapAfterSeries(s, m, w, key, rows, now, next);
    case _ =>
  }

  predicate Run(shops: seq<Shop>, events: seq<Event>) {
    && |shops| == |events| + 1
    && forall k :: 0 <= k < |events| ==> Legal(shops[k], events[k]) && shops[k + 1] == Next(shops[k], events[k])
  }

  lemma {:induction false} RunKeeps(shops: seq<Shop>, events: seq<Event>, n: nat)
    requires Run(shops, events) && ShopOk(shops[0]) && n <= |events|
    ensures ShopOk(shops[n])
  {
    if n > 0 {
      RunKeeps(shops, events, n - 1);
      var s := shops[n - 1];
      assert shops[n] == Next(s, events[n - 1]) && Legal(s, events[n - 1]);
      match events[n - 1]
      case Buys(e, w, key, rows, now) => PurchaseKeeps(s, e, w, key, rows, now);
      case Removes(e, refunds, now) => RemoveKeeps(s, e, refunds, now);
      case Elsewhere(next) => ElsewhereKeeps(s, next);
      case BuysSeries(m, w, key, rows, now) => SeriesKeeps(s, m, w, key, rows, now);
      case _ =>
    }
  }

  lemma {:induction false} RunNeverOverlaps(shops: seq<Shop>, events: seq<Event>, n: nat)
    requires Run(shops, events) && ShopOk(shops[0]) && NoOverlap(shops[0]) && n <= |events|
    ensures NoOverlap(shops[n])
  {
    if n > 0 {
      RunNeverOverlaps(shops, events, n - 1);
      RunKeeps(shops, events, n - 1);
      OverlapNext(shops[n - 1], events[n - 1], shops[n]);
    }
  }

  /**
   * Over any run nobody holds the same content twice: an unrevoked access is the member's only one for
   * that episode, and the member does not own the series it belongs to.
   */
  lemma NothingHeldTwice(shops: seq<Shop>, events: seq<Event>, n: nat, i: nat, j: nat)
    requires Run(shops, events) && ShopOk(shops[0]) && NoOverlap(shops[0]) && n <= |events|
    requires i < |shops[n].accesses| && !shops[n].accesses[i].revoked
    ensures var s := shops[n];
            var a := s.accesses[i];
            && a.episode in s.episodes
            && (j < |s.bundles| && s.bundles[j].user == a.user ==> s.bundles[j].movie != s.episodes[a.episode].movie)
            && (j < |s.accesses| && j != i && !s.accesses[j].revoked && s.accesses[j].user == a.user ==>
                  s.accesses[j].episode != a.episode)
  {
    RunKeeps(shops, events, n);
    RunNeverOverlaps(shops, events, n);
  }

  /** A ledger row stands on at most one access and at most one bundle, and every such row exists. */
  predicate RowsPaidOnce(s: Shop) {
    && RowsKnown(s)
    && (forall i, j :: 0 <= i < j < |s.accesses| ==> s.accesses[i].row != s.accesses[j].row)
    && (forall i, j :: 0 <= i < j < |s.bundles| ==> s.bundles[i].row != s.bundles[j].row)
  }

  /** Kept by every purchase, with a key of its own or with one of another operation. */
  lemma PurchaseKeepsRows(s: Shop, e: EpisodeId, w: WalletId, key: Option<Key>, rows: seq<LotId>, now: Time)
    requires Agree(s.book) && IsSelection(s.book.lots, w, now, rows) && RowsPaidOnce(s)
    ensures RowsPaidOnce(Purchase(s, e, w, key, rows, now).0)
  {
    if KeyUsed(s.book.ledger, key) {
      UsedKeyExactly(s, e, w, key, rows, now);
    } else if Purchase(s, e, w, key, rows, now).1.Ok? {
      SpendEffect(s.book, w, PurchaseRequest(s.episodes[e].price.value, key), rows, now);
    }
  }

  lemma SeriesKeepsRows(s: Shop, m: MovieId, w: WalletId, key: Option<Key>, rows: seq<LotId>, now: Time)
    requires Agree(s.book) && IsSelection(s.book.lots, w, now, rows) && RowsPaidOnce(s)
    ensures RowsPaidOnce(PurchaseSeries(s, m, w, key, rows, now).0)
  {
    if KeyUsed(s.book.ledger, key) {
      UsedSeriesKeyExactly(s, m, w, key, rows, now);
    } else if PurchaseSeries(s, m, w, key, rows, now).1.Ok? {
      SpendEffect(s.book, w, SeriesRequest(s.movies[m].price.value, key), rows, now);
    }
  }

  /** A removal changes no ledger row of an access, and other payments only add ledger rows. */
  lemma RowsKept(s: Shop, next: Shop)
    requires RowsPaidOnce(s) && s.book.ledger <= next.book.ledger && next.bundles == s.bundles
    requires |next.accesses| == |s.accesses| && forall i :: 0 <= i < |s.accesses| ==> next.accesses[i].row == s.accesses[i].row
    ensures RowsPaidOnce(next)
  {
  }

  lemma RowsNext(s: Shop, event: Event, next: Shop)
    requires ShopOk(s) && RowsPaidOnce(s) && Legal(s, event) && next == Next(s, event)
    ensures RowsPaidOnce(next)
  {
    match event
    case Buys(e, w, key, rows, now) => PurchaseKeepsRows(s, e, w, key, rows, now);
    case BuysSeries(m, w, key, rows, now) => SeriesKeepsRows(s, m, w, key, rows, now);
    case Removes(e, refunds, now) =>
      RemoveKeeps(s, e, refunds, now);
      RowsKept(s, next);
    case _ => RowsKept(s, next);
  }

  lemma {:induction false} RowsPaidOnceForever(shops: seq<Shop>, events: seq<Event>, n: nat)
    requires Run(shops, events) && ShopOk(shops[0]) && RowsPaidOnce(shops[0]) && n <= |events|
    ensures RowsPaidOnce(shops[n])
  {
    if n > 0 {
      RowsPaidOnceForever(shops, events, n - 1);
      RunKeeps(shops, events, n - 1);
      RowsNext(shops[n - 1], events[n - 1], shops[n]);
    }
  }

  /**
   * Over any run of purchases, removals, re-releases and other payments: what the ledger took for
   * episodes is the sum of all prices paid, what it paid back is the sum of the prices of the revoked
   * accesses, and each access has one refund if it was revoked and cost anything, none otherwise.
   */
  lemma RefundsConserve(shops: seq<Shop>, events: seq<Event>, n: nat, i: nat)
    requires Run(shops, events) && ShopOk(shops[0]) && n <= |events| && i < |shops[n].accesses|
    ensures var s := shops[n];
            && PaidIn(s.book.ledger) == Prices(s.accesses)
            && PaidBack(s.book.ledger) == RevokedPrices(s.accesses)
            && RefundCount(s.book.ledger, i) == (if s.accesses[i].revoked && s.accesses[i].paid > 0 then 1 else 0)
            && forall k :: 0 <= k < |s.book.ledger| && IsRefundOf(s.book.ledger[k], i) ==>
                 s.book.ledger[k].wallet == s.accesses[i].user && s.book.ledger[k].main == s.accesses[i].paid
                 && s.book.ledger[k].bonus == 0 && s.book.ledger[k].cause.reverses == Some(s.accesses[i].row)
  {
    RunKeeps(shops, events, n);
    var s := shops[n];
    assert ExpectedCount(s.accesses, s.book.ledger, i);
    forall k | 0 <= k < |s.book.ledger| && IsRefundOf(s.book.ledger[k], i)
      ensures s.book.ledger[k].wallet == s.accesses[i].user && s.book.ledger[k].main == s.accesses[i].paid
              && s.book.ledger[k].bonus == 0 && s.book.ledger[k].cause.reverses == Some(s.accesses[i].row)
    {
      assert RefundFits(s.book.ledger[k], s.accesses);
    }
  }
}
