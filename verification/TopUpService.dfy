/**
 * The top-up calls written the way the service writes them, on one order and the Coin tables it credits.
 * A delivery that is not interrupted is proved to be a run of the step-by-step protocol of TopUps.
 */
module TopUpService {
  import opened Prelude
  import opened CoinBook
  import opened CoinService
  import opened TopUps

  /** What the ledger credited under one key, oldest first. */
  function Credited(ledger: seq<Entry>, key: Key): seq<int> {
    if ledger == [] then []
    else
      var e := ledger[|ledger| - 1];
      Credited(ledger[..|ledger| - 1], key) + if e.key == Some(key) then [e.main] else []
  }

  lemma {:induction false} CreditedWhenUsed(ledger: seq<Entry>, key: Key)
    ensures Credited(ledger, key) != [] <==> KeyUsed(ledger, Some(key))
  {
    if ledger != [] {
      var rest := ledger[..|ledger| - 1];
      CreditedWhenUsed(rest, key);
      if ledger[|ledger| - 1].key != Some(key) && KeyUsed(ledger, Some(key)) {
        var i :| 0 <= i < |ledger| && ledger[i].key == Some(key);
        assert rest[i].key == Some(key);
      }
    }
  }

  /** What a credit under a key does to the rows of that key, and when it is accepted. */
  lemma CreditedByCredit(b: Book, w: WalletId, rq: CreditRequest, now: Time)
    requires w in b.wallets && rq.key.Some? && rq.bonus == 0
    ensures var (done, answer) := CoinBook.Credit(b, w, rq, now);
            var was := Credited(b.ledger, rq.key.value);
            && (answer.Ok? <==> was != [] || rq.main != 0)
            && (answer.Err? ==> done == b)
            && Credited(done.ledger, rq.key.value) == if was != [] || rq.main == 0 then was else [rq.main]
  {
    CreditedWhenUsed(b.ledger, rq.key.value);
    var (done, _) := CoinBook.Credit(b, w, rq, now);
    assert |done.ledger| > |b.ledger| ==> done.ledger[..|done.ledger| - 1] == b.ledger;
  }

  /** A credit under one key leaves what was credited under any other alone. */
  lemma CreditedElsewhere(b: Book, w: WalletId, rq: CreditRequest, now: Time, done: Book)
    requires w in b.wallets && rq.bonus == 0 && rq.key.Some? && done == CoinBook.Credit(b, w, rq, now).0
    ensures forall key :: key != rq.key.value ==> Credited(done.ledger, key) == Credited(b.ledger, key)
    ensures done.wallets.Keys == b.wallets.Keys
  {
    assert |done.ledger| > |b.ledger| ==> done.ledger[..|done.ledger| - 1] == b.ledger;
  }

  class TopUpOrder {
    var payment: Status
    var order: Status
    var callbacks: map<EventId, bool>
    // The events whose callback row names this payment attempt.
    var linked: set<EventId>
    const terms: Terms
    const coins: CoinTables
    const wallet: WalletId
    const key: Key

    ghost predicate Valid()
      reads this, coins
    {
      terms.rateVnd > 0 && terms.amountVnd >= 0 && wallet in coins.wallets && Agree(coins.Tables())
    }

    /** The order as the protocol sees it, with the given workers under way. */
    function Seen(workers: map<WorkerId, Pc>): Desk
      reads this, coins
    {
      Desk(payment, order, Credited(coins.ledger, key), callbacks, workers)
    }

    /** Some delivery for the attempt was handled. */
    predicate Handled()
      reads this
    {
      exists e :: e in linked && e in callbacks && callbacks[e]
    }

    /** Quoted and still without an attempt to settle. */
    constructor (terms: Terms, coins: CoinTables, wallet: WalletId, key: Key)
      requires terms.rateVnd > 0 && terms.amountVnd >= 0 && wallet in coins.wallets && Agree(coins.Tables())
      requires !KeyUsed(coins.ledger, Some(key))
      ensures Valid() && this.terms == terms && this.coins == coins && this.wallet == wallet && this.key == key
      ensures Seen(map[]) == OPENED && linked == {}
    {
      this.terms, this.coins, this.wallet, this.key := terms, coins, wallet, key;
      payment, order, callbacks, linked := Pending, Pending, map[], {};
      new;
      CreditedWhenUsed(coins.ledger, key);
    }

    function TheCredit(): CreditRequest
      requires terms.rateVnd > 0
    {
      CreditRequest(Cause(TopUp, None, None), CoinsGranted(terms), 0, 0, Some(key))
    }

    /** One transaction: either the wallet is credited and both rows say PAID, or nothing is left of it. */
    method Settle(amountVnd: int, now: Time) returns (settled: bool)
      requires Valid()
      modifies this`payment, this`order, coins
      ensures Valid()
      ensures Seen(map[]) == Settled(terms, old(Seen(map[])), amountVnd)
      ensures coins.Tables() == if old(payment.Pending? && order.Pending?) && amountVnd == terms.amountVnd
                                then CoinBook.Credit(old(coins.Tables()), wallet, TheCredit(), now).0
                                else old(coins.Tables())
      ensures settled <==> old(payment.Pending? && order.Pending?) && payment.Paid?
      ensures !settled ==> coins.Tables() == old(coins.Tables())
    {
      if !payment.Pending? || !order.Pending? { return false; }
      // The FAILED written for a wrong amount is rolled back by the throw that follows it.
      if amountVnd != terms.amountVnd { return false; }
      CreditedByCredit(coins.Tables(), wallet, TheCredit(), now);
      QuoteRoundsDown(terms);
      var movement := coins.Credit(wallet, TheCredit(), now);
      if movement.Err? { return false; }
      payment, order := Paid, Paid;
      return true;
    }

    /** The gateway reports that the member gave up, or that the payment failed. */
    method MarkPaymentFailed(status: Status)
      requires status.Failed? || status.Cancelled?
      modifies this`payment, this`order
      ensures payment == order == status
    {
      payment := status;
      order := if status.Failed? then Failed else Cancelled;
    }

    /** What a delivery does once its row is recorded, on what it read of attempt and order. */
    method Decide(e: EventId, was: Status, wasOrder: Status, now: Time)
      requires Valid() && e in terms.reports && payment == was && order == wasOrder
      modifies this`payment, this`order, this`callbacks, coins
      ensures Valid()
      ensures Seen(map[]) == Decided(terms, old(Seen(map[])), e)
      ensures coins.Tables() == if Matching(terms, e) && was.Pending? && wasOrder.Pending?
                                then CoinBook.Credit(old(coins.Tables()), wallet, TheCredit(), now).0
                                else old(coins.Tables())
    {
      var report := terms.reports[e];
      if was.Pending? && wasOrder.Pending? {
        if !report.verdict.Success? {
          MarkPaymentFailed(Closing(report.verdict));
        } else if report.amountVnd != terms.amountVnd {
          payment := Failed;
          order := Failed;
        } else {
          var settled := Settle(report.amountVnd, now);
        }
      }
      callbacks := callbacks[e := true];
    }

    /**
     * A webhook delivery. Without a valid signature only its row is marked as handled. A signed one is the
     * whole run of the protocol: one handled before moves nothing, a matching one for an open order
     * credits the wallet, any other moves no Coins.
     */
    method HandleCallback(e: EventId, signed: bool, now: Time)
      requires Valid() && (signed ==> e in terms.reports)
      modifies this, coins
      ensures Valid()
      ensures Seen(map[]) == if signed then Delivered(terms, old(Seen(map[])), e)
                             else old(Seen(map[])).(callbacks := old(callbacks)[e := true])
      ensures linked == if signed && e !in old(callbacks) then old(linked) + {e} else old(linked)
      ensures coins.Tables() == if signed && Matching(terms, e) && old(payment.Pending? && order.Pending?)
                                   && !(e in old(callbacks) && old(callbacks)[e])
                                then CoinBook.Credit(old(coins.Tables()), wallet, TheCredit(), now).0
                                else old(coins.Tables())
    {
      if !signed {
        callbacks := callbacks[e := true];
        return;
      }
      if e in callbacks && callbacks[e] { return; }
      var was, wasOrder := payment, order;
      if e !in callbacks {
        callbacks := callbacks[e := false];
        linked := linked + {e};
      }
      Decide(e, was, wasOrder, now);
    }
  }
}
