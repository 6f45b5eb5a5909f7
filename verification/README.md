# Verified model of the Coin wallet, the release flow and the billing of a movie platform

The platform sells episodes for Coins. Members buy Coins through payment gateways, get bonus Coins that
run out, unlock episodes, and may hold a membership plan that renews itself. Studios deliver episodes
through review, labelling and compliance before a release goes out. Content Reviewers pay production fees
from Token budgets. This project models those services in Dafny and proves what holds over all inputs,
all runs and all interleavings that the models describe.

## What is modelled

- **Coin wallet.** `CoinBook` holds wallets, bonus lots and the append-only ledger as values, every move on
  them, and the invariant `Agree`. `CoinBookProofs` and `CoinMoves` prove that the moves keep it and say
  exactly when they go through. `CoinService` writes the same tables field by field (class `CoinTables`) and
  is proved to arrive at the same values.
- **Choice of lots.** `EarliestFirst` compares the order of the platform with any other way of choosing lots,
  over whole histories.
- **Expiry sweep.** `BonusExpiry` interleaves sweeps, which read a lot outside the lock, with all other
  transactions; `BonusSweep` is the batch loop on its own.
- **Top-ups.** `TopUps` is one order as a protocol: one database access per step, any number of workers, a
  crash possible between any two steps. `TopUpService` is the straight-line code on a real wallet, proved to
  be a run of that protocol. `ReconcileSweep` is the batch loop that asks the gateways about many orders.
- **Unlocks.** `Unlocks`: the access decision, the quote, the purchase of one episode or of a whole series, and
  what a used key does. `Refunds`: the refunds of a removal and what every run conserves. `UnlockService`: the
  same calls on the tables.
- **Billing.** `Billing` and `BillingService`: activation, renewal, failed renewal, expiry, auto-renew, the two
  batch loops of the renewal sweep. `Revenue` groups the paid cycles. `Batches` holds the queries that the batch
  loops of this sweep and of the reconcile sweep share.
- **Releases.** `Delivery` is one movie project with all its calls as values; `DeliveryProofs`, `ProjectProofs`
  and `ProjectHistory` prove its invariants over every history; `DeliveryVerdicts` says when each call is accepted,
  what it leaves behind, and that every episode can be brought on air; `DeliveryService` (class `Project`) writes the
  rows in the order of the services.
- **Token budgets.** `Tokens`.

A transaction is one step unless a module says otherwise. A throw inside a transaction leaves the tables as
they were. Clocks, gateway answers and the wall clock of a sweep are parameters. Database triggers are not
relied on. The only unique indexes used are those on the idempotency key of the ledger, on the event id of a
callback, and on the ledger row of an access, of a bundle and of a billing cycle; where a lemma asks for it, those
rows exist, as their foreign keys say. Callers' keys are taken not to
be shared between different operations only where a member says so.

## Properties that fail, and the exact condition

- A repeated key moves nothing, but its answer is read off one row with both amounts negated: it equals the
  first answer of a payment exactly when the main balance covered it (`CoinMoves.SpendTwice`), and never that of
  a credit (`CoinMoves.CreditTwice`).
- The stale read of the expiry sweep is exact for a payment in between unless that payment takes some Coins of the
  lot but not all (`BonusExpiry.StaleReadExactly`), and over whole interleavings exactly when every expiry finds its
  lot closed or as it was read (`BonusExpiry.RunAgreesExactly`). A clock not earlier than the sweep's ensures that;
  with an earlier one the tables come apart (`BonusExpiry.EarlierClockBreaksAgreement`).
- A delivery, a failed link or the reconcile sweep may write FAILED or CANCELLED without looking at the status
  again. The rows of an order tell one story exactly as long as no such write lands on a credited order
  (`TopUps.ConsistentExactly`); `TopUps.WrongAmountWrittenLate` is a run that ends credited and FAILED.
- An amount that buys no Coin at the current rate is answered and left open (`TopUps.LoneDeliveryPays`).
- The loop of the reconcile sweep need not end. If the gateways repeat their answers during a run, it ends exactly
  when they leave fewer than 100 stale attempts unresolved (`ReconcileSweep.EndsExactly`); with 100 or more that no
  answer resolves every batch is full (`ReconcileSweep.StuckAttemptsStayFull`).
- The first batch loop of the renewal sweep ends if fewer than 50 due plans are inactive; with 50 or more every
  batch stays full (`BillingService.StuckBatchesStayFull`). A short batch ends the loop after one attempt per
  plan, so a plan several periods behind catches up over several sweeps.
- Not every plan that falls past due is ended by a sweep: one comes before the sweep at some time exactly when it
  has a retry moment (`BillingService.SweptAtSomeTime`). Switching auto-renew off clears that moment, and takes a
  past-due plan away from every sweep exactly while the window before it is open
  (`BillingService.StoppingHidesFromSweep`); `BillingService.FailedThenStopped` is such an input.
- A repeated purchase is always answered from its old row. The access decision agrees with that answer exactly when
  the episode is on air and the access still stands or something else opens it (`Unlocks.RepeatedPurchaseExactly`);
  for a series, exactly when the episode is on air (`Unlocks.RepeatedSeriesExactly`). `Refunds.RepeatAfterRemoval`
  is a family of inputs: paid back, then released again with a price.
- A purchase or an activation is meant to take Coins. One sent with a key that another operation used grants
  something for nothing exactly when no access, bundle or cycle stands on that key's ledger row yet
  (`Unlocks.UnchargedExactly`, `Unlocks.UnchargedSeriesExactly`, `Billing.UnchargedExactly`), as with the key of a
  top-up (`Unlocks.TopUpKeyBuysForNothing`, `Billing.TopUpKeyActivatesForNothing`); otherwise the unique index on
  that row undoes the call.
- A pipeline step writes its status without looking at the version. The project's invariants are kept exactly when
  no step lands on a finished version (`DeliveryProofs.AdvanceKeepsExactly`, `ProjectProofs.StepKeepsExactly`);
  `DeliveryProofs.LateAttemptIsLost` is an attempt that ends ready on an episode that keeps waiting for media.

## Model

| member | source | states |
|---|---|---|
| CoinMoves.SpendVerdict | src/modules/episode-access/coin-wallet/coin-spend.service.ts:23-77 | a payment under a fresh key goes through iff it is positive and main plus unexpired bonus Coins cover it; refused, nothing changes, and the reason and the shortfall are exact |
| CoinMoves.SpendEffect | src/modules/episode-access/coin-wallet/coin-spend.service.ts:36-76 | main Coins leave before bonus Coins, bonus Coins leave the listed lots in order, no other wallet moves, the first row carries the key and the main part, all others are lot debits |
| CoinMoves.SpendAgrees | src/modules/episode-access/coin-wallet/coin-spend.service.ts:23-77 | a payment keeps wallet, lots and ledger in agreement |
| CoinMoves.CreditAgreesExactly | src/modules/episode-access/coin-wallet/coin-spend.service.ts:80-114 | a credit keeps agreement iff it takes no bonus Coins out and does not overdraw main |
| CoinMoves.CreditEffect | src/modules/episode-access/coin-wallet/coin-spend.service.ts:80-114 | a credit under a fresh key goes through iff it adds something; each amount lands on its own counter and on one row of this cause and key, and bonus Coins come as one lot that can be spent until the given days are over |
| CoinMoves.AdjustAgrees | src/modules/episode-access/coin-wallet/coin-adjust.service.ts:17-114 | both correction paths keep agreement |
| CoinMoves.AdjustMovesAllOrNothing | src/modules/episode-access/coin-wallet/coin-adjust.service.ts:17-114 | a correction moves both counters by exactly what was asked or changes nothing |
| CoinMoves.GrantVerdict | src/modules/episode-access/coin-wallet/coin-adjust.service.ts:28-66 | a correction that takes no bonus Coins is accepted under a fresh key iff it asks for something and main does not go below zero; what the wallet can pay at any later moment goes up by the main amount, and by the bonus amount until its days are over |
| CoinMoves.TakeBackVerdict | src/modules/episode-access/coin-wallet/coin-adjust.service.ts:72-114 | bonus Coins are taken back iff nothing else is asked, the key is fresh and the unexpired ones cover it; lots are drained in listing order, one row each, the key on the first |
| CoinMoves.AdjustRefusals | src/modules/episode-access/coin-wallet/coin-adjust.service.ts:17-38 | each refusal of a correction names the reason that holds, with the exact shortfall, and changes nothing |
| CoinMoves.OpenedEmpty | src/modules/episode-access/coin-wallet/wallet.service.ts:25-27 | a new wallet is empty and can pay nothing, and opening it again changes nothing |
| CoinMoves.ExpireAgreesExactly | src/modules/episode-access/coin-wallet/bonus-expiry.sweep.ts:59-88 | closing a lot with an amount read earlier keeps agreement iff the lot is no longer open or still holds that amount |
| CoinMoves.ExpireEffect | src/modules/episode-access/coin-wallet/bonus-expiry.sweep.ts:59-88 | an open lot is emptied and closed now, its wallet pays the amount read and one expiry row names lot and amount; any other lot is left alone |
| CoinMoves.RepeatedKeyMovesNothing | src/modules/episode-access/coin-wallet/coin-spend.service.ts:24-25 | a key in the ledger moves nothing, whatever the call asks for |
| CoinMoves.SpendTwice | src/modules/episode-access/coin-wallet/coin-spend.service.ts:180-192 | a payment sent twice moves the wallet once; the second answer equals the first iff the main balance covers the amount |
| CoinMoves.CreditTwice | src/modules/episode-access/coin-wallet/coin-spend.service.ts:180-192 | a repeated credit is answered with negated amounts, never with the first answer |
| CoinMoves.BalancesNonNegative | src/modules/episode-access/coin-wallet/coin-spend.service.ts:23-150 | agreement implies that no balance is negative |
| CoinBookProofs.PostAgrees | src/modules/episode-access/coin-wallet/lot-usage.ts:69-80 | one ledger row with the counters it explains keeps counters, lots, prefix balances and unique keys in agreement |
| CoinBookProofs.SelectionSum | src/modules/episode-access/coin-wallet/lot-usage.ts:20-40 | the sum over the listed lots is what the wallet holds in lots that have not run out |
| CoinBookProofs.DrainShares | src/modules/episode-access/coin-wallet/lot-usage.ts:46-66 | the greedy loop takes from the k-th lot exactly what the lots before it could not cover, and closes it now iff that empties it |
| CoinBookProofs.DrainFrame | src/modules/episode-access/coin-wallet/lot-usage.ts:46-66 | a lot outside the listing keeps everything; a listed one keeps wallet, grant and dates |
| CoinService.SpendableLots | src/modules/episode-access/coin-wallet/lot-usage.ts:20-25 | the query lists every spendable lot once, by expiry and then by grant date |
| CoinService.CoinTables.ConsumeLots | src/modules/episode-access/coin-wallet/lot-usage.ts:46-66 | the loop over lot rows leaves the drained lot table and returns one debit per touched lot |
| CoinService.CoinTables.Spend | src/modules/episode-access/coin-wallet/coin-spend.service.ts:23-77 | lots, rows and counters written one after another are the payment of the value model, and agreement is kept |
| CoinService.CoinTables.DebitRows | src/modules/episode-access/coin-wallet/coin-spend.service.ts:52-75 | the rows pushed in the loop carry the running bonus balance; only the first has the key |
| CoinService.CoinTables.Credit | src/modules/episode-access/coin-wallet/coin-spend.service.ts:80-114 | a credit with its lot, row and counters is the credit of the value model |
| CoinService.CoinTables.Adjust | src/modules/episode-access/coin-wallet/coin-adjust.service.ts:17-38 | the correction is the one of the value model and keeps agreement |
| CoinService.CoinTables.DebitBonus | src/modules/episode-access/coin-wallet/coin-adjust.service.ts:72-114 | a bonus correction drains lots earliest first with one row per lot |
| CoinService.CoinTables.ExpireBonus | src/modules/episode-access/coin-wallet/coin-spend.service.ts:120-150 | the single expiry row and the counter move together |
| EarliestFirst.ListingLeavesMost | src/modules/episode-access/coin-wallet/lot-usage.ts:20-66 | for every later date the listing leaves the most any payment can: all of it, or what is left of the whole |
| EarliestFirst.StepKeepsLead | src/modules/episode-access/coin-wallet/lot-usage.ts:20-66 | after any event the platform holds at least as many Coins for every date as a rival choosing lots freely |
| EarliestFirst.EarliestFirstLeads | src/modules/episode-access/coin-wallet/lot-usage.ts:20-66 | over any history with time not going back, earliest-first leads for every date and never refuses a payment the rival covers |
| EarliestFirst.EarliestFirstLosesLeast | src/modules/episode-access/coin-wallet/lot-usage.ts:20-66 | no other choice of lots for the same payments loses fewer Coins to expiry |
| BonusExpiry.StaleReadIsSound | src/modules/episode-access/coin-wallet/bonus-expiry.sweep.ts:37-88 | if every move between read and lock has a clock not earlier than the sweep's, the amount subtracted is what an open lot still holds |
| BonusExpiry.StaleReadExactly | src/modules/episode-access/coin-wallet/bonus-expiry.sweep.ts:59-88 | with one payment in between, at any clock, the tables agree afterwards iff it does not take some but not all of the lot |
| BonusExpiry.RunAgreesExactly | src/modules/episode-access/coin-wallet/bonus-expiry.sweep.ts:37-88 | in any interleaving the tables agree throughout iff every expiry finds its lot closed or holding what was read |
| BonusExpiry.EarlierClockBreaksAgreement | src/modules/episode-access/coin-wallet/bonus-expiry.sweep.ts:59-88 | a concrete run with an earlier clock after which the tables do not agree |
| BonusExpiry.EveryRunAgrees | src/modules/episode-access/coin-wallet/coin-spend.service.ts:23-150 | wallet, lots and ledger agree after every transaction of every interleaving whose sweeps read in time |
| BonusExpiry.EveryRunExpiresOnce | src/modules/episode-access/coin-wallet/bonus-expiry.sweep.ts:59-88 | whatever the interleaving and the clocks, a lot gets at most one expiry row |
| BonusExpiry.ExpiryRowsExactly | src/modules/episode-access/coin-wallet/bonus-expiry.sweep.ts:59-88 | over any interleaving a lot has one expiry row for every expiry that found it open, and no other |
| BonusSweep.ExpireDue | src/modules/episode-access/coin-wallet/bonus-expiry.sweep.ts:37-57 | the batch loop ends, leaves no due lot open, counts lots and Coins exactly, and every bonus balance is what has not run out |
| BonusSweep.Expire | src/modules/episode-access/coin-wallet/bonus-expiry.sweep.ts:59-88 | the guarded close and its row are one expiry, or nothing when another sweep was faster |
| TopUps.QuoteRoundsDown | src/modules/episode-access/coin-topup/coin-topup.service.ts:50-51 | the Coins promised are worth at most the amount charged, one more would be worth more, and there is at least one iff the amount reaches the rate |
| TopUps.StepKeeps | src/modules/episode-access/coin-topup/coin-topup.service.ts:131-249 | every step of every worker keeps the ledger, callback and worker facts, closed orders stay closed, a ledger row stays |
| TopUps.CreditedAtMostOnce | src/modules/episode-access/coin-topup/topup-settlement.service.ts:27-117 | in every interleaving with crashes an order is credited at most once, by the quoted Coins, and is PAID only if credited |
| TopUps.ConsistentExactly | src/modules/episode-access/coin-topup/topup-settlement.service.ts:120-133 | a step keeps attempt, order and ledger telling one story iff it is not a closing write on a credited order |
| TopUps.TraceConsistent | src/modules/episode-access/coin-topup/coin-topup.service.ts:131-249 | without such writes the three tell one story in every reachable state |
| TopUps.AnsweredIsSettled | src/modules/episode-access/coin-topup/coin-topup.service.ts:131-249 | once a matching success delivery is answered the order is PAID with its one ledger row, or closed with none |
| TopUps.DeliveryIsAnswered | src/modules/episode-access/coin-topup/coin-topup.service.ts:131-249 | from any reachable state, half-done work of crashed workers included, a delivery left to run is answered |
| TopUps.LoneDeliveryPays | src/modules/episode-access/coin-topup/coin-topup.service.ts:131-249 | a matching delivery that runs alone on an open order leaves it PAID and credited, or, iff its amount buys no Coin, still open |
| TopUps.LoneDeliveryCloses | src/modules/episode-access/coin-topup/coin-topup.service.ts:191-221 | a delivery alone that does not match closes attempt and order without a Coin: CANCELLED if the member gave up, FAILED otherwise |
| TopUps.LateDeliveryOnlyAnswers | src/modules/episode-access/coin-topup/coin-topup.service.ts:151-190 | a delivery for a closed order, or one handled before, is answered and marked and changes nothing else |
| TopUps.ConfirmationIsDelivery | src/modules/episode-access/coin-topup/coin-topup.service.ts:276-305 | the server-to-server confirmation answers a paid order at once and is a delivery otherwise |
| TopUps.LoneExpiry | src/modules/episode-access/coin-topup/top-up-expiry.sweep.ts:32-56 | the expiry sweep alone lets an open order and its open attempt run out and touches nothing else |
| TopUps.LoneProbe | src/modules/episode-access/coin-topup/payment-reconcile.sweep.ts:62-100 | a probe alone: unknown changes nothing, a denial fails both, a confirmation pays both and credits once iff it is the quoted amount of an open order that buys a Coin |
| TopUps.SweepPassesOver | src/modules/episode-access/coin-topup/payment-reconcile.sweep.ts:46-54 | an attempt that is closed or has a handled delivery is not probed |
| TopUps.FailedLinkCloses | src/modules/episode-access/coin-topup/coin-topup.service.ts:79-86 | a payment link that cannot be made fails attempt and order |
| TopUps.WrongAmountWrittenLate | src/modules/episode-access/coin-topup/coin-topup.service.ts:202-221 | a concrete interleaving that leaves a credited order shown as FAILED |
| TopUps.DeliveryRuns | src/modules/episode-access/coin-topup/coin-topup.service.ts:131-249 | a delivery that nothing interrupts does all of its work and is answered |
| TopUpService.TopUpOrder.Settle | src/modules/episode-access/coin-topup/topup-settlement.service.ts:27-117 | the settlement is all or nothing: wallet credited and both rows PAID, or nothing left of it |
| TopUpService.TopUpOrder.HandleCallback | src/modules/episode-access/coin-topup/coin-topup.service.ts:131-249 | without a valid signature only the delivery's row is marked handled; a delivery handled before moves nothing, a matching one for an open order credits the wallet once, any other moves no Coins |
| ReconcileSweep.ProbedMeans | src/modules/episode-access/coin-topup/payment-reconcile.sweep.ts:62-100 | a probe takes a stale attempt off the list iff its answer resolves it: a denial then closes attempt and order without a Coin, a confirmation pays both and leaves the one ledger row; otherwise nothing is written |
| ReconcileSweep.ResolvesMeans | src/modules/episode-access/coin-topup/payment-reconcile.sweep.ts:69-100 | an answer resolves an attempt iff it is a denial, or confirms the quoted amount (or none) for an open order that buys a Coin |
| ReconcileSweep.NotAskedAbout | src/modules/episode-access/coin-topup/payment-reconcile.sweep.ts:40-54 | an attempt that is closed, younger than ten minutes or has a handled delivery is untouched by a whole run |
| ReconcileSweep.OldestFirst | src/modules/episode-access/coin-topup/payment-reconcile.sweep.ts:50-59 | a stale attempt that a full batch leaves out is no older than any it takes |
| ReconcileSweep.Reconciler.Probe | src/modules/episode-access/coin-topup/payment-reconcile.sweep.ts:62-100 | one attempt and its wallet are those of the settlement or the failure, a denial closes its order too, every other order is untouched, and Coins move only for a settled one |
| ReconcileSweep.Reconciler.ReconcileDue | src/modules/episode-access/coin-topup/payment-reconcile.sweep.ts:39-102 | the loop ends as long as the answers of every batch leave fewer than BATCH stuck, and the three counts are exact |
| ReconcileSweep.StoppedLeaves | src/modules/episode-access/coin-topup/payment-reconcile.sweep.ts:39-102 | when it stops, whatever is still stale was not resolved by the last batch and is untouched, as is whatever was not stale; everything else was closed by one answer |
| ReconcileSweep.RoundsResolve | src/modules/episode-access/coin-topup/payment-reconcile.sweep.ts:39-102 | after any number of batches an attempt is as it was, or it was stale and one answer closed it, order included |
| ReconcileSweep.ShortBatchComes | src/modules/episode-access/coin-topup/payment-reconcile.sweep.ts:45-102 | with fewer than BATCH attempts stuck for the answers of every batch, a batch comes that is not full, whatever the answers |
| ReconcileSweep.StuckAttemptsStayFull | src/modules/episode-access/coin-topup/payment-reconcile.sweep.ts:45-102 | with BATCH or more attempts that no answer resolves every batch is full, so the loop never ends |
| ReconcileSweep.EndsExactly | src/modules/episode-access/coin-topup/payment-reconcile.sweep.ts:45-102 | if the gateways repeat their answers, the loop ends iff fewer than BATCH attempts are stuck |
| TopUpService.CreditedByCredit | src/modules/episode-access/coin-wallet/coin-spend.service.ts:80-114 | a credit adds one row under a fresh key and none under a used one |
| Unlocks.QuoteDecisionAndChargeAgree | src/modules/episode-access/episode-purchase/episode-purchase.service.ts:30-100 | purchase succeeds iff the decision refuses access with enough Coins, takes exactly the planned split, is granted access afterwards, and otherwise reports the shortfall that was shown |
| Unlocks.DecisionMeans | src/modules/episode-access/access-decision/access-decision.service.ts:41-110 | for every caller, access is granted iff the episode is on air and free, or a member's plan, access or bundle opens it, with a ground that holds; a caller without an account is otherwise asked to log in, a member shown price and quote |
| Unlocks.GuestSeesTheSame | src/modules/episode-access/access-decision/access-decision.service.ts:58-71 | a guest is told what a member without any right is told, but asked to log in where the member is quoted a price |
| Unlocks.PurchaseRefusals | src/modules/episode-access/episode-purchase/episode-purchase.service.ts:30-100 | a purchase that is no repetition is refused as owned iff the decision grants the priced episode, as not found iff the decision finds none, as unpriced iff it has no price |
| Unlocks.PurchaseTwice | src/modules/episode-access/episode-purchase/episode-purchase.service.ts:114-132 | bought twice under one key: nothing changes, price and main part are those of the first receipt, all of it iff main Coins paid everything |
| Unlocks.SeriesTwice | src/modules/episode-access/series-purchase/series-purchase.service.ts:35-141 | the same for a bundle, which costs the price of the series at that moment |
| Unlocks.SeriesRefusals | src/modules/episode-access/series-purchase/series-purchase.service.ts:35-141 | a bundle that is no repetition is refused as owned iff a plan runs or the member has the series or an unrevoked access to any episode of it |
| Unlocks.PurchaseChargesExactly | src/modules/episode-access/episode-purchase/episode-purchase.service.ts:55-73 | a purchase that goes through takes Coins iff its key was not in the ledger |
| Unlocks.QuoteMeans | src/modules/episode-access/coin-wallet/wallet.service.ts:75-93 | the quote says enough iff the amount is within main plus unexpired bonus Coins, the exact shortfall, and a split that adds up to what can be paid, bonus Coins only after all main ones |
| Unlocks.RepeatedPurchaseExactly | src/modules/episode-access/episode-purchase/episode-purchase.service.ts:114-132 | a repeated purchase always succeeds and changes nothing; the decision grants iff the episode is on air and the access stands or something else opens it |
| Unlocks.RepeatedSeriesExactly | src/modules/episode-access/series-purchase/series-purchase.service.ts:35-141 | a repeated bundle always succeeds; the decision grants an episode of it iff that is on air |
| Unlocks.UsedKeyExactly | src/modules/episode-access/episode-purchase/episode-purchase.service.ts:30-132 | a used key never moves Coins; it succeeds iff it repeats the purchase or the episode can be bought and no access stands on the key's row, and only the latter writes an access |
| Unlocks.UnchargedExactly | prisma/schema/episode_access.prisma:19 | an access is granted without a charge iff the key was used, no access stands on its row and the episode can be bought |
| Unlocks.UnchargedSeriesExactly | prisma/schema/series_access.prisma:11 | the same for a bundle |
| Unlocks.TopUpKeyBuysForNothing | src/modules/episode-access/episode-purchase/episode-purchase.service.ts:55-73 | a concrete input: with the key of a top-up of 5 Coins an episode, or a series, at 50 is granted for nothing |
| Refunds.RepeatAfterRemoval | src/modules/episode-access/episode-purchase/episode-purchase.service.ts:114-132 | inputs on which the decision and the repeated purchase differ: paid back, then released again with a price and nothing else that opens it |
| Refunds.RemoveKeeps | src/modules/episode-access/entitlement/entitlement.service.ts:96-109 | a removal with refunds leaves no unrevoked purchase of that episode and touches no other; without refunds it touches none |
| Refunds.RefundKeeps | src/modules/episode-access/entitlement/entitlement.service.ts:121-189 | one refund keeps every conservation fact |
| Refunds.PurchaseKeeps | src/modules/episode-access/episode-purchase/episode-purchase.service.ts:30-100 | a purchase keeps every conservation fact and one unrevoked access per member and episode |
| Refunds.RefundsConserve | src/modules/episode-access/entitlement/entitlement.service.ts:96-189 | over any run the ledger took the sum of all prices and paid back the sum of the revoked ones; each access is refunded at most once, exactly its price, in main Coins, to who paid it |
| Unlocks.SeriesOpensItsEpisodes | src/modules/episode-access/series-purchase/series-purchase.service.ts:35-141 | a bundle is sold iff the movie is sold as a series, the member has nothing of it and the Coins cover it; it opens every published episode, and none can be bought again |
| Refunds.NothingHeldTwice | src/modules/episode-access/series-purchase/series-purchase.service.ts:129-141 | over any run nobody holds two unrevoked accesses to one episode, or a series and a bought episode of it |
| Refunds.RowsPaidOnceForever | prisma/schema/episode_access.prisma:19 | over any run a ledger row stands on at most one access and at most one bundle, and it exists |
| UnlockService.Library.Afford | src/modules/episode-access/coin-wallet/wallet.service.ts:75-93 | enough iff main plus unexpired bonus Coins cover the amount, missing is exactly the shortfall, and the split adds up to what can be paid, bonus Coins only after all main ones |
| UnlockService.Library.Purchase | src/modules/episode-access/episode-purchase/episode-purchase.service.ts:30-100 | the tables and the answer are those of the value model, with the charge undone when the row already has an access |
| UnlockService.Library.PurchaseSeries | src/modules/episode-access/series-purchase/series-purchase.service.ts:35-141 | the tables and the answer are those of the value model, with the charge undone when the row already has a bundle |
| UnlockService.Library.RefundEpisodeRemoval | src/modules/episode-access/entitlement/entitlement.service.ts:96-109 | the loop revokes exactly the unrevoked purchases of the episode and pays back the sum of their prices |
| UnlockService.Library.RemoveEpisode | src/modules/production/publishing/publication.service.ts:136-142 | take-down and refunds commit together and are the removal of the value model |
| Billing.HistoryIsGapless | src/modules/episode-access/subscription/subscription-renewal.service.ts:53-137 | after any run the paid cycles are numbered 1 to renewalsCompleted + 1, periods abut, the period ends with the last one, each price is what was charged by ledger rows of its own, and while ACTIVE the next renewal is the period end iff auto-renew is on |
| Billing.RenewVerdict | src/modules/episode-access/subscription/subscription-renewal.service.ts:67-84 | a renewal is paid iff the price in force, or the last one if there is none, is positive and covered, and the period grows by the plan's days; otherwise no Coin or row moves, the period stays and one FAILED cycle over the next period is added |
| Billing.PastDueOnlyEnds | src/modules/episode-access/subscription/subscription-renewal.service.ts:143-231 | a plan past due is never charged again; in every later state only an ending changed its status and nothing its cycles |
| Billing.CancellationIsFinal | src/modules/episode-access/subscription/subscription.service.ts:316-326 | from a cancellation by the Admin on, in every later state the plan is CANCELLED with the cycles it had and no call about it moves Coins; right after it nothing is left to renew |
| Billing.StoppedIsNotCharged | src/modules/episode-access/subscription/subscription.service.ts:244-275 | a running plan with auto-renew switched off keeps its cycles and period and moves no Coins in any later state until somebody switches it on |
| Billing.StopVerdict | src/modules/episode-access/subscription/subscription.service.ts:244-275 | auto-renew can be switched off iff there is no renewal date or its window is still open |
| Billing.StopAndResume | src/modules/episode-access/subscription/subscription.service.ts:279-296 | off and on again leaves a running plan due at the end of its paid period, as it was |
| Billing.ExpireVerdict | src/modules/episode-access/subscription/subscription-renewal.service.ts:143-187 | a plan ends iff it is past due and its retry moment has come or is empty; cycles, period and price stay |
| Billing.OnlyChargeablePays | src/modules/episode-access/subscription/subscription-renewal.service.ts:53-66 | a call about a plan moves Coins only as the first payment of a pending one or the renewal of an active one that renews itself |
| Billing.EndedStaysEnded | src/modules/episode-access/subscription/subscription.service.ts:40-46 | no call opens a plan that has ended, and whatever can still be charged counts as open |
| BillingService.EventKeepsOneOpen | src/modules/episode-access/subscription/subscription.service.ts:365-373 | no call gives a member two open plans |
| Billing.QuoteIsCharged | src/modules/episode-access/subscription/subscription.service.ts:71-174 | the price quoted is the price charged, for as many days as quoted, from the day it is paid |
| Billing.ActivateKeeps | src/modules/episode-access/subscription/subscription.service.ts:120-213 | activation with a fresh key starts a gapless history |
| Billing.ActivationVerdict | src/modules/episode-access/subscription/subscription.service.ts:120-174 | with a fresh key it goes through iff the quote is pending, the plan on sale and the price positive and covered; the period and the first cycle start now at the quoted price, and refused nothing changes |
| Billing.ActivationPaysExactly | src/modules/episode-access/subscription/subscription.service.ts:143-150 | an activation that goes through moves Coins iff its key was not in the ledger |
| Billing.UnchargedExactly | prisma/schema/subscription_cycle.prisma:22 | a plan starts without a charge iff the key was used, no cycle stands on its row and the quote can be activated; a used key never moves Coins |
| Billing.TopUpKeyActivatesForNothing | src/modules/episode-access/subscription/subscription.service.ts:143-174 | a concrete input: with the key of a top-up of 5 Coins a plan at 90 runs |
| Billing.RenewalRowIsNew | src/modules/episode-access/subscription/subscription-renewal.service.ts:67-98 | a renewal never meets the unique index: its ledger row is on no other cycle |
| Billing.RenewGrows | src/modules/episode-access/subscription/subscription-renewal.service.ts:67-80 | the rows of a renewal carry this cycle's key or none, so no other subscription's history is touched |
| BillingService.Subscriptions.Subscribe | src/modules/episode-access/subscription/subscription.service.ts:71-111 | a quote moves no Coin and nobody gets a second open plan |
| BillingService.Subscriptions.Activate | src/modules/episode-access/subscription/subscription.service.ts:120-213 | the file and the wallet are those of the value model, refused when a cycle stands on the key's row; every other file is untouched |
| BillingService.Subscriptions.CancelAutoRenew | src/modules/episode-access/subscription/subscription.service.ts:244-275 | refused iff the window has closed; only auto-renew and the renewal date change |
| BillingService.Subscriptions.ResumeAutoRenew | src/modules/episode-access/subscription/subscription.service.ts:279-296 | the renewal date is the end of the paid period again |
| BillingService.Subscriptions.CancelByAdmin | src/modules/episode-access/subscription/subscription.service.ts:316-354 | the plan is CANCELLED with auto-renew off and no renewal date, so no sweep lists it at any time; the billed cycles and the period stay |
| BillingService.Subscriptions.Renew | src/modules/episode-access/subscription/subscription-renewal.service.ts:53-137 | one attempt on the tables is the renewal of the value model and keeps every other subscription |
| BillingService.Subscriptions.MarkPastDue | src/modules/episode-access/subscription/subscription-renewal.service.ts:194-231 | one unpaid cycle without Coins or row is added after the paid ones, period, price and wallet stay, and a file in order for its next cycle stays in order |
| BillingService.Subscriptions.GraceIsKept | src/modules/episode-access/subscription/subscription-renewal.service.ts:194-231 | a failed plan has its whole grace time, at least one hour: no sweep ends it before, any sweep from then on does |
| BillingService.Subscriptions.Expire | src/modules/episode-access/subscription/subscription-renewal.service.ts:143-187 | a plan ends iff it is past due and its retry moment has come or is empty |
| BillingService.Subscriptions.RenewAll | src/modules/episode-access/subscription/subscription-renewal.sweep.ts:34-48 | with fewer than BATCH stuck plans the loop ends; every plan due and renewable was attempted, every other file is untouched |
| BillingService.RenewalCatchesUp | src/modules/episode-access/subscription/subscription-renewal.service.ts:62-112 | every attempt lowers how far its plan is behind |
| BillingService.FullBatchMoves | src/modules/episode-access/subscription/subscription-renewal.sweep.ts:36-48 | a full batch holds a renewable plan as long as fewer than BATCH due plans are stuck |
| BillingService.StuckBatchesStayFull | src/modules/episode-access/subscription/subscription-renewal.sweep.ts:36-48 | with BATCH or more stuck plans every batch is full, so the loop never ends |
| BillingService.SweptAtSomeTime | src/modules/episode-access/subscription/subscription-renewal.sweep.ts:50-63 | a past-due plan is listed by the second loop at some time iff it has a retry moment |
| BillingService.StoppingHidesFromSweep | src/modules/episode-access/subscription/subscription.service.ts:244-275 | switching auto-renew off takes a past-due plan away from every sweep iff the window before its retry moment is open, though it could be ended at any time |
| BillingService.FailedThenStopped | src/modules/episode-access/subscription/subscription.service.ts:244-275 | a concrete input: 48 hours of grace, a window of 24, stopped right after the failed renewal |
| BillingService.EarliestRenewalFirst | src/modules/episode-access/subscription/subscription-renewal.sweep.ts:34-63 | a plan that a full batch leaves out is due no earlier than any it takes |
| BillingService.Subscriptions.EndUnpaid | src/modules/episode-access/subscription/subscription-renewal.sweep.ts:50-63 | the second loop always ends, leaves no overdue plan and counts exactly those it ended |
| BillingService.Subscriptions.RenewDue | src/modules/episode-access/subscription/subscription-renewal.sweep.ts:34-67 | both passes together: every due plan attempted, none left overdue, none that fell past due in this run ended by it, both counts exact |
| Revenue.ReportByPlan | src/modules/episode-access/billing-reports/billing-report.service.ts:21-62 | one row per plan holding exactly its cycles, and totals equal to the sum over the rows |
| Revenue.ReportByDay | src/modules/episode-access/billing-reports/billing-report.service.ts:64-79 | one row per day holding exactly its cycles |
| Revenue.RowsAddUp | src/modules/episode-access/billing-reports/billing-report.service.ts:21-79 | any grouping counts every cycle in exactly one row, so the rows add up to the total |
| Revenue.ViewsAgree | src/modules/episode-access/billing-reports/billing-report.service.ts:21-79 | both views of one range count the same cycles and the same main and bonus Coins |
| Revenue.CoinsSplit | src/modules/episode-access/billing-reports/billing-report.service.ts:38-61 | with cycles as billed, Coins are main plus bonus overall and per plan |
| Revenue.SameRowExactly | src/modules/episode-access/billing-reports/billing-report.service.ts:64-79 | two cycles share a row by day iff they were attempted on the same UTC day, and a row by plan iff the plan is the same |
| Revenue.RowShows | src/modules/episode-access/billing-reports/billing-report.service.ts:38-79 | every column of a row is the sum of its own figure over exactly the row's cycles |
| Revenue.BilledIsCharged | src/modules/episode-access/subscription/subscription-renewal.service.ts:86-98 | a paid cycle of a subscription in good standing is reported as charged |
| DeliveryProofs.SubmitKeeps | src/modules/production/media-ingest/media-ingest.service.ts:187-214 | a delivery keeps the episode invariant, and the status it replaces can still be read off the versions |
| DeliveryProofs.RetryKeeps | src/modules/production/media-ingest/media-ingest.service.ts:150-171 | the same for running a failed delivery again |
| DeliveryProofs.ReadyIsNewest | src/modules/production/media-ingest/pipeline/media-outcome.service.ts:38-89 | a delivery that ends ready is the newest, so the branch for a newer one never supersedes a live delivery |
| DeliveryProofs.FailKeeps | src/modules/production/media-ingest/pipeline/media-outcome.service.ts:92-154 | a failure keeps the invariant and what stands behind the pending delivery |
| DeliveryProofs.AdvanceKeepsExactly | src/modules/production/media-ingest/pipeline/media-pipeline.service.ts:143-150 | a pipeline step keeps the episode invariant iff it does not write over a finished version |
| DeliveryProofs.LateAttemptIsLost | src/modules/production/media-ingest/pipeline/media-pipeline.service.ts:143-150 | a concrete input: the attempt of a failed delivery goes on, ends ready, and the episode keeps waiting for media |
| DeliveryProofs.ReviewKeeps | src/modules/production/content-review/content-review.service.ts:46-184 | approval and changes requested keep the invariant |
| DeliveryProofs.LabelKeeps | src/modules/production/content-review/ai-label.service.ts:27-78 | a new label resets the checks and keeps the gate |
| DeliveryProofs.ComplianceKeeps | src/modules/production/content-review/compliance.service.ts:83-140 | the episode passes iff label, commitment and the three answers allow it; otherwise it goes back to the studio |
| DeliveryProofs.VerdictsDecide | src/modules/production/content-review/compliance.service.ts:29-73 | the four checks pass together iff label, commitment and answers allow it |
| DeliveryVerdicts.SubmitVerdict | src/modules/production/media-ingest/media-ingest.service.ts:187-214 | a delivery is accepted iff the project is in delivery and the episode waits for it; the new version starts queued with its commitment and nothing else |
| DeliveryVerdicts.RetryVerdict | src/modules/production/media-ingest/media-ingest.service.ts:150-171 | only the newest version can be run again, iff it failed and the episode waits; it keeps everything but its status |
| DeliveryVerdicts.PendingLocks | src/modules/production/media-ingest/media-ingest.service.ts:187-223 | while a delivery is pending no other delivery, review, label or check is accepted |
| DeliveryVerdicts.ReadyVerdict | src/modules/production/media-ingest/pipeline/media-outcome.service.ts:38-89 | a delivery that ends ready is under review as the only READY version, and no version changes but in status |
| DeliveryVerdicts.FailVerdict | src/modules/production/media-ingest/pipeline/media-outcome.service.ts:92-138 | a failed delivery leaves every other version, READY ones included, as it was |
| DeliveryVerdicts.ReviewVerdict | src/modules/production/content-review/content-review.service.ts:46-184 | a version is approved iff it is READY and under review, and sent back iff that or already approved and not scheduled; the decision becomes its last review |
| DeliveryVerdicts.LabelVerdict | src/modules/production/content-review/ai-label.service.ts:27-78 | a label is saved as given iff the version is the approved one of an episode not yet scheduled, and every check of it has to be made again |
| DeliveryVerdicts.ChecksMade | src/modules/production/content-review/compliance.service.ts:27-73 | each of the four results, one by one, and nothing else of the version but a possible review |
| DeliveryVerdicts.ComplianceVerdict | src/modules/production/content-review/compliance.service.ts:83-119 | the checks are made iff the episode is labelled; it passes iff all four do, otherwise it goes back with a review and without an approved version |
| DeliveryVerdicts.LabelDecides | src/modules/production/content-review/ai-label.service.ts:27-78 | after a label the check passes iff the label is not blank, the studio committed and the sheet is clean |
| DeliveryVerdicts.EpisodeRefusals | src/modules/production/content-review/content-review.service.ts:46-75 | a refused delivery, review, label or check names the project before the episode and the version last |
| ProjectProofs.MissingExactly | src/modules/production/publishing/publication.service.ts:191-207 | for a releasable episode only the price, the synopsis and the age rating can be missing |
| DeliveryVerdicts.MissingNames | src/modules/production/publishing/publication.service.ts:191-207 | each item is named missing iff it is |
| DeliveryVerdicts.ReleaseRefusals | src/modules/production/publishing/publication.service.ts:63-130 | a refused release names project, episode, date or the missing list, in this order; a refused take-down that it is down already or lacks a mode |
| DeliveryVerdicts.PublishReuses | src/modules/production/publishing/publication.service.ts:73-101 | publishing again moves the pending release to the new date; only an episode without one gets another, of the approved version |
| DeliveryVerdicts.ReleaseVerdict | src/modules/production/publishing/publication.service.ts:210-255 | a pending release of a releasing project goes out now, ends the episode's revision, and completes the project iff every other episode is out |
| DeliveryVerdicts.EveryEpisodeCanGoOut | src/modules/production/publishing/publication.service.ts:63-101 | no episode is ever stuck: from any state within the invariants, an episode that waits for its studio is brought on air by seven calls that are all accepted, at the price set, with every other episode untouched |
| ProjectProofs.PublishKeeps | src/modules/production/publishing/publication.service.ts:63-101 | publishing or rescheduling keeps gate, mirror and project invariants |
| ProjectProofs.PublishVerdict | src/modules/production/publishing/publication.service.ts:63-101 | a release is accepted iff project, episode, date, price, synopsis and rating allow it; the episode is then SCHEDULED or PUBLISHED with exactly that release, and no other episode changes |
| ProjectProofs.UnpublishKeeps | src/modules/production/publishing/publication.service.ts:107-157 | both take-downs and a cancelled schedule keep them |
| ProjectProofs.UnpublishVerdict | src/modules/production/publishing/publication.service.ts:107-157 | a take-down is refused only if the release is already down or no mode is given on air; a live release taken down for a fix puts a completed project UNDER_REVISION and marks the episode, and otherwise the project keeps its status |
| ProjectProofs.SendBackKeeps | src/modules/production/publishing/episode-revision.service.ts:22-48 | a published episode sent back is marked, puts a completed project UNDER_REVISION, leaves any other status, and keeps all invariants |
| DeliveryVerdicts.TakeDownMeans | src/modules/production/publishing/publication.service.ts:107-157 | a take-down ends exactly the release it names, now; a version sent back keeps everything but gets the review |
| DeliveryVerdicts.TakenDownCanReturn | src/modules/production/publishing/publication.service.ts:63-157 | an episode taken off the air for good can be released again at once, as the same version |
| ProjectProofs.SweepReleases | src/modules/production/publishing/publication.service.ts:210-255 | a pending release always goes out, and only for an episode with an approved, labelled, checked version and a price |
| ProjectProofs.CancelKeeps | src/modules/production/movie-project/project-lifecycle.service.ts:89-144 | cancelling withdraws every scheduled release and keeps them |
| DeliveryVerdicts.CancelVerdict | src/modules/production/movie-project/project-lifecycle.service.ts:89-144 | a project is cancelled iff it is open and nothing of it was ever on air; every release still standing is withdrawn now, and scheduled episodes are no longer scheduled |
| DeliveryVerdicts.AssignVerdict | src/modules/production/movie-project/project-lifecycle.service.ts:31-61 | a project is assigned iff it is open, ready and has an episode; a draft becomes ASSIGNED, any other status stays |
| DeliveryVerdicts.AddEpisodeVerdict | src/modules/production/project-access/project-rules.ts:38-41 | an open project takes new episodes; one can be delivered at once iff the project is in production |
| DeliveryVerdicts.PriceVerdict | src/modules/production/publishing/pricing.service.ts:30-40 | an episode is priced, as asked, iff its project is not cancelled |
| DeliveryVerdicts.DescribeVerdict | src/modules/production/movie-project/movie-project.service.ts:120-150 | synopsis and age rating are saved as given unless the project is cancelled, and nothing else changes |
| DeliveryVerdicts.ProjectRefusals | src/modules/production/movie-project/project-lifecycle.service.ts:31-104 | a refused assignment, hand-off, cancellation or new episode names the first check that fails |
| ProjectProofs.HandOffKeeps | src/modules/production/studio-handoff/studio-handoff.service.ts:30-49 | the hand-off leaves every episode waiting for media and the project in delivery |
| DeliveryVerdicts.HandOffVerdict | src/modules/production/studio-handoff/studio-handoff.service.ts:30-49 | a hand-off is accepted once, and opens every episode for a delivery that was refused before |
| ProjectProofs.StepKeeps | src/modules/production/project-access/project-rules.ts:5-41 | every call keeps all invariants, a pipeline step as long as it does not land on a finished version |
| ProjectProofs.StepKeepsExactly | src/modules/production/media-ingest/pipeline/media-pipeline.service.ts:143-150 | any call keeps them iff it is not such a late step |
| ProjectProofs.EveryHistoryIsOk | src/modules/production/publishing/publication.service.ts:63-268 | the invariants hold in every state of every history without late pipeline steps |
| ProjectHistory.StatusIsNeverLost | src/modules/production/media-ingest/pipeline/media-outcome.service.ts:144-154 | after any history the stored versions still tell the status before the pending delivery, though nothing stores it |
| ProjectHistory.FailureGivesBackTheStatus | src/modules/production/media-ingest/pipeline/media-outcome.service.ts:92-138 | a failed delivery gives the episode back exactly the status it had before it |
| ProjectHistory.NothingUngatedGoesOut | src/modules/production/publishing/publication.service.ts:173-255 | in any history whatever is scheduled or on air is the approved READY version, labelled, checked and priced |
| ProjectHistory.ProjectFollowsEpisodes | src/modules/production/movie-project/project-lifecycle.service.ts:151-167 | a project in delivery still owes an episode; a completed one owes none and has none under revision |
| ProjectHistory.CancelledIsFinal | src/modules/production/movie-project/project-lifecycle.service.ts:89-125 | a cancelled project stays cancelled and none of its episodes was or will be released |
| DeliveryService.Project.SubmitVersion | src/modules/production/media-ingest/media-ingest.service.ts:187-223 | rows and answer are those of the value model |
| DeliveryService.Project.RetryVersion | src/modules/production/media-ingest/media-ingest.service.ts:150-171 | rows and answer are those of the value model |
| DeliveryService.Project.RecordStep | src/modules/production/media-ingest/pipeline/media-pipeline.service.ts:143-150 | the status of the step is written whatever the version has |
| DeliveryService.Project.MediaIsReady | src/modules/production/media-ingest/pipeline/media-outcome.service.ts:38-89 | the newest delivery becomes READY, older READY ones are superseded, the episode goes to review |
| DeliveryService.Project.FindStatusWithoutPending | src/modules/production/media-ingest/pipeline/media-outcome.service.ts:144-154 | the status read off the newest READY version and its last review |
| DeliveryService.Project.MediaHasFailed | src/modules/production/media-ingest/pipeline/media-outcome.service.ts:92-138 | the failed row and the status given back are those of the value model |
| DeliveryService.Project.ReviewVersion | src/modules/production/content-review/content-review.service.ts:46-58 | rows and answer are those of the value model |
| DeliveryService.Project.LabelVersion | src/modules/production/content-review/ai-label.service.ts:27-78 | label, reset checks and status are those of the value model |
| DeliveryService.Project.CheckCompliance | src/modules/production/content-review/compliance.service.ts:83-119 | check rows, status and a send-back are those of the value model |
| DeliveryService.Project.FindMissing | src/modules/production/publishing/publication.service.ts:191-207 | the list of what still blocks a release, in order |
| DeliveryService.Project.PublishEpisode | src/modules/production/publishing/publication.service.ts:63-101 | rows and answer are those of the value model |
| DeliveryService.Project.UnpublishEpisode | src/modules/production/publishing/publication.service.ts:107-157 | rows and answer are those of the value model, with the rows put back when the send-back fails |
| DeliveryService.Project.ReleaseNow | src/modules/production/publishing/publication.service.ts:210-255 | the release writes the publication first and undoes it when the project no longer releases |
| DeliveryService.Project.PublishDue | src/modules/production/publishing/publication.service.ts:173-188 | the sweep releases everything due, each exactly once, none fails, the count returned is that of the due releases, nothing due is left and no other episode changes |
| DeliveryService.Project.FailInterrupted | src/modules/production/media-ingest/pipeline/media-pipeline.service.ts:60-67 | after start-up recovery no episode is PROCESSING, each has its earlier status back |
| DeliveryService.Project.CompleteIfAllPublished | src/modules/production/movie-project/project-lifecycle.service.ts:151-167 | the project completes iff it is in delivery and every episode is out |
| DeliveryService.Project.CancelProject | src/modules/production/movie-project/project-lifecycle.service.ts:89-125 | cancelled iff still open and nothing was ever released, with all scheduled releases withdrawn |
| DeliveryService.Project.AssignStudio | src/modules/production/movie-project/project-lifecycle.service.ts:31-82 | a project is assigned iff it is open, the Creator account is active, the fee is funded, there is an episode and every episode has a milestone; refusals in that order |
| DeliveryService.Project.HandOffProject | src/modules/production/studio-handoff/studio-handoff.service.ts:30-49 | an assigned project whose deadlines are set and ahead is handed off, with every episode waiting for media; otherwise nothing changes |
| DeliveryService.Project.PlanEpisode | src/modules/production/movie-project/structure/project-structure.service.ts:44-52 | a new episode starts in the status the project's phase asks for |
| Tokens.FeeVerdict | src/modules/production/production-fee/production-fee.service.ts:92-109 | the checks read as one condition: who pays has the Token, the fee stays above zero, INITIAL comes first and once |
| Tokens.EveryRunBalances | src/modules/production/reviewer-token/reviewer-token.service.ts:39-60 | over any run no balance is negative, a funded movie has one INITIAL entry and a fee above zero |
| Tokens.FundedForever | src/modules/production/production-fee/production-fee.service.ts:55-109 | once funded, a movie keeps its one INITIAL entry and a fee above zero in every later state |
| Tokens.TokensConserve | src/modules/production/reviewer-token/reviewer-token.service.ts:39-60 | everything granted, net of take-backs, is either left in a balance or in the fee of a movie |
| Tokens.FeeEffect | src/modules/production/production-fee/production-fee.service.ts:55-91 | an accepted entry moves its amount between this Reviewer's balance and this movie's fee and nothing else; refused, nothing moves and what is left is named |
| Tokens.FeeRefusals | src/modules/production/production-fee/production-fee.service.ts:92-109 | each refusal names the first reason that applies: status, INITIAL given or missing, reason, amount, balance |
| Tokens.GrantVerdict | src/modules/production/reviewer-token/reviewer-token.service.ts:162-200 | a grant always raises the balance by its amount; a take-back lowers it by its amount, iff it has a reason and stays within what is left |
| Tokens.TakeBackUndoes | src/modules/production/reviewer-token/reviewer-token.service.ts:162-200 | a take-back of the amount granted restores everybody's figures |
| Tokens.TokenDesk.AddFeeEntry | src/modules/production/production-fee/production-fee.service.ts:55-91 | the entry is appended iff the checks allow it and the caller's balance covers it |
| Tokens.TokenDesk.AddReviewerEntry | src/modules/production/reviewer-token/reviewer-token.service.ts:162-200 | a grant is appended; a take-back iff it has a reason and does not exceed what is left |
| Tokens.TokenDesk.ReadBalance | src/modules/production/reviewer-token/reviewer-token.service.ts:39-48 | granted, allocated and left are the sums over the two ledgers |

## Left out

- A credit into a lot the caller names: no caller of the service passes one, and the lot's remainder would not follow.
- Columns no property rests on: descriptions, exchange rates of single rows, lot sources, failure texts, window end dates.
- The refund of a series: no other service calls it.
- The list of access methods and the next action of a refused decision, and the plan price shown with it.
- Opening a wallet on first use inside a purchase or a renewal: members are taken to have their wallet already.
- Billing.HistoryIsGapless: the key sent with an activation is taken to be unused; `Billing.UnchargedExactly` says what happens otherwise.
- Two activations of one pending plan at the same time: each subscription call is one step.
- TopUps.StepKeeps: one order with one payment attempt, read together in one step; deliveries have a valid signature and every retry repeats the first report.
- A settlement that fails for reasons outside the tables, such as a lost connection in the middle of a transaction.
- The time of payment a gateway names: it would only date bonus lots, and a top-up opens none.
- Two reconcile sweeps, or one and a delivery, in the middle of the batch loop: `ReconcileSweep` runs alone; for one order `TopUps` interleaves them.
- The batch loop of the top-up expiry sweep; its guarded writes are steps of the protocol.
- Concurrent calls on one project: each call is one step.
- Prices of a plan set for a future date, and access bounded by the end of the paid period: the code does not give them.
- Order among rows that tie in a sort, and among rows a query does not sort.
- Validation of requests, permissions, notifications, audit log, outbox, storage, transcoding, gateway calls and signatures.
- Daily rewards, price alerts, change requests, catalogue views and churn figures.
