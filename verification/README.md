# Quietline verification

A Dafny model of Quietline, a private credit ledger that runs inside an enclave, of the
vault contract that holds its tokens, and of the relayer between the two, with proofs of
what the three keep together.

The project has three layers.

* **The credit engine.** `Model.dfy` holds the records, `Operations.dfy` and `Matching.dfy`
  every mutation and the quote as a function from one book to the next or an error,
  `Loans.dfy` accrual and risk. `Invariants.dfy` states what sound books are, and
  `Conservation.dfy`, `Lending.dfy`, `Interest.dfy`, `Repayment.dfy`, `Closing.dfy`,
  `Liquidation.dfy`, `Lenders.dfy`, `RiskTicks.dfy`, `TickOutcomes.dfy`, `Withdrawals.dfy`, `Acceptance.dfy`,
  `UnusableIds.dfy`, `RoundTrips.dfy`, `Exposure.dfy`, `Nonces.dfy` and `Ledger.dfy` prove what
  each operation does to them. `Figures.dfy`, `Payments.dfy`, `TickFigures.dfy`, `Lifetimes.dfy` and
  `Admission.dfy` state the amounts, thresholds and checks as plain arithmetic on the records,
  without the functions that compute them. `Computation.dfy`
  and `Engine.dfy` are the source's own form: loops with running totals, and an engine object
  with a durable store, each method proved equal to the function above.
* **The anchoring protocol.** `Settlements.dfy`, `Handlers.dfy` and `Vault.dfy` model what is
  signed, by which handler, and what the vault does with it. `Protocol.dfy` is the whole system
  as a state machine, `Runs.dfy` proves its invariant, `Safety.dfy` states what that means,
  `Clearing.dfy` which pending anchors can still be cleared, `Credits.dfy` which credits are refused,
  `Payees.dfy` who is paid, `Stranding.dfy` how a lost response holds everything up, `LateSigning.dfy` what a late signature does.
  `AnchorGate.dfy` takes the engine's lock, channel and waiters one memory access at a time.
* **The relayer.** `Jobs.dfy` is the job table, one job's processing and the drain loop,
  `Sending.dfy` how a settlement is brought to the chain, with broadcasts and reads that may be lost,
  `Relayer.dfy` the indexer and everything interleaved, with crashes.

Unchecked `uint64` updates are written as `WrapAdd` and `WrapSub`; that those of balances never
wrap in sound books is proved, not assumed. Account nonces count modulo 2^64
(`Nonces.NonceCountsOperations`). A chain of calls that returns an error leaves the state as it
was, as the source's private JSON copy does.

## Assumptions

* Cumulative deposits per asset, backstop funding included, stay below 2^64 base units
  (`Protocol.CreditsFit`); per-operation lemmas state the same bound on the books.
* A borrower's loan id is not empty and does not name an open loan. The engine does not
  check this; `Lending.AcceptKeepsBooksExactlyForUsableIds` proves that the books survive
  acceptance if and only if it holds. The client sends a random UUID.
* Hashes are ideal: state roots, the journal's chain, settlement ids and deposit ids are
  distinct for distinct preimages, and the matcher's tie-break is injective. Signatures cannot
  be forged: the vault accepts exactly the settlements that the enclave signed.
* Account keys are canonical lower-case addresses. Instants are integers of 63 bits, the clock is
  read once in each operation, also in one that waits, and state sequence numbers do not overflow.
* Go's map iteration order is a parameter, so every statement holds for every order.
* In `Protocol`'s runs no other handler and no RECOVER_ANCHOR comes between a handler's mutation and its
  signature. The pending anchor is read again when signing, so the code has this race; `LateSigning.dfy` proves
  when a late signature is harmless and what it does otherwise. A crash may fall there, and between the database
  write and the memory write of a mutation or a confirmation; the vault and depositors may act at any moment.
  View reads of the vault are not atomic with anything: they may return older values, from different moments.
* A token transfer out of the vault succeeds whenever its balance suffices and the destination is not zero.
* The relayer's endpoint shows a view of the chain that only moves forward, and no transaction of the relayer's is
  replaced by another with the same account nonce.
* A mandate's rate is at most 2000 basis points, as `SetMandate` demands, so adding the spread to it in 32 bits
  does not wrap.
* The chain does not reorganise, the two token addresses differ, and no two vault instructions
  share a request id. The relayer's database writes succeed or the process crashes.

## Where the code does not do what one might expect

* A loan past its grace period is not always liquidatable: when its loan-to-value ratio rounds
  to zero, `updateRisk` calls it healthy (`Loans.LateLoanCanStayHealthy`). `Loans.LiquidatableExactly`
  gives the condition.
* A loan whose loan-to-value ratio rounds to zero is published with liquidation price 0, although a low enough
  price liquidates it (`Figures.RoundedRatioHidesThePrice`). Otherwise the published price is tight
  (`Figures.AboveLiquidationPrice`).
* The loan-to-value gate of a quote rounds down, and a partial fill rounds again, so a loan of one or
  two base units can start out liquidatable (`Acceptance.PartialFillJustAboveHalfCanStartLiquidatable`).
  `Acceptance.OnlyDustStartsLiquidatable` shows that this happens to no other loan.
* A lender can earn more than its pro-rata share of the interest (`Interest.DearLenderBeatsProRata`). It can if
  and only if its own rate exceeds the borrower's, which is the average plus the spread
  (`Interest.NeverBeatsProRataExactly`); being above the average is not enough. The lenders together still never
  earn more than is paid.
* A deposit that is on chain can be refused for good. Deposits share the set of processed ids with operations
  that users name themselves, so an account opened or a loan repaid under a deposit's id leaves the deposit a
  duplicate, and RECOVER_DEPOSIT reports it as already processed (`Credits.DepositIdCanBeTaken`).
  `Credits.CreditAcceptedExactly` gives the condition. The funds stay in the vault and count as unbooked.
* A payout anchor can hold up every further mutation. Nothing clears it if its signature failed, its deadline has
  passed, the destination named in a withdrawal is the zero address, or its response never left the enclave:
  a mandate withdrawal whose response key has the right length and first byte but is not a point of the curve is
  committed and signed before its response fails to be encrypted (`Stranding.LostResponseStrands`).
  `Clearing.ClearableExactly` gives the condition on the state, `Payees.PayoutClearableExactly` the one that can
  be checked before the call.
* A handler that signs after its own anchor was cleared signs over whichever anchor is pending by then. A checkpoint
  signed late over a payout makes the vault skip the payout and keep the money (`LateSigning.LateCheckpointHappens`).
  A late checkpoint is harmless if and only if the anchor pending at that moment is of a recoverable kind
  (`LateSigning.LateCheckpointIsHarmlessExactly`).
* The relayer can broadcast two transactions for one settlement, when it cannot see the first one executed
  (`Sending.LostAnswerIsSentTwice`); one is executed at most, and once a call has returned, none is sent again
  (`Sending.ReturnedIsNeverSentAgain`).
* One loan that cannot be assessed, one seizure that cannot be computed or one full interest counter fails the risk
  tick for every loan (`TickOutcomes.TickSucceedsExactly`). When the backstop cannot pay for all liquidatable loans,
  the order of the map decides which ones it pays for (`TickOutcomes.ShortBackstopTakesTheFirst`,
  `TickOutcomes.OrderMattersExactly`).

## Model

| member | source | states |
|---|---|---|
| Arithmetic.ComputeMulDivBy | extension/internal/ledger/arithmetic.go:28-49 | the big-integer loops yield the exact quotient of the products, rounded as asked, or division by zero if any divisor is zero, or overflow above 64 bits |
| Arithmetic.CeilingBounds | extension/internal/ledger/arithmetic.go:40-48 | rounding up gives the least integer whose multiple reaches the numerator |
| Computation.ComputeWeightedAverage | extension/internal/ledger/arithmetic.go:51-68 | the accumulating loop yields the floor of total cost over total principal, within 32 bits |
| Loans.SplitAccrualNeverExceedsDirect | extension/internal/ledger/engine.go:425-456 | accruing at any ascending instants never exceeds one accrual straight to the last, also across the late-rate boundary; at one rate the shortfall is less than the number of instants |
| Loans.DebtNeverFallsBelowPrincipal | extension/internal/ledger/engine.go:425-456 | over any instants the debt never decreases and never falls below the principal |
| Loans.LiquidatableExactly | extension/internal/ledger/engine.go:458-504 | a risk update finds a loan liquidatable if and only if its collateral is worth nothing, or at most debt/0.65, or it is late and its collateral is worth at most 10000 times the debt |
| Loans.StatusNeverImprovesWhenPriceFalls | extension/internal/ledger/engine.go:458-504 | for fixed debt, collateral and time a lower price never gives a better status |
| Loans.AtOrBelowLiquidationPrice | extension/internal/ledger/engine.go:458-504 | every price at or below the liquidation price that an update published gives liquidatable |
| Loans.HealthFactorTells | extension/internal/ledger/engine.go:484-503 | unless it is late, a loan is liquidatable if and only if its published health factor is at most one |
| Loans.AboveThresholdIsNotLiquidatable | extension/internal/ledger/engine.go:458-504 | before late maturity, collateral worth one unit more than the threshold is not liquidatable |
| Loans.LateLoanCanStayHealthy | extension/internal/ledger/engine.go:475-480 | a concrete late loan whose ratio rounds to zero is called healthy |
| Loans.UpdateRiskIdempotent | extension/internal/ledger/engine.go:458-504 | a second risk update at the same price and instant changes nothing |
| Figures.AccruesExactly | extension/internal/ledger/engine.go:425-452 | accrual adds the floor of principal, rate and elapsed seconds over 10000 and a year, in millionths, at a rate 300 higher from one day after maturity, and moves the instant; with no time passed nothing changes |
| Figures.AccrualSucceedsExactly | extension/internal/ledger/engine.go:425-452 | accrual fails only when the interest with the new part does not fit in 64 bits |
| Figures.ThirtyDays | extension/internal/ledger/engine.go:425-456 | a thousand units at 6.5 percent owe 1005.342465 after thirty days |
| Figures.PublishesExactly | extension/internal/ledger/engine.go:458-504 | the published liquidation price is the largest at which 65 percent of the worth, unrounded, is within the debt; the health factor is 65 percent over the rounded ratio; each of the four statuses holds if and only if the loan is in its band |
| Figures.HealthFactorBounds | extension/internal/ledger/engine.go:484-487 | the health factor lies between these bounds in debt and worth |
| Figures.RiskUpdateSucceedsExactly | extension/internal/ledger/engine.go:458-504 | a risk update fails only when the worth, the debt, the ratio or the price does not fit in 64 bits |
| Figures.AboveLiquidationPrice | extension/internal/ledger/engine.go:488-499 | a price above the published one by more than one rounding of the worth does not liquidate a loan that is not late |
| Figures.RoundedRatioHidesThePrice | extension/internal/ledger/engine.go:478-483 | a concrete loan is published with price 0 and is liquidated at a positive price |
| Computation.ComputeAccrue | extension/internal/ledger/engine.go:425-456 | the accrual as written computes the specified record or error |
| Computation.ComputeUpdateRisk | extension/internal/ledger/engine.go:458-504 | the risk update as written computes the specified record or error |
| Computation.ComputeFill | extension/internal/ledger/engine.go:268-287 | the greedy loop with its running remainder yields the specified tranches and the unfunded rest |
| Computation.ComputeQuote | extension/internal/ledger/engine.go:234-310 | the quote as written computes the specified quote or error |
| Matching.FillBounds | extension/internal/ledger/engine.go:268-291 | the greedy loop funds the request or everything the mandates allow, whichever is less |
| Matching.GreedyIsCheapest | extension/internal/ledger/engine.go:252-287 | among all ways to lend the funded amount within the limits, the greedy one over mandates sorted by rate has the least principal times rate |
| QuoteFacts.RankedExact | extension/internal/ledger/engine.go:252-267 | the ranked list holds exactly the eligible mandates, each once, cheapest first |
| QuoteFacts.QuoteIgnoresEnumerationOrder | extension/internal/ledger/engine.go:252-267 | the quote is the same for every enumeration order of the mandate map |
| QuoteFacts.QuoteFundsAllItCan | extension/internal/ledger/engine.go:252-295 | the funded amount is the lesser of the request and the sum, over eligible mandates, of the lesser of available liquidity and cap |
| QuoteFacts.QuoteIsCheapest | extension/internal/ledger/engine.go:252-295 | no feasible allocation of the quoted amount over the eligible mandates costs the borrower less |
| QuoteFacts.QuoteTranches | extension/internal/ledger/engine.go:268-287 | tranches come from distinct eligible mandates, at their rates, for their lenders, within their limits |
| QuoteFacts.QuoteRateWithinBound | extension/internal/ledger/engine.go:289-297 | the borrower's rate is the floor of the average plus the spread and never exceeds the bound in the request |
| QuoteFacts.PartialFillKeepsCollateralisation | extension/internal/ledger/engine.go:241-251 | a partial fill's collateral is worth at least its share of the request's value, and if twice the request fits in that value then twice the fill fits in the fill's |
| QuoteFacts.QuotedCollateralBounds | extension/internal/ledger/engine.go:285-299 | quoted collateral covers its pro-rata share, never exceeds the request's, and is positive |
| Admission.QuoteSucceedsExactly | extension/internal/ledger/engine.go:234-310 | a quote is given if and only if amount and collateral are positive, the term 7, 14 or 30 days, the bound at least 650, the request unexpired, the price at most 300 seconds old, the rounded ratio at most one half, and some mandate can lend |
| Admission.QuoteAtPriceSucceedsExactly | extension/internal/ledger/engine.go:222-232 | the same at an observed price, which must not be from the future either |
| Admission.QuoteSaysExactly | extension/internal/ledger/engine.go:268-310 | a quote copies the request, funds the lesser of the request and what may be drawn, charges the floor of the average and 50 more, and asks for the least collateral covering the funded part |
| Admission.QuoteOrder | extension/internal/ledger/engine.go:257-267 | its tranches are in order of rate, and at equal rates in the order of the hash of mandate and request |
| Invariants.NewBookSound | extension/internal/ledger/model.go:130-132 | the empty ledger is sound and holds nothing |
| Conservation.OpenAccountKeeps | extension/internal/ledger/engine.go:138-149 | opening an account keeps the books and moves nothing |
| Conservation.DepositKeeps | extension/internal/ledger/engine.go:151-170 | a deposit adds exactly its amount to one asset and keeps the books |
| Conservation.DepositSucceedsExactly | extension/internal/ledger/engine.go:151-170 | within the cumulative bound a deposit is refused only as a zero amount or because its id is already processed, by a deposit or by any other operation |
| Admission.DepositCreditsExactly | extension/internal/ledger/engine.go:151-170 | a deposit reaches its owner's free balance and the log, and nothing else changes |
| Conservation.SeedBackstopKeeps | extension/internal/ledger/engine.go:571-586 | backstop funding adds exactly its amount and keeps the books |
| Conservation.SetMandateKeeps | extension/internal/ledger/engine.go:172-194 | a mandate moves funds from available to reserved without wrapping and keeps the books |
| Conservation.CancelMandateKeeps | extension/internal/ledger/engine.go:196-214 | cancelling returns exactly the unlent part without wrapping and keeps the books |
| Conservation.WithdrawFromMandateKeeps | extension/internal/ledger/engine.go:801-836 | a mandate withdrawal takes exactly its amount from that mandate and from the reserve that mirrors it |
| Admission.OpenAccountSucceedsExactly | extension/internal/ledger/engine.go:138-149 | succeeds if and only if the id is new and the nonce right; only the owner's nonce and the processed set change |
| Admission.SeedBackstopSucceedsExactly | extension/internal/ledger/engine.go:571-586 | succeeds if and only if the amount is positive, the id new and the sum fits in 64 bits |
| Admission.SetMandateSucceedsExactly | extension/internal/ledger/engine.go:172-194 | succeeds if and only if amount, rate, terms and cap are in range, the id is new, the nonce right and the free balance enough |
| Admission.CancelMandateSucceedsExactly | extension/internal/ledger/engine.go:196-214 | succeeds if and only if the mandate is the caller's own and active and the nonce right |
| Admission.WithdrawFromMandateSucceedsExactly | extension/internal/ledger/engine.go:801-836 | succeeds if and only if the amount is positive, the id new, the mandate is the caller's own and active with enough available, and the nonce right; the mandate stays active unless nothing is left or lent |
| Admission.LiquidateSucceedsExactly | extension/internal/ledger/engine.go:554-569 | succeeds if and only if the id is new, the loan stored as liquidatable, and the liquidation itself possible |
| Lending.AllocateEffect | extension/internal/ledger/engine.go:350-357 | allocation moves each mandate's part from available to lent and nothing else, without wrapping |
| Lending.AcceptedTerms | extension/internal/ledger/engine.go:324-335 | whatever the client sent, an accepted quote has terms that the current books would quote |
| Lending.AcceptKeepsBooksExactlyForUsableIds | extension/internal/ledger/engine.go:312-372 | acceptance keeps the books if and only if the loan id is non-empty and names no open loan; then exactly the loan amount leaves the free funds and becomes debt |
| Lending.UnusableLoanIdBreaks | extension/internal/ledger/engine.go:363 | with any other id, writing the loan breaks the books |
| UnusableIds.EmptyLoanIdIsAcceptedAndBreaks | extension/internal/ledger/engine.go:312-372 | a concrete quote over sound books is accepted under the empty loan id and breaks them |
| Acceptance.RecomputedQuoteAgrees | extension/internal/ledger/engine.go:312-335 | over unchanged mandates an unexpired quote is recomputed to the same terms, at any fresh price that passes the gate and in any map order |
| Acceptance.FirstAssessmentSucceeds | extension/internal/ledger/engine.go:358-362 | the new loan's first risk update cannot fail, and is at worst restricted when twice the request fits in its value |
| Acceptance.OnlyDustStartsLiquidatable | extension/internal/ledger/engine.go:241-251 | a new loan starts liquidatable if and only if it is of at most two base units with collateral worth less than twice as much |
| Acceptance.PartialFillJustAboveHalfCanStartLiquidatable | extension/internal/ledger/engine.go:241-299 | a concrete request passes the gate and a partial fill of one unit starts liquidatable |
| Acceptance.AcceptSucceedsExactly | extension/internal/ledger/engine.go:312-372 | accepting such a quote succeeds if and only if the request is new and the account has the nonce, no loan and the collateral; the per-tranche liquidity check cannot fail |
| Computation.ComputeAllocation | extension/internal/ledger/engine.go:350-357 | the allocation loop computes the specified mandates or the liquidity error |
| Interest.LendersNeverEarnMoreThanPaid | extension/internal/ledger/engine.go:632-700 | for every loan priced by the engine, lenders' interest never exceeds the borrower's, and the spread times the borrower's rate is at least 49 times the interest |
| Interest.BeatsProRataExactly | extension/internal/ledger/engine.go:632-640 | a lender earns more than its pro-rata share of an interest if and only if that share times its rate reaches one more share at the borrower's rate |
| Interest.NeverBeatsProRataExactly | extension/internal/ledger/engine.go:632-640 | a lender never earns more than its pro-rata share, whatever the interest, if and only if its rate does not exceed the borrower's |
| Interest.DearLenderBeatsProRata | extension/internal/ledger/engine.go:632-640 | a concrete lender with a rate above the borrower's earns more than its pro-rata share |
| Figures.EarnsExactly | extension/internal/ledger/engine.go:632-640 | a lender earns the floor at its rate over the borrower's of the floor of its part of the principal; from both sides this is its share of the interest by cost, less two bounded roundings |
| Figures.TogetherEarnExactly | extension/internal/ledger/engine.go:627-700 | any tranches together earn their yearly cost of the interest, from both sides, less two bounded roundings for each tranche |
| Repayment.DistributionFailsOnlyOnCounters | extension/internal/ledger/engine.go:627-704 | in sound books distribution fails only when a lifetime interest counter overflows; missing mandate, allocation or reserve underflow, tranche mismatch and excess lender interest are unreachable |
| Repayment.ReturnTrancheEffect | extension/internal/ledger/engine.go:641-690 | returning one tranche moves its principal to the mandate, or to the lender if the mandate was cancelled, plus the interest, keeping reserves mirrored |
| Computation.ComputeDistribution | extension/internal/ledger/engine.go:627-704 | the distribution loop with its two running totals computes the specified book or error |
| Lenders.DistributionPaysEachLender | extension/internal/ledger/engine.go:632-695 | whatever the books, each lender's holdings grow by exactly its interest and each mandate takes back exactly its own part of the principal, lendable again if the mandate is active |
| Lenders.RepaySettlesEveryone | extension/internal/ledger/engine.go:506-552 | a repayment takes exactly the debt from the borrower's balance, gives every account its interest, restores every mandate, and leaves the rest to the protocol's reserve |
| Lenders.LiquidationSettlesEveryone | extension/internal/ledger/engine.go:588-625 | a liquidation does the same to every account and mandate, with the backstop paying the debt |
| RoundTrips.CancelUndoesSet | extension/internal/ledger/engine.go:172-214 | setting and cancelling a mandate restores the whole book but for the nonce and an empty inactive mandate with the requested terms |
| RoundTrips.WithdrawUndoesDeposit | extension/internal/ledger/engine.go:728-791 | withdrawing what was deposited restores the whole book but for the nonce and the logs |
| RoundTrips.RepayUndoesAccept | extension/internal/ledger/engine.go:312-372 | a loan accepted and repaid at one instant restores every mandate, every lender's balances, the collateral, the debt and the pools; the borrower has paid exactly the amount |
| RoundTrips.FreshLoanOwesItsPrincipal | extension/internal/ledger/engine.go:358-363 | a new loan owes its principal, and it turns late exactly one day after its term |
| Admission.AcceptanceSucceedsExactly | extension/internal/ledger/engine.go:312-389 | whatever the client sends, it is accepted if and only if its request is new, the observed price recent, the books give the same terms now in everything but the price, and the account has the nonce, no loan and the collateral |
| Admission.AcceptedLoanExactly | extension/internal/ledger/engine.go:358-363 | acceptance stores the quote's terms from now for its days, with nothing accrued and assessed at the book's price |
| Closing.RepayExact | extension/internal/ledger/engine.go:506-552 | repayment succeeds if and only if the id is new, the nonce matches, a loan exists, its debt is computable, covered by the offer and by the balance, and counters fit; the totals, the loans, the debt and the borrower's collateral are then exact |
| Lenders.RepayChangesExactly | extension/internal/ledger/engine.go:506-552 | the whole effect of a repayment on every account, its nonce included, and on every mandate, loan, pool and log |
| Payments.RepaymentCosts | extension/internal/ledger/engine.go:506-552 | a repayment takes principal and whole units of all interest up to now from a borrower that is not its own lender, frees the collateral, and gives every account, mandate and the protocol its part of the interest, from both sides |
| Lifetimes.BorrowingCosts | extension/internal/ledger/engine.go:312-552 | from acceptance to repayment, through any operations, the borrower pays the amount and an interest between the base rate for the whole time, less one unit and a millionth for each tick, and the rate now in force for the whole time |
| Closing.RepayKeeps | extension/internal/ledger/engine.go:506-552 | repayment keeps the books, moves no funds in or out and never raises the debt |
| Liquidation.LiquidationExact | extension/internal/ledger/engine.go:588-625 | liquidation goes through if and only if the backstop covers the debt, the seizure is computable and counters fit; the totals, the loans, the debt, the backstop and the borrower's collateral are then exact |
| Lenders.LiquidationChangesExactly | extension/internal/ledger/engine.go:588-625 | the whole effect of a liquidation on every account, its nonce included, and on every mandate, loan, pool and log |
| Figures.SeizesExactly | extension/internal/ledger/engine.go:596-606 | the seizure is everything if the collateral is worth at most 10000/9500 of the debt, and otherwise the floor of that much at the price; it can be priced if and only if the price is positive and the quotient fits in 64 bits |
| Figures.SeizureCoversTheDebt | extension/internal/ledger/engine.go:596-606 | unless everything is seized, what is taken plus one unit is worth more than the debt |
| Payments.LiquidationCosts | extension/internal/ledger/engine.go:588-625 | the backstop pays the debt and receives that seizure, the borrower gets the rest, and everyone's part of the interest is as in a repayment |
| Payments.LiquidationSucceedsExactly | extension/internal/ledger/engine.go:588-625 | a liquidation of an open loan fails only if the backstop is short, the seizure cannot be priced or a counter is full |
| Liquidation.LiquidateKeeps | extension/internal/ledger/engine.go:554-569 | liquidation keeps the books, moves no funds in or out and lowers the debt by the loan's principal |
| Computation.ComputeLiquidation | extension/internal/ledger/engine.go:588-625 | liquidation as written computes the specified book or error |
| RiskTicks.TickLiquidatesAllItCan | extension/internal/ledger/engine.go:391-423 | for every loan order, after a tick each loan still liquidatable owes more than the whole remaining backstop |
| RiskTicks.SecondTickChangesNothing | extension/internal/ledger/engine.go:391-423 | a second tick at the same price and instant, in any order, succeeds and changes no balance, mandate, loan or backstop |
| TickOutcomes.TickSucceedsExactly | extension/internal/ledger/engine.go:391-423 | over sound books a tick succeeds if and only if the price is fresh, the request new, every open loan can be assessed, every loan that the backstop reaches in that order can be priced, and no mandate's lifetime interest overflows with all of them together |
| TickOutcomes.TickLeavesExactly | extension/internal/ledger/engine.go:391-423 | a tick liquidates exactly the loans that the backstop reaches, assesses the others, and leaves every account, mandate and pool at sums over the liquidated loans |
| TickOutcomes.OrderMattersExactly | extension/internal/ledger/engine.go:400-421 | two loan orders leave the same book if and only if the backstop reaches the same loans in both |
| TickOutcomes.CoveredTickIgnoresOrder | extension/internal/ledger/engine.go:400-421 | if the backstop covers all liquidatable debts, the loan order decides neither whether the tick succeeds nor what it leaves |
| TickOutcomes.ShortBackstopTakesTheFirst | extension/internal/ledger/engine.go:413-419 | of two liquidatable loans of which the backstop can pay only one, the first in the order is liquidated |
| TickFigures.TickTakesExactly | extension/internal/ledger/engine.go:391-423 | each liquidated loan's borrower loses that seizure for its stored debt at the tick's price; the backstop pays the sum of those debts and receives the sum of the seizures |
| TickFigures.TickUpdatesExactly | extension/internal/ledger/engine.go:391-423 | every open loan accrues and is reassessed in these figures, and is liquidated only if liquidatable; closed loans stay as they are |
| RiskTicks.RiskTickKeeps | extension/internal/ledger/engine.go:391-423 | in any order a tick keeps the books and moves no funds in or out |
| Computation.ComputeTick | extension/internal/ledger/engine.go:400-421 | the loop over the loans computes the specified book or error |
| Withdrawals.ByAgeExact | extension/internal/ledger/engine.go:838-853 | the list walked is exactly the owner's mandates, each once, strictly by creation and id |
| Withdrawals.ByAgeIgnoresEnumerationOrder | extension/internal/ledger/engine.go:838-853 | that list is the same for every map order |
| Withdrawals.DrainExact | extension/internal/ledger/engine.go:748-771 | the drain takes as much as is needed and available, only from listed mandates, each only after the earlier ones are empty |
| Withdrawals.WithdrawSucceedsExactly | extension/internal/ledger/engine.go:728-791 | given nonce and new id, withdrawal succeeds if and only if the amount is within the free balance plus, for USDT0, the owner's lendable mandate funds |
| Withdrawals.WithdrawKeeps | extension/internal/ledger/engine.go:728-791 | withdrawal moves out exactly its amount, drains strictly in order, and never changes lent principal or another owner's mandate |
| Withdrawals.WithdrawLeavesExactly | extension/internal/ledger/engine.go:736-791 | a free balance that covers it pays alone; otherwise all of it goes, the reserve gives the rest, and exactly the owner's mandates with nothing left or lent become inactive |
| Ordering.LexLessExactly | extension/internal/ledger/engine.go:838-853 | ids are compared at their first difference |
| Computation.ComputeDrain | extension/internal/ledger/engine.go:750-771 | the drain loop computes the specified mandates, reserve and rest |
| Computation.ComputeRetire | extension/internal/ledger/engine.go:772-782 | the retiring loop deactivates exactly the emptied mandates on the list |
| Ledger.ApplyKeeps | extension/internal/ledger/engine.go:138-836 | every operation keeps the books and moves exactly what it credits or debits, in both assets |
| Ledger.ApplyProcesses | extension/internal/ledger/engine.go:138-836 | the processed set grows by exactly the operation's id, which must be new to it, except for setting and cancelling mandates |
| Exposure.AtMostOneOpenLoan | extension/internal/ledger/engine.go:336-366 | an account has at most one open loan, names it, and reserves exactly its collateral, else nothing |
| Exposure.PerBorrowerCapHolds | extension/internal/ledger/engine.go:268-284 | what one borrower owes one mandate over all open loans never exceeds the mandate's per-borrower cap |
| Nonces.NoncesMoveOnlyByTheirOwner | extension/internal/ledger/engine.go:130-136 | an operation succeeds only on its owner's current nonce and advances that nonce alone; the others move none |
| Nonces.NonceCountsOperations | extension/internal/ledger/engine.go:130-136 | over any run of operations a nonce counts its owner's operations |
| Nonces.ReplayIsRefused | extension/internal/ledger/engine.go:130-136 | an operation that succeeded is refused when sent again, after any run of fewer than 2^64 - 1 operations of its owner |
| Engine.EqualHeadsEqualJournals | extension/internal/ledger/store.go:98-132 | two chained journals with the same last hash are identical |
| Engine.Store.Commit | extension/internal/ledger/store.go:98-132 | journal record and state are written together or not at all; the journal stays chained and ends at the state's root |
| Engine.Store.SaveState | extension/internal/ledger/store.go:134-146 | the state is replaced or not, the journal stays |
| Engine.Engine.constructor | extension/internal/ledger/engine.go:32-48 | a restart loads the durable state, with the signal closed exactly when no anchor is pending |
| Engine.Engine.Commit | extension/internal/ledger/engine.go:90-108 | the edited copy becomes durable and current with a new pending anchor and an open signal, or nothing changes |
| Engine.Engine.ConfirmAnchor | extension/internal/ledger/engine.go:706-726 | the anchor clears if and only if sequence and root match and the database accepts; repeating a confirmation succeeds without effect; the journal stays |
| Engine.Engine.AwaitAnchor | extension/internal/ledger/engine.go:59-79 | whatever others do meanwhile, the wait ends in the first state it finds with no anchor pending, or in the last one it finds when its time is over |
| Engine.Engine.OpenAccount | extension/internal/ledger/engine.go:138-149 | to the state found after the wait, commits exactly the specified book, or returns the error and changes nothing |
| Engine.Engine.Deposit | extension/internal/ledger/engine.go:151-170 | the same for deposits; a zero amount is refused without waiting |
| Engine.Engine.SeedBackstop | extension/internal/ledger/engine.go:571-586 | the same for backstop funding |
| Engine.Engine.SetMandate | extension/internal/ledger/engine.go:172-194 | the same for new mandates |
| Engine.Engine.CancelMandate | extension/internal/ledger/engine.go:196-214 | the same for cancelled mandates |
| Engine.Engine.QuoteAtPrice | extension/internal/ledger/engine.go:222-232 | a stale observation is refused, otherwise the specified quote |
| Engine.Engine.AcceptQuote | extension/internal/ledger/engine.go:312-372 | to the state found after the wait, commits exactly the specified book, or returns the error and changes nothing |
| Engine.Engine.RiskTick | extension/internal/ledger/engine.go:391-423 | the same for risk ticks |
| Engine.Engine.Repay | extension/internal/ledger/engine.go:506-552 | the same for repayments |
| Engine.Engine.Liquidate | extension/internal/ledger/engine.go:554-569 | the same for liquidations |
| Engine.Engine.Withdraw | extension/internal/ledger/engine.go:728-791 | the same for withdrawals |
| Engine.Engine.WithdrawFromMandate | extension/internal/ledger/engine.go:801-836 | the same for mandate withdrawals |
| Settlements.TermsPayTheDebit | extension/internal/extension/handlers.go:60-62 | the payout that a handler signs equals, in each asset, the debit that the ledger books |
| Settlements.RecoveryNeverDropsAPayout | extension/internal/extension/anchor.go:49-62 | of the operations that have a handler, exactly those signed as a checkpoint can be signed again as one, and they debit nothing |
| Handlers.Extension.Sign | extension/internal/extension/settlement.go:22-46 | a signature binds the terms to the anchor that is pending when signing, or nothing is signed |
| Handlers.Extension.HandleDeposit | extension/internal/extension/handlers.go:19-34 | unless decoding fails, waits, runs the deposit and then signs a checkpoint, or reports the error with nothing signed |
| Handlers.Extension.HandleBackstopDeposit | extension/internal/extension/handlers.go:119-130 | the same for backstop funding |
| Handlers.Extension.HandleBorrowAccept | extension/internal/extension/handlers.go:36-66 | unless decryption or the sender's signature fails, accepts for the sender and then signs a payout of the loan amount to the sender |
| Handlers.Extension.HandleWithdrawal | extension/internal/extension/handlers.go:68-104 | refused before the mutation for an unknown token or account, or liquidity that is unknown or below the amount; otherwise debits under the nonce read earlier and then signs that payout to the named destination |
| Handlers.Extension.HandleRiskTick | extension/internal/extension/handlers.go:106-117 | runs the tick and then signs a checkpoint |
| Handlers.Extension.HandleSignedDirect | extension/internal/extension/handlers.go:132-231 | mutations end in a checkpoint, a mandate withdrawal in its own payout, queries and anything else change nothing; a response that cannot be encrypted is an error although the settlement was signed |
| Handlers.Extension.HandleAnchorConfirmation | extension/internal/extension/anchor.go:19-29 | succeeds if and only if the payload, the vault's two values and the engine agree and, while an anchor is pending, the database accepts; then the anchor is cleared, otherwise nothing changes |
| Handlers.Extension.HandleAnchorRecovery | extension/internal/extension/anchor.go:31-47 | signs a checkpoint over a pending anchor of a recoverable kind, otherwise nothing |
| Handlers.Extension.HandleDepositRecovery | extension/internal/extension/deposit_recovery.go:31-112 | without an agreeing record nothing happens; with one, exactly what a direct deposit does, a duplicate being reported as already processed |
| Payees.HandledPays | extension/internal/extension/settlement.go:22-46 | a settlement that a handler returns pays in type, token, amount and destination what its operation calls for, for its account and request, for 600 seconds |
| Vault.QuietVault.Deposit | contracts/contracts/QuietVault.sol:142-156 | commits exactly the specified balance, nonce, record and instruction, or reverts to the old state, also when the instruction cannot be sent |
| Vault.QuietVault.FundBackstop | contracts/contracts/QuietVault.sol:179-190 | the same for backstop funding, which only an operator may do and which leaves no deposit record |
| Vault.QuietVault.ExecuteSettlement | contracts/contracts/QuietVault.sol:221-251 | advances sequence and root, uses the id and pays, or reverts every write, a failed transfer included |
| Vault.ExecutesExactly | contracts/contracts/QuietVault.sol:221-251 | any settlement executes if and only if all these checks pass; then exactly its amount leaves, unless to the vault itself |
| Vault.ReceivesExactly | contracts/contracts/QuietVault.sol:142-190 | a transfer in is accepted if and only if token, amount, receipt, nonce and instruction are in order, and credits exactly what arrived |
| Vault.DepositsAndFundsExactly | contracts/contracts/QuietVault.sol:142-190 | a deposit is also put on record; only an operator funds the backstop |
| Vault.ExecutedAtMostOnce | contracts/contracts/QuietVault.sol:221-251 | after an execution and any further steps, no settlement with that id or that sequence number executes again |
| Vault.ReceiveIsFresh | contracts/contracts/QuietVault.sol:150-153 | a deposit id never collides with an earlier credit, and every record stays the record of one deposit |
| Runs.EveryRunKeepsInv | extension/internal/ledger/engine.go:59-109 | every run of deposits, database writes, installations with signatures, executions, confirmations, crashes and stray transfers keeps the protocol's invariant |
| Runs.ConfirmationIsNeverEarly | extension/internal/extension/anchor.go:64-103 | a confirmation takes effect only while the vault is level with the engine, though its two reads may be older and from different moments |
| Runs.ExecutedIsPending | contracts/contracts/QuietVault.sol:221-251 | a settlement passes the gate only if it is the one for the pending anchor, with the terms of the last mutation |
| Runs.CrashLosesOnlyMemory | extension/internal/ledger/store.go:71-96 | a crash at any moment, also between the database write and the memory write, keeps the invariant and ends as the installation would, but without its signature; at rest it changes nothing |
| Safety.VaultAlwaysCoversTheLedger | contracts/contracts/QuietVault.sol:221-251 | after every run the vault holds all available balances, mandate funds, reserve and backstop, the payout not yet executed and every credit on chain that no operation has booked, refused ones included, in both assets |
| Safety.NothingIsCreatedOrLost | extension/internal/ledger/engine.go:138-836 | after every run the free funds are exactly all credits less all debits ever booked, and the books are sound |
| Safety.ExposureStaysCapped | extension/internal/ledger/engine.go:268-284 | the per-borrower cap holds after every run |
| Safety.CreditsAreBookedAtMostOnce | extension/internal/extension/deposit_recovery.go:31-68 | over DEPOSIT, RECOVER_DEPOSIT and retries each on-chain credit is booked at most once, for its own account, asset and amount |
| Safety.EngineAndVaultInLockstep | extension/internal/extension/anchor.go:19-62 | with no anchor pending engine and vault have the same sequence and root; with one pending the vault is at its previous or its next |
| Safety.EveryStepIsPaidExactlyOnce | extension/internal/extension/handlers.go:36-130 | each vault sequence number has exactly one executed settlement, which paid in each asset exactly what the ledger debited in that step |
| Payees.EveryPayoutReachesItsPayee | extension/internal/extension/handlers.go:36-231 | after every run each executed settlement paid a loan to its borrower, a withdrawal to the destination that was named, and nobody for anything else, in the operation's type, token and amount |
| Payees.EverySignatureNamesItsPayee | extension/internal/extension/settlement.go:22-46 | the same of every settlement ever signed |
| Safety.SigningAgainNeverForks | extension/internal/extension/settlement.go:22-46 | two settlements signed for one sequence number have the same roots and the same payout |
| Safety.GateAdmitsOnlyThePendingAnchor | contracts/contracts/QuietVault.sol:221-225 | a signed settlement at the vault's sequence advances it, is for the last mutation, and has an unused id |
| Safety.SignedSettlementExecutesExactly | contracts/contracts/QuietVault.sol:221-251 | after every run a signed settlement executes if and only if it is next, not expired, names a destination if it pays, and is not a borrow payout during a pause; liquidity never refuses it |
| Clearing.ClearableExactly | extension/internal/extension/anchor.go:31-62 | from every reachable state with an anchor pending and the vault behind, some continuation clears it if and only if its kind is recoverable or a settlement for it has left the enclave that is not expired and names a destination |
| Payees.PayoutClearableExactly | extension/internal/extension/handlers.go:36-222 | a payout that a handler commits and signs can be cleared if and only if its response is delivered, which takes a response key on the curve, and the borrower or the named destination is not zero |
| Stranding.LostResponseStrands | extension/internal/extension/handlers.go:155-222 | a concrete run of a mandate withdrawal whose response cannot be encrypted: signed, unexpired, with a destination, and nothing clears it |
| LateSigning.LateSigningKeepsInvExactly | extension/internal/extension/settlement.go:22-46 | signing an entry's terms over the anchor pending at that moment keeps the protocol's invariant if and only if that anchor calls for the same terms |
| LateSigning.LateCheckpointIsHarmlessExactly | extension/internal/extension/settlement.go:22-46 | a checkpoint signed late keeps the invariant if and only if the anchor pending at that moment is of a recoverable kind |
| LateSigning.LateCheckpointSkipsThePayout | contracts/contracts/QuietVault.sol:221-251 | over a payout, the vault accepts it, pays nothing of what the ledger booked out and refuses every settlement for that payout afterwards, and the engine clears the anchor |
| LateSigning.LateCheckpointHappens | extension/internal/extension/settlement.go:22-46 | a concrete run in which a deposit's late checkpoint makes the vault skip a withdrawal |
| Credits.CreditAcceptedExactly | extension/internal/ledger/engine.go:151-170 | after every run an authentic credit is accepted if and only if no operation has booked it and no other operation has taken its id, and is otherwise a duplicate |
| Credits.TakenCreditIsNeverBooked | extension/internal/extension/deposit_recovery.go:31-68 | a credit whose id was taken first is never booked, whatever follows |
| Credits.DepositIdCanBeTaken | extension/internal/extension/handlers.go:136-141 | a concrete run opens an account under a deposit's id, and the deposit is refused |
| Safety.HandledIsTwoSteps | extension/internal/extension/handlers.go:19-231 | whatever a handler returns, it moved engine and signatures as the protocol's database write and installation do |
| Safety.RecordIsAuthentic | extension/internal/extension/deposit_recovery.go:70-112 | a deposit that agrees with the vault's record is one that the vault instructed |
| AnchorGate.MutationIsAPath | extension/internal/ledger/engine.go:59-109 | a whole mutation of the engine is a path of single accesses through the gate, from what the gate sees of the old state to what it sees of the committed one |
| AnchorGate.ConfirmationIsAPath | extension/internal/ledger/engine.go:706-726 | a whole confirmation is such a path, and it closes the very signal that was open |
| AnchorGate.StepKeepsInv | extension/internal/ledger/engine.go:59-109 | every memory access of every thread, and every crash, keeps the gate's invariant |
| AnchorGate.LockExcludes | extension/internal/ledger/engine.go:59-109 | two threads are never between lock and unlock together |
| AnchorGate.SignalTellsWhetherAnAnchorIsPending | extension/internal/ledger/engine.go:94-108 | whenever the lock is free the signal is closed exactly when no anchor is pending, no channel is closed twice, and at most one mutation is unconfirmed |
| AnchorGate.NoLostWakeUp | extension/internal/ledger/engine.go:59-81 | a waiter's captured channel is open while its anchor is pending and closed once it is not, except while the confirming thread is about to close that very channel |
| AnchorGate.HolderCanProceed | extension/internal/ledger/engine.go:706-726 | the holder of the lock can always take a step towards its release |
| Jobs.Store.CreateJob | relayer/src/db.ts:96-131 | a known external key adds nothing and returns its job; otherwise one queued job is added; keys stay unique |
| Jobs.Store.UpdateJob | relayer/src/db.ts:133-159 | one row changes, never its origin |
| Jobs.Store.Retry | relayer/src/db.ts:195-203 | exactly failed jobs are reset, to submitted or queued |
| Jobs.NextRunnable | relayer/src/db.ts:183-193 | the oldest unfinished job, or none if all are finished |
| Jobs.ProcessingEndsTheJob | relayer/src/orchestrator.ts:110-185 | whatever is answered, the job ends confirmed or failed; confirmed exactly when the normal path went through or a pending anchor and an on-chain deposit were both recovered |
| Jobs.AnchorRecoveredExactly | relayer/src/orchestrator.ts:221-246 | a pending anchor is recovered if and only if it is signed again, the vault is at its previous or next state, it executes if at the previous, and it is confirmed |
| Jobs.DepositRecoveredExactly | relayer/src/orchestrator.ts:197-219 | a deposit is recovered if and only if the enclave books it or had booked it, and a new booking executes and is confirmed |
| Jobs.ActionIsRemembered | relayer/src/orchestrator.ts:121-131 | whatever fails, the action's id that was known, requested or returned stays with the job |
| Jobs.RetryNeverSubmitsAgain | relayer/src/db.ts:195-203 | a retried job whose action is known polls it and never submits again |
| Jobs.RecordedExactly | relayer/src/orchestrator.ts:144-166 | a transaction is recorded only once it is confirmed |
| Sending.CallSendsExactly | relayer/src/chain.ts:94-124 | whatever happens on the chain meanwhile, a call broadcasts one transaction if its first look succeeds, finds the id unused and the endpoint does not refuse it, and none otherwise |
| Sending.CallReturnsExactly | relayer/src/chain.ts:94-124 | what a call returns is the settlement's execution, whoever sent it; with readable looks it returns if and only if the settlement is executed by then; an unreadable first look fails and does nothing |
| Sending.ReturnedIsNeverSentAgain | relayer/src/chain.ts:94-124 | after every run, once a call has returned for a settlement, no retry, recovery or crash makes the relayer send a transaction for it, and every later return is the same hash |
| Sending.SecondSendFoundNoExecution | relayer/src/chain.ts:94-124 | after every run, a second transaction for one settlement was sent after a look that came after the first broadcast and found no execution, and not both are executed |
| Sending.ReturnedIsExecuted | relayer/src/chain.ts:126-146 | after every run, what was returned for a settlement is its one execution |
| Sending.LostAnswerIsSentTwice | relayer/src/chain.ts:94-124 | a concrete run in which a settlement is sent twice, executed once, and the first hash returned |
| Sending.CallIsAPath | relayer/src/chain.ts:94-124 | a call with everything that happens meanwhile is a run of the state machine that the statements on runs are about |
| Sending.ChainClient.SettlementTransaction | relayer/src/chain.ts:126-146 | a failed read or a missing event fails, an unused id yields nothing, a used one the hash of its last event |
| Sending.ChainClient.Execute | relayer/src/chain.ts:94-124 | the call as written, with its catch branch, leaves the specified view and returns the specified reply |
| Jobs.KnownTransactionIsKept | relayer/src/orchestrator.ts:248-252 | a job with a known transaction does not depend on sending it again |
| Jobs.Orchestrator.Process | relayer/src/orchestrator.ts:110-185 | with anything arriving during its waits, the row updates of one processing leave exactly the specified row, no other unfinished row is touched, and every row keeps its origin |
| Jobs.Orchestrator.Drain | relayer/src/orchestrator.ts:93-108 | when the drain stops no runnable job remains and no wake-up is unheard, whatever arrived meanwhile; rows keep their origin |
| Jobs.Orchestrator.Wake | relayer/src/orchestrator.ts:82-85 | while running it leaves a request, otherwise it drains |
| Relayer.Indexer.Poll | relayer/src/indexer.ts:33-62 | with the endpoint failing at any window, every block below the cursor stays covered by jobs, keys stay unique, the cursor never falls, and with enough successful windows it passes the known height |
| Relayer.EveryRunKeepsInv | relayer/src/indexer.ts:33-62 | every interleaving of blocks, polls, requests, processing, failures and crashes keeps the relayer's invariant |
| Relayer.EveryEventBelowTheCursorHasExactlyOneJob | relayer/src/indexer.ts:33-62 | after every run each vault event below the cursor has exactly one job, made from that event |
| Relayer.NoEventHasTwoJobs | relayer/src/db.ts:96-131 | no event ever has two jobs, and no key exists without its event |
| Relayer.NoRunnableJobIsStranded | relayer/src/orchestrator.ts:82-108 | whenever the drain is not running every job is confirmed or failed and no wake-up is unheard |

## Left out

- Cryptography, EIP-712 and ABI packing, ECIES, AES-GCM: library code, replaced by ideal tokens and hashes.
- HTTP servers, session authentication, polling of the enclave, Ethereum clients, SQLite and Bolt internals: I/O; only their logical effect is kept.
- How long a call waits for a pending anchor: a wait may end after any number of wake-ups, and others may leave any consistent engine meanwhile. `AnchorGate.dfy` has the threads, the lock and the channel.
- Interleaving of a handler between its mutation and its signature with another handler or RECOVER_ANCHOR, as part of longer runs: see the assumptions; `LateSigning.dfy` has the single step.
- The contents of messages and queries: decoding, decryption, signature checks and view reads appear as a failure that may come before the engine is called; `accountView` and `stressView` are queries that change nothing. The latter does not agree with accrual and risk in the ledger, so nothing is claimed of it.
- Two settlements for one anchor: a handler's and the one that RECOVER_ANCHOR signs have different ids, so `Sending.dfy` counts them separately; the vault executes one for each sequence number (`Vault.ExecutedAtMostOnce`).
- The price and liquidity caches, the keeper's timer and configuration parsing: freshness comparisons only.
- Signer rotation, roles, pausing as an operation, deployment and hosting: administration; whether the vault is paused is a parameter of each execution.
- Liveness of payouts: a payout anchor without a settlement that can still be paid needs an operator by design. `Safety.SignedSettlementExecutesExactly` and `Clearing.ClearableExactly` say exactly when a payout goes through and when its anchor can be cleared.
- Fields that restate a key or are never read: an account's owner, the state's version, a loan's interest-paid figure, timestamps of job rows and error texts.
- Go's in-place edits through pointers into the private copy: operations rebuild the copy as a value, so aliasing within it is not captured; the store, the engine, the vault, the handlers, the job table and the indexer are objects that change in place.
- Frontend pages, hooks and display metrics: user interface and rounding for display.
