/**
  Every mutation of the ledger as a function from one book to the next, or an error.

  `mutate` runs each operation on a private copy and discards the copy on error, so
  a book is a value here. Unchecked uint64 updates are `WrapAdd` and `WrapSub`;
  that they never wrap is a theorem, not an assumption.
 */
module Operations {
  import opened Outcomes
  import opened Arithmetic
  import opened Model
  import opened Ordering
  import opened Selection
  import opened Loans
  import opened Matching

  function PutAccount(b: Book, owner: Owner, a: Account): Book {
    b.(accounts := b.accounts[owner := a])
  }

  function PutMandate(b: Book, m: Mandate): Book {
    b.(mandates := b.mandates[m.id := m])
  }

  function Mark(b: Book, operationId: Id): Book {
    b.(processed := b.processed + {operationId})
  }

  // ---- Accounts and deposits -----------------------------------------------------

  function OpenAccount(b: Book, owner: Owner, operationId: Id, nonce: u64): Result<Book> {
    if operationId in b.processed then Err(Duplicate)
    else
      var a :- ConsumeNonce(AccountOf(b, owner), nonce);
      Ok(Mark(PutAccount(b, owner, a), operationId))
  }

  function Deposit(b: Book, owner: Owner, asset: Asset, amount: u64, depositId: Id, now: Time): Result<Book> {
    if amount == 0 then Err(InvalidRequest)
    else if depositId in b.processed then Err(Duplicate)
    else
      var a := AccountOf(b, owner);
      var balance := a.Get(asset);
      if MAX64 - balance.available < amount then Err(BalanceOverflow)
      else
        var credited := a.Set(asset, balance.(available := WrapAdd(balance.available, amount)));
        Ok(Mark(PutAccount(b, owner, credited), depositId)
           .(activities := b.activities + [Activity(depositId, owner, true, asset, amount, now)]))
  }

  function SeedBackstop(b: Book, amount: u64, operationId: Id): Result<Book> {
    if amount == 0 then Err(InvalidRequest)
    else if operationId in b.processed then Err(Duplicate)
    else if MAX64 - b.backstopUsdt0 < amount then Err(BalanceOverflow)
    else Ok(Mark(b.(backstopUsdt0 := WrapAdd(b.backstopUsdt0, amount)), operationId))
  }

  // ---- Mandates --------------------------------------------------------------------

  predicate ValidMandate(amount: u64, minApr: u32, termMask: u8, cap: u64) {
    amount > 0 && 600 <= minApr <= 2000 && 0 < termMask <= 7 && cap > 0
  }

  function SetMandate(
    b: Book, owner: Owner, id: Id, amount: u64, minApr: u32, termMask: u8, cap: u64, nonce: u64, now: Time)
    : Result<Book>
  {
    if !ValidMandate(amount, minApr, termMask, cap) then
      Err(InvalidRequest)
    else if id in b.mandates then Err(Duplicate)
    else
      var a :- ConsumeNonce(AccountOf(b, owner), nonce);
      if a.usdt0.available < amount then Err(InsufficientBalance)
      else
        var balance := Balance(WrapSub(a.usdt0.available, amount), WrapAdd(a.usdt0.reserved, amount));
        Ok(PutMandate(PutAccount(b, owner, a.(usdt0 := balance)),
                      Mandate(id, owner, amount, minApr, termMask, cap, true, now, 0, 0)))
  }

  function CancelMandate(b: Book, owner: Owner, id: Id, nonce: u64): Result<Book> {
    if id !in b.mandates || b.mandates[id].lender != owner || !b.mandates[id].active then Err(MandateUnavailable)
    else
      var m := b.mandates[id];
      var a :- ConsumeNonce(AccountOf(b, owner), nonce);
      var balance := Balance(WrapAdd(a.usdt0.available, m.available), WrapSub(a.usdt0.reserved, m.available));
      Ok(b.(accounts := b.accounts[owner := a.(usdt0 := balance)],
            mandates := b.mandates[id := m.(available := 0, active := false)]))
  }

  // ---- Borrowing ---------------------------------------------------------------------

  /** A quote with the request fields that older clients leave out filled in. */
  function Normalised(q: Quote): Quote {
    q.(requestedAmount := if q.requestedAmount == 0 then q.amount else q.requestedAmount,
       requestedCollateral := if q.requestedCollateral == 0 then q.collateral else q.requestedCollateral)
  }

  /** Equal in every economic term; the price may differ. */
  predicate SameQuote(recomputed: Quote, q: Quote) {
    recomputed == Normalised(q).(priceE6 := recomputed.priceE6)
  }

  function RequestOf(q: Quote): QuoteRequest {
    var n := Normalised(q);
    QuoteRequest(q.requestId, q.borrower, n.requestedAmount, q.termDays, q.maxApr, n.requestedCollateral, q.expiresAt)
  }

  /** Move each tranche from its mandate's available to its lent principal. */
  function Allocate(ms: map<Id, Mandate>, ts: seq<Tranche>): Result<map<Id, Mandate>>
    decreases |ts|
  {
    if ts == [] then Ok(ms)
    else
      var t := ts[0];
      if t.mandateId !in ms || ms[t.mandateId].available < t.principal then Err(LiquidityChanged)
      else
        var m := ms[t.mandateId];
        var lent := m.(available := WrapSub(m.available, t.principal), lent := WrapAdd(m.lent, t.principal));
        Allocate(ms[t.mandateId := lent], ts[1..])
  }

  function NewLoan(q: Quote, loanId: Id, now: Time): Loan {
    Loan(loanId, q.borrower, q.amount, q.collateral, q.borrowerApr, q.termDays,
         now, now + q.termDays * 86_400, now, 0, q.tranches, Healthy, 0, 0)
  }

  function ObservePrice(b: Book, observed: Option<Price>, now: Time): Result<Book> {
    match observed
    case None => Ok(b)
    case Some(price) => if FreshObservation(price, now) then Ok(b.(price := price)) else Err(StalePrice)
  }

  function AcceptQuote(
    b: Book, q: Quote, loanId: Id, nonce: u64, observed: Option<Price>, now: Time, order: seq<Id>, hash: Hash)
    : Result<Book>
  {
    if q.requestId in b.processed then Err(Duplicate)
    else
      var priced :- ObservePrice(b, observed, now);
      var recomputed := MakeQuote(priced, RequestOf(q), now, order, hash);
      if recomputed.Err? || !SameQuote(recomputed.value, q) then Err(LiquidityChanged)
      else Originate(priced, q, loanId, nonce, now)
  }

  /** Acceptance once the terms agree: lock collateral, allocate tranches, open the loan. */
  function Originate(b: Book, q: Quote, loanId: Id, nonce: u64, now: Time): Result<Book> {
    var a :- ConsumeNonce(AccountOf(b, q.borrower), nonce);
    if a.loanId != "" then Err(LoanAlreadyOpen)
    else if a.fxrp.available < q.collateral then Err(InsufficientBalance)
    else
      var fxrp := Balance(WrapSub(a.fxrp.available, q.collateral), WrapAdd(a.fxrp.reserved, q.collateral));
      var mandates :- Allocate(b.mandates, q.tranches);
      var loan :- UpdateRisk(NewLoan(q, loanId, now), b.price.xrpUsdE6, now);
      var activeDebt :- CheckedAdd(b.activeDebt, q.amount);
      Ok(Mark(b.(accounts := b.accounts[q.borrower := a.(fxrp := fxrp, loanId := loanId)],
                 mandates := mandates,
                 loans := b.loans[loanId := loan],
                 activeDebt := activeDebt), q.requestId))
  }

  // ---- Repayment and liquidation ---------------------------------------------------------

  /** One lender's part of the interest: its pro-rata share scaled by its own rate. */
  function LenderInterest(l: Loan, interest: u64, t: Tranche): Result<u64> {
    var share :- Ratio(interest * t.principal, l.principal, false);
    Ratio(share * t.apr, l.borrowerApr, false)
  }

  datatype Distribution = Distribution(book: Book, returned: u64, paid: u64)

  /** Return one tranche's principal to its mandate, or to the lender if it was cancelled, and credit the interest. */
  function ReturnTranche(b: Book, t: Tranche, lenderInterest: u64): Result<Book> {
    if t.mandateId !in b.mandates then Err(MissingMandate)
    else
      var m := b.mandates[t.mandateId];
      var a := AccountOf(b, t.lender);
      if m.lent < t.principal then Err(AllocationUnderflow)
      else if m.active && MAX64 - m.available < t.principal then Err(RestoredLiquidityOverflow)
      else if !m.active && a.usdt0.reserved < t.principal then Err(ReservedUnderflow)
      else
        var m' := m.(lent := m.lent - t.principal,
                     available := if m.active then m.available + t.principal else m.available);
        var reserved := if m.active then a.usdt0.reserved else a.usdt0.reserved - t.principal;
        var withPrincipal :- if m.active then Ok(a.usdt0.available) else CheckedAdd(a.usdt0.available, t.principal);
        var available :- CheckedAdd(withPrincipal, lenderInterest);
        var earned :- CheckedAdd(m.interestEarned, lenderInterest);
        var m'' := m'.(interestEarned := earned, active := m.active && !(m'.available == 0 && m'.lent == 0));
        Ok(b.(accounts := b.accounts[t.lender := a.(usdt0 := Balance(available, reserved))],
              mandates := b.mandates[t.mandateId := m'']))
  }

  /** The loop of distributeRepayment over the remaining tranches. */
  function DistributeTo(l: Loan, interest: u64, ts: seq<Tranche>, d: Distribution): Result<Distribution>
    decreases |ts|
  {
    if ts == [] then Ok(d)
    else
      var lenderInterest :- LenderInterest(l, interest, ts[0]);
      var book :- ReturnTranche(d.book, ts[0], lenderInterest);
      var returned :- CheckedAdd(d.returned, ts[0].principal);
      var paid :- CheckedAdd(d.paid, lenderInterest);
      DistributeTo(l, interest, ts[1..], Distribution(book, returned, paid))
  }

  function DistributeRepayment(b: Book, l: Loan, interest: u64): Result<Book> {
    var d :- DistributeTo(l, interest, l.tranches, Distribution(b, 0, 0));
    if d.returned != l.principal then Err(TrancheConservation)
    else if interest < d.paid then Err(LenderInterestExceedsBorrowerInterest)
    else
      var reserve :- CheckedAdd(d.book.protocolReserve, interest - d.paid);
      Ok(d.book.(protocolReserve := reserve))
  }

  /** Release collateral, retire the debt and detach the loan from its borrower. */
  function CloseLoan(b: Book, key: Id, l: Loan, borrower: Owner, status: Status): Book {
    var a := AccountOf(b, borrower);
    b.(accounts := b.accounts[borrower := a.(loanId := "")],
       loans := b.loans[key := l.(status := status)],
       activeDebt := WrapSub(b.activeDebt, l.principal))
  }

  /** Return the collateral that is not seized to the borrower's free balance. */
  function ReleaseCollateral(b: Book, borrower: Owner, l: Loan, seized: u64): Book {
    var a := AccountOf(b, borrower);
    var fxrp := Balance(WrapAdd(a.fxrp.available, WrapSub(l.collateral, seized)), WrapSub(a.fxrp.reserved, l.collateral));
    PutAccount(b, borrower, a.(fxrp := fxrp))
  }

  function Repay(b: Book, owner: Owner, amount: u64, operationId: Id, nonce: u64, now: Time): Result<Book> {
    if operationId in b.processed then Err(Duplicate)
    else
      var a :- ConsumeNonce(AccountOf(b, owner), nonce);
      if a.loanId !in b.loans then Err(NoActiveLoan)
      else
        var l :- Accrue(b.loans[a.loanId], now);
        var due :- Debt(l);
        if amount < due then Err(RepaymentTooSmall)
        else if a.usdt0.available < due then Err(InsufficientBalance)
        else
          var usdt0 := a.usdt0.(available := WrapSub(a.usdt0.available, due));
          var interest :- CheckedSub(due, l.principal);
          var paid :- DistributeRepayment(PutAccount(b, owner, a.(usdt0 := usdt0)), l, interest);
          Ok(Mark(CloseLoan(ReleaseCollateral(paid, owner, l, 0), a.loanId, l, owner, Closed), operationId))
  }

  function SeizeAmount(l: Loan, due: u64, price: u64): Result<u64> {
    var seize :- Ratio(due * SCALE * BPS, price * 9500, false);
    Ok(Min(seize, l.collateral))
  }

  /** The backstop after paying `due` and receiving `seized`. */
  function BackstopPays(b: Book, due: u64, seized: u64): Book {
    b.(backstopUsdt0 := WrapSub(b.backstopUsdt0, due), backstopFxrp := WrapAdd(b.backstopFxrp, seized))
  }

  /** The borrower gets back what is not seized. */
  function Seize(b: Book, l: Loan, due: u64, seized: u64): Book {
    ReleaseCollateral(BackstopPays(b, due, seized), l.borrower, l, seized)
  }

  /** liquidateInState for the loan stored under `key`. */
  function LiquidateInState(b: Book, key: Id, l: Loan): Result<Book> {
    var due :- Debt(l);
    if b.backstopUsdt0 < due then Err(BackstopInsufficient)
    else
      var seize :- SeizeAmount(l, due, b.price.xrpUsdE6);
      var interest :- CheckedSub(due, l.principal);
      var paid :- DistributeRepayment(Seize(b, l, due, seize), l, interest);
      Ok(CloseLoan(paid, key, l, l.borrower, Liquidated))
  }

  function Liquidate(b: Book, loanId: Id, operationId: Id): Result<Book> {
    if operationId in b.processed then Err(Duplicate)
    else if loanId !in b.loans || b.loans[loanId].status != Liquidatable then Err(NotLiquidatable)
    else
      var next :- LiquidateInState(b, loanId, b.loans[loanId]);
      Ok(Mark(next, operationId))
  }

  // ---- Risk tick -------------------------------------------------------------------------------

  /** Accrue, reassess and, if the backstop can pay, liquidate one loan. */
  function TickLoan(b: Book, key: Id, now: Time): Result<Book> {
    if key !in b.loans || !b.loans[key].Open() then Ok(b)
    else
      var accrued :- Accrue(b.loans[key], now);
      var l :- UpdateRisk(accrued, b.price.xrpUsdE6, now);
      var due :- Debt(l);
      var updated := b.(loans := b.loans[key := l]);
      if l.status == Liquidatable && b.backstopUsdt0 >= due then LiquidateInState(updated, key, l) else Ok(updated)
  }

  function TickAll(b: Book, keys: seq<Id>, now: Time): Result<Book>
    decreases |keys|
  {
    if keys == [] then Ok(b)
    else
      var next :- TickLoan(b, keys[0], now);
      TickAll(next, keys[1..], now)
  }

  function RiskTick(b: Book, price: Price, operationId: Id, now: Time, order: seq<Id>): Result<Book> {
    if !FreshObservation(price, now) then Err(StalePrice)
    else if operationId in b.processed then Err(Duplicate)
    else
      var ticked :- TickAll(b.(price := price), order, now);
      Ok(Mark(ticked, operationId))
  }

  // ---- Withdrawals ------------------------------------------------------------------------------

  predicate OlderFirst(x: Mandate, y: Mandate) {
    if x.createdAt != y.createdAt then x.createdAt < y.createdAt else LexLess(x.id, y.id)
  }

  function LentBy(owner: Owner): Mandate -> bool {
    (m: Mandate) => m.lender == owner
  }

  function ByAgeOrder(): (Mandate, Mandate) -> bool {
    (x: Mandate, y: Mandate) => OlderFirst(x, y)
  }

  /** mandatesByCreatedAt: the owner's mandates, oldest first and then by id. */
  function ByAge(ms: map<Id, Mandate>, owner: Owner, order: seq<Id>): seq<Mandate> {
    Sort(Select(ms, order, LentBy(owner)), ByAgeOrder())
  }

  datatype Drained = Drained(mandates: map<Id, Mandate>, reserved: u64, remaining: u64)

  /** Take what is still needed from each listed mandate in turn. */
  function Drain(list: seq<Mandate>, d: Drained): Drained
    decreases |list|
  {
    if list == [] || d.remaining == 0 then d
    else if list[0].id !in d.mandates then Drain(list[1..], d)
    else
      var m := d.mandates[list[0].id];
      if !m.active || m.available == 0 then Drain(list[1..], d)
      else
        var take: u64 := Min(m.available, d.remaining);
        Drain(list[1..], Drained(d.mandates[m.id := m.(available := WrapSub(m.available, take))],
                                 WrapSub(d.reserved, take), d.remaining - take))
  }

  /** A mandate with neither available nor lent principal stops matching. */
  function Settled(m: Mandate): Mandate {
    if m.available == 0 && m.lent == 0 then m.(active := false) else m
  }

  function Retire(ms: map<Id, Mandate>, list: seq<Mandate>): map<Id, Mandate>
    decreases |list|
  {
    if list == [] then ms
    else if list[0].id !in ms then Retire(ms, list[1..])
    else Retire(ms[list[0].id := Settled(ms[list[0].id])], list[1..])
  }

  function LogWithdrawal(b: Book, owner: Owner, asset: Asset, amount: u64, operationId: Id, now: Time): Book {
    Mark(b, operationId).(activities := b.activities + [Activity(operationId, owner, false, asset, amount, now)])
  }

  function Withdraw(
    b: Book, owner: Owner, asset: Asset, amount: u64, operationId: Id, nonce: u64, now: Time, order: seq<Id>)
    : Result<Book>
  {
    if amount == 0 then Err(InvalidRequest)
    else if operationId in b.processed then Err(Duplicate)
    else
      var a :- ConsumeNonce(AccountOf(b, owner), nonce);
      var balance := a.Get(asset);
      if balance.available >= amount then
        var debited := a.Set(asset, balance.(available := WrapSub(balance.available, amount)));
        Ok(LogWithdrawal(PutAccount(b, owner, debited), owner, asset, amount, operationId, now))
      else if asset != USDT0 then Err(InsufficientBalance)
      else
        var list := ByAge(b.mandates, owner, order);
        var d := Drain(list, Drained(b.mandates, balance.reserved, amount - balance.available));
        if d.remaining > 0 then Err(InsufficientBalance)
        else
          var debited := a.(usdt0 := Balance(0, d.reserved));
          var next := PutAccount(b, owner, debited).(mandates := Retire(d.mandates, list));
          Ok(LogWithdrawal(next, owner, asset, amount, operationId, now))
  }

  function WithdrawFromMandate(
    b: Book, owner: Owner, mandateId: Id, amount: u64, operationId: Id, nonce: u64, now: Time): Result<Book>
  {
    if amount == 0 then Err(InvalidRequest)
    else if operationId in b.processed then Err(Duplicate)
    else if mandateId !in b.mandates || b.mandates[mandateId].lender != owner || !b.mandates[mandateId].active then
      Err(MandateUnavailable)
    else
      var m := b.mandates[mandateId];
      var a :- ConsumeNonce(AccountOf(b, owner), nonce);
      if m.available < amount then Err(InsufficientBalance)
      else
        var usdt0 := a.usdt0.(reserved := WrapSub(a.usdt0.reserved, amount));
        var m' := Settled(m.(available := WrapSub(m.available, amount)));
        var next := PutAccount(b, owner, a.(usdt0 := usdt0)).(mandates := b.mandates[mandateId := m']);
        Ok(LogWithdrawal(next, owner, USDT0, amount, operationId, now))
  }
}
