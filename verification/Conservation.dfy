/**
  Deposits, mandates and the backstop keep the books and move exactly the funds they say.
  Under the invariant none of their unchecked additions or subtractions wraps.
 */
module Conservation {
  import opened Outcomes
  import opened Arithmetic
  import opened MapSums
  import opened Model
  import opened Operations
  import opened Invariants

  /** The exact change of the free USDT0 and of the FXRP in the books. */
  ghost predicate Moves(b: Book, next: Book, usdt0: int, fxrp: int) {
    && FreeUsdt0(next) == FreeUsdt0(b) + usdt0
    && TotalFxrp(next) == TotalFxrp(b) + fxrp
  }

  /** Sound afterwards, with the exact change of funds and an unchanged debt. */
  ghost predicate KeepsBooks(b: Book, next: Book, usdt0: int, fxrp: int) {
    Sound(next) && Moves(b, next, usdt0, fxrp) && next.activeDebt == b.activeDebt
  }

  /** `amount` more of `asset` still fits under the 64-bit bound on the totals. */
  ghost predicate Fits(b: Book, asset: Asset, amount: int) {
    (if asset == FXRP then TotalFxrp(b) else ClaimsUsdt0(b)) + amount <= MAX64
  }

  lemma OpenAccountKeeps(b: Book, owner: Owner, operationId: Id, nonce: u64, next: Book)
    requires Sound(b) && OpenAccount(b, owner, operationId, nonce) == Ok(next)
    ensures KeepsBooks(b, next, 0, 0)
  {
    hide Structure, Sum;
    var a := ConsumeNonce(AccountOf(b, owner), nonce).value;
    var mid := PutAccount(b, owner, a);
    PutAccountKeeps(b, owner, a);
    LogKeeps(mid, next.processed, next.activities, next.price);
  }

  /** A deposit credits exactly its amount; the total stays in range when it would fit. */
  lemma DepositKeeps(b: Book, owner: Owner, asset: Asset, amount: u64, depositId: Id, now: Time, next: Book)
    requires Sound(b) && Deposit(b, owner, asset, amount, depositId, now) == Ok(next)
    requires Fits(b, asset, amount)
    ensures KeepsBooks(b, next, if asset == USDT0 then amount else 0, if asset == FXRP then amount else 0)
    ensures next.accounts[owner].Get(asset).available == AccountOf(b, owner).Get(asset).available + amount
  {
    hide Structure, Sum;
    var a := AccountOf(b, owner);
    var balance := a.Get(asset);
    var credited := a.Set(asset, balance.(available := WrapAdd(balance.available, amount)));
    var mid := PutAccount(b, owner, credited);
    PutAccountKeeps(b, owner, credited);
    LogKeeps(mid, next.processed, next.activities, next.price);
  }

  /** A deposit within the cumulative bound is refused only as a zero amount or a duplicate. */
  lemma DepositSucceedsExactly(b: Book, owner: Owner, asset: Asset, amount: u64, depositId: Id, now: Time)
    requires Sound(b) && Fits(b, asset, amount)
    ensures Deposit(b, owner, asset, amount, depositId, now).Ok? <==> amount > 0 && depositId !in b.processed
  {
    FreeNonNegative(b);
    if owner in b.accounts {
      AvailableBounded(b, owner);
      FxrpBounded(b, owner);
    }
  }

  lemma SeedBackstopKeeps(b: Book, amount: u64, operationId: Id, next: Book)
    requires Sound(b) && SeedBackstop(b, amount, operationId) == Ok(next)
    requires Fits(b, USDT0, amount)
    ensures KeepsBooks(b, next, amount, 0)
    ensures next.backstopUsdt0 == b.backstopUsdt0 + amount
  {
    hide Structure, Sum;
    var mid := b.(backstopUsdt0 := next.backstopUsdt0);
    PoolsKeep(b, b.protocolReserve, next.backstopUsdt0);
    LogKeeps(mid, next.processed, next.activities, next.price);
  }

  /** Room for a stake change: the lender's balances, and the mandate, are within the 64-bit totals. */
  lemma StakeRoom(b: Book, owner: Owner)
    requires Sound(b)
    ensures AccountOf(b, owner).usdt0.available + AccountOf(b, owner).usdt0.reserved <= MAX64
    ensures forall id :: id in b.mandates && b.mandates[id].lender == owner ==>
      && MandateSound(b, id)
      && owner in b.accounts
      && b.mandates[id].available + b.mandates[id].lent <= AccountOf(b, owner).usdt0.reserved
      && AccountOf(b, owner).usdt0.available + b.mandates[id].available <= MAX64
  {
    AccountReserved(b, owner);
    StakeSplit(b.mandates, owner);
    FreeNonNegative(b);
    if owner in b.accounts { AvailableBounded(b, owner); }
    forall id | id in b.mandates && b.mandates[id].lender == owner
      ensures MandateSound(b, id) && b.mandates[id].available + b.mandates[id].lent <= AccountOf(b, owner).usdt0.reserved
    {
      StakeBound(b.mandates, owner, id);
    }
  }

  /** Reserving a mandate moves funds inside the account: reserved grows by the amount without wrapping. */
  lemma SetMandateKeeps(
    b: Book, owner: Owner, id: Id, amount: u64, minApr: u32, termMask: u8, cap: u64, nonce: u64, now: Time, next: Book)
    requires Sound(b) && SetMandate(b, owner, id, amount, minApr, termMask, cap, nonce, now) == Ok(next)
    ensures KeepsBooks(b, next, 0, 0)
    ensures next.accounts[owner].usdt0.available == AccountOf(b, owner).usdt0.available - amount
    ensures next.accounts[owner].usdt0.reserved == AccountOf(b, owner).usdt0.reserved + amount
    ensures next.mandates == b.mandates[id := Mandate(id, owner, amount, minApr, termMask, cap, true, now, 0, 0)]
  {
    hide Structure, Sum;
    StakeRoom(b, owner);
    StakeChangeKeeps(b, owner, next.accounts[owner], next.mandates[id]);
  }

  /** What `StakeRoom` gives for one mandate. */
  ghost predicate MandateRoom(b: Book, owner: Owner, id: Id) {
    && id in b.mandates
    && owner in b.accounts
    && var m, usdt0 := b.mandates[id], b.accounts[owner].usdt0;
       && m.id == id && m.lender == owner && 600 <= m.minApr <= 2000 && m.cap > 0
       && m.available + m.lent <= usdt0.reserved
       && usdt0.available + m.available <= MAX64
  }

  lemma MandateHasRoom(b: Book, owner: Owner, id: Id)
    requires Sound(b) && id in b.mandates && b.mandates[id].lender == owner
    ensures MandateRoom(b, owner, id)
  {
    StakeRoom(b, owner);
  }

  lemma CancelMandateExact(b: Book, owner: Owner, id: Id, nonce: u64, next: Book)
    requires CancelMandate(b, owner, id, nonce) == Ok(next) && MandateRoom(b, owner, id)
    ensures next == PutMandate(PutAccount(b, owner, next.accounts[owner]), next.mandates[id])
    ensures StakeChange(b, owner, next.accounts[owner], next.mandates[id])
    ensures next.accounts[owner].usdt0.available == AccountOf(b, owner).usdt0.available + b.mandates[id].available
    ensures next.accounts[owner].usdt0.reserved == AccountOf(b, owner).usdt0.reserved - b.mandates[id].available
    ensures next.mandates == b.mandates[id := b.mandates[id].(available := 0, active := false)]
  {
  }

  /** Cancelling returns exactly the unlent part to the lender. */
  lemma CancelMandateKeeps(b: Book, owner: Owner, id: Id, nonce: u64, next: Book)
    requires Sound(b) && CancelMandate(b, owner, id, nonce) == Ok(next)
    ensures KeepsBooks(b, next, 0, 0)
    ensures next.accounts[owner].usdt0.available == AccountOf(b, owner).usdt0.available + b.mandates[id].available
    ensures next.accounts[owner].usdt0.reserved == AccountOf(b, owner).usdt0.reserved - b.mandates[id].available
    ensures next.mandates == b.mandates[id := b.mandates[id].(available := 0, active := false)]
  {
    hide Structure, Sum;
    MandateHasRoom(b, owner, id);
    CancelMandateExact(b, owner, id, nonce, next);
    StakeChangeKeeps(b, owner, next.accounts[owner], next.mandates[id]);
  }

  lemma WithdrawFromMandateExact(
    b: Book, owner: Owner, id: Id, amount: u64, operationId: Id, nonce: u64, now: Time, next: Book)
    requires WithdrawFromMandate(b, owner, id, amount, operationId, nonce, now) == Ok(next) && MandateRoom(b, owner, id)
    ensures
      var mid := PutMandate(PutAccount(b, owner, next.accounts[owner]), next.mandates[id]);
      next == mid.(processed := next.processed, activities := next.activities)
    ensures StakeChange(b, owner, next.accounts[owner], next.mandates[id])
    ensures next.accounts[owner].usdt0.available == AccountOf(b, owner).usdt0.available
    ensures next.accounts[owner].usdt0.reserved == AccountOf(b, owner).usdt0.reserved - amount
    ensures next.mandates[id].available == b.mandates[id].available - amount
    ensures next.mandates[id].lent == b.mandates[id].lent
    ensures next.mandates == b.mandates[id := next.mandates[id]]
  {
  }

  /** A mandate withdrawal takes exactly the amount from that mandate and from the reserve that mirrors it. */
  lemma WithdrawFromMandateKeeps(
    b: Book, owner: Owner, id: Id, amount: u64, operationId: Id, nonce: u64, now: Time, next: Book)
    requires Sound(b) && WithdrawFromMandate(b, owner, id, amount, operationId, nonce, now) == Ok(next)
    ensures KeepsBooks(b, next, -(amount as int), 0)
    ensures next.accounts[owner].usdt0.available == AccountOf(b, owner).usdt0.available
    ensures next.accounts[owner].usdt0.reserved == AccountOf(b, owner).usdt0.reserved - amount
    ensures next.mandates == b.mandates[id := next.mandates[id]]
    ensures next.mandates[id].available == b.mandates[id].available - amount
    ensures next.mandates[id].lent == b.mandates[id].lent
  {
    hide Structure, Sum;
    MandateHasRoom(b, owner, id);
    WithdrawFromMandateExact(b, owner, id, amount, operationId, nonce, now, next);
    StakeChangeKeeps(b, owner, next.accounts[owner], next.mandates[id]);
    var mid := PutMandate(PutAccount(b, owner, next.accounts[owner]), next.mandates[id]);
    LogKeeps(mid, next.processed, next.activities, next.price);
  }
}
