/**
  The records of the confidential ledger.

  Account keys are canonical lower-case addresses, so the source's `ToLower` is the
  identity here. `Book` is everything a mutation may edit; `State` adds the
  sequence number, the root and the pending anchor, which only `mutate` and
  `ConfirmAnchor` touch.
 */
module Model {
  import opened Outcomes
  import opened Arithmetic

  type Owner = string
  type Id = string
  type Time = x: int | 0 <= x < 0x8000_0000_0000_0000

  datatype Asset = FXRP | USDT0

  datatype Balance = Balance(available: u64, reserved: u64)

  /** `loanId` is "" when the account has no open loan. */
  datatype Account = Account(nonce: u64, fxrp: Balance, usdt0: Balance, loanId: Id) {
    function Get(asset: Asset): Balance {
      if asset == FXRP then fxrp else usdt0
    }

    function Set(asset: Asset, balance: Balance): Account {
      if asset == FXRP then this.(fxrp := balance) else this.(usdt0 := balance)
    }
  }

  const BLANK_ACCOUNT := Account(0, Balance(0, 0), Balance(0, 0), "")

  datatype Mandate = Mandate(
    id: Id, lender: Owner, available: u64, minApr: u32, termMask: u8, cap: u64,
    active: bool, createdAt: Time, lent: u64, interestEarned: u64)

  datatype Tranche = Tranche(mandateId: Id, lender: Owner, principal: u64, apr: u32)

  datatype Status = Healthy | Restricted | Warning | Liquidatable | Closed | Liquidated

  datatype Loan = Loan(
    id: Id, borrower: Owner, principal: u64, collateral: u64, borrowerApr: u32, termDays: nat,
    startedAt: Time, maturesAt: int, lastAccruedAt: Time, accruedRay: u64,
    tranches: seq<Tranche>, status: Status, healthFactor: u64, liquidationPrice: u64)
  {
    predicate Open() {
      status != Closed && status != Liquidated
    }
  }

  datatype Price = Price(xrpUsdE6: u64, updatedAt: int)

  datatype Activity = Activity(id: Id, account: Owner, deposited: bool, asset: Asset, amount: u64, createdAt: Time)

  datatype QuoteRequest = QuoteRequest(
    id: Id, borrower: Owner, amount: u64, termDays: nat, maxApr: u32, collateral: u64, expiresAt: int)

  datatype Quote = Quote(
    requestId: Id, borrower: Owner, amount: u64, requestedAmount: u64, termDays: nat,
    collateral: u64, requestedCollateral: u64, partialFill: bool,
    lenderApr: u32, borrowerApr: u32, maxApr: u32, tranches: seq<Tranche>, expiresAt: int, priceE6: u64)

  datatype Book = Book(
    accounts: map<Owner, Account>, mandates: map<Id, Mandate>, loans: map<Id, Loan>,
    processed: set<Id>, activities: seq<Activity>, price: Price,
    activeDebt: u64, protocolReserve: u64, backstopUsdt0: u64, backstopFxrp: u64)

  const NEW_BOOK := Book(map[], map[], map[], {}, [], Price(0, 0), 0, 0, 0, 0)

  /** The operations that reach the ledger through `mutate`. */
  datatype Kind =
    | OpenAccountKind | DepositKind | SetMandateKind | CancelMandateKind | BorrowAcceptKind | RiskTickKind
    | ApplyRepaymentKind | LiquidateKind | BackstopDepositKind | WithdrawRequestKind | WithdrawFromMandateKind

  /** The state digest, idealised: different sequence numbers or books have different roots. */
  datatype Root = Genesis | Digest(sequence: nat, book: Book)

  datatype PendingAnchor = PendingAnchor(
    kind: Kind, operationId: Id, previousSequence: nat, nextSequence: nat, previousRoot: Root, nextRoot: Root)

  datatype State = State(book: Book, sequence: nat, root: Root, pending: Option<PendingAnchor>)

  const NEW_STATE := State(NEW_BOOK, 0, Genesis, None)

  /** What `mutate` makes of the old state and the edited book. */
  function Committed(s: State, kind: Kind, operationId: Id, next: Book): State {
    var sequence := s.sequence + 1;
    var root := Digest(sequence, next);
    State(next, sequence, root,
          Some(PendingAnchor(kind, operationId, s.sequence, sequence, s.root, root)))
  }

  function TermBit(days: nat): u8 {
    if days == 7 then 1 else if days == 14 then 2 else if days == 30 then 4 else 0
  }

  /** `mask & bit != 0` for a single-bit `bit`. */
  predicate Accepts(mask: u8, bit: u8) {
    bit != 0 && (mask / bit) % 2 == 1
  }

  /** The account of `owner`, created blank on first use. */
  function AccountOf(b: Book, owner: Owner): Account {
    if owner in b.accounts then b.accounts[owner] else BLANK_ACCOUNT
  }

  /** The account after its nonce is checked and advanced. */
  function ConsumeNonce(a: Account, expected: u64): Result<Account> {
    if a.nonce != expected then Err(StaleNonce) else Ok(a.(nonce := WrapAdd(a.nonce, 1)))
  }

  // ---- Sums over tranches ----------------------------------------------------

  function SumPrincipal(ts: seq<Tranche>): (total: nat) {
    if ts == [] then 0 else ts[0].principal + SumPrincipal(ts[1..])
  }

  /** The part of `ts` drawn from one mandate. */
  function DrawnFrom(ts: seq<Tranche>, mandateId: Id): (total: nat) {
    if ts == [] then 0
    else (if ts[0].mandateId == mandateId then ts[0].principal else 0) + DrawnFrom(ts[1..], mandateId)
  }

  /** Principal times rate, summed: the yearly cost of the tranches in basis points. */
  function YearlyCost(ts: seq<Tranche>): (total: nat) {
    if ts == [] then 0 else ts[0].principal * ts[0].apr + YearlyCost(ts[1..])
  }

  /** The floor of the principal-weighted average rate. */
  function AverageRate(ts: seq<Tranche>): nat {
    if SumPrincipal(ts) == 0 then 0 else YearlyCost(ts) / SumPrincipal(ts)
  }

  predicate DistinctMandates(ts: seq<Tranche>) {
    forall i, j :: 0 <= i < j < |ts| ==> ts[i].mandateId != ts[j].mandateId
  }

  lemma {:induction false} DrawnFromAbsent(ts: seq<Tranche>, mandateId: Id)
    requires forall t :: t in ts ==> t.mandateId != mandateId
    ensures DrawnFrom(ts, mandateId) == 0
  {
    if ts != [] {
      assert ts[0] in ts;
      DrawnFromAbsent(ts[1..], mandateId);
    }
  }

  /** With distinct mandates, a mandate's part is its one tranche. */
  lemma {:induction false} DrawnFromTranche(ts: seq<Tranche>, i: nat)
    requires i < |ts| && DistinctMandates(ts)
    ensures DrawnFrom(ts, ts[i].mandateId) == ts[i].principal
  {
    if i == 0 {
      DrawnFromAbsent(ts[1..], ts[0].mandateId);
    } else {
      DrawnFromTranche(ts[1..], i - 1);
    }
  }

  lemma {:induction false} SumPrincipalBounds(ts: seq<Tranche>, t: Tranche)
    requires t in ts
    ensures t.principal <= SumPrincipal(ts)
  {
    if t != ts[0] {
      SumPrincipalBounds(ts[1..], t);
    }
  }

  lemma {:induction false} SumsAppend(ts: seq<Tranche>, t: Tranche)
    ensures SumPrincipal(ts + [t]) == SumPrincipal(ts) + t.principal
    ensures YearlyCost(ts + [t]) == YearlyCost(ts) + t.principal * t.apr
  {
    if ts != [] {
      assert (ts + [t])[1..] == ts[1..] + [t];
      SumsAppend(ts[1..], t);
    }
  }
}
