/**
  What the enclave signs for each operation: the settlement's type, token, amount and
  destination, bound to the pending anchor's sequence numbers and roots.
 */
module Settlements {
  import opened Arithmetic
  import opened Model
  import opened Ledger

  const ZERO_ADDRESS: Owner := ""
  const PROTOCOL_VERSION: u8 := 2
  const VALIDITY: int := 600

  datatype Token = ZeroToken | Supported(asset: Asset) | UnsupportedToken

  datatype SettlementType = BorrowPayout | UserWithdrawal | Checkpoint

  /** The hash of request, root and kind, idealised. */
  datatype SettlementId = SettlementId(requestId: Id, nextRoot: Root, kind: Kind)

  /** Where the money goes. */
  datatype Terms = Terms(settlementType: SettlementType, token: Token, amount: nat, destination: Owner) {
    function Pays(asset: Asset): nat {
      if token == Supported(asset) then amount else 0
    }
  }

  const NO_MONEY := Terms(Checkpoint, ZeroToken, 0, ZERO_ADDRESS)

  datatype Settlement = Settlement(
    protocolVersion: u8, terms: Terms, account: Owner, requestId: Id, settlementId: SettlementId,
    previousSequence: nat, nextSequence: nat, previousRoot: Root, nextRoot: Root, deadline: int)

  /** anchorSettlement: everything but the terms comes from the anchor that is pending when it signs. */
  function AnchorSettlement(pending: PendingAnchor, requestId: Id, terms: Terms, account: Owner, now: Time): Settlement {
    Settlement(PROTOCOL_VERSION, terms, account, requestId, SettlementId(requestId, pending.nextRoot, pending.kind),
               pending.previousSequence, pending.nextSequence, pending.previousRoot, pending.nextRoot, now + VALIDITY)
  }

  /** The terms that the handler of each operation signs. `destination` is the one named in a withdrawal. */
  function TermsOf(op: Operation, destination: Owner): Terms {
    match op
    case AcceptOp(q, _, _, _) => Terms(BorrowPayout, Supported(USDT0), q.amount, q.borrower)
    case WithdrawOp(_, asset, amount, _, _) => Terms(UserWithdrawal, Supported(asset), amount, destination)
    case WithdrawFromMandateOp(_, _, amount, _, _) => Terms(UserWithdrawal, Supported(USDT0), amount, destination)
    case _ => NO_MONEY
  }

  /** isRecoverableCheckpoint: the kinds that RECOVER_ANCHOR may sign again, always as a checkpoint. */
  predicate Recoverable(kind: Kind) {
    match kind
    case RiskTickKind => true
    case DepositKind => true
    case BackstopDepositKind => true
    case OpenAccountKind => true
    case SetMandateKind => true
    case CancelMandateKind => true
    case ApplyRepaymentKind => true
    case _ => false
  }

  /** isMutation: the direct actions whose handler signs a checkpoint at the end. */
  predicate IsMutation(op: Operation) {
    op.OpenAccountOp? || op.SetMandateOp? || op.CancelMandateOp? || op.RepayOp?
  }

  /** Operations that some handler runs. `Liquidate` has no handler: only risk ticks liquidate. */
  predicate Exposed(op: Operation) {
    !op.LiquidateOp?
  }

  /** The payout that is signed is exactly the debit that the ledger booked, in each asset. */
  lemma TermsPayTheDebit(op: Operation, destination: Owner, asset: Asset)
    ensures TermsOf(op, destination).Pays(asset) == DebitOf(op, asset)
  {
    match op
    case WithdrawOp(_, a, _, _, _) => assert asset == a || DebitOf(op, asset) == 0;
    case _ =>
  }

  /** Signing again as a checkpoint is offered exactly where the first signature was a checkpoint too. */
  lemma RecoveryNeverDropsAPayout(op: Operation, destination: Owner)
    requires Exposed(op)
    ensures Recoverable(KindOf(op)) <==> TermsOf(op, destination) == NO_MONEY
    ensures Recoverable(KindOf(op)) <==> TermsOf(op, destination).settlementType == Checkpoint
    ensures Recoverable(KindOf(op)) ==> DebitOf(op, USDT0) == DebitOf(op, FXRP) == 0
  {
    match op
    case AcceptOp(_, _, _, _) =>
    case _ =>
  }
}
