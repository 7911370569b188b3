/**
  The two ways an operation can end, and an optional value.
  `Error` has one constructor for each distinguishable failure of the ledger,
  so that a lemma can say which of them can never occur.
 */
module Outcomes {

  datatype Option<+T> = None | Some(value: T)

  datatype Error =
    | InvalidRequest
    | Duplicate
    | StaleNonce
    | InsufficientBalance
    | BalanceOverflow
    | InsufficientLiquidity
    | LiquidityChanged
    | MandateUnavailable
    | StalePrice
    | LtvTooHigh
    | LoanAlreadyOpen
    | NoActiveLoan
    | RepaymentTooSmall
    | NotLiquidatable
    | BackstopInsufficient
      // arithmetic.go
    | Overflow
    | Underflow
    | DivisionByZero
      // distributeRepayment: failures that the books should make impossible
    | MissingMandate
    | AllocationUnderflow
    | RestoredLiquidityOverflow
    | ReservedUnderflow
    | TrancheConservation
    | LenderInterestExceedsBorrowerInterest
      // mutate and ConfirmAnchor
    | AnchorPending
    | NoAnchorPending
    | AnchorMismatch
    | StorageFailure
      // the extension's handlers
    | NotRecoverable
    | RecordMismatch
    | UnknownAccount
    | LiquidityUnknown
    | SigningFailed
    | UnsupportedAction
    | EncryptionFailed
      // QuietVault's reverts
    | UnsupportedAsset
    | InvalidAmount
    | InvalidDestination
    | FeeOnTransferUnsupported
    | NonceOverflow
    | InvalidSettlement
    | SettlementAlreadyUsed
    | SettlementExpired
    | InvalidStateTransition
    | EnforcedPause
    | InsufficientVaultLiquidity
    | NotOperator
    | InstructionFailed
    | InvalidTeeSignature
    | TransferFailed

  datatype Result<+T> = Ok(value: T) | Err(error: Error) {
    predicate IsFailure() {
      Err?
    }

    function PropagateFailure<U>(): Result<U>
      requires Err?
    {
      Err(error)
    }

    function Extract(): T
      requires Ok?
    {
      value
    }
  }
}
