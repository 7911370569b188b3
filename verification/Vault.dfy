/**
  The token vault: deposits recorded under fresh ids, and settlements executed at most
  once, in sequence, each moving the root and paying what was signed.
 */
module Vault {
  import opened Outcomes
  import opened Arithmetic
  import opened Model
  import opened Settlements

  /** What a deposit id is hashed from; backstop ids carry a domain tag. */
  datatype CreditPreimage = CreditPreimage(sender: Owner, asset: Asset, amount: u64, nonce: nat, backstop: bool)

  type CreditHash = CreditPreimage -> Id

  ghost predicate CollisionFree(hash: CreditHash) {
    forall x, y :: hash(x) == hash(y) ==> x == y
  }

  datatype DepositRecord = DepositRecord(account: Owner, asset: Asset, amount: u64, submittedAt: nat)

  /** A credit instruction that the vault sent to the enclave. */
  datatype Credit = Credit(id: Id, sender: Owner, asset: Asset, amount: u64, backstop: bool)

  datatype VaultState = VaultState(
    sequence: nat, root: Root, depositNonce: nat, records: map<Id, DepositRecord>, credits: map<Id, Credit>,
    used: set<SettlementId>, usdt0: nat, fxrp: nat)
  {
    function Balance(asset: Asset): nat {
      if asset == FXRP then fxrp else usdt0
    }

    function SetBalance(asset: Asset, balance: nat): VaultState {
      if asset == FXRP then this.(fxrp := balance) else this.(usdt0 := balance)
    }
  }

  const NEW_VAULT := VaultState(0, Genesis, 0, map[], map[], {}, 0, 0)

  /** A transfer in: the vault must receive exactly `amount`, and `instructed` says whether the enclave could be told. */
  function Receive(
    v: VaultState, sender: Owner, token: Token, amount: nat, received: nat, instructed: bool, backstop: bool, hash: CreditHash)
    : Result<(VaultState, Credit)>
  {
    if !token.Supported? then Err(UnsupportedAsset)
    else if amount == 0 || amount > MAX64 then Err(InvalidAmount)
    else if received != amount then Err(FeeOnTransferUnsupported)
    else if v.depositNonce == MAX64 then Err(NonceOverflow)
    else if !instructed then Err(InstructionFailed)
    else
      var nonce := v.depositNonce + 1;
      var id := hash(CreditPreimage(sender, token.asset, amount, nonce, backstop));
      var credit := Credit(id, sender, token.asset, amount, backstop);
      Ok((v.SetBalance(token.asset, v.Balance(token.asset) + amount)
           .(depositNonce := nonce, credits := v.credits[id := credit]), credit))
  }

  function Deposited(
    v: VaultState, sender: Owner, token: Token, amount: nat, received: nat, instructed: bool, now: nat, hash: CreditHash)
    : Result<VaultState>
  {
    var (next, credit) :- Receive(v, sender, token, amount, received, instructed, false, hash);
    Ok(next.(records := next.records[credit.id := DepositRecord(sender, credit.asset, credit.amount, now)]))
  }

  function Funded(
    v: VaultState, sender: Owner, operator: bool, amount: nat, received: nat, instructed: bool, hash: CreditHash)
    : Result<VaultState>
  {
    if !operator then Err(NotOperator)
    else
      var (next, _) :- Receive(v, sender, Supported(USDT0), amount, received, instructed, true, hash);
      Ok(next)
  }

  predicate Advances(v: VaultState, s: Settlement) {
    && s.previousSequence == v.sequence
    && s.nextSequence == v.sequence + 1
    && s.previousRoot == v.root
    && s.nextRoot != Genesis
  }

  function CheckTerms(v: VaultState, t: Terms, paused: bool): Option<Error> {
    if t.settlementType == Checkpoint then
      if t.token != ZeroToken || t.amount != 0 || t.destination != ZERO_ADDRESS then Some(InvalidSettlement) else None
    else if !t.token.Supported? then Some(UnsupportedAsset)
    else if t.amount == 0 || t.amount > MAX64 then Some(InvalidAmount)
    else if t.destination == ZERO_ADDRESS then Some(InvalidDestination)
    else if t.settlementType != BorrowPayout then None
    else if paused then Some(EnforcedPause)
    else if t.token != Supported(USDT0) then Some(InvalidSettlement)
    else if v.usdt0 < t.amount then Some(InsufficientVaultLiquidity)
    else None
  }

  /** The transfer out; a transfer to the vault itself leaves its balance as it was. */
  function Transfer(v: VaultState, t: Terms, self: Owner): Result<VaultState> {
    if !t.token.Supported? then Ok(v)
    else if v.Balance(t.token.asset) < t.amount then Err(TransferFailed)
    else if t.destination == self then Ok(v)
    else Ok(v.SetBalance(t.token.asset, v.Balance(t.token.asset) - t.amount))
  }

  function Execute(v: VaultState, s: Settlement, now: nat, paused: bool, authentic: bool, self: Owner): Result<VaultState> {
    if s.protocolVersion != PROTOCOL_VERSION then Err(InvalidSettlement)
    else if s.settlementId in v.used then Err(SettlementAlreadyUsed)
    else if s.deadline < now then Err(SettlementExpired)
    else if !Advances(v, s) then Err(InvalidStateTransition)
    else
      var refusal := CheckTerms(v, s.terms, paused);
      if refusal.Some? then Err(refusal.value)
      else if !authentic then Err(InvalidTeeSignature)
      else
        Transfer(v.(used := v.used + {s.settlementId}, sequence := s.nextSequence, root := s.nextRoot), s.terms, self)
  }

  /** What the vault demands of any settlement, and what an execution leaves. */
  lemma ExecutesExactly(v: VaultState, s: Settlement, now: nat, paused: bool, authentic: bool, self: Owner)
    ensures
      var t := s.terms;
      Execute(v, s, now, paused, authentic, self).Ok? <==>
        && authentic && s.protocolVersion == 2 && s.settlementId !in v.used && now <= s.deadline
        && s.previousSequence == v.sequence && s.nextSequence == v.sequence + 1
        && s.previousRoot == v.root && s.nextRoot != Genesis
        && (if t.settlementType == Checkpoint then t.token == ZeroToken && t.amount == 0 && t.destination == ""
            else
              && t.token.Supported? && 0 < t.amount < 0x1_0000_0000_0000_0000 && t.destination != ""
              && t.amount <= v.Balance(t.token.asset)
              && (t.settlementType == BorrowPayout ==> t.token.asset == USDT0 && !paused))
    ensures Execute(v, s, now, paused, authentic, self).Ok? ==>
      var t, next := s.terms, Execute(v, s, now, paused, authentic, self).value;
      && next == v.(sequence := v.sequence + 1, root := s.nextRoot, used := v.used + {s.settlementId},
                    usdt0 := next.usdt0, fxrp := next.fxrp)
      && (forall asset ::
            next.Balance(asset)
            == v.Balance(asset)
               - if t.settlementType != Checkpoint && t.token == Supported(asset) && t.destination != self then t.amount else 0)
  {
  }

  /** A transfer in is accepted exactly like this, and leaves a credit for exactly what arrived. */
  lemma ReceivesExactly(
    v: VaultState, sender: Owner, token: Token, amount: nat, received: nat, instructed: bool, backstop: bool, hash: CreditHash)
    ensures
      var r := Receive(v, sender, token, amount, received, instructed, backstop, hash);
      && (r.Ok? <==>
            && token.Supported? && 0 < amount < 0x1_0000_0000_0000_0000 && received == amount && instructed
            && v.depositNonce != 0xFFFF_FFFF_FFFF_FFFF)
      && (r.Ok? ==>
            var (next, c) := r.value;
            && c == Credit(hash(CreditPreimage(sender, token.asset, amount, v.depositNonce + 1, backstop)),
                           sender, token.asset, amount, backstop)
            && next == v.(depositNonce := v.depositNonce + 1, credits := v.credits[c.id := c],
                          usdt0 := next.usdt0, fxrp := next.fxrp)
            && (forall asset :: next.Balance(asset) == v.Balance(asset) + (if asset == token.asset then amount else 0)))
  {
  }

  /** A deposit is also put on record; only an operator may fund the backstop, and that leaves no record. */
  lemma DepositsAndFundsExactly(
    v: VaultState, sender: Owner, token: Token, operator: bool, amount: nat, received: nat, instructed: bool, now: nat,
    hash: CreditHash)
    ensures
      var r, d := Receive(v, sender, token, amount, received, instructed, false, hash),
                  Deposited(v, sender, token, amount, received, instructed, now, hash);
      && (d.Ok? <==> r.Ok?)
      && (d.Ok? ==>
            d.value == r.value.0.(records := v.records[r.value.1.id := DepositRecord(sender, token.asset, amount, now)]))
    ensures
      var r, f := Receive(v, sender, Supported(USDT0), amount, received, instructed, true, hash),
                  Funded(v, sender, operator, amount, received, instructed, hash);
      && (f.Ok? <==> operator && r.Ok?)
      && (f.Ok? ==> f.value == r.value.0 && f.value.records == v.records)
  {
  }

  class QuietVault {
    const self: Owner
    const hash: CreditHash
    var stateSequence: nat
    var stateRoot: Root
    var depositNonce: nat
    var depositById: map<Id, DepositRecord>
    var credits: map<Id, Credit>
    var usedSettlementId: set<SettlementId>
    var usdt0: nat
    var fxrp: nat

    function View(): VaultState
      reads this
    {
      VaultState(stateSequence, stateRoot, depositNonce, depositById, credits, usedSettlementId, usdt0, fxrp)
    }

    constructor (self: Owner, hash: CreditHash)
      ensures View() == NEW_VAULT && this.self == self && this.hash == hash
    {
      this.self := self;
      this.hash := hash;
      stateSequence, stateRoot, depositNonce := 0, Genesis, 0;
      depositById, credits, usedSettlementId := map[], map[], {};
      usdt0, fxrp := 0, 0;
    }

    /** An instruction that cannot be sent reverts everything, like any other failure. */
    method Deposit(sender: Owner, token: Token, amount: nat, received: nat, instructed: bool, now: nat) returns (r: Result<Id>)
      modifies this
      ensures
        var after := Deposited(old(View()), sender, token, amount, received, instructed, now, hash);
        match r
        case Err(e) => after == Err(e) && View() == old(View())
        case Ok(id) => after == Ok(View()) && id in depositById && old(depositNonce) + 1 == depositNonce
    {
      if !token.Supported? {
        return Err(UnsupportedAsset);
      }
      if amount == 0 || amount > MAX64 {
        return Err(InvalidAmount);
      }
      if received != amount {
        return Err(FeeOnTransferUnsupported);
      }
      if depositNonce == MAX64 {
        return Err(NonceOverflow);
      }
      var before := View();
      if token.asset == FXRP {
        fxrp := fxrp + received;
      } else {
        usdt0 := usdt0 + received;
      }
      depositNonce := depositNonce + 1;
      var id := hash(CreditPreimage(sender, token.asset, amount, depositNonce, false));
      depositById := depositById[id := DepositRecord(sender, token.asset, amount, now)];
      if !instructed {
        fxrp, usdt0, depositNonce, depositById := before.fxrp, before.usdt0, before.depositNonce, before.records;
        return Err(InstructionFailed);
      }
      credits := credits[id := Credit(id, sender, token.asset, amount, false)];
      return Ok(id);
    }

    method FundBackstop(sender: Owner, operator: bool, amount: nat, received: nat, instructed: bool) returns (r: Result<Id>)
      modifies this
      ensures
        var after := Funded(old(View()), sender, operator, amount, received, instructed, hash);
        match r
        case Err(e) => after == Err(e) && View() == old(View())
        case Ok(id) => after == Ok(View()) && id in credits && depositById == old(depositById)
    {
      if !operator {
        return Err(NotOperator);
      }
      if amount == 0 || amount > MAX64 {
        return Err(InvalidAmount);
      }
      if received != amount {
        return Err(FeeOnTransferUnsupported);
      }
      if depositNonce == MAX64 {
        return Err(NonceOverflow);
      }
      var before := View();
      usdt0 := usdt0 + received;
      depositNonce := depositNonce + 1;
      var id := hash(CreditPreimage(sender, USDT0, amount, depositNonce, true));
      if !instructed {
        usdt0, depositNonce := before.usdt0, before.depositNonce;
        return Err(InstructionFailed);
      }
      credits := credits[id := Credit(id, sender, USDT0, amount, true)];
      return Ok(id);
    }

    /** The storage writes come before the transfer; a failed transfer reverts them. */
    method ExecuteSettlement(s: Settlement, now: nat, paused: bool, authentic: bool) returns (err: Option<Error>)
      modifies this
      ensures
        match Execute(old(View()), s, now, paused, authentic, self)
        case Err(e) => err == Some(e) && View() == old(View())
        case Ok(after) => err == None && View() == after
    {
      if s.protocolVersion != PROTOCOL_VERSION {
        return Some(InvalidSettlement);
      }
      if s.settlementId in usedSettlementId {
        return Some(SettlementAlreadyUsed);
      }
      if s.deadline < now {
        return Some(SettlementExpired);
      }
      if s.previousSequence != stateSequence || s.nextSequence != stateSequence + 1
         || s.previousRoot != stateRoot || s.nextRoot == Genesis {
        return Some(InvalidStateTransition);
      }
      var t := s.terms;
      var checkpoint := t.settlementType == Checkpoint;
      if checkpoint {
        if t.token != ZeroToken || t.amount != 0 || t.destination != ZERO_ADDRESS {
          return Some(InvalidSettlement);
        }
      } else {
        if !t.token.Supported? {
          return Some(UnsupportedAsset);
        }
        if t.amount == 0 || t.amount > MAX64 {
          return Some(InvalidAmount);
        }
        if t.destination == ZERO_ADDRESS {
          return Some(InvalidDestination);
        }
      }
      if t.settlementType == BorrowPayout {
        if paused {
          return Some(EnforcedPause);
        }
        if t.token != Supported(USDT0) {
          return Some(InvalidSettlement);
        }
        if usdt0 < t.amount {
          return Some(InsufficientVaultLiquidity);
        }
      }
      if !authentic {
        return Some(InvalidTeeSignature);
      }
      var before := (usedSettlementId, stateSequence, stateRoot);
      usedSettlementId := usedSettlementId + {s.settlementId};
      stateSequence := s.nextSequence;
      stateRoot := s.nextRoot;
      if !checkpoint {
        var held := if t.token.asset == FXRP then fxrp else usdt0;
        if held < t.amount {
          usedSettlementId, stateSequence, stateRoot := before.0, before.1, before.2;
          return Some(TransferFailed);
        }
        if t.destination != self {
          if t.token.asset == FXRP {
            fxrp := fxrp - t.amount;
          } else {
            usdt0 := usdt0 - t.amount;
          }
        }
      }
      return None;
    }
  }

  // ---- Runs of the vault on its own ----------------------------------------------------------

  datatype VaultStep =
    | DepositStep(sender: Owner, token: Token, amount: nat, received: nat, instructed: bool)
    | FundStep(sender: Owner, operator: bool, amount: nat, received: nat, instructed: bool)
    | ExecuteStep(settlement: Settlement, paused: bool, authentic: bool)

  /** A step that reverts changes nothing. */
  function Step(v: VaultState, step: VaultStep, now: nat, hash: CreditHash, self: Owner): VaultState {
    var r := match step
             case DepositStep(sender, token, amount, received, instructed) =>
               Deposited(v, sender, token, amount, received, instructed, now, hash)
             case FundStep(sender, operator, amount, received, instructed) =>
               Funded(v, sender, operator, amount, received, instructed, hash)
             case ExecuteStep(s, paused, authentic) => Execute(v, s, now, paused, authentic, self);
    if r.Ok? then r.value else v
  }

  function RunSteps(v: VaultState, steps: seq<VaultStep>, now: nat, hash: CreditHash, self: Owner): VaultState
    decreases |steps|
  {
    if steps == [] then v else RunSteps(Step(v, steps[0], now, hash, self), steps[1..], now + 1, hash, self)
  }

  lemma StepOnlyAdvances(v: VaultState, step: VaultStep, now: nat, hash: CreditHash, self: Owner)
    ensures
      var next := Step(v, step, now, hash, self);
      && v.sequence <= next.sequence <= v.sequence + 1
      && v.used <= next.used
      && (next.sequence == v.sequence ==> next.root == v.root && next.used == v.used)
  {
  }

  lemma {:induction false} RunOnlyAdvances(v: VaultState, steps: seq<VaultStep>, now: nat, hash: CreditHash, self: Owner)
    ensures v.sequence <= RunSteps(v, steps, now, hash, self).sequence
    ensures v.used <= RunSteps(v, steps, now, hash, self).used
    decreases |steps|
  {
    if steps != [] {
      StepOnlyAdvances(v, steps[0], now, hash, self);
      RunOnlyAdvances(Step(v, steps[0], now, hash, self), steps[1..], now + 1, hash, self);
    }
  }

  /**
    Once a settlement has been executed, then whatever happens next, neither it nor any other
    settlement with its id or for its sequence number is ever executed again.
   */
  lemma ExecutedAtMostOnce(
    v: VaultState, s: Settlement, next: VaultState, steps: seq<VaultStep>, again: Settlement,
    now: nat, paused: bool, authentic: bool, start: nat, now': nat, paused': bool, authentic': bool,
    hash: CreditHash, self: Owner)
    requires Execute(v, s, now, paused, authentic, self) == Ok(next)
    requires again.settlementId == s.settlementId || again.nextSequence == s.nextSequence
    ensures Execute(RunSteps(next, steps, start, hash, self), again, now', paused', authentic', self).Err?
  {
    RunOnlyAdvances(next, steps, start, hash, self);
  }

  function PreimageOf(c: Credit, nonce: nat): CreditPreimage {
    CreditPreimage(c.sender, c.asset, c.amount, nonce, c.backstop)
  }

  ghost predicate Numbered(c: Credit, last: nat, hash: CreditHash) {
    exists nonce: nat :: nonce <= last && c.id == hash(PreimageOf(c, nonce))
  }

  /** Every credit is positive and has its own id, hashed over its own nonce; every record is a credit that is not the backstop's. */
  ghost predicate CreditsNumbered(v: VaultState, hash: CreditHash) {
    && (forall id :: id in v.credits ==>
          && v.credits[id].id == id && v.credits[id].amount > 0
          && Numbered(v.credits[id], v.depositNonce, hash))
    && (forall id :: id in v.records ==>
          && id in v.credits
          && var c, r := v.credits[id], v.records[id];
             c == Credit(id, r.account, r.asset, r.amount, false))
  }

  /** A new credit never overwrites an earlier one. */
  lemma ReceiveIsFresh(
    v: VaultState, sender: Owner, token: Token, amount: nat, received: nat, instructed: bool, backstop: bool, hash: CreditHash)
    requires CollisionFree(hash) && CreditsNumbered(v, hash)
    requires Receive(v, sender, token, amount, received, instructed, backstop, hash).Ok?
    ensures
      var (next, credit) := Receive(v, sender, token, amount, received, instructed, backstop, hash).value;
      credit.id !in v.credits && CreditsNumbered(next, hash)
  {
    var (next, credit) := Receive(v, sender, token, amount, received, instructed, backstop, hash).value;
    assert credit.id == hash(PreimageOf(credit, next.depositNonce));
    if credit.id in v.credits {
      assert false;
    }
    forall id | id in next.credits
      ensures next.credits[id].id == id && next.credits[id].amount > 0
      ensures Numbered(next.credits[id], next.depositNonce, hash)
    {
      if id != credit.id {
        var nonce: nat :| nonce <= v.depositNonce && id == hash(PreimageOf(next.credits[id], nonce));
      }
    }
  }
}
