/**
  Withdrawal is exact: it succeeds if and only if the amount is covered by the free
  balance plus, for USDT0, the owner's own lendable mandate funds; it drains mandates
  strictly oldest first and never touches lent principal or anyone else's mandate.
 */
module Withdrawals {
  import opened Outcomes
  import opened Arithmetic
  import opened MapSums
  import opened Model
  import opened Ordering
  import opened Selection
  import opened Operations
  import opened Invariants
  import opened Conservation
  import opened Lending

  // ---- The owner's mandates by age ------------------------------------------------------------

  lemma OlderFirstIsOrder()
    ensures StrictWeakOrder(ByAgeOrder())
    ensures forall x: Mandate, y: Mandate :: x.id != y.id ==> ByAgeOrder()(x, y) || ByAgeOrder()(y, x)
  {
    var less := ByAgeOrder();
    forall x ensures !less(x, x) {
      LexTotal(x.id, x.id);
    }
    forall x: Mandate, y: Mandate | x.id != y.id ensures less(x, y) || less(y, x) {
      LexTotal(x.id, y.id);
    }
    forall x, y, z | less(x, y) && less(y, z) ensures less(x, z) {
      OlderTransitive(x, y, z);
    }
    forall x, y, z | less(x, z) ensures less(x, y) || less(y, z) {
      OlderNegTransitive(x, y, z);
    }
  }

  lemma OlderTransitive(x: Mandate, y: Mandate, z: Mandate)
    requires OlderFirst(x, y) && OlderFirst(y, z)
    ensures OlderFirst(x, z)
  {
    if x.createdAt == y.createdAt == z.createdAt {
      LexTransitive(x.id, y.id, z.id);
    }
  }

  lemma OlderNegTransitive(x: Mandate, y: Mandate, z: Mandate)
    requires OlderFirst(x, z)
    ensures OlderFirst(x, y) || OlderFirst(y, z)
  {
    LexTotal(x.id, y.id);
    LexTotal(y.id, z.id);
    if x.createdAt == y.createdAt == z.createdAt && LexLess(y.id, x.id) {
      LexTransitive(y.id, x.id, z.id);
    }
  }

  /** The list that a withdrawal walks: the owner's mandates, each once, strictly oldest first. */
  lemma ByAgeExact(ms: map<Id, Mandate>, owner: Owner, order: seq<Id>)
    requires KeyedById(ms) && Enumerates(order, ms.Keys)
    ensures
      var list := ByAge(ms, owner, order);
      && (forall m :: m in list <==> m.id in ms && ms[m.id] == m && m.lender == owner)
      && (forall i, j :: 0 <= i < j < |list| ==> list[i].id != list[j].id)
      && (forall i, j :: 0 <= i < j < |list| ==>
            || list[i].createdAt < list[j].createdAt
            || (list[i].createdAt == list[j].createdAt && LexLess(list[i].id, list[j].id)))
  {
    var list, less := ByAge(ms, owner, order), ByAgeOrder();
    OlderFirstIsOrder();
    SortedSelection(ms, order, LentBy(owner), less);
    forall i, j | 0 <= i < j < |list| ensures OlderFirst(list[i], list[j]) {
      assert !less(list[j], list[i]);
      assert list[i].id != list[j].id;
    }
  }

  lemma ByAgeIgnoresEnumerationOrder(ms: map<Id, Mandate>, owner: Owner, order: seq<Id>, order': seq<Id>)
    requires KeyedById(ms) && Enumerates(order, ms.Keys) && Enumerates(order', ms.Keys)
    ensures ByAge(ms, owner, order) == ByAge(ms, owner, order')
  {
    OlderFirstIsOrder();
    SortedSelectionUnique(ms, order, order', LentBy(owner), ByAgeOrder());
  }

  // ---- Draining ------------------------------------------------------------------------------------

  /** An owner's lendable funds in one mandate. */
  function OwnAvailable(owner: Owner): Mandate -> int {
    (m: Mandate) => if m.lender == owner then m.available else 0
  }

  function SeqAvailable(list: seq<Mandate>): nat {
    if list == [] then 0 else list[0].available + SeqAvailable(list[1..])
  }

  lemma {:induction false} SeqAvailableSum(list: seq<Mandate>, owner: Owner)
    requires forall m :: m in list ==> m.lender == owner
    ensures SeqAvailable(list) == SeqSum(list, OwnAvailable(owner))
  {
    if list != [] {
      assert list[0] in list;
      SeqAvailableSum(list[1..], owner);
    }
  }

  /** `list` holds mandates of `owner` as they are stored, each once. */
  ghost predicate Listed(list: seq<Mandate>, ms: map<Id, Mandate>, owner: Owner) {
    && KeyedById(ms)
    && (forall m :: m in list ==> m.id in ms && ms[m.id] == m && m.lender == owner && (!m.active ==> m.available == 0))
    && (forall i, j :: 0 <= i < j < |list| ==> list[i].id != list[j].id)
  }

  /** Only lendable amounts went down, and only for listed mandates. */
  ghost predicate OnlyDrained(list: seq<Mandate>, before: map<Id, Mandate>, after: map<Id, Mandate>) {
    && after.Keys == before.Keys
    && (forall id :: id in before ==>
          && after[id] == before[id].(available := after[id].available)
          && after[id].available <= before[id].available)
    && (forall id :: id in before && (forall m :: m in list ==> m.id != id) ==> after[id] == before[id])
  }

  /** A mandate gives something only when every earlier one has been emptied. */
  ghost predicate StrictlyInOrder(list: seq<Mandate>, after: map<Id, Mandate>) {
    && (forall m :: m in list ==> m.id in after)
    && (forall i, j :: 0 <= i < j < |list| && after[list[j].id].available < list[j].available ==>
          after[list[i].id].available == 0)
  }

  ghost predicate DrainSums(before: map<Id, Mandate>, after: map<Id, Mandate>, owner: Owner, taken: int) {
    && Sum(after, MandateAvailable()) == Sum(before, MandateAvailable()) - taken
    && Sum(after, MandateLent()) == Sum(before, MandateLent())
    && (forall o :: Sum(after, StakeOf(o)) == Sum(before, StakeOf(o)) - (if o == owner then taken else 0))
  }

  lemma DrainOneSums(ms: map<Id, Mandate>, m: Mandate, take: u64)
    requires KeyedById(ms) && m.id in ms && ms[m.id] == m && take <= m.available
    ensures DrainSums(ms, ms[m.id := m.(available := m.available - take)], m.lender, take)
  {
    hide Sum;
    var m' := m.(available := m.available - take);
    forall o ensures Sum(ms[m.id := m'], StakeOf(o)) == Sum(ms, StakeOf(o)) - (if o == m.lender then take else 0) {
      MandateSums(ms, m', o);
    }
    MandateSums(ms, m', "");
  }

  lemma ListedTail(list: seq<Mandate>, ms: map<Id, Mandate>, owner: Owner, m: Mandate)
    requires list != [] && Listed(list, ms, owner) && m == list[0].(available := m.available)
    ensures Listed(list[1..], ms[m.id := m], owner)
  {
    forall x | x in list[1..] ensures x.id in ms && ms[x.id] == x && x.id != m.id {
      var i :| 0 <= i < |list[1..]| && list[1..][i] == x;
      assert list[0].id != list[i + 1].id;
    }
  }

  lemma NothingToDrain(list: seq<Mandate>, d: Drained)
    requires list == [] || d.remaining == 0
    ensures Drain(list, d) == d
  {
  }

  lemma ListedFirst(list: seq<Mandate>, ms: map<Id, Mandate>, owner: Owner)
    requires list != [] && Listed(list, ms, owner)
    ensures list[0].id in ms && ms[list[0].id] == list[0] && list[0].lender == owner
    ensures !list[0].active ==> list[0].available == 0
    ensures KeyedById(ms)
  {
    assert list[0] in list;
  }

  lemma {:induction false} DrainExact(list: seq<Mandate>, d: Drained, owner: Owner)
    requires Listed(list, d.mandates, owner)
    requires Min(SeqAvailable(list), d.remaining) <= d.reserved
    ensures
      var after, taken := Drain(list, d), Min(SeqAvailable(list), d.remaining);
      && after.remaining == d.remaining - taken
      && after.reserved == d.reserved - taken
      && OnlyDrained(list, d.mandates, after.mandates)
      && StrictlyInOrder(list, after.mandates)
      && DrainSums(d.mandates, after.mandates, owner, taken)
    decreases |list|
  {
    hide Sum, OnlyDrained, StrictlyInOrder, DrainSums, Listed, Drain;
    if list == [] || d.remaining == 0 {
      DrainUntouched(list, d.mandates, owner);
      NothingToDrain(list, d);
    } else {
      var m := list[0];
      ListedFirst(list, d.mandates, owner);
      var take: u64 := Min(m.available, d.remaining);
      var m' := m.(available := m.available - take);
      var d' := Drained(d.mandates[m.id := m'], d.reserved - take, d.remaining - take);
      DrainStep(list, d, d', take);
      ListedTail(list, d.mandates, owner, m');
      DrainExact(list[1..], d', owner);
      DrainOneSums(d.mandates, m, take);
      var after := Drain(list[1..], d').mandates;
      DrainCompose(list, d.mandates, d'.mandates, after, owner, take);
      DrainOrderCompose(list, d.mandates, d'.mandates, after, owner, take, d.remaining);
      DrainSumsCompose(d.mandates, d'.mandates, after, owner, take, Min(SeqAvailable(list[1..]), d'.remaining));
    }
  }

  /** One turn of the loop, whether or not the first mandate has anything to give. */
  lemma DrainStep(list: seq<Mandate>, d: Drained, d': Drained, take: u64)
    requires list != [] && d.remaining > 0
    requires list[0].id in d.mandates && d.mandates[list[0].id] == list[0]
    requires !list[0].active ==> list[0].available == 0
    requires take == Min(list[0].available, d.remaining) && take <= d.reserved
    requires d' == Drained(d.mandates[list[0].id := list[0].(available := list[0].available - take)],
                           d.reserved - take, d.remaining - take)
    ensures Drain(list, d) == Drain(list[1..], d')
    ensures take == d.remaining ==> Drain(list[1..], d').mandates == d'.mandates
  {
    if list[0].available == 0 {
      assert d'.mandates == d.mandates;
      assert d' == d;
    }
  }

  lemma DrainSumsCompose(
    ms: map<Id, Mandate>, mid: map<Id, Mandate>, after: map<Id, Mandate>, owner: Owner, taken: int, taken': int)
    requires DrainSums(ms, mid, owner, taken) && DrainSums(mid, after, owner, taken')
    ensures DrainSums(ms, after, owner, taken + taken')
  {
    hide Sum;
  }

  lemma DrainUntouched(list: seq<Mandate>, ms: map<Id, Mandate>, owner: Owner)
    requires Listed(list, ms, owner)
    ensures OnlyDrained(list, ms, ms) && StrictlyInOrder(list, ms) && DrainSums(ms, ms, owner, 0)
  {
    forall j | 0 <= j < |list| ensures ms[list[j].id].available == list[j].available {
      assert list[j] in list;
    }
  }

  lemma TailIds(list: seq<Mandate>)
    requires list != []
    requires forall i, j :: 0 <= i < j < |list| ==> list[i].id != list[j].id
    ensures forall x :: x in list[1..] ==> x.id != list[0].id
  {
    forall x | x in list[1..] ensures x.id != list[0].id {
      var i :| 0 <= i < |list[1..]| && list[1..][i] == x;
      assert list[0].id != list[i + 1].id;
    }
  }

  lemma DrainCompose(
    list: seq<Mandate>, ms: map<Id, Mandate>, mid: map<Id, Mandate>, after: map<Id, Mandate>, owner: Owner, take: u64)
    requires list != [] && Listed(list, ms, owner) && take <= list[0].available
    requires mid == ms[list[0].id := list[0].(available := list[0].available - take)]
    requires OnlyDrained(list[1..], mid, after)
    ensures OnlyDrained(list, ms, after)
  {
    assert list[0] in list;
    forall id | id in ms && (forall m :: m in list ==> m.id != id) ensures after[id] == ms[id] {
      assert forall m :: m in list[1..] ==> m in list;
    }
  }

  lemma DrainOrderCompose(
    list: seq<Mandate>, ms: map<Id, Mandate>, mid: map<Id, Mandate>, after: map<Id, Mandate>,
    owner: Owner, take: u64, remaining: u64)
    requires list != [] && Listed(list, ms, owner)
    requires take == Min(list[0].available, remaining)
    requires mid == ms[list[0].id := list[0].(available := list[0].available - take)]
    requires OnlyDrained(list[1..], mid, after) && StrictlyInOrder(list[1..], after)
    requires take == remaining ==> after == mid
    ensures StrictlyInOrder(list, after)
  {
    TailIds(list);
    var first, rest := list[0], list[1..];
    assert after[first.id] == mid[first.id];
    forall x | x in list ensures x.id in after {
      assert x != first ==> x in rest;
    }
    forall i, j | 0 <= i < j < |list| && after[list[j].id].available < list[j].available
      ensures after[list[i].id].available == 0
    {
      assert rest[j - 1] == list[j] && list[j] in rest && list[j] in list;
      if i > 0 {
        assert rest[i - 1] == list[i];
      }
    }
  }

  // ---- Retiring emptied mandates ------------------------------------------------------------------

  /** Only `active` may have changed: every listed mandate with nothing available and nothing lent is inactive now. */
  ghost predicate OnlyRetired(list: seq<Mandate>, before: map<Id, Mandate>, after: map<Id, Mandate>) {
    && after.Keys == before.Keys
    && (forall id :: id in before && (forall m :: m in list ==> m.id != id) ==> after[id] == before[id])
    && (forall id :: id in before ==>
          && after[id] == before[id].(active := after[id].active)
          && (after[id].active != before[id].active ==>
                !after[id].active && before[id].available == 0 && before[id].lent == 0))
    && (forall m :: m in list && m.id in before && before[m.id].available == 0 && before[m.id].lent == 0 ==>
          !after[m.id].active)
  }

  lemma {:induction false} RetireExact(ms: map<Id, Mandate>, list: seq<Mandate>)
    ensures OnlyRetired(list, ms, Retire(ms, list))
    decreases |list|
  {
    if list != [] {
      if list[0].id !in ms {
        RetireExact(ms, list[1..]);
      } else {
        RetireExact(ms[list[0].id := Settled(ms[list[0].id])], list[1..]);
      }
    }
  }

  lemma RetireSums(list: seq<Mandate>, before: map<Id, Mandate>, after: map<Id, Mandate>, owner: Owner)
    requires OnlyRetired(list, before, after)
    ensures DrainSums(before, after, owner, 0)
  {
    SumCongruent(before, after, MandateAvailable(), MandateAvailable());
    SumCongruent(before, after, MandateLent(), MandateLent());
    forall o ensures Sum(after, StakeOf(o)) == Sum(before, StakeOf(o)) {
      SumCongruent(before, after, StakeOf(o), StakeOf(o));
    }
  }

  // ---- The books after a drain ----------------------------------------------------------------------

  /** One owner's mandates lost `taken` in all, mirrored in its reserved balance. */
  ghost predicate StakesDrained(b: Book, next: Book, owner: Owner, taken: nat) {
    && owner in b.accounts && owner in next.accounts
    && next == b.(accounts := b.accounts[owner := next.accounts[owner]], mandates := next.mandates)
    && next.accounts[owner].fxrp == b.accounts[owner].fxrp
    && next.accounts[owner].loanId == b.accounts[owner].loanId
    && next.accounts[owner].usdt0.reserved == b.accounts[owner].usdt0.reserved - taken
    && SameMandates(b.mandates, next.mandates)
    && (forall id :: id in b.mandates ==>
          && next.mandates[id].lent == b.mandates[id].lent
          && (!next.mandates[id].active ==> next.mandates[id].available == 0))
    && DrainSums(b.mandates, next.mandates, owner, taken)
  }

  lemma StakesDrainedBacked(b: Book, next: Book, owner: Owner, taken: nat)
    requires Structure(b) && StakesDrained(b, next, owner, taken)
    ensures ReservedBacked(next.accounts, next.mandates)
    ensures LentBacked(next.mandates, next.loans)
    ensures next.activeDebt == Sum(next.loans, OpenPrincipal()) == Sum(next.mandates, MandateLent())
  {
    hide Sum, OpenLoanLinked, AccountLinked, MandateSound;
  }

  lemma StakesDrainedLinks(b: Book, next: Book, owner: Owner, taken: nat)
    requires Structure(b) && StakesDrained(b, next, owner, taken)
    ensures forall id :: id in next.mandates ==> MandateSound(next, id)
    ensures forall key :: key in next.loans ==> OpenLoanLinked(next, key)
    ensures forall o :: o in next.accounts ==> AccountLinked(next, o)
  {
    hide Sum, LoanSound, ReservedBacked, LentBacked, DrainSums;
    forall id | id in next.mandates ensures MandateSound(next, id) {
      assert MandateSound(b, id);
    }
    forall key | key in next.loans ensures OpenLoanLinked(next, key) {
      assert OpenLoanLinked(b, key);
      LoanSoundUnderNewTerms(b.mandates, next.mandates, b.loans[key]);
    }
    forall o | o in next.accounts ensures AccountLinked(next, o) {
      assert AccountLinked(b, o);
    }
  }

  lemma StakesDrainedKeeps(b: Book, next: Book, owner: Owner, taken: nat)
    requires Structure(b) && StakesDrained(b, next, owner, taken)
    ensures Structure(next)
    ensures FreeUsdt0(next)
         == FreeUsdt0(b) - b.accounts[owner].usdt0.available + next.accounts[owner].usdt0.available - taken
    ensures TotalFxrp(next) == TotalFxrp(b)
  {
    hide Sum, OpenLoanLinked, AccountLinked, MandateSound, ReservedBacked, LentBacked, SameMandates;
    StakesDrainedBacked(b, next, owner, taken);
    StakesDrainedLinks(b, next, owner, taken);
    AccountSums(b, owner, next.accounts[owner]);
  }

  // ---- Withdraw ------------------------------------------------------------------------------------------

  /** Everything `owner` can withdraw of `asset`. */
  ghost function Withdrawable(b: Book, owner: Owner, asset: Asset): int {
    AccountOf(b, owner).Get(asset).available + (if asset == USDT0 then Sum(b.mandates, OwnAvailable(owner)) else 0)
  }

  /** The drain of a withdrawal that the free balance does not cover. */
  function DrainFor(b: Book, owner: Owner, amount: u64, order: seq<Id>): Drained
    requires AccountOf(b, owner).usdt0.available < amount
  {
    var usdt0 := AccountOf(b, owner).usdt0;
    Drain(ByAge(b.mandates, owner, order), Drained(b.mandates, usdt0.reserved, amount - usdt0.available))
  }

  lemma {:induction false} OwnAvailableWithinStake(ms: map<Id, Mandate>, owner: Owner)
    ensures 0 <= Sum(ms, OwnAvailable(owner)) <= Sum(ms, StakeOf(owner))
    decreases |ms|
  {
    SumMono(ms, OwnAvailable(owner), StakeOf(owner));
    SumNonNegative(ms, OwnAvailable(owner));
  }

  lemma ByAgeListed(b: Book, owner: Owner, order: seq<Id>)
    requires Structure(b) && Enumerates(order, b.mandates.Keys)
    ensures Listed(ByAge(b.mandates, owner, order), b.mandates, owner)
    ensures SeqAvailable(ByAge(b.mandates, owner, order)) == Sum(b.mandates, OwnAvailable(owner))
  {
    hide Structure, Sum, ByAge;
    StructureIds(b);
    StructureIdle(b);
    ByAgeExact(b.mandates, owner, order);
    SeqAvailableSum(ByAge(b.mandates, owner, order), owner);
    ByAgeSum(b.mandates, owner, order);
  }

  lemma ByAgeSum(ms: map<Id, Mandate>, owner: Owner, order: seq<Id>)
    requires Enumerates(order, ms.Keys)
    ensures SeqSum(ByAge(ms, owner, order), OwnAvailable(owner)) == Sum(ms, OwnAvailable(owner))
  {
    SortedSelectionSum(ms, order, LentBy(owner), ByAgeOrder(), OwnAvailable(owner));
  }

  /** The drain of a withdrawal, exactly. */
  lemma DrainForExact(b: Book, owner: Owner, amount: u64, order: seq<Id>)
    requires Structure(b) && Enumerates(order, b.mandates.Keys)
    requires AccountOf(b, owner).usdt0.available < amount
    ensures
      var list, need := ByAge(b.mandates, owner, order), amount - AccountOf(b, owner).usdt0.available;
      var d, taken := DrainFor(b, owner, amount, order), Min(Sum(b.mandates, OwnAvailable(owner)), need);
      && d.remaining == need - taken
      && d.reserved == AccountOf(b, owner).usdt0.reserved - taken
      && OnlyDrained(list, b.mandates, d.mandates)
      && StrictlyInOrder(list, d.mandates)
      && DrainSums(b.mandates, d.mandates, owner, taken)
  {
    hide Structure, Sum, Drain, OnlyDrained, StrictlyInOrder, DrainSums, Listed, ByAge, SeqAvailable;
    var usdt0 := AccountOf(b, owner).usdt0;
    ByAgeListed(b, owner, order);
    AccountReserved(b, owner);
    OwnAvailableWithinStake(b.mandates, owner);
    DrainExact(ByAge(b.mandates, owner, order), Drained(b.mandates, usdt0.reserved, amount - usdt0.available), owner);
  }

  /** The two ways a withdrawal can go: from the free balance alone, or through the mandates. */
  lemma WithdrawUnfolds(
    b: Book, owner: Owner, asset: Asset, amount: u64, operationId: Id, nonce: u64, now: Time, order: seq<Id>)
    requires amount > 0 && operationId !in b.processed && AccountOf(b, owner).nonce == nonce
    requires AccountOf(b, owner).Get(asset).available < amount
    ensures
      var r := Withdraw(b, owner, asset, amount, operationId, nonce, now, order);
      if asset == USDT0 && DrainFor(b, owner, amount, order).remaining == 0 then
        && r.Ok?
        && owner in r.value.accounts
        && var d, a, a' := DrainFor(b, owner, amount, order), AccountOf(b, owner), r.value.accounts[owner];
           && a' == a.(nonce := a'.nonce, usdt0 := Balance(0, d.reserved))
           && r.value == b.(accounts := b.accounts[owner := a'],
                            mandates := Retire(d.mandates, ByAge(b.mandates, owner, order)),
                            processed := r.value.processed, activities := r.value.activities)
      else
        r == Err(InsufficientBalance)
  {
    hide Drain, ByAge, Retire;
  }

  /** A withdrawal succeeds if and only if the owner's withdrawable funds cover it. */
  lemma WithdrawSucceedsExactly(
    b: Book, owner: Owner, asset: Asset, amount: u64, operationId: Id, nonce: u64, now: Time, order: seq<Id>)
    requires Sound(b) && Enumerates(order, b.mandates.Keys)
    ensures Withdraw(b, owner, asset, amount, operationId, nonce, now, order).Ok? <==>
      && amount > 0
      && operationId !in b.processed
      && AccountOf(b, owner).nonce == nonce
      && amount <= Withdrawable(b, owner, asset)
  {
    hide Structure, Sum, Drain, ByAge, Retire, DrainFor, OnlyDrained, StrictlyInOrder, DrainSums;
    OwnAvailableWithinStake(b.mandates, owner);
    if amount > 0 && operationId !in b.processed && AccountOf(b, owner).nonce == nonce
       && AccountOf(b, owner).Get(asset).available < amount
    {
      WithdrawUnfolds(b, owner, asset, amount, operationId, nonce, now, order);
      if asset == USDT0 {
        DrainForExact(b, owner, amount, order);
      }
    }
  }

  /** The mandates after a withdrawal: only the owner's lendable funds went down, strictly oldest first. */
  ghost predicate DrainedInOrder(list: seq<Mandate>, before: map<Id, Mandate>, after: map<Id, Mandate>, owner: Owner) {
    && after.Keys == before.Keys
    && (forall id :: id in before ==>
          && SameTerms(before[id], after[id])
          && after[id].lent == before[id].lent
          && after[id].available <= before[id].available
          && (before[id].lender != owner ==> after[id] == before[id]))
    && StrictlyInOrder(list, after)
  }

  lemma RetiredKeepsOrder(list: seq<Mandate>, mid: map<Id, Mandate>, after: map<Id, Mandate>)
    requires StrictlyInOrder(list, mid) && OnlyRetired(list, mid, after)
    ensures StrictlyInOrder(list, after)
  {
    forall i | 0 <= i < |list| ensures list[i].id in mid && after[list[i].id].available == mid[list[i].id].available {
      assert list[i] in list;
    }
  }

  lemma DrainedThenRetired(
    list: seq<Mandate>, before: map<Id, Mandate>, mid: map<Id, Mandate>, after: map<Id, Mandate>, owner: Owner)
    requires Listed(list, before, owner)
    requires OnlyDrained(list, before, mid) && StrictlyInOrder(list, mid) && OnlyRetired(list, mid, after)
    requires forall id :: id in before && !before[id].active ==> before[id].available == 0
    ensures DrainedInOrder(list, before, after, owner)
    ensures forall id :: id in before && !after[id].active ==> after[id].available == 0
  {
    RetiredKeepsOrder(list, mid, after);
    hide StrictlyInOrder;
    forall id | id in before && before[id].lender != owner ensures after[id] == before[id] {
      assert forall m :: m in list ==> m.id != id;
    }
  }

  lemma OwnerOfDrain(b: Book, owner: Owner, amount: u64, order: seq<Id>)
    requires Structure(b) && amount > 0 && amount <= Withdrawable(b, owner, USDT0)
    ensures owner in b.accounts
  {
    OwnAvailableWithinStake(b.mandates, owner);
    hide Structure, Sum;
    if owner !in b.accounts {
      NoStakeWithoutAccount(b, owner);
    }
  }

  /** The mandate part of a withdrawal keeps the books. */
  lemma DrainedWithdrawalKeeps(
    b: Book, owner: Owner, amount: u64, operationId: Id, nonce: u64, now: Time, order: seq<Id>, next: Book)
    requires Sound(b) && Enumerates(order, b.mandates.Keys)
    requires Withdraw(b, owner, USDT0, amount, operationId, nonce, now, order) == Ok(next)
    requires AccountOf(b, owner).usdt0.available < amount
    ensures KeepsBooks(b, next, -(amount as int), 0)
    ensures DrainedInOrder(ByAge(b.mandates, owner, order), b.mandates, next.mandates, owner)
  {
    hide Structure, Sum, Drain, ByAge, Retire, DrainFor, OnlyDrained, StrictlyInOrder, DrainSums, Listed, OnlyRetired;
    hide DrainedInOrder, SameMandates, FreeUsdt0, TotalFxrp;
    WithdrawSucceedsExactly(b, owner, USDT0, amount, operationId, nonce, now, order);
    OwnerOfDrain(b, owner, amount, order);
    WithdrawUnfolds(b, owner, USDT0, amount, operationId, nonce, now, order);
    DrainForExact(b, owner, amount, order);
    ByAgeListed(b, owner, order);
    StructureIdle(b);
    var list, d := ByAge(b.mandates, owner, order), DrainFor(b, owner, amount, order);
    var taken := amount - AccountOf(b, owner).usdt0.available;
    RetireExact(d.mandates, list);
    DrainedThenRetired(list, b.mandates, d.mandates, next.mandates, owner);
    RetireSums(list, d.mandates, next.mandates, owner);
    DrainSumsCompose(b.mandates, d.mandates, next.mandates, owner, taken, 0);
    var mid := b.(accounts := next.accounts, mandates := next.mandates);
    WithdrawalStakes(b, mid, list, owner, taken);
    StakesDrainedKeeps(b, mid, owner, taken);
    LogKeeps(mid, next.processed, next.activities, next.price);
  }

  lemma WithdrawalStakes(b: Book, next: Book, list: seq<Mandate>, owner: Owner, taken: nat)
    requires owner in b.accounts && owner in next.accounts
    requires next == b.(accounts := b.accounts[owner := next.accounts[owner]], mandates := next.mandates)
    requires next.accounts[owner].fxrp == b.accounts[owner].fxrp && next.accounts[owner].loanId == b.accounts[owner].loanId
    requires next.accounts[owner].usdt0.reserved == b.accounts[owner].usdt0.reserved - taken
    requires DrainedInOrder(list, b.mandates, next.mandates, owner)
    requires forall id :: id in b.mandates && !next.mandates[id].active ==> next.mandates[id].available == 0
    requires DrainSums(b.mandates, next.mandates, owner, taken)
    ensures StakesDrained(b, next, owner, taken)
  {
    hide DrainSums, StrictlyInOrder;
  }

  /** A withdrawal from the free balance alone leaves every mandate as it was. */
  lemma FreeWithdrawalKeeps(
    b: Book, owner: Owner, asset: Asset, amount: u64, operationId: Id, nonce: u64, now: Time, order: seq<Id>, next: Book)
    requires Sound(b)
    requires Withdraw(b, owner, asset, amount, operationId, nonce, now, order) == Ok(next)
    requires amount <= AccountOf(b, owner).Get(asset).available
    ensures KeepsBooks(b, next, if asset == USDT0 then -(amount as int) else 0, if asset == FXRP then -(amount as int) else 0)
    ensures next.mandates == b.mandates
  {
    hide Structure, Sum, Drain, ByAge, Retire, FreeUsdt0, TotalFxrp;
    PutAccountKeeps(b, owner, next.accounts[owner]);
    var mid := PutAccount(b, owner, next.accounts[owner]);
    LogKeeps(mid, next.processed, next.activities, next.price);
  }

  /** Any successful withdrawal moves exactly its amount out and keeps the books. */
  lemma WithdrawKeeps(
    b: Book, owner: Owner, asset: Asset, amount: u64, operationId: Id, nonce: u64, now: Time, order: seq<Id>, next: Book)
    requires Sound(b) && Enumerates(order, b.mandates.Keys)
    requires Withdraw(b, owner, asset, amount, operationId, nonce, now, order) == Ok(next)
    ensures KeepsBooks(b, next, if asset == USDT0 then -(amount as int) else 0, if asset == FXRP then -(amount as int) else 0)
    ensures DrainedInOrder(ByAge(b.mandates, owner, order), b.mandates, next.mandates, owner)
  {
    hide Structure, Sum, Drain, ByAge, Retire, DrainFor, KeepsBooks;
    if amount <= AccountOf(b, owner).Get(asset).available {
      FreeWithdrawalKeeps(b, owner, asset, amount, operationId, nonce, now, order, next);
      ByAgeListed(b, owner, order);
      DrainUntouched(ByAge(b.mandates, owner, order), b.mandates, owner);
    } else {
      WithdrawSucceedsExactly(b, owner, asset, amount, operationId, nonce, now, order);
      DrainedWithdrawalKeeps(b, owner, amount, operationId, nonce, now, order, next);
    }
  }

  lemma RetiredExactly(list: seq<Mandate>, mid: map<Id, Mandate>, after: map<Id, Mandate>, id: Id)
    requires OnlyRetired(list, mid, after) && id in mid && exists m :: m in list && m.id == id
    ensures after[id].active <==> mid[id].active && (mid[id].available > 0 || mid[id].lent > 0)
  {
  }

  /**
    What a withdrawal leaves its owner: a free balance that covers it pays alone; otherwise all of it goes, the owner's
    mandates give the rest, and those of them with nothing left, available or lent, become inactive.
   */
  lemma WithdrawLeavesExactly(
    b: Book, owner: Owner, asset: Asset, amount: u64, operationId: Id, nonce: u64, now: Time, order: seq<Id>, next: Book)
    requires Sound(b) && Enumerates(order, b.mandates.Keys)
    requires Withdraw(b, owner, asset, amount, operationId, nonce, now, order) == Ok(next)
    ensures
      var free, left := AccountOf(b, owner).Get(asset), AccountOf(next, owner).Get(asset);
      if amount <= free.available then
        next.mandates == b.mandates && left == Balance(free.available - amount, free.reserved)
      else
        && left.available == 0 && left.reserved == free.reserved - (amount - free.available)
        && next.mandates.Keys == b.mandates.Keys
        && (forall id :: id in b.mandates && b.mandates[id].lender == owner ==>
              (next.mandates[id].active <==>
               b.mandates[id].active && (next.mandates[id].available > 0 || next.mandates[id].lent > 0)))
    ensures next.activities == b.activities + [Activity(operationId, owner, false, asset, amount, now)]
  {
    hide Structure, Sum, Drain, ByAge, Retire, DrainFor, OnlyDrained, StrictlyInOrder, DrainSums, OnlyRetired;
    hide FreeUsdt0, TotalFxrp;
    if amount > AccountOf(b, owner).Get(asset).available {
      WithdrawUnfolds(b, owner, asset, amount, operationId, nonce, now, order);
      DrainForExact(b, owner, amount, order);
      var list, d := ByAge(b.mandates, owner, order), DrainFor(b, owner, amount, order);
      RetireExact(d.mandates, list);
      KeptKeys(list, b.mandates, d.mandates, next.mandates);
      StructureIds(b);
      ByAgeExact(b.mandates, owner, order);
      forall id | id in b.mandates && b.mandates[id].lender == owner
        ensures id in next.mandates
        ensures next.mandates[id].active <==>
                b.mandates[id].active && (next.mandates[id].available > 0 || next.mandates[id].lent > 0)
      {
        assert b.mandates[id] in list;
        DrainedKeepsActive(list, b.mandates, d.mandates, id);
        RetiredExactly(list, d.mandates, next.mandates, id);
        RetiredKeepsAmounts(list, d.mandates, next.mandates, id);
      }
    }
  }

  lemma DrainedKeepsActive(list: seq<Mandate>, before: map<Id, Mandate>, after: map<Id, Mandate>, id: Id)
    requires OnlyDrained(list, before, after) && id in before
    ensures id in after && after[id].active == before[id].active
  {
  }

  lemma KeptKeys(list: seq<Mandate>, before: map<Id, Mandate>, mid: map<Id, Mandate>, after: map<Id, Mandate>)
    requires OnlyDrained(list, before, mid) && OnlyRetired(list, mid, after)
    ensures mid.Keys == before.Keys == after.Keys
  {
  }

  lemma RetiredKeepsAmounts(list: seq<Mandate>, mid: map<Id, Mandate>, after: map<Id, Mandate>, id: Id)
    requires OnlyRetired(list, mid, after) && id in mid
    ensures after.Keys == mid.Keys && after[id].available == mid[id].available && after[id].lent == mid[id].lent
  {
  }
}
