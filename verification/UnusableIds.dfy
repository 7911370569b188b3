/**
  A concrete acceptance under a loan id that the engine should not have taken.
 */
module UnusableIds {
  import opened Outcomes
  import opened Model
  import opened Ordering
  import opened Selection
  import opened Matching
  import opened Operations
  import opened Invariants
  import opened Conservation
  import opened Lending
  import opened Acceptance

  /** A lender with one mandate of 100 and a borrower with 1000 of collateral, at a price of one. */
  function SmallBook(): Book {
    NEW_BOOK.(accounts := map["a" := Account(1, Balance(0, 0), Balance(0, 100), ""),
                              "b" := Account(0, Balance(1000, 0), Balance(0, 0), "")],
              mandates := map["m" := Mandate("m", "a", 100, 600, 1, 100, true, 0, 0, 0)],
              processed := {"d1", "d2"},
              activities := [Activity("d1", "a", true, USDT0, 100, 0), Activity("d2", "b", true, FXRP, 1000, 0)])
  }

  /** The same book before the mandate, and before the second deposit. */
  function LenderOnly(): Book {
    NEW_BOOK.(accounts := map["a" := Account(0, Balance(0, 0), Balance(100, 0), "")],
              processed := {"d1"},
              activities := [Activity("d1", "a", true, USDT0, 100, 0)])
  }

  function BothDeposited(): Book {
    NEW_BOOK.(accounts := map["a" := Account(0, Balance(0, 0), Balance(100, 0), ""),
                              "b" := Account(0, Balance(1000, 0), Balance(0, 0), "")],
              processed := {"d1", "d2"},
              activities := [Activity("d1", "a", true, USDT0, 100, 0), Activity("d2", "b", true, FXRP, 1000, 0)])
  }

  lemma LenderDeposits()
    ensures Deposit(NEW_BOOK, "a", USDT0, 100, "d1", 0) == Ok(LenderOnly())
  {
    var r := Deposit(NEW_BOOK, "a", USDT0, 100, "d1", 0).value;
    assert r.accounts == LenderOnly().accounts && r.processed == {"d1"};
    assert r.activities == LenderOnly().activities;
  }

  lemma BorrowerDeposits()
    ensures Deposit(LenderOnly(), "b", FXRP, 1000, "d2", 0) == Ok(BothDeposited())
  {
    var r := Deposit(LenderOnly(), "b", FXRP, 1000, "d2", 0).value;
    assert r.accounts == BothDeposited().accounts && r.processed == {"d1", "d2"};
    assert r.activities == BothDeposited().activities;
  }

  lemma LenderSetsMandate()
    ensures SetMandate(BothDeposited(), "a", "m", 100, 600, 1, 100, 0, 0) == Ok(SmallBook())
  {
    var r := SetMandate(BothDeposited(), "a", "m", 100, 600, 1, 100, 0, 0).value;
    assert r.accounts == SmallBook().accounts && r.mandates == SmallBook().mandates;
  }

  lemma LenderOnlySound()
    ensures Sound(LenderOnly()) && TotalFxrp(LenderOnly()) == 0
  {
    hide Structure, FreeUsdt0, TotalFxrp, Deposit, LenderOnly;
    NewBookSound();
    LenderDeposits();
    DepositKeeps(NEW_BOOK, "a", USDT0, 100, "d1", 0, LenderOnly());
  }

  lemma BothDepositedSound()
    ensures Sound(BothDeposited())
  {
    hide Structure, FreeUsdt0, TotalFxrp, Deposit, LenderOnly, BothDeposited;
    LenderOnlySound();
    BorrowerDeposits();
    DepositKeeps(LenderOnly(), "b", FXRP, 1000, "d2", 0, BothDeposited());
  }

  /** Three operations lead to it, so it is sound. */
  lemma SmallBookSound()
    ensures Sound(SmallBook())
  {
    hide Structure, FreeUsdt0, TotalFxrp, SetMandate, BothDeposited, SmallBook;
    BothDepositedSound();
    LenderSetsMandate();
    SetMandateKeeps(BothDeposited(), "a", "m", 100, 600, 1, 100, 0, 0, SmallBook());
  }

  const SMALL_PRICE := Price(1_000_000, 0)
  const SMALL_REQUEST := QuoteRequest("q", "b", 50, 7, 700, 200, 100)
  const SMALL_TRANCHE := Tranche("m", "a", 50, 600)
  const SMALL_QUOTE := Quote("q", "b", 50, 50, 7, 200, 200, false, 600, 650, 700, [SMALL_TRANCHE], 100, 1_000_000)

  lemma OneMandateRanked(hash: Hash)
    ensures Ranked(SmallBook().mandates, SMALL_REQUEST, ["m"], hash) == [SmallBook().mandates["m"]]
  {
    var ms, keep := SmallBook().mandates, EligibleFor(SMALL_REQUEST);
    assert keep(ms["m"]);
    assert ["m"][1..] == [];
    assert Select(ms, [], keep) == [];
    assert Select(ms, ["m"], keep) == [ms["m"]];
    assert [ms["m"]][1..] == [];
  }

  lemma SmallQuoteIsQuoted(hash: Hash)
    ensures QuoteAtPrice(SmallBook(), SMALL_REQUEST, SMALL_PRICE, 0, ["m"], hash) == Ok(SMALL_QUOTE)
    ensures CheckLtv(50, 200, SMALL_PRICE, 0) == Ok(true)
  {
    hide Ranked;
    OneMandateRanked(hash);
    var m := SmallBook().mandates["m"];
    assert [m][1..] == [];
    assert Fill([m], 50) == [SMALL_TRANCHE];
    assert [SMALL_TRANCHE][1..] == [];
    assert SumPrincipal([SMALL_TRANCHE]) == 50 && YearlyCost([SMALL_TRANCHE]) == 30_000;
  }

  /** Sound books, a quote that they made, and an acceptance that succeeds under the empty id and breaks them. */
  lemma EmptyLoanIdIsAcceptedAndBreaks(hash: Hash)
    requires Injective(hash)
    ensures Sound(SmallBook())
    ensures exists next ::
              && AcceptQuote(SmallBook(), SMALL_QUOTE, "", 0, Some(SMALL_PRICE), 0, ["m"], hash) == Ok(next)
              && !Sound(next)
  {
    hide Sound, AcceptQuote, QuoteAtPrice, CheckLtv;
    SmallBookSound();
    SmallQuoteIsQuoted(hash);
    var b := SmallBook();
    assert b.mandates.Keys == {"m"};
    assert Enumerates(["m"], b.mandates.Keys);
    AcceptSucceedsExactly(b, b, SMALL_REQUEST, SMALL_PRICE, 0, ["m"], hash, SMALL_QUOTE, "", 0, SMALL_PRICE, 0, ["m"]);
    var next := AcceptQuote(b, SMALL_QUOTE, "", 0, Some(SMALL_PRICE), 0, ["m"], hash).value;
    AcceptKeepsBooksExactlyForUsableIds(b, SMALL_QUOTE, "", 0, Some(SMALL_PRICE), 0, ["m"], hash, next);
  }
}
