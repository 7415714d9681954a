/** Settling one taker with one maker: `getTradeQuantity` (BRCx/order_processor.go) and `getLendQuantity`
    (BRCxlending/order_processor.go) put fill quantity, amounts and balances together. The matching engine
    relies only on what is proved of them here. */
module MatchOutcome {
  import opened Options
  import opened Ledger
  import opened Settlement
  import opened LendSettlement
  import opened SettlementDb
  import Matching

  /** What a relayer must keep deposited: 20000 native tokens. */
  const LOCKED_FUND: nat := 20000 * 1000000000000000000

  /** `CheckRelayerFee` for both relayers; a shared one has to pay twice. */
  datatype FeeCheck = FeesPaid | TakerLacks | MakerLacks

  function CheckRelayers(deposits: Balances, taker: Address, maker: Address, fee: nat): FeeCheck {
    if taker == maker then
      if Balance(deposits, Account(DEPOSIT, taker)) >= 2 * fee + LOCKED_FUND then FeesPaid else TakerLacks
    else if Balance(deposits, Account(DEPOSIT, taker)) < fee + LOCKED_FUND then TakerLacks
    else if Balance(deposits, Account(DEPOSIT, maker)) < fee + LOCKED_FUND then MakerLacks
    else FeesPaid
  }

  predicate CreditFits(tokens: set<Token>, b: Balances, e: Entry) {
    || e.account.token == NATIVE
    || (e.account.token in tokens && (e.Credit? ==> Balance(b, e.account) + e.amount < WORD))
  }

  /** Every token exists and every credit fits, when the entries are applied in order. */
  predicate CreditsFit(tokens: set<Token>, b: Balances, es: seq<Entry>)
    requires Solvent(b, es)
    decreases |es|
  {
    es == [] || (CreditFits(tokens, b, es[0]) && CreditsFit(tokens, Applied(b, es[0]), es[1..]))
  }

  lemma {:induction false} AllowedExactly(tokens: set<Token>, b: Balances, es: seq<Entry>)
    requires Solvent(b, es)
    ensures AllAllowed(tokens, b, es) <==> CreditsFit(tokens, b, es)
    decreases |es|
  {
    if es != [] { AllowedExactly(tokens, Applied(b, es[0]), es[1..]); }
  }

  datatype Venue = Venue(tokens: set<Token>, balances: Balances, deposits: Balances)

  // Exchange

  function TradeOutcome(v: Venue, taker: Order, maker: Order, p: Parties, t: Terms, max: nat): Matching.Outcome
    requires ValidTerms(t)
  {
    match CheckRelayers(v.deposits, taker.relayer, maker.relayer, RELAYER_FEE)
    case TakerLacks => Matching.Settled(0, false)
    case MakerLacks => Matching.Settled(0, true)
    case FeesPaid =>
      var f := MatchFill(v.balances, p, t, max);
      if f.quantity == 0 then Matching.Settled(0, f.rejectMaker)
      else
        var s := SettleBalance(t, f.quantity);
        if s.None? then Matching.TooSmall(f.quantity, f.rejectMaker)
        else if
          && p.takerOwner != ZERO_ADDRESS && p.makerOwner != ZERO_ADDRESS
          && AllAllowed(v.tokens, v.balances, Entries(p, s.value, t.quote))
          && Solvent(v.deposits, FeeEntries([taker.relayer, maker.relayer], RELAYER_FEE))
        then Matching.Settled(f.quantity, f.rejectMaker)
        else Matching.Broken
  }

  lemma {:induction false} FeesAreThere(deposits: Balances, taker: Address, maker: Address, fee: nat)
    requires CheckRelayers(deposits, taker, maker, fee) == FeesPaid
    ensures Solvent(deposits, FeeEntries([taker, maker], fee))
  {
    TwoDebits(deposits, Account(DEPOSIT, taker), Account(DEPOSIT, maker), fee);
    assert FeeEntries([taker, maker], fee)
        == [Debit(Account(DEPOSIT, taker), fee), Debit(Account(DEPOSIT, maker), fee)];
  }

  /** What the matching engine asks of settlement holds on the exchange. */
  lemma {:induction false} TradeOutcomeSound(v: Venue, taker: Order, maker: Order, p: Parties, t: Terms, max: nat)
    requires ValidTerms(t) && max > 0
    ensures Matching.Sound(TradeOutcome(v, taker, maker, p, t, max), max)
  {
    hide FillQuantity.TradeQuantity, SettleBalance, AllAllowed, Solvent;
    FillQuantity.TradeQuantityFits(t.takerBuys, t.takerRate, Balance(v.balances, Account(TakerPays(t), p.taker)),
      t.price, t.makerRate, Balance(v.balances, Account(MakerPays(t), p.maker)), t.baseDecimal, max);
  }

  /** Settling fails for no other reason than a missing relayer owner, a missing token, or a credit beyond
      256 bits: balances and deposits always suffice. */
  lemma {:induction false} TradeBreaksExactly(v: Venue, taker: Order, maker: Order, p: Parties, t: Terms, max: nat)
    requires ValidTerms(t) && max > 0
    requires CheckRelayers(v.deposits, taker.relayer, maker.relayer, RELAYER_FEE) == FeesPaid
    requires MatchFill(v.balances, p, t, max).quantity > 0
    requires SettleBalance(t, MatchFill(v.balances, p, t, max).quantity).Some?
    ensures var es := Entries(p, SettleBalance(t, MatchFill(v.balances, p, t, max).quantity).value, t.quote);
      && Solvent(v.balances, es)
      && (TradeOutcome(v, taker, maker, p, t, max) == Matching.Broken <==>
            p.takerOwner == ZERO_ADDRESS || p.makerOwner == ZERO_ADDRESS || !CreditsFit(v.tokens, v.balances, es))
  {
    hide MatchFill, SettleBalance, AllAllowed, Solvent, CreditsFit;
    MatchNeverShort(v.balances, p, t, max);
    AllowedExactly(v.tokens, v.balances,
      Entries(p, SettleBalance(t, MatchFill(v.balances, p, t, max).quantity).value, t.quote));
    FeesAreThere(v.deposits, taker.relayer, maker.relayer, RELAYER_FEE);
  }

  datatype TradeAttempt = TradeAttempt(venue: Venue, taker: Order, maker: Order, parties: Parties, terms: Terms)

  function TradeResult(a: TradeAttempt, max: nat): Matching.Outcome
    requires ValidTerms(a.terms)
  {
    TradeOutcome(a.venue, a.taker, a.maker, a.parties, a.terms, max)
  }

  /** The matching engine may be run with settlement on the exchange, over any run of orders: what an attempt settles
      depends on the ledger it finds and on taker and maker. */
  lemma {:induction false} TradesAreReliable<S(!new)>(settle: Matching.Settler<S>,
                                                      attempt: (S, Matching.Attempt) -> TradeAttempt)
    requires forall l: S, a: Matching.Attempt :: a.price > 0 && a.max > 0 ==>
      ValidTerms(attempt(l, a).terms) && settle(l, a).1 in {TradeResult(attempt(l, a), a.max), Matching.Broken}
    ensures Matching.Reliable(settle)
  {
    hide TradeOutcome, Matching.Sound;
    forall l: S, a: Matching.Attempt | a.price > 0 && a.max > 0 ensures Matching.Sound(settle(l, a).1, a.max) {
      var t := attempt(l, a);
      TradeOutcomeSound(t.venue, t.taker, t.maker, t.parties, t.terms, a.max);
      BrokenIsSound(a.max);
    }
  }

  lemma {:induction false} BrokenIsSound(max: nat)
    ensures Matching.Sound(Matching.Broken, max)
  {
  }

  // Lending

  function LendOutcome(v: Venue, taker: Order, maker: Order, p: Parties, t: LendTerms, max: nat): Matching.Outcome
    requires ValidLend(t)
  {
    match CheckRelayers(v.deposits, taker.relayer, maker.relayer, LENDING_FEE)
    case TakerLacks => Matching.Settled(0, false)
    case MakerLacks => Matching.Settled(0, true)
    case FeesPaid =>
      var f := LendFill(v.balances, p, t, max);
      if f.quantity == 0 then Matching.Settled(0, f.rejectMaker)
      else
        var s := LendBalance(t, f.quantity);
        if s.None? then Matching.TooSmall(f.quantity, f.rejectMaker)
        else if
          && p.takerOwner != ZERO_ADDRESS && p.makerOwner != ZERO_ADDRESS
          && AllAllowed(v.tokens, Charged(v.balances), LendEntries(p, t.takerBorrows, s.value))
        then Matching.Settled(f.quantity, f.rejectMaker)
        else Matching.Broken
  }

  lemma {:induction false} LendOutcomeSound(v: Venue, taker: Order, maker: Order, p: Parties, t: LendTerms, max: nat)
    requires ValidLend(t) && max > 0
    ensures Matching.Sound(LendOutcome(v, taker, maker, p, t, max), max)
  {
    hide FillQuantity.LendQuantity, LendBalance, AllAllowed, Solvent;
    FillQuantity.LendQuantityFits(t.takerBorrows, t.decimal, t.depositRate, t.price,
      Balance(v.balances, TakerAccount(t, p)), Balance(v.balances, MakerAccount(t, p)), max);
  }

  datatype LendAttempt = LendAttempt(venue: Venue, taker: Order, maker: Order, parties: Parties, terms: LendTerms)

  function LendResult(a: LendAttempt, max: nat): Matching.Outcome
    requires ValidLend(a.terms)
  {
    LendOutcome(a.venue, a.taker, a.maker, a.parties, a.terms, max)
  }

  /** The same for lending. */
  lemma {:induction false} LoansAreReliable<S(!new)>(settle: Matching.Settler<S>,
                                                     attempt: (S, Matching.Attempt) -> LendAttempt)
    requires forall l: S, a: Matching.Attempt :: a.price > 0 && a.max > 0 ==>
      ValidLend(attempt(l, a).terms) && settle(l, a).1 in {LendResult(attempt(l, a), a.max), Matching.Broken}
    ensures Matching.Reliable(settle)
  {
    hide LendOutcome, Matching.Sound;
    forall l: S, a: Matching.Attempt | a.price > 0 && a.max > 0 ensures Matching.Sound(settle(l, a).1, a.max) {
      var t := attempt(l, a);
      LendOutcomeSound(t.venue, t.taker, t.maker, t.parties, t.terms, a.max);
      BrokenIsSound(a.max);
    }
  }

  /** The fee that leaves the contract matters to no other account. */
  lemma {:induction false} ChargedElsewhere(b: Balances, es: seq<Entry>)
    requires !Names(es, Account(NATIVE, REGISTRATION))
    ensures Solvent(Charged(b), es) <==> Solvent(b, es)
  {
    forall e | e in es ensures Balance(b, e.account) == Balance(Charged(b), e.account) {
      assert Names(es, e.account);
    }
    NotedElsewhere(b, Charged(b), map[], es);
    NotedAllIsApplied(b, map[], es);
    NotedAllIsApplied(Charged(b), map[], es);
    assert Overlay(b, map[]) == b && Overlay(Charged(b), map[]) == Charged(b);
  }

  /** Lending against another token, the only kind `VerifyCollateral` lets through, breaks for the same reasons only,
      when the contract is no party of it. */
  lemma {:induction false} LendBreaksExactly(v: Venue, taker: Order, maker: Order, p: Parties, t: LendTerms, max: nat)
    requires ValidLend(t) && max > 0 && CheckRelayers(v.deposits, taker.relayer, maker.relayer, LENDING_FEE) == FeesPaid
    requires LendFill(v.balances, p, t, max).quantity > 0
    requires LendBalance(t, LendFill(v.balances, p, t, max).quantity).Some?
    ensures var es := LendEntries(p, t.takerBorrows, LendBalance(t, LendFill(v.balances, p, t, max).quantity).value);
      t.lend != t.collateral && !Names(es, Account(NATIVE, REGISTRATION)) ==>
        && Solvent(Charged(v.balances), es)
        && (LendOutcome(v, taker, maker, p, t, max) == Matching.Broken <==>
              || p.takerOwner == ZERO_ADDRESS || p.makerOwner == ZERO_ADDRESS
              || !CreditsFit(v.tokens, Charged(v.balances), es))
  {
    hide LendFill, LendBalance, AllAllowed, Solvent, CreditsFit, Charged, Names;
    LendingNeverShort(v.balances, p, t, max);
    var es := LendEntries(p, t.takerBorrows, LendBalance(t, LendFill(v.balances, p, t, max).quantity).value);
    if t.lend != t.collateral && !Names(es, Account(NATIVE, REGISTRATION)) {
      ChargedElsewhere(v.balances, es);
      AllowedExactly(v.tokens, Charged(v.balances), es);
    }
  }
}
