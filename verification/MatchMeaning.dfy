/** What settling a match means for the parties, said without the formulas that compute it: when a match is worth
    settling, how much of it can be filled, and who pays whom, by buyer and seller, borrower and investor. */
module MatchMeaning {
  import opened Options
  import opened FillQuantity
  import opened Ledger
  import opened Settlement
  import opened LendSettlement
  import opened SettlementDb
  import opened MatchOutcome
  import Matching

  // Fees

  /** A fee taken at all is worth more, in the native token, than what its relayer pays for the match. */
  predicate Worthwhile(value: nat, cost: nat) {
    value == 0 || value > cost
  }

  /** `value` is what an amount comes to in the native token. */
  predicate IsValue(value: nat, amount: nat, price: nat, decimal: nat) {
    IsFloor(value, amount * price, decimal)
  }

  lemma {:induction false} ValueExactly(amount: nat, price: nat, decimal: nat, value: nat)
    requires decimal > 0
    ensures value == amount * price / decimal <==> IsValue(value, amount, price, decimal)
  {
    FloorIs(value, amount * price, decimal);
  }

  // The exchange

  datatype Role = Role(user: Address, owner: Address, rate: nat)

  function Buyer(p: Parties, t: Terms): Role {
    if t.takerBuys then Role(p.taker, p.takerOwner, t.takerRate) else Role(p.maker, p.makerOwner, t.makerRate)
  }

  function Seller(p: Parties, t: Terms): Role {
    if t.takerBuys then Role(p.maker, p.makerOwner, t.makerRate) else Role(p.taker, p.takerOwner, t.takerRate)
  }

  /** A match is four payments: base for quote, and each trader's fee to the owner of its relayer. */
  function TradePayments(base: Token, quote: Token, buyer: Role, seller: Role, q: nat, amount: nat, buyerFee: nat,
                         sellerFee: nat, a: Account): int {
    Moved(Account(base, seller.user), Account(base, buyer.user), q, a)
    + Moved(Account(quote, buyer.user), Account(quote, seller.user), amount, a)
    + Moved(Account(quote, buyer.user), Account(quote, buyer.owner), buyerFee, a)
    + Moved(Account(quote, seller.user), Account(quote, seller.owner), sellerFee, a)
  }

  /** The amounts of a match of `q`. */
  predicate AreAmounts(p: Parties, t: Terms, q: nat, amount: nat, buyerFee: nat, sellerFee: nat) {
    && IsQuote(amount, q, t.price, t.baseDecimal)
    && IsFee(buyerFee, amount, Buyer(p, t).rate) && IsFee(sellerFee, amount, Seller(p, t).rate)
  }

  lemma {:induction false} AmountsExactly(p: Parties, t: Terms, q: nat, amount: nat, buyerFee: nat, sellerFee: nat)
    requires ValidTerms(t)
    ensures AreAmounts(p, t, q, amount, buyerFee, sellerFee) <==>
      && amount == QuoteQuantity(q, t.price, t.baseDecimal)
      && buyerFee == FeeOn(amount, Buyer(p, t).rate) && sellerFee == FeeOn(amount, Seller(p, t).rate)
  {
    hide IsQuote, IsFee, QuoteQuantity, FeeOn;
    QuoteExactly(q, t.price, t.baseDecimal, amount);
    FeeExactly(amount, Buyer(p, t).rate, buyerFee);
    FeeExactly(amount, Seller(p, t).rate, sellerFee);
  }

  lemma {:induction false} ChangeOfSix(es: seq<Entry>, a: Account)
    requires |es| == 6
    ensures Change(es, a) == ChangeBy(es[0], a) + ChangeBy(es[1], a) + ChangeBy(es[2], a) + ChangeBy(es[3], a)
      + ChangeBy(es[4], a) + ChangeBy(es[5], a)
  {
    FewChange(es[..3], a);
    FewChange(es[3..], a);
    assert es == es[..3] + es[3..];
    ChangeConcat(es[..3], es[3..], a);
  }

  lemma {:induction false} MatchMoves(p: Parties, t: Terms, q: nat, amount: nat, buyerFee: nat, sellerFee: nat,
                                      a: Account)
    requires ValidTerms(t) && SettleBalance(t, q).Some? && AreAmounts(p, t, q, amount, buyerFee, sellerFee)
    ensures Change(Entries(p, SettleBalance(t, q).value, t.quote), a)
         == TradePayments(t.base, t.quote, Buyer(p, t), Seller(p, t), q, amount, buyerFee, sellerFee, a)
  {
    hide IsQuote, IsFee, QuoteQuantity, FeeOn, Change, AreAmounts;
    AmountsExactly(p, t, q, amount, buyerFee, sellerFee);
    ChangeOfSix(Entries(p, SettleBalance(t, q).value, t.quote), a);
  }

  /** Both fees are worth their cost, and the default rate would be too; a quote token without a price is let pass. */
  ghost predicate FeesWorthIt(t: Terms, buyerFee: nat, sellerFee: nat, defaultFee: nat) {
    if t.quote == NATIVE then
      && Worthwhile(buyerFee, 1000000000000000) && Worthwhile(sellerFee, 1000000000000000)
      && defaultFee > 1000000000000000
    else t.quotePrice > 0 ==>
      exists b: nat, s: nat, d: nat ::
        && IsValue(b, buyerFee, t.quotePrice, t.quoteDecimal) && IsValue(s, sellerFee, t.quotePrice, t.quoteDecimal)
        && IsValue(d, defaultFee, t.quotePrice, t.quoteDecimal)
        && Worthwhile(b, 1000000000000000) && Worthwhile(s, 1000000000000000) && d > 1000000000000000
  }

  /** A match is worth settling: the seller is left with something, also at the default rate of 0.1%, and the fees are
      worth their cost. */
  ghost predicate WorthTrading(p: Parties, t: Terms, q: nat) {
    exists amount: nat, buyerFee: nat, sellerFee: nat, defaultFee: nat ::
      && AreAmounts(p, t, q, amount, buyerFee, sellerFee) && IsFee(defaultFee, amount, 10)
      && amount > sellerFee && amount > defaultFee && FeesWorthIt(t, buyerFee, sellerFee, defaultFee)
  }

  lemma {:induction false} FeesWorthItExactly(t: Terms, buyerFee: nat, sellerFee: nat, defaultFee: nat)
    requires ValidTerms(t)
    ensures t.quote == NATIVE ==>
      (FeesWorthIt(t, buyerFee, sellerFee, defaultFee) <==>
         !FeeTooSmall(buyerFee, defaultFee) && !FeeTooSmall(sellerFee, defaultFee))
    ensures t.quote != NATIVE && t.quotePrice > 0 ==>
      (FeesWorthIt(t, buyerFee, sellerFee, defaultFee) <==>
         && !FeeTooSmall(InNative(buyerFee, t), InNative(defaultFee, t))
         && !FeeTooSmall(InNative(sellerFee, t), InNative(defaultFee, t)))
  {
    hide IsValue;
    var b, s, d := InNative(buyerFee, t), InNative(sellerFee, t), InNative(defaultFee, t);
    ValueExactly(buyerFee, t.quotePrice, t.quoteDecimal, b);
    ValueExactly(sellerFee, t.quotePrice, t.quoteDecimal, s);
    ValueExactly(defaultFee, t.quotePrice, t.quoteDecimal, d);
    forall x: nat | IsValue(x, buyerFee, t.quotePrice, t.quoteDecimal) ensures x == b {
      ValueExactly(buyerFee, t.quotePrice, t.quoteDecimal, x);
    }
    forall x: nat | IsValue(x, sellerFee, t.quotePrice, t.quoteDecimal) ensures x == s {
      ValueExactly(sellerFee, t.quotePrice, t.quoteDecimal, x);
    }
    forall x: nat | IsValue(x, defaultFee, t.quotePrice, t.quoteDecimal) ensures x == d {
      ValueExactly(defaultFee, t.quotePrice, t.quoteDecimal, x);
    }
  }

  lemma {:induction false} TooSmallExactly(p: Parties, t: Terms, q: nat)
    requires ValidTerms(t)
    ensures SettleBalance(t, q).Some? <==> WorthTrading(p, t, q)
  {
    hide QuoteQuantity, FeeOn, AreAmounts, IsFee, FeesWorthIt, FeeTooSmall, InNative;
    var amount := QuoteQuantity(q, t.price, t.baseDecimal);
    var buyerFee, sellerFee := FeeOn(amount, Buyer(p, t).rate), FeeOn(amount, Seller(p, t).rate);
    var defaultFee := FeeOn(amount, DEFAULT_FEE_RATE);
    AmountsExactly(p, t, q, amount, buyerFee, sellerFee);
    FeeExactly(amount, 10, defaultFee);
    FeesWorthItExactly(t, buyerFee, sellerFee, defaultFee);
    if t.quote != NATIVE && t.quotePrice == 0 { NoPrice(t, buyerFee, sellerFee, defaultFee); }
    if WorthTrading(p, t, q) {
      var x: nat, b: nat, s: nat, d: nat :|
        && AreAmounts(p, t, q, x, b, s) && IsFee(d, x, 10)
        && x > s && x > d && FeesWorthIt(t, b, s, d);
      AmountsExactly(p, t, q, x, b, s);
      FeeExactly(x, 10, d);
    }
  }

  lemma NoPrice(t: Terms, buyerFee: nat, sellerFee: nat, defaultFee: nat)
    requires t.quote != NATIVE && t.quotePrice == 0
    ensures FeesWorthIt(t, buyerFee, sellerFee, defaultFee)
  {
  }

  // Relayers

  /** What relayer `x` owes for a match. */
  function Owes(taker: Address, maker: Address, fee: nat, x: Address): nat {
    (if x == taker then fee else 0) + (if x == maker then fee else 0)
  }

  /** After paying what it owes, relayer `x` still has 20000 native tokens deposited. */
  predicate KeepsDeposit(deposits: Balances, taker: Address, maker: Address, fee: nat, x: Address) {
    Balance(deposits, Account(DEPOSIT, x)) >= Owes(taker, maker, fee, x) + 20000 * 1000000000000000000
  }

  lemma {:induction false} CheckRelayersExactly(deposits: Balances, taker: Address, maker: Address, fee: nat)
    ensures CheckRelayers(deposits, taker, maker, fee) ==
      if !KeepsDeposit(deposits, taker, maker, fee, taker) then TakerLacks
      else if !KeepsDeposit(deposits, taker, maker, fee, maker) then MakerLacks
      else FeesPaid
  {
  }

  /** How settling at most `max` ends: a relayer short of its deposit rejects its order; otherwise the greatest quantity
      that can be filled is settled, if it is worth it and nothing breaks. */
  ghost predicate EndsAs(deposits: Balances, taker: Address, maker: Address, fee: nat, f: Fill, worth: bool,
                         o: Matching.Outcome) {
    if !KeepsDeposit(deposits, taker, maker, fee, taker) then o == Matching.Settled(0, false)
    else if !KeepsDeposit(deposits, taker, maker, fee, maker) then o == Matching.Settled(0, true)
    else if f.quantity > 0 && !worth then o == Matching.TooSmall(f.quantity, f.rejectMaker)
    else o == Matching.Settled(f.quantity, f.rejectMaker) || (f.quantity > 0 && o == Matching.Broken)
  }

  /** The one who pays in quote, and what the one who pays in base holds. */
  function PayersIn(b: Balances, p: Parties, t: Terms): Payers {
    Payers(Balance(b, Account(t.quote, Buyer(p, t).user)), Buyer(p, t).rate,
           Balance(b, Account(t.base, Seller(p, t).user)), !t.takerBuys)
  }

  lemma {:induction false} MatchFillExactly(b: Balances, p: Parties, t: Terms, q: nat)
    requires ValidTerms(t)
    ensures IsFill(PayersIn(b, p, t), t.price, t.baseDecimal, q, MatchFill(b, p, t, q))
  {
    hide IsFill, TradeQuantity;
    TradeQuantityExactly(t.takerBuys, t.takerRate, Balance(b, Account(TakerPays(t), p.taker)), t.price,
                         t.makerRate, Balance(b, Account(MakerPays(t), p.maker)), t.baseDecimal, q);
  }

  lemma {:induction false} TradeOutcomeExactly(v: Venue, taker: Order, maker: Order, p: Parties, t: Terms, max: nat)
    requires ValidTerms(t)
    ensures exists f: Fill ::
      && IsFill(PayersIn(v.balances, p, t), t.price, t.baseDecimal, max, f)
      && EndsAs(v.deposits, taker.relayer, maker.relayer, 1000000000000000, f, WorthTrading(p, t, f.quantity),
                TradeOutcome(v, taker, maker, p, t, max))
  {
    hide IsFill, MatchFill, SettleBalance, AllAllowed, Solvent, WorthTrading, FeeEntries, CheckRelayers, KeepsDeposit;
    var f := MatchFill(v.balances, p, t, max);
    MatchFillExactly(v.balances, p, t, max);
    TooSmallExactly(p, t, f.quantity);
    CheckRelayersExactly(v.deposits, taker.relayer, maker.relayer, RELAYER_FEE);
  }

  // Lending

  datatype Loan = Loan(borrower: Address, owner: Address, investor: Address)

  function LoanBetween(p: Parties, t: LendTerms): Loan {
    if t.takerBorrows then Loan(p.taker, p.takerOwner, p.maker) else Loan(p.maker, p.makerOwner, p.taker)
  }

  /** A lending match is three payments: the loan, the borrower's fee and the collateral. Under the old rules a borrower
      who is the maker gets twice the fee on top, from nobody. */
  function LoanPayments(t: LendTerms, l: Loan, q: nat, fee: nat, locked: nat, a: Account): int {
    Moved(Account(t.lend, l.investor), Account(t.lend, l.borrower), q, a)
    + Moved(Account(t.lend, l.borrower), Account(t.lend, l.owner), fee, a)
    + Moved(Account(t.collateral, l.borrower), Account(t.collateral, LOCK), locked, a)
    + if !t.fork && !t.takerBorrows && a == Account(t.lend, l.borrower) then 2 * fee else 0
  }

  predicate AreLoanAmounts(t: LendTerms, q: nat, fee: nat, locked: nat) {
    IsFee(fee, q, t.borrowRate) && IsCollateral(locked, q, t.price, t.decimal, t.depositRate)
  }

  lemma {:induction false} LoanAmountsExactly(t: LendTerms, q: nat, fee: nat, locked: nat)
    requires ValidLend(t)
    ensures AreLoanAmounts(t, q, fee, locked) <==> fee == FeeOn(q, t.borrowRate) && locked == Locked(t, q)
  {
    hide IsFee, IsCollateral, FeeOn, Collateral;
    FeeExactly(q, t.borrowRate, fee);
    CollateralExactly(q, t.price, t.decimal, t.depositRate, locked);
  }

  lemma {:induction false} ChangeOfFive(es: seq<Entry>, a: Account)
    requires |es| == 5
    ensures Change(es, a) ==
      ChangeBy(es[0], a) + ChangeBy(es[1], a) + ChangeBy(es[2], a) + ChangeBy(es[3], a) + ChangeBy(es[4], a)
  {
    FewChange(es[..3], a);
    FewChange(es[3..], a);
    assert es == es[..3] + es[3..];
    ChangeConcat(es[..3], es[3..], a);
  }

  lemma {:induction false} LoanMoves(p: Parties, t: LendTerms, q: nat, fee: nat, locked: nat, a: Account)
    requires ValidLend(t) && LendBalance(t, q).Some? && AreLoanAmounts(t, q, fee, locked)
    ensures Change(LendEntries(p, t.takerBorrows, LendBalance(t, q).value), a)
         == LoanPayments(t, LoanBetween(p, t), q, fee, locked, a)
  {
    hide FeeOn, Collateral, Change, AreLoanAmounts;
    LoanAmountsExactly(t, q, fee, locked);
    ChangeOfFive(LendEntries(p, t.takerBorrows, LendBalance(t, q).value), a);
  }

  /** The borrower's fee is worth what the relayer pays, and the default rate would be too; a lent token without a price
      is let pass. */
  ghost predicate LoanFeeWorthIt(t: LendTerms, fee: nat, defaultFee: nat) {
    if t.lend == NATIVE then Worthwhile(fee, 10000000000000000) && defaultFee > 10000000000000000
    else t.lendPrice > 0 ==>
      exists v: nat, d: nat ::
        && IsValue(v, fee, t.lendPrice, t.lendDecimal) && IsValue(d, defaultFee, t.lendPrice, t.lendDecimal)
        && Worthwhile(v, 10000000000000000) && d > 10000000000000000
  }

  /** A lending match is worth settling: the fee, also at the default rate of 1%, leaves the borrower something, and it
      is worth its cost. */
  ghost predicate WorthLending(t: LendTerms, q: nat) {
    exists fee: nat, defaultFee: nat ::
      && IsFee(fee, q, t.borrowRate) && IsFee(defaultFee, q, 100)
      && q > fee && q > defaultFee && LoanFeeWorthIt(t, fee, defaultFee)
  }

  lemma {:induction false} LoanFeeWorthItExactly(t: LendTerms, fee: nat, defaultFee: nat)
    requires ValidLend(t)
    ensures t.lend == NATIVE ==> (LoanFeeWorthIt(t, fee, defaultFee) <==> !LendFeeTooSmall(fee, defaultFee))
    ensures t.lend != NATIVE && t.lendPrice > 0 ==>
      (LoanFeeWorthIt(t, fee, defaultFee) <==> !LendFeeTooSmall(LendInNative(fee, t), LendInNative(defaultFee, t)))
  {
    hide IsValue;
    var v, d := LendInNative(fee, t), LendInNative(defaultFee, t);
    ValueExactly(fee, t.lendPrice, t.lendDecimal, v);
    ValueExactly(defaultFee, t.lendPrice, t.lendDecimal, d);
    forall x: nat | IsValue(x, fee, t.lendPrice, t.lendDecimal) ensures x == v {
      ValueExactly(fee, t.lendPrice, t.lendDecimal, x);
    }
    forall x: nat | IsValue(x, defaultFee, t.lendPrice, t.lendDecimal) ensures x == d {
      ValueExactly(defaultFee, t.lendPrice, t.lendDecimal, x);
    }
  }

  lemma {:induction false} LendTooSmallExactly(t: LendTerms, q: nat)
    requires ValidLend(t)
    ensures LendBalance(t, q).Some? <==> WorthLending(t, q)
  {
    hide FeeOn, Collateral, IsFee, LoanFeeWorthIt, LendFeeTooSmall, LendInNative;
    var fee, defaultFee := FeeOn(q, t.borrowRate), FeeOn(q, LENDING_DEFAULT_RATE);
    FeeExactly(q, t.borrowRate, fee);
    FeeExactly(q, 100, defaultFee);
    LoanFeeWorthItExactly(t, fee, defaultFee);
    if t.lend != NATIVE && t.lendPrice == 0 { NoLendPrice(t, fee, defaultFee); }
    if WorthLending(t, q) {
      var x: nat, d: nat :|
        IsFee(x, q, t.borrowRate) && IsFee(d, q, 100) && q > x && q > d && LoanFeeWorthIt(t, x, d);
      FeeExactly(q, t.borrowRate, x);
      FeeExactly(q, 100, d);
    }
  }

  lemma NoLendPrice(t: LendTerms, fee: nat, defaultFee: nat)
    requires t.lend != NATIVE && t.lendPrice == 0
    ensures LoanFeeWorthIt(t, fee, defaultFee)
  {
  }

  function LendersIn(b: Balances, p: Parties, t: LendTerms): Lenders {
    Lenders(Balance(b, Account(t.collateral, LoanBetween(p, t).borrower)),
            Balance(b, Account(t.lend, LoanBetween(p, t).investor)), !t.takerBorrows)
  }

  lemma {:induction false} LendFillExactly(b: Balances, p: Parties, t: LendTerms, q: nat)
    requires ValidLend(t)
    ensures IsLoan(LendersIn(b, p, t), t.decimal, t.depositRate, t.price, q, LendFill(b, p, t, q))
  {
    hide IsLoan, LendQuantity;
    LendQuantityExactly(t.takerBorrows, t.decimal, t.depositRate, t.price, Balance(b, TakerAccount(t, p)),
      Balance(b, MakerAccount(t, p)), q);
  }

  lemma {:induction false} LendOutcomeExactly(v: Venue, taker: Order, maker: Order, p: Parties, t: LendTerms, max: nat)
    requires ValidLend(t)
    ensures exists f: Fill ::
      && IsLoan(LendersIn(v.balances, p, t), t.decimal, t.depositRate, t.price, max, f)
      && EndsAs(v.deposits, taker.relayer, maker.relayer, 10000000000000000, f, WorthLending(t, f.quantity),
                LendOutcome(v, taker, maker, p, t, max))
  {
    hide IsLoan, LendFill, LendBalance, AllAllowed, WorthLending, CheckRelayers, KeepsDeposit, Charged;
    var f := LendFill(v.balances, p, t, max);
    LendFillExactly(v.balances, p, t, max);
    LendTooSmallExactly(t, f.quantity);
    CheckRelayersExactly(v.deposits, taker.relayer, maker.relayer, LENDING_FEE);
  }
}
