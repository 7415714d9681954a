/** Settling a matched pair of lending orders: `GetSettleBalance` (BRCxlending/lendingstate/settle_balance.go)
    and the entries of `DoSettleBalance` (BRCxlending/order_processor.go). */
module LendSettlement {
  import opened Options
  import opened FillQuantity
  import opened Ledger
  import opened Settlement

  const LENDING_FEE: nat := 10000000000000000
  const LENDING_DEFAULT_RATE: nat := 100
  /** The address that holds the collateral of open loans. */
  const LOCK: Address := 0x11

  /** `fork` is the switch of rules at the lending fork. */
  datatype LendTerms = LendTerms(fork: bool, takerBorrows: bool, lend: Token, collateral: Token, price: nat,
                                 depositRate: nat, borrowRate: nat, lendDecimal: nat, decimal: nat, lendPrice: nat)

  predicate ValidLend(t: LendTerms) {
    t.price > 0 && t.depositRate > 0 && t.lendDecimal > 0 && t.decimal > 0
  }

  predicate LendFeeTooSmall(fee: nat, defaultFee: nat) {
    0 < fee <= LENDING_FEE || defaultFee <= LENDING_FEE
  }

  /** A fee in the lent token, valued in the native token. */
  function LendInNative(fee: nat, t: LendTerms): nat
    requires ValidLend(t)
  {
    fee * t.lendPrice / t.lendDecimal
  }

  predicate LendTooSmall(t: LendTerms, q: nat)
    requires ValidLend(t)
  {
    var fee, defaultFee := FeeOn(q, t.borrowRate), FeeOn(q, LENDING_DEFAULT_RATE);
    || q <= fee
    || q <= defaultFee
    || (t.lend != NATIVE && t.lendPrice > 0 && LendFeeTooSmall(LendInNative(fee, t), LendInNative(defaultFee, t)))
    || (t.lend == NATIVE && LendFeeTooSmall(fee, defaultFee))
  }

  datatype LendSettle = LendSettle(taker: Leg, maker: Leg, locked: nat)

  function Locked(t: LendTerms, q: nat): nat
    requires ValidLend(t)
  {
    Collateral(q, t.price, t.decimal, t.depositRate)
  }

  /** Before the fork a borrower who is the maker is paid the lent quantity and the fee on top. */
  function BorrowerIn(t: LendTerms, q: nat): nat
    requires ValidLend(t) && !LendTooSmall(t, q)
  {
    if !t.fork && !t.takerBorrows then q + FeeOn(q, t.borrowRate) else q - FeeOn(q, t.borrowRate)
  }

  function LendBalance(t: LendTerms, q: nat): Option<LendSettle>
    requires ValidLend(t)
  {
    if LendTooSmall(t, q) then None
    else
      var borrower := Leg(FeeOn(q, t.borrowRate), t.lend, BorrowerIn(t, q), t.collateral, Locked(t, q));
      var investor := Leg(0, ZERO_ADDRESS, 0, t.lend, q);
      Some(if t.takerBorrows then LendSettle(borrower, investor, Locked(t, q))
           else LendSettle(investor, borrower, Locked(t, q)))
  }

  function LendEntries(p: Parties, takerBorrows: bool, s: LendSettle): seq<Entry> {
    if takerBorrows then
      [Credit(Account(s.taker.inToken, p.taker), s.taker.inTotal),
       Debit(Account(s.taker.outToken, p.taker), s.taker.outTotal),
       Debit(Account(s.maker.outToken, p.maker), s.maker.outTotal),
       Credit(Account(s.taker.inToken, p.takerOwner), s.taker.fee),
       Credit(Account(s.taker.outToken, LOCK), s.taker.outTotal)]
    else
      [Debit(Account(s.taker.outToken, p.taker), s.taker.outTotal),
       Credit(Account(s.maker.inToken, p.maker), s.maker.inTotal),
       Debit(Account(s.maker.outToken, p.maker), s.maker.outTotal),
       Credit(Account(s.maker.inToken, p.makerOwner), s.maker.fee),
       Credit(Account(s.maker.outToken, LOCK), s.maker.outTotal)]
  }

  lemma {:induction false} NetOfFive(es: seq<Entry>, t: Token)
    requires |es| == 5
    ensures Net(es, t) == Delta(es[0], t) + Delta(es[1], t) + Delta(es[2], t) + Delta(es[3], t) + Delta(es[4], t)
  {
    assert es[1..][1..] == es[2..] && es[2..][1..] == es[3..] && es[3..][1..] == es[4..] && es[4..][1..] == [];
    assert Net(es, t) == Delta(es[0], t) + Net(es[1..], t);
    assert Net(es[1..], t) == Delta(es[1], t) + Net(es[2..], t);
    assert Net(es[2..], t) == Delta(es[2], t) + Net(es[3..], t);
    assert Net(es[3..], t) == Delta(es[3], t) + Net(es[4..], t);
    assert Net(es[4..], t) == Delta(es[4], t);
  }

  lemma {:induction false} LendNet(p: Parties, terms: LendTerms, q: nat, t: Token)
    requires ValidLend(terms) && LendBalance(terms, q).Some?
    ensures Net(LendEntries(p, terms.takerBorrows, LendBalance(terms, q).value), t) ==
            if !terms.fork && !terms.takerBorrows && t == terms.lend then 2 * FeeOn(q, terms.borrowRate) else 0
  {
    hide FeeOn, Net, Collateral;
    NetOfFive(LendEntries(p, terms.takerBorrows, LendBalance(terms, q).value), t);
  }

  /** A lending match leaves every token's total as it was if and only if it follows the rules of the fork, or
      the taker borrows, or the borrowing fee is zero. */
  lemma {:induction false} LendingConservesExactly(b: Balances, p: Parties, terms: LendTerms, q: nat)
    requires ValidLend(terms) && LendBalance(terms, q).Some?
    requires Solvent(b, LendEntries(p, terms.takerBorrows, LendBalance(terms, q).value))
    ensures
      (forall t ::
         Total(AppliedAll(b, LendEntries(p, terms.takerBorrows, LendBalance(terms, q).value)), t) == Total(b, t))
            <==> terms.fork || terms.takerBorrows || FeeOn(q, terms.borrowRate) == 0
  {
    hide FeeOn, Net, Total, LendEntries, LendBalance, AppliedAll, Solvent;
    var es := LendEntries(p, terms.takerBorrows, LendBalance(terms, q).value);
    forall t: Token
      ensures Total(AppliedAll(b, es), t) == Total(b, t) +
        if !terms.fork && !terms.takerBorrows && t == terms.lend then 2 * FeeOn(q, terms.borrowRate) else 0
    {
      LendNet(p, terms, q, t);
      AppliedAllTotal(b, es, t);
    }
    var shifted := Total(AppliedAll(b, es), terms.lend) - Total(b, terms.lend);
    assert !(terms.fork || terms.takerBorrows) ==> shifted == 2 * FeeOn(q, terms.borrowRate);
  }

  const COIN: nat := 1000000000000000000

  /** Before the fork a maker who borrows with a fee gains tokens nobody pays: lending 100 coins at 1%, with prices
      and decimals of one coin, creates 2. */
  lemma {:induction false} OldRulesMint(p: Parties)
    ensures var t := LendTerms(false, false, 5, 6, COIN, 150, 100, COIN, COIN, COIN);
      && ValidLend(t) && LendBalance(t, 100 * COIN).Some?
      && Net(LendEntries(p, false, LendBalance(t, 100 * COIN).value), 5) == 2 * COIN
  {
    var t := LendTerms(false, false, 5, 6, COIN, 150, 100, COIN, COIN, COIN);
    LendNet(p, t, 100 * COIN, 5);
  }

  function BorrowerPays(t: LendTerms, p: Parties): Account {
    Account(t.collateral, if t.takerBorrows then p.taker else p.maker)
  }

  function InvestorPays(t: LendTerms, p: Parties): Account {
    Account(t.lend, if t.takerBorrows then p.maker else p.taker)
  }

  function TakerAccount(t: LendTerms, p: Parties): Account {
    if t.takerBorrows then BorrowerPays(t, p) else InvestorPays(t, p)
  }

  function MakerAccount(t: LendTerms, p: Parties): Account {
    if t.takerBorrows then InvestorPays(t, p) else BorrowerPays(t, p)
  }

  function LendFill(b: Balances, p: Parties, t: LendTerms, q: nat): Fill
    requires ValidLend(t)
  {
    LendQuantity(t.takerBorrows, t.decimal, t.depositRate, t.price, Balance(b, TakerAccount(t, p)),
      Balance(b, MakerAccount(t, p)), q)
  }

  lemma {:induction false} SolventFive(b: Balances, es: seq<Entry>)
    requires |es| == 5 && es[3].Credit? && es[4].Credit?
    ensures Solvent(b, es) <==>
      && Covered(b, es[0]) && Covered(Applied(b, es[0]), es[1])
      && Covered(Applied(Applied(b, es[0]), es[1]), es[2])
  {
    hide Applied;
    assert es[1..][1..] == es[2..] && es[2..][1..] == es[3..] && es[3..][1..] == es[4..] && es[4..][1..] == [];
    assert Solvent(b, es) <==> Covered(b, es[0]) && Solvent(Applied(b, es[0]), es[1..]);
    if Covered(b, es[0]) {
      var b1 := Applied(b, es[0]);
      assert Solvent(b1, es[1..]) <==> Covered(b1, es[1]) && Solvent(Applied(b1, es[1]), es[2..]);
      if Covered(b1, es[1]) {
        var b2 := Applied(b1, es[1]);
        assert Solvent(b2, es[2..]) <==> Covered(b2, es[2]) && Solvent(Applied(b2, es[2]), es[3..]);
        if Covered(b2, es[2]) {
          var b3 := Applied(b2, es[2]);
          assert Solvent(Applied(b3, es[3]), es[4..]);
          assert Solvent(b3, es[3..]);
        }
      }
    }
  }

  /** One account would have to pay the lent quantity, the collateral and the fee. */
  predicate SelfLoanShort(b: Balances, p: Parties, t: LendTerms, q: nat)
    requires ValidLend(t)
  {
    && p.taker == p.maker && t.lend == t.collateral && (t.fork || t.takerBorrows)
    && Balance(b, Account(t.lend, p.taker)) < Locked(t, q) + FeeOn(q, t.borrowRate)
  }

  /** A lending match at the balance-limited quantity fails for lack of a party's balance exactly when a user
      lends a token to itself against the same token and cannot pay collateral and fee together. */
  lemma {:induction false} LendingShortExactly(b: Balances, p: Parties, t: LendTerms, q: nat)
    requires ValidLend(t) && LendBalance(t, LendFill(b, p, t, q).quantity).Some?
    ensures Solvent(b, LendEntries(p, t.takerBorrows, LendBalance(t, LendFill(b, p, t, q).quantity).value))
            <==> !SelfLoanShort(b, p, t, LendFill(b, p, t, q).quantity)
  {
    hide LendQuantity, FeeOn, Collateral, Solvent;
    LendQuantityFits(t.takerBorrows, t.decimal, t.depositRate, t.price, Balance(b, TakerAccount(t, p)),
      Balance(b, MakerAccount(t, p)), q);
    SolventFive(b, LendEntries(p, t.takerBorrows, LendBalance(t, LendFill(b, p, t, q).quantity).value));
  }

  /** `VerifyCollateral` refuses an order whose collateral is the token it borrows. So a match at the balance-limited
      quantity never fails for lack of a party's balance, whoever coincides with whom. */
  lemma {:induction false} LendingNeverShort(b: Balances, p: Parties, t: LendTerms, q: nat)
    requires ValidLend(t) && LendBalance(t, LendFill(b, p, t, q).quantity).Some?
    ensures t.lend != t.collateral ==>
      Solvent(b, LendEntries(p, t.takerBorrows, LendBalance(t, LendFill(b, p, t, q).quantity).value))
  {
    hide LendFill, LendBalance, Solvent;
    LendingShortExactly(b, p, t, q);
  }
}
