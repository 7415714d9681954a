/** A lending match from its settlement to the open loan (BRCxlending/order_processor.go): `DoSettleBalance`, then the
    trade is recorded. */
module LoanOpening {
  import opened Options
  import opened FillQuantity
  import opened Ledger
  import opened Settlement
  import opened LendSettlement
  import opened SettlementDb
  import opened MatchOutcome
  import opened MatchMeaning
  import opened Loans
  import opened LoanSteps
  import opened LoanMeaning
  import opened LendingDb
  import Matching

  /** Whatever becomes of the fees, the escrow gets exactly the collateral of the match. */
  lemma {:induction false} LateEscrow(b: Balances, owner: Address, es: seq<Entry>, t: Token, n: int)
    requires NotedOk(Charged(b), map[], es) && MovesIn(es, t, n) && owner != LOCK
    ensures var fees := [Credit(Account(NATIVE, owner), LENDING_FEE)];
      Solvent(Charged(b), fees) && EscrowMoved(b, WrittenLate(Charged(b), fees, es), t, n)
  {
    hide NotedOk, WrittenLate, Names;
    var fees := [Credit(Account(NATIVE, owner), LENDING_FEE)];
    assert Solvent(Charged(b), fees);
    forall u ensures Balance(WrittenLate(Charged(b), fees, es), Account(u, LOCK))
      == Balance(b, Account(u, LOCK)) + if u == t then n else 0
    {
      LateBalance(Charged(b), fees, es, Account(u, LOCK));
      FewChange(fees, Account(u, LOCK));
      if !Names(es, Account(u, LOCK)) { UnnamedChange(es, Account(u, LOCK)); }
    }
  }

  /** The loan, the borrower's fee and the collateral are paid; only the two native accounts that the relayer's own fee
      goes through may show more than that. */
  ghost predicate Lent(masternodeOwner: Address, p: Parties, t: LendTerms, q: nat, b: Balances, b': Balances) {
    exists fee: nat, locked: nat ::
      && AreLoanAmounts(t, q, fee, locked)
      && forall x :: x != Account(NATIVE, masternodeOwner) && x != Account(NATIVE, REGISTRATION) ==>
        Balance(b', x) == Balance(b, x) + LoanPayments(t, LoanBetween(p, t), q, fee, locked, x)
  }

  lemma {:induction false} LentExactly(b: Balances, owner: Address, p: Parties, t: LendTerms, q: nat)
    requires ValidLend(t) && LendBalance(t, q).Some?
    requires NotedOk(Charged(b), map[], LendEntries(p, t.takerBorrows, LendBalance(t, q).value))
    requires Solvent(Charged(b), [Credit(Account(NATIVE, owner), LENDING_FEE)])
    ensures Lent(owner, p, t, q, b, WrittenLate(Charged(b), [Credit(Account(NATIVE, owner), LENDING_FEE)],
                                                LendEntries(p, t.takerBorrows, LendBalance(t, q).value)))
  {
    hide NotedOk, Solvent, LendBalance, LendEntries, WrittenLate, Names, Change, LoanPayments, AreLoanAmounts, FeeOn,
      Collateral;
    var es := LendEntries(p, t.takerBorrows, LendBalance(t, q).value);
    var fees := [Credit(Account(NATIVE, owner), LENDING_FEE)];
    var fee, locked := FeeOn(q, t.borrowRate), Locked(t, q);
    LoanAmountsExactly(t, q, fee, locked);
    forall x | x != Account(NATIVE, owner) && x != Account(NATIVE, REGISTRATION)
      ensures Balance(WrittenLate(Charged(b), fees, es), x)
           == Balance(b, x) + LoanPayments(t, LoanBetween(p, t), q, fee, locked, x)
    {
      LateBalance(Charged(b), fees, es, x);
      FewChange(fees, x);
      LoanMoves(p, t, q, fee, locked, x);
      if !Names(es, x) { UnnamedChange(es, x); }
    }
  }

  /** `getLendQuantity` on the state database: how much is lent, and what it moves. */
  method GetLendQuantity(sdb: StateDb, masternodeOwner: Address, taker: Order, maker: Order, terms: LendTerms, max: nat)
    returns (o: Matching.Outcome)
    requires ValidLend(terms) && Balance(sdb.balances, Account(NATIVE, REGISTRATION)) >= LENDING_FEE
    modifies sdb
    ensures var v := Venue(sdb.tokens, old(sdb.balances), old(sdb.deposits));
      o == LendOutcome(v, taker, maker, sdb.PartiesOf(taker, maker), terms, max)
    ensures exists f: Fill ::
      && IsLoan(LendersIn(old(sdb.balances), sdb.PartiesOf(taker, maker), terms), terms.decimal, terms.depositRate,
                terms.price, max, f)
      && EndsAs(old(sdb.deposits), taker.relayer, maker.relayer, 10000000000000000, f,
                WorthLending(terms, f.quantity), o)
    ensures o.Settled? && o.quantity > 0 ==>
      Lent(masternodeOwner, sdb.PartiesOf(taker, maker), terms, o.quantity, old(sdb.balances), sdb.balances)
    ensures o.TooSmall? || (o.Settled? && o.quantity == 0) ==>
      sdb.balances == old(sdb.balances) && sdb.deposits == old(sdb.deposits)
  {
    hide AllAllowed, NotedOk, Solvent, LendFill, LendBalance, LendEntries, Settles, Names, WrittenLate, IsLoan, EndsAs,
      Lent, WorthLending, Charged;
    var p := sdb.PartiesOf(taker, maker);
    LendOutcomeExactly(Venue(sdb.tokens, sdb.balances, sdb.deposits), taker, maker, p, terms, max);
    var check := CheckRelayers(sdb.deposits, taker.relayer, maker.relayer, LENDING_FEE);
    if check != FeesPaid {
      return Matching.Settled(0, check == MakerLacks);
    }
    var fill := LendFill(sdb.balances, p, terms, max);
    if fill.quantity == 0 {
      return Matching.Settled(0, fill.rejectMaker);
    }
    var s := LendBalance(terms, fill.quantity);
    if s.None? {
      return Matching.TooSmall(fill.quantity, fill.rejectMaker);
    }
    var ok := sdb.DoSettleLending(masternodeOwner, taker, maker, terms.takerBorrows, s.value);
    if ok { LentExactly(old(sdb.balances), masternodeOwner, p, terms, fill.quantity); }
    o := if ok then Matching.Settled(fill.quantity, fill.rejectMaker) else Matching.Broken;
  }

  /** Settles a match and opens its loan. The books agree afterwards, and the escrow holds the collateral, also when the
      masternode owner takes part in the match. */
  method SettleAndOpen(sdb: StateDb, db: Lending, masternodeOwner: Address, taker: Order, maker: Order,
                       terms: LendTerms, q: nat, book: nat, liquidationRate: nat, now: nat, term: nat, interest: nat,
                       autoTopUp: bool) returns (ok: bool)
    requires db.Valid() && sdb.balances == db.balances && now > 0
    requires ValidLend(terms) && LendBalance(terms, q).Some?
    requires Balance(sdb.balances, Account(NATIVE, REGISTRATION)) >= LENDING_FEE
    requires var p := sdb.PartiesOf(taker, maker);
      LOCK !in {p.taker, p.maker, p.takerOwner, p.makerOwner, masternodeOwner}
    modifies sdb, db
    ensures db.Valid() && (!ok ==> db.View() == old(db.View()))
    ensures ok ==> db.balances == sdb.balances
    ensures ok ==>
      var borrower, investor := if terms.takerBorrows then taker.user else maker.user,
                                if terms.takerBorrows then maker.user else taker.user;
      var t := NewTrade(terms, liquidationRate, q, now, term, interest, borrower, investor, autoTopUp);
      && db.View() == OpenedWith(old(db.View()), book, t, sdb.balances)
      && IsNewLoan(t, terms, liquidationRate, q, now, term, interest, borrower, investor, autoTopUp)
    ensures ok ==> Lent(masternodeOwner, sdb.PartiesOf(taker, maker), terms, q, old(sdb.balances), sdb.balances)
  {
    hide Inv, EscrowMoved, WrittenLate, NotedOk, Solvent, LendEntries, AllAllowed, Charged, MovesIn;
    hide Settles, Names, Lent, IsNewLoan;
    ghost var p := sdb.PartiesOf(taker, maker);
    var s := LendBalance(terms, q).value;
    ghost var es, before := LendEntries(p, terms.takerBorrows, s), db.balances;
    ok := sdb.DoSettleLending(masternodeOwner, taker, maker, terms.takerBorrows, s);
    if !ok {
      return;
    }
    var borrower, investor := if terms.takerBorrows then taker.user else maker.user,
                              if terms.takerBorrows then maker.user else taker.user;
    var t := NewTrade(terms, liquidationRate, q, now, term, interest, borrower, investor, autoTopUp);
    NewTradeExactly(t, terms, liquidationRate, q, now, term, interest, borrower, investor, autoTopUp);
    LentExactly(before, masternodeOwner, p, terms, q);
    MatchMovesCollateral(p, terms, q);
    LateEscrow(before, masternodeOwner, es, terms.collateral, t.locked);
    db.balances := sdb.balances;
    var k := db.OpenTrade(book, t, before);
  }
}
