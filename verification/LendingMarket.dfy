/** The lending market as a whole: `ApplyOrder` of BRCxlending/order_processor.go with the balances it moves and the
    loans it opens. Book, balances and loans are reverted together, and over every run of orders they stay in step. */
module LendingMarket {
  import opened Options
  import opened Sums
  import opened FillQuantity
  import opened Ledger
  import opened Settlement
  import opened LendSettlement
  import opened SettlementDb
  import opened MatchOutcome
  import opened MatchMeaning
  import opened OrderBook
  import opened Matching
  import opened Loans
  import opened LoanSteps
  import opened LoanMeaning
  import opened LoanFate
  import opened LoanOpening
  import Exchange

  /** One book, for a token and a term, and what stays fixed while the orders of a block are processed. A borrowing
      order is known by its hash. Prices may move with every match. */
  datatype LendMarket = LendMarket(fork: bool, book: nat, lend: Token, term: nat, now: nat, lendDecimal: nat,
                                   tokens: set<Token>, owners: map<Address, Address>, fees: map<Address, nat>,
                                   masternodeOwner: Address, decimals: map<Token, nat>, rates: map<Token, Rates>,
                                   collateralOf: map<nat, Token>, toppedUp: set<nat>,
                                   lendPrice: nat -> nat, price: (nat, Token) -> nat)

  /** Loans and balances, the relayers' deposits, and the number of matches so far. */
  datatype Fund = Fund(state: State, deposits: Balances, matches: nat)

  function Borrower(a: Attempt): Issuer {
    if a.buys then a.taker else a.maker
  }

  function Investor(a: Attempt): Issuer {
    if a.buys then a.maker else a.taker
  }

  function OwnerOf(m: LendMarket, relayer: Address): Address {
    if relayer in m.owners then m.owners[relayer] else ZERO_ADDRESS
  }

  /** The collateral is that of the borrowing order, and 0 for none. */
  function CollateralOf(m: LendMarket, a: Attempt): Token {
    if Borrower(a).hash in m.collateralOf then m.collateralOf[Borrower(a).hash] else ZERO_ADDRESS
  }

  function RatesFor(m: LendMarket, t: Token): Rates {
    if t in m.rates then m.rates[t] else Rates(0, 0, 0)
  }

  function DecimalOf(m: LendMarket, t: Token): nat {
    if t in m.decimals then m.decimals[t] else 0
  }

  function FeeOf(m: LendMarket, relayer: Address): nat {
    if relayer in m.fees then m.fees[relayer] else 0
  }

  function PartiesOf(m: LendMarket, a: Attempt): Parties {
    Parties(a.taker.user, a.maker.user, OwnerOf(m, a.taker.relayer), OwnerOf(m, a.maker.relayer))
  }

  function TermsOf(m: LendMarket, f: Fund, a: Attempt): LendTerms {
    var c := CollateralOf(m, a);
    LendTerms(m.fork, a.buys, m.lend, c, m.price(f.matches, c), RatesFor(m, c).deposit,
              FeeOf(m, Borrower(a).relayer), m.lendDecimal, DecimalOf(m, c), m.lendPrice(f.matches))
  }

  /** What has to be on file for the collateral before anything is computed. */
  predicate Listed(m: LendMarket, f: Fund, a: Attempt) {
    var c := CollateralOf(m, a);
    && c != ZERO_ADDRESS
    && RatesFor(m, c).deposit > 0 && RatesFor(m, c).liquidation > 0 && RatesFor(m, c).recall > 0
    && m.lendPrice(f.matches) > 0 && m.price(f.matches, c) > 0 && m.lendDecimal > 0 && DecimalOf(m, c) > 0
  }

  function OrderOf(who: Issuer): Order {
    Order(who.user, who.relayer)
  }

  function ResultOf(m: LendMarket, f: Fund, a: Attempt): Outcome
    requires Listed(m, f, a)
  {
    LendOutcome(Venue(m.tokens, f.state.balances, f.deposits), OrderOf(a.taker), OrderOf(a.maker), PartiesOf(m, a),
                TermsOf(m, f, a), a.max)
  }

  function LoanEntries(m: LendMarket, f: Fund, a: Attempt, q: nat): seq<Entry>
    requires Listed(m, f, a) && LendBalance(TermsOf(m, f, a), q).Some?
  {
    LendEntries(PartiesOf(m, a), a.buys, LendBalance(TermsOf(m, f, a), q).value)
  }

  function FeeEntry(m: LendMarket): seq<Entry> {
    [Credit(Account(NATIVE, m.masternodeOwner), LENDING_FEE)]
  }

  /** The borrower's relayer pays. */
  function Payer(a: Attempt): Account {
    Account(DEPOSIT, Borrower(a).relayer)
  }

  /** The contract can pay the fee of a match. */
  predicate CanPay(f: Fund) {
    Balance(f.state.balances, Account(NATIVE, REGISTRATION)) >= LENDING_FEE
  }

  /** A quantity is lent only when every check has passed. */
  lemma {:induction false} LentMeans(m: LendMarket, f: Fund, a: Attempt)
    requires Listed(m, f, a)
    ensures var o := ResultOf(m, f, a);
      o.Settled? && o.quantity > 0 ==>
        && LendBalance(TermsOf(m, f, a), o.quantity).Some?
        && NotedOk(Charged(f.state.balances), map[], LoanEntries(m, f, a, o.quantity))
        && Solvent(Charged(f.state.balances), FeeEntry(m)) && Balance(f.deposits, Payer(a)) >= LENDING_FEE
  {
    hide AllAllowed, NotedOk, LendFill, LendBalance, LendEntries, Charged;
    var o := ResultOf(m, f, a);
    if o.Settled? && o.quantity > 0 {
      StartChecks(m.tokens, Charged(f.state.balances), LoanEntries(m, f, a, o.quantity));
    }
  }

  /** The loan that a match of `q` opens; its interest is the maker's. */
  function LoanOf(m: LendMarket, f: Fund, a: Attempt, q: nat): Trade
    requires Listed(m, f, a)
  {
    NewTrade(TermsOf(m, f, a), RatesFor(m, CollateralOf(m, a)).liquidation, q, m.now, m.term, a.price,
             Borrower(a).user, Investor(a).user, Borrower(a).hash in m.toppedUp)
  }

  function LentFund(m: LendMarket, f: Fund, a: Attempt, q: nat): Fund
    requires Listed(m, f, a) && LendBalance(TermsOf(m, f, a), q).Some?
    requires NotedOk(Charged(f.state.balances), map[], LoanEntries(m, f, a, q))
    requires Solvent(Charged(f.state.balances), FeeEntry(m)) && Balance(f.deposits, Payer(a)) >= LENDING_FEE
  {
    var b := WrittenLate(Charged(f.state.balances), FeeEntry(m), LoanEntries(m, f, a, q));
    Fund(OpenedWith(f.state, m.book, LoanOf(m, f, a, q), b),
         f.deposits[Payer(a) := Balance(f.deposits, Payer(a)) - LENDING_FEE], f.matches + 1)
  }

  /** Settling a taker with a maker: what it ends in, and balances and loans afterwards. A contract that could not pay
      would be left with a negative balance; here the attempt breaks, and `ContractPays` says that it never comes to
      that. */
  function SettleLoan(m: LendMarket, f: Fund, a: Attempt): (Fund, Outcome) {
    if !Listed(m, f, a) then (f, Broken)
    else
      var o := ResultOf(m, f, a);
      if !(o.Settled? && o.quantity > 0) then (f, o)
      else if !CanPay(f) then (f, Broken)
      else
        LentMeans(m, f, a);
        (LentFund(m, f, a, o.quantity), o)
  }

  function SettlerOf(m: LendMarket): Settler<Fund> {
    (f, a) => SettleLoan(m, f, a)
  }

  lemma {:induction false} SettlerIsReliable(m: LendMarket)
    ensures Reliable(SettlerOf(m))
  {
    hide LendOutcome, LentFund, Sound;
    forall f: Fund, a: Attempt | a.price > 0 && a.max > 0 ensures Sound(SettlerOf(m)(f, a).1, a.max) {
      BrokenIsSound(a.max);
      if Listed(m, f, a) {
        LendOutcomeSound(Venue(m.tokens, f.state.balances, f.deposits), OrderOf(a.taker), OrderOf(a.maker),
                         PartiesOf(m, a), TermsOf(m, f, a), a.max);
      }
    }
  }

  /** Whether an attempt lends anything. */
  predicate Lends(m: LendMarket, f: Fund, a: Attempt) {
    SettledBy(SettleLoan(m, f, a).1) != []
  }

  lemma {:induction false} LentOrNot(m: LendMarket, f: Fund, a: Attempt)
    ensures !Lends(m, f, a) ==> SettleLoan(m, f, a).0 == f
    ensures Lends(m, f, a) ==>
      var q := SettleLoan(m, f, a).1.quantity;
      && q > 0 && Listed(m, f, a) && CanPay(f) && LendBalance(TermsOf(m, f, a), q).Some?
      && NotedOk(Charged(f.state.balances), map[], LoanEntries(m, f, a, q))
      && Solvent(Charged(f.state.balances), FeeEntry(m)) && Balance(f.deposits, Payer(a)) >= LENDING_FEE
      && SettledBy(SettleLoan(m, f, a).1) == [q] && SettleLoan(m, f, a).0 == LentFund(m, f, a, q)
  {
    hide LendOutcome, NotedOk, Solvent, LoanEntries, LentFund, LendBalance, Charged;
    if Listed(m, f, a) { LentMeans(m, f, a); }
  }

  // Escrow, indexes and ids

  function PartiesIn(m: LendMarket, a: Attempt): set<Address> {
    {a.taker.user, a.maker.user, OwnerOf(m, a.taker.relayer), OwnerOf(m, a.maker.relayer)}
  }

  lemma {:induction false} AttemptKeeps(m: LendMarket, f: Fund, a: Attempt)
    requires Inv(f.state) && m.now > 0 && LOCK !in PartiesIn(m, a) + {m.masternodeOwner}
    ensures Inv(SettleLoan(m, f, a).0.state)
  {
    hide Inv, NotedOk, Solvent, SettleLoan, LendBalance, LendEntries, Charged, WrittenLate, EscrowMoved, MovesIn,
      Locked;
    LentOrNot(m, f, a);
    if Lends(m, f, a) {
      var q, t := SettleLoan(m, f, a).1.quantity, TermsOf(m, f, a);
      var es, b := LoanEntries(m, f, a, q), f.state.balances;
      MatchMovesCollateral(PartiesOf(m, a), t, q);
      LateEscrow(b, m.masternodeOwner, es, t.collateral, Locked(t, q));
      OpenedWithKeeps(f.state, m.book, LoanOf(m, f, a, q), WrittenLate(Charged(b), FeeEntry(m), es));
    }
  }

  /** Over every run of attempts escrow, indexes and ids stay in step. */
  lemma {:induction false} RunKeeps(m: LendMarket, f: Fund, attempts: seq<Attempt>)
    requires Inv(f.state) && m.now > 0
    requires forall a :: a in attempts ==> LOCK !in PartiesIn(m, a) + {m.masternodeOwner}
    ensures Inv(SettleAll(SettlerOf(m), f, attempts).state)
  {
    hide Inv, SettleLoan, PartiesIn;
    if attempts != [] {
      var n := |attempts| - 1;
      RunKeeps(m, f, attempts[..n]);
      AttemptKeeps(m, SettleAll(SettlerOf(m), f, attempts[..n]), attempts[n]);
    }
  }

  // The loans of a run are its fills

  /** Beside the loans of `f` the loans of `f'` are those of the book numbered from where `f` stopped, one for each
      quantity, in order. */
  ghost predicate OpenedFor(m: LendMarket, f: Fund, f': Fund, quantities: seq<nat>) {
    var n := NonceOf(f.state.nonces, m.book);
    && NonceOf(f'.state.nonces, m.book) == n + |quantities| && f'.matches == f.matches + |quantities|
    && (forall k :: k in f.state.trades ==> k in f'.state.trades && f'.state.trades[k] == f.state.trades[k])
    && (forall k :: k in f'.state.trades && k !in f.state.trades ==> k.book == m.book && n < k.id <= n + |quantities|)
    && (forall i :: 0 <= i < |quantities| ==> OpenedAs(m, f', Key(m.book, n + i + 1), quantities[i]))
  }

  /** An open loan of the book over `q`, from now on for the term. */
  predicate OpenedAs(m: LendMarket, f: Fund, k: Key, q: nat) {
    && k in f.state.trades && f.state.trades[k].amount == q && f.state.trades[k].pair.lend == m.lend
    && f.state.trades[k].term == m.term && f.state.trades[k].time == m.now + m.term
  }

  /** `f'` has one loan more than `f`, under the next number of the book. */
  ghost predicate OneMore(m: LendMarket, f: Fund, f': Fund, q: nat) {
    var k := Key(m.book, NonceOf(f.state.nonces, m.book) + 1);
    && k !in f.state.trades && k in f'.state.trades && f'.state.trades == f.state.trades[k := f'.state.trades[k]]
    && NonceOf(f'.state.nonces, m.book) == k.id && f'.matches == f.matches + 1 && OpenedAs(m, f', k, q)
  }

  lemma {:induction false} OneMoreFor(m: LendMarket, f: Fund, mid: Fund, f': Fund, quantities: seq<nat>, q: nat)
    requires OpenedFor(m, f, mid, quantities) && OneMore(m, mid, f', q)
    ensures OpenedFor(m, f, f', quantities + [q])
  {
    var n, more := NonceOf(f.state.nonces, m.book), quantities + [q];
    forall i | 0 <= i < |more| ensures OpenedAs(m, f', Key(m.book, n + i + 1), more[i]) {
      if i < |quantities| { assert OpenedAs(m, mid, Key(m.book, n + i + 1), quantities[i]); }
    }
  }

  lemma {:induction false} NextIsFree(s: State, book: nat)
    requires Inv(s)
    ensures Key(book, NonceOf(s.nonces, book) + 1) !in s.trades
  {
  }

  lemma {:induction false} LentIsOneMore(m: LendMarket, f: Fund, a: Attempt)
    requires Inv(f.state) && Lends(m, f, a)
    ensures OneMore(m, f, SettleLoan(m, f, a).0, SettleLoan(m, f, a).1.quantity)
  {
    hide Inv, NotedOk, Solvent, SettleLoan, LendBalance, LendEntries, Charged, WrittenLate, Locked;
    LentOrNot(m, f, a);
    NextIsFree(f.state, m.book);
  }

  lemma {:induction false} AttemptOpens(m: LendMarket, f: Fund, f': Fund, quantities: seq<nat>, a: Attempt)
    requires OpenedFor(m, f, f', quantities) && Inv(f'.state)
    ensures OpenedFor(m, f, SettleLoan(m, f', a).0, quantities + SettledBy(SettleLoan(m, f', a).1))
  {
    hide Inv, OpenedFor, OneMore, SettleLoan, NotedOk, LendBalance, LentFund, LoanEntries;
    LentOrNot(m, f', a);
    if Lends(m, f', a) {
      LentIsOneMore(m, f', a);
      OneMoreFor(m, f, f', SettleLoan(m, f', a).0, quantities, SettleLoan(m, f', a).1.quantity);
    } else {
      assert quantities + [] == quantities;
    }
  }

  /** Over every run: one loan for each fill, over its quantity, under the next number; earlier loans stay. */
  lemma {:induction false} RunOpens(m: LendMarket, f: Fund, attempts: seq<Attempt>)
    requires Inv(f.state) && m.now > 0
    requires forall a :: a in attempts ==> LOCK !in PartiesIn(m, a) + {m.masternodeOwner}
    ensures OpenedFor(m, f, SettleAll(SettlerOf(m), f, attempts), SettledOf(SettlerOf(m), f, attempts))
  {
    hide Inv, SettleLoan, PartiesIn, OpenedAs;
    if attempts != [] {
      var n := |attempts| - 1;
      RunOpens(m, f, attempts[..n]);
      RunKeeps(m, f, attempts[..n]);
      var f' := SettleAll(SettlerOf(m), f, attempts[..n]);
      AttemptOpens(m, f, f', SettledOf(SettlerOf(m), f, attempts[..n]), attempts[n]);
    }
  }

  // Token totals

  lemma {:induction false} ChargedTotal(b: Balances, t: Token)
    requires Balance(b, Account(NATIVE, REGISTRATION)) >= LENDING_FEE
    ensures Total(Charged(b), t) == Total(b, t) - if t == NATIVE then LENDING_FEE else 0
  {
    hide Total;
    var contract := Account(NATIVE, REGISTRATION);
    TotalUpdate(b, contract, Balance(b, contract) - LENDING_FEE, t);
  }

  /** By how much one attempt moves the total of a token: the fee minted under the old rules, and the relayer's fee that
      is lost when the match names the masternode owner's native account. */
  function LoanShift(m: LendMarket, f: Fund, a: Attempt, t: Token): int {
    LentOrNot(m, f, a);
    if !Lends(m, f, a) then 0
    else
      var q := SettleLoan(m, f, a).1.quantity;
      (if !m.fork && !a.buys && t == m.lend then 2 * FeeOn(q, FeeOf(m, Borrower(a).relayer)) else 0)
      - (if t == NATIVE && Names(LoanEntries(m, f, a, q), Account(NATIVE, m.masternodeOwner)) then LENDING_FEE else 0)
  }

  lemma {:induction false} AttemptTotals(m: LendMarket, f: Fund, a: Attempt, t: Token)
    ensures Total(SettleLoan(m, f, a).0.state.balances, t) == Total(f.state.balances, t) + LoanShift(m, f, a, t)
  {
    hide Total, NotedOk, Solvent, SettleLoan, LendBalance, LendEntries, Charged, WrittenLate, Locked, Net, FeeOn, Names;
    LentOrNot(m, f, a);
    if Lends(m, f, a) {
      var q := SettleLoan(m, f, a).1.quantity;
      ChargedTotal(f.state.balances, t);
      LendNet(PartiesOf(m, a), TermsOf(m, f, a), q, t);
      LendingFeeInTotal(Charged(f.state.balances), m.masternodeOwner, LoanEntries(m, f, a, q), t);
    }
  }

  function RunShift(m: LendMarket, f: Fund, attempts: seq<Attempt>, t: Token): int {
    if attempts == [] then 0
    else
      var n := |attempts| - 1;
      RunShift(m, f, attempts[..n], t) + LoanShift(m, SettleAll(SettlerOf(m), f, attempts[..n]), attempts[n], t)
  }

  /** Over every run of attempts the total of a token moves by exactly those shifts. */
  lemma {:induction false} RunTotals(m: LendMarket, f: Fund, attempts: seq<Attempt>, t: Token)
    ensures Total(SettleAll(SettlerOf(m), f, attempts).state.balances, t)
         == Total(f.state.balances, t) + RunShift(m, f, attempts, t)
  {
    hide Total, SettleLoan, LoanShift;
    if attempts != [] {
      var n := |attempts| - 1;
      RunTotals(m, f, attempts[..n], t);
      AttemptTotals(m, SettleAll(SettlerOf(m), f, attempts[..n]), attempts[n], t);
    }
  }

  lemma {:induction false} NamedIsParty(p: Parties, takerBorrows: bool, s: LendSettle, a: Account)
    requires Names(LendEntries(p, takerBorrows, s), a)
    ensures a.owner in {p.taker, p.maker, p.takerOwner, p.makerOwner, LOCK}
  {
    var e :| e in LendEntries(p, takerBorrows, s) && e.account == a;
  }

  lemma {:induction false} NoShift(m: LendMarket, f: Fund, a: Attempt, t: Token)
    requires m.fork && m.masternodeOwner !in PartiesIn(m, a) + {LOCK}
    ensures LoanShift(m, f, a, t) == 0
  {
    hide SettleLoan, NotedOk, LendBalance, LendEntries, Names, LentFund;
    LentOrNot(m, f, a);
    if Lends(m, f, a) {
      var q, o := SettleLoan(m, f, a).1.quantity, Account(NATIVE, m.masternodeOwner);
      var es := LoanEntries(m, f, a, q);
      if Names(es, o) { NamedIsParty(PartiesOf(m, a), a.buys, LendBalance(TermsOf(m, f, a), q).value, o); }
    }
  }

  /** Under the rules of the fork a run without the masternode owner conserves every token. */
  lemma {:induction false} RunConserves(m: LendMarket, f: Fund, attempts: seq<Attempt>, t: Token)
    requires m.fork && forall a :: a in attempts ==> m.masternodeOwner !in PartiesIn(m, a) + {LOCK}
    ensures RunShift(m, f, attempts, t) == 0
  {
    hide SettleLoan, LoanShift, PartiesIn;
    if attempts != [] {
      var n := |attempts| - 1;
      RunConserves(m, f, attempts[..n], t);
      NoShift(m, SettleAll(SettlerOf(m), f, attempts[..n]), attempts[n], t);
    }
  }

  // The deposits and what backs them

  /** The contract holds at least what the relayers have deposited with it. */
  ghost predicate Backed(f: Fund) {
    Balance(f.state.balances, Account(NATIVE, REGISTRATION)) >= Total(f.deposits, DEPOSIT)
  }

  /** A backed contract can pay the fee of every match that comes to be settled. */
  lemma {:induction false} ContractPays(m: LendMarket, f: Fund, a: Attempt)
    requires Listed(m, f, a) && Backed(f)
    ensures SettleLoan(m, f, a).1 == ResultOf(m, f, a)
  {
    hide LendOutcome, Total, NotedOk, LentFund, LoanEntries, LendBalance;
    var o := ResultOf(m, f, a);
    if o.Settled? && o.quantity > 0 {
      LentMeans(m, f, a);
      Exchange.DepositsBelowTotal(f.deposits, Payer(a));
    }
  }

  lemma {:induction false} StaysBacked(m: LendMarket, f: Fund, a: Attempt)
    requires Backed(f) && REGISTRATION !in PartiesIn(m, a)
    ensures var f' := SettleLoan(m, f, a).0;
      && Backed(f')
      && Total(f'.deposits, DEPOSIT) == Total(f.deposits, DEPOSIT) - LENDING_FEE * (f'.matches - f.matches)
  {
    hide Total, NotedOk, Solvent, SettleLoan, LendBalance, LendEntries, WrittenLate, Names, Change;
    LentOrNot(m, f, a);
    if Lends(m, f, a) {
      var q, contract := SettleLoan(m, f, a).1.quantity, Account(NATIVE, REGISTRATION);
      var es, b := LoanEntries(m, f, a, q), f.state.balances;
      TotalUpdate(f.deposits, Payer(a), Balance(f.deposits, Payer(a)) - LENDING_FEE, DEPOSIT);
      LateBalance(Charged(b), FeeEntry(m), es, contract);
      FewChange(FeeEntry(m), contract);
      if Names(es, contract) {
        NamedIsParty(PartiesOf(m, a), a.buys, LendBalance(TermsOf(m, f, a), q).value, contract);
      }
    }
  }

  /** Over every run the deposits shrink by one fee for each match, and the contract stays able to back them. */
  lemma {:induction false} RunStaysBacked(m: LendMarket, f: Fund, attempts: seq<Attempt>)
    requires Backed(f) && forall a :: a in attempts ==> REGISTRATION !in PartiesIn(m, a)
    ensures var f' := SettleAll(SettlerOf(m), f, attempts);
      && Backed(f')
      && Total(f'.deposits, DEPOSIT) == Total(f.deposits, DEPOSIT) - LENDING_FEE * (f'.matches - f.matches)
  {
    hide Total, SettleLoan, Backed, PartiesIn;
    if attempts != [] {
      var n := |attempts| - 1;
      RunStaysBacked(m, f, attempts[..n]);
      StaysBacked(m, SettleAll(SettlerOf(m), f, attempts[..n]), attempts[n]);
    }
  }

  // What an attempt means for those who take part

  /** An attempt can be settled only with the collateral, its three rates, both prices and both decimals on file. */
  lemma {:induction false} ListedExactly(m: LendMarket, f: Fund, a: Attempt)
    ensures Listed(m, f, a) <==>
      var borrower := if a.buys then a.taker else a.maker;
      && borrower.hash in m.collateralOf
      && var c := m.collateralOf[borrower.hash];
         && c != 0 && c in m.rates && m.rates[c].deposit >= 1 && m.rates[c].liquidation >= 1 && m.rates[c].recall >= 1
         && m.lendPrice(f.matches) >= 1 && m.price(f.matches, c) >= 1
         && m.lendDecimal >= 1 && c in m.decimals && m.decimals[c] >= 1
    ensures !Listed(m, f, a) ==> SettleLoan(m, f, a) == (f, Broken)
  {
    hide ResultOf, LentFund, CanPay;
  }

  /** The terms are those of the borrowing order: its collateral, that collateral's price, rate and decimals, and the
      fee of its relayer. */
  lemma {:induction false} TermsMean(m: LendMarket, f: Fund, a: Attempt)
    requires Listed(m, f, a)
    ensures var borrower := if a.buys then a.taker else a.maker;
      var t := TermsOf(m, f, a);
      && borrower.hash in m.collateralOf && t.collateral == m.collateralOf[borrower.hash]
      && t.lend == m.lend && t.takerBorrows == a.buys && t.fork == m.fork
      && t.collateral in m.rates && t.depositRate == m.rates[t.collateral].deposit
      && t.price == m.price(f.matches, t.collateral) && t.lendPrice == m.lendPrice(f.matches)
      && t.collateral in m.decimals && t.decimal == m.decimals[t.collateral] && t.lendDecimal == m.lendDecimal
      && t.borrowRate == if borrower.relayer in m.fees then m.fees[borrower.relayer] else 0
  {
  }

  /** Every attempt that lends: the payments between borrower, investor and the owner of the borrower's relayer, and the
      loan that is recorded. */
  lemma {:induction false} AttemptMeans(m: LendMarket, f: Fund, a: Attempt)
    requires Lends(m, f, a)
    ensures Listed(m, f, a)
    ensures var (f', o) := SettleLoan(m, f, a);
      var k := Key(m.book, NonceOf(f.state.nonces, m.book) + 1);
      var (borrower, investor) := if a.buys then (a.taker, a.maker) else (a.maker, a.taker);
      var t := TermsOf(m, f, a);
      && Lent(m.masternodeOwner, PartiesOf(m, a), t, o.quantity, f.state.balances, f'.state.balances)
      && LoanBetween(PartiesOf(m, a), t) == Loan(borrower.user, OwnerOf(m, borrower.relayer), investor.user)
      && k in f'.state.trades && t.collateral in m.rates
      && IsNewLoan(f'.state.trades[k], t, m.rates[t.collateral].liquidation, o.quantity, m.now, m.term, a.price,
                   borrower.user, investor.user, borrower.hash in m.toppedUp)
  {
    hide NotedOk, Solvent, SettleLoan, LendBalance, LendEntries, WrittenLate, Charged, Lent, IsNewLoan, NewTrade;
    LentOrNot(m, f, a);
    var q, t := SettleLoan(m, f, a).1.quantity, TermsOf(m, f, a);
    LentExactly(f.state.balances, m.masternodeOwner, PartiesOf(m, a), t, q);
    NewTradeExactly(LoanOf(m, f, a, q), t, RatesFor(m, t.collateral).liquidation, q, m.now, m.term, a.price,
                    Borrower(a).user, Investor(a).user, Borrower(a).hash in m.toppedUp);
  }

  // Runs of orders

  /** Neither issues orders nor owns a relayer that orders come through. */
  predicate Outside(m: LendMarket, x: Address, known: set<Issuer>) {
    forall i :: i in known ==> x != i.user && x != OwnerOf(m, i.relayer)
  }

  /** Every run of lending orders, with failing orders reverted in book, balances and loans alike: borrowing rates stay
      below investing rates, the escrow holds the collateral of the open loans, indexes and ids stay in step, one loan
      is open for each fill, token totals move by the stated shifts, and the contract keeps backing the deposits. */
  method LendAll(book: Book<Fund>, orders: seq<Request>, m: LendMarket, ghost known: set<Issuer>)
    returns (ghost attempts: seq<Attempt>)
    requires book.Valid() && book.AllKnown(known) && forall o :: o in orders ==> o.issuer in known
    requires Inv(book.ledger.state) && Backed(book.ledger) && m.now > 0
    requires Outside(m, REGISTRATION, known) && Outside(m, LOCK, known) && m.masternodeOwner != LOCK
    modifies book
    ensures book.Valid() && Uncrossed(book.bids, book.asks) && Inv(book.ledger.state) && Backed(book.ledger)
    ensures OpenedFor(m, old(book.ledger), book.ledger, SettledOf(SettlerOf(m), old(book.ledger), attempts))
    ensures forall t ::
      Total(book.ledger.state.balances, t)
        == Total(old(book.ledger).state.balances, t) + RunShift(m, old(book.ledger), attempts, t)
    ensures m.fork && Outside(m, m.masternodeOwner, known) ==>
      forall t :: RunShift(m, old(book.ledger), attempts, t) == 0
    ensures Total(book.ledger.deposits, DEPOSIT) == Total(old(book.ledger).deposits, DEPOSIT)
      - LENDING_FEE * (book.ledger.matches - old(book.ledger).matches)
  {
    hide Total, SettleLoan, Backed, LoanShift, Reliable, Inv, OpenedFor;
    ghost var f := book.ledger;
    SettlerIsReliable(m);
    attempts := book.ApplyAll(orders, SettlerOf(m), known);
    RunKeeps(m, f, attempts);
    RunOpens(m, f, attempts);
    RunStaysBacked(m, f, attempts);
    forall t ensures Total(book.ledger.state.balances, t) == Total(f.state.balances, t) + RunShift(m, f, attempts, t) {
      RunTotals(m, f, attempts, t);
    }
    if m.fork && Outside(m, m.masternodeOwner, known) {
      forall t ensures RunShift(m, f, attempts, t) == 0 { RunConserves(m, f, attempts, t); }
    }
  }
}
