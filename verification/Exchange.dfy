/** The exchange as a whole: `ApplyOrder` of BRCx/order_processor.go with the balances it moves. Book and balances are
    reverted together, and over every run of orders the balances are accounted for. */
module Exchange {
  import opened Options
  import opened Sums
  import opened FillQuantity
  import opened Ledger
  import opened Settlement
  import opened SettlementDb
  import opened MatchOutcome
  import opened MatchMeaning
  import opened OrderBook
  import opened Matching

  /** What stays fixed while the orders of a block are processed. The price of the quote token may move with every
      match. */
  datatype Market = Market(base: Token, quote: Token, baseDecimal: nat, quoteDecimal: nat, tokens: set<Token>,
                           owners: map<Address, Address>, rates: map<Address, nat>, masternodeOwner: Address,
                           quotePrice: nat -> nat)

  predicate ValidMarket(m: Market) {
    m.baseDecimal > 0 && m.quoteDecimal > 0
  }

  datatype Funds = Funds(balances: Balances, deposits: Balances, matches: nat)

  function OwnerOf(m: Market, relayer: Address): Address {
    if relayer in m.owners then m.owners[relayer] else ZERO_ADDRESS
  }

  function RateOf(m: Market, relayer: Address): nat {
    if relayer in m.rates then m.rates[relayer] else 0
  }

  function PartiesOf(m: Market, a: Attempt): Parties {
    Parties(a.taker.user, a.maker.user, OwnerOf(m, a.taker.relayer), OwnerOf(m, a.maker.relayer))
  }

  function TermsOf(m: Market, f: Funds, a: Attempt): Terms {
    Terms(a.buys, m.base, m.quote, a.price, m.baseDecimal, m.quoteDecimal, RateOf(m, a.taker.relayer),
          RateOf(m, a.maker.relayer), if m.quote == NATIVE then m.quoteDecimal else m.quotePrice(f.matches))
  }

  function OrderOf(who: Issuer): Order {
    Order(who.user, who.relayer)
  }

  function AttemptOf(m: Market, f: Funds, a: Attempt): TradeAttempt {
    TradeAttempt(Venue(m.tokens, f.balances, f.deposits), OrderOf(a.taker), OrderOf(a.maker), PartiesOf(m, a),
                 TermsOf(m, f, a))
  }

  function MatchEntries(m: Market, f: Funds, a: Attempt, q: nat): seq<Entry>
    requires ValidTerms(TermsOf(m, f, a)) && SettleBalance(TermsOf(m, f, a), q).Some?
  {
    Entries(PartiesOf(m, a), SettleBalance(TermsOf(m, f, a), q).value, m.quote)
  }

  function FeesOf(m: Market): seq<Entry> {
    NativeEntries(m.masternodeOwner, 2, RELAYER_FEE)
  }

  function DepositFees(a: Attempt): seq<Entry> {
    FeeEntries([a.taker.relayer, a.maker.relayer], RELAYER_FEE)
  }

  /** A quantity is settled only when every check has passed. */
  lemma {:induction false} SettledMeans(m: Market, f: Funds, a: Attempt)
    requires ValidMarket(m) && a.price > 0
    ensures var o := TradeResult(AttemptOf(m, f, a), a.max);
      o.Settled? && o.quantity > 0 ==>
        && CheckRelayers(f.deposits, a.taker.relayer, a.maker.relayer, RELAYER_FEE) == FeesPaid
        && SettleBalance(TermsOf(m, f, a), o.quantity).Some?
        && AllAllowed(m.tokens, f.balances, MatchEntries(m, f, a, o.quantity))
        && NotedOk(f.balances, map[], MatchEntries(m, f, a, o.quantity))
        && Solvent(f.deposits, DepositFees(a))
  {
    hide AllAllowed, Solvent, NotedOk, MatchFill, SettleBalance, FeeEntries, CheckRelayers;
    var o := TradeResult(AttemptOf(m, f, a), a.max);
    if o.Settled? && o.quantity > 0 {
      StartChecks(m.tokens, f.balances, MatchEntries(m, f, a, o.quantity));
    }
  }

  /** The contract can pay the fees of a match. */
  predicate CanPay(f: Funds) {
    Balance(f.balances, Account(NATIVE, REGISTRATION)) >= 2 * RELAYER_FEE
  }

  function SettledFunds(m: Market, f: Funds, a: Attempt, q: nat): Funds
    requires ValidTerms(TermsOf(m, f, a)) && SettleBalance(TermsOf(m, f, a), q).Some? && CanPay(f)
    requires NotedOk(f.balances, map[], MatchEntries(m, f, a, q)) && Solvent(f.deposits, DepositFees(a))
  {
    ThreeNative(f.balances, m.masternodeOwner, RELAYER_FEE);
    Funds(WrittenLate(f.balances, FeesOf(m), MatchEntries(m, f, a, q)), AppliedAll(f.deposits, DepositFees(a)),
          f.matches + 1)
  }

  /** Settling a taker with a maker: what it ends in, and the funds afterwards. A contract that could not pay would be
      left with a negative balance; here the attempt breaks, and `ContractPays` says that it never comes to that. */
  function SettleAttempt(m: Market, f: Funds, a: Attempt): (Funds, Outcome)
    requires ValidMarket(m)
  {
    if a.price == 0 then (f, Broken)
    else
      var o := TradeResult(AttemptOf(m, f, a), a.max);
      if !(o.Settled? && o.quantity > 0) then (f, o)
      else if !CanPay(f) then (f, Broken)
      else
        SettledMeans(m, f, a);
        (SettledFunds(m, f, a, o.quantity), o)
  }

  function SettlerOf(m: Market): Settler<Funds>
    requires ValidMarket(m)
  {
    (f, a) => SettleAttempt(m, f, a)
  }

  lemma {:induction false} SettlerIsReliable(m: Market)
    requires ValidMarket(m)
    ensures Reliable(SettlerOf(m))
  {
    hide TradeOutcome, AttemptOf, SettledFunds;
    forall f: Funds, a: Attempt | a.price > 0 && a.max > 0
      ensures ValidTerms(AttemptOf(m, f, a).terms)
      ensures SettlerOf(m)(f, a).1 in {TradeResult(AttemptOf(m, f, a), a.max), Broken}
    {
      AttemptIsValid(m, f, a);
    }
    TradesAreReliable(SettlerOf(m), (f, a) => AttemptOf(m, f, a));
  }

  lemma {:induction false} AttemptIsValid(m: Market, f: Funds, a: Attempt)
    requires ValidMarket(m) && a.price > 0
    ensures ValidTerms(AttemptOf(m, f, a).terms)
  {
  }

  // Token totals

  /** Whether an attempt moves anything. */
  predicate Moves(m: Market, f: Funds, a: Attempt)
    requires ValidMarket(m)
  {
    SettledBy(SettleAttempt(m, f, a).1) != []
  }

  lemma {:induction false} MovedFunds(m: Market, f: Funds, a: Attempt)
    requires ValidMarket(m)
    ensures !Moves(m, f, a) ==> SettleAttempt(m, f, a).0 == f
    ensures Moves(m, f, a) ==>
      var q := SettleAttempt(m, f, a).1.quantity;
      && a.price > 0 && CanPay(f) && SettleBalance(TermsOf(m, f, a), q).Some?
      && CheckRelayers(f.deposits, a.taker.relayer, a.maker.relayer, RELAYER_FEE) == FeesPaid
      && NotedOk(f.balances, map[], MatchEntries(m, f, a, q)) && Solvent(f.deposits, DepositFees(a))
      && SettleAttempt(m, f, a).0 == SettledFunds(m, f, a, q)
  {
    hide TradeOutcome, NotedOk, Solvent, MatchEntries, SettledFunds, CheckRelayers, SettleBalance;
    if a.price > 0 { SettledMeans(m, f, a); }
  }

  // What an attempt means for those who take part

  /** A trader with the owner and the fee rate of the relayer the order came through. */
  function Trader(m: Market, i: Issuer): Role {
    Role(i.user, if i.relayer in m.owners then m.owners[i.relayer] else ZERO_ADDRESS,
         if i.relayer in m.rates then m.rates[i.relayer] else 0)
  }

  function BuyerIn(m: Market, a: Attempt): Role {
    Trader(m, if a.buys then a.taker else a.maker)
  }

  function SellerIn(m: Market, a: Attempt): Role {
    Trader(m, if a.buys then a.maker else a.taker)
  }

  lemma {:induction false} RolesExactly(m: Market, f: Funds, a: Attempt)
    ensures Buyer(PartiesOf(m, a), TermsOf(m, f, a)) == BuyerIn(m, a)
    ensures Seller(PartiesOf(m, a), TermsOf(m, f, a)) == SellerIn(m, a)
  {
  }

  /** `q` units changed hands at the maker's price, with both fees paid on top; only the two native accounts that the
      relayers' own fees go through may show more than that. */
  ghost predicate Traded(m: Market, a: Attempt, q: nat, b: Balances, b': Balances) {
    exists amount: nat, buyerFee: nat, sellerFee: nat ::
      && IsQuote(amount, q, a.price, m.baseDecimal)
      && IsFee(buyerFee, amount, BuyerIn(m, a).rate) && IsFee(sellerFee, amount, SellerIn(m, a).rate)
      && forall x :: x != Account(NATIVE, m.masternodeOwner) && x != Account(NATIVE, REGISTRATION) ==>
        Balance(b', x) == Balance(b, x)
          + TradePayments(m.base, m.quote, BuyerIn(m, a), SellerIn(m, a), q, amount, buyerFee, sellerFee, x)
  }

  /** The relayers' fees go from the contract to the masternode owner, when neither takes part in the match. */
  ghost predicate FeesPassedOn(m: Market, a: Attempt, b: Balances, b': Balances) {
    m.masternodeOwner !in PartiesIn(m, a) + {REGISTRATION} && REGISTRATION !in PartiesIn(m, a) ==>
      && Balance(b', Account(NATIVE, m.masternodeOwner)) ==
         Balance(b, Account(NATIVE, m.masternodeOwner)) + 2 * 1000000000000000
      && Balance(b', Account(NATIVE, REGISTRATION)) == Balance(b, Account(NATIVE, REGISTRATION)) - 2 * 1000000000000000
  }

  /** Each relayer pays for its side of the match out of its deposit. */
  ghost predicate DepositsCharged(a: Attempt, d: Balances, d': Balances) {
    forall x :: Balance(d', Account(DEPOSIT, x)) == Balance(d, Account(DEPOSIT, x))
      - Owes(a.taker.relayer, a.maker.relayer, 1000000000000000, x)
  }

  lemma {:induction false} LateTrade(m: Market, f: Funds, a: Attempt, q: nat, x: Account, amount: nat, buyerFee: nat,
                                     sellerFee: nat)
    requires ValidMarket(m) && a.price > 0 && CanPay(f) && SettleBalance(TermsOf(m, f, a), q).Some?
    requires NotedOk(f.balances, map[], MatchEntries(m, f, a, q)) && Solvent(f.deposits, DepositFees(a))
    requires AreAmounts(PartiesOf(m, a), TermsOf(m, f, a), q, amount, buyerFee, sellerFee)
    ensures Names(MatchEntries(m, f, a, q), x) || x.token != NATIVE || x.owner !in {m.masternodeOwner, REGISTRATION} ==>
      Balance(SettledFunds(m, f, a, q).balances, x) == Balance(f.balances, x) +
        TradePayments(m.base, m.quote, BuyerIn(m, a), SellerIn(m, a), q, amount, buyerFee, sellerFee, x)
    ensures !Names(MatchEntries(m, f, a, q), x) ==>
      Balance(SettledFunds(m, f, a, q).balances, x) == Balance(f.balances, x)
        + Moved(Account(NATIVE, REGISTRATION), Account(NATIVE, m.masternodeOwner), 2 * 1000000000000000, x)
  {
    hide NotedOk, Solvent, WrittenLate, AppliedAll, SettleBalance, Names, Change, Entries, NativeEntries, TradePayments,
      AreAmounts, FeeEntries;
    var es := MatchEntries(m, f, a, q);
    ThreeNative(f.balances, m.masternodeOwner, RELAYER_FEE);
    LateBalance(f.balances, FeesOf(m), es, x);
    NativeChange(m.masternodeOwner, RELAYER_FEE, x);
    MatchMoves(PartiesOf(m, a), TermsOf(m, f, a), q, amount, buyerFee, sellerFee, x);
    RolesExactly(m, f, a);
    if !Names(es, x) { UnnamedChange(es, x); }
  }

  /** Every settled attempt, in the terms of the market and the two orders. */
  lemma {:induction false} AttemptMeans(m: Market, f: Funds, a: Attempt)
    requires ValidMarket(m) && Moves(m, f, a)
    ensures var (f', o) := SettleAttempt(m, f, a);
      && Traded(m, a, o.quantity, f.balances, f'.balances) && FeesPassedOn(m, a, f.balances, f'.balances)
      && DepositsCharged(a, f.deposits, f'.deposits)
  {
    hide NotedOk, Solvent, SettleAttempt, SettleBalance, Entries, SettledFunds, TradePayments, AreAmounts, Names,
      QuoteQuantity, FeeOn, IsQuote, IsFee;
    MovedFunds(m, f, a);
    var q, t, p := SettleAttempt(m, f, a).1.quantity, TermsOf(m, f, a), PartiesOf(m, a);
    var f' := SettledFunds(m, f, a, q);
    var amount := QuoteQuantity(q, t.price, t.baseDecimal);
    var buyerFee, sellerFee := FeeOn(amount, Buyer(p, t).rate), FeeOn(amount, Seller(p, t).rate);
    AmountsExactly(p, t, q, amount, buyerFee, sellerFee);
    TradedAmounts(m, f, a, q, amount, buyerFee, sellerFee);
    forall x | x != Account(NATIVE, m.masternodeOwner) && x != Account(NATIVE, REGISTRATION)
      ensures Balance(f'.balances, x) == Balance(f.balances, x)
        + TradePayments(m.base, m.quote, BuyerIn(m, a), SellerIn(m, a), q, amount, buyerFee, sellerFee, x)
    {
      LateTrade(m, f, a, q, x, amount, buyerFee, sellerFee);
    }
    FeesGoOn(m, f, a, q, amount, buyerFee, sellerFee);
    DepositsAfter(m, f, a, q);
  }

  lemma {:induction false} TradedAmounts(m: Market, f: Funds, a: Attempt, q: nat, amount: nat, buyerFee: nat,
                                         sellerFee: nat)
    requires AreAmounts(PartiesOf(m, a), TermsOf(m, f, a), q, amount, buyerFee, sellerFee)
    ensures IsQuote(amount, q, a.price, m.baseDecimal)
    ensures IsFee(buyerFee, amount, BuyerIn(m, a).rate) && IsFee(sellerFee, amount, SellerIn(m, a).rate)
  {
    RolesExactly(m, f, a);
  }

  lemma {:induction false} FeesGoOn(m: Market, f: Funds, a: Attempt, q: nat, amount: nat, buyerFee: nat, sellerFee: nat)
    requires ValidMarket(m) && a.price > 0 && CanPay(f) && SettleBalance(TermsOf(m, f, a), q).Some?
    requires NotedOk(f.balances, map[], MatchEntries(m, f, a, q)) && Solvent(f.deposits, DepositFees(a))
    requires AreAmounts(PartiesOf(m, a), TermsOf(m, f, a), q, amount, buyerFee, sellerFee)
    ensures FeesPassedOn(m, a, f.balances, SettledFunds(m, f, a, q).balances)
  {
    hide NotedOk, Solvent, SettleBalance, SettledFunds, TradePayments, AreAmounts, Names, Entries;
    var es, s := MatchEntries(m, f, a, q), SettleBalance(TermsOf(m, f, a), q).value;
    var o, r := Account(NATIVE, m.masternodeOwner), Account(NATIVE, REGISTRATION);
    if Names(es, o) { NamedIsParty(PartiesOf(m, a), s, m.quote, o); }
    if Names(es, r) { NamedIsParty(PartiesOf(m, a), s, m.quote, r); }
    LateTrade(m, f, a, q, o, amount, buyerFee, sellerFee);
    LateTrade(m, f, a, q, r, amount, buyerFee, sellerFee);
  }

  lemma {:induction false} DepositsAfter(m: Market, f: Funds, a: Attempt, q: nat)
    requires ValidTerms(TermsOf(m, f, a)) && SettleBalance(TermsOf(m, f, a), q).Some? && CanPay(f)
    requires NotedOk(f.balances, map[], MatchEntries(m, f, a, q)) && Solvent(f.deposits, DepositFees(a))
    ensures DepositsCharged(a, f.deposits, SettledFunds(m, f, a, q).deposits)
  {
    hide NotedOk, Solvent, SettleBalance, WrittenLate, AppliedAll, Change, NativeEntries, Entries;
    forall x ensures Balance(AppliedAll(f.deposits, DepositFees(a)), Account(DEPOSIT, x)) ==
      Balance(f.deposits, Account(DEPOSIT, x)) - Owes(a.taker.relayer, a.maker.relayer, RELAYER_FEE, x)
    {
      AppliedChange(f.deposits, DepositFees(a), Account(DEPOSIT, x));
      FewChange(DepositFees(a), Account(DEPOSIT, x));
    }
  }

  /** How an attempt ends: with the greatest quantity the balances allow, if it is worth settling. */
  ghost predicate EndsRightly(m: Market, f: Funds, a: Attempt, o: Outcome) {
    exists fill: FillQuantity.Fill ::
      && IsFill(Payers(Balance(f.balances, Account(m.quote, BuyerIn(m, a).user)), BuyerIn(m, a).rate,
                       Balance(f.balances, Account(m.base, SellerIn(m, a).user)), !a.buys),
                a.price, m.baseDecimal, a.max, fill)
      && EndsAs(f.deposits, a.taker.relayer, a.maker.relayer, 1000000000000000, fill,
                WorthTrading(PartiesOf(m, a), TermsOf(m, f, a), fill.quantity), o)
  }

  lemma {:induction false} AttemptEnds(m: Market, f: Funds, a: Attempt)
    requires ValidMarket(m) && a.price > 0 && CanPay(f)
    ensures EndsRightly(m, f, a, SettleAttempt(m, f, a).1)
  {
    hide TradeOutcome, IsFill, EndsAs, WorthTrading, SettledFunds;
    var t := AttemptOf(m, f, a);
    TradeOutcomeExactly(t.venue, t.taker, t.maker, t.parties, t.terms, a.max);
    RolesExactly(m, f, a);
    if TradeResult(t, a.max).Settled? { SettledMeans(m, f, a); }
  }

  /** `getTradeQuantity` on the state database does what `SettleAttempt` says. */
  method GetTradeQuantity(db: StateDb, m: Market, a: Attempt, matches: nat) returns (o: Outcome)
    requires ValidMarket(m) && a.price > 0 && db.tokens == m.tokens && db.owners == m.owners
    requires CanPay(Funds(db.balances, db.deposits, matches))
    modifies db
    ensures var (f, r) := SettleAttempt(m, Funds(old(db.balances), old(db.deposits), matches), a);
      o == r && db.balances == f.balances && db.deposits == f.deposits
    ensures EndsRightly(m, Funds(old(db.balances), old(db.deposits), matches), a, o)
    ensures if o.Settled? && o.quantity > 0 then
        && Traded(m, a, o.quantity, old(db.balances), db.balances)
        && FeesPassedOn(m, a, old(db.balances), db.balances) && DepositsCharged(a, old(db.deposits), db.deposits)
      else db.balances == old(db.balances) && db.deposits == old(db.deposits)
  {
    hide AllAllowed, Solvent, NotedOk, NotedAll, MatchFill, SettleBalance, FeeEntries, NativeEntries, Entries;
    hide AppliedAll, WrittenLate, Settles, FeesApart, EndsRightly, Traded, FeesPassedOn, DepositsCharged;
    ghost var f := Funds(db.balances, db.deposits, matches);
    SettledMeans(m, f, a);
    AttemptEnds(m, f, a);
    if Moves(m, f, a) { AttemptMeans(m, f, a); }
    var check := CheckRelayers(db.deposits, a.taker.relayer, a.maker.relayer, RELAYER_FEE);
    if check != FeesPaid {
      return Settled(0, check == MakerLacks);
    }
    var t := TermsOf(m, Funds(db.balances, db.deposits, matches), a);
    var fill := MatchFill(db.balances, PartiesOf(m, a), t, a.max);
    if fill.quantity == 0 {
      return Settled(0, fill.rejectMaker);
    }
    var s := SettleBalance(t, fill.quantity);
    if s.None? {
      return TooSmall(fill.quantity, fill.rejectMaker);
    }
    var ok := db.DoSettleBalance(m.masternodeOwner, OrderOf(a.taker), OrderOf(a.maker), s.value, m.quote);
    o := if ok then Settled(fill.quantity, fill.rejectMaker) else Broken;
  }

  /** By how much one attempt moves the native total. */
  function Shift(m: Market, f: Funds, a: Attempt): int
    requires ValidMarket(m)
  {
    MovedFunds(m, f, a);
    if Moves(m, f, a) then FeeShift(m.masternodeOwner, MatchEntries(m, f, a, SettleAttempt(m, f, a).1.quantity)) else 0
  }

  lemma {:induction false} AttemptTotals(m: Market, f: Funds, a: Attempt, t: Token)
    requires ValidMarket(m)
    ensures Total(SettleAttempt(m, f, a).0.balances, t) ==
      Total(f.balances, t) + if t == NATIVE then Shift(m, f, a) else 0
  {
    hide Total, NotedOk, Solvent, SettleAttempt, FeeShift, WrittenLate, AppliedAll, SettleBalance, Entries, Net;
    hide NativeEntries;
    MovedFunds(m, f, a);
    if Moves(m, f, a) {
      var q := SettleAttempt(m, f, a).1.quantity;
      ThreeNative(f.balances, m.masternodeOwner, RELAYER_FEE);
      EntriesBalance(PartiesOf(m, a), TermsOf(m, f, a), q, t);
      FeesInTotal(f.balances, m.masternodeOwner, MatchEntries(m, f, a, q), t);
    }
  }

  /** By how much a run of attempts moves the native total. */
  function RunShift(m: Market, f: Funds, attempts: seq<Attempt>): int
    requires ValidMarket(m)
  {
    if attempts == [] then 0
    else
      var n := |attempts| - 1;
      RunShift(m, f, attempts[..n]) + Shift(m, SettleAll(SettlerOf(m), f, attempts[..n]), attempts[n])
  }

  /** Over every run of attempts no token but the native one is created or destroyed, and the native total moves by the
      fees that were written over. */
  lemma {:induction false} RunTotals(m: Market, f: Funds, attempts: seq<Attempt>, t: Token)
    requires ValidMarket(m)
    ensures Total(SettleAll(SettlerOf(m), f, attempts).balances, t)
            == Total(f.balances, t) + if t == NATIVE then RunShift(m, f, attempts) else 0
  {
    hide Total, SettleAttempt, Shift;
    if attempts != [] {
      var n := |attempts| - 1;
      RunTotals(m, f, attempts[..n], t);
      AttemptTotals(m, SettleAll(SettlerOf(m), f, attempts[..n]), attempts[n], t);
    }
  }

  /** The addresses whose accounts an attempt may touch. */
  function PartiesIn(m: Market, a: Attempt): set<Address> {
    {a.taker.user, a.maker.user, OwnerOf(m, a.taker.relayer), OwnerOf(m, a.maker.relayer)}
  }

  lemma {:induction false} NamedIsParty(p: Parties, s: Settle, quote: Token, a: Account)
    requires Names(Entries(p, s, quote), a)
    ensures a.owner in {p.taker, p.maker, p.takerOwner, p.makerOwner}
  {
    var e :| e in Entries(p, s, quote) && e.account == a;
  }

  lemma {:induction false} NoShift(m: Market, f: Funds, a: Attempt)
    requires ValidMarket(m) && m.masternodeOwner !in PartiesIn(m, a) && REGISTRATION !in PartiesIn(m, a)
    ensures Shift(m, f, a) == 0
  {
    hide SettleAttempt, NotedOk, Solvent, SettleBalance, Names, Entries, SettledFunds;
    MovedFunds(m, f, a);
    if Moves(m, f, a) {
      var s := SettleBalance(TermsOf(m, f, a), SettleAttempt(m, f, a).1.quantity).value;
      var es := Entries(PartiesOf(m, a), s, m.quote);
      if Names(es, Account(NATIVE, m.masternodeOwner)) {
        NamedIsParty(PartiesOf(m, a), s, m.quote, Account(NATIVE, m.masternodeOwner));
      }
      if Names(es, Account(NATIVE, REGISTRATION)) {
        NamedIsParty(PartiesOf(m, a), s, m.quote, Account(NATIVE, REGISTRATION));
      }
    }
  }

  /** A run without the masternode owner and the contract conserves every token. */
  lemma {:induction false} RunConserves(m: Market, f: Funds, attempts: seq<Attempt>, t: Token)
    requires ValidMarket(m)
    requires forall a :: a in attempts ==> m.masternodeOwner !in PartiesIn(m, a) && REGISTRATION !in PartiesIn(m, a)
    ensures RunShift(m, f, attempts) == 0
    ensures Total(SettleAll(SettlerOf(m), f, attempts).balances, t) == Total(f.balances, t)
  {
    hide Total, SettleAttempt, Shift;
    if attempts != [] {
      var n := |attempts| - 1;
      RunConserves(m, f, attempts[..n], t);
      NoShift(m, SettleAll(SettlerOf(m), f, attempts[..n]), attempts[n]);
    }
    RunTotals(m, f, attempts, t);
  }

  // The deposits and what backs them

  /** The contract holds at least what the relayers have deposited with it. */
  ghost predicate Backed(f: Funds) {
    Balance(f.balances, Account(NATIVE, REGISTRATION)) >= Total(f.deposits, DEPOSIT)
  }

  lemma {:induction false} DepositsBelowTotal(b: Balances, a: Account)
    ensures Balance(b, a) <= Total(b, a.token)
  {
    if a in b {
      SumBounds(OfToken(b, a.token), a);
    } else {
      SumNonNegative(OfToken(b, a.token));
    }
  }

  /** A backed contract can pay the fees of every match that comes to be settled. */
  lemma {:induction false} ContractPays(m: Market, f: Funds, a: Attempt)
    requires ValidMarket(m) && Backed(f) && a.price > 0
    ensures SettleAttempt(m, f, a).1 == TradeResult(AttemptOf(m, f, a), a.max)
  {
    hide TradeOutcome, Total, NotedOk, Solvent, MatchEntries, SettledFunds, SettleBalance;
    var o := TradeResult(AttemptOf(m, f, a), a.max);
    if o.Settled? && o.quantity > 0 {
      SettledMeans(m, f, a);
      DepositsBelowTotal(f.deposits, Account(DEPOSIT, a.taker.relayer));
    }
  }

  lemma {:induction false} DepositsPay(m: Market, f: Funds, a: Attempt)
    requires ValidMarket(m)
    ensures var f' := SettleAttempt(m, f, a).0;
      && f'.matches == f.matches + |SettledBy(SettleAttempt(m, f, a).1)|
      && Total(f'.deposits, DEPOSIT) == Total(f.deposits, DEPOSIT) - 2 * RELAYER_FEE * (f'.matches - f.matches)
  {
    hide Total, NotedOk, Solvent, SettleAttempt, WrittenLate, AppliedAll, SettleBalance, MatchEntries, NativeEntries;
    MovedFunds(m, f, a);
    if Moves(m, f, a) {
      AppliedAllTotal(f.deposits, DepositFees(a), DEPOSIT);
      FewNet(DepositFees(a), DEPOSIT);
    }
  }

  lemma {:induction false} StaysBacked(m: Market, f: Funds, a: Attempt)
    requires ValidMarket(m) && Backed(f) && REGISTRATION !in PartiesIn(m, a)
    ensures Backed(SettleAttempt(m, f, a).0)
  {
    hide Total, NotedOk, Solvent, SettleAttempt, WrittenLate, AppliedAll, SettleBalance, Entries, NativeEntries;
    hide Names, Change;
    MovedFunds(m, f, a);
    DepositsPay(m, f, a);
    if Moves(m, f, a) {
      var contract := Account(NATIVE, REGISTRATION);
      var q := SettleAttempt(m, f, a).1.quantity;
      var s := SettleBalance(TermsOf(m, f, a), q).value;
      ThreeNative(f.balances, m.masternodeOwner, RELAYER_FEE);
      LateBalance(f.balances, FeesOf(m), MatchEntries(m, f, a, q), contract);
      NativeChange(m.masternodeOwner, RELAYER_FEE, contract);
      if Names(MatchEntries(m, f, a, q), contract) { NamedIsParty(PartiesOf(m, a), s, m.quote, contract); }
    }
  }

  /** Over every run the deposits shrink by both fees of each match, and the contract stays able to back them. */
  lemma {:induction false} RunStaysBacked(m: Market, f: Funds, attempts: seq<Attempt>)
    requires ValidMarket(m) && Backed(f)
    requires forall a :: a in attempts ==> REGISTRATION !in PartiesIn(m, a)
    ensures var f' := SettleAll(SettlerOf(m), f, attempts);
      && Backed(f') && f'.matches == f.matches + |SettledOf(SettlerOf(m), f, attempts)|
      && Total(f'.deposits, DEPOSIT) == Total(f.deposits, DEPOSIT) - 2 * RELAYER_FEE * (f'.matches - f.matches)
  {
    hide Total, SettleAttempt, Backed, PartiesIn;
    if attempts != [] {
      var n := |attempts| - 1;
      RunStaysBacked(m, f, attempts[..n]);
      var mid := SettleAll(SettlerOf(m), f, attempts[..n]);
      StaysBacked(m, mid, attempts[n]);
      DepositsPay(m, mid, attempts[n]);
    }
  }

  // Runs of orders

  /** Neither of them issues orders or owns a relayer that orders come through. */
  predicate Outside(m: Market, x: Address, known: set<Issuer>) {
    forall i :: i in known ==> x != i.user && x != OwnerOf(m, i.relayer)
  }

  /** Every run of orders, with failing orders reverted in book and funds alike: bids stay below asks, only native
      tokens can change their total, by exactly the fees written over, and not even those when the masternode owner
      does not trade; the contract keeps backing the deposits. */
  method TradeAll(book: Book<Funds>, orders: seq<Request>, m: Market, ghost known: set<Issuer>)
    returns (ghost attempts: seq<Attempt>)
    requires book.Valid() && book.AllKnown(known) && forall o :: o in orders ==> o.issuer in known
    requires ValidMarket(m) && Backed(book.ledger) && Outside(m, REGISTRATION, known)
    modifies book
    ensures book.Valid() && Uncrossed(book.bids, book.asks) && Backed(book.ledger)
    ensures forall t ::
      Total(book.ledger.balances, t) == Total(old(book.ledger).balances, t)
        + if t == NATIVE then RunShift(m, old(book.ledger), attempts) else 0
    ensures Outside(m, m.masternodeOwner, known) ==> RunShift(m, old(book.ledger), attempts) == 0
    ensures Total(book.ledger.deposits, DEPOSIT) == Total(old(book.ledger).deposits, DEPOSIT)
      - 2 * RELAYER_FEE * (book.ledger.matches - old(book.ledger).matches)
  {
    hide Total, SettleAttempt, Backed, Shift, Reliable;
    ghost var f := book.ledger;
    SettlerIsReliable(m);
    attempts := book.ApplyAll(orders, SettlerOf(m), known);
    forall t ensures Total(book.ledger.balances, t)
      == Total(f.balances, t) + if t == NATIVE then RunShift(m, f, attempts) else 0
    {
      RunTotals(m, f, attempts, t);
    }
    RunStaysBacked(m, f, attempts);
    if Outside(m, m.masternodeOwner, known) { RunConserves(m, f, attempts, NATIVE); }
  }
}
