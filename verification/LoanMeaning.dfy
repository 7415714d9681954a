/** What the steps of a loan's life mean for its parties, said without the formulas that compute it: who pays whom how
    much, with every amount pinned between its two roundings. */
module LoanMeaning {
  import opened Options
  import opened FillQuantity
  import opened Ledger
  import opened LendSettlement
  import opened Loans
  import opened LoanSteps
  import opened LoanEnds

  // Payments

  /** The only change is one payment. */
  ghost predicate Paid(b: Balances, b': Balances, source: Account, target: Account, n: nat) {
    forall a :: Balance(b', a) == Balance(b, a) + Moved(source, target, n, a)
  }

  /** The only change is two payments. */
  ghost predicate PaidTwo(b: Balances, b': Balances, source: Account, target: Account, n: nat, source2: Account,
                          target2: Account, n2: nat) {
    forall a :: Balance(b', a) == Balance(b, a) + Moved(source, target, n, a) + Moved(source2, target2, n2, a)
  }

  // Opening

  /** What is recorded of a match of `q` opened now: the match, the collateral and liquidation price that its rates call
      for, and the conditions of the maker's order. */
  predicate IsNewLoan(t: Trade, terms: LendTerms, liquidationRate: nat, q: nat, now: nat, term: nat, interest: nat,
                      borrower: Address, investor: Address, autoTopUp: bool) {
    && t.pair.collateral == terms.collateral && t.pair.lend == terms.lend && t.amount == q
    && IsCollateral(t.locked, q, terms.price, terms.decimal, terms.depositRate)
    && IsFloor(t.price, terms.price * liquidationRate, terms.depositRate)
    && t.time - t.term == now && t.term == term && t.interest == interest
    && t.borrower == borrower && t.investor == investor && t.autoTopUp == autoTopUp
  }

  lemma {:induction false} NewTradeExactly(t: Trade, terms: LendTerms, liquidationRate: nat, q: nat, now: nat,
                                           term: nat, interest: nat, borrower: Address, investor: Address,
                                           autoTopUp: bool)
    requires ValidLend(terms)
    ensures t == NewTrade(terms, liquidationRate, q, now, term, interest, borrower, investor, autoTopUp) <==>
      IsNewLoan(t, terms, liquidationRate, q, now, term, interest, borrower, investor, autoTopUp)
  {
    hide IsCollateral, IsFloor, Collateral;
    CollateralExactly(q, terms.price, terms.decimal, terms.depositRate, t.locked);
    FloorIs(t.price, terms.price * liquidationRate, terms.depositRate);
  }

  // Interest

  /** The seconds borrowed, from the start of the term on, in 64-bit arithmetic. */
  predicate IsBorrowed(now: nat, t: Trade, borrowed: nat) {
    borrowed < 0x1_0000_0000_0000_0000 && (t.time - t.term + borrowed - now) % 0x1_0000_0000_0000_0000 == 0
  }

  /** `rate` is the yearly rate for half of the term and the time borrowed taken together. */
  ghost predicate IsRate(now: nat, t: Trade, rate: nat) {
    exists borrowed: nat, half: nat ::
      IsBorrowed(now, t, borrowed) && IsFloor(half, t.term + borrowed, 2) && IsFloor(rate, t.interest * half, 31536000)
  }

  /** `x` is `amount` with interest; a rate of 10^10 is 100%. */
  ghost predicate IsPayment(now: nat, t: Trade, amount: nat, x: nat) {
    exists rate: nat :: IsRate(now, t, rate) && IsFloor(x, amount * (10000000000 + rate), 10000000000)
  }

  lemma {:induction false} BorrowedExactly(now: nat, t: Trade, borrowed: nat)
    ensures IsBorrowed(now, t, borrowed) <==> borrowed == (now - (t.time - t.term) % UINT64) % UINT64
  {
    var start := (t.time - t.term) % UINT64;
    Wrapped(now - start, borrowed);
    assert (t.time - t.term + borrowed - now) % UINT64 == 0 <==> (start + borrowed - now) % UINT64 == 0;
  }

  /** Two numbers below a bound that differ by a multiple of it are equal. */
  lemma {:induction false} Wrapped(x: int, y: nat)
    ensures y < UINT64 && (y - x) % UINT64 == 0 <==> y == x % UINT64
  {
  }

  lemma {:induction false} RateExactly(now: nat, t: Trade, x: nat)
    ensures x == InterestRate(now, t) <==> IsRate(now, t, x)
  {
    var borrowed := (now - (t.time - t.term) % UINT64) % UINT64;
    var half := (t.term + borrowed) / 2;
    BorrowedExactly(now, t, borrowed);
    FloorIs(half, t.term + borrowed, 2);
    FloorIs(x, t.interest * half, ONE_YEAR);
    if IsRate(now, t, x) {
      var b: nat, h: nat :| IsBorrowed(now, t, b) && IsFloor(h, t.term + b, 2) && IsFloor(x, t.interest * h, 31536000);
      BorrowedExactly(now, t, b);
      FloorIs(h, t.term + b, 2);
    }
  }

  lemma {:induction false} PaymentExactly(now: nat, t: Trade, amount: nat, x: nat)
    ensures x == TotalRepay(now, t, amount) <==> IsPayment(now, t, amount, x)
  {
    hide IsRate, InterestRate;
    var rate := InterestRate(now, t);
    RateExactly(now, t, rate);
    FloorIs(x, amount * (INTEREST_DECIMAL + rate), INTEREST_DECIMAL);
    if IsPayment(now, t, amount, x) {
      var r: nat :| IsRate(now, t, r) && IsFloor(x, amount * (10000000000 + r), 10000000000);
      RateExactly(now, t, r);
    }
  }

  /** A time within the term of a loan. */
  predicate Within(t: Trade, now: nat) {
    t.term <= t.time < UINT64 && t.time - t.term <= now <= t.time
  }

  lemma {:induction false} BorrowedWithin(t: Trade, now: nat, borrowed: nat)
    requires Within(t, now)
    ensures IsBorrowed(now, t, borrowed) <==> borrowed == now - (t.time - t.term)
  {
    BorrowedExactly(now, t, borrowed);
  }

  lemma {:induction false} RateWithin(t: Trade, now: nat, half: nat)
    requires Within(t, now) && IsFloor(half, t.term + (now - (t.time - t.term)), 2)
    ensures IsFloor(InterestRate(now, t), t.interest * half, ONE_YEAR)
  {
    hide InterestRate;
    var rate := InterestRate(now, t);
    RateExactly(now, t, rate);
    var b: nat, h: nat :| IsBorrowed(now, t, b) && IsFloor(h, t.term + b, 2) && IsFloor(rate, t.interest * h, 31536000);
    BorrowedWithin(t, now, b);
  }

  /** A loan that runs for its whole term costs the yearly rate for that term. */
  lemma {:induction false} WholeTermRate(t: Trade)
    requires t.term <= t.time < UINT64
    ensures IsFloor(InterestRate(t.time, t), t.interest * t.term, ONE_YEAR)
  {
    RateWithin(t, t.time, t.term);
  }

  /** One that is closed at once costs half of that. */
  lemma {:induction false} ClosedAtOnceRate(t: Trade)
    requires t.term <= t.time < UINT64
    ensures IsFloor(InterestRate(t.time - t.term, t), t.interest * (t.term / 2), ONE_YEAR)
  {
    RateWithin(t, t.time - t.term, t.term / 2);
  }

  /** In between, waiting never makes it cheaper. */
  lemma {:induction false} RateNeverFalls(t: Trade, now: nat, later: nat, amount: nat)
    requires Within(t, now) && Within(t, later) && now <= later
    ensures InterestRate(now, t) <= InterestRate(later, t)
    ensures amount <= TotalRepay(now, t, amount) <= TotalRepay(later, t, amount)
  {
    hide InterestRate;
    var half, half' := (t.term + (now - (t.time - t.term))) / 2, (t.term + (later - (t.time - t.term))) / 2;
    RateWithin(t, now, half);
    RateWithin(t, later, half');
    var r, r' := InterestRate(now, t), InterestRate(later, t);
    MulMonotone(half, half', t.interest);
    if r > r' { MulMonotone(r' + 1, r, ONE_YEAR); }
    RepayAtLeast(now, t, amount);
    MulMonotone(INTEREST_DECIMAL + r, INTEREST_DECIMAL + r', amount);
    FloorMonotone(amount * (INTEREST_DECIMAL + r), amount * (INTEREST_DECIMAL + r'), INTEREST_DECIMAL);
  }

  /** What is owed of the collateral when a loan expires: the part that was worth the loan, with the interest on what it
      is worth without the margin for liquidation; all of it when the pair has no price. */
  ghost predicate IsDue(t: Trade, c: Context, due: nat) {
    if c.price == 0 then due == t.locked
    else exists repay: nat, lent: nat, x: nat ::
      && IsFloor(repay, t.locked * t.price, c.price) && IsFloor(lent, repay * 100, c.liquidationRate)
      && IsPayment(c.now, t, lent, x) && due == repay + x - lent
  }

  lemma {:induction false} DueExactly(t: Trade, c: Context, due: nat)
    requires Rated(c)
    ensures due == Due(t, c) <==> IsDue(t, c, due)
  {
    hide TotalRepay, IsPayment;
    if c.price > 0 {
      var repay := t.locked * t.price / c.price;
      var lent := repay * 100 / c.liquidationRate;
      FloorIs(repay, t.locked * t.price, c.price);
      FloorIs(lent, repay * 100, c.liquidationRate);
      PaymentExactly(c.now, t, lent, TotalRepay(c.now, t, lent));
      RepayAtLeast(c.now, t, lent);
      if IsDue(t, c, due) {
        var r: nat, l: nat, x: nat :|
          && IsFloor(r, t.locked * t.price, c.price) && IsFloor(l, r * 100, c.liquidationRate)
          && IsPayment(c.now, t, l, x) && due == r + x - l;
        FloorIs(r, t.locked * t.price, c.price);
        FloorIs(l, r * 100, c.liquidationRate);
        PaymentExactly(c.now, t, l, x);
      }
    }
  }

  // Ends

  /** The borrower pays amount and interest to the investor and gets the collateral back. */
  ghost predicate Closes(b: Balances, b': Balances, t: Trade, c: Context) {
    exists x: nat ::
      && IsPayment(c.now, t, t.amount, x) && x <= Balance(b, Account(t.pair.lend, t.borrower))
      && PaidTwo(b, b', Account(t.pair.lend, t.borrower), Account(t.pair.lend, t.investor), x,
                 Account(t.pair.collateral, LOCK), Account(t.pair.collateral, t.borrower), t.locked)
  }

  /** The borrower does not have amount and interest. */
  ghost predicate CannotPay(b: Balances, t: Trade, c: Context) {
    forall x: nat :: IsPayment(c.now, t, t.amount, x) ==> Balance(b, Account(t.pair.lend, t.borrower)) < x
  }

  /** The investor gets all of the collateral. */
  ghost predicate Liquidates(b: Balances, b': Balances, t: Trade) {
    Paid(b, b', Account(t.pair.collateral, LOCK), Account(t.pair.collateral, t.investor), t.locked)
  }

  /** The investor gets what is due of the collateral, the borrower the rest. */
  ghost predicate Expires(b: Balances, b': Balances, t: Trade, c: Context) {
    exists due: nat ::
      && IsDue(t, c, due)
      && var repay := if due < t.locked then due else t.locked;
         PaidTwo(b, b', Account(t.pair.collateral, LOCK), Account(t.pair.collateral, t.borrower), t.locked - repay,
                 Account(t.pair.collateral, LOCK), Account(t.pair.collateral, t.investor), repay)
  }

  /** What repaying a loan comes to, for every ending. */
  ghost predicate RepaidAs(b: Balances, b': Balances, t: Trade, c: Context, ending: Ending) {
    match ending
    case Closing => Closes(b, b', t, c)
    case Refused => CannotPay(b, t, c) && t.time > c.now
    case DivisionByZero => CannotPay(b, t, c) && t.time <= c.now && c.fork && c.price > 0 && c.liquidationRate == 0
    case Liquidation =>
      CannotPay(b, t, c) && t.time <= c.now && if c.fork then Expires(b, b', t, c) else Liquidates(b, b', t)
  }

  lemma {:induction false} LiquidationMeans(s: State, k: Key)
    requires Inv(s) && k in s.trades
    ensures Liquidates(s.balances, Liquidated(s, k).balances, s.trades[k])
  {
    hide AppliedAll, Solvent, Inv, MovesIn, Change;
    var t, es := s.trades[k], LiquidationEntries(s.trades[k]);
    Booked(s, k);
    LiquidationMoves(s.balances, t);
    Two(s.balances, es[0], es[1]);
    forall a ensures Balance(AppliedAll(s.balances, es), a) == Balance(s.balances, a) +
      Moved(Account(t.pair.collateral, LOCK), Account(t.pair.collateral, t.investor), t.locked, a)
    {
      AppliedChange(s.balances, es, a);
    }
  }

  lemma {:induction false} Booked(s: State, k: Key)
    requires Inv(s) && k in s.trades
    ensures GoodTrade(s.trades[k]) && Balance(s.balances, Held(s.trades[k])) >= s.trades[k].locked
  {
    EscrowCovers(s.trades, s.balances, k);
  }

  lemma {:induction false} ExpiryPays(b: Balances, t: Trade, c: Context)
    requires Rated(c) && GoodTrade(t) && Balance(b, Held(t)) >= t.locked
    ensures Solvent(b, ExpiryEntries(t, c))
    ensures var repay := if Due(t, c) < t.locked then Due(t, c) else t.locked;
      PaidTwo(b, AppliedAll(b, ExpiryEntries(t, c)),
              Account(t.pair.collateral, LOCK), Account(t.pair.collateral, t.borrower), t.locked - repay,
              Account(t.pair.collateral, LOCK), Account(t.pair.collateral, t.investor), repay)
  {
    hide AppliedAll, Solvent, MovesIn, Change, Due;
    var es := ExpiryEntries(t, c);
    ExpiryMoves(b, t, c);
    if |es| == 3 { Three(b, es[0], es[1], es[2]); } else { Two(b, es[0], es[1]); }
    forall a ensures Balance(AppliedAll(b, es), a) == Balance(b, a) + Change(es, a) { AppliedChange(b, es, a); }
  }

  lemma {:induction false} ExpiryMeans(s: State, k: Key, c: Context)
    requires Inv(s) && k in s.trades && Rated(c)
    ensures Expires(s.balances, Expired(s, k, c).balances, s.trades[k], c)
  {
    hide AppliedAll, Solvent, Inv, MovesIn, Due, IsDue, PaidTwo, ExpiryEntries;
    Booked(s, k);
    DueExactly(s.trades[k], c, Due(s.trades[k], c));
    ExpiryPays(s.balances, s.trades[k], c);
  }

  lemma {:induction false} RepayPays(b: Balances, t: Trade, x: nat)
    requires GoodTrade(t) && Balance(b, Held(t)) >= t.locked && Balance(b, Account(t.pair.lend, t.borrower)) >= x
    ensures Solvent(b, RepayEntries(t, x))
    ensures PaidTwo(b, AppliedAll(b, RepayEntries(t, x)), Account(t.pair.lend, t.borrower),
                    Account(t.pair.lend, t.investor), x,
                    Account(t.pair.collateral, LOCK), Account(t.pair.collateral, t.borrower), t.locked)
  {
    hide AppliedAll, Solvent, MovesIn, Change;
    var es := RepayEntries(t, x);
    RepayMoves(b, t, x);
    Four(b, es[0], es[1], es[2], es[3]);
    forall a ensures Balance(AppliedAll(b, es), a) == Balance(b, a) + Change(es, a) { AppliedChange(b, es, a); }
  }

  lemma {:induction false} CannotPayExactly(b: Balances, t: Trade, c: Context)
    ensures CannotPay(b, t, c) <==> Balance(b, Account(t.pair.lend, t.borrower)) < TotalRepay(c.now, t, t.amount)
  {
    hide TotalRepay, IsPayment;
    PaymentExactly(c.now, t, t.amount, TotalRepay(c.now, t, t.amount));
    forall x: nat | IsPayment(c.now, t, t.amount, x) ensures x == TotalRepay(c.now, t, t.amount) {
      PaymentExactly(c.now, t, t.amount, x);
    }
  }

  /** Every way a repayment can end, for every state. */
  lemma {:induction false} RepayMeans(s: State, k: Key, c: Context)
    requires Inv(s) && k in s.trades
    ensures var ending := EndingOf(s.balances, s.trades[k], c);
      RepaidAs(s.balances, if ending == DivisionByZero then s.balances else OrElse(Repaid(s, k, c), s).balances,
               s.trades[k], c, ending)
  {
    hide AppliedAll, Solvent, Inv, MovesIn, TotalRepay, IsPayment, PaidTwo, RepayEntries, Liquidated, Expired,
      CannotPay, Liquidates, Expires;
    var t := s.trades[k];
    Booked(s, k);
    CannotPayExactly(s.balances, t, c);
    match EndingOf(s.balances, t, c)
    case Closing =>
      PaymentExactly(c.now, t, t.amount, TotalRepay(c.now, t, t.amount));
      RepayPays(s.balances, t, TotalRepay(c.now, t, t.amount));
    case Liquidation =>
      if c.fork { ExpiryMeans(s, k, c); } else { LiquidationMeans(s, k); }
    case Refused =>
    case DivisionByZero =>
  }

  // Top-up and recall

  /** The borrower adds to the collateral, and the liquidation price falls so that price times collateral stays, up to
      rounding, what it was. */
  ghost predicate TopsUp(b: Balances, b': Balances, t: Trade, t': Trade, quantity: nat) {
    && t' == t.(price := t'.price, locked := t.locked + quantity)
    && IsFloor(t'.price, t.price * t.locked, t.locked + quantity)
    && quantity <= Balance(b, Account(t.pair.collateral, t.borrower))
    && Paid(b, b', Account(t.pair.collateral, t.borrower), Account(t.pair.collateral, LOCK), quantity)
  }

  /** The top-up asked for at `price`: it brings the collateral to what 90% of that price calls for. */
  ghost predicate IsDeposit(t: Trade, price: nat, quantity: nat) {
    exists target: nat :: IsFloor(target, price * 90, 100) && IsFloor(t.locked + quantity, t.locked * t.price, target)
  }

  /** The borrower gets back what the new, higher liquidation price no longer calls for. */
  ghost predicate GivesBack(b: Balances, b': Balances, t: Trade, t': Trade, price: nat) {
    && t' == t.(price := price, locked := t'.locked) && t'.locked <= t.locked
    && IsFloor(t'.locked, t.locked * t.price, price)
    && Paid(b, b', Account(t.pair.collateral, LOCK), Account(t.pair.collateral, t.borrower), t.locked - t'.locked)
  }

  lemma {:induction false} TopUpMeans(s: State, k: Key, quantity: nat)
    requires Inv(s) && k in s.trades && quantity + s.trades[k].locked > 0
    ensures ToppedUp(s, k, quantity).Some? <==>
      quantity <= Balance(s.balances, Account(s.trades[k].pair.collateral, s.trades[k].borrower))
    ensures ToppedUp(s, k, quantity).Some? ==>
      var s' := ToppedUp(s, k, quantity).value;
      && k in s'.trades && s'.trades == s.trades[k := s'.trades[k]]
      && TopsUp(s.balances, s'.balances, s.trades[k], s'.trades[k], quantity)
  {
    hide AppliedAll, Solvent, Inv, MovesIn, Change, IsFloor;
    var t, es, b := s.trades[k], TopUpEntries(s.trades[k], quantity), s.balances;
    if ToppedUp(s, k, quantity).Some? {
      Booked(s, k);
      TopUpMoves(b, t, quantity);
      Two(b, es[0], es[1]);
      FloorIs(ToppedUpPrice(t, quantity), t.price * t.locked, t.locked + quantity);
      forall a ensures Balance(AppliedAll(b, es), a) == Balance(b, a) + Change(es, a) { AppliedChange(b, es, a); }
    }
  }

  lemma {:induction false} DepositExactly(t: Trade, price: nat, quantity: nat)
    requires TopUpTarget(price) > 0
    ensures t.locked + quantity == RequiredLocked(t, TopUpTarget(price)) <==> IsDeposit(t, price, quantity)
  {
    hide IsFloor;
    FloorIs(TopUpTarget(price), price * 90, 100);
    FloorIs(t.locked + quantity, t.locked * t.price, TopUpTarget(price));
    if IsDeposit(t, price, quantity) {
      var target: nat :| IsFloor(target, price * 90, 100) && IsFloor(t.locked + quantity, t.locked * t.price, target);
      FloorIs(target, price * 90, 100);
    }
  }

  /** An automatic top-up asks for exactly one deposit and succeeds if and only if the borrower has it. */
  lemma {:induction false} AutoTopUpMeans(s: State, k: Key, price: nat, quantity: nat)
    requires Inv(s) && k in s.trades && price < s.trades[k].price && TopUpTarget(price) > 0 && s.trades[k].locked > 0
    requires IsDeposit(s.trades[k], price, quantity)
    ensures AutoToppedUp(s, k, price).Some? <==>
      quantity <= Balance(s.balances, Account(s.trades[k].pair.collateral, s.trades[k].borrower))
    ensures AutoToppedUp(s, k, price).Some? ==>
      var s' := AutoToppedUp(s, k, price).value;
      && k in s'.trades && s'.trades == s.trades[k := s'.trades[k]]
      && TopsUp(s.balances, s'.balances, s.trades[k], s'.trades[k], quantity)
  {
    hide Inv, ToppedUp, IsDeposit, TopsUp, RequiredLocked, TopUpTarget;
    DepositExactly(s.trades[k], price, quantity);
    DepositNonNegative(s.trades[k], price);
    TopUpMeans(s, k, quantity);
  }

  lemma {:induction false} RecallMeans(s: State, k: Key, price: nat)
    requires Inv(s) && k in s.trades
    ensures Recalled(s, k, price).Some? <==> price > s.trades[k].price
    ensures Recalled(s, k, price).Some? ==>
      var s' := Recalled(s, k, price).value;
      && k in s'.trades && s'.trades == s.trades[k := s'.trades[k]]
      && GivesBack(s.balances, s'.balances, s.trades[k], s'.trades[k], price)
  {
    hide AppliedAll, Solvent, MovesIn, Change, IsFloor, EscrowOk, TradesOk, PricesOk, TimesOk, IdsOk;
    if price > s.trades[k].price {
      var t, b := s.trades[k], s.balances;
      RecalledIsLess(t, price);
      var amount := t.locked - RecalledLocked(t, price);
      var es := RecallEntries(t, amount);
      Booked(s, k);
      RecallMoves(b, t, amount);
      Two(b, es[0], es[1]);
      FloorIs(RecalledLocked(t, price), t.locked * t.price, price);
      forall a ensures Balance(AppliedAll(b, es), a) == Balance(b, a) + Change(es, a) { AppliedChange(b, es, a); }
    }
  }
}
