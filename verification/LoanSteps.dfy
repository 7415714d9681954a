/** The steps of a loan's life (BRCxlending/order_processor.go): top-up, recall, repayment, liquidation and
    expiry, with their floor-rounded amounts. A step that reports an error is None. */
module LoanSteps {
  import opened Options
  import opened FillQuantity
  import opened Ledger
  import opened LendSettlement
  import opened Loans

  // Entries

  lemma {:induction false} ChangeCons(e: Entry, es: seq<Entry>, a: Account)
    ensures Change([e] + es, a) == ChangeBy(e, a) + Change(es, a)
  {
    assert ([e] + es)[1..] == es;
  }

  lemma {:induction false} Two(b: Balances, x: Entry, y: Entry)
    ensures Solvent(b, [x, y]) <==> Covered(b, x) && Covered(Applied(b, x), y)
    ensures Solvent(b, [x, y]) ==> AppliedAll(b, [x, y]) == Applied(Applied(b, x), y)
    ensures forall a :: Change([x, y], a) == ChangeBy(x, a) + ChangeBy(y, a)
  {
    assert [x, y] == [x] + [y] && [y] == [y] + [];
    AppliedCons(b, x, [y]);
    if Covered(b, x) { AppliedCons(Applied(b, x), y, []); }
    forall a ensures Change([x, y], a) == ChangeBy(x, a) + ChangeBy(y, a) {
      ChangeCons(x, [y], a);
      ChangeCons(y, [], a);
    }
  }

  lemma {:induction false} Three(b: Balances, x: Entry, y: Entry, z: Entry)
    ensures Solvent(b, [x, y, z]) <==>
      Covered(b, x) && Covered(Applied(b, x), y) && Covered(Applied(Applied(b, x), y), z)
    ensures Solvent(b, [x, y, z]) ==> AppliedAll(b, [x, y, z]) == Applied(Applied(Applied(b, x), y), z)
    ensures forall a :: Change([x, y, z], a) == ChangeBy(x, a) + ChangeBy(y, a) + ChangeBy(z, a)
  {
    hide Applied, Covered, ChangeBy;
    assert [x, y, z] == [x] + [y, z];
    AppliedCons(b, x, [y, z]);
    if Covered(b, x) { Two(Applied(b, x), y, z); }
    forall a ensures Change([x, y, z], a) == ChangeBy(x, a) + ChangeBy(y, a) + ChangeBy(z, a) {
      ChangeCons(x, [y, z], a);
      Two(b, y, z);
    }
  }

  lemma {:induction false} Four(b: Balances, w: Entry, x: Entry, y: Entry, z: Entry)
    ensures Solvent(b, [w, x, y, z]) <==>
      && Covered(b, w) && Covered(Applied(b, w), x) && Covered(Applied(Applied(b, w), x), y)
      && Covered(Applied(Applied(Applied(b, w), x), y), z)
    ensures Solvent(b, [w, x, y, z]) ==>
      AppliedAll(b, [w, x, y, z]) == Applied(Applied(Applied(Applied(b, w), x), y), z)
    ensures forall a :: Change([w, x, y, z], a) == ChangeBy(w, a) + ChangeBy(x, a) + ChangeBy(y, a) + ChangeBy(z, a)
  {
    hide Applied, Covered, ChangeBy;
    assert [w, x, y, z] == [w] + [x, y, z];
    AppliedCons(b, w, [x, y, z]);
    if Covered(b, w) { Three(Applied(b, w), x, y, z); }
    forall a ensures Change([w, x, y, z], a) == ChangeBy(w, a) + ChangeBy(x, a) + ChangeBy(y, a) + ChangeBy(z, a) {
      ChangeCons(w, [x, y, z], a);
      Three(b, x, y, z);
    }
  }

  function Held(t: Trade): Account {
    Account(t.pair.collateral, LOCK)
  }

  function Owned(t: Trade): Account {
    Account(t.pair.collateral, t.borrower)
  }

  // Opening

  /** The match that opens a loan moves exactly the collateral into the escrow. */
  lemma {:induction false} MatchMovesCollateral(p: Settlement.Parties, terms: LendTerms, q: nat)
    requires ValidLend(terms) && LendBalance(terms, q).Some?
    requires LOCK !in {p.taker, p.maker, p.takerOwner, p.makerOwner}
    ensures MovesIn(LendEntries(p, terms.takerBorrows, LendBalance(terms, q).value), terms.collateral, Locked(terms, q))
  {
    hide FeeOn, Collateral, LendTooSmall;
    var es := LendEntries(p, terms.takerBorrows, LendBalance(terms, q).value);
    forall u ensures Change(es, Account(u, LOCK)) == if u == terms.collateral then Locked(terms, q) else 0 {
      ChangeCons(es[0], [es[1], es[2], es[3], es[4]], Account(u, LOCK));
      assert es == [es[0]] + [es[1], es[2], es[3], es[4]];
      Four(map[], es[1], es[2], es[3], es[4]);
    }
  }

  /** The trade a match of quantity `q` records. */
  function NewTrade(t: LendTerms, liquidationRate: nat, q: nat, now: nat, term: nat, interest: nat,
                    borrower: Address, investor: Address, autoTopUp: bool): Trade
    requires ValidLend(t)
  {
    Trade(Pair(t.collateral, t.lend), borrower, investor, q, Locked(t, q), t.price * liquidationRate / t.depositRate,
          now + term, term, interest, autoTopUp)
  }

  /** A match opens its loan with everything in step, and with a liquidation price not above the collateral price
      when the liquidation rate does not exceed the deposit rate. */
  lemma {:induction false} MatchOpensLoan(s: State, book: nat, p: Settlement.Parties, terms: LendTerms,
                                          liquidationRate: nat, q: nat,
                                          now: nat, term: nat, interest: nat, autoTopUp: bool)
    requires Inv(s) && ValidLend(terms) && LendBalance(terms, q).Some? && now > 0
    requires LOCK !in {p.taker, p.maker, p.takerOwner, p.makerOwner}
    requires Solvent(s.balances, LendEntries(p, terms.takerBorrows, LendBalance(terms, q).value))
    ensures var borrower, investor := if terms.takerBorrows then p.taker else p.maker,
                                      if terms.takerBorrows then p.maker else p.taker;
      var t := NewTrade(terms, liquidationRate, q, now, term, interest, borrower, investor, autoTopUp);
      && Inv(Opened(s, book, t, LendEntries(p, terms.takerBorrows, LendBalance(terms, q).value)))
      && (liquidationRate <= terms.depositRate ==> t.price <= terms.price)
  {
    hide Inv, Solvent, LendEntries, FeeOn, Collateral;
    var t := NewTrade(terms, liquidationRate, q, now, term, interest, if terms.takerBorrows then p.taker else p.maker,
                      if terms.takerBorrows then p.maker else p.taker, autoTopUp);
    MatchMovesCollateral(p, terms, q);
    OpenedKeeps(s, book, t, LendEntries(p, terms.takerBorrows, LendBalance(terms, q).value));
    if liquidationRate <= terms.depositRate {
      MulMonotone(liquidationRate, terms.depositRate, terms.price);
      FloorBelow(terms.price * liquidationRate, terms.depositRate);
      CancelFactor(t.price, terms.price, terms.depositRate);
    }
  }

  // Top-up and recall

  const RATE_TOP_UP: nat := 90
  const BASE_TOP_UP: nat := 100

  function ToppedUpPrice(t: Trade, quantity: nat): nat
    requires quantity + t.locked > 0
  {
    t.price * t.locked / (quantity + t.locked)
  }

  function RecalledLocked(t: Trade, price: nat): nat
    requires price > 0
  {
    t.locked * t.price / price
  }

  lemma {:induction false} RecalledIsLess(t: Trade, price: nat)
    requires price > t.price
    ensures RecalledLocked(t, price) <= t.locked
  {
    FloorBelow(t.locked * t.price, price);
    MulMonotone(t.price, price, t.locked);
    CancelFactor(RecalledLocked(t, price), t.locked, price);
  }

  function TopUpEntries(t: Trade, quantity: nat): seq<Entry> {
    [Debit(Owned(t), quantity), Credit(Held(t), quantity)]
  }

  lemma {:induction false} TopUpMoves(b: Balances, t: Trade, quantity: nat)
    requires t.borrower != LOCK && Balance(b, Owned(t)) >= quantity
    ensures Solvent(b, TopUpEntries(t, quantity)) && MovesIn(TopUpEntries(t, quantity), t.pair.collateral, quantity)
  {
    Two(b, Debit(Owned(t), quantity), Credit(Held(t), quantity));
  }

  /** `ProcessTopUpLendingTrade`. */
  ghost function ToppedUp(s: State, k: Key, quantity: nat): Option<State>
    requires Inv(s) && (k in s.trades ==> quantity + s.trades[k].locked > 0)
  {
    if k !in s.trades || Balance(s.balances, Owned(s.trades[k])) < quantity then None
    else
      var t := s.trades[k];
      TopUpMoves(s.balances, t, quantity);
      Some(Repriced(s, k, ToppedUpPrice(t, quantity), quantity + t.locked, TopUpEntries(t, quantity)))
  }

  function RecallEntries(t: Trade, amount: nat): seq<Entry> {
    [Credit(Owned(t), amount), Debit(Held(t), amount)]
  }

  lemma {:induction false} RecallMoves(b: Balances, t: Trade, amount: nat)
    requires t.borrower != LOCK && Balance(b, Held(t)) >= amount
    ensures Solvent(b, RecallEntries(t, amount))
    ensures MovesIn(RecallEntries(t, amount), t.pair.collateral, -(amount as int))
  {
    Two(b, Credit(Owned(t), amount), Debit(Held(t), amount));
  }

  /** `ProcessRecallLendingTrade`. */
  ghost function Recalled(s: State, k: Key, price: nat): Option<State>
    requires Inv(s)
  {
    if k !in s.trades || price <= s.trades[k].price then None
    else
      var t := s.trades[k];
      RecalledIsLess(t, price);
      var amount := t.locked - RecalledLocked(t, price);
      EscrowCovers(s.trades, s.balances, k);
      RecallMoves(s.balances, t, amount);
      Some(Repriced(s, k, price, RecalledLocked(t, price), RecallEntries(t, amount)))
  }

  lemma {:induction false} TopUpKeeps(s: State, k: Key, quantity: nat)
    requires Inv(s) && (k in s.trades ==> quantity + s.trades[k].locked > 0)
    ensures ToppedUp(s, k, quantity).Some? ==> Inv(ToppedUp(s, k, quantity).value)
  {
    hide MovesIn, Solvent, EscrowOk, PricesOk, TimesOk, IdsOk, Repriced;
    if ToppedUp(s, k, quantity).Some? {
      var t := s.trades[k];
      TopUpMoves(s.balances, t, quantity);
      RepricedKeeps(s, k, ToppedUpPrice(t, quantity), quantity + t.locked, TopUpEntries(t, quantity));
    }
  }

  lemma {:induction false} RecallKeeps(s: State, k: Key, price: nat)
    requires Inv(s)
    ensures Recalled(s, k, price).Some? ==> Inv(Recalled(s, k, price).value)
  {
    hide MovesIn, Solvent, EscrowOk, PricesOk, TimesOk, IdsOk, Repriced;
    if Recalled(s, k, price).Some? {
      var t := s.trades[k];
      RecalledIsLess(t, price);
      var amount := t.locked - RecalledLocked(t, price);
      EscrowCovers(s.trades, s.balances, k);
      RecallMoves(s.balances, t, amount);
      RepricedKeeps(s, k, price, RecalledLocked(t, price), RecallEntries(t, amount));
    }
  }

  /** Neither a top-up nor a recall lets price times locked amount grow. */
  lemma {:induction false} TopUpProduct(t: Trade, quantity: nat)
    requires quantity + t.locked > 0
    ensures ToppedUpPrice(t, quantity) * (quantity + t.locked) <= t.price * t.locked
  {
    FloorBelow(t.price * t.locked, quantity + t.locked);
  }

  lemma {:induction false} RecallProduct(t: Trade, price: nat)
    requires price > 0
    ensures price * RecalledLocked(t, price) <= t.price * t.locked
  {
    FloorBelow(t.locked * t.price, price);
  }

  // Automatic top-up

  /** 90% of the current price. */
  function TopUpTarget(price: nat): nat {
    price * RATE_TOP_UP / BASE_TOP_UP
  }

  function RequiredLocked(t: Trade, target: nat): nat
    requires target > 0
  {
    t.locked * t.price / target
  }

  lemma {:induction false} TargetBounds(price: nat)
    ensures 10 * TopUpTarget(price) <= 9 * price
  {
    FloorBelow(price * RATE_TOP_UP, BASE_TOP_UP);
  }

  /** The deposit asked for is never negative. */
  lemma {:induction false} DepositNonNegative(t: Trade, price: nat)
    requires TopUpTarget(price) > 0 && price < t.price
    ensures RequiredLocked(t, TopUpTarget(price)) >= t.locked
  {
    TargetBounds(price);
    MulMonotone(TopUpTarget(price), t.price, t.locked);
    FloorOf(t.locked * t.price, TopUpTarget(price), t.locked);
  }

  /** `AutoTopUp`. */
  ghost function AutoToppedUp(s: State, k: Key, price: nat): Option<State>
    requires Inv(s) && (k in s.trades && price < s.trades[k].price ==> TopUpTarget(price) > 0 && s.trades[k].locked > 0)
  {
    if k !in s.trades || price >= s.trades[k].price then None
    else
      var t := s.trades[k];
      DepositNonNegative(t, price);
      ToppedUp(s, k, RequiredLocked(t, TopUpTarget(price)) - t.locked)
  }

  /** The inequality behind the bound of 9. */
  lemma {:induction false} NineSuffice(locked: nat, liquidation: nat, price: nat, target: nat)
    requires locked >= 9 && liquidation > price && target > 0 && 10 * target <= 9 * price
    ensures locked * liquidation * (price - target) > price * (target - 1)
  {
    var whole, d := locked * liquidation, price - target;
    MulMonotone(9, locked, liquidation);
    MulMonotone(9 * (price + 1), whole, d);
    MulMonotone(price, 10 * d, price);
    Expand(price, d);
  }

  lemma {:induction false} Expand(p: nat, d: nat)
    requires d <= p
    ensures (9 * (p + 1)) * d == 9 * (p * d) + 9 * d && (10 * d) * p == 10 * (p * d)
    ensures p * (p - d - 1) == p * p - p * d - p
  {
  }

  lemma {:induction false} TopUpLowers(whole: nat, price: nat, target: nat)
    requires target > 0 && price >= target && whole >= target && whole * (price - target) > price * (target - 1)
    ensures whole < price * (whole / target)
  {
    var n := whole / target;
    FloorBelow(whole, target);
    MulMonotone(whole - (target - 1), n * target, price);
    Spread(whole, target - 1, price);
    Spread(price, target, whole);
    Regroup(n, target, price);
    if n * price <= whole { MulMonotone(n * price, whole, target); }
  }

  lemma {:induction false} Spread(a: nat, b: nat, c: nat)
    requires b <= a
    ensures (a - b) * c == a * c - b * c
  {
  }

  /** With at least 9 units locked, an automatic top-up leaves the liquidation price at or above 90% of the
      current price and strictly below the current price. */
  lemma {:induction false} AutoTopUpPrice(t: Trade, price: nat)
    requires TopUpTarget(price) > 0 && price < t.price && t.locked >= 9
    ensures var target := TopUpTarget(price);
      && RequiredLocked(t, target) >= t.locked
      && target <= ToppedUpPrice(t, RequiredLocked(t, target) - t.locked) < price
  {
    var target := TopUpTarget(price);
    var whole := t.locked * t.price;
    TargetBounds(price);
    DepositNonNegative(t, price);
    NineSuffice(t.locked, t.price, price, target);
    MulMonotone(1, t.locked, t.price);
    TopUpLowers(whole, price, target);
    var n := RequiredLocked(t, target);
    FloorBelow(whole, target);
    FloorOf(whole, n, target);
    FloorBelow(whole, n);
    if whole / n >= price { MulMonotone(price, whole / n, n); }
  }

  // Exactly when an automatic top-up helps

  /** A trade after an automatic top-up at `price`. */
  function TopUpResult(t: Trade, price: nat): Trade
    requires TopUpTarget(price) > 0 && price < t.price && t.locked > 0
  {
    DepositNonNegative(t, price);
    var locked := RequiredLocked(t, TopUpTarget(price));
    t.(price := ToppedUpPrice(t, locked - t.locked), locked := locked)
  }

  /** The rounded amount to be locked is large enough to bring the liquidation price down to `price`. */
  predicate TopUpHelps(t: Trade, price: nat) {
    TopUpTarget(price) > 0 && t.locked * t.price < (price + 1) * RequiredLocked(t, TopUpTarget(price))
  }

  lemma {:induction false} HelpNeedsCollateral(t: Trade, price: nat)
    requires TopUpHelps(t, price)
    ensures t.locked > 0
  {
    assert t.locked == 0 ==> t.locked * t.price == 0;
  }

  lemma {:induction false} FloorAtMost(x: nat, d: nat, q: nat)
    requires d > 0
    ensures x / d <= q <==> x < (q + 1) * d
  {
    FloorBelow(x, d);
    if x / d <= q { MulMonotone(x / d + 1, q + 1, d); } else { MulMonotone(q + 1, x / d, d); }
  }

  lemma {:induction false} ResultFields(t: Trade, price: nat)
    requires TopUpTarget(price) > 0 && price < t.price && t.locked > 0
    ensures var u, whole := TopUpResult(t, price), t.locked * t.price;
      u.locked == whole / TopUpTarget(price) && u.locked >= t.locked && u.price == whole / u.locked
  {
    hide TopUpTarget, RequiredLocked, ToppedUpPrice;
    DepositNonNegative(t, price);
    var n := RequiredLocked(t, TopUpTarget(price));
    PriceAtLocked(t, n - t.locked, n);
    AmountRequired(t, TopUpTarget(price));
  }

  lemma {:induction false} AmountRequired(t: Trade, target: nat)
    requires target > 0
    ensures RequiredLocked(t, target) == t.locked * t.price / target
  {
  }

  lemma {:induction false} PriceAtLocked(t: Trade, quantity: nat, n: nat)
    requires n == quantity + t.locked > 0
    ensures ToppedUpPrice(t, quantity) == t.locked * t.price / n
  {
    assert t.price * t.locked == t.locked * t.price;
  }

  lemma {:induction false} HelpArithmetic(whole: nat, target: nat, n: nat, price: nat)
    requires target > 0 && n == whole / target > 0
    ensures whole / n <= price <==> whole < (price + 1) * n
    ensures target <= whole / n
  {
    FloorAtMost(whole, n, price);
    FloorBelow(whole, target);
    FloorOf(whole, n, target);
  }

  lemma {:induction false} StallArithmetic(whole: nat, target: nat, n: nat, q: nat)
    requires target > 0 && n == whole / target > 0 && q == whole / n
    ensures n * q / target == n && n * q / n == q
  {
    HelpArithmetic(whole, target, n, q);
    FloorBelow(whole, target);
    FloorBelow(whole, n);
    MulMonotone(target, q, n);
    FloorOf(n * q, target, n);
    FloorAtMost(n * q, target, n);
    WholeFloor(q, n);
  }

  /** A top-up ends at or below the current price if and only if it helps. */
  lemma {:induction false} TopUpHelpsExactly(t: Trade, price: nat)
    requires TopUpTarget(price) > 0 && price < t.price && t.locked > 0
    ensures TopUpResult(t, price).price <= price <==> TopUpHelps(t, price)
    ensures TopUpTarget(price) <= TopUpResult(t, price).price
  {
    hide TopUpTarget, TopUpResult;
    ResultFields(t, price);
    HelpArithmetic(t.locked * t.price, TopUpTarget(price), TopUpResult(t, price).locked, price);
  }

  /** Otherwise the trade it leaves behind is one that a further top-up does not change. */
  lemma {:induction false} TopUpStalls(t: Trade, price: nat)
    requires TopUpTarget(price) > 0 && price < t.price && t.locked > 0 && !TopUpHelps(t, price)
    ensures var u := TopUpResult(t, price); u.price > price && u.locked > 0 && TopUpResult(u, price) == u
  {
    hide TopUpTarget, TopUpHelps, ToppedUpPrice, RequiredLocked;
    TopUpHelpsExactly(t, price);
    ResultFields(t, price);
    var u := TopUpResult(t, price);
    ResultFields(u, price);
    StallArithmetic(t.locked * t.price, TopUpTarget(price), u.locked, u.price);
  }

  lemma {:induction false} WholeFloor(a: nat, b: nat)
    requires b > 0
    ensures a * b / b == a
  {
    FloorAtMost(a * b, b, a);
    FloorOf(a * b, b, a);
  }

  /** A top-up asks for no deposit exactly when the locked amount is as close to the required one as rounding
      lets it. */
  lemma {:induction false} NoDepositExactly(t: Trade, price: nat)
    requires TopUpTarget(price) > 0 && price < t.price
    ensures RequiredLocked(t, TopUpTarget(price)) == t.locked <==>
      t.locked * t.price < (t.locked + 1) * TopUpTarget(price)
  {
    DepositNonNegative(t, price);
    FloorAtMost(t.locked * t.price, TopUpTarget(price), t.locked);
  }

  /** Nine units are always enough. */
  lemma {:induction false} NineUnitsHelp(t: Trade, price: nat)
    requires TopUpTarget(price) > 0 && price < t.price && t.locked >= 9
    ensures TopUpHelps(t, price)
  {
    hide TopUpHelps, TopUpTarget;
    AutoTopUpPrice(t, price);
    TopUpHelpsExactly(t, price);
  }

  /** The state after an automatic top-up. */
  lemma {:induction false} AutoTopUpTrade(s: State, k: Key, price: nat)
    requires Inv(s) && k in s.trades && price < s.trades[k].price && TopUpTarget(price) > 0 && s.trades[k].locked > 0
    requires AutoToppedUp(s, k, price).Some?
    ensures AutoToppedUp(s, k, price).value.trades == s.trades[k := TopUpResult(s.trades[k], price)]
  {
    hide Inv, TopUpTarget, RequiredLocked, ToppedUpPrice;
    DepositNonNegative(s.trades[k], price);
  }

  /** A trade whose top-up changes nothing: topping it up always succeeds, on every state. */
  lemma {:induction false} StalledSucceeds(s: State, k: Key, price: nat)
    requires Inv(s) && k in s.trades && price < s.trades[k].price && TopUpTarget(price) > 0 && s.trades[k].locked > 0
    requires TopUpResult(s.trades[k], price) == s.trades[k]
    ensures AutoToppedUp(s, k, price).Some? && AutoToppedUp(s, k, price).value.trades == s.trades
  {
    hide Inv, TopUpTarget, RequiredLocked, ToppedUpPrice;
    DepositNonNegative(s.trades[k], price);
  }

  lemma {:induction false} ZeroTopUp(b: Balances, t: Trade)
    requires t.borrower != LOCK && Owned(t) in b && Held(t) in b
    ensures Solvent(b, TopUpEntries(t, 0)) && AppliedAll(b, TopUpEntries(t, 0)) == b
  {
    Two(b, Debit(Owned(t), 0), Credit(Held(t), 0));
  }

  /** Both accounts of a trade have an entry after a top-up. */
  lemma {:induction false} TopUpTouches(b: Balances, t: Trade, quantity: nat)
    requires t.borrower != LOCK && Balance(b, Owned(t)) >= quantity
    ensures Solvent(b, TopUpEntries(t, quantity))
    ensures Owned(t) in AppliedAll(b, TopUpEntries(t, quantity)) && Held(t) in AppliedAll(b, TopUpEntries(t, quantity))
  {
    Two(b, Debit(Owned(t), quantity), Credit(Held(t), quantity));
  }

  /** After a top-up that does not help, the next one succeeds and leads to the very same state. */
  lemma {:induction false} AutoTopUpStalls(s: State, k: Key, price: nat)
    requires Inv(s) && k in s.trades && price < s.trades[k].price && TopUpTarget(price) > 0 && s.trades[k].locked > 0
    requires AutoToppedUp(s, k, price).Some? && !TopUpHelps(s.trades[k], price)
    ensures var s' := AutoToppedUp(s, k, price).value;
      && Inv(s') && k in s'.trades && s'.trades[k].price > price && s'.trades[k].locked > 0
      && AutoToppedUp(s', k, price) == Some(s')
  {
    hide EscrowOk, TimesOk, IdsOk, TopUpTarget, RequiredLocked, ToppedUpPrice, TopUpHelps, Solvent, AppliedAll;
    var t := s.trades[k];
    DepositNonNegative(t, price);
    var deposit := RequiredLocked(t, TopUpTarget(price)) - t.locked;
    TopUpKeeps(s, k, deposit);
    TopUpStalls(t, price);
    var s' := AutoToppedUp(s, k, price).value;
    var u := s'.trades[k];
    TopUpTouches(s.balances, t, deposit);
    StalledFixpoint(s', k, price);
  }

  lemma {:induction false} StalledFixpoint(s: State, k: Key, price: nat)
    requires Inv(s) && k in s.trades && price < s.trades[k].price && TopUpTarget(price) > 0 && s.trades[k].locked > 0
    requires TopUpResult(s.trades[k], price) == s.trades[k]
    requires Owned(s.trades[k]) in s.balances && Held(s.trades[k]) in s.balances
    ensures AutoToppedUp(s, k, price) == Some(s)
  {
    hide EscrowOk, TimesOk, IdsOk, TopUpTarget, RequiredLocked, ToppedUpPrice, Solvent, AppliedAll;
    var t := s.trades[k];
    DepositNonNegative(t, price);
    ZeroTopUp(s.balances, t);
    assert t.(price := ToppedUpPrice(t, 0), locked := t.locked) == t;
    assert s.trades[k := t] == s.trades;
    assert PriceOf(k, t) in s.prices;
    assert s.prices - {PriceOf(k, t)} + {PriceOf(k, t)} == s.prices;
  }

  // A loan that a top-up does not help

  /** A borrower with 8 units of collateral token 6, an investor with 667 of token 5, and no loans yet. */
  function BeforeEight(): State {
    State(map[], map[], {}, {}, map[Account(6, 100) := 8, Account(5, 200) := 667], {})
  }

  /** Token 6 stands at 125 and has to be deposited at 150%; borrowing is free of charge. */
  function EightTerms(): LendTerms {
    LendTerms(true, true, 5, 6, 125, 150, 0, 1, 1, COIN)
  }

  function EightParties(): Settlement.Parties {
    Settlement.Parties(100, 200, 300, 400)
  }

  /** The whole balance is matched, and nothing is too small. */
  lemma {:induction false} EightMatch()
    ensures Init(BeforeEight()) && ValidLend(EightTerms())
    ensures LendFill(BeforeEight().balances, EightParties(), EightTerms(), 667).quantity == 667
    ensures LendBalance(EightTerms(), 667).Some? && Locked(EightTerms(), 667) == 8
    ensures Solvent(BeforeEight().balances, LendEntries(EightParties(), true, LendBalance(EightTerms(), 667).value))
  {
    hide Solvent;
    LendingNeverShort(BeforeEight().balances, EightParties(), EightTerms(), 667);
  }

  /** The state in which that match has opened a loan with automatic top-up, liquidated at 110%: 8 units locked at
      liquidation price 91. */
  ghost function EightUnits(): State {
    EightMatch();
    Opened(BeforeEight(), 1, NewTrade(EightTerms(), 110, 667, 5, 5, 0, 100, 200, true),
           LendEntries(EightParties(), true, LendBalance(EightTerms(), 667).value))
  }

  lemma {:induction false} EightUnitsOpened()
    ensures Inv(EightUnits()) && Key(1, 1) in EightUnits().trades
    ensures var t := EightUnits().trades[Key(1, 1)];
      t == Trade(Pair(6, 5), 100, 200, 667, 8, 91, 10, 5, 0, true)
  {
    hide Inv, Solvent, AppliedAll, LendEntries;
    EightMatch();
    InitKeeps(BeforeEight());
    MatchOpensLoan(BeforeEight(), 1, EightParties(), EightTerms(), 110, 667, 5, 5, 0, true);
  }

  /** Nine is the least such number: from this state a top-up at price 90 succeeds, leaves the liquidation price
      at 91, and repeating it leads nowhere. */
  lemma {:induction false} EightAreTooFew()
    ensures var s, k := EightUnits(), Key(1, 1);
      && Inv(s) && k in s.trades && s.trades[k].locked == 8 && TopUpTarget(90) > 0 && !TopUpHelps(s.trades[k], 90)
      && AutoToppedUp(s, k, 90).Some?
      && var s' := AutoToppedUp(s, k, 90).value;
         && Inv(s') && k in s'.trades && s'.trades[k].price == 91 && s'.trades[k].locked == 8
         && AutoToppedUp(s', k, 90) == Some(s')
  {
    EightUnitsOpened();
    hide Inv, EightUnits;
    var s, k := EightUnits(), Key(1, 1);
    assert TopUpTarget(90) == 81 && RequiredLocked(s.trades[k], 81) == 8 && ToppedUpPrice(s.trades[k], 0) == 91;
    AutoTopUpStalls(s, k, 90);
  }
}
