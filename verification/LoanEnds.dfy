/** How a loan ends (BRCxlending/order_processor.go): repaid, liquidated for its price, or expired; and the
    database object that performs all steps of a loan's life. */
module LoanEnds {
  import opened Options
  import opened FillQuantity
  import opened Ledger
  import opened LendSettlement
  import opened Loans
  import opened LoanSteps

  const UINT64: nat := 0x1_0000_0000_0000_0000
  const ONE_YEAR: nat := 365 * 86400
  /** 1% is 10^8. */
  const INTEREST_DECIMAL: nat := 100000000 * 100

  /** What the chain knows when a trade is due: the time, the fork switch, the price of the pair (0 when there
      is none) and the liquidation rate of the collateral. */
  datatype Context = Context(now: nat, fork: bool, price: nat, liquidationRate: nat)

  function InterestRate(now: nat, t: Trade): nat {
    var start := (t.time - t.term) % UINT64;
    var borrowed := (now - start) % UINT64;
    t.interest * ((t.term + borrowed) / 2) / ONE_YEAR
  }

  function TotalRepay(now: nat, t: Trade, amount: nat): nat {
    amount * (INTEREST_DECIMAL + InterestRate(now, t)) / INTEREST_DECIMAL
  }

  lemma {:induction false} RepayAtLeast(now: nat, t: Trade, amount: nat)
    ensures TotalRepay(now, t, amount) >= amount
  {
    hide InterestRate;
    MulMonotone(INTEREST_DECIMAL, INTEREST_DECIMAL + InterestRate(now, t), amount);
    FloorOf(amount * (INTEREST_DECIMAL + InterestRate(now, t)), INTEREST_DECIMAL, amount);
  }

  function Received(t: Trade): Account {
    Account(t.pair.collateral, t.investor)
  }

  // Liquidation

  function LiquidationEntries(t: Trade): seq<Entry> {
    [Debit(Held(t), t.locked), Credit(Received(t), t.locked)]
  }

  lemma {:induction false} LiquidationMoves(b: Balances, t: Trade)
    requires t.investor != LOCK && Balance(b, Held(t)) >= t.locked
    ensures Solvent(b, LiquidationEntries(t)) && MovesIn(LiquidationEntries(t), t.pair.collateral, -(t.locked as int))
  {
    Two(b, Debit(Held(t), t.locked), Credit(Received(t), t.locked));
  }

  /** `LiquidationTrade`. */
  ghost function Liquidated(s: State, k: Key): State
    requires Inv(s) && k in s.trades
  {
    EscrowCovers(s.trades, s.balances, k);
    LiquidationMoves(s.balances, s.trades[k]);
    Ended(s, k, LiquidationEntries(s.trades[k]))
  }

  lemma {:induction false} LiquidationKeeps(s: State, k: Key)
    requires Inv(s) && k in s.trades
    ensures Inv(Liquidated(s, k))
  {
    hide MovesIn, Solvent, EscrowOk, PricesOk, TimesOk, IdsOk, Ended;
    EscrowCovers(s.trades, s.balances, k);
    LiquidationMoves(s.balances, s.trades[k]);
    EndedKeeps(s, k, LiquidationEntries(s.trades[k]));
  }

  // Expiry

  /** The liquidation rate is divided by only when the pair has a price. */
  predicate Rated(c: Context) {
    c.price == 0 || c.liquidationRate > 0
  }

  /** The part of the collateral an expired trade owes, before it is capped. */
  function Due(t: Trade, c: Context): nat
    requires Rated(c)
  {
    if c.price == 0 then t.locked
    else
      var repay := t.locked * t.price / c.price;
      var collateral := repay * 100 / c.liquidationRate;
      RepayAtLeast(c.now, t, collateral);
      repay + (TotalRepay(c.now, t, collateral) - collateral)
  }

  function RepayAmount(t: Trade, c: Context): nat
    requires Rated(c)
  {
    if Due(t, c) < t.locked then Due(t, c) else t.locked
  }

  function RecallAmount(t: Trade, c: Context): nat
    requires Rated(c)
  {
    if Due(t, c) < t.locked then t.locked - Due(t, c) else 0
  }

  function ExpiryEntries(t: Trade, c: Context): seq<Entry>
    requires Rated(c)
  {
    if Due(t, c) < t.locked then
      [Credit(Owned(t), RecallAmount(t, c)), Debit(Held(t), t.locked), Credit(Received(t), RepayAmount(t, c))]
    else [Debit(Held(t), t.locked), Credit(Received(t), RepayAmount(t, c))]
  }

  /** Investor and borrower together get exactly what was locked. */
  lemma {:induction false} ExpirySplitsCollateral(t: Trade, c: Context)
    requires Rated(c)
    ensures RecallAmount(t, c) + RepayAmount(t, c) == t.locked
    ensures forall u :: Net(ExpiryEntries(t, c), u) == 0
  {
    hide Due;
    forall u ensures Net(ExpiryEntries(t, c), u) == 0 {
      var es := ExpiryEntries(t, c);
      assert es[1..][1..] == es[2..];
      if |es| == 3 { assert es[2..][1..] == []; } else { assert es[2..] == []; }
      assert Net(es, u) == Delta(es[0], u) + Net(es[1..], u);
      assert Net(es[1..], u) == Delta(es[1], u) + Net(es[2..], u);
    }
  }

  lemma {:induction false} ExpiryMoves(b: Balances, t: Trade, c: Context)
    requires Rated(c) && t.investor != LOCK && t.borrower != LOCK && Balance(b, Held(t)) >= t.locked
    ensures Solvent(b, ExpiryEntries(t, c)) && MovesIn(ExpiryEntries(t, c), t.pair.collateral, -(t.locked as int))
  {
    hide Due;
    if Due(t, c) < t.locked {
      Three(b, Credit(Owned(t), RecallAmount(t, c)), Debit(Held(t), t.locked), Credit(Received(t), RepayAmount(t, c)));
    } else {
      Two(b, Debit(Held(t), t.locked), Credit(Received(t), RepayAmount(t, c)));
    }
  }

  /** `LiquidationExpiredTrade`. */
  ghost function Expired(s: State, k: Key, c: Context): State
    requires Inv(s) && k in s.trades && Rated(c)
  {
    EscrowCovers(s.trades, s.balances, k);
    ExpiryMoves(s.balances, s.trades[k], c);
    Ended(s, k, ExpiryEntries(s.trades[k], c))
  }

  lemma {:induction false} ExpiryKeeps(s: State, k: Key, c: Context)
    requires Inv(s) && k in s.trades && Rated(c)
    ensures Inv(Expired(s, k, c))
  {
    hide MovesIn, Solvent, EscrowOk, PricesOk, TimesOk, IdsOk, Ended, ExpiryEntries;
    EscrowCovers(s.trades, s.balances, k);
    ExpiryMoves(s.balances, s.trades[k], c);
    EndedKeeps(s, k, ExpiryEntries(s.trades[k], c));
  }

  // Repayment

  function RepayEntries(t: Trade, payment: nat): seq<Entry> {
    [Debit(Account(t.pair.lend, t.borrower), payment), Credit(Account(t.pair.lend, t.investor), payment),
     Debit(Held(t), t.locked), Credit(Owned(t), t.locked)]
  }

  lemma {:induction false} RepayMoves(b: Balances, t: Trade, payment: nat)
    requires t.investor != LOCK && t.borrower != LOCK && Balance(b, Held(t)) >= t.locked
    requires Balance(b, Account(t.pair.lend, t.borrower)) >= payment
    ensures Solvent(b, RepayEntries(t, payment))
    ensures MovesIn(RepayEntries(t, payment), t.pair.collateral, -(t.locked as int))
  {
    Four(b, Debit(Account(t.pair.lend, t.borrower), payment), Credit(Account(t.pair.lend, t.investor), payment),
      Debit(Held(t), t.locked), Credit(Owned(t), t.locked));
  }

  datatype Ending = Refused | Liquidation | Closing | DivisionByZero

  /** How `ProcessRepayLendingTrade` ends. */
  function EndingOf(b: Balances, t: Trade, c: Context): Ending {
    if Balance(b, Account(t.pair.lend, t.borrower)) >= TotalRepay(c.now, t, t.amount) then Closing
    else if t.time > c.now then Refused
    else if c.fork && !Rated(c) then DivisionByZero
    else Liquidation
  }

  predicate RepayPanics(s: State, k: Key, c: Context) {
    k in s.trades && EndingOf(s.balances, s.trades[k], c) == DivisionByZero
  }

  ghost function Repaid(s: State, k: Key, c: Context): Option<State>
    requires Inv(s) && !RepayPanics(s, k, c)
  {
    if k !in s.trades then None
    else
      var t := s.trades[k];
      match EndingOf(s.balances, t, c)
      case Refused => None
      case Liquidation => Some(if c.fork then Expired(s, k, c) else Liquidated(s, k))
      case Closing =>
        EscrowCovers(s.trades, s.balances, k);
        RepayMoves(s.balances, t, TotalRepay(c.now, t, t.amount));
        Some(Ended(s, k, RepayEntries(t, TotalRepay(c.now, t, t.amount))))
  }

  lemma {:induction false} RepayKeeps(s: State, k: Key, c: Context)
    requires Inv(s) && !RepayPanics(s, k, c)
    ensures Repaid(s, k, c).Some? ==> Inv(Repaid(s, k, c).value)
    ensures k in s.trades && s.trades[k].time <= c.now ==> Repaid(s, k, c).Some?
    ensures Repaid(s, k, c).Some? ==> Repaid(s, k, c).value.trades == s.trades - {k}
  {
    hide MovesIn, Solvent, EscrowOk, PricesOk, TimesOk, IdsOk, TotalRepay;
    if k in s.trades {
      var t := s.trades[k];
      LiquidationKeeps(s, k);
      if Rated(c) { ExpiryKeeps(s, k, c); }
      if EndingOf(s.balances, t, c) == Closing {
        EscrowCovers(s.trades, s.balances, k);
        RepayMoves(s.balances, t, TotalRepay(c.now, t, t.amount));
        EndedKeeps(s, k, RepayEntries(t, TotalRepay(c.now, t, t.amount)));
      }
    }
  }

  // Runs

  datatype Step =
    | Open(book: nat, trade: Trade, es: seq<Entry>)
    | TopUp(key: Key, quantity: nat)
    | AutoTopUp(key: Key, price: nat)
    | Recall(key: Key, price: nat)
    | Repay(key: Key, c: Context)
    | Liquidate(key: Key)
    | Expire(key: Key, c: Context)
    | Elsewhere(es: seq<Entry>)

  ghost predicate Enabled(s: State, step: Step)
    requires Inv(s)
  {
    match step
    case Open(_, t, es) => GoodTrade(t) && Solvent(s.balances, es) && MovesIn(es, t.pair.collateral, t.locked)
    case TopUp(k, quantity) => quantity > 0
    case AutoTopUp(k, price) => TopUpTarget(price) > 0 && (k in s.trades ==> s.trades[k].locked > 0)
    case Recall(_, _) => true
    case Repay(k, c) => !RepayPanics(s, k, c)
    case Liquidate(k) => k in s.trades
    case Expire(k, c) => k in s.trades && Rated(c)
    case Elsewhere(es) => Solvent(s.balances, es) && MovesIn(es, 0, 0)
  }

  function OrElse(r: Option<State>, s: State): State {
    if r.Some? then r.value else s
  }

  /** A step that fails changes nothing. */
  ghost function Next(s: State, step: Step): State
    requires Inv(s) && Enabled(s, step)
  {
    match step
    case Open(book, t, es) => Opened(s, book, t, es)
    case TopUp(k, quantity) => OrElse(ToppedUp(s, k, quantity), s)
    case AutoTopUp(k, price) => OrElse(AutoToppedUp(s, k, price), s)
    case Recall(k, price) => OrElse(Recalled(s, k, price), s)
    case Repay(k, c) => OrElse(Repaid(s, k, c), s)
    case Liquidate(k) => Liquidated(s, k)
    case Expire(k, c) => Expired(s, k, c)
    case Elsewhere(es) => s.(balances := AppliedAll(s.balances, es))
  }

  lemma {:induction false} AutoTopUpKeeps(s: State, k: Key, price: nat)
    requires Inv(s) && TopUpTarget(price) > 0 && (k in s.trades ==> s.trades[k].locked > 0)
    ensures AutoToppedUp(s, k, price).Some? ==> Inv(AutoToppedUp(s, k, price).value)
  {
    hide Inv, RequiredLocked, TopUpTarget, ToppedUp;
    if k in s.trades && price < s.trades[k].price {
      DepositNonNegative(s.trades[k], price);
      TopUpKeeps(s, k, RequiredLocked(s.trades[k], TopUpTarget(price)) - s.trades[k].locked);
    }
  }

  lemma {:induction false} StepKeeps(s: State, step: Step)
    requires Inv(s) && Enabled(s, step)
    ensures Inv(Next(s, step))
  {
    hide Inv, ToppedUp, AutoToppedUp, Recalled, Repaid, Liquidated, Expired, MovesIn, Solvent, AppliedAll;
    match step
    case Open(book, t, es) => OpenedKeeps(s, book, t, es);
    case TopUp(k, quantity) => TopUpKeeps(s, k, quantity);
    case AutoTopUp(k, price) => AutoTopUpKeeps(s, k, price);
    case Recall(k, price) => RecallKeeps(s, k, price);
    case Repay(k, c) => RepayKeeps(s, k, c);
    case Liquidate(k) => LiquidationKeeps(s, k);
    case Expire(k, c) => ExpiryKeeps(s, k, c);
    case Elsewhere(es) => OutsideKeeps(s, es);
  }

  /** One step of a run; `Enabled` and `Next` make sense on states that keep the invariant. */
  ghost predicate Follows(s: State, step: Step, s': State) {
    Inv(s) ==> Enabled(s, step) && s' == Next(s, step)
  }

  ghost predicate IsRun(run: seq<State>, steps: seq<Step>) {
    && |run| == |steps| + 1
    && forall i :: 0 <= i < |steps| ==> Follows(run[i], steps[i], run[i + 1])
  }

  /** In every run: the escrow holds exactly the collateral of the open trades, both indexes hold exactly the
      open trades, and ids stay below the counters. */
  lemma {:induction false} EveryRunKeepsBooks(run: seq<State>, steps: seq<Step>, i: nat)
    requires IsRun(run, steps) && Init(run[0]) && i < |run|
    ensures Inv(run[i])
  {
    hide Inv, Init;
    if i == 0 {
      InitKeeps(run[0]);
    } else {
      EveryRunKeepsBooks(run, steps, i - 1);
      assert Follows(run[i - 1], steps[i - 1], run[i]);
      StepKeeps(run[i - 1], steps[i - 1]);
    }
  }

  lemma {:induction false} UsedGrows(s: State, step: Step)
    requires Inv(s) && Enabled(s, step)
    ensures s.used <= Next(s, step).used
    ensures step.Open? ==>
      && Key(step.book, NonceOf(s.nonces, step.book) + 1) !in s.used
      && Key(step.book, NonceOf(s.nonces, step.book) + 1) in Next(s, step).used
  {
    hide MovesIn, Solvent, AppliedAll, EscrowOk, PricesOk, TimesOk;
  }

  lemma {:induction false} UsedStays(run: seq<State>, steps: seq<Step>, i: nat, j: nat)
    requires IsRun(run, steps) && Init(run[0]) && i <= j < |run|
    ensures run[i].used <= run[j].used
    decreases j
  {
    hide Inv, Init;
    if i < j {
      UsedStays(run, steps, i, j - 1);
      EveryRunKeepsBooks(run, steps, j - 1);
      assert Follows(run[j - 1], steps[j - 1], run[j]);
      UsedGrows(run[j - 1], steps[j - 1]);
    }
  }

  /** No trade id is given out twice in a run. */
  lemma {:induction false} IdsNeverReused(run: seq<State>, steps: seq<Step>, i: nat, j: nat)
    requires IsRun(run, steps) && Init(run[0]) && i < j < |steps| && steps[i].Open? && steps[j].Open?
    ensures Key(steps[i].book, NonceOf(run[i].nonces, steps[i].book) + 1)
         != Key(steps[j].book, NonceOf(run[j].nonces, steps[j].book) + 1)
  {
    hide Inv, Init;
    EveryRunKeepsBooks(run, steps, i);
    EveryRunKeepsBooks(run, steps, j);
    assert Follows(run[i], steps[i], run[i + 1]) && Follows(run[j], steps[j], run[j + 1]);
    UsedGrows(run[i], steps[i]);
    UsedStays(run, steps, i + 1, j);
    UsedGrows(run[j], steps[j]);
  }

  // Price times locked amount

  function Product(t: Trade): nat {
    t.price * t.locked
  }

  /** A trade that is open after a step was open before, with no smaller product, or its id is new. */
  lemma {:induction false} StepProduct(s: State, step: Step, k: Key)
    requires Inv(s) && Enabled(s, step) && k in Next(s, step).trades && k in s.used
    ensures k in s.trades && Product(Next(s, step).trades[k]) <= Product(s.trades[k])
  {
    hide MovesIn, Solvent, AppliedAll, EscrowOk, PricesOk, TimesOk, ToppedUpPrice, RecalledLocked, RequiredLocked,
      TopUpTarget, EndingOf, ExpiryEntries;
    match step
    case TopUp(key, quantity) =>
      if key in s.trades { TopUpProduct(s.trades[key], quantity); }
    case AutoTopUp(key, price) =>
      if key in s.trades && price < s.trades[key].price {
        DepositNonNegative(s.trades[key], price);
        TopUpProduct(s.trades[key], RequiredLocked(s.trades[key], TopUpTarget(price)) - s.trades[key].locked);
      }
    case Recall(key, price) =>
      if key in s.trades && price > 0 { RecallProduct(s.trades[key], price); }
    case Open(_, _, _) =>
    case Repay(_, _) =>
    case Liquidate(_) =>
    case Expire(_, _) =>
    case Elsewhere(_) =>
  }

  /** Over any run the product of liquidation price and locked amount of an open trade never grows. */
  lemma {:induction false} ProductNeverGrows(run: seq<State>, steps: seq<Step>, i: nat, j: nat, k: Key)
    requires IsRun(run, steps) && Init(run[0]) && i <= j < |run| && k in run[i].trades && k in run[j].trades
    ensures Product(run[j].trades[k]) <= Product(run[i].trades[k])
    decreases j
  {
    hide Inv, Init, Product;
    if i < j {
      EveryRunKeepsBooks(run, steps, i);
      EveryRunKeepsBooks(run, steps, j - 1);
      OpenIsUsed(run[i], k);
      UsedStays(run, steps, i, j - 1);
      assert Follows(run[j - 1], steps[j - 1], run[j]);
      StepProduct(run[j - 1], steps[j - 1], k);
      ProductNeverGrows(run, steps, i, j - 1, k);
    }
  }

  lemma {:induction false} OpenIsUsed(s: State, k: Key)
    requires Inv(s) && k in s.trades
    ensures k in s.used
  {
  }

  // Conservation

  lemma {:induction false} NetOfTwo(x: Entry, y: Entry, t: Token)
    ensures Net([x, y], t) == Delta(x, t) + Delta(y, t)
  {
    assert [x, y][1..] == [y] && [y][1..] == [];
    assert Net([y], t) == Delta(y, t) + Net([], t);
  }

  lemma {:induction false} NetOfFour(w: Entry, x: Entry, y: Entry, z: Entry, t: Token)
    ensures Net([w, x, y, z], t) == Delta(w, t) + Delta(x, t) + Delta(y, t) + Delta(z, t)
  {
    assert [w, x, y, z][1..] == [x, y, z] && [x, y, z][1..] == [y, z];
    NetOfTwo(y, z, t);
  }

  lemma {:induction false} EntriesConserve(tr: Trade, n: nat, t: Token)
    ensures Net(TopUpEntries(tr, n), t) == 0 && Net(RecallEntries(tr, n), t) == 0
    ensures Net(LiquidationEntries(tr), t) == 0 && Net(RepayEntries(tr, n), t) == 0
  {
    hide Net;
    NetOfTwo(Debit(Owned(tr), n), Credit(Held(tr), n), t);
    NetOfTwo(Credit(Owned(tr), n), Debit(Held(tr), n), t);
    NetOfTwo(Debit(Held(tr), tr.locked), Credit(Received(tr), tr.locked), t);
    NetOfFour(Debit(Account(tr.pair.lend, tr.borrower), n), Credit(Account(tr.pair.lend, tr.investor), n),
      Debit(Held(tr), tr.locked), Credit(Owned(tr), tr.locked), t);
  }

  lemma {:induction false} EndConserves(s: State, k: Key, c: Context, t: Token)
    requires Inv(s) && k in s.trades && !RepayPanics(s, k, c)
    ensures Total(Liquidated(s, k).balances, t) == Total(s.balances, t)
    ensures Rated(c) ==> Total(Expired(s, k, c).balances, t) == Total(s.balances, t)
    ensures Repaid(s, k, c).Some? ==> Total(Repaid(s, k, c).value.balances, t) == Total(s.balances, t)
  {
    hide Total, Net, AppliedAll, Solvent, MovesIn, EscrowOk, PricesOk, TimesOk, IdsOk, Due, TotalRepay;
    var tr := s.trades[k];
    EscrowCovers(s.trades, s.balances, k);
    LiquidationMoves(s.balances, tr);
    EntriesConserve(tr, TotalRepay(c.now, tr, tr.amount), t);
    AppliedAllTotal(s.balances, LiquidationEntries(tr), t);
    if Rated(c) {
      ExpiryMoves(s.balances, tr, c);
      ExpirySplitsCollateral(tr, c);
      AppliedAllTotal(s.balances, ExpiryEntries(tr, c), t);
    }
    if EndingOf(s.balances, tr, c) == Closing {
      RepayMoves(s.balances, tr, TotalRepay(c.now, tr, tr.amount));
      AppliedAllTotal(s.balances, RepayEntries(tr, TotalRepay(c.now, tr, tr.amount)), t);
    }
  }

  lemma {:induction false} TopUpConserves(s: State, k: Key, quantity: nat, t: Token)
    requires Inv(s) && (k in s.trades ==> quantity + s.trades[k].locked > 0)
    ensures ToppedUp(s, k, quantity).Some? ==> Total(ToppedUp(s, k, quantity).value.balances, t) == Total(s.balances, t)
  {
    hide Total, Net, AppliedAll, Solvent, MovesIn, EscrowOk, PricesOk, TimesOk, IdsOk;
    if ToppedUp(s, k, quantity).Some? {
      TopUpMoves(s.balances, s.trades[k], quantity);
      EntriesConserve(s.trades[k], quantity, t);
      AppliedAllTotal(s.balances, TopUpEntries(s.trades[k], quantity), t);
    }
  }

  lemma {:induction false} RecallConserves(s: State, k: Key, price: nat, t: Token)
    requires Inv(s)
    ensures Recalled(s, k, price).Some? ==> Total(Recalled(s, k, price).value.balances, t) == Total(s.balances, t)
  {
    hide Total, Net, AppliedAll, Solvent, MovesIn, EscrowOk, PricesOk, TimesOk, IdsOk;
    if Recalled(s, k, price).Some? {
      var tr := s.trades[k];
      RecalledIsLess(tr, price);
      var amount := tr.locked - RecalledLocked(tr, price);
      EscrowCovers(s.trades, s.balances, k);
      RecallMoves(s.balances, tr, amount);
      EntriesConserve(tr, amount, t);
      AppliedAllTotal(s.balances, RecallEntries(tr, amount), t);
    }
  }

  /** After its opening no step of a loan's life creates or destroys tokens. */
  lemma {:induction false} LoanStepsConserve(s: State, step: Step, t: Token)
    requires Inv(s) && Enabled(s, step) && !step.Open? && !step.Elsewhere?
    ensures Total(Next(s, step).balances, t) == Total(s.balances, t)
  {
    hide Inv, Total, ToppedUp, Recalled, Repaid, Liquidated, Expired, RequiredLocked, TopUpTarget;
    match step
    case TopUp(k, quantity) => TopUpConserves(s, k, quantity, t);
    case AutoTopUp(k, price) =>
      if k in s.trades && price < s.trades[k].price {
        DepositNonNegative(s.trades[k], price);
        TopUpConserves(s, k, RequiredLocked(s.trades[k], TopUpTarget(price)) - s.trades[k].locked, t);
      }
    case Recall(k, price) => RecallConserves(s, k, price, t);
    case Repay(k, c) =>
      if k in s.trades { EndConserves(s, k, c, t); } else { UnknownTrade(s, k, c); }
    case Liquidate(k) => EndConserves(s, k, Context(0, true, 0, 1), t);
    case Expire(k, c) => EndConserves(s, k, c, t);
  }

  lemma {:induction false} UnknownTrade(s: State, k: Key, c: Context)
    requires Inv(s) && k !in s.trades
    ensures Repaid(s, k, c).None?
  {
  }
}
