/** What the periodic sweep over the loans (`ProcessLiquidationData` in BRCxlending/BRCxlending.go) makes of one loan:
    topped up, recalled, or both. */
module LoanFate {
  import opened Options
  import opened FillQuantity
  import opened Ledger
  import opened LendSettlement
  import opened Loans
  import opened LoanSteps
  import opened LoanEnds
  import opened LoanMeaning

  const BASE_RECALL: nat := 100

  datatype Rates = Rates(deposit: nat, liquidation: nat, recall: nat)

  /** What the sweep is given: time and fork switch, the listed books and pairs, the collateral prices (none or
      0 for a pair without a price) and the rates of each collateral. */
  datatype World = World(now: nat, fork: bool, books: set<nat>, pairs: set<Pair>, quotes: map<Pair, nat>,
                         rates: map<Token, Rates>)

  function Quote(w: World, p: Pair): nat {
    if p in w.quotes then w.quotes[p] else 0
  }

  function RatesOf(w: World, t: Token): Rates {
    if t in w.rates then w.rates[t] else Rates(0, 0, 0)
  }

  function ContextOf(w: World, p: Pair): Context {
    Context(w.now, w.fork, Quote(w, p), RatesOf(w, p.collateral).liquidation)
  }

  /** Rates under which a recall raises the liquidation price, but not above the collateral price. */
  predicate RatesOk(r: Rates) {
    && 0 < r.liquidation <= r.deposit && r.recall > 0
    && r.deposit * 100 <= r.liquidation * r.recall
  }

  function RecallBelow(price: nat, r: Rates): nat
    requires RatesOk(r)
  {
    price * BASE_RECALL / r.recall
  }

  function RecallTo(price: nat, r: Rates): nat
    requires RatesOk(r)
  {
    price * r.liquidation / r.deposit
  }

  lemma {:induction false} RecallRaises(price: nat, r: Rates)
    requires RatesOk(r)
    ensures RecallBelow(price, r) <= RecallTo(price, r) <= price
  {
    var x := RecallBelow(price, r);
    FloorBelow(price * BASE_RECALL, r.recall);
    MulMonotone(x * r.recall, price * BASE_RECALL, r.deposit);
    MulMonotone(r.deposit * 100, r.liquidation * r.recall, price);
    Regroup(x, r.recall, r.deposit);
    Reorder(price, r);
    CancelFactor(x * r.deposit, price * r.liquidation, r.recall);
    FloorOf(price * r.liquidation, r.deposit, x);
    MulMonotone(r.liquidation, r.deposit, price);
    FloorBelow(price * r.liquidation, r.deposit);
    CancelFactor(RecallTo(price, r), price, r.deposit);
  }

  lemma {:induction false} Reorder(price: nat, r: Rates)
    ensures (price * BASE_RECALL) * r.deposit == (r.deposit * 100) * price
    ensures (r.liquidation * r.recall) * price == (price * r.liquidation) * r.recall
  {
  }

  // What becomes of a loan

  type Trades = map<Key, Trade>

  /** A loan after a recall to `price`. */
  function RecallResult(t: Trade, price: nat): Trade
    requires price > 0
  {
    t.(price := price, locked := RecalledLocked(t, price))
  }

  /** The pair is listed and has a price. */
  predicate Priced(w: World, p: Pair) {
    p in w.pairs && Quote(w, p) > 0
  }

  predicate Overdue(w: World, k: Key, t: Trade) {
    k.book in w.books && t.time < w.now
  }

  predicate Above(w: World, t: Trade) {
    Priced(w, t.pair) && t.price > Quote(w, t.pair)
  }

  predicate RecallDue(w: World, t: Trade)
    requires RatesOk(RatesOf(w, t.pair.collateral))
  {
    Priced(w, t.pair) && t.autoTopUp && 0 < t.price < RecallBelow(Quote(w, t.pair), RatesOf(w, t.pair.collateral))
  }

  /** Rates as above for every listed pair with a price. */
  ghost predicate Sane(w: World) {
    forall p :: Priced(w, p) ==> RatesOk(RatesOf(w, p.collateral))
  }

  /** The sweep will try to top this loan up. */
  predicate AsksTopUp(w: World, t: Trade) {
    Above(w, t) && t.autoTopUp
  }

  /** If so, the top-up brings it down to the collateral price. */
  predicate Helped(w: World, t: Trade) {
    AsksTopUp(w, t) ==> TopUpHelps(t, Quote(w, t.pair))
  }

  lemma {:induction false} RecallTargetPositive(w: World, t: Trade)
    requires RatesOk(RatesOf(w, t.pair.collateral)) && RecallDue(w, t)
    ensures RecallTo(Quote(w, t.pair), RatesOf(w, t.pair.collateral)) > t.price
  {
    hide RecallTo, RecallBelow;
    RecallRaises(Quote(w, t.pair), RatesOf(w, t.pair.collateral));
  }

  /** The recall half of what becomes of a loan. */
  function AfterRecall(w: World, t: Trade): Trade
    requires RatesOk(RatesOf(w, t.pair.collateral))
  {
    if RecallDue(w, t) then
      RecallTargetPositive(w, t);
      RecallResult(t, RecallTo(Quote(w, t.pair), RatesOf(w, t.pair.collateral)))
    else t
  }

  /** The top-up half. */
  function AfterTopUp(w: World, t: Trade): Trade
    requires Helped(w, t)
  {
    if AsksTopUp(w, t) then
      HelpNeedsCollateral(t, Quote(w, t.pair));
      TopUpResult(t, Quote(w, t.pair))
    else t
  }

  /** What becomes of a loan of a listed pair with a price, if it stays open. */
  ghost function Treated(w: World, t: Trade): Trade
    requires Sane(w) && Priced(w, t.pair) && Helped(w, t)
  {
    AfterRecall(w, AfterTopUp(w, t))
  }

  lemma {:induction false} AfterTopUpIsBelow(w: World, t: Trade)
    requires Helped(w, t) && (Above(w, t) ==> t.autoTopUp)
    ensures !Above(w, AfterTopUp(w, t))
    ensures AfterTopUp(w, t) == t.(price := AfterTopUp(w, t).price, locked := AfterTopUp(w, t).locked)
  {
    hide TopUpTarget, ToppedUpPrice, RequiredLocked, TopUpHelps;
    if AsksTopUp(w, t) {
      HelpNeedsCollateral(t, Quote(w, t.pair));
      TargetOfHelp(t, Quote(w, t.pair));
      TopUpHelpsExactly(t, Quote(w, t.pair));
    }
  }

  lemma {:induction false} TargetOfHelp(t: Trade, price: nat)
    requires TopUpHelps(t, price)
    ensures TopUpTarget(price) > 0
  {
  }

  /** A treated loan does not lie above the collateral price. */
  lemma {:induction false} TreatedIsBelow(w: World, t: Trade)
    requires Sane(w) && Priced(w, t.pair) && Helped(w, t) && (Above(w, t) ==> t.autoTopUp)
    ensures Treated(w, t).price <= Quote(w, t.pair)
    ensures Treated(w, t) == t.(price := Treated(w, t).price, locked := Treated(w, t).locked)
  {
    hide RecallTo, RecallBelow, RecalledLocked, AfterTopUp, TopUpHelps;
    RecallRaises(Quote(w, t.pair), RatesOf(w, t.pair.collateral));
    AfterTopUpIsBelow(w, t);
  }

  // The same without the formulas

  /** The collateral price of a listed pair, when it has one. */
  predicate HasPrice(w: World, p: Pair, price: nat) {
    p in w.pairs && p in w.quotes && w.quotes[p] == price > 0
  }

  /** The rates on file for a collateral. */
  predicate HasRates(w: World, t: Token, r: Rates) {
    t in w.rates && w.rates[t] == r
  }

  /** A top-up at `price`: to the collateral that 90% of it calls for, at the liquidation price that goes with it. */
  ghost predicate ToppedUpAt(price: nat, t: Trade, t': Trade) {
    && t'.locked >= t.locked && IsDeposit(t, price, t'.locked - t.locked)
    && t' == t.(price := t'.price, locked := t'.locked) && IsFloor(t'.price, t.price * t.locked, t'.locked)
  }

  /** A loan that tops up by itself is due for a recall when its liquidation price is that far below. */
  predicate FarBelow(price: nat, r: Rates, t: Trade) {
    t.autoTopUp && t.price > 0 && (t.price + 1) * r.recall <= price * 100
  }

  /** A recall: up to the liquidation price of a loan opened now, keeping the collateral that this price calls for. */
  predicate RecalledAt(price: nat, r: Rates, t: Trade, t': Trade) {
    && t' == t.(price := t'.price, locked := t'.locked)
    && IsFloor(t'.price, price * r.liquidation, r.deposit) && IsFloor(t'.locked, t.locked * t.price, t'.price)
  }

  /** The loan is recalled if it is due for it, and otherwise left alone. */
  predicate RecalledIfDue(price: nat, r: Rates, t: Trade, t': Trade) {
    if FarBelow(price, r, t) then RecalledAt(price, r, t, t') else t' == t
  }

  /** A loan that stays open is topped up if it lies above the price, and then recalled if it is due for it. */
  ghost predicate Handled(price: nat, r: Rates, t: Trade, t': Trade) {
    exists u ::
      && (if t.price > price then t.autoTopUp && ToppedUpAt(price, t, u) else u == t)
      && RecalledIfDue(price, r, u, t')
  }

  lemma {:induction false} RatesOnFile(w: World, t: Token)
    requires RatesOk(RatesOf(w, t))
    ensures HasRates(w, t, RatesOf(w, t))
  {
  }

  lemma {:induction false} RecallToExactly(price: nat, r: Rates, x: nat)
    requires RatesOk(r)
    ensures x == RecallTo(price, r) <==> IsFloor(x, price * r.liquidation, r.deposit)
  {
    FloorIs(x, price * r.liquidation, r.deposit);
  }

  lemma {:induction false} RecallBelowExactly(price: nat, r: Rates, x: nat)
    requires RatesOk(r)
    ensures x < RecallBelow(price, r) <==> (x + 1) * r.recall <= price * 100
  {
    FloorExactly(price * BASE_RECALL, r.recall, x + 1);
  }

  lemma {:induction false} RecallDueExactly(w: World, t: Trade)
    requires RatesOk(RatesOf(w, t.pair.collateral)) && Priced(w, t.pair)
    ensures RecallDue(w, t) <==> FarBelow(Quote(w, t.pair), RatesOf(w, t.pair.collateral), t)
  {
    hide RecallBelow;
    RecallBelowExactly(Quote(w, t.pair), RatesOf(w, t.pair.collateral), t.price);
  }

  lemma {:induction false} AfterRecallExactly(w: World, t: Trade, t': Trade)
    requires RatesOk(RatesOf(w, t.pair.collateral)) && Priced(w, t.pair)
    ensures t' == AfterRecall(w, t) <==> RecalledIfDue(Quote(w, t.pair), RatesOf(w, t.pair.collateral), t, t')
  {
    hide RecallDue, FarBelow, IsFloor, RecallTo;
    var price, r := Quote(w, t.pair), RatesOf(w, t.pair.collateral);
    RecallDueExactly(w, t);
    if RecallDue(w, t) {
      RecallTargetPositive(w, t);
      RecallToExactly(price, r, t'.price);
      if t'.price == RecallTo(price, r) { FloorIs(t'.locked, t.locked * t.price, t'.price); }
    }
  }

  /** A recalled loan has the liquidation price that a match opening a loan at this price and these rates would give. */
  lemma {:induction false} RecallAsOpened(w: World, t: Trade, terms: LendTerms, q: nat, now: nat, term: nat,
                                          interest: nat, borrower: Address, investor: Address)
    requires RatesOk(RatesOf(w, t.pair.collateral)) && RecallDue(w, t) && ValidLend(terms)
    requires terms.price == Quote(w, t.pair) && terms.depositRate == RatesOf(w, t.pair.collateral).deposit
    ensures var liquidationRate := RatesOf(w, t.pair.collateral).liquidation;
      AfterRecall(w, t).price
      == NewTrade(terms, liquidationRate, q, now, term, interest, borrower, investor, t.autoTopUp).price
  {
    hide RecallDue, Locked;
    RecallTargetPositive(w, t);
  }

  lemma {:induction false} AfterTopUpExactly(w: World, t: Trade)
    requires Helped(w, t) && AsksTopUp(w, t)
    ensures ToppedUpAt(Quote(w, t.pair), t, AfterTopUp(w, t))
  {
    hide TopUpHelps, TopUpTarget, RequiredLocked, ToppedUpPrice, IsDeposit, IsFloor;
    var price := Quote(w, t.pair);
    HelpNeedsCollateral(t, price);
    TargetOfHelp(t, price);
    ResultFields(t, price);
    var u := TopUpResult(t, price);
    AmountRequired(t, TopUpTarget(price));
    DepositExactly(t, price, u.locked - t.locked);
    FloorIs(u.price, t.locked * t.price, u.locked);
  }

  /** What becomes of a loan that stays open, in its own terms. */
  lemma {:induction false} TreatedExactly(w: World, t: Trade)
    requires Sane(w) && Priced(w, t.pair) && Helped(w, t) && (Above(w, t) ==> t.autoTopUp)
    ensures Handled(Quote(w, t.pair), RatesOf(w, t.pair.collateral), t, Treated(w, t))
  {
    hide Helped, AfterTopUp, AfterRecall, ToppedUpAt, RecalledIfDue;
    var u := AfterTopUp(w, t);
    AfterTopUpIsBelow(w, t);
    AfterRecallExactly(w, u, Treated(w, t));
    if AsksTopUp(w, t) { AfterTopUpExactly(w, t); } else { NotToppedUp(w, t); }
  }

  lemma NotToppedUp(w: World, t: Trade)
    requires Helped(w, t) && !AsksTopUp(w, t)
    ensures AfterTopUp(w, t) == t
  {
  }
}
