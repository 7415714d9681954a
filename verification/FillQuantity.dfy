/** Balance-limited fills: `GetTradeQuantity` (BRCx/order_processor.go) and `GetLendQuantity`
    (BRCxlending/order_processor.go), with big.Int division as floor division. */
module FillQuantity {

  const BASE_FEE: nat := 10000

  datatype Fill = Fill(quantity: nat, rejectMaker: bool)

  // Floor division

  lemma {:induction false} FloorBelow(x: nat, d: nat)
    requires d > 0
    ensures (x / d) * d <= x < (x / d) * d + d
  {
  }

  lemma {:induction false} FloorOf(x: nat, d: nat, q: nat)
    requires d > 0 && q * d <= x
    ensures q <= x / d
  {
    if q >= x / d + 1 {
      MulMonotone(x / d + 1, q, d);
    }
  }

  lemma {:induction false} FloorMonotone(x: nat, y: nat, d: nat)
    requires d > 0 && x <= y
    ensures x / d <= y / d
  {
    FloorBelow(x, d);
    FloorOf(y, d, x / d);
  }

  lemma {:induction false} MulMonotone(a: nat, b: nat, c: nat)
    requires a <= b
    ensures a * c <= b * c
  {
  }

  lemma {:induction false} CancelFactor(a: nat, b: nat, d: nat)
    requires d > 0 && a * d <= b * d
    ensures a <= b
  {
    if a > b { MulMonotone(b + 1, a, d); }
  }

  /** A floor is the greatest number whose multiple fits. */
  lemma {:induction false} FloorExactly(x: nat, d: nat, q: nat)
    requires d > 0
    ensures q <= x / d <==> q * d <= x
  {
    FloorBelow(x, d);
    if q <= x / d { MulMonotone(q, x / d, d); } else { MulMonotone(x / d + 1, q, d); }
  }

  /** `x` is `n` over `d`, rounded down. */
  predicate IsFloor(x: nat, n: nat, d: nat) {
    x * d <= n < (x + 1) * d
  }

  lemma {:induction false} FloorIs(x: nat, n: nat, d: nat)
    requires d > 0
    ensures x == n / d <==> IsFloor(x, n, d)
  {
    FloorExactly(n, d, x);
    FloorExactly(n, d, x + 1);
  }

  /** Two floors in a row are one floor of the product. */
  lemma {:induction false} FloorTwice(x: nat, d: nat, e: nat, q: nat)
    requires d > 0 && e > 0
    ensures q <= x / d / e <==> q * e * d <= x
  {
    FloorExactly(x / d, e, q);
    FloorExactly(x, d, q * e);
  }

  // Exchange

  function QuoteQuantity(q: nat, price: nat, decimal: nat): nat
    requires decimal > 0
  {
    q * price / decimal
  }

  function FeeOn(amount: nat, rate: nat): nat {
    amount * rate / BASE_FEE
  }

  /** What the side paying in the quote token hands over: the quote quantity and the fee on it. */
  function OutTotal(q: nat, price: nat, decimal: nat, rate: nat): nat
    requires decimal > 0
  {
    QuoteQuantity(q, price, decimal) + FeeOn(QuoteQuantity(q, price, decimal), rate)
  }

  /** The quantity a quote balance is taken to pay for. */
  function Payable(balance: nat, price: nat, decimal: nat, rate: nat): nat
    requires price > 0
  {
    balance * decimal * BASE_FEE / (BASE_FEE + rate) / price
  }

  /** `x` is the quote quantity of `q`, rounded down. */
  predicate IsQuote(x: nat, q: nat, price: nat, decimal: nat) {
    IsFloor(x, q * price, decimal)
  }

  /** `x` is the fee on `amount` at a rate in hundredths of a percent, rounded down. */
  predicate IsFee(x: nat, amount: nat, rate: nat) {
    IsFloor(x, amount * rate, 10000)
  }

  lemma {:induction false} QuoteExactly(q: nat, price: nat, decimal: nat, x: nat)
    requires decimal > 0
    ensures x == QuoteQuantity(q, price, decimal) <==> IsQuote(x, q, price, decimal)
  {
    FloorIs(x, q * price, decimal);
  }

  lemma {:induction false} FeeExactly(amount: nat, rate: nat, x: nat)
    ensures x == FeeOn(amount, rate) <==> IsFee(x, amount, rate)
  {
    FloorIs(x, amount * rate, BASE_FEE);
  }

  /** A balance is taken to pay for exactly the quantities whose price with the fee on top, not rounded, it holds. */
  predicate Affords(balance: nat, price: nat, decimal: nat, rate: nat, n: nat) {
    n * price * (10000 + rate) <= balance * decimal * 10000
  }

  lemma {:induction false} PayableExactly(balance: nat, price: nat, decimal: nat, rate: nat, n: nat)
    requires price > 0
    ensures n <= Payable(balance, price, decimal, rate) <==> Affords(balance, price, decimal, rate, n)
  {
    FloorTwice(balance * decimal * BASE_FEE, BASE_FEE + rate, price, n);
  }

  lemma {:induction false} OutTotalMonotone(q: nat, q': nat, price: nat, decimal: nat, rate: nat)
    requires decimal > 0 && q <= q'
    ensures OutTotal(q, price, decimal, rate) <= OutTotal(q', price, decimal, rate)
  {
    MulMonotone(q, q', price);
    FloorMonotone(q * price, q' * price, decimal);
    var x, x' := QuoteQuantity(q, price, decimal), QuoteQuantity(q', price, decimal);
    MulMonotone(x, x', rate);
    FloorMonotone(x * rate, x' * rate, BASE_FEE);
  }

  /** With the fee, `x` costs at most `b` when x * (1 + rate/BASE_FEE) does. */
  lemma {:induction false} WithFeeFits(x: nat, rate: nat, b: nat)
    requires x * (BASE_FEE + rate) <= b * BASE_FEE
    ensures x + FeeOn(x, rate) <= b
  {
    FloorBelow(x * rate, BASE_FEE);
    assert (x + FeeOn(x, rate)) * BASE_FEE <= x * BASE_FEE + x * rate == x * (BASE_FEE + rate);
    CancelFactor(x + FeeOn(x, rate), b, BASE_FEE);
  }

  /** The quote quantity of a payable quantity, scaled, stays within the balance. */
  lemma {:induction false} PayableScaled(balance: nat, price: nat, decimal: nat, rate: nat)
    requires price > 0 && decimal > 0
    ensures var n := Payable(balance, price, decimal, rate);
      QuoteQuantity(n, price, decimal) * (BASE_FEE + rate) <= balance * BASE_FEE
  {
    var whole := balance * decimal * BASE_FEE;
    var m := whole / (BASE_FEE + rate);
    var q := Payable(balance, price, decimal, rate);
    var x := QuoteQuantity(q, price, decimal);
    FloorBelow(m, price);
    FloorBelow(q * price, decimal);
    FloorBelow(whole, BASE_FEE + rate);
    assert x * decimal <= m;
    MulMonotone(x * decimal, m, BASE_FEE + rate);
    assert (x * decimal) * (BASE_FEE + rate) <= whole;
    Regroup(x, decimal, BASE_FEE + rate);
    Regroup(balance, decimal, BASE_FEE);
    CancelFactor(x * (BASE_FEE + rate), balance * BASE_FEE, decimal);
  }

  lemma {:induction false} Regroup(a: nat, b: nat, c: nat)
    ensures (a * b) * c == (a * c) * b
  {
    assert (a * b) * c == a * (b * c) == a * (c * b) == (a * c) * b;
  }

  lemma {:induction false} PayableFits(balance: nat, price: nat, decimal: nat, rate: nat)
    requires price > 0 && decimal > 0
    ensures OutTotal(Payable(balance, price, decimal, rate), price, decimal, rate) <= balance
  {
    PayableScaled(balance, price, decimal, rate);
    WithFeeFits(QuoteQuantity(Payable(balance, price, decimal, rate), price, decimal), rate, balance);
  }

  /** A balance too small for `q` pays for strictly less than `q`. */
  lemma {:induction false} PayableIsLess(balance: nat, price: nat, decimal: nat, rate: nat, q: nat)
    requires price > 0 && decimal > 0 && balance < OutTotal(q, price, decimal, rate)
    ensures Payable(balance, price, decimal, rate) < q
  {
    PayableFits(balance, price, decimal, rate);
    if Payable(balance, price, decimal, rate) >= q {
      OutTotalMonotone(q, Payable(balance, price, decimal, rate), price, decimal, rate);
    }
  }

  function TradeQuantity(takerBuys: bool, takerRate: nat, takerBalance: nat, price: nat, makerRate: nat,
                         makerBalance: nat, decimal: nat, q: nat): Fill
    requires price > 0 && decimal > 0
  {
    if takerBuys then
      var takerOut := OutTotal(q, price, decimal, takerRate);
      if takerBalance >= takerOut && makerBalance >= q then Fill(q, false)
      else if takerBalance < takerOut && makerBalance >= q then
        Fill(Payable(takerBalance, price, decimal, takerRate), false)
      else if takerBalance >= takerOut && makerBalance < q then Fill(makerBalance, true)
      else
        var less := Payable(takerBalance, price, decimal, takerRate);
        if less <= makerBalance then Fill(less, false) else Fill(makerBalance, true)
    else
      var makerOut := OutTotal(q, price, decimal, makerRate);
      if takerBalance >= q && makerBalance >= makerOut then Fill(q, false)
      else if takerBalance < q && makerBalance >= makerOut then Fill(takerBalance, false)
      else if takerBalance >= q && makerBalance < makerOut then
        Fill(Payable(makerBalance, price, decimal, makerRate), true)
      else
        var less := Payable(makerBalance, price, decimal, makerRate);
        if less <= takerBalance then Fill(less, true) else Fill(takerBalance, false)
  }

  /** What the taker and the maker hand over for quantity `q`. */
  function TakerOut(takerBuys: bool, takerRate: nat, price: nat, decimal: nat, q: nat): nat
    requires decimal > 0
  {
    if takerBuys then OutTotal(q, price, decimal, takerRate) else q
  }

  function MakerOut(takerBuys: bool, makerRate: nat, price: nat, decimal: nat, q: nat): nat
    requires decimal > 0
  {
    if takerBuys then q else OutTotal(q, price, decimal, makerRate)
  }

  /** The fill never exceeds the request, both sides can pay for it, and it is the whole request exactly when
      both could pay for that. */
  lemma {:induction false} TradeQuantityFits(takerBuys: bool, takerRate: nat, takerBalance: nat, price: nat,
                                             makerRate: nat, makerBalance: nat, decimal: nat, q: nat)
    requires price > 0 && decimal > 0
    ensures var f := TradeQuantity(takerBuys, takerRate, takerBalance, price, makerRate, makerBalance, decimal, q);
      && f.quantity <= q
      && TakerOut(takerBuys, takerRate, price, decimal, f.quantity) <= takerBalance
      && MakerOut(takerBuys, makerRate, price, decimal, f.quantity) <= makerBalance
      && (f.quantity == q <==>
            && TakerOut(takerBuys, takerRate, price, decimal, q) <= takerBalance
            && MakerOut(takerBuys, makerRate, price, decimal, q) <= makerBalance)
      && (f.rejectMaker ==> f.quantity < q && makerBalance < MakerOut(takerBuys, makerRate, price, decimal, q))
  {
    hide OutTotal, Payable;
    var rate := if takerBuys then takerRate else makerRate;
    var balance, other := if takerBuys then takerBalance else makerBalance,
                          if takerBuys then makerBalance else takerBalance;
    PayableFits(balance, price, decimal, rate);
    if balance < OutTotal(q, price, decimal, rate) {
      PayableIsLess(balance, price, decimal, rate, q);
    }
    if other < q { OutTotalMonotone(other, q, price, decimal, rate); }
    var most := Payable(balance, price, decimal, rate);
    if other < most { OutTotalMonotone(other, most, price, decimal, rate); }
  }

  /** Balance and rate of the side that pays in the quote token, and the balance of the side that pays in base. */
  datatype Payers = Payers(quoteBalance: nat, rate: nat, baseBalance: nat, makerPaysQuote: bool)

  function PayersOf(takerBuys: bool, takerRate: nat, takerBalance: nat, makerRate: nat, makerBalance: nat): Payers {
    if takerBuys then Payers(takerBalance, takerRate, makerBalance, false)
    else Payers(makerBalance, makerRate, takerBalance, true)
  }

  /** The quote side holds the rounded price of all of `q`, fee included. */
  ghost predicate PaysAll(p: Payers, price: nat, decimal: nat, q: nat) {
    exists amount: nat, fee: nat ::
      IsQuote(amount, q, price, decimal) && IsFee(fee, amount, p.rate) && amount + fee <= p.quoteBalance
  }

  /** `n` units can be filled: they are asked for, the base side holds them, and the quote side can pay for all that is
      asked or for these. */
  ghost predicate CanFill(p: Payers, price: nat, decimal: nat, q: nat, n: nat) {
    && n <= q && n <= p.baseBalance
    && (PaysAll(p, price, decimal, q) || Affords(p.quoteBalance, price, decimal, p.rate, n))
  }

  /** The quote side is what limits the fill: it cannot pay for all, and for no more than the base side holds. */
  ghost predicate QuoteLimits(p: Payers, price: nat, decimal: nat, q: nat) {
    && !PaysAll(p, price, decimal, q)
    && (p.baseBalance >= q || !Affords(p.quoteBalance, price, decimal, p.rate, p.baseBalance + 1))
  }

  /** The base side is: it does not hold all, and the quote side could pay for more than it holds. */
  ghost predicate BaseLimits(p: Payers, price: nat, decimal: nat, q: nat) {
    && p.baseBalance < q
    && (PaysAll(p, price, decimal, q) || Affords(p.quoteBalance, price, decimal, p.rate, p.baseBalance + 1))
  }

  lemma {:induction false} PaysAllExactly(p: Payers, price: nat, decimal: nat, q: nat)
    requires decimal > 0
    ensures PaysAll(p, price, decimal, q) <==> OutTotal(q, price, decimal, p.rate) <= p.quoteBalance
  {
    var amount := QuoteQuantity(q, price, decimal);
    QuoteExactly(q, price, decimal, amount);
    FeeExactly(amount, p.rate, FeeOn(amount, p.rate));
    if PaysAll(p, price, decimal, q) {
      var x: nat, fee: nat :| IsQuote(x, q, price, decimal) && IsFee(fee, x, p.rate) && x + fee <= p.quoteBalance;
      QuoteExactly(q, price, decimal, x);
      FeeExactly(x, p.rate, fee);
    }
  }

  /** The fill is the greatest quantity that can be filled, and the maker is rejected exactly when its own balance is
      what limits it; on a tie the side that pays in quote counts as the limit. */
  ghost predicate IsFill(p: Payers, price: nat, decimal: nat, q: nat, f: Fill) {
    && (forall n: nat :: n <= f.quantity <==> CanFill(p, price, decimal, q, n))
    && (f.rejectMaker <==>
          if p.makerPaysQuote then QuoteLimits(p, price, decimal, q) else BaseLimits(p, price, decimal, q))
  }

  lemma {:induction false} TradeQuantityExactly(takerBuys: bool, takerRate: nat, takerBalance: nat, price: nat,
                                                makerRate: nat, makerBalance: nat, decimal: nat, q: nat)
    requires price > 0 && decimal > 0
    ensures IsFill(PayersOf(takerBuys, takerRate, takerBalance, makerRate, makerBalance), price, decimal, q,
                   TradeQuantity(takerBuys, takerRate, takerBalance, price, makerRate, makerBalance, decimal, q))
  {
    hide OutTotal, Payable, PaysAll, Affords;
    var p := PayersOf(takerBuys, takerRate, takerBalance, makerRate, makerBalance);
    var f := TradeQuantity(takerBuys, takerRate, takerBalance, price, makerRate, makerBalance, decimal, q);
    PaysAllExactly(p, price, decimal, q);
    PayableExactly(p.quoteBalance, price, decimal, p.rate, p.baseBalance + 1);
    if p.quoteBalance < OutTotal(q, price, decimal, p.rate) {
      PayableIsLess(p.quoteBalance, price, decimal, p.rate, q);
    }
    forall n: nat ensures n <= f.quantity <==> CanFill(p, price, decimal, q, n) {
      PayableExactly(p.quoteBalance, price, decimal, p.rate, n);
    }
  }

  // Lending

  /** The collateral locked for lending `q`. */
  function Collateral(q: nat, price: nat, decimal: nat, depositRate: nat): nat
    requires price > 0
  {
    q * decimal * depositRate / 100 / price
  }

  /** The quantity a collateral balance is taken to secure. */
  function Securable(balance: nat, price: nat, decimal: nat, depositRate: nat): nat
    requires decimal > 0 && depositRate > 0
  {
    balance * price * 100 / depositRate / decimal
  }

  /** `x` is the collateral for `q` at a deposit rate in percent, rounded down. */
  predicate IsCollateral(x: nat, q: nat, price: nat, decimal: nat, depositRate: nat) {
    x * price * 100 <= q * decimal * depositRate < (x + 1) * price * 100
  }

  lemma {:induction false} CollateralExactly(q: nat, price: nat, decimal: nat, depositRate: nat, x: nat)
    requires price > 0
    ensures x == Collateral(q, price, decimal, depositRate) <==> IsCollateral(x, q, price, decimal, depositRate)
  {
    FloorTwice(q * decimal * depositRate, 100, price, x);
    FloorTwice(q * decimal * depositRate, 100, price, x + 1);
  }

  /** A collateral balance is taken to secure exactly the quantities whose collateral, not rounded, it holds. */
  predicate Secures(balance: nat, price: nat, decimal: nat, depositRate: nat, n: nat) {
    n * decimal * depositRate <= balance * price * 100
  }

  lemma {:induction false} SecurableExactly(balance: nat, price: nat, decimal: nat, depositRate: nat, n: nat)
    requires decimal > 0 && depositRate > 0
    ensures n <= Securable(balance, price, decimal, depositRate) <==> Secures(balance, price, decimal, depositRate, n)
  {
    FloorTwice(balance * price * 100, depositRate, decimal, n);
  }

  lemma {:induction false} CollateralMonotone(q: nat, q': nat, price: nat, decimal: nat, depositRate: nat)
    requires price > 0 && q <= q'
    ensures Collateral(q, price, decimal, depositRate) <= Collateral(q', price, decimal, depositRate)
  {
    MulMonotone(q, q', decimal);
    MulMonotone(q * decimal, q' * decimal, depositRate);
    FloorMonotone(q * decimal * depositRate, q' * decimal * depositRate, 100);
    FloorMonotone(q * decimal * depositRate / 100, q' * decimal * depositRate / 100, price);
  }

  lemma {:induction false} SecurableScaled(balance: nat, price: nat, decimal: nat, depositRate: nat)
    requires decimal > 0 && depositRate > 0
    ensures Securable(balance, price, decimal, depositRate) * decimal * depositRate <= balance * price * 100
  {
    var whole := balance * price * 100;
    var m := whole / depositRate;
    FloorBelow(whole, depositRate);
    FloorBelow(m, decimal);
    MulMonotone((m / decimal) * decimal, m, depositRate);
  }

  lemma {:induction false} SecurableFits(balance: nat, price: nat, decimal: nat, depositRate: nat)
    requires price > 0 && decimal > 0 && depositRate > 0
    ensures Collateral(Securable(balance, price, decimal, depositRate), price, decimal, depositRate) <= balance
  {
    SecurableScaled(balance, price, decimal, depositRate);
    var y := Securable(balance, price, decimal, depositRate) * decimal * depositRate;
    FloorBelow(y, 100);
    assert (y / 100) * 100 <= (balance * price) * 100;
    CancelFactor(y / 100, balance * price, 100);
    FloorBelow(y / 100, price);
    CancelFactor(y / 100 / price, balance, price);
  }

  lemma {:induction false} SecurableIsLess(balance: nat, price: nat, decimal: nat, depositRate: nat, q: nat)
    requires price > 0 && decimal > 0 && depositRate > 0 && balance < Collateral(q, price, decimal, depositRate)
    ensures Securable(balance, price, decimal, depositRate) < q
  {
    SecurableFits(balance, price, decimal, depositRate);
    if Securable(balance, price, decimal, depositRate) >= q {
      CollateralMonotone(q, Securable(balance, price, decimal, depositRate), price, decimal, depositRate);
    }
  }

  function LendQuantity(takerBorrows: bool, decimal: nat, depositRate: nat, price: nat, takerBalance: nat,
                        makerBalance: nat, q: nat): Fill
    requires price > 0 && decimal > 0 && depositRate > 0
  {
    if takerBorrows then
      var takerOut := Collateral(q, price, decimal, depositRate);
      if takerBalance >= takerOut && makerBalance >= q then Fill(q, false)
      else if takerBalance < takerOut && makerBalance >= q then
        Fill(Securable(takerBalance, price, decimal, depositRate), false)
      else if takerBalance >= takerOut && makerBalance < q then Fill(makerBalance, true)
      else
        var less := Securable(takerBalance, price, decimal, depositRate);
        if less <= makerBalance then Fill(less, false) else Fill(makerBalance, true)
    else
      var makerOut := Collateral(q, price, decimal, depositRate);
      if takerBalance >= q && makerBalance >= makerOut then Fill(q, false)
      else if takerBalance < q && makerBalance >= makerOut then Fill(takerBalance, false)
      else if takerBalance >= q && makerBalance < makerOut then
        Fill(Securable(makerBalance, price, decimal, depositRate), true)
      else
        var less := Securable(makerBalance, price, decimal, depositRate);
        if less <= takerBalance then Fill(less, true) else Fill(takerBalance, false)
  }

  function LendTakerOut(takerBorrows: bool, price: nat, decimal: nat, depositRate: nat, q: nat): nat
    requires price > 0
  {
    if takerBorrows then Collateral(q, price, decimal, depositRate) else q
  }

  function LendMakerOut(takerBorrows: bool, price: nat, decimal: nat, depositRate: nat, q: nat): nat
    requires price > 0
  {
    if takerBorrows then q else Collateral(q, price, decimal, depositRate)
  }

  lemma {:induction false} LendQuantityFits(takerBorrows: bool, decimal: nat, depositRate: nat, price: nat,
                                            takerBalance: nat, makerBalance: nat, q: nat)
    requires price > 0 && decimal > 0 && depositRate > 0
    ensures var f := LendQuantity(takerBorrows, decimal, depositRate, price, takerBalance, makerBalance, q);
      && f.quantity <= q
      && LendTakerOut(takerBorrows, price, decimal, depositRate, f.quantity) <= takerBalance
      && LendMakerOut(takerBorrows, price, decimal, depositRate, f.quantity) <= makerBalance
      && (f.quantity == q <==>
            && LendTakerOut(takerBorrows, price, decimal, depositRate, q) <= takerBalance
            && LendMakerOut(takerBorrows, price, decimal, depositRate, q) <= makerBalance)
      && (f.rejectMaker ==> f.quantity < q && makerBalance < LendMakerOut(takerBorrows, price, decimal, depositRate, q))
  {
    hide Collateral, Securable;
    var balance, other := if takerBorrows then takerBalance else makerBalance,
                          if takerBorrows then makerBalance else takerBalance;
    SecurableFits(balance, price, decimal, depositRate);
    if balance < Collateral(q, price, decimal, depositRate) {
      SecurableIsLess(balance, price, decimal, depositRate, q);
    }
    if other < q { CollateralMonotone(other, q, price, decimal, depositRate); }
    var most := Securable(balance, price, decimal, depositRate);
    if other < most { CollateralMonotone(other, most, price, decimal, depositRate); }
  }

  /** The borrower's collateral balance and the investor's balance, and whether the borrower is the maker. */
  datatype Lenders = Lenders(collateralBalance: nat, lentBalance: nat, makerBorrows: bool)

  function LendersOf(takerBorrows: bool, takerBalance: nat, makerBalance: nat): Lenders {
    if takerBorrows then Lenders(takerBalance, makerBalance, false) else Lenders(makerBalance, takerBalance, true)
  }

  /** The borrower holds the rounded collateral for all of `q`. */
  ghost predicate SecuresAll(p: Lenders, decimal: nat, depositRate: nat, price: nat, q: nat) {
    exists x: nat :: IsCollateral(x, q, price, decimal, depositRate) && x <= p.collateralBalance
  }

  ghost predicate CanLend(p: Lenders, decimal: nat, depositRate: nat, price: nat, q: nat, n: nat) {
    && n <= q && n <= p.lentBalance
    && (SecuresAll(p, decimal, depositRate, price, q) || Secures(p.collateralBalance, price, decimal, depositRate, n))
  }

  ghost predicate CollateralLimits(p: Lenders, decimal: nat, depositRate: nat, price: nat, q: nat) {
    && !SecuresAll(p, decimal, depositRate, price, q)
    && (p.lentBalance >= q || !Secures(p.collateralBalance, price, decimal, depositRate, p.lentBalance + 1))
  }

  ghost predicate LentLimits(p: Lenders, decimal: nat, depositRate: nat, price: nat, q: nat) {
    && p.lentBalance < q
    && (|| SecuresAll(p, decimal, depositRate, price, q)
        || Secures(p.collateralBalance, price, decimal, depositRate, p.lentBalance + 1))
  }

  lemma {:induction false} SecuresAllExactly(p: Lenders, decimal: nat, depositRate: nat, price: nat, q: nat)
    requires price > 0
    ensures SecuresAll(p, decimal, depositRate, price, q) <==>
      Collateral(q, price, decimal, depositRate) <= p.collateralBalance
  {
    CollateralExactly(q, price, decimal, depositRate, Collateral(q, price, decimal, depositRate));
    if SecuresAll(p, decimal, depositRate, price, q) {
      var x: nat :| IsCollateral(x, q, price, decimal, depositRate) && x <= p.collateralBalance;
      CollateralExactly(q, price, decimal, depositRate, x);
    }
  }

  /** The lending fill is the greatest quantity that can be lent, and the maker is rejected exactly when its own balance
      is what limits it; on a tie the borrower counts as the limit. */
  ghost predicate IsLoan(p: Lenders, decimal: nat, depositRate: nat, price: nat, q: nat, f: Fill) {
    && (forall n: nat :: n <= f.quantity <==> CanLend(p, decimal, depositRate, price, q, n))
    && (f.rejectMaker <==>
          if p.makerBorrows then CollateralLimits(p, decimal, depositRate, price, q)
          else LentLimits(p, decimal, depositRate, price, q))
  }

  lemma {:induction false} LendQuantityExactly(takerBorrows: bool, decimal: nat, depositRate: nat, price: nat,
                                               takerBalance: nat, makerBalance: nat, q: nat)
    requires price > 0 && decimal > 0 && depositRate > 0
    ensures IsLoan(LendersOf(takerBorrows, takerBalance, makerBalance), decimal, depositRate, price, q,
                   LendQuantity(takerBorrows, decimal, depositRate, price, takerBalance, makerBalance, q))
  {
    hide Collateral, Securable, SecuresAll, Secures;
    var p := LendersOf(takerBorrows, takerBalance, makerBalance);
    var f := LendQuantity(takerBorrows, decimal, depositRate, price, takerBalance, makerBalance, q);
    SecuresAllExactly(p, decimal, depositRate, price, q);
    SecurableExactly(p.collateralBalance, price, decimal, depositRate, p.lentBalance + 1);
    if p.collateralBalance < Collateral(q, price, decimal, depositRate) {
      SecurableIsLess(p.collateralBalance, price, decimal, depositRate, q);
    }
    forall n: nat ensures n <= f.quantity <==> CanLend(p, decimal, depositRate, price, q, n) {
      SecurableExactly(p.collateralBalance, price, decimal, depositRate, n);
    }
  }
}
