/** `ProcessLiquidationData` (BRCxlending/BRCxlending.go): the periodic sweep over all loans. It ends the loans
    past their time, then pair by pair tops up or liquidates the loans whose liquidation price lies above the
    collateral price, and gives collateral back to loans far below it. */
module Sweep {
  import opened Options
  import opened FillQuantity
  import opened Ledger
  import opened Loans
  import opened LoanSteps
  import opened LoanEnds
  import opened LendingDb
  import opened LoanMeaning
  import opened LoanFate

  // The sweep as a run of steps

  /** The steps the sweep may take on `s`: end an overdue loan; top up a loan above the price that asks for it;
      liquidate one above the price that does not ask or cannot be topped up; recall one that is due for it. */
  ghost predicate Proper(w: World, s: State, step: Step)
    requires Inv(s)
  {
    match step
    case Repay(k, c) =>
      k in s.trades && Overdue(w, k, s.trades[k]) && c == ContextOf(w, s.trades[k].pair) && !RepayPanics(s, k, c)
    case AutoTopUp(k, price) =>
      && k in s.trades && Above(w, s.trades[k]) && s.trades[k].autoTopUp && price == Quote(w, s.trades[k].pair)
      && TopUpTarget(price) > 0 && s.trades[k].locked > 0 && AutoToppedUp(s, k, price).Some?
    case Liquidate(k) =>
      && k in s.trades && Above(w, s.trades[k])
      && (s.trades[k].autoTopUp ==>
            && TopUpTarget(Quote(w, s.trades[k].pair)) > 0 && s.trades[k].locked > 0
            && AutoToppedUp(s, k, Quote(w, s.trades[k].pair)).None?)
    case Recall(k, price) =>
      && k in s.trades && RatesOk(RatesOf(w, s.trades[k].pair.collateral)) && RecallDue(w, s.trades[k])
      && price == RecallTo(Quote(w, s.trades[k].pair), RatesOf(w, s.trades[k].pair.collateral))
    case _ => false
  }

  lemma {:induction false} ProperEnabled(w: World, s: State, step: Step)
    requires Inv(s) && Proper(w, s, step)
    ensures Enabled(s, step)
  {
    hide Inv, AutoToppedUp, TopUpTarget, RecallDue, RecallTo;
  }

  /** The same in the terms of the loan: what the chain knows is handed on as it is, a loan that asks for a top-up is
      liquidated only when its borrower does not have the deposit, and a recall goes where it should. */
  lemma {:induction false} ProperMeans(w: World, s: State, step: Step)
    requires Inv(s) && Proper(w, s, step)
    ensures step.key in s.trades
    ensures var t := s.trades[step.key];
      match step
      case Repay(k, c) =>
        && k.book in w.books && t.time < w.now && c.now == w.now && c.fork == w.fork
        && (c.price > 0 ==> t.pair in w.quotes && w.quotes[t.pair] == c.price)
        && (c.price == 0 ==> t.pair in w.quotes ==> w.quotes[t.pair] == 0)
        && c.liquidationRate == if t.pair.collateral in w.rates then w.rates[t.pair.collateral].liquidation else 0
      case AutoTopUp(k, price) => HasPrice(w, t.pair, price) && t.price > price && t.autoTopUp
      case Liquidate(k) =>
        && t.pair in w.quotes && HasPrice(w, t.pair, w.quotes[t.pair]) && t.price > w.quotes[t.pair]
        && (t.autoTopUp ==>
              forall quantity :: IsDeposit(t, w.quotes[t.pair], quantity) ==> Balance(s.balances, Owned(t)) < quantity)
      case Recall(k, price) =>
        && t.pair.collateral in w.rates && t.pair in w.quotes && HasPrice(w, t.pair, w.quotes[t.pair])
        && FarBelow(w.quotes[t.pair], w.rates[t.pair.collateral], t)
        && IsFloor(price, w.quotes[t.pair] * w.rates[t.pair.collateral].liquidation,
                   w.rates[t.pair.collateral].deposit)
      case _ => true
  {
    hide Inv, RecallTo, RecallDue, FarBelow, IsDeposit, IsFloor, AutoToppedUp, TopUpTarget, RepayPanics;
    var t := s.trades[step.key];
    match step
    case Recall(_, price) =>
      RecallIsPriced(w, t);
      RecallDueExactly(w, t);
      RecallToExactly(Quote(w, t.pair), RatesOf(w, t.pair.collateral), price);
    case Liquidate(k) =>
      if t.autoTopUp { DepositLacking(s, k, Quote(w, t.pair)); }
    case _ =>
  }

  lemma RecallIsPriced(w: World, t: Trade)
    requires RatesOk(RatesOf(w, t.pair.collateral)) && RecallDue(w, t)
    ensures Priced(w, t.pair)
  {
  }

  lemma {:induction false} DepositLacking(s: State, k: Key, price: nat)
    requires Inv(s) && k in s.trades && price < s.trades[k].price && TopUpTarget(price) > 0 && s.trades[k].locked > 0
    requires AutoToppedUp(s, k, price).None?
    ensures forall quantity ::
      IsDeposit(s.trades[k], price, quantity) ==> Balance(s.balances, Owned(s.trades[k])) < quantity
  {
    hide Inv, AutoToppedUp, IsDeposit, TopUpTarget, TopsUp;
    forall quantity: nat | IsDeposit(s.trades[k], price, quantity)
      ensures Balance(s.balances, Owned(s.trades[k])) < quantity
    {
      AutoTopUpMeans(s, k, price, quantity);
    }
  }

  /** The steps lead from `s` to `s'`, each of them proper where it is taken. */
  ghost predicate SweepRun(w: World, s: State, steps: seq<Step>, s': State)
    decreases |steps|
  {
    if steps == [] then s' == s
    else
      && Inv(s) && Proper(w, s, steps[0])
      && (ProperEnabled(w, s, steps[0]); SweepRun(w, Next(s, steps[0]), steps[1..], s'))
  }

  lemma {:induction false} RunConcat(w: World, s: State, xs: seq<Step>, m: State, ys: seq<Step>, s': State)
    requires SweepRun(w, s, xs, m) && SweepRun(w, m, ys, s')
    ensures SweepRun(w, s, xs + ys, s')
    decreases |xs|
  {
    hide Inv, Proper, Next;
    if xs == [] {
      assert xs + ys == ys;
    } else {
      ProperEnabled(w, s, xs[0]);
      RunConcat(w, Next(s, xs[0]), xs[1..], m, ys, s');
      assert (xs + ys)[0] == xs[0] && (xs + ys)[1..] == xs[1..] + ys;
    }
  }

  lemma {:induction false} RunSnoc(w: World, s: State, steps: seq<Step>, m: State, step: Step)
    requires SweepRun(w, s, steps, m) && Inv(m) && Proper(w, m, step)
    ensures Enabled(m, step) && SweepRun(w, s, steps + [step], Next(m, step))
  {
    hide Inv, Proper, Next;
    ProperEnabled(w, m, step);
    assert [step][1..] == [];
    assert SweepRun(w, Next(m, step), [], Next(m, step));
    RunConcat(w, s, steps, m, [step], Next(m, step));
  }

  /** The sweep neither creates nor destroys tokens. */
  lemma {:induction false} SweepConserves(w: World, s: State, steps: seq<Step>, s': State, t: Token)
    requires SweepRun(w, s, steps, s')
    ensures Total(s'.balances, t) == Total(s.balances, t)
    decreases |steps|
  {
    hide Inv, Next, Total;
    if steps != [] {
      ProperEnabled(w, s, steps[0]);
      LoanStepsConserve(s, steps[0], t);
      SweepConserves(w, Next(s, steps[0]), steps[1..], s', t);
    }
  }

  // Loans a top-up does not help

  /** The sweep would top this loan up, and that would change nothing. */
  predicate Stuck(w: World, k: Key, t: Trade) {
    && !Overdue(w, k, t) && AsksTopUp(w, t) && TopUpTarget(Quote(w, t.pair)) > 0 && t.locked > 0
    && TopUpResult(t, Quote(w, t.pair)) == t
  }

  /** No proper step moves a stuck loan: it is not overdue, not due for a recall, and its top-up always succeeds. */
  lemma {:induction false} StuckStep(w: World, s: State, step: Step, k: Key)
    requires Inv(s) && k in s.trades && Stuck(w, k, s.trades[k]) && Proper(w, s, step)
    ensures Enabled(s, step) && k in Next(s, step).trades && Next(s, step).trades[k] == s.trades[k]
  {
    hide Inv, TopUpTarget, TopUpResult, RecallTo, RecallBelow, Expired, ExpiryEntries, EndingOf, RequiredLocked,
      ToppedUpPrice;
    ProperEnabled(w, s, step);
    StalledSucceeds(s, k, Quote(w, s.trades[k].pair));
    match step
    case Repay(j, c) =>
      RepayKeeps(s, j, c);
    case AutoTopUp(j, price) =>
      AutoTopUpTrade(s, j, price);
    case Liquidate(j) =>
    case Recall(j, price) =>
      RecallRaises(Quote(w, s.trades[j].pair), RatesOf(w, s.trades[j].pair.collateral));
  }

  /** However long the sweep goes on, a stuck loan stays above the collateral price. */
  lemma {:induction false} StuckForever(w: World, s: State, steps: seq<Step>, s': State, k: Key)
    requires SweepRun(w, s, steps, s') && Inv(s) && k in s.trades && Stuck(w, k, s.trades[k])
    ensures k in s'.trades && s'.trades[k] == s.trades[k] && Above(w, s'.trades[k])
    decreases |steps|
  {
    hide Inv, Proper, Next, Stuck;
    if steps != [] {
      StuckStep(w, s, steps[0], k);
      StepKeeps(s, steps[0]);
      StuckForever(w, Next(s, steps[0]), steps[1..], s', k);
    }
    assert Above(w, s.trades[k]) by { StuckIsAbove(w, k, s.trades[k]); }
  }

  lemma {:induction false} StuckIsAbove(w: World, k: Key, t: Trade)
    requires Stuck(w, k, t)
    ensures Above(w, t)
  {
  }

  /** A top-up step brings its loan down to the collateral price if and only if the top-up helps. If it does not,
      no continuation of the sweep ever will, so the loop over the pair does not end. */
  lemma {:induction false} TopUpStepExactly(w: World, s: State, k: Key, steps: seq<Step>, s': State)
    requires Inv(s) && k in s.trades && !Overdue(w, k, s.trades[k]) && AsksTopUp(w, s.trades[k])
    requires TopUpTarget(Quote(w, s.trades[k].pair)) > 0 && s.trades[k].locked > 0
    requires AutoToppedUp(s, k, Quote(w, s.trades[k].pair)).Some?
    requires SweepRun(w, AutoToppedUp(s, k, Quote(w, s.trades[k].pair)).value, steps, s')
    ensures var t, price := s.trades[k], Quote(w, s.trades[k].pair);
      && k in AutoToppedUp(s, k, price).value.trades
      && (!Above(w, AutoToppedUp(s, k, price).value.trades[k]) <==> TopUpHelps(t, price))
      && (!TopUpHelps(t, price) ==> k in s'.trades && Above(w, s'.trades[k]))
  {
    hide Inv, SweepRun, AutoToppedUp, TopUpTarget, TopUpHelps, RequiredLocked, ToppedUpPrice;
    var t, price := s.trades[k], Quote(w, s.trades[k].pair);
    AutoTopUpTrade(s, k, price);
    TopUpHelpsExactly(t, price);
    if !TopUpHelps(t, price) {
      AutoTopUpStalls(s, k, price);
      TopUpStalls(t, price);
      StuckForever(w, AutoToppedUp(s, k, price).value, steps, s', k);
    }
  }

  /** Token 6 has fallen to 90, its rates are those of the match, and nothing is overdue. */
  function AtNinety(): World {
    World(6, true, {1}, {Pair(6, 5)}, map[Pair(6, 5) := 90], map[6 := Rates(150, 110, 150)])
  }

  /** After the first top-up of the loan of 8 units. */
  ghost function EightToppedUp(): State {
    EightAreTooFew();
    AutoToppedUp(EightUnits(), Key(1, 1), 90).value
  }

  /** Such a loan is opened by a match: 8 units at liquidation price 91, with the collateral at 90 now. The sweep may
      top it up, and no sweep that does ever ends. */
  lemma {:induction false} EightUnitsBlockTheSweep(steps: seq<Step>, s': State)
    requires SweepRun(AtNinety(), EightToppedUp(), steps, s')
    ensures Sane(AtNinety()) && Inv(EightUnits()) && Proper(AtNinety(), EightUnits(), AutoTopUp(Key(1, 1), 90))
    ensures Key(1, 1) in s'.trades && s'.trades[Key(1, 1)].price > 90
  {
    EightAreTooFew();
    EightUnitsOpened();
    hide Inv, SweepRun, AutoToppedUp, TopUpHelps, EightUnits;
    TopUpStepExactly(AtNinety(), EightUnits(), Key(1, 1), steps, s');
  }

  // How the sweep may go wrong

  /** A sweep comes to its end, tops up a loan that it will find again and again, or divides by zero. */
  datatype Outcome = Swept | NeverEnds | Panics

  /** The next call of the sweep on this loan divides by zero. */
  predicate Panicking(w: World, s: State, k: Key)
    requires k in s.trades
  {
    var t := s.trades[k];
    || (Overdue(w, k, t) && RepayPanics(s, k, ContextOf(w, t.pair)))
    || (AsksTopUp(w, t) && (TopUpTarget(Quote(w, t.pair)) == 0 || t.locked == 0))
  }

  /** Why the sweep does not come to its end in state `s`. */
  ghost predicate Explains(w: World, s: State, outcome: Outcome) {
    match outcome
    case Swept => true
    case NeverEnds => exists k :: k in s.trades && Stuck(w, k, s.trades[k])
    case Panics => exists k :: k in s.trades && Panicking(w, s, k)
  }

  /** Where it never ends, every way on leaves a loan above the price of its pair, and the loop over that pair goes
      on. */
  lemma {:induction false} LoopGoesOn(w: World, s: State, steps: seq<Step>, s': State)
    requires Inv(s) && Explains(w, s, NeverEnds) && SweepRun(w, s, steps, s')
    ensures exists k :: k in s'.trades && Above(w, s'.trades[k])
  {
    hide Inv, Stuck, SweepRun, Above;
    var k :| k in s.trades && Stuck(w, k, s.trades[k]);
    StuckForever(w, s, steps, s', k);
  }

  // Loans past their time

  lemma {:induction false} LowestOf(times: set<TimeEntry>) returns (least: TimeEntry)
    requires times != {}
    ensures least in times && forall f :: f in times ==> least.time <= f.time
  {
    var e :| e in times;
    least := e;
    if times - {e} != {} {
      var m := LowestOf(times - {e});
      least := if e.time <= m.time then e else m;
    }
    forall f | f in times ensures least.time <= f.time {
      if f != e { assert f in times - {e}; }
    }
  }

  lemma {:induction false} LowestExists(times: set<TimeEntry>)
    requires times != {}
    ensures exists e :: e in times && forall f :: f in times ==> e.time <= f.time
  {
    var least := LowestOf(times);
  }

  /** The earliest liquidation time in a book and its trades; time 0 if the book has none. */
  method LowestLiquidationTime(db: Lending, book: nat) returns (time: nat, ids: set<Key>)
    requires db.Valid()
    ensures time == 0 ==> forall k :: k in db.trades ==> k.book != book
    ensures time > 0 ==> ids != {} && forall k :: k in db.trades && k.book == book ==> time <= db.trades[k].time
    ensures forall k :: k in ids <==> time > 0 && k in db.trades && k.book == book && db.trades[k].time == time
  {
    var entries := set e | e in db.times && e.key.book == book;
    TimesListed(db.View(), entries, book);
    if entries == {} {
      return 0, {};
    }
    LowestExists(entries);
    var first :| first in entries && forall f :: f in entries ==> first.time <= f.time;
    time := first.time;
    ids := set e | e in entries && e.time == time :: e.key;
    assert first.key in ids;
  }

  lemma {:induction false} TimesListed(s: State, entries: set<TimeEntry>, book: nat)
    requires Inv(s) && entries == set e | e in s.times && e.key.book == book
    ensures forall k :: k in s.trades && k.book == book ==> TimeOf(k, s.trades[k]) in entries
    ensures forall e ::
      e in entries ==> e.key in s.trades && e.key.book == book && e == TimeOf(e.key, s.trades[e.key]) && e.time > 0
  {
  }

  /** The loans of a book that are past their time. */
  function Late(trades: Trades, book: nat, now: nat): set<Key> {
    set k | k in trades && k.book == book && trades[k].time < now
  }

  /** Loans that may expire have a liquidation rate where their pair has a price. */
  ghost predicate RatesKnown(trades: Trades, w: World) {
    forall k :: k in trades && Overdue(w, k, trades[k]) && w.fork ==> Rated(ContextOf(w, trades[k].pair))
  }

  /** Ends every loan of a book that is past its time, and no other. */
  method ExpireBook(db: Lending, w: World, book: nat) returns (outcome: Outcome, ghost steps: seq<Step>)
    requires db.Valid() && book in w.books
    modifies db
    ensures db.Valid() && SweepRun(w, old(db.View()), steps, db.View()) && Explains(w, db.View(), outcome)
    ensures outcome == Swept ==> db.trades == old(db.trades) - Late(old(db.trades), book, w.now)
    ensures RatesKnown(old(db.trades), w) ==> outcome == Swept
  {
    hide Inv, Explains;
    ghost var start := db.trades;
    steps := [];
    assert SweepRun(w, db.View(), steps, db.View());
    hide SweepRun;
    var lowest, ids := LowestLiquidationTime(db, book);
    while lowest > 0 && lowest < w.now
      invariant db.Valid() && lowest >= 0 && SweepRun(w, old(db.View()), steps, db.View())
      invariant db.trades == start - (Late(start, book, w.now) - Late(db.trades, book, w.now))
      invariant lowest == 0 ==> forall k :: k in db.trades ==> k.book != book
      invariant lowest > 0 ==> ids != {} && forall k :: k in db.trades && k.book == book ==> lowest <= db.trades[k].time
      invariant forall k :: k in ids <==> lowest > 0 && k in db.trades && k.book == book && db.trades[k].time == lowest
      decreases Late(db.trades, book, w.now)
    {
      ghost var before, s, more := db.trades, db.View(), [];
      outcome, more := EndAll(db, w, ids);
      RunConcat(w, old(db.View()), steps, s, more, db.View());
      steps := steps + more;
      if outcome != Swept {
        return;
      }
      LateShrinks(before, db.trades, ids, book, w.now);
      lowest, ids := LowestLiquidationTime(db, book);
    }
    assert forall k :: k in db.trades && k.book == book ==> db.trades[k].time >= w.now;
    assert Late(db.trades, book, w.now) == {};
    outcome := Swept;
    Fine(w, db.View());
  }

  lemma {:induction false} Fine(w: World, s: State)
    ensures Explains(w, s, Swept)
  {
  }

  lemma {:induction false} LateShrinks(before: Trades, after: Trades, ids: set<Key>, book: nat, now: nat)
    requires after == before - ids && ids != {} && ids <= Late(before, book, now)
    ensures Late(after, book, now) == Late(before, book, now) - ids && Late(after, book, now) < Late(before, book, now)
  {
    var k :| k in ids;
    assert k in Late(before, book, now) && k !in Late(after, book, now);
  }

  /** Repays or liquidates the listed loans, all of them due. */
  method EndAll(db: Lending, w: World, ids: set<Key>) returns (outcome: Outcome, ghost steps: seq<Step>)
    requires db.Valid()
    requires forall k :: k in ids ==> k in db.trades && Overdue(w, k, db.trades[k])
    modifies db
    ensures db.Valid() && SweepRun(w, old(db.View()), steps, db.View()) && Explains(w, db.View(), outcome)
    ensures outcome == Swept ==> db.trades == old(db.trades) - ids
    ensures RatesKnown(old(db.trades), w) ==> outcome == Swept
  {
    hide Inv;
    var left := ids;
    steps := [];
    assert SweepRun(w, db.View(), steps, db.View());
    hide SweepRun, Repaid, TotalRepay;
    while left != {}
      invariant db.Valid() && left <= ids && db.trades == old(db.trades) - (ids - left)
      invariant SweepRun(w, old(db.View()), steps, db.View())
      decreases left
    {
      var k :| k in left;
      ghost var s := db.View();
      var c := ContextOf(w, db.trades[k].pair);
      if !RepayPanics(s, k, c) { RepayKeeps(s, k, c); }
      var ending := db.ProcessRepayLendingTrade(k, c);
      if ending == DivisionByZero {
        assert Panicking(w, s, k);
        return Panics, steps;
      }
      RunSnoc(w, old(db.View()), steps, s, Repay(k, c));
      steps := steps + [Repay(k, c)];
      left := left - {k};
    }
    outcome := Swept;
  }

  /** The loans of the listed books that are not past their time. */
  ghost function InTime(trades: Trades, w: World, books: set<nat>): Trades {
    map k | k in trades && !(k.book in books && trades[k].time < w.now) :: trades[k]
  }

  method ExpireBooks(db: Lending, w: World) returns (outcome: Outcome, ghost steps: seq<Step>)
    requires db.Valid()
    modifies db
    ensures db.Valid() && SweepRun(w, old(db.View()), steps, db.View()) && Explains(w, db.View(), outcome)
    ensures outcome == Swept ==> db.trades == InTime(old(db.trades), w, w.books)
    ensures RatesKnown(old(db.trades), w) ==> outcome == Swept
  {
    hide Inv, Explains;
    ghost var start := db.trades;
    var left := w.books;
    steps := [];
    assert SweepRun(w, db.View(), steps, db.View());
    hide SweepRun;
    while left != {}
      invariant db.Valid() && left <= w.books && db.trades == InTime(start, w, w.books - left)
      invariant SweepRun(w, old(db.View()), steps, db.View())
      decreases left
    {
      var book :| book in left;
      ghost var done, s, more := w.books - left, db.View(), [];
      outcome, more := ExpireBook(db, w, book);
      RunConcat(w, old(db.View()), steps, s, more, db.View());
      steps := steps + more;
      if outcome != Swept {
        return;
      }
      left := left - {book};
      BookDone(start, w, book, done);
      assert done + {book} == w.books - left;
    }
    assert w.books - left == w.books;
    outcome := Swept;
    Fine(w, db.View());
  }

  lemma {:induction false} BookDone(start: Trades, w: World, book: nat, done: set<nat>)
    ensures var trades := InTime(start, w, done); trades - Late(trades, book, w.now) == InTime(start, w, done + {book})
  {
  }

  // Loans above the collateral price

  lemma {:induction false} HighestOf(prices: set<PriceEntry>) returns (most: PriceEntry)
    requires prices != {}
    ensures most in prices && forall f :: f in prices ==> most.price >= f.price
  {
    var e :| e in prices;
    most := e;
    if prices - {e} != {} {
      var m := HighestOf(prices - {e});
      most := if e.price >= m.price then e else m;
    }
    forall f | f in prices ensures most.price >= f.price {
      if f != e { assert f in prices - {e}; }
    }
  }

  lemma {:induction false} HighestExists(prices: set<PriceEntry>)
    requires prices != {}
    ensures exists e :: e in prices && forall f :: f in prices ==> e.price >= f.price
  {
    var most := HighestOf(prices);
  }

  lemma {:induction false} PricesListed(s: State, entries: set<PriceEntry>, pair: Pair)
    requires Inv(s) && entries == set e | e in s.prices && e.pair == pair
    ensures forall k :: k in s.trades && s.trades[k].pair == pair ==> PriceOf(k, s.trades[k]) in entries
    ensures forall e :: e in entries ==> e.key in s.trades && e == PriceOf(e.key, s.trades[e.key]) && e.pair == pair
  {
  }

  /** The highest liquidation price of a pair and its trades; price 0 if the pair has none. */
  method HighestLiquidationPrice(db: Lending, pair: Pair) returns (price: nat, ids: set<Key>)
    requires db.Valid()
    ensures forall k :: k in db.trades && db.trades[k].pair == pair ==> db.trades[k].price <= price
    ensures price > 0 ==> ids != {}
    ensures forall k ::
      k in ids <==> price > 0 && k in db.trades && db.trades[k].pair == pair && db.trades[k].price == price
  {
    var entries := set e | e in db.prices && e.pair == pair;
    PricesListed(db.View(), entries, pair);
    if entries == {} {
      return 0, {};
    }
    HighestExists(entries);
    var first :| first in entries && forall f :: f in entries ==> first.price >= f.price;
    price := first.price;
    ids := if price == 0 then {} else set e | e in entries && e.price == price :: e.key;
    assert price > 0 ==> first.key in ids;
  }

  /** Loans above the price are untouched so far, topped up or gone; all others are as they were. */
  ghost predicate Relieving(w: World, pair: Pair, start: Trades, trades: Trades) {
    && (forall k :: k in trades ==> k in start && (trades[k] == start[k] || ToppedFrom(w, pair, start[k], trades[k])))
    && (forall k :: k in start && k !in trades ==> start[k].pair == pair && start[k].price > Quote(w, pair))
  }

  ghost predicate ToppedFrom(w: World, pair: Pair, t: Trade, t': Trade) {
    && t.pair == pair && AsksTopUp(w, t) && Helped(w, t)
    && t' == AfterTopUp(w, t) && t'.pair == pair && t'.time == t.time && t'.price <= Quote(w, pair)
  }

  ghost predicate NoneOverdue(trades: Trades, w: World) {
    forall k :: k in trades ==> !Overdue(w, k, trades[k])
  }

  ghost function AbovePrice(trades: Trades, pair: Pair, p: nat): set<Key> {
    set k | k in trades && trades[k].pair == pair && trades[k].price > p
  }

  /** The loans of a pair that ask for a top-up are helped by it. */
  ghost predicate Sturdy(trades: Trades, w: World, pair: Pair) {
    forall k :: k in trades && trades[k].pair == pair ==> Helped(w, trades[k])
  }

  /** Tops up or liquidates the loans of a pair until none lies above the collateral price. */
  method LiquidatePair(db: Lending, w: World, pair: Pair)
    returns (outcome: Outcome, ghost steps: seq<Step>, ghost last: State)
    requires db.Valid() && Priced(w, pair) && NoneOverdue(db.trades, w)
    modifies db
    ensures SweepRun(w, old(db.View()), steps, last) && Inv(last) && Explains(w, last, outcome)
    ensures outcome == Swept ==>
      && db.View() == last && Relieving(w, pair, old(db.trades), db.trades)
      && forall k :: k in db.trades && db.trades[k].pair == pair ==> db.trades[k].price <= Quote(w, pair)
    ensures Sturdy(old(db.trades), w, pair) ==> outcome == Swept
  {
    hide Inv, ToppedFrom, Helped, Explains;
    steps, last := [], db.View();
    assert SweepRun(w, db.View(), steps, db.View());
    hide SweepRun;
    var price := Quote(w, pair);
    ghost var start := db.trades;
    var highest, ids := HighestLiquidationPrice(db, pair);
    while highest > price
      invariant db.Valid() && last == db.View() && Relieving(w, pair, start, db.trades)
      invariant Sturdy(start, w, pair) ==> Sturdy(db.trades, w, pair)
      invariant SweepRun(w, old(db.View()), steps, db.View())
      invariant forall k :: k in db.trades && db.trades[k].pair == pair ==> db.trades[k].price <= highest
      invariant highest > 0 ==> ids != {}
      invariant forall k ::
        k in ids <==> highest > 0 && k in db.trades && db.trades[k].pair == pair && db.trades[k].price == highest
      decreases AbovePrice(db.trades, pair, price)
    {
      ghost var before, k := AbovePrice(db.trades, pair, price), PickKey(ids);
      assert k in before;
      ghost var s, more := db.View(), [];
      outcome, more, last := RelieveAll(db, w, pair, ids, highest, start);
      RunConcat(w, old(db.View()), steps, s, more, last);
      steps := steps + more;
      if outcome != Swept {
        return;
      }
      assert k !in AbovePrice(db.trades, pair, price);
      highest, ids := HighestLiquidationPrice(db, pair);
    }
    outcome := Swept;
    Fine(w, last);
  }

  ghost function PickKey(ids: set<Key>): (k: Key)
    requires ids != {}
    ensures k in ids
  {
    var k :| k in ids; k
  }

  /** Tops up or liquidates the listed loans, all at one price above the collateral price. */
  method RelieveAll(db: Lending, w: World, pair: Pair, ids: set<Key>, ghost highest: nat, ghost start: Trades)
    returns (outcome: Outcome, ghost steps: seq<Step>, ghost last: State)
    requires db.Valid() && Priced(w, pair) && highest > Quote(w, pair)
    requires Relieving(w, pair, start, db.trades) && NoneOverdue(start, w)
    requires forall k :: k in ids ==> k in db.trades && db.trades[k].pair == pair && db.trades[k].price == highest
    modifies db
    ensures SweepRun(w, old(db.View()), steps, last) && Inv(last) && Explains(w, last, outcome)
    ensures outcome == Swept ==>
      && db.View() == last && Relieving(w, pair, start, db.trades)
      && (Sturdy(old(db.trades), w, pair) ==> Sturdy(db.trades, w, pair))
      && AbovePrice(db.trades, pair, Quote(w, pair)) <= AbovePrice(old(db.trades), pair, Quote(w, pair)) - ids
    ensures Sturdy(old(db.trades), w, pair) ==> outcome == Swept
  {
    hide Inv, Relieving, Sturdy, AbovePrice, NoneOverdue, Explains, Stuck, Panicking;
    var left := ids;
    steps, last := [], db.View();
    assert SweepRun(w, db.View(), steps, db.View());
    hide SweepRun, Proper, Next;
    ghost var above := AbovePrice(db.trades, pair, Quote(w, pair));
    while left != {}
      invariant db.Valid() && last == db.View() && Relieving(w, pair, start, db.trades) && left <= ids
      invariant Sturdy(old(db.trades), w, pair) ==> Sturdy(db.trades, w, pair)
      invariant forall k :: k in left ==> k in db.trades && db.trades[k].pair == pair && db.trades[k].price == highest
      invariant AbovePrice(db.trades, pair, Quote(w, pair)) <= above - (ids - left)
      invariant SweepRun(w, old(db.View()), steps, db.View())
      decreases left
    {
      var k :| k in left;
      ghost var before, s, step := db.trades, db.View(), Liquidate(k);
      StillTimely(w, pair, start, before, k);
      SturdyHelps(w, pair, before, k);
      outcome, step := Relieve(db, w, pair, k);
      if outcome == Panics {
        BecausePanics(w, s, k);
        return;
      }
      RunSnoc(w, old(db.View()), steps, s, step);
      steps, last := steps + [step], db.View();
      if outcome == NeverEnds {
        BecauseStuck(w, last, k);
        return;
      }
      RelievedStep(w, pair, before, db.trades, k, left, highest, above - (ids - left));
      RelievedKeeps(w, pair, start, before, db.trades, k);
      left := left - {k};
    }
    outcome := Swept;
    Fine(w, last);
  }

  lemma {:induction false} StillTimely(w: World, pair: Pair, start: Trades, trades: Trades, k: Key)
    requires NoneOverdue(start, w) && Relieving(w, pair, start, trades) && k in trades
    ensures !Overdue(w, k, trades[k])
  {
    hide AfterTopUp, Helped;
  }

  lemma {:induction false} SturdyHelps(w: World, pair: Pair, trades: Trades, k: Key)
    requires k in trades && trades[k].pair == pair
    ensures Sturdy(trades, w, pair) ==> Helped(w, trades[k])
  {
  }

  lemma {:induction false} BecausePanics(w: World, s: State, k: Key)
    requires k in s.trades && Panicking(w, s, k)
    ensures Explains(w, s, Panics)
  {
  }

  lemma {:induction false} BecauseStuck(w: World, s: State, k: Key)
    requires k in s.trades && Stuck(w, k, s.trades[k])
    ensures Explains(w, s, NeverEnds)
  {
  }

  /** What relieving one loan does: only this loan changes, and it is topped up or gone. */
  ghost predicate Relieved(w: World, pair: Pair, before: Trades, after: Trades, k: Key)
    requires k in before
  {
    && (forall j :: j in after ==> j in before)
    && (forall j :: j in before && j != k ==> j in after && after[j] == before[j])
    && (k in after ==> ToppedFrom(w, pair, before[k], after[k]))
  }

  lemma {:induction false} RelievedStep(w: World, pair: Pair, before: Trades, after: Trades, k: Key, left: set<Key>,
                                        highest: nat, above: set<Key>)
    requires k in before && Relieved(w, pair, before, after, k) && k in left
    requires forall j :: j in left ==> j in before && before[j].pair == pair && before[j].price == highest
    requires AbovePrice(before, pair, Quote(w, pair)) <= above
    ensures forall j :: j in left - {k} ==> j in after && after[j].pair == pair && after[j].price == highest
    ensures AbovePrice(after, pair, Quote(w, pair)) <= above - {k}
  {
    hide AfterTopUp, Helped;
  }

  lemma {:induction false} RelievedKeeps(w: World, pair: Pair, start: Trades, before: Trades, after: Trades, k: Key)
    requires Priced(w, pair) && Relieving(w, pair, start, before)
    requires k in before && before[k].pair == pair && before[k].price > Quote(w, pair)
    requires Relieved(w, pair, before, after, k)
    ensures Relieving(w, pair, start, after) && (Sturdy(before, w, pair) ==> Sturdy(after, w, pair))
  {
    hide AfterTopUp, TopUpHelps;
  }

  /** Tops a loan up if it asks for that and its borrower can pay, and liquidates it otherwise. A loan still above the
      price after its top-up will be found and topped up again without end; there this method stops. */
  method Relieve(db: Lending, w: World, pair: Pair, k: Key) returns (outcome: Outcome, ghost step: Step)
    requires db.Valid() && Priced(w, pair) && k in db.trades && !Overdue(w, k, db.trades[k])
    requires db.trades[k].pair == pair && db.trades[k].price > Quote(w, pair)
    modifies db
    ensures outcome == Panics <==> Panicking(w, old(db.View()), k)
    ensures outcome != Panics ==>
      && db.Valid() && Proper(w, old(db.View()), step) && Enabled(old(db.View()), step)
      && db.View() == Next(old(db.View()), step)
    ensures outcome == NeverEnds ==> k in db.trades && Stuck(w, k, db.trades[k])
    ensures outcome == Swept ==> Relieved(w, pair, old(db.trades), db.trades, k)
    ensures Helped(w, old(db.trades)[k]) ==> outcome == Swept
  {
    hide Inv, TopUpTarget, TopUpHelps, AutoToppedUp, Liquidated, AfterTopUp, TopUpResult, RepayPanics;
    ghost var s := db.View();
    var price := Quote(w, pair);
    if db.trades[k].autoTopUp {
      HelpIsDefined(db.trades[k], price);
      var topUp := db.AutoTopUp(k, price);
      if topUp == DividesByZero {
        return Panics, Liquidate(k);
      }
      if topUp == Done {
        ToppedUpOne(s, w, pair, k);
        outcome := if db.trades[k].price > price then NeverEnds else Swept;
        return outcome, AutoTopUp(k, price);
      }
    }
    db.LiquidationTrade(k);
    LiquidatedOne(s, w, pair, k);
    outcome, step := Swept, Liquidate(k);
  }

  lemma {:induction false} HelpIsDefined(t: Trade, price: nat)
    ensures TopUpHelps(t, price) ==> TopUpTarget(price) > 0 && t.locked > 0
  {
    if TopUpHelps(t, price) { HelpNeedsCollateral(t, price); }
  }

  /** A top-up either helps, and the loan is relieved, or leaves it stuck. */
  lemma {:induction false} ToppedUpOne(s: State, w: World, pair: Pair, k: Key)
    requires Inv(s) && Priced(w, pair) && k in s.trades && s.trades[k].pair == pair && !Overdue(w, k, s.trades[k])
    requires AsksTopUp(w, s.trades[k]) && TopUpTarget(Quote(w, pair)) > 0 && s.trades[k].locked > 0
    requires AutoToppedUp(s, k, Quote(w, pair)).Some?
    ensures var s' := AutoToppedUp(s, k, Quote(w, pair)).value;
      && k in s'.trades && (s'.trades[k].price <= Quote(w, pair) <==> TopUpHelps(s.trades[k], Quote(w, pair)))
      && (TopUpHelps(s.trades[k], Quote(w, pair)) ==> Relieved(w, pair, s.trades, s'.trades, k))
      && (!TopUpHelps(s.trades[k], Quote(w, pair)) ==> Stuck(w, k, s'.trades[k]))
  {
    hide Inv, TopUpTarget, TopUpHelps, AutoToppedUp, TopUpResult;
    var t, price := s.trades[k], Quote(w, pair);
    AutoTopUpTrade(s, k, price);
    TopUpHelpsExactly(t, price);
    ResultKeeps(t, price);
    if TopUpHelps(t, price) { AfterTopUpIsBelow(w, t); } else { TopUpStalls(t, price); }
  }

  lemma {:induction false} ResultKeeps(t: Trade, price: nat)
    requires TopUpTarget(price) > 0 && price < t.price && t.locked > 0
    ensures var u := TopUpResult(t, price); u == t.(price := u.price, locked := u.locked)
  {
  }

  lemma {:induction false} LiquidatedOne(s: State, w: World, pair: Pair, k: Key)
    requires Inv(s) && Priced(w, pair) && k in s.trades
    ensures Relieved(w, pair, s.trades, Liquidated(s, k).trades, k)
  {
    hide Inv;
  }

  // Loans far below the collateral price

  /** Loans of the pair that are due for a recall have had it, except those in `left`. */
  ghost predicate Recalling(w: World, pair: Pair, start: Trades, trades: Trades, left: set<Key>)
    requires RatesOk(RatesOf(w, pair.collateral))
  {
    && trades.Keys == start.Keys
    && (forall k ::
          k in trades ==>
            trades[k] == if start[k].pair == pair && k !in left then AfterRecall(w, start[k]) else start[k])
  }

  /** A listed loan: due for a recall if it tops up automatically. */
  predicate Low(w: World, pair: Pair, t: Trade)
    requires RatesOk(RatesOf(w, pair.collateral))
  {
    t.pair == pair && 0 < t.price < RecallBelow(Quote(w, pair), RatesOf(w, pair.collateral))
  }

  /** Gives collateral back to the loans of a pair far below the collateral price. No recall fails. */
  method RecallPair(db: Lending, w: World, pair: Pair) returns (ghost steps: seq<Step>)
    requires db.Valid() && Priced(w, pair) && RatesOk(RatesOf(w, pair.collateral))
    modifies db
    ensures db.Valid() && Recalling(w, pair, old(db.trades), db.trades, {})
    ensures db.trades.Keys == old(db.trades).Keys && forall k :: k in db.trades ==>
      var t := old(db.trades)[k];
      if t.pair == pair then RecalledIfDue(Quote(w, pair), RatesOf(w, pair.collateral), t, db.trades[k])
      else db.trades[k] == t
    ensures SweepRun(w, old(db.View()), steps, db.View())
  {
    hide Inv, RecallTo, RecallBelow;
    steps := [];
    assert SweepRun(w, db.View(), steps, db.View());
    ghost var start := db.trades;
    var recallBelow := RecallBelow(Quote(w, pair), RatesOf(w, pair.collateral));
    var left := set e | e in db.prices && e.pair == pair && 0 < e.price < recallBelow :: e.key;
    LowListed(db.View(), w, pair, left);
    hide SweepRun, Recalling, Low;
    while left != {}
      invariant db.Valid() && Recalling(w, pair, start, db.trades, left)
      invariant SweepRun(w, old(db.View()), steps, db.View())
      invariant forall k :: k in left ==> k in start && Low(w, pair, start[k])
      decreases left
    {
      var k :| k in left;
      ghost var s := db.View();
      ghost var more := RecallLoan(db, w, pair, k, start, left);
      RunConcat(w, old(db.View()), steps, s, more, db.View());
      steps := steps + more;
      left := left - {k};
    }
    AllRecalled(w, pair, start, db.trades);
  }

  lemma {:induction false} AllRecalled(w: World, pair: Pair, start: Trades, trades: Trades)
    requires Priced(w, pair) && RatesOk(RatesOf(w, pair.collateral)) && Recalling(w, pair, start, trades, {})
    ensures trades.Keys == start.Keys && forall k :: k in trades ==>
      if start[k].pair == pair then RecalledIfDue(Quote(w, pair), RatesOf(w, pair.collateral), start[k], trades[k])
      else trades[k] == start[k]
  {
    hide AfterRecall, RecalledIfDue;
    forall k | k in trades && start[k].pair == pair
      ensures RecalledIfDue(Quote(w, pair), RatesOf(w, pair.collateral), start[k], trades[k])
    {
      AfterRecallExactly(w, start[k], trades[k]);
    }
  }

  /** Recalls one listed loan if it tops up automatically, and leaves it alone otherwise. */
  method RecallLoan(db: Lending, w: World, pair: Pair, k: Key, ghost start: Trades, ghost left: set<Key>)
    returns (ghost steps: seq<Step>)
    requires db.Valid() && Priced(w, pair) && RatesOk(RatesOf(w, pair.collateral)) && k in left
    requires Recalling(w, pair, start, db.trades, left) && k in start && Low(w, pair, start[k])
    modifies db
    ensures db.Valid() && Recalling(w, pair, start, db.trades, left - {k})
    ensures SweepRun(w, old(db.View()), steps, db.View())
  {
    hide Inv, RecallTo, RecallBelow, Recalled, RecalledLocked;
    steps := [];
    ghost var s := db.View();
    assert SweepRun(w, s, steps, s);
    if db.trades[k].autoTopUp {
      RecallTargetPositive(w, s.trades[k]);
      var recallTo := RecallTo(Quote(w, pair), RatesOf(w, pair.collateral));
      var ok := db.ProcessRecallLendingTrade(k, recallTo);
      RecalledOne(s, k, recallTo);
      assert ok;
      RunSnoc(w, s, steps, s, Recall(k, recallTo));
      steps := steps + [Recall(k, recallTo)];
    }
  }

  lemma {:induction false} LowListed(s: State, w: World, pair: Pair, ids: set<Key>)
    requires Inv(s) && RatesOk(RatesOf(w, pair.collateral))
    requires var below := RecallBelow(Quote(w, pair), RatesOf(w, pair.collateral));
      ids == set e | e in s.prices && e.pair == pair && 0 < e.price < below :: e.key
    ensures forall k :: k in ids ==> k in s.trades && Low(w, pair, s.trades[k])
    ensures Recalling(w, pair, s.trades, s.trades, ids)
  {
    hide RecallBelow, RecallTo, EscrowOk, TimesOk, IdsOk, TradesOk;
    forall k | k in s.trades && s.trades[k].pair == pair && k !in ids
      ensures AfterRecall(w, s.trades[k]) == s.trades[k]
    {
      assert PriceOf(k, s.trades[k]) in s.prices;
    }
  }

  lemma {:induction false} RecalledOne(s: State, k: Key, price: nat)
    requires Inv(s) && k in s.trades && price > s.trades[k].price
    ensures Recalled(s, k, price).Some?
    ensures Recalled(s, k, price).value.trades == s.trades[k := RecallResult(s.trades[k], price)]
  {
    hide Inv;
  }

  // The sweep

  /** The loan was treated, and a top-up it asked for helped it. */
  ghost predicate TreatedAs(w: World, t: Trade, t': Trade)
    requires Sane(w) && Priced(w, t.pair)
  {
    Helped(w, t) && t' == Treated(w, t)
  }

  /** What the sweep makes of loan `k`: gone if past its time; untouched if its pair is not listed or has no
      price; otherwise treated, where only a loan above the price can be gone, and is unless it tops up. */
  ghost predicate Fate(w: World, k: Key, t: Trade, after: Trades)
    requires Sane(w)
  {
    if Overdue(w, k, t) then k !in after
    else if !Priced(w, t.pair) then k in after && after[k] == t
    else
      && (k in after ==> TreatedAs(w, t, after[k]))
      && (!Above(w, t) ==> k in after)
      && (Above(w, t) && !t.autoTopUp ==> k !in after)
  }

  /** The same without the formulas, from what is on file for the pair and its collateral. */
  ghost predicate Destined(w: World, k: Key, t: Trade, after: Trades) {
    if k.book in w.books && t.time < w.now then k !in after
    else if t.pair !in w.pairs || t.pair !in w.quotes || w.quotes[t.pair] == 0 then k in after && after[k] == t
    else
      var price := w.quotes[t.pair];
      && t.pair.collateral in w.rates
      && (k in after ==> Handled(price, w.rates[t.pair.collateral], t, after[k]))
      && (t.price <= price ==> k in after)
      && (t.price > price && !t.autoTopUp ==> k !in after)
  }

  lemma {:induction false} FateMeans(w: World, k: Key, t: Trade, after: Trades)
    requires Sane(w) && Fate(w, k, t, after)
    ensures Destined(w, k, t, after)
  {
    hide Treated, Helped, Handled, RatesOk;
    if Priced(w, t.pair) {
      RatesOnFile(w, t.pair.collateral);
      if k in after && (Above(w, t) ==> t.autoTopUp) { TreatedExactly(w, t); }
    }
  }

  ghost predicate AllHelped(trades: Trades, w: World) {
    forall k :: k in trades ==> Helped(w, trades[k])
  }

  /** Of the loans that are not overdue, those the sweep will top up are helped by it. */
  ghost predicate RestHelped(trades: Trades, w: World) {
    forall k :: k in trades && !Overdue(w, k, trades[k]) ==> Helped(w, trades[k])
  }

  /** What has become of a loan when the pairs in `done` are finished and all others untouched. */
  ghost predicate DoneAs(w: World, t: Trade, t': Trade, done: set<Pair>)
    requires Sane(w)
  {
    if t.pair in done && Priced(w, t.pair) then TreatedAs(w, t, t') && (Above(w, t) ==> t.autoTopUp) else t' == t
  }

  ghost predicate Halfway(w: World, start: Trades, trades: Trades, done: set<Pair>)
    requires Sane(w)
  {
    && (forall k :: k in trades ==> k in start && DoneAs(w, start[k], trades[k], done))
    && (forall k :: k in start && k !in trades ==> start[k].pair in done && Above(w, start[k]))
  }

  method SweepPairs(db: Lending, w: World) returns (outcome: Outcome, ghost steps: seq<Step>, ghost last: State)
    requires db.Valid() && Sane(w) && NoneOverdue(db.trades, w)
    modifies db
    ensures SweepRun(w, old(db.View()), steps, last) && Explains(w, last, outcome) && Inv(last)
    ensures outcome == Swept ==> db.View() == last && Halfway(w, old(db.trades), db.trades, w.pairs)
    ensures AllHelped(old(db.trades), w) ==> outcome == Swept
  {
    hide Inv, Sane, DoneAs, Helped, Explains, NoneOverdue;
    steps, last := [], db.View();
    assert SweepRun(w, db.View(), steps, db.View());
    hide SweepRun;
    ghost var start := db.trades;
    var left := w.pairs;
    HalfwayStart(w, start, w.pairs - left);
    while left != {}
      invariant db.Valid() && last == db.View() && left <= w.pairs && Halfway(w, start, db.trades, w.pairs - left)
      invariant SweepRun(w, old(db.View()), steps, db.View())
      decreases left
    {
      var pair :| pair in left;
      ghost var before, done := db.trades, w.pairs - left;
      left := left - {pair};
      assert w.pairs - left == done + {pair};
      if Quote(w, pair) > 0 {
        HalfwaySturdy(w, start, before, done, pair);
        ghost var s, more := db.View(), [];
        outcome, more, last := LiquidatePair(db, w, pair);
        RunConcat(w, old(db.View()), steps, s, more, last);
        steps := steps + more;
        if outcome != Swept {
          return;
        }
        ghost var middle, m := db.trades, db.View();
        ghost var recall := RecallPair(db, w, pair);
        RunConcat(w, old(db.View()), steps, m, recall, db.View());
        steps, last := steps + recall, db.View();
        PairDone(w, start, before, middle, db.trades, pair, done);
      } else {
        PairSkipped(w, start, before, pair, done);
      }
    }
    assert w.pairs - left == w.pairs;
    outcome := Swept;
    Fine(w, last);
  }

  lemma {:induction false} HalfwayStart(w: World, start: Trades, done: set<Pair>)
    requires Sane(w) && done == {}
    ensures Halfway(w, start, start, done)
  {
  }

  lemma {:induction false} DoneKeeps(w: World, t: Trade, t': Trade, done: set<Pair>)
    requires Sane(w) && DoneAs(w, t, t', done)
    ensures t' == t.(price := t'.price, locked := t'.locked)
    ensures t.pair in done && Priced(w, t.pair) ==> t'.price <= Quote(w, t.pair)
    ensures Helped(w, t) ==> Helped(w, t')
  {
    hide Treated, TopUpHelps;
    if t.pair in done && Priced(w, t.pair) { TreatedIsBelow(w, t); }
  }

  lemma {:induction false} HalfwaySturdy(w: World, start: Trades, trades: Trades, done: set<Pair>, pair: Pair)
    requires Sane(w) && Halfway(w, start, trades, done) && Priced(w, pair) && NoneOverdue(start, w)
    ensures AllHelped(start, w) ==> Sturdy(trades, w, pair)
    ensures RatesOk(RatesOf(w, pair.collateral)) && NoneOverdue(trades, w)
  {
    hide DoneAs, Helped;
    forall k | k in trades
      ensures !Overdue(w, k, trades[k]) && (Helped(w, start[k]) ==> Helped(w, trades[k]))
    {
      DoneKeeps(w, start[k], trades[k], done);
    }
  }

  lemma {:induction false} PairSkipped(w: World, start: Trades, trades: Trades, pair: Pair, done: set<Pair>)
    requires Sane(w) && Halfway(w, start, trades, done) && Quote(w, pair) == 0
    ensures Halfway(w, start, trades, done + {pair})
  {
    hide Treated, Sane, Helped;
  }

  /** Liquidation and recall together treat the loans of the pair. */
  lemma {:induction false} PairDone(w: World, start: Trades, before: Trades, middle: Trades, after: Trades, pair: Pair,
                                    done: set<Pair>)
    requires Sane(w) && Halfway(w, start, before, done)
    requires pair !in done && Priced(w, pair) && RatesOk(RatesOf(w, pair.collateral))
    requires Relieving(w, pair, before, middle) && Recalling(w, pair, middle, after, {})
    requires forall k :: k in middle && middle[k].pair == pair ==> middle[k].price <= Quote(w, pair)
    ensures Halfway(w, start, after, done + {pair})
  {
    hide RatesOk, DoneAs, Sane, AfterRecall, Helped, ToppedFrom;
    forall k | k in after ensures k in start && DoneAs(w, start[k], after[k], done + {pair}) {
      assert k in middle && k in before;
      OneDone(w, start[k], before[k], middle[k], after[k], pair, done);
    }
    forall k | k in start && k !in after ensures start[k].pair in done + {pair} && Above(w, start[k]) {
      if k in before {
        assert k !in middle;
        DoneKeeps(w, start[k], before[k], done);
        NotYetDone(w, start[k], before[k], done);
      }
    }
  }

  lemma {:induction false} NotYetDone(w: World, t: Trade, t': Trade, done: set<Pair>)
    requires Sane(w) && DoneAs(w, t, t', done)
    ensures t.pair !in done || !Priced(w, t.pair) ==> t' == t
  {
  }

  /** One loan through liquidation and recall of its pair. */
  lemma {:induction false} OneDone(w: World, t: Trade, before: Trade, middle: Trade, after: Trade, pair: Pair,
                                   done: set<Pair>)
    requires Sane(w) && pair !in done && Priced(w, pair) && RatesOk(RatesOf(w, pair.collateral))
    requires DoneAs(w, t, before, done)
    requires middle == before || ToppedFrom(w, pair, before, middle)
    requires middle.pair == pair ==> middle.price <= Quote(w, pair)
    requires after == if middle.pair == pair then AfterRecall(w, middle) else middle
    ensures DoneAs(w, t, after, done + {pair})
  {
    hide AfterRecall, TopUpHelps, TopUpResult;
    DoneKeeps(w, t, before, done);
  }

  /** The sweep. Every step it takes is proper. If it comes to its end, no step has failed and every loan has met its
      fate. If it does not, the state it reached has a loan that explains why: one whose top-ups lead nowhere, or one
      whose treatment divides by zero. It comes to its end whenever rates are known and top-ups help. */
  method ProcessLiquidationData(db: Lending, w: World)
    returns (outcome: Outcome, ghost steps: seq<Step>, ghost last: State)
    requires db.Valid() && Sane(w)
    modifies db
    ensures SweepRun(w, old(db.View()), steps, last) && Inv(last) && Explains(w, last, outcome)
    ensures outcome == Swept ==>
      && db.View() == last && db.trades.Keys <= old(db.trades).Keys
      && forall k :: k in old(db.trades) ==> Fate(w, k, old(db.trades)[k], db.trades)
    ensures outcome == Swept ==> forall k :: k in old(db.trades) ==> Destined(w, k, old(db.trades)[k], db.trades)
    ensures RatesKnown(old(db.trades), w) && RestHelped(old(db.trades), w) ==> outcome == Swept
  {
    hide Inv, Sane, TreatedAs, SweepRun, Helped, Explains, Destined, Fate;
    ghost var start := db.trades;
    outcome, steps := ExpireBooks(db, w);
    last := db.View();
    if outcome != Swept {
      return;
    }
    ghost var middle, m, more := db.trades, db.View(), [];
    assert forall k :: k in middle ==> k in start && middle[k] == start[k] && !Overdue(w, k, start[k]);
    outcome, more, last := SweepPairs(db, w);
    RunConcat(w, old(db.View()), steps, m, more, last);
    steps := steps + more;
    if outcome == Swept {
      AllFates(w, start, middle, db.trades);
      AllDestined(w, start, db.trades);
    }
  }

  lemma {:induction false} AllDestined(w: World, start: Trades, after: Trades)
    requires Sane(w) && forall k :: k in start ==> Fate(w, k, start[k], after)
    ensures forall k :: k in start ==> Destined(w, k, start[k], after)
  {
    hide Sane, Fate, Destined;
    forall k | k in start ensures Destined(w, k, start[k], after) { FateMeans(w, k, start[k], after); }
  }

  lemma {:induction false} AllFates(w: World, start: Trades, middle: Trades, after: Trades)
    requires Sane(w) && middle == InTime(start, w, w.books) && Halfway(w, middle, after, w.pairs)
    ensures after.Keys <= start.Keys && forall k :: k in start ==> Fate(w, k, start[k], after)
  {
    hide TreatedAs, Sane;
  }

  /** Completeness of the sweep: afterwards no loan of a listed book is past its time, and none of a listed pair
      with a price lies above that price. */
  lemma {:induction false} NothingLeftToDo(w: World, start: Trades, after: Trades, k: Key)
    requires Sane(w)
    requires after.Keys <= start.Keys && forall j :: j in start ==> Fate(w, j, start[j], after)
    requires k in after
    ensures !Overdue(w, k, after[k]) && !Above(w, after[k])
  {
    hide Treated;
    assert k in start && Fate(w, k, start[k], after);
    if Priced(w, start[k].pair) { TreatedIsBelow(w, start[k]); }
  }
}
