/** The lending database and the procedures of BRCxlending/order_processor.go on it: each does to the tables,
    indexes and balances what the step of the same name says. */
module LendingDb {
  import opened Options
  import opened Ledger
  import opened LendSettlement
  import opened Loans
  import opened LoanSteps
  import opened LoanEnds
  import opened LoanMeaning

  /** A division by zero stands for the panic it causes. */
  datatype TopUpOutcome = Done | NotDone | DividesByZero

  class Lending {
    var trades: map<Key, Trade>
    var nonces: map<nat, nat>
    var times: set<TimeEntry>
    var prices: set<PriceEntry>
    var balances: Balances
    ghost var used: set<Key>

    ghost function View(): State
      reads this
    {
      State(trades, nonces, times, prices, balances, used)
    }

    ghost predicate Valid()
      reads this
    {
      Inv(View())
    }

    constructor (b: Balances)
      requires forall t :: Balance(b, Account(t, LOCK)) == 0
      ensures Valid() && View() == State(map[], map[], {}, {}, b, {})
    {
      trades, nonces, times, prices, balances, used := map[], map[], {}, {}, b, {};
      new;
      InitKeeps(View());
    }

    method AddTokenBalance(a: Account, amount: nat)
      modifies this`balances
      ensures balances == Applied(old(balances), Credit(a, amount))
    {
      balances := balances[a := Balance(balances, a) + amount];
    }

    /** Fails, changing nothing, when the balance is too small. */
    method SubTokenBalance(a: Account, amount: nat) returns (ok: bool)
      modifies this`balances
      ensures ok <==> Covered(old(balances), Debit(a, amount))
      ensures ok ==> balances == Applied(old(balances), Debit(a, amount))
      ensures !ok ==> balances == old(balances)
    {
      if Balance(balances, a) < amount {
        return false;
      }
      balances := balances[a := Balance(balances, a) - amount];
      ok := true;
    }

    /** Takes a trade out of the price index; an error if it is not there. */
    method RemoveLiquidationPrice(k: Key) returns (ok: bool)
      requires k in trades
      modifies this`prices
      ensures ok <==> PriceOf(k, trades[k]) in old(prices)
      ensures prices == old(prices) - {PriceOf(k, trades[k])}
    {
      ok := PriceOf(k, trades[k]) in prices;
      prices := prices - {PriceOf(k, trades[k])};
    }

    method RemoveLiquidationTime(k: Key) returns (ok: bool)
      requires k in trades
      modifies this`times
      ensures ok <==> TimeOf(k, trades[k]) in old(times)
      ensures times == old(times) - {TimeOf(k, trades[k])}
    {
      ok := TimeOf(k, trades[k]) in times;
      times := times - {TimeOf(k, trades[k])};
    }

    /** Records a trade whose match has moved its collateral into the escrow. */
    method OpenTrade(book: nat, t: Trade, ghost before: Balances) returns (k: Key)
      requires Inv(View().(balances := before)) && GoodTrade(t)
      requires EscrowMoved(before, balances, t.pair.collateral, t.locked)
      modifies this`trades, this`times, this`nonces, this`prices, this`used
      ensures Valid() && View() == OpenedWith(old(View()), book, t, balances)
      ensures k == Key(book, NonceOf(old(nonces), book) + 1) && k !in old(used)
    {
      hide Inv, EscrowMoved;
      OpenedWithKeeps(View().(balances := before), book, t, balances);
      k := Key(book, NonceOf(nonces, book) + 1);
      trades := trades[k := t];
      times := times + {TimeOf(k, t)};
      nonces := nonces[book := k.id];
      prices := prices + {PriceOf(k, t)};
      used := used + {k};
    }

    /** Divides by zero exactly when nothing is added to a trade that has nothing locked. */
    method ProcessTopUpLendingTrade(k: Key, quantity: nat) returns (outcome: TopUpOutcome)
      requires Valid()
      modifies this
      ensures outcome == DividesByZero <==> k in old(trades) && quantity + old(trades)[k].locked == 0
      ensures outcome != DividesByZero ==>
        && Valid() && (outcome == Done <==> ToppedUp(old(View()), k, quantity).Some?)
        && View() == OrElse(ToppedUp(old(View()), k, quantity), old(View()))
      ensures outcome == NotDone <==>
        k !in old(trades) || Balance(old(balances), Owned(old(trades)[k])) < quantity
      ensures outcome == Done ==>
        && k in old(trades) && k in trades && trades == old(trades)[k := trades[k]]
        && TopsUp(old(balances), balances, old(trades)[k], trades[k], quantity)
    {
      hide EscrowOk, TimesOk, IdsOk, MovesIn, Solvent, AppliedAll, ToppedUpPrice, Covered, Applied, TopsUp;
      ghost var s := View();
      if k !in trades {
        return NotDone;
      }
      var t := trades[k];
      if Balance(balances, Owned(t)) < quantity {
        return NotDone;
      }
      var found := RemoveLiquidationPrice(k);
      assert found;
      TopUpMoves(balances, t, quantity);
      Two(balances, Debit(Owned(t), quantity), Credit(Held(t), quantity));
      var paid := SubTokenBalance(Owned(t), quantity);
      AddTokenBalance(Held(t), quantity);
      var newLocked := quantity + t.locked;
      if newLocked == 0 {
        return DividesByZero;
      }
      TopUpKeeps(s, k, quantity);
      TopUpMeans(s, k, quantity);
      var newPrice := t.price * t.locked / newLocked;
      NewPrice(t, quantity);
      trades := trades[k := t.(price := newPrice, locked := newLocked)];
      prices := prices + {PriceOf(k, trades[k])};
      outcome := Done;
    }

    /** Divides by zero exactly when 90% of the price round to zero or nothing is locked. */
    method AutoTopUp(k: Key, price: nat) returns (outcome: TopUpOutcome)
      requires Valid()
      modifies this
      ensures outcome == DividesByZero <==>
        k in old(trades) && price < old(trades)[k].price && (TopUpTarget(price) == 0 || old(trades)[k].locked == 0)
      ensures outcome != DividesByZero ==>
        && Valid() && (outcome == Done <==> AutoToppedUp(old(View()), k, price).Some?)
        && View() == OrElse(AutoToppedUp(old(View()), k, price), old(View()))
      ensures outcome == NotDone && k in old(trades) && price < old(trades)[k].price ==>
        forall quantity :: IsDeposit(old(trades)[k], price, quantity) ==>
          Balance(old(balances), Owned(old(trades)[k])) < quantity
      ensures outcome == Done ==>
        && k in old(trades) && k in trades && trades == old(trades)[k := trades[k]]
        && exists quantity: nat ::
             IsDeposit(old(trades)[k], price, quantity)
             && TopsUp(old(balances), balances, old(trades)[k], trades[k], quantity)
    {
      hide Inv, ToppedUp, TopsUp, IsDeposit;
      if k !in trades || price >= trades[k].price {
        return NotDone;
      }
      var t := trades[k];
      var newPrice := price * RATE_TOP_UP / BASE_TOP_UP;
      if newPrice == 0 {
        return DividesByZero;
      }
      DepositNonNegative(t, price);
      var newLocked := t.locked * t.price / newPrice;
      var required := newLocked - t.locked;
      OneDeposit(t, price, required);
      if Balance(balances, Owned(t)) < required {
        NotEnough(View(), k, required);
        return NotDone;
      }
      NothingRequired(t, newPrice);
      outcome := ProcessTopUpLendingTrade(k, required);
    }

    /** The subtraction from the lock address never fails, though nobody looks at its result. */
    method ProcessRecallLendingTrade(k: Key, price: nat) returns (ok: bool)
      requires Valid()
      modifies this
      ensures Valid() && ok == Recalled(old(View()), k, price).Some?
      ensures View() == OrElse(Recalled(old(View()), k, price), old(View()))
      ensures ok <==> k in old(trades) && price > old(trades)[k].price
      ensures ok ==>
        && k in trades && trades == old(trades)[k := trades[k]]
        && GivesBack(old(balances), balances, old(trades)[k], trades[k], price)
    {
      hide EscrowOk, TimesOk, IdsOk, MovesIn, Solvent, AppliedAll, Covered, Applied, GivesBack;
      ghost var s := View();
      RecallKeeps(s, k, price);
      if k in trades { RecallMeans(s, k, price); }
      if k !in trades || price <= trades[k].price {
        return false;
      }
      var t := trades[k];
      RecalledIsLess(t, price);
      var newLocked := t.locked * t.price / price;
      var amount := t.locked - newLocked;
      var found := RemoveLiquidationPrice(k);
      assert found;
      EscrowCovers(trades, balances, k);
      RecallMoves(balances, t, amount);
      Two(balances, Credit(Owned(t), amount), Debit(Held(t), amount));
      AddTokenBalance(Owned(t), amount);
      var paid := SubTokenBalance(Held(t), amount);
      assert paid;
      trades := trades[k := t.(price := price, locked := newLocked)];
      prices := prices + {PriceOf(k, trades[k])};
      ok := true;
    }

    /** The end common to all ways a loan ends: the trade leaves the table and both indexes. */
    method RemoveTrade(k: Key)
      requires k in trades && PriceOf(k, trades[k]) in prices && TimeOf(k, trades[k]) in times
      modifies this`trades, this`times, this`prices
      ensures trades == old(trades) - {k}
      ensures times == old(times) - {TimeOf(k, old(trades)[k])} && prices == old(prices) - {PriceOf(k, old(trades)[k])}
    {
      var foundTime := RemoveLiquidationTime(k);
      var foundPrice := RemoveLiquidationPrice(k);
      assert foundTime && foundPrice;
      trades := trades - {k};
    }

    method LiquidationTrade(k: Key)
      requires Valid() && k in trades
      modifies this
      ensures Valid() && View() == Liquidated(old(View()), k)
      ensures trades == old(trades) - {k} && Liquidates(old(balances), balances, old(trades)[k])
    {
      hide EscrowOk, IdsOk, MovesIn, Solvent, AppliedAll, Covered, Applied, Liquidates;
      var t := trades[k];
      LiquidationMeans(View(), k);
      LiquidationKeeps(View(), k);
      Indexed(View(), k);
      EscrowCovers(trades, balances, k);
      LiquidationMoves(balances, t);
      Two(balances, Debit(Held(t), t.locked), Credit(Received(t), t.locked));
      var paid := SubTokenBalance(Held(t), t.locked);
      assert paid;
      AddTokenBalance(Received(t), t.locked);
      RemoveTrade(k);
    }

    /** What goes back to the borrower and what to the investor. Divides by zero, before anything is changed, exactly
        when the pair has a price and the collateral no liquidation rate. */
    method LiquidationExpiredTrade(k: Key, c: Context) returns (split: Option<(nat, nat)>)
      requires Valid() && k in trades
      modifies this
      ensures Valid() && (split.None? <==> !Rated(c))
      ensures split.None? ==> View() == old(View())
      ensures split.Some? ==>
        View() == Expired(old(View()), k, c) && split.value.0 + split.value.1 == old(trades)[k].locked
      ensures split.Some? ==> trades == old(trades) - {k} && Expires(old(balances), balances, old(trades)[k], c)
      ensures split.Some? ==>
        exists due: nat ::
          && IsDue(old(trades)[k], c, due)
          && split.value.1 == if due < old(trades)[k].locked then due else old(trades)[k].locked
    {
      hide EscrowOk, IdsOk, MovesIn, Solvent, AppliedAll, Covered, Applied, Due, IsDue, Expires;
      if c.price > 0 && c.liquidationRate == 0 {
        return None;
      }
      var t := trades[k];
      ExpiryKeeps(View(), k, c);
      ExpiryMeans(View(), k, c);
      Indexed(View(), k);
      EscrowCovers(trades, balances, k);
      ExpiryMoves(balances, t, c);
      var due := Due(t, c);
      DueExactly(t, c, due);
      var recall, repay := 0, t.locked;
      if due < t.locked {
        Three(balances, Credit(Owned(t), t.locked - due), Debit(Held(t), t.locked), Credit(Received(t), due));
        recall, repay := t.locked - due, due;
        AddTokenBalance(Owned(t), recall);
      } else {
        Two(balances, Debit(Held(t), t.locked), Credit(Received(t), t.locked));
      }
      var paid := SubTokenBalance(Held(t), t.locked);
      assert paid;
      AddTokenBalance(Received(t), repay);
      RemoveTrade(k);
      split := Some((recall, repay));
    }

    /** Repays a trade, or liquidates it when it is due and the borrower cannot pay. */
    method ProcessRepayLendingTrade(k: Key, c: Context) returns (ending: Ending)
      requires Valid()
      modifies this
      ensures Valid() && (ending == DivisionByZero <==> RepayPanics(old(View()), k, c))
      ensures k in old(trades) ==> ending == EndingOf(old(balances), old(trades)[k], c)
      ensures k !in old(trades) ==> ending == Refused
      ensures ending == DivisionByZero ==> View() == old(View())
      ensures ending != DivisionByZero ==>
        && (ending == Refused <==> Repaid(old(View()), k, c).None?)
        && View() == OrElse(Repaid(old(View()), k, c), old(View()))
      ensures k in old(trades) ==> RepaidAs(old(balances), balances, old(trades)[k], c, ending)
      ensures trades == if ending in {Liquidation, Closing} then old(trades) - {k} else old(trades)
    {
      hide Inv, Expired, Liquidated, Ended, TotalRepay, RepaidAs;
      ghost var s := View();
      if !RepayPanics(s, k, c) { RepayKeeps(s, k, c); }
      if k in trades { RepayMeans(s, k, c); }
      if k !in trades {
        return Refused;
      }
      var t := trades[k];
      var payment := TotalRepay(c.now, t, t.amount);
      if Balance(balances, Account(t.pair.lend, t.borrower)) < payment {
        if t.time > c.now {
          return Refused;
        }
        if c.fork {
          var split := LiquidationExpiredTrade(k, c);
          return if split.Some? then Liquidation else DivisionByZero;
        }
        LiquidationTrade(k);
        return Liquidation;
      }
      PayBack(k, payment);
      ending := Closing;
    }

    method PayBack(k: Key, payment: nat)
      requires Valid() && k in trades && Balance(balances, Account(trades[k].pair.lend, trades[k].borrower)) >= payment
      modifies this
      ensures Solvent(old(balances), RepayEntries(old(trades)[k], payment))
      ensures View() == Ended(old(View()), k, RepayEntries(old(trades)[k], payment))
    {
      hide EscrowOk, IdsOk, MovesIn, Solvent, AppliedAll, Covered, Applied;
      var t := trades[k];
      Indexed(View(), k);
      EscrowCovers(trades, balances, k);
      RepayMoves(balances, t, payment);
      Four(balances, Debit(Account(t.pair.lend, t.borrower), payment),
        Credit(Account(t.pair.lend, t.investor), payment), Debit(Held(t), t.locked), Credit(Owned(t), t.locked));
      var taken := SubTokenBalance(Account(t.pair.lend, t.borrower), payment);
      AddTokenBalance(Account(t.pair.lend, t.investor), payment);
      var paid := SubTokenBalance(Held(t), t.locked);
      assert taken && paid;
      AddTokenBalance(Owned(t), t.locked);
      RemoveTrade(k);
    }
  }

  lemma {:induction false} Indexed(s: State, k: Key)
    requires Inv(s) && k in s.trades
    ensures PriceOf(k, s.trades[k]) in s.prices && TimeOf(k, s.trades[k]) in s.times && GoodTrade(s.trades[k])
  {
  }

  lemma {:induction false} NothingRequired(t: Trade, target: nat)
    requires target > 0
    ensures t.locked == 0 ==> t.locked * t.price / target == 0
  {
    assert t.locked == 0 ==> t.locked * t.price == 0;
  }

  lemma {:induction false} OneDeposit(t: Trade, price: nat, required: nat)
    requires TopUpTarget(price) > 0 && t.locked + required == RequiredLocked(t, TopUpTarget(price))
    ensures forall quantity :: IsDeposit(t, price, quantity) <==> quantity == required
  {
    hide IsDeposit;
    forall quantity: nat ensures IsDeposit(t, price, quantity) <==> quantity == required {
      DepositExactly(t, price, quantity);
    }
  }

  lemma {:induction false} NotEnough(s: State, k: Key, quantity: nat)
    requires Inv(s) && k in s.trades && Balance(s.balances, Owned(s.trades[k])) < quantity
    ensures ToppedUp(s, k, quantity).None?
  {
  }

  lemma {:induction false} NewPrice(t: Trade, quantity: nat)
    requires quantity + t.locked > 0
    ensures ToppedUpPrice(t, quantity) == t.price * t.locked / (quantity + t.locked)
  {
  }
}
