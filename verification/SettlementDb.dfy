/** The state database as the settlement code sees it, and `DoSettleBalance` of BRCx/order_processor.go and of
    BRCxlending/order_processor.go on it: new balances are computed and kept aside first, then written. */
module SettlementDb {
  import opened Options
  import opened Ledger
  import opened Settlement
  import opened LendSettlement

  /** The relayer registration contract; it holds the relayers' deposits. */
  const REGISTRATION: Address := 0x99
  /** Deposits are kept as the balances of a token of their own. */
  const DEPOSIT: Token := 0

  datatype Order = Order(user: Address, relayer: Address)

  /** Fees taken out of the relayers' deposits, in order. */
  function FeeEntries(relayers: seq<Address>, fee: nat): seq<Entry> {
    seq(|relayers|, i requires 0 <= i < |relayers| => Debit(Account(DEPOSIT, relayers[i]), fee))
  }

  /** What leaves the contract's native balance with those fees, and reaches the block's masternode owner. */
  function NativeEntries(owner: Address, n: nat, fee: nat): seq<Entry> {
    seq(n, _ => Debit(Account(NATIVE, REGISTRATION), fee)) + [Credit(Account(NATIVE, owner), n * fee)]
  }

  /** Checking the next entry: what is still to be checked, and what all of it amounts to. */
  lemma {:induction false} CheckedStep(tokens: set<Token>, b: Balances, pending: Balances, rest: seq<Entry>)
    requires rest != []
    ensures !Allowed(tokens, Overlay(b, pending), rest[0]) ==> !AllAllowed(tokens, Overlay(b, pending), rest)
    ensures Allowed(tokens, Overlay(b, pending), rest[0]) ==>
      var pending' := Noted(b, pending, rest[0]);
      && (AllAllowed(tokens, Overlay(b, pending), rest) <==> AllAllowed(tokens, Overlay(b, pending'), rest[1..]))
      && (NotedOk(b, pending, rest) <==> NotedOk(b, pending', rest[1..]))
      && (NotedOk(b, pending, rest) ==> NotedAll(b, pending, rest) == NotedAll(b, pending', rest[1..]))
  {
    if Allowed(tokens, Overlay(b, pending), rest[0]) {
      NotedIsApplied(b, pending, rest[0]);
    }
  }

  function MatchAccounts(p: Parties, s: Settle, quote: Token): seq<Account> {
    [Account(s.taker.inToken, p.taker), Account(s.taker.outToken, p.taker), Account(s.maker.inToken, p.maker),
     Account(s.maker.outToken, p.maker), Account(quote, p.takerOwner), Account(quote, p.makerOwner)]
  }

  lemma {:induction false} StartChecks(tokens: set<Token>, b: Balances, es: seq<Entry>)
    ensures AllAllowed(tokens, Overlay(b, map[]), es) <==> AllAllowed(tokens, b, es)
    ensures AllAllowed(tokens, b, es) ==> NotedOk(b, map[], es)
  {
    assert Overlay(b, map[]) == b;
    NotedAllIsApplied(b, map[], es);
  }

  lemma {:induction false} EndChecks(tokens: set<Token>, b: Balances, pending: Balances, rest: seq<Entry>)
    requires rest == []
    ensures AllAllowed(tokens, Overlay(b, pending), rest) && NotedOk(b, pending, rest)
    ensures NotedAll(b, pending, rest) == pending
  {
  }

  lemma {:induction false} TwoDebits(b: Balances, x: Account, y: Account, fee: nat)
    ensures var es := [Debit(x, fee), Debit(y, fee)];
      && (Solvent(b, es) <==>
            Balance(b, x) >= fee && (if x == y then Balance(b, x) >= 2 * fee else Balance(b, y) >= fee))
      && (Solvent(b, es) ==>
            var rest := if x == y then Balance(b, x) - fee - fee else Balance(b, y) - fee;
            AppliedAll(b, es) == b[x := Balance(b, x) - fee][y := rest])
  {
    AppliedCons(b, Debit(x, fee), [Debit(y, fee)]);
    assert [Debit(x, fee)] + [Debit(y, fee)] == [Debit(x, fee), Debit(y, fee)];
    if Balance(b, x) >= fee {
      AppliedCons(Applied(b, Debit(x, fee)), Debit(y, fee), []);
      assert [Debit(y, fee)] + [] == [Debit(y, fee)];
    }
  }

  lemma {:induction false} ThreeNative(b: Balances, owner: Address, fee: nat)
    requires Balance(b, Account(NATIVE, REGISTRATION)) >= 2 * fee
    ensures var r, o := Account(NATIVE, REGISTRATION), Account(NATIVE, owner);
      var paid := b[r := Balance(b, r) - fee][r := Balance(b, r) - fee - fee];
      && Solvent(b, NativeEntries(owner, 2, fee))
      && AppliedAll(b, NativeEntries(owner, 2, fee)) == paid[o := Balance(paid, o) + 2 * fee]
  {
    var r, o := Account(NATIVE, REGISTRATION), Account(NATIVE, owner);
    var es := NativeEntries(owner, 2, fee);
    assert es == [Debit(r, fee), Debit(r, fee), Credit(o, 2 * fee)];
    var b1 := Applied(b, es[0]);
    var b2 := Applied(b1, es[1]);
    AppliedCons(b, es[0], [Debit(r, fee), Credit(o, 2 * fee)]);
    AppliedCons(b1, es[1], [Credit(o, 2 * fee)]);
    AppliedCons(b2, es[2], []);
    assert es == [es[0]] + [Debit(r, fee), Credit(o, 2 * fee)];
    assert [Debit(r, fee), Credit(o, 2 * fee)] == [es[1]] + [Credit(o, 2 * fee)];
    assert [Credit(o, 2 * fee)] == [es[2]] + [];
  }

  /** `after` is what the entries make of `before`, applied one after another. */
  ghost predicate Settles(before: Balances, after: Balances, first: seq<Entry>, others: seq<Entry>) {
    && Solvent(before, first + others)
    && after == AppliedAll(before, first + others)
  }

  /** What both settlement functions do: the values of `es` are computed on `b`, then `fees` moves, then the values are
      written over whatever `fees` made of their accounts. */
  function WrittenLate(b: Balances, fees: seq<Entry>, es: seq<Entry>): Balances
    requires Solvent(b, fees) && NotedOk(b, map[], es)
  {
    Overlay(AppliedAll(b, fees), NotedAll(b, map[], es))
  }

  /** On accounts of the match the fees are lost; on all others they count. */
  lemma {:induction false} LateBalance(b: Balances, fees: seq<Entry>, es: seq<Entry>, a: Account)
    requires Solvent(b, fees) && NotedOk(b, map[], es)
    ensures Balance(WrittenLate(b, fees, es), a) ==
      Balance(b, a) + if Names(es, a) then Change(es, a) else Change(fees, a)
  {
    hide Names, Change, NotedOk, NotedAll, Solvent, AppliedAll;
    NotedNames(b, map[], es, a);
    AppliedChange(b, fees, a);
    NotedAllIsApplied(b, map[], es);
    assert Overlay(b, map[]) == b;
    AppliedChange(b, es, a);
    assert Balance(Overlay(b, NotedAll(b, map[], es)), a) == Balance(b, a) + Change(es, a);
  }

  /** The fees leave every account of the match as it was. */
  ghost predicate Clear(fees: seq<Entry>, es: seq<Entry>) {
    forall a :: Names(es, a) ==> Change(fees, a) == 0
  }

  lemma {:induction false} ClearIsEnough(b: Balances, fees: seq<Entry>, es: seq<Entry>)
    requires Solvent(b, fees) && NotedOk(b, map[], es) && Clear(fees, es)
    ensures Settles(b, WrittenLate(b, fees, es), fees, es)
  {
    hide Change, NotedOk, NotedAll, Solvent, AppliedAll;
    var between := AppliedAll(b, fees);
    forall e | e in es ensures Balance(b, e.account) == Balance(between, e.account) {
      assert Names(es, e.account);
      AppliedChange(b, fees, e.account);
    }
    NotedElsewhere(b, between, map[], es);
    NotedAllIsApplied(between, map[], es);
    assert Overlay(between, map[]) == between;
    AppliedConcat(b, fees, es);
  }

  /** Writing late equals moving fees and match one after another exactly when the fees are clear of the match. */
  lemma {:induction false} WrittenLateExactly(b: Balances, fees: seq<Entry>, es: seq<Entry>)
    requires Solvent(b, fees) && NotedOk(b, map[], es)
    ensures Settles(b, WrittenLate(b, fees, es), fees, es) <==> Clear(fees, es)
  {
    hide Names, Change, NotedOk, NotedAll, Solvent, AppliedAll, WrittenLate;
    if Settles(b, WrittenLate(b, fees, es), fees, es) {
      forall a | Names(es, a) ensures Change(fees, a) == 0 {
        LateBalance(b, fees, es, a);
        AppliedChange(b, fees + es, a);
        ChangeConcat(fees, es, a);
      }
    }
    if Clear(fees, es) { ClearIsEnough(b, fees, es); }
  }

  lemma {:induction false} NativeChange(owner: Address, fee: nat, a: Account)
    ensures Change(NativeEntries(owner, 2, fee), a) ==
      (if a == Account(NATIVE, owner) then 2 * fee else 0) - (if a == Account(NATIVE, REGISTRATION) then 2 * fee else 0)
  {
    var r, o := Account(NATIVE, REGISTRATION), Account(NATIVE, owner);
    var es := NativeEntries(owner, 2, fee);
    assert es == [Debit(r, fee), Debit(r, fee), Credit(o, 2 * fee)];
    assert es[1..] == [Debit(r, fee), Credit(o, 2 * fee)] && es[1..][1..] == [Credit(o, 2 * fee)];
    assert Change(es[1..][1..], a) == ChangeBy(Credit(o, 2 * fee), a);
  }

  /** No party of the match trades native tokens on the account of the masternode owner or of the contract. */
  predicate FeesApart(owner: Address, es: seq<Entry>) {
    owner == REGISTRATION || (!Names(es, Account(NATIVE, owner)) && !Names(es, Account(NATIVE, REGISTRATION)))
  }

  /** On the exchange the relayers' fees reach the masternode owner exactly when nobody trades on those accounts. */
  lemma {:induction false} FeesArriveExactly(b: Balances, owner: Address, es: seq<Entry>)
    requires Solvent(b, NativeEntries(owner, 2, RELAYER_FEE)) && NotedOk(b, map[], es)
    ensures var fees := NativeEntries(owner, 2, RELAYER_FEE);
      Settles(b, WrittenLate(b, fees, es), fees, es) <==> FeesApart(owner, es)
  {
    hide Names, Change, NotedOk, Solvent, WrittenLate, Settles, NativeEntries;
    var fees := NativeEntries(owner, 2, RELAYER_FEE);
    WrittenLateExactly(b, fees, es);
    NativeChange(owner, RELAYER_FEE, Account(NATIVE, owner));
    NativeChange(owner, RELAYER_FEE, Account(NATIVE, REGISTRATION));
    forall a ensures Change(fees, a) ==
      (if a == Account(NATIVE, owner) then 2 * RELAYER_FEE else 0)
      - (if a == Account(NATIVE, REGISTRATION) then 2 * RELAYER_FEE else 0)
    {
      NativeChange(owner, RELAYER_FEE, a);
    }
  }

  /** The balances a lending match is checked against: the relayer's fee has left the contract. Below 0, where only a
      contract without backing for its deposits could come, the balance is cut at 0. */
  function Charged(b: Balances): Balances {
    var contract := Account(NATIVE, REGISTRATION);
    b[contract := if Balance(b, contract) >= LENDING_FEE then Balance(b, contract) - LENDING_FEE else 0]
  }

  /** In lending the fee reaches the masternode owner exactly when no party of the match is that owner's account. */
  lemma {:induction false} LendingFeeArrivesExactly(b: Balances, owner: Address, es: seq<Entry>)
    requires NotedOk(b, map[], es)
    ensures var fees := [Credit(Account(NATIVE, owner), LENDING_FEE)];
      Solvent(b, fees) && (Settles(b, WrittenLate(b, fees, es), fees, es) <==> !Names(es, Account(NATIVE, owner)))
  {
    hide Names, NotedOk, WrittenLate, Settles;
    var fees := [Credit(Account(NATIVE, owner), LENDING_FEE)];
    WrittenLateExactly(b, fees, es);
    forall a ensures Change(fees, a) == if a == Account(NATIVE, owner) then LENDING_FEE else 0 {
      assert Change(fees[1..], a) == 0;
    }
  }

  /** Fees that differ only on accounts of the match come to the same. */
  lemma {:induction false} SameOffTheMatch(b: Balances, fees: seq<Entry>, others: seq<Entry>, es: seq<Entry>)
    requires Solvent(b, fees) && Solvent(b, others) && NotedOk(b, map[], es)
    requires forall a :: !Names(es, a) ==>
      && (a in AppliedAll(b, fees) <==> a in AppliedAll(b, others))
      && Balance(AppliedAll(b, fees), a) == Balance(AppliedAll(b, others), a)
    ensures WrittenLate(b, fees, es) == WrittenLate(b, others, es)
  {
    hide Solvent, AppliedAll, NotedOk, NotedAll, Names;
    forall a ensures a in NotedAll(b, map[], es) <==> Names(es, a) { NotedNames(b, map[], es, a); }
  }

  lemma {:induction false} NetConcat(xs: seq<Entry>, ys: seq<Entry>, t: Token)
    ensures Net(xs + ys, t) == Net(xs, t) + Net(ys, t)
  {
    if xs == [] {
      assert xs + ys == ys;
    } else {
      assert (xs + ys)[1..] == xs[1..] + ys;
      NetConcat(xs[1..], ys, t);
    }
  }

  /** When `others` is what is left of the fees off the match, totals move by it and by the match. */
  lemma {:induction false} TotalOffTheMatch(b: Balances, fees: seq<Entry>, others: seq<Entry>, es: seq<Entry>, t: Token)
    requires Solvent(b, fees) && Solvent(b, others) && NotedOk(b, map[], es) && Clear(others, es)
    requires forall a :: !Names(es, a) ==>
      && (a in AppliedAll(b, fees) <==> a in AppliedAll(b, others))
      && Balance(AppliedAll(b, fees), a) == Balance(AppliedAll(b, others), a)
    ensures Total(WrittenLate(b, fees, es), t) == Total(b, t) + Net(es, t) + Net(others, t)
  {
    hide Names, Change, NotedOk, Solvent, AppliedAll, WrittenLate, Total, Net;
    SameOffTheMatch(b, fees, others, es);
    ClearIsEnough(b, others, es);
    AppliedAllTotal(b, others + es, t);
    NetConcat(others, es, t);
  }

  /** The native fee entries that reach accounts off the match. */
  function FeesLeft(owner: Address, es: seq<Entry>): seq<Entry> {
    var r, o := Account(NATIVE, REGISTRATION), Account(NATIVE, owner);
    (if Names(es, r) then [] else [Debit(r, RELAYER_FEE), Debit(r, RELAYER_FEE)])
    + (if Names(es, o) then [] else [Credit(o, 2 * RELAYER_FEE)])
  }

  lemma {:induction false} FeesLeftApplied(b: Balances, owner: Address, es: seq<Entry>)
    requires Solvent(b, NativeEntries(owner, 2, RELAYER_FEE)) && owner != REGISTRATION
    ensures Solvent(b, FeesLeft(owner, es))
    ensures forall a :: !Names(es, a) ==>
      && (a in AppliedAll(b, NativeEntries(owner, 2, RELAYER_FEE)) <==> a in AppliedAll(b, FeesLeft(owner, es)))
      && Balance(AppliedAll(b, NativeEntries(owner, 2, RELAYER_FEE)), a)
         == Balance(AppliedAll(b, FeesLeft(owner, es)), a)
  {
    hide Names;
    var r, o := Account(NATIVE, REGISTRATION), Account(NATIVE, owner);
    TakenFees(b, owner);
    ThreeNative(b, owner, RELAYER_FEE);
    TwoDebits(b, r, r, RELAYER_FEE);
    AppliedCons(b, Credit(o, 2 * RELAYER_FEE), []);
    assert [Credit(o, 2 * RELAYER_FEE)] + [] == [Credit(o, 2 * RELAYER_FEE)];
    var taken := [Debit(r, RELAYER_FEE), Debit(r, RELAYER_FEE)];
    assert taken + [] == taken && [] + [Credit(o, 2 * RELAYER_FEE)] == [Credit(o, 2 * RELAYER_FEE)];
    assert NativeEntries(owner, 2, RELAYER_FEE) == taken + [Credit(o, 2 * RELAYER_FEE)];
  }

  lemma {:induction false} TakenFees(b: Balances, owner: Address)
    requires Solvent(b, NativeEntries(owner, 2, RELAYER_FEE))
    ensures Balance(b, Account(NATIVE, REGISTRATION)) >= 2 * RELAYER_FEE
  {
    var es := NativeEntries(owner, 2, RELAYER_FEE);
    var b1 := Applied(b, es[0]);
    assert Covered(b, es[0]) && Solvent(b1, es[1..]) && Covered(b1, es[1..][0]);
  }

  lemma {:induction false} FeesLeftClear(owner: Address, es: seq<Entry>, t: Token)
    requires owner != REGISTRATION
    ensures Clear(FeesLeft(owner, es), es)
    ensures Net(FeesLeft(owner, es), t) == if t == NATIVE then FeeShift(owner, es) else 0
  {
    hide Names;
    var r, o := Account(NATIVE, REGISTRATION), Account(NATIVE, owner);
    var left := FeesLeft(owner, es);
    forall a ensures Change(left, a) ==
      (if a == o && !Names(es, o) then 2 * RELAYER_FEE else 0)
      - (if a == r && !Names(es, r) then 2 * RELAYER_FEE else 0)
    {
      FewChange(left, a);
    }
    FewNet(left, t);
  }

  lemma {:induction false} FewChange(es: seq<Entry>, a: Account)
    requires |es| <= 3
    ensures Change(es, a) == (if |es| > 0 then ChangeBy(es[0], a) else 0) + (if |es| > 1 then ChangeBy(es[1], a) else 0)
      + (if |es| > 2 then ChangeBy(es[2], a) else 0)
  {
    if |es| > 2 { assert es[2..][1..] == [] && Change(es[2..], a) == ChangeBy(es[2], a); }
    if |es| > 1 { assert es[1..][1..] == es[2..] && Change(es[1..], a) == ChangeBy(es[1], a) + Change(es[2..], a); }
  }

  lemma {:induction false} FewNet(es: seq<Entry>, t: Token)
    requires |es| <= 3
    ensures Net(es, t) == (if |es| > 0 then Delta(es[0], t) else 0) + (if |es| > 1 then Delta(es[1], t) else 0)
      + (if |es| > 2 then Delta(es[2], t) else 0)
  {
    if |es| > 2 { assert es[2..][1..] == [] && Net(es[2..], t) == Delta(es[2], t); }
    if |es| > 1 { assert es[1..][1..] == es[2..] && Net(es[1..], t) == Delta(es[1], t) + Net(es[2..], t); }
  }

  /** By how much the native total moves beside the match: the owner's credit is lost when its account is named, the
      contract's debits are lost when its account is. */
  function FeeShift(owner: Address, es: seq<Entry>): int {
    (if Names(es, Account(NATIVE, REGISTRATION)) then 2 * RELAYER_FEE else 0)
    - (if Names(es, Account(NATIVE, owner)) then 2 * RELAYER_FEE else 0)
  }

  /** The totals after settlement on the exchange, whoever takes part: fees are burnt when the match names only the
      owner's native account, minted when it names only the contract's, and otherwise kept. */
  lemma {:induction false} FeesInTotal(b: Balances, owner: Address, es: seq<Entry>, t: Token)
    requires Solvent(b, NativeEntries(owner, 2, RELAYER_FEE)) && NotedOk(b, map[], es)
    ensures Total(WrittenLate(b, NativeEntries(owner, 2, RELAYER_FEE), es), t)
            == Total(b, t) + Net(es, t) + if t == NATIVE then FeeShift(owner, es) else 0
  {
    hide Names, Change, NotedOk, Solvent, AppliedAll, WrittenLate, Total, Net, FeesLeft, NativeEntries;
    var fees := NativeEntries(owner, 2, RELAYER_FEE);
    if owner == REGISTRATION {
      FeesArriveExactly(b, owner, es);
      AppliedAllTotal(b, fees + es, t);
      NetConcat(fees, es, t);
      NativeNet(owner, t);
    } else {
      FeesLeftApplied(b, owner, es);
      FeesLeftClear(owner, es, t);
      TotalOffTheMatch(b, fees, FeesLeft(owner, es), es, t);
    }
  }

  lemma {:induction false} NativeNet(owner: Address, t: Token)
    ensures Net(NativeEntries(owner, 2, RELAYER_FEE), t) == 0
  {
    var r, o := Account(NATIVE, REGISTRATION), Account(NATIVE, owner);
    assert NativeEntries(owner, 2, RELAYER_FEE)
        == [Debit(r, RELAYER_FEE), Debit(r, RELAYER_FEE), Credit(o, 2 * RELAYER_FEE)];
    FewNet(NativeEntries(owner, 2, RELAYER_FEE), t);
  }

  /** The totals after a lending match, with the relayer's fee already taken: it is paid out unless the match names the
      owner's native account. */
  lemma {:induction false} LendingFeeInTotal(b: Balances, owner: Address, es: seq<Entry>, t: Token)
    requires NotedOk(b, map[], es)
    ensures var o := Account(NATIVE, owner); var fees := [Credit(o, LENDING_FEE)];
      && Solvent(b, fees)
      && Total(WrittenLate(b, fees, es), t)
         == Total(b, t) + Net(es, t) + if t == NATIVE && !Names(es, o) then LENDING_FEE else 0
  {
    hide Names, NotedOk, WrittenLate, Total;
    var o := Account(NATIVE, owner);
    var fees := [Credit(o, LENDING_FEE)];
    AppliedCons(b, Credit(o, LENDING_FEE), []);
    assert [Credit(o, LENDING_FEE)] + [] == fees;
    var left := if Names(es, o) then [] else fees;
    forall a ensures Change(left, a) == if a == o && !Names(es, o) then LENDING_FEE else 0 { FewChange(left, a); }
    FewNet(left, t);
    TotalOffTheMatch(b, fees, left, es, t);
  }

  // Fees that disappear

  /** User 100, the masternode owner of the block, sells 100 units of token 2 for native tokens. */
  function OwnerSells(): (Terms, Parties) {
    (Terms(false, 2, NATIVE, COIN, COIN, COIN, 10, 10, COIN), Parties(100, 200, 300, 400))
  }

  function OwnerSellsFunds(): Balances {
    map[Account(2, 100) := 100 * COIN, Account(NATIVE, 200) := 101 * COIN, Account(NATIVE, REGISTRATION) := COIN]
  }

  /** A match in which exactly the fees of both relayers vanish from the native total. */
  lemma {:induction false} FeesVanish()
    ensures var (t, p) := OwnerSells(); var b := OwnerSellsFunds(); var fees := NativeEntries(100, 2, RELAYER_FEE);
      && ValidTerms(t) && MatchFill(b, p, t, 100 * COIN).quantity == 100 * COIN && SettleBalance(t, 100 * COIN).Some?
      && var es := Entries(p, SettleBalance(t, 100 * COIN).value, t.quote);
         && Solvent(b, fees) && NotedOk(b, map[], es)
         && Total(WrittenLate(b, fees, es), NATIVE) == Total(b, NATIVE) - 2 * RELAYER_FEE
  {
    hide Total, WrittenLate, NativeEntries, NotedOk;
    var (t, p) := OwnerSells();
    var b, q := OwnerSellsFunds(), 100 * COIN;
    var es := Entries(p, SettleBalance(t, q).value, t.quote);
    ThreeNative(b, 100, RELAYER_FEE);
    MatchNeverShort(b, p, t, q);
    NotedAllIsApplied(b, map[], es);
    assert Overlay(b, map[]) == b;
    assert es[0].account == Account(NATIVE, 100);
    EntriesBalance(p, t, q, NATIVE);
    FeesInTotal(b, 100, es, NATIVE);
  }

  /** User 100, the masternode owner of the block, borrows 100 native coins against token 6. */
  function OwnerBorrows(): (LendTerms, Parties) {
    (LendTerms(true, true, NATIVE, 6, COIN, 150, 100, COIN, COIN, COIN), Parties(100, 200, 300, 400))
  }

  function OwnerBorrowsFunds(): Balances {
    map[Account(6, 100) := 150 * COIN, Account(NATIVE, 200) := 100 * COIN]
  }

  /** A lending match in which the fee, taken before, reaches nobody. */
  lemma {:induction false} LendingFeeVanishes()
    ensures var (t, p) := OwnerBorrows(); var b := OwnerBorrowsFunds();
      var fees := [Credit(Account(NATIVE, 100), LENDING_FEE)];
      && ValidLend(t) && LendFill(b, p, t, 100 * COIN).quantity == 100 * COIN && LendBalance(t, 100 * COIN).Some?
      && var es := LendEntries(p, t.takerBorrows, LendBalance(t, 100 * COIN).value);
         && Solvent(b, fees) && NotedOk(b, map[], es)
         && Total(WrittenLate(b, fees, es), NATIVE) == Total(b, NATIVE)
  {
    hide Total, WrittenLate, NotedOk;
    var (t, p) := OwnerBorrows();
    var b, q := OwnerBorrowsFunds(), 100 * COIN;
    var es := LendEntries(p, t.takerBorrows, LendBalance(t, q).value);
    LendingNeverShort(b, p, t, q);
    NotedAllIsApplied(b, map[], es);
    assert Overlay(b, map[]) == b;
    assert es[0].account == Account(NATIVE, 100);
    LendNet(p, t, q, NATIVE);
    LendingFeeInTotal(b, 100, es, NATIVE);
  }

  class StateDb {
    const tokens: set<Token>
    const owners: map<Address, Address>
    var balances: Balances
    var deposits: Balances

    function OwnerOf(relayer: Address): Address {
      if relayer in owners then owners[relayer] else ZERO_ADDRESS
    }

    /** `CheckAddTokenBalance`: the balance after a credit, on top of what was noted so far. */
    method CheckAdd(addr: Address, value: nat, token: Token, pending: Balances,
                    ghost rest: seq<Entry>) returns (r: Option<nat>)
      requires rest != [] && rest[0] == Credit(Account(token, addr), value)
      ensures Checked(tokens, balances, pending, rest, r)
    {
      hide AllAllowed, NotedOk, NotedAll;
      CheckedStep(tokens, balances, pending, rest);
      var a := Account(token, addr);
      var balance := if a in pending then pending[a] else if a in balances then balances[a] else 0;
      if token == NATIVE {
        return Some(balance + value);
      }
      if token !in tokens || balance + value >= WORD {
        return None;
      }
      r := Some(balance + value);
    }

    /** `CheckSubTokenBalance`. */
    method CheckSub(addr: Address, value: nat, token: Token, pending: Balances,
                    ghost rest: seq<Entry>) returns (r: Option<nat>)
      requires rest != [] && rest[0] == Debit(Account(token, addr), value)
      ensures Checked(tokens, balances, pending, rest, r)
    {
      hide AllAllowed, NotedOk, NotedAll;
      CheckedStep(tokens, balances, pending, rest);
      var a := Account(token, addr);
      var balance := if a in pending then pending[a] else if a in balances then balances[a] else 0;
      if token != NATIVE && token !in tokens {
        return None;
      }
      if balance < value {
        return None;
      }
      r := Some(balance - value);
    }

    /** The checking half of a match: all new balances, or nothing. Only reads. */
    method CheckMatch(p: Parties, s: Settle, quote: Token) returns (r: Option<seq<nat>>)
      ensures r.Some? <==> AllAllowed(tokens, balances, Entries(p, s, quote))
      ensures r.Some? ==> |r.value| == 6 && NotedOk(balances, map[], Entries(p, s, quote))
      ensures r.Some? ==>
        Six(map[], MatchAccounts(p, s, quote), r.value) == NotedAll(balances, map[], Entries(p, s, quote))
    {
      hide AllAllowed, NotedOk, NotedAll, Overlay;
      ghost var es := Entries(p, s, quote);
      var pending: Balances := map[];
      StartChecks(tokens, balances, es);
      var takerIn := CheckAdd(p.taker, s.taker.inTotal, s.taker.inToken, pending, es);
      if takerIn.None? { return None; }
      pending := pending[Account(s.taker.inToken, p.taker) := takerIn.value];
      var takerOut := CheckSub(p.taker, s.taker.outTotal, s.taker.outToken, pending, es[1..]);
      if takerOut.None? { return None; }
      pending := pending[Account(s.taker.outToken, p.taker) := takerOut.value];
      var makerIn := CheckAdd(p.maker, s.maker.inTotal, s.maker.inToken, pending, es[2..]);
      if makerIn.None? { return None; }
      pending := pending[Account(s.maker.inToken, p.maker) := makerIn.value];
      var makerOut := CheckSub(p.maker, s.maker.outTotal, s.maker.outToken, pending, es[3..]);
      if makerOut.None? { return None; }
      pending := pending[Account(s.maker.outToken, p.maker) := makerOut.value];
      var takerFee := CheckAdd(p.takerOwner, s.taker.fee, quote, pending, es[4..]);
      if takerFee.None? { return None; }
      pending := pending[Account(quote, p.takerOwner) := takerFee.value];
      var makerFee := CheckAdd(p.makerOwner, s.maker.fee, quote, pending, es[5..]);
      if makerFee.None? { return None; }
      pending := pending[Account(quote, p.makerOwner) := makerFee.value];
      EndChecks(tokens, balances, pending, es[5..][1..]);
      r := Some([takerIn.value, takerOut.value, makerIn.value, makerOut.value, takerFee.value, makerFee.value]);
    }

    /** The relayers' deposits after both have paid the matching fee; a shared relayer pays twice. Only reads. */
    method CheckFees(first: Address, second: Address, fee: nat) returns (r: Option<(nat, nat)>)
      ensures r.Some? <==> Solvent(deposits, FeeEntries([first, second], fee))
      ensures r.Some? ==>
        deposits[Account(DEPOSIT, first) := r.value.0][Account(DEPOSIT, second) := r.value.1]
        == AppliedAll(deposits, FeeEntries([first, second], fee))
    {
      TwoDebits(deposits, Account(DEPOSIT, first), Account(DEPOSIT, second), fee);
      assert FeeEntries([first, second], fee)
          == [Debit(Account(DEPOSIT, first), fee), Debit(Account(DEPOSIT, second), fee)];
      var balance := Balance(deposits, Account(DEPOSIT, first));
      if balance < fee { return None; }
      var newFirst := balance - fee;
      balance := if second == first then newFirst else Balance(deposits, Account(DEPOSIT, second));
      if balance < fee { return None; }
      r := Some((newFirst, balance - fee));
    }

    /** `SetSubRelayerFee` for both relayers, and the fees to the masternode owner. */
    method CollectFees(first: Address, second: Address, newDeposits: (nat, nat), fee: nat, owner: Address)
      requires Balance(balances, Account(NATIVE, REGISTRATION)) >= 2 * fee
      modifies this
      ensures deposits ==
        old(deposits)[Account(DEPOSIT, first) := newDeposits.0][Account(DEPOSIT, second) := newDeposits.1]
      ensures Solvent(old(balances), NativeEntries(owner, 2, fee))
      ensures balances == AppliedAll(old(balances), NativeEntries(owner, 2, fee))
    {
      var contract := Account(NATIVE, REGISTRATION);
      ThreeNative(balances, owner, fee);
      deposits := deposits[Account(DEPOSIT, first) := newDeposits.0];
      balances := balances[contract := Balance(balances, contract) - fee];
      deposits := deposits[Account(DEPOSIT, second) := newDeposits.1];
      balances := balances[contract := Balance(balances, contract) - fee];
      balances := balances[Account(NATIVE, owner) := Balance(balances, Account(NATIVE, owner)) + 2 * fee];
    }

    /** Settles a match completely or, when any check fails, not at all. */
    method DoSettleBalance(masternodeOwner: Address, taker: Order, maker: Order, s: Settle,
                           quote: Token) returns (ok: bool)
      requires Balance(balances, Account(NATIVE, REGISTRATION)) >= 2 * RELAYER_FEE
      modifies this
      ensures ok <==>
        && OwnerOf(taker.relayer) != ZERO_ADDRESS && OwnerOf(maker.relayer) != ZERO_ADDRESS
        && AllAllowed(tokens, old(balances), Entries(PartiesOf(taker, maker), s, quote))
        && Solvent(old(deposits), FeeEntries([taker.relayer, maker.relayer], RELAYER_FEE))
      ensures !ok ==> balances == old(balances) && deposits == old(deposits)
      ensures ok ==>
        && deposits == AppliedAll(old(deposits), FeeEntries([taker.relayer, maker.relayer], RELAYER_FEE))
        && var es, fees := Entries(PartiesOf(taker, maker), s, quote), NativeEntries(masternodeOwner, 2, RELAYER_FEE);
           && Solvent(old(balances), fees) && NotedOk(old(balances), map[], es)
           && balances == WrittenLate(old(balances), fees, es)
           && (Settles(old(balances), balances, fees, es) <==> FeesApart(masternodeOwner, es))
    {
      hide AllAllowed, NotedOk, NotedAll, Solvent, AppliedAll, Entries, FeeEntries, NativeEntries, Settles, FeesApart;
      var p := PartiesOf(taker, maker);
      if p.takerOwner == ZERO_ADDRESS || p.makerOwner == ZERO_ADDRESS {
        return false;
      }
      var values := CheckMatch(p, s, quote);
      if values.None? {
        return false;
      }
      var fees := CheckFees(taker.relayer, maker.relayer, RELAYER_FEE);
      if fees.None? {
        return false;
      }
      CollectFees(taker.relayer, maker.relayer, fees.value, RELAYER_FEE, masternodeOwner);
      ghost var between := balances;
      WriteMatch(p, s, quote, values.value);
      SixOverlay(between, MatchAccounts(p, s, quote), values.value);
      FeesArriveExactly(old(balances), masternodeOwner, Entries(p, s, quote));
      ok := true;
    }

    /** Writes the six balances one after another. */
    method WriteMatch(p: Parties, s: Settle, quote: Token, values: seq<nat>)
      requires |values| == 6
      modifies this`balances
      ensures balances == Six(old(balances), MatchAccounts(p, s, quote), values)
    {
      balances := balances[Account(s.taker.inToken, p.taker) := values[0]];
      balances := balances[Account(s.taker.outToken, p.taker) := values[1]];
      balances := balances[Account(s.maker.inToken, p.maker) := values[2]];
      balances := balances[Account(s.maker.outToken, p.maker) := values[3]];
      balances := balances[Account(quote, p.takerOwner) := values[4]];
      balances := balances[Account(quote, p.makerOwner) := values[5]];
    }

    /** The checking half of a lending match, after the relayer's fee was taken. Only reads. */
    method CheckLoan(p: Parties, takerBorrows: bool, s: LendSettle) returns (r: Option<Balances>)
      ensures r.Some? <==> AllAllowed(tokens, balances, LendEntries(p, takerBorrows, s))
      ensures r.Some? ==> NotedOk(balances, map[], LendEntries(p, takerBorrows, s))
      ensures r.Some? ==> r.value == NotedAll(balances, map[], LendEntries(p, takerBorrows, s))
    {
      hide AllAllowed, NotedOk, NotedAll, Overlay;
      ghost var es := LendEntries(p, takerBorrows, s);
      var pending: Balances := map[];
      StartChecks(tokens, balances, es);
      if takerBorrows {
        var takerIn := CheckAdd(p.taker, s.taker.inTotal, s.taker.inToken, pending, es);
        if takerIn.None? { return None; }
        pending := pending[Account(s.taker.inToken, p.taker) := takerIn.value];
        var takerOut := CheckSub(p.taker, s.taker.outTotal, s.taker.outToken, pending, es[1..]);
        if takerOut.None? { return None; }
        pending := pending[Account(s.taker.outToken, p.taker) := takerOut.value];
        var makerOut := CheckSub(p.maker, s.maker.outTotal, s.maker.outToken, pending, es[2..]);
        if makerOut.None? { return None; }
        pending := pending[Account(s.maker.outToken, p.maker) := makerOut.value];
        var takerFee := CheckAdd(p.takerOwner, s.taker.fee, s.taker.inToken, pending, es[3..]);
        if takerFee.None? { return None; }
        pending := pending[Account(s.taker.inToken, p.takerOwner) := takerFee.value];
        var lock := CheckAdd(LOCK, s.taker.outTotal, s.taker.outToken, pending, es[4..]);
        if lock.None? { return None; }
        pending := pending[Account(s.taker.outToken, LOCK) := lock.value];
      } else {
        var takerOut := CheckSub(p.taker, s.taker.outTotal, s.taker.outToken, pending, es);
        if takerOut.None? { return None; }
        pending := pending[Account(s.taker.outToken, p.taker) := takerOut.value];
        var makerIn := CheckAdd(p.maker, s.maker.inTotal, s.maker.inToken, pending, es[1..]);
        if makerIn.None? { return None; }
        pending := pending[Account(s.maker.inToken, p.maker) := makerIn.value];
        var makerOut := CheckSub(p.maker, s.maker.outTotal, s.maker.outToken, pending, es[2..]);
        if makerOut.None? { return None; }
        pending := pending[Account(s.maker.outToken, p.maker) := makerOut.value];
        var makerFee := CheckAdd(p.makerOwner, s.maker.fee, s.maker.inToken, pending, es[3..]);
        if makerFee.None? { return None; }
        pending := pending[Account(s.maker.inToken, p.makerOwner) := makerFee.value];
        var lock := CheckAdd(LOCK, s.maker.outTotal, s.maker.outToken, pending, es[4..]);
        if lock.None? { return None; }
        pending := pending[Account(s.maker.outToken, LOCK) := lock.value];
      }
      EndChecks(tokens, balances, pending, es[4..][1..]);
      r := Some(pending);
    }

    /** Writes the balances kept aside, in any order. */
    method WriteAll(pending: Balances)
      modifies this`balances
      ensures balances == Overlay(old(balances), pending)
    {
      var left := pending.Keys;
      while left != {}
        invariant left <= pending.Keys
        invariant Overlay(balances, pending) == Overlay(old(balances), pending)
        invariant forall a :: a in pending.Keys - left ==> a in balances && balances[a] == pending[a]
        decreases left
      {
        var a :| a in left;
        balances := balances[a := pending[a]];
        left := left - {a};
      }
    }

    /** Settles a lending match. Unlike on the exchange the relayer's fee is taken first: it stays taken when a
        later check fails. */
    method DoSettleLending(masternodeOwner: Address, taker: Order, maker: Order, takerBorrows: bool,
                           s: LendSettle) returns (ok: bool)
      requires Balance(balances, Account(NATIVE, REGISTRATION)) >= LENDING_FEE
      modifies this
      ensures var payer := Account(DEPOSIT, (if takerBorrows then taker else maker).relayer);
        var charged := Charged(old(balances));
        var es := LendEntries(PartiesOf(taker, maker), takerBorrows, s);
        if OwnerOf(taker.relayer) == ZERO_ADDRESS || OwnerOf(maker.relayer) == ZERO_ADDRESS
           || Balance(old(deposits), payer) < LENDING_FEE
        then
          !ok && balances == old(balances) && deposits == old(deposits)
        else
          && deposits == old(deposits)[payer := Balance(old(deposits), payer) - LENDING_FEE]
          && (ok <==> AllAllowed(tokens, charged, es))
          && (!ok ==> balances == charged)
          && (ok ==>
                var fees := [Credit(Account(NATIVE, masternodeOwner), LENDING_FEE)];
                && Solvent(charged, fees) && NotedOk(charged, map[], es)
                && balances == WrittenLate(charged, fees, es)
                && (Settles(charged, balances, fees, es) <==> !Names(es, Account(NATIVE, masternodeOwner))))
    {
      hide AllAllowed, NotedOk, NotedAll, Solvent, LendEntries, Names, Settles;
      var p := PartiesOf(taker, maker);
      if p.takerOwner == ZERO_ADDRESS || p.makerOwner == ZERO_ADDRESS {
        return false;
      }
      var payer := Account(DEPOSIT, (if takerBorrows then taker else maker).relayer);
      var deposit := Balance(deposits, payer);
      if deposit < LENDING_FEE {
        return false;
      }
      deposits := deposits[payer := deposit - LENDING_FEE];
      var contract := Account(NATIVE, REGISTRATION);
      balances := balances[contract := Balance(balances, contract) - LENDING_FEE];
      var pending := CheckLoan(p, takerBorrows, s);
      if pending.None? {
        return false;
      }
      ghost var charged := balances;
      var fees := Account(NATIVE, masternodeOwner);
      balances := balances[fees := Balance(balances, fees) + LENDING_FEE];
      WriteAll(pending.value);
      AppliedCons(charged, Credit(fees, LENDING_FEE), []);
      assert [Credit(fees, LENDING_FEE)] + [] == [Credit(fees, LENDING_FEE)];
      LendingFeeArrivesExactly(charged, masternodeOwner, LendEntries(p, takerBorrows, s));
      ok := true;
    }

    function PartiesOf(taker: Order, maker: Order): Parties {
      Parties(taker.user, maker.user, OwnerOf(taker.relayer), OwnerOf(maker.relayer))
    }
  }

  /** Six values written one after another, the last one for an account prevailing. */
  function Six(m: Balances, a: seq<Account>, v: seq<nat>): Balances
    requires |a| == |v| == 6
  {
    m[a[0] := v[0]][a[1] := v[1]][a[2] := v[2]][a[3] := v[3]][a[4] := v[4]][a[5] := v[5]]
  }

  lemma {:induction false} SixOverlay(b: Balances, a: seq<Account>, v: seq<nat>)
    requires |a| == |v| == 6
    ensures Six(b, a, v) == Overlay(b, Six(map[], a, v))
  {
  }

  /** The outcome of a check, in terms of the entries from this one on. */
  ghost predicate Checked(tokens: set<Token>, b: Balances, pending: Balances, rest: seq<Entry>, r: Option<nat>)
    requires rest != []
  {
    if r.None? then !AllAllowed(tokens, Overlay(b, pending), rest)
    else
      var pending' := pending[rest[0].account := r.value];
      && (AllAllowed(tokens, Overlay(b, pending), rest) <==> AllAllowed(tokens, Overlay(b, pending'), rest[1..]))
      && (NotedOk(b, pending, rest) <==> NotedOk(b, pending', rest[1..]))
      && (NotedOk(b, pending, rest) ==> NotedAll(b, pending, rest) == NotedAll(b, pending', rest[1..]))
  }
}
