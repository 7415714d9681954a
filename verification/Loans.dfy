/** Open loans, the indexes that find them and the escrow that backs them: the state behind
    BRCxlending/order_processor.go, and what each step of a loan's life does to it. */
module Loans {
  import opened Sums
  import opened Ledger
  import opened LendSettlement

  datatype Key = Key(book: nat, id: nat)

  datatype Pair = Pair(collateral: Token, lend: Token)

  datatype Trade = Trade(pair: Pair, borrower: Address, investor: Address, amount: nat, locked: nat,
                         price: nat, time: nat, term: nat, interest: nat, autoTopUp: bool)

  /** Entries of the liquidation price index and of the liquidation time index. */
  datatype PriceEntry = PriceEntry(pair: Pair, price: nat, key: Key)

  datatype TimeEntry = TimeEntry(time: nat, key: Key)

  /** `used` records every trade id ever given out. */
  datatype State = State(trades: map<Key, Trade>, nonces: map<nat, nat>, times: set<TimeEntry>, prices: set<PriceEntry>,
                         balances: Balances, used: set<Key>)

  function NonceOf(nonces: map<nat, nat>, book: nat): nat {
    if book in nonces then nonces[book] else 0
  }

  function PriceOf(k: Key, t: Trade): PriceEntry {
    PriceEntry(t.pair, t.price, k)
  }

  function TimeOf(k: Key, t: Trade): TimeEntry {
    TimeEntry(t.time, k)
  }

  // Escrow

  ghost function LockedIn(trades: map<Key, Trade>, t: Token): map<Key, int> {
    map k | k in trades && trades[k].pair.collateral == t :: trades[k].locked
  }

  ghost function Escrow(trades: map<Key, Trade>, t: Token): int {
    Sum(LockedIn(trades, t))
  }

  /** The lock address holds, token by token, the collateral of the open trades and nothing else. */
  ghost predicate EscrowOk(trades: map<Key, Trade>, balances: Balances) {
    forall t :: Balance(balances, Account(t, LOCK)) == Escrow(trades, t)
  }

  /** A step moves `n` of token `t` into the escrow, and no other token into or out of it. */
  ghost predicate MovesIn(es: seq<Entry>, t: Token, n: int) {
    forall u :: Change(es, Account(u, LOCK)) == if u == t then n else 0
  }

  lemma {:induction false} LockedUpdate(trades: map<Key, Trade>, k: Key, tr: Trade, t: Token)
    requires k in trades ==> trades[k].pair == tr.pair
    ensures LockedIn(trades[k := tr], t) ==
      if tr.pair.collateral == t then LockedIn(trades, t)[k := tr.locked] else LockedIn(trades, t)
  {
    var m := LockedIn(trades[k := tr], t);
    var m' := if tr.pair.collateral == t then LockedIn(trades, t)[k := tr.locked] else LockedIn(trades, t);
    assert m.Keys == m'.Keys;
  }

  lemma {:induction false} LockedAt(trades: map<Key, Trade>, k: Key, t: Token)
    ensures k in LockedIn(trades, t) <==> k in trades && trades[k].pair.collateral == t
    ensures k in LockedIn(trades, t) ==> LockedIn(trades, t)[k] == trades[k].locked
  {
  }

  lemma {:induction false} EscrowUpdate(trades: map<Key, Trade>, k: Key, tr: Trade, t: Token)
    requires k in trades ==> trades[k].pair == tr.pair
    ensures Escrow(trades[k := tr], t) == Escrow(trades, t) +
      if tr.pair.collateral == t then tr.locked - (if k in trades then trades[k].locked else 0) else 0
  {
    hide LockedIn, Sum;
    LockedUpdate(trades, k, tr, t);
    LockedAt(trades, k, t);
    if tr.pair.collateral == t { SumUpdate(LockedIn(trades, t), k, tr.locked); }
  }

  lemma {:induction false} EscrowRemove(trades: map<Key, Trade>, k: Key, t: Token)
    requires k in trades
    ensures Escrow(trades - {k}, t) ==
      Escrow(trades, t) - if trades[k].pair.collateral == t then trades[k].locked else 0
  {
    if trades[k].pair.collateral == t {
      assert LockedIn(trades - {k}, t) == LockedIn(trades, t) - {k};
      SumWithout(LockedIn(trades, t), k);
    } else {
      assert LockedIn(trades - {k}, t) == LockedIn(trades, t);
    }
  }

  /** What a trade has locked is there to be paid out. */
  lemma {:induction false} EscrowCovers(trades: map<Key, Trade>, balances: Balances, k: Key)
    requires EscrowOk(trades, balances) && k in trades
    ensures Balance(balances, Account(trades[k].pair.collateral, LOCK)) >= trades[k].locked
  {
    SumBounds(LockedIn(trades, trades[k].pair.collateral), k);
  }

  // The invariant

  ghost predicate PricesOk(trades: map<Key, Trade>, prices: set<PriceEntry>) {
    forall e: PriceEntry :: e in prices <==> e.key in trades && e == PriceOf(e.key, trades[e.key])
  }

  ghost predicate TimesOk(trades: map<Key, Trade>, times: set<TimeEntry>) {
    forall e: TimeEntry :: e in times <==> e.key in trades && e == TimeOf(e.key, trades[e.key])
  }

  ghost predicate IdsOk(trades: map<Key, Trade>, nonces: map<nat, nat>, used: set<Key>) {
    && (forall k :: k in trades ==> k in used)
    && (forall k :: k in used ==> 0 < k.id <= NonceOf(nonces, k.book))
  }

  predicate GoodTrade(t: Trade) {
    t.amount > 0 && t.time > 0 && t.borrower != LOCK && t.investor != LOCK
  }

  ghost predicate TradesOk(trades: map<Key, Trade>) {
    forall k :: k in trades ==> GoodTrade(trades[k])
  }

  ghost predicate Inv(s: State) {
    && TradesOk(s.trades) && EscrowOk(s.trades, s.balances)
    && PricesOk(s.trades, s.prices) && TimesOk(s.trades, s.times) && IdsOk(s.trades, s.nonces, s.used)
  }

  /** Nothing lent, nothing locked. */
  ghost predicate Init(s: State) {
    && s.trades == map[] && s.nonces == map[] && s.times == {} && s.prices == {} && s.used == {}
    && forall t :: Balance(s.balances, Account(t, LOCK)) == 0
  }

  lemma {:induction false} InitKeeps(s: State)
    requires Init(s)
    ensures Inv(s)
  {
    forall t ensures Escrow(s.trades, t) == 0 {
      assert LockedIn(s.trades, t) == map[];
    }
  }

  // The three kinds of change

  /** A loan recorded after a match left the balances `b`. */
  function OpenedWith(s: State, book: nat, t: Trade, b: Balances): State {
    var k := Key(book, NonceOf(s.nonces, book) + 1);
    State(s.trades[k := t], s.nonces[book := k.id], s.times + {TimeOf(k, t)}, s.prices + {PriceOf(k, t)}, b,
          s.used + {k})
  }

  ghost function Opened(s: State, book: nat, t: Trade, es: seq<Entry>): State
    requires Solvent(s.balances, es)
  {
    OpenedWith(s, book, t, AppliedAll(s.balances, es))
  }

  /** Top-up and recall: another price and another amount locked. */
  ghost function Repriced(s: State, k: Key, price: nat, locked: nat, es: seq<Entry>): State
    requires k in s.trades && Solvent(s.balances, es)
  {
    var t := s.trades[k];
    var t' := t.(price := price, locked := locked);
    s.(trades := s.trades[k := t'], prices := s.prices - {PriceOf(k, t)} + {PriceOf(k, t')},
       balances := AppliedAll(s.balances, es))
  }

  ghost function Ended(s: State, k: Key, es: seq<Entry>): State
    requires k in s.trades && Solvent(s.balances, es)
  {
    var t := s.trades[k];
    s.(trades := s.trades - {k}, times := s.times - {TimeOf(k, t)}, prices := s.prices - {PriceOf(k, t)},
       balances := AppliedAll(s.balances, es))
  }

  /** Between two sets of balances `n` of token `t`, and nothing else, has come into the escrow. */
  ghost predicate EscrowMoved(b: Balances, b': Balances, t: Token, n: int) {
    forall u :: Balance(b', Account(u, LOCK)) == Balance(b, Account(u, LOCK)) + if u == t then n else 0
  }

  lemma {:induction false} OpenedEscrow(s: State, book: nat, t: Trade, b: Balances)
    requires Inv(s) && EscrowMoved(s.balances, b, t.pair.collateral, t.locked)
    ensures EscrowOk(OpenedWith(s, book, t, b).trades, b)
  {
    hide Escrow, PricesOk, TimesOk, TradesOk;
    var k := Key(book, NonceOf(s.nonces, book) + 1);
    forall u ensures Balance(b, Account(u, LOCK)) == Escrow(s.trades[k := t], u) {
      EscrowUpdate(s.trades, k, t, u);
    }
  }

  lemma {:induction false} OpenedWithKeeps(s: State, book: nat, t: Trade, b: Balances)
    requires Inv(s) && GoodTrade(t) && EscrowMoved(s.balances, b, t.pair.collateral, t.locked)
    ensures Inv(OpenedWith(s, book, t, b))
    ensures Key(book, NonceOf(s.nonces, book) + 1) !in s.used
  {
    hide EscrowOk, EscrowMoved;
    OpenedEscrow(s, book, t, b);
  }

  lemma {:induction false} OpenedKeeps(s: State, book: nat, t: Trade, es: seq<Entry>)
    requires Inv(s) && GoodTrade(t) && Solvent(s.balances, es) && MovesIn(es, t.pair.collateral, t.locked)
    ensures Inv(Opened(s, book, t, es))
    ensures Key(book, NonceOf(s.nonces, book) + 1) !in s.used
  {
    hide Inv, AppliedAll, Solvent, Change;
    forall u ensures Balance(AppliedAll(s.balances, es), Account(u, LOCK))
      == Balance(s.balances, Account(u, LOCK)) + if u == t.pair.collateral then t.locked else 0
    {
      AppliedChange(s.balances, es, Account(u, LOCK));
    }
    OpenedWithKeeps(s, book, t, AppliedAll(s.balances, es));
  }

  lemma {:induction false} RepricedEscrow(s: State, k: Key, price: nat, locked: nat, es: seq<Entry>)
    requires Inv(s) && k in s.trades && Solvent(s.balances, es)
    requires MovesIn(es, s.trades[k].pair.collateral, locked - s.trades[k].locked)
    ensures var s' := Repriced(s, k, price, locked, es); EscrowOk(s'.trades, s'.balances)
  {
    hide Escrow, AppliedAll, Solvent, PricesOk, TimesOk, TradesOk, IdsOk;
    var t' := s.trades[k].(price := price, locked := locked);
    forall u ensures Balance(AppliedAll(s.balances, es), Account(u, LOCK)) == Escrow(s.trades[k := t'], u) {
      AppliedChange(s.balances, es, Account(u, LOCK));
      EscrowUpdate(s.trades, k, t', u);
    }
  }

  lemma {:induction false} RepricedKeeps(s: State, k: Key, price: nat, locked: nat, es: seq<Entry>)
    requires Inv(s) && k in s.trades && Solvent(s.balances, es)
    requires MovesIn(es, s.trades[k].pair.collateral, locked - s.trades[k].locked)
    ensures Inv(Repriced(s, k, price, locked, es))
  {
    hide EscrowOk, AppliedAll, Solvent, MovesIn;
    RepricedEscrow(s, k, price, locked, es);
  }

  lemma {:induction false} EndedEscrow(s: State, k: Key, es: seq<Entry>)
    requires Inv(s) && k in s.trades && Solvent(s.balances, es)
    requires MovesIn(es, s.trades[k].pair.collateral, -(s.trades[k].locked as int))
    ensures var s' := Ended(s, k, es); EscrowOk(s'.trades, s'.balances)
  {
    hide Escrow, AppliedAll, Solvent, PricesOk, TimesOk, TradesOk, IdsOk;
    forall u ensures Balance(AppliedAll(s.balances, es), Account(u, LOCK)) == Escrow(s.trades - {k}, u) {
      AppliedChange(s.balances, es, Account(u, LOCK));
      EscrowRemove(s.trades, k, u);
    }
  }

  lemma {:induction false} EndedKeeps(s: State, k: Key, es: seq<Entry>)
    requires Inv(s) && k in s.trades && Solvent(s.balances, es)
    requires MovesIn(es, s.trades[k].pair.collateral, -(s.trades[k].locked as int))
    ensures Inv(Ended(s, k, es))
  {
    hide EscrowOk, AppliedAll, Solvent, MovesIn;
    EndedEscrow(s, k, es);
  }

  /** Payments elsewhere leave the invariant alone as long as they do not touch the escrow. */
  lemma {:induction false} OutsideKeeps(s: State, es: seq<Entry>)
    requires Inv(s) && Solvent(s.balances, es) && MovesIn(es, 0, 0)
    ensures Inv(s.(balances := AppliedAll(s.balances, es)))
  {
    hide AppliedAll, Solvent, PricesOk, TimesOk, TradesOk, IdsOk, Escrow;
    forall u ensures Balance(AppliedAll(s.balances, es), Account(u, LOCK)) == Escrow(s.trades, u) {
      AppliedChange(s.balances, es, Account(u, LOCK));
    }
  }
}
