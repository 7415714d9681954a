/** Token balances, entries that credit or debit an account, and what a list of entries does when they are
    applied one after another. */
module Ledger {
  import opened Sums

  type Address = nat
  type Token = nat

  const ZERO_ADDRESS: Address := 0
  const NATIVE: Token := 1
  const WORD: nat := 0x1_0000000000000000_0000000000000000_0000000000000000_0000000000000000

  datatype Account = Account(token: Token, owner: Address)

  type Balances = map<Account, nat>

  datatype Entry =
    | Credit(account: Account, amount: nat)
    | Debit(account: Account, amount: nat)

  function Balance(b: Balances, a: Account): nat {
    if a in b then b[a] else 0
  }

  /** Token contracts must exist, and their balances fit 256 bits; the native balance is unbounded. */
  predicate Allowed(tokens: set<Token>, b: Balances, e: Entry) {
    && (e.account.token == NATIVE || e.account.token in tokens)
    && match e
       case Credit(a, n) => a.token == NATIVE || Balance(b, a) + n < WORD
       case Debit(a, n) => Covered(b, e)
  }

  predicate Covered(b: Balances, e: Entry) {
    e.Debit? ==> Balance(b, e.account) >= e.amount
  }

  function Changed(b: Balances, e: Entry): nat
    requires Covered(b, e)
  {
    match e
    case Credit(a, n) => Balance(b, a) + n
    case Debit(a, n) => Balance(b, a) - n
  }

  function Applied(b: Balances, e: Entry): Balances
    requires Covered(b, e)
  {
    b[e.account := Changed(b, e)]
  }

  /** Every debit finds its amount when the entries are applied in order. */
  predicate Solvent(b: Balances, es: seq<Entry>)
    decreases |es|
  {
    es == [] || (Covered(b, es[0]) && Solvent(Applied(b, es[0]), es[1..]))
  }

  predicate AllAllowed(tokens: set<Token>, b: Balances, es: seq<Entry>)
    ensures AllAllowed(tokens, b, es) ==> Solvent(b, es)
    decreases |es|
  {
    es == [] || (Allowed(tokens, b, es[0]) && AllAllowed(tokens, Applied(b, es[0]), es[1..]))
  }

  function AppliedAll(b: Balances, es: seq<Entry>): Balances
    requires Solvent(b, es)
    decreases |es|
  {
    if es == [] then b else AppliedAll(Applied(b, es[0]), es[1..])
  }

  lemma {:induction false} AppliedCons(b: Balances, e: Entry, es: seq<Entry>)
    ensures Solvent(b, [e] + es) <==> Covered(b, e) && Solvent(Applied(b, e), es)
    ensures Solvent(b, [e] + es) ==> AppliedAll(b, [e] + es) == AppliedAll(Applied(b, e), es)
  {
    assert ([e] + es)[1..] == es;
  }

  // Totals

  ghost function OfToken(b: Balances, t: Token): map<Account, int> {
    map a | a in b && a.token == t :: b[a]
  }

  ghost function Total(b: Balances, t: Token): int {
    Sum(OfToken(b, t))
  }

  function Delta(e: Entry, t: Token): int {
    var n: int := e.amount;
    if e.account.token != t then 0 else if e.Credit? then n else -n
  }

  function Net(es: seq<Entry>, t: Token): int {
    if es == [] then 0 else Delta(es[0], t) + Net(es[1..], t)
  }

  lemma {:induction false} TotalUpdate(b: Balances, a: Account, v: nat, t: Token)
    ensures Total(b[a := v], t) == Total(b, t) + (if a.token == t then v - Balance(b, a) else 0)
  {
    if a.token == t {
      assert OfToken(b[a := v], t) == OfToken(b, t)[a := v];
      SumUpdate(OfToken(b, t), a, v);
    } else {
      assert OfToken(b[a := v], t) == OfToken(b, t);
    }
  }

  lemma {:induction false} AppliedTotal(b: Balances, e: Entry, t: Token)
    requires Covered(b, e)
    ensures Total(Applied(b, e), t) == Total(b, t) + Delta(e, t)
  {
    TotalUpdate(b, e.account, Changed(b, e), t);
  }

  /** Applying entries changes a token's total by the credits less the debits. */
  lemma {:induction false} AppliedAllTotal(b: Balances, es: seq<Entry>, t: Token)
    requires Solvent(b, es)
    ensures Total(AppliedAll(b, es), t) == Total(b, t) + Net(es, t)
    decreases |es|
  {
    if es != [] {
      AppliedTotal(b, es[0], t);
      AppliedAllTotal(Applied(b, es[0]), es[1..], t);
    }
  }

  lemma {:induction false} AppliedConcat(b: Balances, xs: seq<Entry>, ys: seq<Entry>)
    requires Solvent(b, xs) && Solvent(AppliedAll(b, xs), ys)
    ensures Solvent(b, xs + ys) && AppliedAll(b, xs + ys) == AppliedAll(AppliedAll(b, xs), ys)
    decreases |xs|
  {
    if xs == [] {
      assert xs + ys == ys;
    } else {
      assert (xs + ys)[0] == xs[0] && (xs + ys)[1..] == xs[1..] + ys;
      AppliedConcat(Applied(b, xs[0]), xs[1..], ys);
    }
  }

  // Pending balances: new values are kept aside and written at the end

  /** The balances as seen through the values kept aside. */
  function Overlay(b: Balances, pending: Balances): Balances {
    b + pending
  }

  function Noted(b: Balances, pending: Balances, e: Entry): Balances
    requires Covered(Overlay(b, pending), e)
  {
    pending[e.account := Changed(Overlay(b, pending), e)]
  }

  lemma {:induction false} NotedIsApplied(b: Balances, pending: Balances, e: Entry)
    requires Covered(Overlay(b, pending), e)
    ensures Overlay(b, Noted(b, pending, e)) == Applied(Overlay(b, pending), e)
  {
  }

  predicate NotedOk(b: Balances, pending: Balances, es: seq<Entry>)
    decreases |es|
  {
    es == [] || (Covered(Overlay(b, pending), es[0]) && NotedOk(b, Noted(b, pending, es[0]), es[1..]))
  }

  function NotedAll(b: Balances, pending: Balances, es: seq<Entry>): Balances
    requires NotedOk(b, pending, es)
    decreases |es|
  {
    if es == [] then pending else NotedAll(b, Noted(b, pending, es[0]), es[1..])
  }

  /** Writing the values kept aside equals applying the entries one after another. */
  lemma {:induction false} NotedAllIsApplied(b: Balances, pending: Balances, es: seq<Entry>)
    ensures NotedOk(b, pending, es) <==> Solvent(Overlay(b, pending), es)
    ensures NotedOk(b, pending, es) ==> Overlay(b, NotedAll(b, pending, es)) == AppliedAll(Overlay(b, pending), es)
    decreases |es|
  {
    if es != [] && Covered(Overlay(b, pending), es[0]) {
      NotedIsApplied(b, pending, es[0]);
      NotedAllIsApplied(b, Noted(b, pending, es[0]), es[1..]);
    }
  }

  lemma {:induction false} NotedElsewhereOne(b: Balances, b': Balances, pending: Balances, e: Entry)
    requires Balance(b, e.account) == Balance(b', e.account)
    ensures Covered(Overlay(b, pending), e) <==> Covered(Overlay(b', pending), e)
    ensures Covered(Overlay(b, pending), e) ==> Noted(b, pending, e) == Noted(b', pending, e)
  {
    assert Balance(Overlay(b, pending), e.account) == Balance(Overlay(b', pending), e.account);
  }

  /** Balances of accounts no entry names play no role. */
  lemma {:induction false} NotedElsewhere(b: Balances, b': Balances, pending: Balances, es: seq<Entry>)
    requires forall e :: e in es ==> Balance(b, e.account) == Balance(b', e.account)
    ensures NotedOk(b, pending, es) <==> NotedOk(b', pending, es)
    ensures NotedOk(b, pending, es) ==> NotedAll(b, pending, es) == NotedAll(b', pending, es)
    decreases |es|
  {
    hide Covered, Noted, Overlay, Balance;
    if es != [] {
      NotedElsewhereOne(b, b', pending, es[0]);
      if Covered(Overlay(b, pending), es[0]) {
        assert forall e :: e in es[1..] ==> e in es;
        NotedElsewhere(b, b', Noted(b, pending, es[0]), es[1..]);
      }
    }
  }

  // Single accounts

  function ChangeBy(e: Entry, a: Account): int {
    var n: int := e.amount;
    if e.account != a then 0 else if e.Credit? then n else -n
  }

  /** What the entries do to one account. */
  function Change(es: seq<Entry>, a: Account): int {
    if es == [] then 0 else ChangeBy(es[0], a) + Change(es[1..], a)
  }

  /** What a payment of `n` means for account `a`. */
  function Moved(source: Account, target: Account, n: nat, a: Account): int {
    (if a == target then n else 0) - (if a == source then n else 0)
  }

  predicate Names(es: seq<Entry>, a: Account) {
    exists e :: e in es && e.account == a
  }

  lemma {:induction false} AppliedChange(b: Balances, es: seq<Entry>, a: Account)
    requires Solvent(b, es)
    ensures Balance(AppliedAll(b, es), a) == Balance(b, a) + Change(es, a)
    decreases |es|
  {
    if es != [] { AppliedChange(Applied(b, es[0]), es[1..], a); }
  }

  lemma {:induction false} ChangeConcat(xs: seq<Entry>, ys: seq<Entry>, a: Account)
    ensures Change(xs + ys, a) == Change(xs, a) + Change(ys, a)
  {
    if xs == [] {
      assert xs + ys == ys;
    } else {
      assert (xs + ys)[1..] == xs[1..] + ys;
      ChangeConcat(xs[1..], ys, a);
    }
  }

  lemma {:induction false} NamesCons(es: seq<Entry>, a: Account)
    requires es != []
    ensures Names(es, a) <==> es[0].account == a || Names(es[1..], a)
  {
    if Names(es, a) && es[0].account != a {
      var e :| e in es && e.account == a;
      assert e in es[1..];
    }
    if Names(es[1..], a) {
      var e :| e in es[1..] && e.account == a;
      assert e in es;
    }
  }

  /** Exactly the accounts the entries name are kept aside. */
  lemma {:induction false} NotedNames(b: Balances, pending: Balances, es: seq<Entry>, a: Account)
    requires NotedOk(b, pending, es)
    ensures a in NotedAll(b, pending, es) <==> a in pending || Names(es, a)
    decreases |es|
  {
    hide Names, Covered, Overlay, Changed;
    if es == [] {
      assert !Names(es, a) by { NoNames(a); }
    } else {
      NamesCons(es, a);
      NotedNames(b, Noted(b, pending, es[0]), es[1..], a);
    }
  }

  lemma {:induction false} NoNames(a: Account)
    ensures !Names([], a)
  {
  }

  lemma {:induction false} UnnamedChange(es: seq<Entry>, a: Account)
    requires !Names(es, a)
    ensures Change(es, a) == 0
  {
    if es != [] {
      NamesCons(es, a);
      UnnamedChange(es[1..], a);
    }
  }
}
