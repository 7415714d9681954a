/** The matching engine: `processOrderList`, `processLimitOrder`, `processMarketOrder` and the revert of
    `ApplyOrder`, as in BRCx/order_processor.go and, with interest for price, BRCxlending/order_processor.go. */
module Matching {
  import opened Options
  import opened OrderBook
  import Ledger

  /** How settling a taker with a maker for at most `max` ends: with a (possibly shortened) quantity, with one
      that is too small to settle, or with an error. */
  datatype Outcome =
    | Settled(quantity: nat, rejectMaker: bool)
    | TooSmall(quantity: nat, rejectMaker: bool)
    | Broken

  predicate Sound(o: Outcome, max: nat) {
    !o.Broken? ==> o.quantity <= max && (o.rejectMaker ==> o.quantity < max)
  }

  /** What the engine hands to settlement: the taker's side and issuer, the maker's order, issuer and price, and how
      much may be traded at most. */
  datatype Attempt = Attempt(buys: bool, taker: Issuer, id: Id, maker: Issuer, price: nat, max: nat)

  /** Settlement: it ends in an outcome and moves a ledger of any kind. */
  type Settler<!S> = (S, Attempt) -> (S, Outcome)

  ghost predicate Reliable<S(!new)>(settle: Settler<S>) {
    forall l: S, a: Attempt :: a.price > 0 && a.max > 0 ==> Sound(settle(l, a).1, a.max)
  }

  /** The ledger after a sequence of attempts. */
  function SettleAll<S>(settle: Settler<S>, l: S, attempts: seq<Attempt>): S {
    if attempts == [] then l
    else
      var n := |attempts| - 1;
      settle(SettleAll(settle, l, attempts[..n]), attempts[n]).0
  }

  function SettledBy(o: Outcome): seq<nat> {
    if o.Settled? && o.quantity > 0 then [o.quantity] else []
  }

  /** The quantities settled by a sequence of attempts. */
  function SettledOf<S>(settle: Settler<S>, l: S, attempts: seq<Attempt>): seq<nat> {
    if attempts == [] then []
    else
      var n := |attempts| - 1;
      SettledOf(settle, l, attempts[..n]) + SettledBy(settle(SettleAll(settle, l, attempts[..n]), attempts[n]).1)
  }

  function Quantities(fills: seq<Fill>): seq<nat> {
    seq(|fills|, i requires 0 <= i < |fills| => fills[i].quantity)
  }

  /** Book and ledger in step: the attempts of one taker with known makers lead from one ledger to the other, and what
      they settled is what was filled. */
  ghost predicate Traced<S(!new)>(settle: Settler<S>, who: Issuer, known: set<Issuer>, l: S, l': S,
                                  attempts: seq<Attempt>, fills: seq<Fill>) {
    && l' == SettleAll(settle, l, attempts) && Quantities(fills) == SettledOf(settle, l, attempts)
    && forall a :: a in attempts ==> a.taker == who && a.maker in known
  }

  lemma {:induction false} SettleConcat<S>(settle: Settler<S>, l: S, xs: seq<Attempt>, ys: seq<Attempt>)
    ensures SettleAll(settle, l, xs + ys) == SettleAll(settle, SettleAll(settle, l, xs), ys)
    ensures SettledOf(settle, l, xs + ys) == SettledOf(settle, l, xs) + SettledOf(settle, SettleAll(settle, l, xs), ys)
    decreases |ys|
  {
    if ys == [] {
      assert xs + ys == xs;
    } else {
      var n := |ys| - 1;
      assert (xs + ys)[..|xs + ys| - 1] == xs + ys[..n];
      SettleConcat(settle, l, xs, ys[..n]);
    }
  }

  lemma {:induction false} TracedNone<S(!new)>(settle: Settler<S>, who: Issuer, known: set<Issuer>, l: S)
    ensures Traced(settle, who, known, l, l, [], [])
  {
  }

  lemma {:induction false} TracedOne<S(!new)>(settle: Settler<S>, who: Issuer, known: set<Issuer>, l: S, a: Attempt,
                                              fills: seq<Fill>)
    requires a.taker == who && a.maker in known && Quantities(fills) == SettledBy(settle(l, a).1)
    ensures Traced(settle, who, known, l, settle(l, a).0, [a], fills)
  {
    assert [a][..0] == [];
  }

  lemma {:induction false} TracedConcat<S(!new)>(settle: Settler<S>, who: Issuer, known: set<Issuer>, l: S, m: S, l': S,
                                                 xs: seq<Attempt>, ys: seq<Attempt>, fills: seq<Fill>,
                                                 more: seq<Fill>)
    requires Traced(settle, who, known, l, m, xs, fills) && Traced(settle, who, known, m, l', ys, more)
    ensures Traced(settle, who, known, l, l', xs + ys, fills + more)
  {
    SettleConcat(settle, l, xs, ys);
    assert Quantities(fills + more) == Quantities(fills) + Quantities(more);
  }

  /** Every order of a side was issued by somebody known. */
  ghost predicate Known(known: set<Issuer>, side: Side) {
    forall id :: id in side ==> side[id].issuer in known
  }

  lemma {:induction false} StillKnown(known: set<Issuer>, before: Side, side: Side, fills: seq<Fill>,
                                      cancels: seq<Cancel>)
    requires Known(known, before) && Accounted(before, side, fills, cancels)
    ensures Known(known, side)
  {
  }

  datatype Report = Report(left: nat, rejected: bool, fills: seq<Fill>, cancels: seq<Cancel>)

  /** The taker's quantity is accounted for, unless the taker was rejected: then nothing is left of it. */
  ghost predicate Spent(q: nat, r: Report) {
    if r.rejected then r.left == 0 && Filled(r.fills) < q else Filled(r.fills) + r.left == q
  }

  // What the outcomes of the attempts mean for taker and makers

  datatype Taker = Taker(buys: bool, issuer: Issuer, quantity: nat)

  function Min(x: nat, y: nat): nat {
    if x <= y then x else y
  }

  function Less(x: nat, y: nat): nat {
    if x <= y then 0 else x - y
  }

  /** A match for less than is worth settling rejects the one whose order or balance made it so small: the smaller order
      (both when equal) or the shorter balance. An empty match rejects the one who cannot pay. */
  predicate RejectsTaker(o: Outcome, max: nat, left: nat, has: nat) {
    match o
    case Broken => false
    case TooSmall(n, rejectMaker) => if n == max then left <= has else !rejectMaker
    case Settled(n, rejectMaker) => n == 0 && !rejectMaker
  }

  predicate RejectsMaker(o: Outcome, max: nat, left: nat, has: nat) {
    match o
    case Broken => false
    case TooSmall(n, rejectMaker) => if n == max then has <= left else rejectMaker
    case Settled(_, rejectMaker) => rejectMaker
  }

  /** The report after one more attempt, with a maker that still `has` so much. */
  function Advanced(r: Report, has: nat, a: Attempt, o: Outcome): Report {
    var n := if o.Settled? then o.quantity else 0;
    var rejected := RejectsTaker(o, a.max, r.left, has);
    Report(if rejected then 0 else Less(r.left, n), rejected,
           r.fills + (if n > 0 then [Fill(a.id, a.price, n)] else []),
           r.cancels + (if RejectsMaker(o, a.max, r.left, has) then [Cancel(a.id, Less(has, n))] else []))
  }

  /** What a maker of `before` still has. */
  function Has(before: Side, fills: seq<Fill>, id: Id): nat {
    Less(Amount(before, id), FilledOf(fills, id))
  }

  /** The report that a sequence of attempts leads to. */
  function ReportAfter<S>(settle: Settler<S>, t: Taker, l: S, before: Side, attempts: seq<Attempt>): Report {
    if attempts == [] then Report(t.quantity, false, [], [])
    else
      var n := |attempts| - 1;
      var r, a := ReportAfter(settle, t, l, before, attempts[..n]), attempts[n];
      Advanced(r, Has(before, r.fills, a.id), a, settle(SettleAll(settle, l, attempts[..n]), a).1)
  }

  /** The attempt is for all that taker and maker both still have, with the maker as it rests in the book. */
  predicate Asks(t: Taker, before: Side, r: Report, a: Attempt) {
    && !r.rejected
    && a.buys == t.buys && a.taker == t.issuer
    && a.id in before && a.maker == before[a.id].issuer && a.price == before[a.id].price
    && 0 < a.max == Min(r.left, Has(before, r.fills, a.id))
  }

  /** Every attempt asks for all there is, and none breaks. */
  ghost predicate Played<S(!new)>(settle: Settler<S>, t: Taker, l: S, before: Side, attempts: seq<Attempt>) {
    attempts != [] ==>
      var n := |attempts| - 1;
      && Played(settle, t, l, before, attempts[..n])
      && Asks(t, before, ReportAfter(settle, t, l, before, attempts[..n]), attempts[n])
      && !settle(SettleAll(settle, l, attempts[..n]), attempts[n]).1.Broken?
  }

  /** The last attempt, and only that, breaks. */
  ghost predicate Breaks<S(!new)>(settle: Settler<S>, t: Taker, l: S, before: Side, attempts: seq<Attempt>) {
    && attempts != []
    && var n := |attempts| - 1;
      && Played(settle, t, l, before, attempts[..n])
      && Asks(t, before, ReportAfter(settle, t, l, before, attempts[..n]), attempts[n])
      && settle(SettleAll(settle, l, attempts[..n]), attempts[n]).1.Broken?
  }

  /** The report is what the attempts lead to; there is none exactly when the last attempt breaks. */
  ghost predicate Reported<S(!new)>(settle: Settler<S>, t: Taker, l: S, before: Side, attempts: seq<Attempt>,
                                    r: Option<Report>) {
    match r
    case None => Breaks(settle, t, l, before, attempts)
    case Some(report) =>
      Played(settle, t, l, before, attempts) && report == ReportAfter(settle, t, l, before, attempts)
  }

  lemma {:induction false} PlayNext<S(!new)>(settle: Settler<S>, t: Taker, l: S, before: Side, attempts: seq<Attempt>,
                                             a: Attempt)
    requires Played(settle, t, l, before, attempts)
    requires Asks(t, before, ReportAfter(settle, t, l, before, attempts), a)
    ensures var o := settle(SettleAll(settle, l, attempts), a).1;
      var r := ReportAfter(settle, t, l, before, attempts);
      if o.Broken? then Breaks(settle, t, l, before, attempts + [a])
      else
        && Played(settle, t, l, before, attempts + [a])
        && ReportAfter(settle, t, l, before, attempts + [a]) == Advanced(r, Has(before, r.fills, a.id), a, o)
  {
    assert (attempts + [a])[..|attempts|] == attempts;
  }

  lemma {:induction false} PlayedLast<S(!new)>(settle: Settler<S>, t: Taker, l: S, before: Side, attempts: seq<Attempt>)
    requires Played(settle, t, l, before, attempts) && attempts != []
    ensures var n := |attempts| - 1;
      var r, a := ReportAfter(settle, t, l, before, attempts[..n]), attempts[n];
      var o := settle(SettleAll(settle, l, attempts[..n]), a).1;
      && Played(settle, t, l, before, attempts[..n]) && Asks(t, before, r, a) && !o.Broken?
      && ReportAfter(settle, t, l, before, attempts) == Advanced(r, Has(before, r.fills, a.id), a, o)
  {
  }

  /** `mid` is what is left of `before` after the fills. */
  ghost predicate Remains(before: Side, fills: seq<Fill>, mid: Side) {
    forall id :: id in mid ==>
      && id in before && mid[id].price == before[id].price && mid[id].issuer == before[id].issuer
      && before[id].amount == mid[id].amount + FilledOf(fills, id)
  }

  lemma {:induction false} SideRemains(before: Side, mid: Side, fills: seq<Fill>, cancels: seq<Cancel>)
    requires Accounted(before, mid, fills, cancels)
    ensures Remains(before, fills, mid)
  {
    forall id | id in mid
      ensures id in before && mid[id].price == before[id].price && mid[id].issuer == before[id].issuer
      ensures before[id].amount == mid[id].amount + FilledOf(fills, id)
    {
      hide Accounted;
      LeftInBook(before, mid, fills, cancels, id);
    }
  }

  lemma {:induction false} AsksFromStart(t: Taker, before: Side, r: Report, mid: Side, next: Report, a: Attempt)
    requires Remains(before, r.fills, mid) && Asks(t.(quantity := r.left), mid, next, a)
    ensures Has(before, Joined(r, next).fills, a.id) == Has(mid, next.fills, a.id)
    ensures Asks(t, before, Joined(r, next), a)
  {
    FilledConcat(r.fills, next.fills, a.id);
  }

  lemma {:induction false} AdvanceFromStart(r: Report, next: Report, has: nat, a: Attempt, o: Outcome)
    ensures Advanced(Joined(r, next), has, a, o) == Joined(r, Advanced(next, has, a, o))
  {
    var n := if o.Settled? then o.quantity else 0;
    var f := if n > 0 then [Fill(a.id, a.price, n)] else [];
    var c := if RejectsMaker(o, a.max, next.left, has) then [Cancel(a.id, Less(has, n))] else [];
    assert (r.fills + next.fills) + f == r.fills + (next.fills + f);
    assert (r.cancels + next.cancels) + c == r.cancels + (next.cancels + c);
  }

  /** Attempts on what a first sequence of attempts left continue that sequence. */
  lemma {:induction false} PlayOn<S(!new)>(settle: Settler<S>, t: Taker, l: S, before: Side, xs: seq<Attempt>,
                                           mid: Side, ys: seq<Attempt>)
    requires Played(settle, t, l, before, xs)
    requires var r := ReportAfter(settle, t, l, before, xs);
      && !r.rejected && Remains(before, r.fills, mid)
      && Played(settle, t.(quantity := r.left), SettleAll(settle, l, xs), mid, ys)
    ensures var r := ReportAfter(settle, t, l, before, xs);
      && Played(settle, t, l, before, xs + ys)
      && ReportAfter(settle, t, l, before, xs + ys)
      == Joined(r, ReportAfter(settle, t.(quantity := r.left), SettleAll(settle, l, xs), mid, ys))
    decreases |ys|
  {
    hide Remains, Advanced, Has, Asks, Played, Breaks, SettleAll, ReportAfter;
    var r, m := ReportAfter(settle, t, l, before, xs), SettleAll(settle, l, xs);
    var u := t.(quantity := r.left);
    if ys == [] {
      assert xs + ys == xs;
      PlayedNone(settle, u, m, mid);
      assert Joined(r, Report(r.left, false, [], [])) == r;
    } else {
      var n := |ys| - 1;
      var a := ys[n];
      PlayedLast(settle, u, m, mid, ys);
      PlayOn(settle, t, l, before, xs, mid, ys[..n]);
      SettleConcat(settle, l, xs, ys[..n]);
      var next := ReportAfter(settle, u, m, mid, ys[..n]);
      AsksFromStart(t, before, r, mid, next, a);
      AdvanceFromStart(r, next, Has(mid, next.fills, a.id), a, settle(SettleAll(settle, m, ys[..n]), a).1);
      PlayNext(settle, t, l, before, xs + ys[..n], a);
      assert (xs + ys[..n]) + [a] == xs + ys;
    }
  }

  lemma {:induction false} BreakOn<S(!new)>(settle: Settler<S>, t: Taker, l: S, before: Side, xs: seq<Attempt>,
                                            mid: Side, ys: seq<Attempt>)
    requires Played(settle, t, l, before, xs)
    requires var r := ReportAfter(settle, t, l, before, xs);
      && !r.rejected && Remains(before, r.fills, mid)
      && Breaks(settle, t.(quantity := r.left), SettleAll(settle, l, xs), mid, ys)
    ensures Breaks(settle, t, l, before, xs + ys)
  {
    hide Remains, Advanced, Has, Asks, Played, ReportAfter, SettleAll;
    var r, m, n := ReportAfter(settle, t, l, before, xs), SettleAll(settle, l, xs), |ys| - 1;
    PlayOn(settle, t, l, before, xs, mid, ys[..n]);
    SettleConcat(settle, l, xs, ys[..n]);
    AsksFromStart(t, before, r, mid, ReportAfter(settle, t.(quantity := r.left), m, mid, ys[..n]), ys[n]);
    PlayNext(settle, t, l, before, xs + ys[..n], ys[n]);
    assert (xs + ys[..n]) + [ys[n]] == xs + ys;
  }

  // A taker and makers that can always pay

  ghost predicate AlwaysPays<S(!new)>(settle: Settler<S>) {
    forall l: S, a: Attempt :: settle(l, a).1 == Settled(a.max, false)
  }

  lemma {:induction false} FilledOfMaker(fills: seq<Fill>, id: Id)
    ensures (forall f :: f in fills ==> f.maker != id) ==> FilledOf(fills, id) == 0
    ensures forall f :: f in fills && f.maker == id ==> f.quantity <= FilledOf(fills, id)
  {
    if fills != [] {
      var n := |fills| - 1;
      FilledOfMaker(fills[..n], id);
      assert fills == fills[..n] + [fills[n]];
    }
  }

  /** Each fill is for the smaller of what the taker has left and what the maker has, and each maker is filled once. */
  ghost predicate Greedy(q: nat, before: Side, fills: seq<Fill>) {
    && (forall i, j :: 0 <= i < j < |fills| ==> fills[i].maker != fills[j].maker)
    && (forall i :: 0 <= i < |fills| ==> TakesMost(q, before, fills[..i], fills[i]))
  }

  /** After `done`, the fill takes all that taker and maker both have. */
  predicate TakesMost(q: nat, before: Side, done: seq<Fill>, f: Fill) {
    Filled(done) < q && f.quantity == Min(q - Filled(done), Amount(before, f.maker))
  }

  lemma {:induction false} GreedyNext(q: nat, before: Side, fills: seq<Fill>, f: Fill)
    requires Greedy(q, before, fills) && TakesMost(q, before, fills, f)
    requires forall g :: g in fills ==> g.maker != f.maker
    ensures Greedy(q, before, fills + [f])
  {
    hide TakesMost;
    var more := fills + [f];
    forall i | 0 <= i < |more| ensures TakesMost(q, before, more[..i], more[i]) {
      if i < |fills| { assert more[..i] == fills[..i]; } else { assert more[..i] == fills; }
    }
    forall i, j | 0 <= i < j < |more| ensures more[i].maker != more[j].maker {
      if j == |fills| { assert fills[i] in fills; }
    }
  }

  /** Nobody is rejected, the fills are greedy, and a maker is left with something only when the taker has nothing. */
  ghost predicate InFull(q: nat, before: Side, r: Report) {
    && !r.rejected && r.cancels == []
    && Filled(r.fills) + r.left == q && Greedy(q, before, r.fills)
    && (r.left > 0 ==> forall f :: f in r.fills ==> f.quantity == Amount(before, f.maker))
  }

  lemma NothingYet(q: nat, before: Side)
    ensures InFull(q, before, Report(q, false, [], []))
  {
  }

  /** A maker filled before has nothing left, so it is not asked again. */
  lemma {:induction false} AskedOnce(t: Taker, before: Side, r: Report, a: Attempt)
    requires InFull(t.quantity, before, r) && Asks(t, before, r, a)
    ensures Has(before, r.fills, a.id) == Amount(before, a.id) && forall f :: f in r.fills ==> f.maker != a.id
  {
    hide Greedy, Filled;
    FilledOfMaker(r.fills, a.id);
    forall f | f in r.fills ensures f.maker != a.id {
      assert f.quantity == Amount(before, f.maker);
    }
  }

  lemma {:induction false} FullNext(t: Taker, before: Side, r: Report, a: Attempt)
    requires InFull(t.quantity, before, r) && Asks(t, before, r, a)
    ensures InFull(t.quantity, before, Advanced(r, Has(before, r.fills, a.id), a, Settled(a.max, false)))
    ensures |Advanced(r, Has(before, r.fills, a.id), a, Settled(a.max, false)).fills| == |r.fills| + 1
  {
    hide Greedy, Filled, FilledOf;
    AskedOnce(t, before, r, a);
    var f := Fill(a.id, a.price, a.max);
    GreedyNext(t.quantity, before, r.fills, f);
    FilledAppend(r.fills, f);
  }

  /** With a taker and makers that can always pay, every attempt fills and the report is full. */
  lemma {:induction false} PaidInFull<S(!new)>(settle: Settler<S>, t: Taker, l: S, before: Side, attempts: seq<Attempt>)
    requires AlwaysPays(settle) && Played(settle, t, l, before, attempts)
    ensures InFull(t.quantity, before, ReportAfter(settle, t, l, before, attempts))
    ensures |ReportAfter(settle, t, l, before, attempts).fills| == |attempts|
  {
    hide InFull, Advanced, Asks, Has;
    if attempts == [] {
      NothingYet(t.quantity, before);
    } else {
      var n := |attempts| - 1;
      var r := ReportAfter(settle, t, l, before, attempts[..n]);
      PaidInFull(settle, t, l, before, attempts[..n]);
      assert settle(SettleAll(settle, l, attempts[..n]), attempts[n]).1 == Settled(attempts[n].max, false);
      FullNext(t, before, r, attempts[n]);
    }
  }

  // One price level

  ghost predicate Level(buys: bool, price: nat, q: nat, before: Side, side: Side, r: Report) {
    && Live(side) && Accounted(before, side, r.fills, r.cancels) && Spent(q, r)
    && (forall f :: f in r.fills ==> f.price == price)
    && (forall id :: id in side ==> Good(buys, price, side[id].price))
    && InTurn(price, r.fills, side)
  }

  /** At one price older orders are filled first. */
  ghost predicate InTurn(price: nat, fills: seq<Fill>, side: Side) {
    && (forall i, j :: 0 <= i < j < |fills| ==> fills[i].maker <= fills[j].maker)
    && (forall i, id :: 0 <= i < |fills| && id in side && side[id].price == price ==> fills[i].maker <= id)
  }

  lemma {:induction false} InTurnFill(price: nat, fills: seq<Fill>, side: Side, id: Id, n: nat)
    requires InTurn(price, fills, side) && Oldest(side, price, id) && n <= side[id].amount
    ensures InTurn(price, fills + [Fill(id, price, n)], Reduced(side, id, n))
  {
    var more := fills + [Fill(id, price, n)];
    forall i, j | 0 <= i < j < |more| ensures more[i].maker <= more[j].maker {
      if j == |fills| { assert fills[i].maker <= id; }
    }
  }

  lemma {:induction false} LevelLive(buys: bool, price: nat, q: nat, before: Side, side: Side, r: Report, id: Id)
    requires Level(buys, price, q, before, side, r) && id in side
    ensures side[id].price > 0 && side[id].amount > 0
  {
  }

  lemma {:induction false} LevelStarts(buys: bool, price: nat, q: nat, side: Side)
    requires Live(side) && forall id :: id in side ==> Good(buys, price, side[id].price)
    ensures Level(buys, price, q, side, side, Report(q, false, [], []))
  {
  }

  lemma {:induction false} LevelFill(buys: bool, price: nat, q: nat, before: Side, side: Side, r: Report, id: Id,
                                     n: nat)
    requires Level(buys, price, q, before, side, r) && !r.rejected
    requires Oldest(side, price, id) && 0 < n <= side[id].amount && n <= r.left
    ensures var r' := r.(left := r.left - n, fills := r.fills + [Fill(id, price, n)]);
      Level(buys, price, q, before, Reduced(side, id, n), r')
    ensures |Reduced(side, id, n)| <= |side|
  {
    hide Accounted, Good, Live, Filled, InTurn;
    AccountedFill(before, side, r.fills, r.cancels, id, n);
    InTurnFill(price, r.fills, side, id, n);
    FilledAppend(r.fills, Fill(id, price, n));
    ReducedSize(side, id, n);
  }

  lemma {:induction false} ReducedSize(side: Side, id: Id, n: nat)
    requires id in side && n <= side[id].amount
    ensures |Reduced(side, id, n)| <= |side| && |side - {id}| < |side|
  {
    assert (side - {id}).Keys == side.Keys - {id};
    if n < side[id].amount {
      assert Reduced(side, id, n).Keys == side.Keys;
    }
  }

  lemma {:induction false} LevelCancel(buys: bool, price: nat, q: nat, before: Side, side: Side, r: Report, id: Id)
    requires Level(buys, price, q, before, side, r) && id in side
    ensures Level(buys, price, q, before, side - {id}, r.(cancels := r.cancels + [Cancel(id, side[id].amount)]))
    ensures |side - {id}| < |side| && side[id].amount > 0
  {
    hide Accounted, Good, Filled;
    AccountedCancel(before, side, r.fills, r.cancels, id);
    ReducedSize(side, id, 0);
  }

  lemma {:induction false} LevelReject(buys: bool, price: nat, q: nat, before: Side, side: Side, r: Report)
    requires Level(buys, price, q, before, side, r) && !r.rejected && r.left > 0
    ensures Level(buys, price, q, before, side, r.(left := 0, rejected := true))
  {
  }

  // Several levels

  lemma {:induction false} FilledConcat(f: seq<Fill>, g: seq<Fill>, id: Id)
    ensures Filled(f + g) == Filled(f) + Filled(g) && FilledOf(f + g, id) == FilledOf(f, id) + FilledOf(g, id)
    decreases |g|
  {
    if g == [] {
      assert f + g == f;
    } else {
      FilledConcat(f, g[..|g| - 1], id);
      assert (f + g)[..|f + g| - 1] == f + g[..|g| - 1];
    }
  }

  lemma {:induction false} CancelledConcat(c: seq<Cancel>, d: seq<Cancel>, id: Id)
    ensures CancelledOf(c + d, id) == CancelledOf(c, id) + CancelledOf(d, id)
    decreases |d|
  {
    if d == [] {
      assert c + d == c;
    } else {
      CancelledConcat(c, d[..|d| - 1], id);
      assert (c + d)[..|c + d| - 1] == c + d[..|d| - 1];
    }
  }

  lemma {:induction false} AccountedConcat(a: Side, b: Side, c: Side, f: seq<Fill>, g: seq<Fill>, x: seq<Cancel>,
                                           y: seq<Cancel>)
    requires Accounted(a, b, f, x) && Accounted(b, c, g, y)
    ensures Accounted(a, c, f + g, x + y)
  {
    hide FilledOf, CancelledOf;
    forall id ensures Amount(a, id) == Amount(c, id) + FilledOf(f + g, id) + CancelledOf(x + y, id) {
      FilledConcat(f, g, id);
      CancelledConcat(x, y, id);
    }
  }

  /** What holds of a taker between two levels. */
  ghost predicate Sweeping(buys: bool, q: nat, before: Side, side: Side, r: Report) {
    && Live(side) && Accounted(before, side, r.fills, r.cancels) && Spent(q, r) && Worsening(buys, r.fills, side)
  }

  function Joined(r: Report, next: Report): Report {
    Report(next.left, next.rejected, r.fills + next.fills, r.cancels + next.cancels)
  }

  lemma {:induction false} WorseningLevel(buys: bool, price: nat, fills: seq<Fill>, more: seq<Fill>, mid: Side,
                                          after: Side)
    requires Worsening(buys, fills, mid) && InTurn(price, more, after)
    requires forall f :: f in more ==> f.price == price && f.maker in mid && mid[f.maker].price == price
    requires forall id ::
      id in after ==> id in mid && after[id].price == mid[id].price && Good(buys, price, after[id].price)
    ensures Worsening(buys, fills + more, after)
  {
    var all := fills + more;
    forall i, j | 0 <= i < j < |all| ensures Ahead(buys, all[i].price, all[i].maker, all[j].price, all[j].maker) {
      if j >= |fills| {
        var f := more[j - |fills|];
        assert f in more;
        if i < |fills| {
          assert Ahead(buys, fills[i].price, fills[i].maker, mid[f.maker].price, f.maker);
        } else {
          assert more[i - |fills|] in more && more[i - |fills|].maker <= f.maker;
        }
      }
    }
    forall i, id | 0 <= i < |all| && id in after ensures Ahead(buys, all[i].price, all[i].maker, after[id].price, id) {
      if i < |fills| {
        assert Ahead(buys, fills[i].price, fills[i].maker, mid[id].price, id);
      } else {
        assert more[i - |fills|] in more;
      }
    }
  }

  lemma {:induction false} SweepLevel(buys: bool, price: nat, q: nat, before: Side, mid: Side, after: Side, r: Report,
                                      next: Report)
    requires Sweeping(buys, q, before, mid, r) && !r.rejected && r.left > 0
    requires Level(buys, price, r.left, mid, after, next)
    ensures Sweeping(buys, q, before, after, Joined(r, next))
  {
    hide Good, Live, Filled, Worsening, InTurn;
    AccountedConcat(before, mid, after, r.fills, next.fills, r.cancels, next.cancels);
    WorseningLevel(buys, price, r.fills, next.fills, mid, after);
    FilledConcat(r.fills, next.fills, 0);
  }

  // The book

  predicate Reaches(buys: bool, limit: Option<nat>, p: nat) {
    limit.Some? ==> Good(buys, p, limit.value)
  }

  /** Fills respect the limit. */
  ghost predicate Within(buys: bool, limit: Option<nat>, fills: seq<Fill>) {
    forall f :: f in fills ==> Reaches(buys, limit, f.price)
  }

  predicate Beyond(buys: bool, limit: Option<nat>, p: nat) {
    !Reaches(buys, limit, p)
  }

  lemma {:induction false} WithinJoined(buys: bool, limit: Option<nat>, price: nat, fills: seq<Fill>, more: seq<Fill>)
    requires Within(buys, limit, fills) && Reaches(buys, limit, price) && forall f :: f in more ==> f.price == price
    ensures Within(buys, limit, fills + more)
  {
  }

  lemma {:induction false} AllBeyond(side: Side, buys: bool, limit: Option<nat>, best: nat)
    requires BestPrice(side, buys, best) && !Reaches(buys, limit, best)
    ensures forall id :: id in side ==> Beyond(buys, limit, side[id].price)
  {
  }

  /** Sides by role: the taker's own side and the one it trades with. */
  ghost predicate Apart(buys: bool, own: Side, opp: Side) {
    if buys then Uncrossed(own, opp) else Uncrossed(opp, own)
  }

  ghost predicate BookOk(buys: bool, own: Side, opp: Side, nonce: nat) {
    && Live(own) && Live(opp) && Numbered(own, nonce) && Numbered(opp, nonce)
    && own.Keys !! opp.Keys && Apart(buys, own, opp)
  }

  lemma {:induction false} BookAfterSweep(buys: bool, own: Side, opp: Side, after: Side, nonce: nat, q: nat, r: Report)
    requires BookOk(buys, own, opp, nonce) && Sweeping(buys, q, opp, after, r)
    ensures BookOk(buys, own, after, nonce)
  {
    assert forall id :: id in after ==> id in opp && after[id].price == opp[id].price;
  }

  lemma {:induction false} RestingFits(buys: bool, own: Side, opp: Side, nonce: nat, limit: nat, left: nat, who: Issuer)
    requires BookOk(buys, own, opp, nonce) && limit > 0 && left > 0
    requires forall id :: id in opp ==> Beyond(buys, Some(limit), opp[id].price)
    ensures BookOk(buys, own[nonce + 1 := Resting(limit, left, who)], opp, nonce + 1)
  {
  }

  /** What a limit order promises: makers and taker are accounted for, fills keep within the limit and never
      improve. */
  ghost predicate LimitDone(buys: bool, limit: nat, q: nat, before: Side, after: Side, r: Report) {
    Sweeping(buys, q, before, after, r) && Within(buys, Some(limit), r.fills)
  }

  ghost predicate Uncrossed(bids: Side, asks: Side) {
    forall b, a :: b in bids && a in asks ==> bids[b].price < asks[a].price
  }

  ghost predicate Numbered(side: Side, nonce: nat) {
    forall id :: id in side ==> id <= nonce
  }

  datatype Request =
    | Limit(buys: bool, price: nat, quantity: nat, issuer: Issuer)
    | Market(buys: bool, quantity: nat, issuer: Issuer)
    | Withdraw(id: Id, issuer: Issuer)

  /** An order to match has a quantity and, with a limit, a price, and both fit a word. */
  predicate Acceptable(order: Request) {
    && !order.Withdraw?
    && 0 < order.quantity < Ledger.WORD
    && (order.Limit? ==> 0 < order.price < Ledger.WORD)
  }

  function TakerOf(order: Request): Taker
    requires !order.Withdraw?
  {
    Taker(order.buys, order.issuer, order.quantity)
  }

  /** What is left of a limit order rests in the book. */
  function Rested(side: Side, id: Id, rest: Resting): Side {
    if rest.amount > 0 then side[id := rest] else side
  }

  /** A cancellation counts only when user, hash and relayer are those of the order. */
  function Withdrawn(side: Side, id: Id, who: Issuer): Side {
    if id in side && side[id].issuer == who then side - {id} else side
  }

  class Book<S(!new)> {
    var bids: Side
    var asks: Side
    var nonce: nat
    var ledger: S

    ghost predicate Valid()
      reads this
    {
      BookOk(true, bids, asks, nonce)
    }

    constructor (l: S)
      ensures Valid() && bids == map[] && asks == map[] && ledger == l
    {
      bids, asks, nonce, ledger := map[], map[], 0, l;
    }

    /** The side a taker trades with. */
    function Opposite(buys: bool): Side
      reads this`bids, this`asks
    {
      if buys then asks else bids
    }

    method SetOpposite(buys: bool, side: Side)
      modifies this`bids, this`asks
      ensures Opposite(buys) == side && Opposite(!buys) == old(Opposite(!buys))
    {
      if buys { asks := side; } else { bids := side; }
    }

    /** The best price of the opposite side, 0 if it is empty. */
    method BestOffer(buys: bool) returns (p: nat)
      requires Live(Opposite(buys))
      ensures if p == 0 then Opposite(buys) == map[] else BestPrice(Opposite(buys), buys, p)
    {
      hide BestPrice;
      if Opposite(buys) == map[] {
        return 0;
      }
      p := BestIn(Opposite(buys), buys);
    }

    static method BestIn(side: Side, buys: bool) returns (p: nat)
      requires Live(side) && side != map[]
      ensures p > 0 && BestPrice(side, buys, p)
    {
      BestExists(side, buys);
      hide Good;
      var id :| id in side && forall j :: j in side ==> Good(buys, side[id].price, side[j].price);
      p := side[id].price;
    }

    /** The oldest order at a price. */
    method OldestOrder(buys: bool, price: nat) returns (id: Option<Id>)
      ensures id.None? ==> forall j :: j in Opposite(buys) ==> Opposite(buys)[j].price != price
      ensures id.Some? ==> Oldest(Opposite(buys), price, id.value)
    {
      var side := Opposite(buys);
      if j :| j in side && side[j].price == price {
        OldestExists(side, price, j);
        var first :| Oldest(side, price, first);
        return Some(first);
      }
      id := None;
    }

    /** The maker as it rests, before the attempt is written down. */
    ghost predicate Facing(a: Attempt, r: Report, q: nat, before: Side)
      reads this`bids, this`asks
    {
      && Level(a.buys, a.price, q, before, Opposite(a.buys), r) && !r.rejected && r.left > 0
      && Oldest(Opposite(a.buys), a.price, a.id) && 0 < a.max == Min(r.left, Opposite(a.buys)[a.id].amount)
    }

    /** A match that is too small to settle rejects the taker, the maker or both. */
    method Reject(a: Attempt, r: Report, traded: nat, rejectMaker: bool, ghost q: nat, ghost before: Side)
      returns (next: Report, done: bool)
      requires Facing(a, r, q, before) && Sound(TooSmall(traded, rejectMaker), a.max)
      modifies this`bids, this`asks
      ensures Opposite(!a.buys) == old(Opposite(!a.buys))
      ensures Level(a.buys, a.price, q, before, Opposite(a.buys), next) && (next.rejected <==> done)
      ensures next == Advanced(r, old(Opposite(a.buys))[a.id].amount, a, TooSmall(traded, rejectMaker))
      ensures next.left + |Opposite(a.buys)| < r.left + |old(Opposite(a.buys))|
    {
      hide Level, Live, Accounted;
      var side := Opposite(a.buys);
      LevelLive(a.buys, a.price, q, before, side, r, a.id);
      LevelCancel(a.buys, a.price, q, before, side, r, a.id);
      LevelReject(a.buys, a.price, q, before, side, r);
      var amount := side[a.id].amount;
      var cancelled := r.(cancels := r.cancels + [Cancel(a.id, amount)]);
      if traded == a.max && r.left == amount {
        LevelReject(a.buys, a.price, q, before, side - {a.id}, cancelled);
        SetOpposite(a.buys, side - {a.id});
        return cancelled.(left := 0, rejected := true), true;
      } else if (traded == a.max && r.left > amount) || (traded != a.max && rejectMaker) {
        SetOpposite(a.buys, side - {a.id});
        return cancelled, false;
      } else {
        return r.(left := 0, rejected := true), true;
      }
    }

    /** A match that settles fills both orders and rejects whoever cannot pay. */
    method Trade(a: Attempt, r: Report, traded: nat, rejectMaker: bool, ghost q: nat, ghost before: Side)
      returns (next: Report, done: bool)
      requires Facing(a, r, q, before) && Sound(Settled(traded, rejectMaker), a.max)
      modifies this`bids, this`asks
      ensures Opposite(!a.buys) == old(Opposite(!a.buys))
      ensures Level(a.buys, a.price, q, before, Opposite(a.buys), next) && (next.rejected <==> done)
      ensures next == Advanced(r, old(Opposite(a.buys))[a.id].amount, a, Settled(traded, rejectMaker))
      ensures next.left + |Opposite(a.buys)| < r.left + |old(Opposite(a.buys))|
    {
      hide Level, Live, Accounted;
      var side := Opposite(a.buys);
      var amount := side[a.id].amount;
      if traded == 0 && !rejectMaker {
        LevelReject(a.buys, a.price, q, before, side, r);
        return r.(left := 0, rejected := true), true;
      }
      next := r;
      if traded > 0 {
        LevelFill(a.buys, a.price, q, before, side, r, a.id, traded);
        next := r.(left := r.left - traded, fills := r.fills + [Fill(a.id, a.price, traded)]);
        SetOpposite(a.buys, Reduced(side, a.id, traded));
      }
      if rejectMaker {
        LevelCancel(a.buys, a.price, q, before, Opposite(a.buys), next, a.id);
        next := next.(cancels := next.cancels + [Cancel(a.id, amount - traded)]);
        SetOpposite(a.buys, Opposite(a.buys) - {a.id});
      }
      done := false;
    }

    /** Settles the taker with one maker. `done` ends the price level; an error is returned as None. */
    method MatchOne(buys: bool, who: Issuer, id: Id, r: Report, settle: Settler<S>, price: nat, ghost q: nat,
                    ghost before: Side) returns (next: Option<Report>, done: bool, ghost a: Attempt)
      requires Reliable(settle) && Level(buys, price, q, before, Opposite(buys), r) && !r.rejected && r.left > 0
      requires Oldest(Opposite(buys), price, id)
      modifies this`bids, this`asks, this`ledger
      ensures Opposite(!buys) == old(Opposite(!buys))
      ensures a.buys == buys && a.taker == who && a.maker == old(Opposite(buys))[id].issuer && a.price == price
      ensures a.id == id && a.max == Min(r.left, old(Opposite(buys))[id].amount)
      ensures ledger == settle(old(ledger), a).0
      ensures next.None? <==> settle(old(ledger), a).1.Broken?
      ensures next.Some? ==> next.value == Advanced(r, old(Opposite(buys))[id].amount, a, settle(old(ledger), a).1)
      ensures next.Some? ==>
        && Level(buys, price, q, before, Opposite(buys), next.value)
        && next.value.left + |Opposite(buys)| < r.left + |old(Opposite(buys))|
        && (next.value.rejected <==> done)
    {
      hide Level, Live, Accounted, Reliable, Sound, Advanced;
      var side := Opposite(buys);
      LevelLive(buys, price, q, before, side, r, id);
      var amount := side[id].amount;
      var max := if r.left <= amount then r.left else amount;
      var attempt := Attempt(buys, who, id, side[id].issuer, price, max);
      a := attempt;
      var settled := settle(ledger, attempt);
      SettlesSoundly(settle, ledger, attempt);
      ledger := settled.0;
      match settled.1 {
        case Broken => return None, true, attempt;
        case TooSmall(traded, rejectMaker) =>
          var report;
          report, done := Reject(attempt, r, traded, rejectMaker, q, before);
          return Some(report), done, attempt;
        case Settled(traded, rejectMaker) =>
          var report;
          report, done := Trade(attempt, r, traded, rejectMaker, q, before);
          return Some(report), done, attempt;
      }
    }

    /** Matches the taker with the orders at one price, oldest first. */
    method ProcessOrderList(buys: bool, who: Issuer, price: nat, q: nat, settle: Settler<S>, ghost known: set<Issuer>)
      returns (r: Option<Report>, ghost attempts: seq<Attempt>)
      requires Reliable(settle) && q > 0 && Live(Opposite(buys)) && BestPrice(Opposite(buys), buys, price)
      requires Known(known, Opposite(buys))
      modifies this`bids, this`asks, this`ledger
      ensures Opposite(!buys) == old(Opposite(!buys))
      ensures r.Some? ==>
        && Level(buys, price, q, old(Opposite(buys)), Opposite(buys), r.value)
        && (r.value.left > 0 ==> forall id :: id in Opposite(buys) ==> Opposite(buys)[id].price != price)
        && r.value.left + |Opposite(buys)| < q + |old(Opposite(buys))|
        && Traced(settle, who, known, old(ledger), ledger, attempts, r.value.fills)
      ensures Reported(settle, Taker(buys, who, q), old(ledger), old(Opposite(buys)), attempts, r)
    {
      hide Live, Accounted, Good, Reliable, Traced, Known, Played, Breaks, ReportAfter, Asks, Advanced;
      ghost var before, t := Opposite(buys), Taker(buys, who, q);
      var report := Report(q, false, [], []);
      attempts := [];
      TracedNone(settle, who, known, ledger);
      PlayedNone(settle, t, ledger, before);
      LevelStarts(buys, price, q, before);
      while report.left > 0
        invariant Level(buys, price, q, before, Opposite(buys), report)
        invariant Opposite(!buys) == old(Opposite(!buys)) && !report.rejected
        invariant report.left == q ==> Opposite(buys) == before || |Opposite(buys)| < |before|
        invariant report.left != q ==> report.left + |Opposite(buys)| < q + |before|
        invariant Traced(settle, who, known, old(ledger), ledger, attempts, report.fills)
        invariant Played(settle, t, old(ledger), before, attempts)
        invariant report == ReportAfter(settle, t, old(ledger), before, attempts)
        decreases report.left + |Opposite(buys)|
      {
        var id := OldestOrder(buys, price);
        if id.None? {
          break;
        }
        ghost var l, fills, side := ledger, report.fills, Opposite(buys);
        ghost var a;
        var next, done;
        next, done, a := MatchOne(buys, who, id.value, report, settle, price, q, before);
        TracedLedger(settle, who, known, old(ledger), l, attempts, fills);
        AsksInLevel(t, price, before, side, report, a);
        PlayNext(settle, t, old(ledger), before, attempts, a);
        if next.None? {
          return None, attempts + [a];
        }
        StillKnown(known, before, side, fills, report.cancels);
        AdvancedFills(report, side[id.value].amount, a, settle(l, a).1);
        TracedNext(settle, who, known, old(ledger), l, attempts, a, fills, next.value.fills) by {
          KnownOne(known, side, id.value);
        }
        attempts := attempts + [a];
        report := next.value;
        if done {
          break;
        }
      }
      r := Some(report);
    }

    /** Matches the taker level by level as long as its limit allows; without a limit a market order. */
    method Sweep(buys: bool, who: Issuer, limit: Option<nat>, q: nat, settle: Settler<S>, ghost known: set<Issuer>)
      returns (r: Option<Report>, ghost attempts: seq<Attempt>)
      requires Reliable(settle) && Live(Opposite(buys)) && Known(known, Opposite(buys))
      modifies this`bids, this`asks, this`ledger
      ensures Opposite(!buys) == old(Opposite(!buys))
      ensures r.Some? ==> Sweeping(buys, q, old(Opposite(buys)), Opposite(buys), r.value)
      ensures r.Some? ==> Within(buys, limit, r.value.fills)
      ensures r.Some? && r.value.left > 0 ==>
        forall id :: id in Opposite(buys) ==> Beyond(buys, limit, Opposite(buys)[id].price)
      ensures r.Some? ==> Traced(settle, who, known, old(ledger), ledger, attempts, r.value.fills)
      ensures Reported(settle, Taker(buys, who, q), old(ledger), old(Opposite(buys)), attempts, r)
    {
      hide Live, Good, Reliable, Traced, Played, Breaks, ReportAfter, Accounted, Filled, Remains;
      ghost var before, t := Opposite(buys), Taker(buys, who, q);
      var report := Report(q, false, [], []);
      attempts := [];
      TracedNone(settle, who, known, ledger);
      PlayedNone(settle, t, ledger, before);
      SweepStarts(buys, q, before);
      var best := BestOffer(buys);
      while report.left > 0 && best > 0 && Reaches(buys, limit, best)
        invariant Sweeping(buys, q, before, Opposite(buys), report) && Opposite(!buys) == old(Opposite(!buys))
        invariant Within(buys, limit, report.fills) && (report.rejected ==> report.left == 0)
        invariant if best == 0 then Opposite(buys) == map[] else BestPrice(Opposite(buys), buys, best)
        invariant Known(known, Opposite(buys))
        invariant Traced(settle, who, known, old(ledger), ledger, attempts, report.fills)
        invariant Played(settle, t, old(ledger), before, attempts)
        invariant report == ReportAfter(settle, t, old(ledger), before, attempts)
        decreases report.left + |Opposite(buys)|
      {
        ghost var mid, l, more := Opposite(buys), ledger, [];
        var next;
        next, more := ProcessOrderList(buys, who, best, report.left, settle, known);
        SideRemains(before, mid, report.fills, report.cancels);
        TracedLedger(settle, who, known, old(ledger), l, attempts, report.fills);
        if next.None? {
          BreakOn(settle, t, old(ledger), before, attempts, mid, more);
          return None, attempts + more;
        }
        PlayOn(settle, t, old(ledger), before, attempts, mid, more);
        SweepLevel(buys, best, q, before, mid, Opposite(buys), report, next.value);
        WithinJoined(buys, limit, best, report.fills, next.value.fills);
        StillKnown(known, mid, Opposite(buys), next.value.fills, next.value.cancels);
        TracedConcat(settle, who, known, old(ledger), l, ledger, attempts, more, report.fills, next.value.fills);
        attempts := attempts + more;
        report := Joined(report, next.value);
        best := BestOffer(buys);
      }
      if report.left > 0 && best > 0 { AllBeyond(Opposite(buys), buys, limit, best); }
      r := Some(report);
    }

    /** Matches a limit order and lets the rest of it rest in the book under the next number. */
    method ProcessLimitOrder(buys: bool, limit: nat, q: nat, who: Issuer, settle: Settler<S>, ghost known: set<Issuer>)
      returns (r: Option<Report>, ghost attempts: seq<Attempt>)
      requires Valid() && Reliable(settle) && limit > 0 && Known(known, Opposite(buys))
      modifies this
      ensures r.Some? ==> Valid() && LimitDone(buys, limit, q, old(Opposite(buys)), Opposite(buys), r.value)
      ensures r.Some? ==> nonce == old(nonce) + (if r.value.left > 0 then 1 else 0)
      ensures r.Some? ==>
        Opposite(!buys) == Rested(old(Opposite(!buys)), nonce, Resting(limit, r.value.left, who))
      ensures r.Some? ==> Traced(settle, who, known, old(ledger), ledger, attempts, r.value.fills)
      ensures Reported(settle, Taker(buys, who, q), old(ledger), old(Opposite(buys)), attempts, r)
    {
      hide Accounted, Good, Spent, Reliable, Worsening, Within, Filled, Traced, Known, Reported;
      ghost var own, opp := Opposite(!buys), Opposite(buys);
      r, attempts := Sweep(buys, who, Some(limit), q, settle, known);
      if r.None? {
        return;
      }
      BookAfterSweep(buys, own, opp, Opposite(buys), nonce, q, r.value);
      if r.value.left > 0 {
        RestingFits(buys, own, Opposite(buys), nonce, limit, r.value.left, who);
        nonce := nonce + 1;
        SetOpposite(!buys, Opposite(!buys)[nonce := Resting(limit, r.value.left, who)]);
      }
    }

    /** Matches a market order; what it does not fill is dropped. */
    method ProcessMarketOrder(buys: bool, q: nat, who: Issuer, settle: Settler<S>, ghost known: set<Issuer>)
      returns (r: Option<Report>, ghost attempts: seq<Attempt>)
      requires Valid() && Reliable(settle) && Known(known, Opposite(buys))
      modifies this`bids, this`asks, this`ledger
      ensures Opposite(!buys) == old(Opposite(!buys))
      ensures r.Some? ==> Valid() && Sweeping(buys, q, old(Opposite(buys)), Opposite(buys), r.value)
      ensures r.Some? && r.value.left > 0 ==> Opposite(buys) == map[]
      ensures r.Some? ==> Traced(settle, who, known, old(ledger), ledger, attempts, r.value.fills)
      ensures Reported(settle, Taker(buys, who, q), old(ledger), old(Opposite(buys)), attempts, r)
    {
      hide Accounted, Good, Spent, Reliable, Worsening, Within, Filled, Traced, Known, Reported;
      ghost var opp := Opposite(buys);
      r, attempts := Sweep(buys, who, None, q, settle, known);
      if r.Some? {
        BookAfterSweep(buys, Opposite(!buys), opp, Opposite(buys), nonce, q, r.value);
      }
    }

    /** Takes a resting order out of the book, for its issuer only. */
    method CancelOrder(id: Id, who: Issuer) returns (ok: bool)
      requires Valid()
      modifies this`bids, this`asks
      ensures Valid()
      ensures bids == Withdrawn(old(bids), id, who) && asks == Withdrawn(old(asks), id, who)
      ensures ok <==> bids != old(bids) || asks != old(asks)
    {
      if id in asks && asks[id].issuer == who {
        asks := asks - {id};
        return true;
      }
      if id in bids && bids[id].issuer == who {
        bids := bids - {id};
        return true;
      }
      ok := false;
    }

    /** Both sides and the order itself were issued by somebody known. */
    ghost predicate AllKnown(known: set<Issuer>)
      reads this`bids, this`asks
    {
      Known(known, bids) && Known(known, asks)
    }

    /** Processes one order. An order with an invalid price or quantity changes nothing, nor does one whose
        processing fails: book and ledger are put back as they were. */
    method ApplyOrder(order: Request, settle: Settler<S>, ghost known: set<Issuer>)
      returns (r: Option<Report>, ghost attempts: seq<Attempt>)
      requires Valid() && Reliable(settle) && AllKnown(known) && order.issuer in known
      modifies this
      ensures Valid() && AllKnown(known)
      ensures r.None? && !order.Withdraw? ==> bids == old(bids) && asks == old(asks) && nonce == old(nonce)
      ensures r.None? ==> ledger == old(ledger) && attempts == []
      ensures r.Some? ==> Traced(settle, order.issuer, known, old(ledger), ledger, attempts, r.value.fills)
      ensures r.Some? ==>
        Acceptable(order) && Reported(settle, TakerOf(order), old(ledger), old(Opposite(order.buys)), attempts, r)
      ensures r.None? && Acceptable(order) ==>
        exists failed :: Breaks(settle, TakerOf(order), old(ledger), old(Opposite(order.buys)), failed)
      ensures order.Withdraw? ==>
        && bids == Withdrawn(old(bids), order.id, order.issuer) && asks == Withdrawn(old(asks), order.id, order.issuer)
        && nonce == old(nonce) && r.None?
      ensures order.Limit? && r.Some? ==>
        && order.price > 0
        && LimitDone(order.buys, order.price, order.quantity, old(Opposite(order.buys)), Opposite(order.buys), r.value)
        && nonce == old(nonce) + (if r.value.left > 0 then 1 else 0)
        && (forall f :: f in r.value.fills ==> if order.buys then f.price <= order.price else f.price >= order.price)
        && Opposite(!order.buys)
        == Rested(old(Opposite(!order.buys)), nonce, Resting(order.price, r.value.left, order.issuer))
      ensures order.Market? && r.Some? ==>
        && Sweeping(order.buys, order.quantity, old(Opposite(order.buys)), Opposite(order.buys), r.value)
        && nonce == old(nonce) && Opposite(!order.buys) == old(Opposite(!order.buys))
        && (r.value.left > 0 ==> Opposite(order.buys) == map[])
    {
      hide BookOk, Sweeping, LimitDone, Reliable, Traced, Breaks, Played, ReportAfter;
      var bidsBefore, asksBefore, nonceBefore, ledgerBefore := bids, asks, nonce, ledger;
      attempts := [];
      match order {
        case Withdraw(id, who) =>
          var ok := CancelOrder(id, who);
          return None, attempts;
        case Limit(buys, price, quantity, who) =>
          if price == 0 || price >= Ledger.WORD || quantity == 0 || quantity >= Ledger.WORD {
            return None, attempts;
          }
          r, attempts := ProcessLimitOrder(buys, price, quantity, who, settle, known);
          if r.Some? {
            LimitKnown(known, old(Opposite(buys)), Opposite(buys), buys, price, quantity, r.value);
            LimitHolds(buys, price, quantity, old(Opposite(buys)), Opposite(buys), r.value);
          }
        case Market(buys, quantity, who) =>
          if quantity == 0 || quantity >= Ledger.WORD {
            return None, attempts;
          }
          r, attempts := ProcessMarketOrder(buys, quantity, who, settle, known);
          if r.Some? { SweptKnown(known, old(Opposite(buys)), Opposite(buys), buys, quantity, r.value); }
      }
      if r.None? {
        assert Breaks(settle, TakerOf(order), old(ledger), old(Opposite(order.buys)), attempts);
        bids, asks, nonce, ledger := bidsBefore, asksBefore, nonceBefore, ledgerBefore;
        attempts := [];
      }
    }

    /** In every run of orders the book stays uncrossed, and the ledger is what the attempts of known takers with known
        makers, one after another, make of it. */
    method ApplyAll(orders: seq<Request>, settle: Settler<S>, ghost known: set<Issuer>)
      returns (ghost attempts: seq<Attempt>)
      requires Valid() && Reliable(settle) && AllKnown(known) && forall o :: o in orders ==> o.issuer in known
      modifies this
      ensures Valid() && Uncrossed(bids, asks) && AllKnown(known)
      ensures ledger == SettleAll(settle, old(ledger), attempts)
      ensures forall a :: a in attempts ==> a.taker in known && a.maker in known
    {
      attempts := [];
      for i := 0 to |orders|
        invariant Valid() && AllKnown(known) && ledger == SettleAll(settle, old(ledger), attempts)
        invariant forall a :: a in attempts ==> a.taker in known && a.maker in known
      {
        ghost var more;
        var r;
        r, more := ApplyOrder(orders[i], settle, known);
        SettleConcat(settle, old(ledger), attempts, more);
        attempts := attempts + more;
      }
    }
  }

  /** `fills` grows by one fill for each settled quantity. */
  ghost predicate Appended(fills: seq<Fill>, more: seq<Fill>, settled: seq<nat>) {
    fills <= more && Quantities(more[|fills|..]) == settled
  }

  lemma {:induction false} PlayedNone<S(!new)>(settle: Settler<S>, t: Taker, l: S, before: Side)
    ensures Played(settle, t, l, before, [])
    ensures ReportAfter(settle, t, l, before, []) == Report(t.quantity, false, [], [])
  {
  }

  lemma {:induction false} SweepStarts(buys: bool, q: nat, side: Side)
    requires Live(side)
    ensures Sweeping(buys, q, side, side, Report(q, false, [], []))
  {
  }

  lemma {:induction false} TracedLedger<S(!new)>(settle: Settler<S>, who: Issuer, known: set<Issuer>, l: S, l': S,
                                                 attempts: seq<Attempt>, fills: seq<Fill>)
    requires Traced(settle, who, known, l, l', attempts, fills)
    ensures l' == SettleAll(settle, l, attempts)
  {
  }

  lemma {:induction false} AdvancedFills(r: Report, has: nat, a: Attempt, o: Outcome)
    ensures Appended(r.fills, Advanced(r, has, a, o).fills, SettledBy(o))
  {
  }

  /** The attempt with the oldest order of a level asks for all there is. */
  lemma {:induction false} AsksInLevel(t: Taker, price: nat, before: Side, side: Side, r: Report, a: Attempt)
    requires Level(t.buys, price, t.quantity, before, side, r) && !r.rejected && r.left > 0
    requires a.buys == t.buys && a.taker == t.issuer && Oldest(side, price, a.id)
    requires a.maker == side[a.id].issuer && a.price == price && a.max == Min(r.left, side[a.id].amount)
    ensures Has(before, r.fills, a.id) == side[a.id].amount && Asks(t, before, r, a)
  {
    LeftInBook(before, side, r.fills, r.cancels, a.id);
  }

  lemma {:induction false} KnownOne(known: set<Issuer>, side: Side, id: Id)
    requires Known(known, side) && id in side
    ensures side[id].issuer in known
  {
  }

  lemma {:induction false} TracedNext<S(!new)>(settle: Settler<S>, who: Issuer, known: set<Issuer>, l: S, m: S,
                                               attempts: seq<Attempt>, a: Attempt, fills: seq<Fill>, more: seq<Fill>)
    requires Traced(settle, who, known, l, m, attempts, fills) && a.taker == who && a.maker in known
    requires Appended(fills, more, SettledBy(settle(m, a).1))
    ensures Traced(settle, who, known, l, settle(m, a).0, attempts + [a], more)
  {
    hide Traced, Quantities;
    TracedOne(settle, who, known, m, a, more[|fills|..]);
    TracedConcat(settle, who, known, l, m, settle(m, a).0, attempts, [a], fills, more[|fills|..]);
    assert fills + more[|fills|..] == more;
  }

  lemma {:induction false} SweptKnown(known: set<Issuer>, before: Side, after: Side, buys: bool, q: nat, r: Report)
    requires Known(known, before) && Sweeping(buys, q, before, after, r)
    ensures Known(known, after)
  {
    StillKnown(known, before, after, r.fills, r.cancels);
  }

  lemma {:induction false} LimitKnown(known: set<Issuer>, before: Side, after: Side, buys: bool, limit: nat, q: nat,
                                      r: Report)
    requires Known(known, before) && LimitDone(buys, limit, q, before, after, r)
    ensures Known(known, after)
  {
    SweptKnown(known, before, after, buys, q, r);
  }

  /** A buyer never pays more than its limit and a seller never gets less. */
  lemma {:induction false} LimitHolds(buys: bool, limit: nat, q: nat, before: Side, after: Side, r: Report)
    requires LimitDone(buys, limit, q, before, after, r)
    ensures forall f :: f in r.fills ==> if buys then f.price <= limit else f.price >= limit
  {
  }

  /** Price, then age: from one fill to the next the price gets worse for the taker, or it is the same and the maker is
      not older; and every order that still rests comes after all fills in the same sense. */
  lemma {:induction false} PriorityHolds(buys: bool, fills: seq<Fill>, side: Side, i: nat, j: nat, id: Id)
    requires Worsening(buys, fills, side)
    ensures i < j < |fills| ==>
      var f, g := fills[i], fills[j];
      if f.price == g.price then f.maker <= g.maker else if buys then f.price < g.price else f.price > g.price
    ensures i < |fills| && id in side ==>
      var f, r := fills[i], side[id];
      if f.price == r.price then f.maker <= id else if buys then f.price < r.price else f.price > r.price
  {
    assert i < j < |fills| ==> Ahead(buys, fills[i].price, fills[i].maker, fills[j].price, fills[j].maker);
    assert i < |fills| && id in side ==> Ahead(buys, fills[i].price, fills[i].maker, side[id].price, id);
  }

  lemma {:induction false} SettlesSoundly<S(!new)>(settle: Settler<S>, l: S, a: Attempt)
    requires Reliable(settle) && a.price > 0 && a.max > 0
    ensures Sound(settle(l, a).1, a.max)
  {
  }
}
