/** Resting orders of one side of a book, and what matching may do to them. The same code serves the exchange
    (bids and asks by price) and lending (borrowing and investing by interest). */
module OrderBook {

  type Id = nat

  /** Who placed an order: its user, its hash and the relayer it came through. */
  datatype Issuer = Issuer(user: nat, hash: nat, relayer: nat)

  datatype Resting = Resting(price: nat, amount: nat, issuer: Issuer)

  type Side = map<Id, Resting>

  /** A fill at the maker's price, and the cancellation of a maker with what it had left. */
  datatype Fill = Fill(maker: Id, price: nat, quantity: nat)

  datatype Cancel = Cancel(maker: Id, amount: nat)

  /** Price `p` is at least as good for the taker as `q`. */
  predicate Good(buys: bool, p: nat, q: nat) {
    if buys then p <= q else p >= q
  }

  function Amount(side: Side, id: Id): nat {
    if id in side then side[id].amount else 0
  }

  function FilledOf(fills: seq<Fill>, id: Id): nat {
    if fills == [] then 0
    else
      var f := fills[|fills| - 1];
      FilledOf(fills[..|fills| - 1], id) + if f.maker == id then f.quantity else 0
  }

  function CancelledOf(cancels: seq<Cancel>, id: Id): nat {
    if cancels == [] then 0
    else
      var c := cancels[|cancels| - 1];
      CancelledOf(cancels[..|cancels| - 1], id) + if c.maker == id then c.amount else 0
  }

  function Filled(fills: seq<Fill>): nat {
    if fills == [] then 0 else Filled(fills[..|fills| - 1]) + fills[|fills| - 1].quantity
  }

  ghost predicate Live(side: Side) {
    forall id :: id in side ==> side[id].price > 0 && side[id].amount > 0
  }

  /** Every maker keeps its price and issuer, and its amount is accounted for: what is left, what was filled, what was
      cancelled. A cancelled maker is gone. */
  ghost predicate Accounted(before: Side, after: Side, fills: seq<Fill>, cancels: seq<Cancel>) {
    && (forall id :: id in after ==> id in before && after[id].(amount := before[id].amount) == before[id])
    && (forall id :: Amount(before, id) == Amount(after, id) + FilledOf(fills, id) + CancelledOf(cancels, id))
    && (forall f :: f in fills ==> f.quantity > 0 && f.maker in before && f.price == before[f.maker].price)
    && (forall c :: c in cancels ==> c.amount > 0 && c.maker in before && c.maker !in after)
  }

  /** Order `a` at price `p` has priority over order `b` at price `q`: better price first, then older. */
  predicate Ahead(buys: bool, p: nat, a: Id, q: nat, b: Id) {
    Good(buys, p, q) && (p == q ==> a <= b)
  }

  /** Fills follow price and age: prices never improve from one fill to the next, within a price older orders
      come first, and whatever still rests comes after all fills. */
  ghost predicate Worsening(buys: bool, fills: seq<Fill>, side: Side) {
    && (forall i, j ::
          0 <= i < j < |fills| ==> Ahead(buys, fills[i].price, fills[i].maker, fills[j].price, fills[j].maker))
    && (forall i, id ::
          0 <= i < |fills| && id in side ==> Ahead(buys, fills[i].price, fills[i].maker, side[id].price, id))
  }

  function Reduced(side: Side, id: Id, q: nat): Side
    requires id in side && q <= side[id].amount
  {
    if q == side[id].amount then side - {id} else side[id := side[id].(amount := side[id].amount - q)]
  }

  lemma {:induction false} FilledAppend(fills: seq<Fill>, f: Fill)
    ensures Filled(fills + [f]) == Filled(fills) + f.quantity
    ensures forall id :: FilledOf(fills + [f], id) == FilledOf(fills, id) + if f.maker == id then f.quantity else 0
  {
    assert (fills + [f])[..|fills|] == fills;
  }

  lemma {:induction false} CancelledAppend(cancels: seq<Cancel>, c: Cancel)
    ensures forall id ::
      CancelledOf(cancels + [c], id) == CancelledOf(cancels, id) + if c.maker == id then c.amount else 0
  {
    assert (cancels + [c])[..|cancels|] == cancels;
  }

  lemma {:induction false} AccountedFill(before: Side, side: Side, fills: seq<Fill>, cancels: seq<Cancel>, id: Id,
                                         q: nat)
    requires Live(side) && Accounted(before, side, fills, cancels) && id in side && 0 < q <= side[id].amount
    ensures Live(Reduced(side, id, q))
    ensures Accounted(before, Reduced(side, id, q), fills + [Fill(id, side[id].price, q)], cancels)
  {
    hide FilledOf, CancelledOf;
    FilledAppend(fills, Fill(id, side[id].price, q));
  }

  lemma {:induction false} AccountedCancel(before: Side, side: Side, fills: seq<Fill>, cancels: seq<Cancel>, id: Id)
    requires Live(side) && Accounted(before, side, fills, cancels) && id in side
    ensures Live(side - {id})
    ensures Accounted(before, side - {id}, fills, cancels + [Cancel(id, side[id].amount)])
  {
    hide FilledOf, CancelledOf;
    CancelledAppend(cancels, Cancel(id, side[id].amount));
  }

  lemma {:induction false} NotCancelled(cancels: seq<Cancel>, id: Id)
    requires forall c :: c in cancels ==> c.maker != id
    ensures CancelledOf(cancels, id) == 0
  {
    if cancels != [] {
      var n := |cancels| - 1;
      assert cancels[n] in cancels;
      NotCancelled(cancels[..n], id);
    }
  }

  /** What a maker has left is what it had less what was filled. */
  lemma {:induction false} LeftInBook(before: Side, after: Side, fills: seq<Fill>, cancels: seq<Cancel>, id: Id)
    requires Accounted(before, after, fills, cancels) && id in after
    ensures id in before && after[id].price == before[id].price && after[id].issuer == before[id].issuer
    ensures before[id].amount == after[id].amount + FilledOf(fills, id)
  {
    NotCancelled(cancels, id);
    assert Amount(before, id) == Amount(after, id) + FilledOf(fills, id) + CancelledOf(cancels, id);
  }

  /** The best price of a side and its oldest order there. */
  ghost predicate BestPrice(side: Side, buys: bool, p: nat) {
    && (exists id :: id in side && side[id].price == p)
    && (forall id :: id in side ==> Good(buys, p, side[id].price))
  }

  predicate Oldest(side: Side, p: nat, id: Id) {
    id in side && side[id].price == p && forall j :: j in side && side[j].price == p ==> id <= j
  }

  lemma {:induction false} BestOf(side: Side, buys: bool, ids: set<Id>) returns (best: Id)
    requires ids != {} && ids <= side.Keys
    ensures best in ids && forall j :: j in ids ==> Good(buys, side[best].price, side[j].price)
    decreases |ids|
  {
    var id :| id in ids;
    best := id;
    if ids - {id} != {} {
      var m := BestOf(side, buys, ids - {id});
      best := if Good(buys, side[id].price, side[m].price) then id else m;
    }
    forall j | j in ids ensures Good(buys, side[best].price, side[j].price) {
      if j != id { assert j in ids - {id}; }
    }
  }

  lemma {:induction false} BestExists(side: Side, buys: bool)
    requires side != map[]
    ensures exists id :: id in side && forall j :: j in side ==> Good(buys, side[id].price, side[j].price)
  {
    assert side.Keys != {};
    var best := BestOf(side, buys, side.Keys);
  }

  lemma {:induction false} OldestExists(side: Side, p: nat, bound: nat)
    requires exists id :: id in side && side[id].price == p && id <= bound
    ensures exists id :: Oldest(side, p, id)
    decreases bound
  {
    var id :| id in side && side[id].price == p && id <= bound;
    if exists j :: j in side && side[j].price == p && j < id {
      var j :| j in side && side[j].price == p && j < id;
      OldestExists(side, p, id - 1);
    } else {
      assert Oldest(side, p, id);
    }
  }
}
