/** Settling a matched pair of exchange orders: `GetSettleBalance` (BRCx/tradingstate/settle_balance.go) and
    `DoSettleBalance` (BRCx/order_processor.go). Traders and relayer owners may coincide in any way. */
module Settlement {
  import opened Options
  import opened FillQuantity
  import opened Ledger

  const RELAYER_FEE: nat := 1000000000000000
  const DEFAULT_FEE_RATE: nat := 10

  datatype Leg = Leg(fee: nat, inToken: Token, inTotal: nat, outToken: Token, outTotal: nat)

  datatype Settle = Settle(taker: Leg, maker: Leg)

  datatype Terms = Terms(takerBuys: bool, base: Token, quote: Token, price: nat, baseDecimal: nat, quoteDecimal: nat,
                         takerRate: nat, makerRate: nat, quotePrice: nat)

  predicate ValidTerms(t: Terms) {
    t.price > 0 && t.baseDecimal > 0 && t.quoteDecimal > 0
  }

  /** A fee counts as too small when it is positive but no more than what the relayer pays for the match. */
  predicate FeeTooSmall(fee: nat, defaultFee: nat) {
    0 < fee <= RELAYER_FEE || defaultFee <= RELAYER_FEE
  }

  /** A fee in the quote token, valued in the native token. */
  function InNative(fee: nat, t: Terms): nat
    requires ValidTerms(t)
  {
    fee * t.quotePrice / t.quoteDecimal
  }

  predicate TooSmall(t: Terms, q: nat)
    requires ValidTerms(t)
  {
    var amount := QuoteQuantity(q, t.price, t.baseDecimal);
    var makerFee, takerFee := FeeOn(amount, t.makerRate), FeeOn(amount, t.takerRate);
    var defaultFee := FeeOn(amount, DEFAULT_FEE_RATE);
    || amount <= (if t.takerBuys then makerFee else takerFee)
    || amount <= defaultFee
    || (t.quote != NATIVE && t.quotePrice > 0 &&
          (|| FeeTooSmall(InNative(makerFee, t), InNative(defaultFee, t))
           || FeeTooSmall(InNative(takerFee, t), InNative(defaultFee, t))))
    || (t.quote == NATIVE && (FeeTooSmall(makerFee, defaultFee) || FeeTooSmall(takerFee, defaultFee)))
  }

  function SettleBalance(t: Terms, q: nat): Option<Settle>
    requires ValidTerms(t)
  {
    var amount := QuoteQuantity(q, t.price, t.baseDecimal);
    var makerFee, takerFee := FeeOn(amount, t.makerRate), FeeOn(amount, t.takerRate);
    if TooSmall(t, q) then None
    else if t.takerBuys then
      Some(Settle(Leg(takerFee, t.base, q, t.quote, amount + takerFee),
                  Leg(makerFee, t.quote, amount - makerFee, t.base, q)))
    else
      Some(Settle(Leg(takerFee, t.quote, amount - takerFee, t.base, q),
                  Leg(makerFee, t.base, q, t.quote, amount + makerFee)))
  }

  datatype Parties = Parties(taker: Address, maker: Address, takerOwner: Address, makerOwner: Address)

  /** The debits and credits of a match, in the order they are checked. */
  function Entries(p: Parties, s: Settle, quote: Token): seq<Entry> {
    [Credit(Account(s.taker.inToken, p.taker), s.taker.inTotal),
     Debit(Account(s.taker.outToken, p.taker), s.taker.outTotal),
     Credit(Account(s.maker.inToken, p.maker), s.maker.inTotal),
     Debit(Account(s.maker.outToken, p.maker), s.maker.outTotal),
     Credit(Account(quote, p.takerOwner), s.taker.fee),
     Credit(Account(quote, p.makerOwner), s.maker.fee)]
  }

  lemma {:induction false} NetOfSix(es: seq<Entry>, t: Token)
    requires |es| == 6
    ensures Net(es, t) ==
      Delta(es[0], t) + Delta(es[1], t) + Delta(es[2], t) + Delta(es[3], t) + Delta(es[4], t) + Delta(es[5], t)
  {
    assert Net(es, t) == Delta(es[0], t) + Net(es[1..], t);
    assert Net(es[1..], t) == Delta(es[1], t) + Net(es[1..][1..], t);
    assert es[1..][1..] == es[2..] && es[2..][1..] == es[3..] && es[3..][1..] == es[4..];
    assert es[4..][1..] == es[5..] && es[5..][1..] == [];
    assert Net(es[2..], t) == Delta(es[2], t) + Net(es[3..], t);
    assert Net(es[3..], t) == Delta(es[3], t) + Net(es[4..], t);
    assert Net(es[4..], t) == Delta(es[4], t) + Net(es[5..], t);
    assert Net(es[5..], t) == Delta(es[5], t);
  }

  /** For every token the debits of a match equal its credits. */
  lemma {:induction false} EntriesBalance(p: Parties, terms: Terms, q: nat, t: Token)
    requires ValidTerms(terms) && SettleBalance(terms, q).Some?
    ensures Net(Entries(p, SettleBalance(terms, q).value, terms.quote), t) == 0
  {
    hide QuoteQuantity, FeeOn, Net;
    NetOfSix(Entries(p, SettleBalance(terms, q).value, terms.quote), t);
  }

  /** Settling a match leaves every token's total as it was. */
  lemma {:induction false} MatchConserves(b: Balances, p: Parties, terms: Terms, q: nat, t: Token)
    requires ValidTerms(terms) && SettleBalance(terms, q).Some?
    requires Solvent(b, Entries(p, SettleBalance(terms, q).value, terms.quote))
    ensures Total(AppliedAll(b, Entries(p, SettleBalance(terms, q).value, terms.quote)), t) == Total(b, t)
  {
    EntriesBalance(p, terms, q, t);
    AppliedAllTotal(b, Entries(p, SettleBalance(terms, q).value, terms.quote), t);
  }

  /** The balances a match is limited by: what each side pays in. */
  function TakerPays(t: Terms): Token {
    if t.takerBuys then t.quote else t.base
  }

  function MakerPays(t: Terms): Token {
    if t.takerBuys then t.base else t.quote
  }

  function MatchFill(b: Balances, p: Parties, t: Terms, q: nat): Fill
    requires ValidTerms(t)
  {
    TradeQuantity(t.takerBuys, t.takerRate, Balance(b, Account(TakerPays(t), p.taker)), t.price,
                  t.makerRate, Balance(b, Account(MakerPays(t), p.maker)), t.baseDecimal, q)
  }

  /** Six entries alternate as in a match: debits are covered when each is covered after what precedes it. */
  lemma {:induction false} SolventSix(b: Balances, es: seq<Entry>)
    requires |es| == 6 && es[0].Credit? && es[1].Debit? && es[2].Credit? && es[3].Debit? && es[4].Credit?
    requires es[5].Credit?
    requires Covered(Applied(b, es[0]), es[1]) && Covered(Applied(Applied(Applied(b, es[0]), es[1]), es[2]), es[3])
    ensures Solvent(b, es)
  {
    hide Applied;
    var b1 := Applied(b, es[0]);
    var b2 := Applied(b1, es[1]);
    var b3 := Applied(b2, es[2]);
    var b4 := Applied(b3, es[3]);
    var b5 := Applied(b4, es[4]);
    assert es[1..][1..] == es[2..] && es[2..][1..] == es[3..] && es[3..][1..] == es[4..];
    assert es[4..][1..] == es[5..] && es[5..][1..] == [];
    assert Solvent(b5, es[5..]);
    assert Solvent(b4, es[4..]);
    assert Solvent(b3, es[3..]);
    assert Solvent(b2, es[2..]);
    assert Solvent(b1, es[1..]);
  }

  /** A match at the balance-limited quantity never fails for lack of a trader's balance, even when a trader
      matches itself, owns a relayer, or both tokens are the same. */
  lemma {:induction false} MatchNeverShort(b: Balances, p: Parties, t: Terms, q: nat)
    requires ValidTerms(t) && SettleBalance(t, MatchFill(b, p, t, q).quantity).Some?
    ensures Solvent(b, Entries(p, SettleBalance(t, MatchFill(b, p, t, q).quantity).value, t.quote))
  {
    hide TradeQuantity, QuoteQuantity, FeeOn;
    TradeQuantityFits(t.takerBuys, t.takerRate, Balance(b, Account(TakerPays(t), p.taker)), t.price,
                      t.makerRate, Balance(b, Account(MakerPays(t), p.maker)), t.baseDecimal, q);
    SolventSix(b, Entries(p, SettleBalance(t, MatchFill(b, p, t, q).quantity).value, t.quote));
  }
}
