/**
 * The bookkeeping of one account over its whole life: a running tally beside the book and
 * the order list, and the identities that tie the three together.
 */
module BrokerAccounts {
  import opened BrokerBooks
  import opened MapSums
  import opened Wrappers

  /** Per symbol: shares put in from outside, shares dropped as dust, and the buy prices since the position opened. */
  datatype Lot = Lot(seeded: real, dust: real, closes: nat, low: real, high: real)

  /**
   * Per account: cash put in from outside, basis of seeded positions, realized gain, basis
   * dropped as dust, negative basis clamped to zero, and whether every position put in from
   * outside was at average cost.
   */
  datatype Tally = Tally(
    contributed: real, seededBasis: real, realized: real, dustBasis: real, clamped: real, lots: map<string, Lot>, averaged: bool)

  const NO_LOT := Lot(0.0, 0.0, 0, 0.0, 0.0)
  const NO_TALLY := Tally(0.0, 0.0, 0.0, 0.0, 0.0, map[], true)

  /** One account as a whole: its book, its orders (newest first) and its tally. */
  datatype View = View(book: Book, orders: seq<Order>, tally: Tally)

  function LotOf(t: Tally, symbol: string): (r: Lot) {
    if symbol in t.lots then t.lots[symbol] else NO_LOT
  }

  function Shares(positions: map<string, Position>, symbol: string): (r: real) {
    if symbol in positions then positions[symbol].qty else 0.0
  }

  // ---- Sums over an order list ----

  function Flow(orders: seq<Order>, f: Order -> real): (r: real) {
    if orders == [] then 0.0 else f(orders[0]) + Flow(orders[1..], f)
  }

  lemma {:induction false} FlowUpdate(orders: seq<Order>, f: Order -> real, i: nat, o: Order)
    requires i < |orders|
    ensures Flow(orders[i := o], f) == Flow(orders, f) - f(orders[i]) + f(o)
  {
    if i > 0 {
      FlowUpdate(orders[1..], f, i - 1, o);
      assert orders[i := o][1..] == orders[1..][i - 1 := o];
    } else {
      assert orders[i := o][1..] == orders[1..];
    }
  }

  lemma {:induction false} FlowCons(o: Order, orders: seq<Order>, f: Order -> real)
    ensures Flow([o] + orders, f) == f(o) + Flow(orders, f)
  {
    assert ([o] + orders)[1..] == orders;
  }

  /** What a filled order moved: cash out for a buy, in for a sale. */
  function CashMoved(): (f: Order -> real) {
    (o: Order) =>
      if o.status != Filled || o.filledAvgPrice.None? then 0.0
      else if o.side == Buy then -Cost(o.filledQty, o.filledAvgPrice.value) else Cost(o.filledQty, o.filledAvgPrice.value)
  }

  function SharesMoved(symbol: string): (f: Order -> real) {
    (o: Order) =>
      if o.status != Filled || o.symbol != symbol then 0.0
      else if o.side == Buy then o.filledQty else -o.filledQty
  }

  // ---- The identities ----

  /** A limit order trades only at its limit or better. */
  predicate WithinLimit(o: Order, price: real) {
    match o.limitPrice
    case None => o.orderType != Limit
    case Some(limit) => o.orderType != Limit || if o.side == Buy then price <= limit else price >= limit
  }

  /** Filled orders are filled in full at a positive price on the right side of their limit; others not at all. */
  predicate OrderOk(o: Order) {
    && o.qty > 0.0
    && (o.status == Accepted ==> o.orderType == Limit)
    && (o.status != Filled ==> o.filledQty == 0.0 && o.filledAvgPrice == None)
    && (o.status == Filled ==>
          && o.filledQty == o.qty && o.filledAvgPrice.Some? && o.filledAvgPrice.value > 0.0
          && WithinLimit(o, o.filledAvgPrice.value))
  }

  /** Cash is what came from outside plus what the filled orders moved, and never negative. */
  ghost predicate CashOk(v: View) {
    && v.book.account.cash >= 0.0
    && v.book.account.cash == v.tally.contributed + Flow(v.orders, CashMoved())
  }

  /** Shares are what was seeded plus what the filled orders moved, less at most DUST per closed position. */
  ghost predicate SharesOk(v: View, symbol: string) {
    var lot := LotOf(v.tally, symbol);
    && Shares(v.book.positions, symbol) == lot.seeded + Flow(v.orders, SharesMoved(symbol)) - lot.dust
    && 0.0 <= lot.dust <= DUST * lot.closes as real
  }

  /** Cash plus cost basis is what was contributed plus realized gain, less the basis of dust, plus what was clamped. */
  ghost predicate BasisOk(v: View) {
    && v.tally.clamped >= 0.0
    && v.book.account.cash + Sum(v.book.positions, Basis())
    == v.tally.contributed + v.tally.seededBasis + v.tally.realized - v.tally.dustBasis + v.tally.clamped
  }

  /** Every held position is at average cost, between its lowest and highest buy price since it opened. */
  ghost predicate HeldOk(v: View, symbol: string) {
    symbol in v.book.positions ==>
      var p, lot := v.book.positions[symbol], LotOf(v.tally, symbol);
      AverageCost(p) && 0.0 < lot.low <= p.avgEntryPrice <= lot.high
  }

  /** Every position is as HeldOk says, and no sale ever needed the clamp. */
  ghost predicate AveragedOk(v: View) {
    v.tally.clamped == 0.0 && forall s :: HeldOk(v, s)
  }

  /** Orders, cash, shares and bases add up in any case, average costs if no position came in off average cost. */
  ghost predicate AccountOk(v: View) {
    && (forall i :: 0 <= i < |v.orders| ==> OrderOk(v.orders[i]))
    && CashOk(v) && BasisOk(v)
    && (forall s :: SharesOk(v, s))
    && (v.tally.averaged ==> AveragedOk(v))
  }

  // ---- Buying ----

  function TallyBuy(t: Tally, positions: map<string, Position>, symbol: string, price: real, topUp: real): (r: Tally) {
    var lot := LotOf(t, symbol);
    var opens := symbol !in positions;
    var lot' := lot.(low := if opens || price < lot.low then price else lot.low,
                     high := if opens || price > lot.high then price else lot.high);
    t.(contributed := t.contributed + topUp, lots := t.lots[symbol := lot'])
  }

  /** Order i is bought at a price, with some cash put in first. */
  function BuyView(v: View, i: nat, price: real, topUp: real, lastdayPrice: real, now: int): (r: View)
    requires i < |v.orders|
  {
    var o, b := v.orders[i], v.book;
    View(Book(b.account.(cash := b.account.cash + topUp - Cost(o.qty, price)),
              BuyInto(b.positions, o.symbol, o.qty, price, lastdayPrice)),
         v.orders[i := Fill(o, price, now)],
         TallyBuy(v.tally, b.positions, o.symbol, price, topUp))
  }

  /** Whether order i may fill at this price. */
  predicate Fillable(v: View, i: nat, price: real) {
    i < |v.orders| && v.orders[i].status != Filled && price > 0.0 && WithinLimit(v.orders[i], price)
  }

  lemma {:induction false} BuyIntoBasis(positions: map<string, Position>, symbol: string, qty: real, price: real, lastdayPrice: real)
    ensures Sum(BuyInto(positions, symbol, qty, price, lastdayPrice), Basis()) == Sum(positions, Basis()) + Cost(qty, price)
  {
    hide Cost, Sum;
    SumUpdate(positions, Basis(), symbol, BuyInto(positions, symbol, qty, price, lastdayPrice)[symbol]);
  }

  lemma {:induction false} AverageAfterBuy(p: Position, qty: real, price: real, low: real, high: real)
    requires AverageCost(p) && qty > 0.0 && 0.0 < low <= p.avgEntryPrice <= high && low <= price <= high
    ensures low <= Quotient(p.costBasis + Cost(qty, price), p.qty + qty) <= high
    ensures p.costBasis + Cost(qty, price) == (p.qty + qty) * Quotient(p.costBasis + Cost(qty, price), p.qty + qty)
  {
    AverageBetween(p.qty, p.avgEntryPrice, qty, price, low, high);
    hide Cost, Quotient;
    QuotientTimes(p.costBasis + Cost(qty, price), p.qty + qty);
  }

  lemma {:induction false} BuyIntoHeld(v: View, i: nat, price: real, topUp: real, lastdayPrice: real, now: int)
    requires Fillable(v, i, price) && OrderOk(v.orders[i]) && HeldOk(v, v.orders[i].symbol)
    ensures HeldOk(BuyView(v, i, price, topUp, lastdayPrice, now), v.orders[i].symbol)
  {
    var o, v' := v.orders[i], BuyView(v, i, price, topUp, lastdayPrice, now);
    if o.symbol in v.book.positions {
      hide Cost, Quotient;
      var lot := LotOf(v'.tally, o.symbol);
      AverageAfterBuy(v.book.positions[o.symbol], o.qty, price, lot.low, lot.high);
    }
  }

  /** Every identity survives a buy. */
  lemma {:induction false} BuyKeeps(v: View, i: nat, price: real, topUp: real, lastdayPrice: real, now: int)
    requires AccountOk(v) && Fillable(v, i, price) && v.orders[i].side == Buy
    requires topUp >= 0.0 && v.book.account.cash + topUp >= Cost(v.orders[i].qty, price)
    ensures AccountOk(BuyView(v, i, price, topUp, lastdayPrice, now))
  {
    hide Cost, Sum, Flow, Quotient, AverageCost;
    var o, v' := v.orders[i], BuyView(v, i, price, topUp, lastdayPrice, now);
    FlowUpdate(v.orders, CashMoved(), i, Fill(o, price, now));
    BuyIntoBasis(v.book.positions, o.symbol, o.qty, price, lastdayPrice);
    forall s ensures SharesOk(v', s) && (v.tally.averaged ==> HeldOk(v', s)) {
      assert SharesOk(v, s) && (v.tally.averaged ==> HeldOk(v, s));
      FlowUpdate(v.orders, SharesMoved(s), i, Fill(o, price, now));
      if s == o.symbol && v.tally.averaged {
        BuyIntoHeld(v, i, price, topUp, lastdayPrice, now);
      }
    }
  }

  // ---- Selling ----

  function TallySell(t: Tally, p: Position, symbol: string, qty: real, price: real): (r: Tally) {
    var lot := LotOf(t, symbol);
    var closes := p.qty - qty <= DUST;
    t.(realized := t.realized + Cost(qty, price) - Cost(qty, p.avgEntryPrice),
       dustBasis := t.dustBasis + if closes then Reduced(p, qty) else 0.0,
       lots := if closes then t.lots[symbol := lot.(dust := lot.dust + p.qty - qty, closes := lot.closes + 1)] else t.lots)
  }

  /** Order i is sold at a price. */
  function SellView(v: View, i: nat, price: real, now: int): (r: View)
    requires i < |v.orders| && v.orders[i].symbol in v.book.positions
  {
    var o, b := v.orders[i], v.book;
    View(Book(b.account.(cash := b.account.cash + Cost(o.qty, price)), SellFrom(b.positions, o.symbol, o.qty, price)),
         v.orders[i := Fill(o, price, now)],
         TallySell(v.tally, b.positions[o.symbol], o.symbol, o.qty, price))
  }

  lemma {:induction false} SellFromBasis(positions: map<string, Position>, symbol: string, qty: real, price: real)
    requires symbol in positions
    ensures Sum(SellFrom(positions, symbol, qty, price), Basis())
         == Sum(positions, Basis()) - Cost(qty, positions[symbol].avgEntryPrice)
          - if positions[symbol].qty - qty <= DUST then Reduced(positions[symbol], qty) else 0.0
  {
    hide Cost, Sum;
    SumRemove(positions, Basis(), symbol);
    SumUpdate(positions, Basis(), symbol,
              positions[symbol].(qty := positions[symbol].qty - qty, costBasis := Reduced(positions[symbol], qty), currentPrice := price));
  }

  lemma {:induction false} CostPositive(qty: real, price: real)
    requires qty > 0.0 && price > 0.0
    ensures Cost(qty, price) > 0.0
  {
  }

  lemma {:induction false} SellFromHeld(v: View, i: nat, price: real, now: int)
    requires i < |v.orders| && OrderOk(v.orders[i]) && HeldOk(v, v.orders[i].symbol)
    requires v.orders[i].symbol in v.book.positions && v.book.positions[v.orders[i].symbol].qty >= v.orders[i].qty
    ensures HeldOk(SellView(v, i, price, now), v.orders[i].symbol)
  {
    NoClamp(v.book.positions[v.orders[i].symbol], v.orders[i].qty);
  }

  /** Every identity survives a sale of shares that are there. */
  lemma {:induction false} SellKeeps(v: View, i: nat, price: real, now: int)
    requires AccountOk(v) && Fillable(v, i, price) && v.orders[i].side == Sell
    requires v.orders[i].symbol in v.book.positions && v.book.positions[v.orders[i].symbol].qty >= v.orders[i].qty
    ensures AccountOk(SellView(v, i, price, now))
  {
    hide Cost, Sum, Flow, AverageCost, Reduced;
    var o, v' := v.orders[i], SellView(v, i, price, now);
    FlowUpdate(v.orders, CashMoved(), i, Fill(o, price, now));
    SellFromBasis(v.book.positions, o.symbol, o.qty, price);
    CostPositive(o.qty, price);
    forall s ensures SharesOk(v', s) && (v.tally.averaged ==> HeldOk(v', s)) {
      assert SharesOk(v, s) && (v.tally.averaged ==> HeldOk(v, s));
      FlowUpdate(v.orders, SharesMoved(s), i, Fill(o, price, now));
      if s == o.symbol && v.tally.averaged {
        SellFromHeld(v, i, price, now);
      }
    }
  }

  lemma {:induction false} AllHeldAverage(v: View)
    requires AccountOk(v) && v.tally.averaged
    ensures AllAverageCost(v.book.positions)
  {
    forall s | s in v.book.positions ensures AverageCost(v.book.positions[s]) {
      assert HeldOk(v, s);
    }
  }

  /** How much of a negative basis a market sale clamps to zero; what is dropped as dust is not clamped. */
  function Clamp(p: Position, qty: real): (r: real)
    ensures r >= 0.0
  {
    if p.qty - qty > DUST && Reduced(p, qty) < 0.0 then -Reduced(p, qty) else 0.0
  }

  /** The tally of a market sale. */
  function TallyMarketSell(t: Tally, p: Position, symbol: string, qty: real, price: real): (r: Tally) {
    var t' := TallySell(t, p, symbol, qty, price);
    t'.(clamped := t'.clamped + Clamp(p, qty))
  }

  /** A market sale's positions hold the same shares as a limit sale's, and the clamped basis more. */
  lemma {:induction false} MarketSellPositions(b: Book, o: Order, price: real, now: int)
    requires MarketSell(b, o, price, now).Some?
    ensures o.symbol in b.positions
    ensures var c, d := MarketSell(b, o, price, now).value.0.positions, SellFrom(b.positions, o.symbol, o.qty, price);
            && (forall s :: Shares(c, s) == Shares(d, s))
            && Sum(c, Basis()) == Sum(d, Basis()) + Clamp(b.positions[o.symbol], o.qty)
  {
    hide Cost, Reduced, Sum;
    var c, d := MarketSell(b, o, price, now).value.0.positions, SellFrom(b.positions, o.symbol, o.qty, price);
    if o.symbol in d {
      SumUpdate(d, Basis(), o.symbol, c[o.symbol]);
      assert c == d[o.symbol := c[o.symbol]];
    } else {
      assert c == d;
    }
  }

  /** So does a market sale, whether or not its basis is clamped to zero. */
  lemma {:induction false} MarketSellKeeps(v: View, i: nat, price: real, now: int)
    requires AccountOk(v) && Fillable(v, i, price) && v.orders[i].side == Sell
    requires MarketSell(v.book, v.orders[i], price, now).Some?
    ensures v.orders[i].symbol in v.book.positions
    ensures var (b, o) := MarketSell(v.book, v.orders[i], price, now).value;
            AccountOk(View(b, v.orders[i := o],
                           TallyMarketSell(v.tally, v.book.positions[v.orders[i].symbol], v.orders[i].symbol, v.orders[i].qty, price)))
  {
    var o := v.orders[i];
    var (b, o') := MarketSell(v.book, o, price, now).value;
    var sold := SellView(v, i, price, now);
    var v' := View(b, v.orders[i := o'], TallyMarketSell(v.tally, v.book.positions[o.symbol], o.symbol, o.qty, price));
    SellKeeps(v, i, price, now);
    MarketSellPositions(v.book, o, price, now);
    if v.tally.averaged {
      AllHeldAverage(v);
      SellsAgree(v.book, o, price, now);
      NoClamp(v.book.positions[o.symbol], o.qty);
      assert v' == sold;
    } else {
      hide Flow, Sum, Cost, Reduced, Clamp, SellFrom;
      forall s ensures SharesOk(v', s) {
        assert SharesOk(sold, s);
      }
    }
  }

  /**
   * A market sale keeps cash plus basis equal to contributions plus realized gain less dropped
   * dust exactly when its basis is not clamped.
   */
  lemma {:induction false} MarketSellBasisExactlyWhen(v: View, i: nat, price: real, now: int)
    requires BasisOk(v) && i < |v.orders| && MarketSell(v.book, v.orders[i], price, now).Some?
    ensures v.orders[i].symbol in v.book.positions
    ensures var o, p := v.orders[i], v.book.positions[v.orders[i].symbol];
            var (b, o') := MarketSell(v.book, o, price, now).value;
            BasisOk(View(b, v.orders[i := o'], TallySell(v.tally, p, o.symbol, o.qty, price)))
            <==> !(p.qty - o.qty > DUST && Reduced(p, o.qty) < 0.0)
  {
    var o := v.orders[i];
    MarketSellPositions(v.book, o, price, now);
    SellFromBasis(v.book.positions, o.symbol, o.qty, price);
    hide Sum, Cost, Reduced;
  }

  // ---- The other changes ----

  /** A new order enters at the front, not yet filled. */
  lemma {:induction false} AddKeeps(v: View, o: Order)
    requires AccountOk(v) && OrderOk(o) && o.status != Filled
    ensures AccountOk(v.(orders := [o] + v.orders))
  {
    hide Flow, Sum, OrderOk;
    var v' := v.(orders := [o] + v.orders);
    FlowCons(o, v.orders, CashMoved());
    assert CashMoved()(o) == 0.0;
    forall i | 0 <= i < |v'.orders| ensures OrderOk(v'.orders[i]) {
      assert v'.orders[i] == if i == 0 then o else v.orders[i - 1];
    }
    forall s ensures SharesOk(v', s) && (v.tally.averaged ==> HeldOk(v', s)) {
      assert SharesOk(v, s) && (v.tally.averaged ==> HeldOk(v, s));
      FlowCons(o, v.orders, SharesMoved(s));
    }
  }

  /** An order is canceled before it fills. */
  lemma {:induction false} CancelKeeps(v: View, i: nat, now: int)
    requires AccountOk(v) && i < |v.orders| && v.orders[i].status != Filled
    ensures AccountOk(v.(orders := v.orders[i := v.orders[i].(status := Canceled, canceledAt := Some(now), updatedAt := now)]))
  {
    hide Flow, Sum;
    var o := v.orders[i].(status := Canceled, canceledAt := Some(now), updatedAt := now);
    var v' := v.(orders := v.orders[i := o]);
    FlowUpdate(v.orders, CashMoved(), i, o);
    forall s ensures SharesOk(v', s) && (v.tally.averaged ==> HeldOk(v', s)) {
      assert SharesOk(v, s) && (v.tally.averaged ==> HeldOk(v, s));
      FlowUpdate(v.orders, SharesMoved(s), i, o);
    }
  }

  /** Cash comes in from, or goes out to, the outside. */
  lemma {:induction false} DepositKeeps(v: View, account: Account)
    requires AccountOk(v) && account.cash >= 0.0
    ensures AccountOk(View(v.book.(account := account), v.orders,
                           v.tally.(contributed := v.tally.contributed + account.cash - v.book.account.cash)))
  {
    hide Flow, Sum;
    var v' := View(v.book.(account := account), v.orders,
                   v.tally.(contributed := v.tally.contributed + account.cash - v.book.account.cash));
    forall s ensures SharesOk(v', s) && (v.tally.averaged ==> HeldOk(v', s)) {
      assert SharesOk(v, s) && (v.tally.averaged ==> HeldOk(v, s));
    }
  }

  /** The same holdings: only prices and valuations differ. */
  ghost predicate SameHoldings(b: Book, c: Book) {
    && b.account.cash == c.account.cash && b.positions.Keys == c.positions.Keys
    && forall s :: s in b.positions ==>
         && b.positions[s].qty == c.positions[s].qty
         && b.positions[s].avgEntryPrice == c.positions[s].avgEntryPrice
         && b.positions[s].costBasis == c.positions[s].costBasis
  }

  /** No price movement touches the identities. */
  lemma {:induction false} RepriceKeeps(v: View, b: Book)
    requires AccountOk(v) && SameHoldings(v.book, b)
    ensures AccountOk(v.(book := b))
  {
    hide Flow, Sum;
    var v' := v.(book := b);
    SumSame(v.book.positions, b.positions, Basis(), Basis());
    forall s ensures SharesOk(v', s) && (v.tally.averaged ==> HeldOk(v', s)) {
      assert SharesOk(v, s) && (v.tally.averaged ==> HeldOk(v, s));
    }
  }

  /** A position is put in place from outside. */
  ghost function SeedView(v: View, symbol: string, p: Position): (r: View) {
    var before := v.book.positions;
    var lot := LotOf(v.tally, symbol);
    var oldBasis := if symbol in before then before[symbol].costBasis else 0.0;
    View(v.book.(positions := before[symbol := p]), v.orders,
         v.tally.(seededBasis := v.tally.seededBasis + p.costBasis - oldBasis,
                  lots := v.tally.lots[symbol := lot.(seeded := lot.seeded + p.qty - Shares(before, symbol),
                                                      low := p.avgEntryPrice, high := p.avgEntryPrice)],
                  averaged := v.tally.averaged && AverageCost(p)))
  }

  /** Seeding any position keeps orders, cash, shares and bases adding up. */
  lemma {:induction false} SeedKeepsLog(v: View, symbol: string, p: Position)
    requires AccountOk(v)
    ensures AccountOk(SeedView(v, symbol, p))
  {
    hide Flow, Sum, AverageCost, HeldOk;
    var v' := SeedView(v, symbol, p);
    SumUpdate(v.book.positions, Basis(), symbol, p);
    if v'.tally.averaged {
      SeedKeepsExactlyWhen(v, symbol, p);
    }
    forall s ensures SharesOk(v', s) {
      assert SharesOk(v, s);
    }
  }

  /** It keeps every position at average cost exactly when the seeded position is itself at average cost. */
  lemma {:induction false} SeedKeepsExactlyWhen(v: View, symbol: string, p: Position)
    requires AveragedOk(v)
    ensures AveragedOk(SeedView(v, symbol, p)) <==> AverageCost(p)
  {
    hide Sum, AverageCost;
    var v' := SeedView(v, symbol, p);
    assert HeldOk(v', symbol) <==> AverageCost(p) by { HeldAverage(p); }
    if AverageCost(p) {
      forall s ensures HeldOk(v', s) {
        assert HeldOk(v, s);
      }
    }
  }

  lemma {:induction false} HeldAverage(p: Position)
    ensures AverageCost(p) ==> 0.0 < p.avgEntryPrice
  {
  }

  // ---- Equity ----

  /** What re-marking the shares held to a price is worth. */
  function Remarked(positions: map<string, Position>, symbol: string, price: real): (r: real) {
    if symbol in positions then positions[symbol].qty * (price - positions[symbol].currentPrice) else 0.0
  }

  /** The value of the dust a sale drops. */
  function Dropped(p: Position, qty: real, price: real): (r: real) {
    if p.qty - qty <= DUST then (p.qty - qty) * price else 0.0
  }

  /** A buy changes equity only by marking the shares already held to the fill price, and by the cash put in. */
  lemma {:induction false} BuyEquity(b: Book, symbol: string, qty: real, price: real, lastdayPrice: real)
    ensures Sum(BuyInto(b.positions, symbol, qty, price, lastdayPrice), MarketValue()) - Cost(qty, price)
         == Sum(b.positions, MarketValue()) + Remarked(b.positions, symbol, price)
  {
    hide Sum, Quotient;
    SumUpdate(b.positions, MarketValue(), symbol, BuyInto(b.positions, symbol, qty, price, lastdayPrice)[symbol]);
  }

  /** A sale changes equity only by the same re-marking, less the value of dropped dust. */
  lemma {:induction false} SellEquity(b: Book, symbol: string, qty: real, price: real)
    requires symbol in b.positions
    ensures Sum(SellFrom(b.positions, symbol, qty, price), MarketValue()) + Cost(qty, price)
         == Sum(b.positions, MarketValue()) + Remarked(b.positions, symbol, price) - Dropped(b.positions[symbol], qty, price)
  {
    hide Sum, Reduced;
    var p := b.positions[symbol];
    SumRemove(b.positions, MarketValue(), symbol);
    SumUpdate(b.positions, MarketValue(), symbol, p.(qty := p.qty - qty, costBasis := Reduced(p, qty), currentPrice := price));
  }

  function TopUp(b: Book, cost: real): (r: real) {
    if b.account.cash < cost then cost - b.account.cash + TOP_UP else 0.0
  }

  /** A market fill, revalued: equity moves only by re-marking, by a top-up, and by dropped dust. */
  lemma {:induction false} MarketFillEquity(b: Book, o: Order, price: real, autoReplenish: bool, now: int)
    requires Valued(b) && AllAverageCost(b.positions)
    ensures MarketBuy(b, o, price, autoReplenish, now).Some? ==>
              Revalue(MarketBuy(b, o, price, autoReplenish, now).value.0).account.equity
              == b.account.equity + Remarked(b.positions, o.symbol, price) + TopUp(b, Cost(o.qty, price))
    ensures MarketSell(b, o, price, now).Some? ==>
              Revalue(MarketSell(b, o, price, now).value.0).account.equity
              == b.account.equity + Remarked(b.positions, o.symbol, price) - Dropped(b.positions[o.symbol], o.qty, price)
  {
    hide Sum, Cost, Remarked, Dropped, MarkAll, BuyInto, SellFrom;
    SellsAgree(b, o, price, now);
    BuyEquity(b, o.symbol, o.qty, price, price * 0.99);
    if o.symbol in b.positions {
      SellEquity(b, o.symbol, o.qty, price);
    }
  }
}
