/**
 * What the brokerage operations do, read off the request, the quotes and the account before and
 * after, in numbers and strings only.
 */
module BrokerEffects {
  import opened BrokerBooks
  import opened BrokerLedgers
  import opened MapSums
  import opened Wrappers

  // ---- One account before and after ----

  ghost function Stated(): (f: Position -> real) {
    (p: Position) => p.marketValue
  }

  ghost predicate MarkedPosition(p: Position) {
    && p.marketValue == p.qty * p.currentPrice
    && p.unrealizedPL == p.qty * p.currentPrice - p.costBasis
    && (p.costBasis > 0.0 ==> p.unrealizedPLPC * p.costBasis == p.unrealizedPL)
  }

  /** Every position is marked at its current price, and the balances follow. */
  ghost predicate Marked(b: Book) {
    && (forall s :: s in b.positions ==> MarkedPosition(b.positions[s]))
    && b.account.longMarketValue == Sum(b.positions, Stated())
    && b.account.equity == b.account.portfolioValue == b.account.cash + Sum(b.positions, Stated())
    && b.account.buyingPower == b.account.cash * 2.0
  }

  ghost predicate SameHolding(p: Position, p': Position) {
    && p'.qty == p.qty && p'.avgEntryPrice == p.avgEntryPrice && p'.costBasis == p.costBasis
    && p'.currentPrice == p.currentPrice && p'.lastdayPrice == p.lastdayPrice && p'.changeToday == p.changeToday
  }

  /** All holdings but one symbol's are as they were. */
  ghost predicate OthersHeld(b: Book, b': Book, symbol: string) {
    && b'.account.shortMarketValue == b.account.shortMarketValue
    && b'.positions.Keys - {symbol} == b.positions.Keys - {symbol}
    && forall s :: s in b.positions && s != symbol && s in b'.positions ==> SameHolding(b.positions[s], b'.positions[s])
  }

  /**
   * qty shares bought at a price for a cost, after `topUp` was put in; a new position starts from
   * the given previous close.
   */
  ghost predicate Bought(b: Book, b': Book, symbol: string, qty: real, price: real, cost: real, topUp: real, lastday: real) {
    && OthersHeld(b, b', symbol) && symbol in b'.positions
    && b'.account.cash == b.account.cash + topUp - cost
    && var p' := b'.positions[symbol];
       && p'.currentPrice == price
       && (symbol !in b.positions ==>
             p'.qty == qty && p'.avgEntryPrice == price && p'.costBasis == cost && p'.lastdayPrice == lastday)
       && (symbol in b.positions ==>
             var p := b.positions[symbol];
             && p'.qty == p.qty + qty && p'.costBasis == p.costBasis + cost && p'.lastdayPrice == p.lastdayPrice
             && (p.qty + qty != 0.0 ==> p'.avgEntryPrice * (p.qty + qty) == p.costBasis + cost))
  }

  /**
   * qty shares sold at a price for their proceeds; a remainder of at most 0.00001 goes, a negative
   * basis may be clamped to zero.
   */
  ghost predicate Sold(b: Book, b': Book, symbol: string, qty: real, price: real, proceeds: real, clamps: bool) {
    && OthersHeld(b, b', symbol) && symbol in b.positions
    && b'.account.cash == b.account.cash + proceeds
    && var p := b.positions[symbol];
       && (symbol in b'.positions <==> p.qty - qty > 0.00001)
       && (symbol in b'.positions ==>
             var p' := b'.positions[symbol];
             var basis := p.costBasis - qty * p.avgEntryPrice;
             && p'.qty == p.qty - qty && p'.avgEntryPrice == p.avgEntryPrice && p'.currentPrice == price
             && p'.lastdayPrice == p.lastdayPrice && p'.costBasis == if clamps && basis < 0.0 then 0.0 else basis)
  }

  /** Nothing moves, the account is only valued. */
  ghost predicate OnlyMarked(b: Book, b': Book) {
    && Marked(b') && b'.account.cash == b.account.cash && b'.positions.Keys == b.positions.Keys
    && b'.account.shortMarketValue == b.account.shortMarketValue
    && forall s :: s in b.positions ==> SameHolding(b.positions[s], b'.positions[s])
  }

  lemma {:induction false} MarkMeans(p: Position)
    ensures MarkedPosition(Mark(p)) && SameHolding(p, Mark(p)) && Mark(p).marketValue == MarketValue()(p)
  {
    if p.costBasis > 0.0 {
      assert (p.qty * p.currentPrice - p.costBasis) / p.costBasis * p.costBasis == p.qty * p.currentPrice - p.costBasis;
    }
  }

  lemma {:induction false} RevalueMeans(b: Book)
    ensures OnlyMarked(b, Revalue(b))
  {
    forall s | s in b.positions
      ensures MarkedPosition(Mark(b.positions[s])) && SameHolding(b.positions[s], Mark(b.positions[s]))
      ensures Stated()(Mark(b.positions[s])) == MarketValue()(b.positions[s])
    {
      MarkMeans(b.positions[s]);
    }
    hide Mark, MarkedPosition, SameHolding, MarketValue, Stated, Sum;
    SumSame(Revalue(b).positions, b.positions, Stated(), MarketValue());
  }

  function Product(qty: real, price: real): (r: real) {
    qty * price
  }

  lemma {:induction false} CostIs(qty: real, price: real)
    ensures Cost(qty, price) == Product(qty, price)
  {
  }

  lemma {:induction false} QuotientTimesIs(a: real, b: real)
    requires b != 0.0
    ensures Quotient(a, b) * b == a
  {
  }

  lemma {:induction false} BuyHoldings(b: Book, cash: real, symbol: string, qty: real, price: real, topUp: real, lastday: real)
    requires cash == b.account.cash + topUp - Cost(qty, price)
    ensures Bought(b, Book(b.account.(cash := cash), BuyInto(b.positions, symbol, qty, price, lastday)),
                   symbol, qty, price, Cost(qty, price), topUp, lastday)
  {
    hide Quotient, Cost;
    if symbol in b.positions && b.positions[symbol].qty + qty != 0.0 {
      QuotientTimesIs(b.positions[symbol].costBasis + Cost(qty, price), b.positions[symbol].qty + qty);
    }
  }

  /** Valuing the account afterwards changes no holding. */
  lemma {:induction false} BoughtThenMarked(b: Book, c: Book, d: Book, symbol: string, qty: real, price: real, cost: real, topUp: real, lastday: real)
    requires Bought(b, c, symbol, qty, price, cost, topUp, lastday) && OnlyMarked(c, d)
    ensures Bought(b, d, symbol, qty, price, cost, topUp, lastday)
  {
    hide Marked;
  }

  lemma {:induction false} SoldThenMarked(b: Book, c: Book, d: Book, symbol: string, qty: real, price: real, proceeds: real, clamps: bool)
    requires Sold(b, c, symbol, qty, price, proceeds, clamps) && OnlyMarked(c, d)
    ensures Sold(b, d, symbol, qty, price, proceeds, clamps)
  {
    hide Marked;
  }

  lemma {:induction false} BuyMeans(b: Book, cash: real, symbol: string, qty: real, price: real, topUp: real, lastday: real)
    requires cash == b.account.cash + topUp - Cost(qty, price)
    ensures var r := Revalue(Book(b.account.(cash := cash), BuyInto(b.positions, symbol, qty, price, lastday)));
            Marked(r) && Bought(b, r, symbol, qty, price, Cost(qty, price), topUp, lastday)
  {
    hide Revalue, Marked, Bought, BuyInto, Cost;
    var bought := Book(b.account.(cash := cash), BuyInto(b.positions, symbol, qty, price, lastday));
    BuyHoldings(b, cash, symbol, qty, price, topUp, lastday);
    RevalueMeans(bought);
    BoughtThenMarked(b, bought, Revalue(bought), symbol, qty, price, Cost(qty, price), topUp, lastday);
  }

  lemma {:induction false} SellHoldings(b: Book, o: Order, price: real, now: int)
    requires o.symbol in b.positions && b.positions[o.symbol].qty >= o.qty
    ensures MarketSell(b, o, price, now).Some? && LimitSell(b, o, price, now).Some?
    ensures Sold(b, MarketSell(b, o, price, now).value.0, o.symbol, o.qty, price, Cost(o.qty, price), true)
    ensures Sold(b, LimitSell(b, o, price, now).value.0, o.symbol, o.qty, price, Cost(o.qty, price), false)
    ensures MarketSell(b, o, price, now).value.1 == LimitSell(b, o, price, now).value.1 == Fill(o, price, now)
  {
    var p := b.positions[o.symbol];
    assert Cost(o.qty, p.avgEntryPrice) == o.qty * p.avgEntryPrice;
    hide Cost;
  }

  lemma {:induction false} SellMeans(b: Book, o: Order, price: real, now: int)
    requires o.symbol in b.positions && b.positions[o.symbol].qty >= o.qty
    ensures MarketSell(b, o, price, now).Some? && LimitSell(b, o, price, now).Some?
    ensures MarketSell(b, o, price, now).value.1 == LimitSell(b, o, price, now).value.1 == Fill(o, price, now)
    ensures var r := Revalue(MarketSell(b, o, price, now).value.0); Marked(r) && Sold(b, r, o.symbol, o.qty, price, Cost(o.qty, price), true)
    ensures var r := Revalue(LimitSell(b, o, price, now).value.0); Marked(r) && Sold(b, r, o.symbol, o.qty, price, Cost(o.qty, price), false)
  {
    hide Sold, Revalue, Marked, MarketSell, LimitSell, Cost;
    SellHoldings(b, o, price, now);
    var m, n := MarketSell(b, o, price, now).value.0, LimitSell(b, o, price, now).value.0;
    RevalueMeans(m);
    RevalueMeans(n);
    SoldThenMarked(b, m, Revalue(m), o.symbol, o.qty, price, Cost(o.qty, price), true);
    SoldThenMarked(b, n, Revalue(n), o.symbol, o.qty, price, Cost(o.qty, price), false);
  }

  // ---- Placing an order ----

  /** The first positive of two prices, zero if there is none. */
  function FirstPositive(price: real, other: real): (r: real) {
    if price > 0.0 then price else if other > 0.0 then other else 0.0
  }

  /** What replenishment puts in for a buy the cash does not cover: the shortfall and 50,000 more. */
  function PutIn(cash: real, cost: real): (r: real) {
    if cash < cost then cost - cash + 50_000.0 else 0.0
  }

  /** Why an order is refused, in the order of the checks; buyCost is what a market buy would cost. */
  ghost function Refusal(l: Ledger, a: string, req: Request, quote: Quote, buyCost: real): (r: Option<Error>) {
    var held := if a in l.positions then l.positions[a] else map[];
    if a !in l.accounts then Some(AccountNotFound)
    else if req.symbol == "" || req.qty <= 0.0 then Some(InvalidOrderPayload)
    else if req.side != "buy" && req.side != "sell" then Some(InvalidSide)
    else if req.orderType != "market" && req.orderType != "" then None
    else if quote.ask <= 0.0 && quote.bid <= 0.0 then Some(QuoteUnavailable)
    else if req.side == "buy" && l.accounts[a].cash < buyCost && !l.autoReplenish then Some(InsufficientCash)
    else if req.side == "sell" && (req.symbol !in held || held[req.symbol].qty < req.qty) then Some(InsufficientShares)
    else None
  }

  /** The record of an order, filled in full at a price or not at all. */
  ghost predicate RecordOf(o: Order, req: Request, now: int, filledAt: Option<real>) {
    && o.symbol == req.symbol && o.qty == req.qty && o.limitPrice == req.limitPrice && o.createdAt == o.updatedAt == now
    && (o.side == Buy <==> req.side == "buy") && o.canceledAt == None
    && (o.orderType == Market <==> req.orderType == "market" || req.orderType == "")
    && (o.orderType == Limit <==> req.orderType == "limit")
    && o.filledAvgPrice == filledAt
    && (filledAt.Some? ==> o.status == Filled && o.filledQty == req.qty && o.filledAt == Some(now))
    && (filledAt.None? ==> o.status == (if req.orderType == "limit" then Accepted else New) && o.filledQty == 0.0 && o.filledAt == None)
  }

  /** All that placing an order does: a market buy is at the ask, a sell at the bid, at the other price if that is not positive. */
  ghost predicate Ordered(l: Ledger, l': Ledger, result: Result<Order, Error>, a: string, req: Request, quote: Quote, now: int, id: string) {
    var buyAt, sellAt := FirstPositive(quote.ask, quote.bid), FirstPositive(quote.bid, quote.ask);
    OrderedFor(l, l', result, a, req, quote, now, id, Product(req.qty, buyAt), Product(req.qty, sellAt))
  }

  ghost predicate OrderedFor(l: Ledger, l': Ledger, result: Result<Order, Error>, a: string, req: Request, quote: Quote, now: int, id: string,
                             buyCost: real, proceeds: real) {
    && l'.autoReplenish == l.autoReplenish
    && (forall c :: c != a ==> BookOf(l', c) == BookOf(l, c))
    && match Refusal(l, a, req, quote, buyCost)
       case Some(e) => result == Err(e) && BookOf(l', a) == BookOf(l, a) && l'.orders == l.orders && l'.accountOrders == l.accountOrders
       case None =>
         && result.Ok? && l'.orders == l.orders[id := result.value]
         && l'.accountOrders == l.accountOrders[a := [id] + if a in l.accountOrders then l.accountOrders[a] else []]
         && PlacedAs(BookOf(l, a), BookOf(l', a), result.value, req, quote, now, buyCost, proceeds)
  }

  /** The record and the book. */
  ghost predicate PlacedAs(b: Book, b': Book, o: Order, req: Request, quote: Quote, now: int, buyCost: real, proceeds: real) {
    var buyAt, sellAt := FirstPositive(quote.ask, quote.bid), FirstPositive(quote.bid, quote.ask);
    && Marked(b')
    && if req.orderType != "market" && req.orderType != "" then RecordOf(o, req, now, None) && OnlyMarked(b, b')
       else if req.side == "buy" then
         RecordOf(o, req, now, Some(buyAt))
         && Bought(b, b', req.symbol, req.qty, buyAt, buyCost, PutIn(b.account.cash, buyCost), buyAt * 0.99)
       else RecordOf(o, req, now, Some(sellAt)) && Sold(b, b', req.symbol, req.qty, sellAt, proceeds, true)
  }

  /** A parsed order: what the request says, not yet filled. */
  ghost predicate ParsedFrom(o: Order, req: Request, now: int) {
    && o.symbol == req.symbol && o.qty == req.qty && o.qty > 0.0 && o.limitPrice == req.limitPrice
    && o.status == New && o.filledQty == 0.0 && o.filledAvgPrice == None && o.filledAt == None
    && o.canceledAt == None && o.createdAt == o.updatedAt == now
    && (o.side == Buy <==> req.side == "buy") && (o.side == Sell <==> req.side == "sell")
    && (o.orderType == Market <==> req.orderType == "market" || req.orderType == "")
    && (o.orderType == Limit <==> req.orderType == "limit")
    && req.symbol != "" && (req.side == "buy" || req.side == "sell")
  }

  lemma {:induction false} ParseMeans(l: Ledger, a: string, req: Request, quote: Quote, now: int, buyCost: real)
    requires a in l.accounts
    ensures ParseOrder(req, now).Err? ==> Refusal(l, a, req, quote, buyCost) == Some(ParseOrder(req, now).error)
    ensures ParseOrder(req, now).Ok? ==> ParsedFrom(ParseOrder(req, now).value, req, now)
  {
  }

  lemma {:induction false} MarketBuyMeans(b: Book, o: Order, price: real, autoReplenish: bool, now: int)
    ensures MarketBuy(b, o, price, autoReplenish, now).None? <==> b.account.cash < Cost(o.qty, price) && !autoReplenish
    ensures MarketBuy(b, o, price, autoReplenish, now).Some? ==>
              var (c, o') := MarketBuy(b, o, price, autoReplenish, now).value;
              var topUp := PutIn(b.account.cash, Cost(o.qty, price));
              && o' == Fill(o, price, now) && Marked(Revalue(c))
              && Bought(b, Revalue(c), o.symbol, o.qty, price, Cost(o.qty, price), topUp, price * 0.99)
  {
    hide Revalue, Marked, Bought, BuyInto, Cost;
    var topUp := PutIn(b.account.cash, Cost(o.qty, price));
    var cash := b.account.cash + topUp - Cost(o.qty, price);
    BuyMeans(b, cash, o.symbol, o.qty, price, topUp, price * 0.99);
    if MarketBuy(b, o, price, autoReplenish, now).Some? {
      var c := MarketBuy(b, o, price, autoReplenish, now).value.0;
      assert c.account.cash == cash;
      assert c == Book(b.account.(cash := cash), BuyInto(b.positions, o.symbol, o.qty, price, price * 0.99));
    }
  }

  /** A market order against its book. */
  lemma {:induction false} MarketMeans(l: Ledger, a: string, req: Request, o: Order, quote: Quote, now: int)
    requires a in l.accounts && ParsedFrom(o, req, now) && o.orderType == Market
    ensures var buyCost := Cost(req.qty, FirstPositive(quote.ask, quote.bid));
            var proceeds := Cost(req.qty, FirstPositive(quote.bid, quote.ask));
            match ExecuteMarket(BookOf(l, a), o, quote, l.autoReplenish, now)
            case Err(e) => Refusal(l, a, req, quote, buyCost) == Some(e)
            case Ok((c, o')) =>
              Refusal(l, a, req, quote, buyCost) == None && PlacedAs(BookOf(l, a), Revalue(c), o', req, quote, now, buyCost, proceeds)
  {
    var b := BookOf(l, a);
    hide Revalue, Marked, Bought, Sold, OnlyMarked, Cost, MarketBuy, PutIn;
    if MarketPrice(o.side, quote).Some? {
      var price := MarketPrice(o.side, quote).value;
      assert price == if o.side == Buy then FirstPositive(quote.ask, quote.bid) else FirstPositive(quote.bid, quote.ask);
      if o.side == Buy {
        MarketBuyMeans(b, o, price, l.autoReplenish, now);
      } else if o.symbol in b.positions && b.positions[o.symbol].qty >= o.qty {
        SellMeans(b, o, price, now);
        hide MarketSell;
      }
    }
  }

  /** What recording a placed order does to the ledger around the book. */
  lemma {:induction false} PlacedLedger(l: Ledger, a: string, c: Book, id: string, o: Order)
    ensures var l1 := l.(positions := l.positions[a := PositionsOf(l, a)]);
            var l' := WithBook(l1, a, c).(orders := l.orders[id := o], accountOrders := l.accountOrders[a := [id] + OrderIds(l, a)]);
            && BookOf(l1, a) == BookOf(l, a) && BookOf(l', a) == c
            && forall x :: x != a ==> BookOf(l', x) == BookOf(l, x) && BookOf(l1, x) == BookOf(l, x)
  {
  }

  lemma {:induction false} OrderMeansFor(l: Ledger, a: string, req: Request, quote: Quote, now: int, id: string)
    ensures var (l', r) := CreateOrderStep(l, a, req, quote, now, id);
            OrderedFor(l, l', r, a, req, quote, now, id,
                       Cost(req.qty, FirstPositive(quote.ask, quote.bid)), Cost(req.qty, FirstPositive(quote.bid, quote.ask)))
  {
    hide Revalue, ExecuteMarket, ParseOrder, Cost, FirstPositive, Bought, Sold, Marked, MarketPrice;
    if a in l.accounts {
      var buyCost, b := Cost(req.qty, FirstPositive(quote.ask, quote.bid)), BookOf(l, a);
      ParseMeans(l, a, req, quote, now, buyCost);
      PlacedLedger(l, a, b, id, NOTHING);
      if ParseOrder(req, now).Ok? {
        var o := ParseOrder(req, now).value;
        if o.orderType == Market {
          MarketMeans(l, a, req, o, quote, now);
          hide PlacedAs, Refusal;
          if ExecuteMarket(b, o, quote, l.autoReplenish, now).Ok? {
            var (c, o') := ExecuteMarket(b, o, quote, l.autoReplenish, now).value;
            PlacedLedger(l, a, Revalue(c), id, o');
            hide BookOf, PositionsOf, WithBook;
          }
        } else {
          RevalueMeans(b);
          var o' := if o.orderType == Limit then o.(status := Accepted) else o;
          assert Place(b, o, quote, l.autoReplenish, now) == Ok((b, o'));
          PlacedLedger(l, a, Revalue(b), id, o');
          hide BookOf, PositionsOf, WithBook, OnlyMarked;
        }
      }
    }
  }

  const NOTHING := Order("", 0.0, 0.0, Market, Buy, None, None, None, None, 0, 0, New)

  /** What was asked is what is done: the reply, the record and the book after placing an order. */
  lemma {:induction false} OrderMeans(l: Ledger, a: string, req: Request, quote: Quote, now: int, id: string)
    ensures var (l', r) := CreateOrderStep(l, a, req, quote, now, id);
            Ordered(l, l', r, a, req, quote, now, id)
  {
    hide OrderedFor, CreateOrderStep, FirstPositive;
    OrderMeansFor(l, a, req, quote, now, id);
    CostIs(req.qty, FirstPositive(quote.ask, quote.bid));
    CostIs(req.qty, FirstPositive(quote.bid, quote.ask));
    hide Cost, Product;
  }

  // ---- The other operations ----

  /** The price an accepted limit order crosses at: a buy the ask, a sell the bid. */
  ghost function CrossedAt(o: Order, quotes: map<string, Quote>): (r: Option<real>) {
    if o.status != Accepted || o.orderType != Limit || o.limitPrice == None || o.symbol !in quotes then None
    else if o.side == Buy then
      if 0.0 < quotes[o.symbol].ask <= o.limitPrice.value then Some(quotes[o.symbol].ask) else None
    else
      if 0.0 < quotes[o.symbol].bid && o.limitPrice.value <= quotes[o.symbol].bid then Some(quotes[o.symbol].bid) else None
  }

  /** Whether the account can cover it: the cash for a buy, the shares for a sell. */
  ghost predicate Covers(b: Book, o: Order, cost: real) {
    if o.side == Buy then b.account.cash >= cost
    else o.symbol in b.positions && b.positions[o.symbol].qty >= o.qty
  }

  /** An order of account a filled by the matcher at a price, for its cost or proceeds; nothing if it is not covered. */
  ghost predicate LimitFilled(l: Ledger, l': Ledger, a: string, id: string, price: real, cost: real, now: int)
    requires id in l.orders
  {
    var o, b, b' := l.orders[id], BookOf(l, a), BookOf(l', a);
    if !Covers(b, o, cost) then l' == l
    else
      && l'.accountOrders == l.accountOrders && l'.autoReplenish == l.autoReplenish
      && (forall c :: c != a ==> BookOf(l', c) == BookOf(l, c))
      && l'.orders == l.orders[id := o.(status := Filled, filledQty := o.qty, filledAvgPrice := Some(price), filledAt := Some(now))]
      && Marked(b')
      && if o.side == Buy then Bought(b, b', o.symbol, o.qty, price, cost, 0.0, 0.0)
         else Sold(b, b', o.symbol, o.qty, price, cost, false)
  }

  /** One visit of the limit matcher to an order of account a. */
  ghost predicate LimitVisited(l: Ledger, l': Ledger, a: string, id: string, quotes: map<string, Quote>, now: int)
    requires id in l.orders
  {
    match CrossedAt(l.orders[id], quotes)
    case None => l' == l
    case Some(price) => LimitFilled(l, l', a, id, price, Product(l.orders[id].qty, price), now)
  }

  lemma {:induction false} CrossedMeans(o: Order, quotes: map<string, Quote>)
    ensures LimitPriceDue(o, quotes) == CrossedAt(o, quotes)
  {
  }

  lemma {:induction false} SweepAt(l: Ledger, a: string, id: string, quotes: map<string, Quote>, now: int)
    requires WellFormed(l) && Owns(l, a, id) && id in l.orders
    ensures SweepOne(l, id, quotes, now)
         == match LimitPriceDue(l.orders[id], quotes) case None => l case Some(price) => FillLimit(l, a, id, price, now)
  {
    hide FillLimit, LimitPriceDue;
  }

  lemma {:induction false} FilledBook(b: Book, o: Order, price: real, now: int)
    ensures var fill := if o.side == Buy then LimitBuy(b, o, price, now) else LimitSell(b, o, price, now);
            && (fill.Some? <==> Covers(b, o, Cost(o.qty, price)))
            && (fill.Some? ==>
                  && fill.value.1 == o.(status := Filled, filledQty := o.qty, filledAvgPrice := Some(price), filledAt := Some(now))
                  && Marked(Revalue(fill.value.0))
                  && if o.side == Buy then Bought(b, Revalue(fill.value.0), o.symbol, o.qty, price, Cost(o.qty, price), 0.0, 0.0)
                     else Sold(b, Revalue(fill.value.0), o.symbol, o.qty, price, Cost(o.qty, price), false))
  {
    hide Revalue, Bought, Sold, Marked, BuyInto, Cost, SellFrom;
    if o.side == Buy {
      var cash := b.account.cash - Cost(o.qty, price);
      BuyMeans(b, cash, o.symbol, o.qty, price, 0.0, 0.0);
    } else if o.symbol in b.positions && b.positions[o.symbol].qty >= o.qty {
      SellMeans(b, o, price, now);
      hide LimitSell;
    }
  }

  lemma {:induction false} FilledLedger(l: Ledger, a: string, c: Book, id: string, o: Order)
    ensures var l' := WithBook(l, a, c).(orders := l.orders[id := o]);
            BookOf(l', a) == c && forall x :: x != a ==> BookOf(l', x) == BookOf(l, x)
  {
  }

  /** The matcher fills exactly what is crossed and covered, buys at the ask and sells at the bid. */
  lemma {:induction false} LimitMeans(l: Ledger, a: string, id: string, quotes: map<string, Quote>, now: int)
    requires WellFormed(l) && Owns(l, a, id) && id in l.orders
    ensures LimitVisited(l, SweepOne(l, id, quotes, now), a, id, quotes, now)
  {
    hide WellFormed, Owns, SweepOne, LimitPriceDue, CrossedAt, FillLimit, LimitFilled, BookOf;
    CrossedMeans(l.orders[id], quotes);
    SweepAt(l, a, id, quotes, now);
    if LimitPriceDue(l.orders[id], quotes).Some? {
      var price := LimitPriceDue(l.orders[id], quotes).value;
      FillMeans(l, a, id, price, now);
      CostIs(l.orders[id].qty, price);
      hide Cost, Product;
    }
  }

  lemma {:induction false} FillMeans(l: Ledger, a: string, id: string, price: real, now: int)
    requires id in l.orders
    ensures LimitFilled(l, FillLimit(l, a, id, price, now), a, id, price, Cost(l.orders[id].qty, price), now)
  {
    var o, b := l.orders[id], BookOf(l, a);
    hide Revalue, Bought, Sold, Marked, Covers, LimitBuy, LimitSell, Cost;
    FilledBook(b, o, price, now);
    var fill := if o.side == Buy then LimitBuy(b, o, price, now) else LimitSell(b, o, price, now);
    if fill.Some? {
      FilledLedger(l, a, Revalue(fill.value.0), id, fill.value.1);
      hide BookOf;
    }
  }

  /** A cancellation succeeds exactly for an order that is there and neither filled nor canceled. */
  ghost predicate CanceledIn(l: Ledger, l': Ledger, result: Result<Order, Error>, id: string, now: int) {
    if id !in l.orders then result == Err(OrderNotFound) && l' == l
    else if l.orders[id].status == Filled || l.orders[id].status == Canceled then result == Err(OrderCannotBeCanceled) && l' == l
    else
      && result == Ok(l.orders[id].(status := Canceled, canceledAt := Some(now), updatedAt := now))
      && l' == l.(orders := l.orders[id := result.value])
  }

  lemma {:induction false} CancelMeans(l: Ledger, id: string, now: int)
    ensures var (l', r) := CancelStep(l, id, now); CanceledIn(l, l', r, id, now)
  {
  }

  /** One position before and after a repricing. */
  ghost predicate RepricedTo(p: Position, p': Position, price: Option<real>) {
    && p'.qty == p.qty && p'.avgEntryPrice == p.avgEntryPrice && p'.costBasis == p.costBasis && p'.lastdayPrice == p.lastdayPrice
    && p'.currentPrice == (if price.Some? then price.value else p.currentPrice)
    && (price.Some? && p.lastdayPrice > 0.0 ==> p'.changeToday * p.lastdayPrice == price.value - p.lastdayPrice)
    && (price.None? || p.lastdayPrice <= 0.0 ==> p'.changeToday == p.changeToday)
  }

  /** All that a repricing does to one account. */
  ghost predicate RepricedIn(b: Book, b': Book, prices: map<string, real>) {
    && Marked(b') && b'.account.cash == b.account.cash && b'.account.shortMarketValue == b.account.shortMarketValue
    && b'.positions.Keys == b.positions.Keys
    && forall s :: s in b.positions ==>
         RepricedTo(b.positions[s], b'.positions[s], PriceNow(s, prices))
  }

  lemma {:induction false} RepricedMeans(p: Position, symbol: string, prices: map<string, real>)
    ensures RepricedTo(p, Repriced(p, symbol, prices), PriceNow(symbol, prices))
  {
    if symbol in prices && p.lastdayPrice > 0.0 {
      assert (prices[symbol] - p.lastdayPrice) / p.lastdayPrice * p.lastdayPrice == prices[symbol] - p.lastdayPrice;
    }
  }

  lemma {:induction false} RepricedThenMarked(p: Position, q: Position, r: Position, price: Option<real>)
    requires RepricedTo(p, q, price) && SameHolding(q, r)
    ensures RepricedTo(p, r, price)
  {
  }

  lemma {:induction false} RepricedBook(l: Ledger, a: string, prices: map<string, real>)
    requires a in l.accounts
    ensures BookOf(UpdateValuationsStep(l, prices), a) == Revalue(Book(BookOf(l, a).account, RepriceAll(PositionsOf(l, a), prices)))
  {
    hide Sum, Mark, Repriced;
    assert a !in l.positions ==> RepriceAll(PositionsOf(l, a), prices) == map[];
    assert a !in l.positions ==> MarkAll(RepriceAll(PositionsOf(l, a), prices)) == map[];
  }

  ghost function PriceNow(s: string, prices: map<string, real>): (r: Option<real>) {
    if s in prices && prices[s] > 0.0 then Some(prices[s]) else None
  }

  lemma {:induction false} RepricedAt(b: Book, prices: map<string, real>, s: string)
    requires s in b.positions
    ensures var repriced := Book(b.account, RepriceAll(b.positions, prices));
            s in Revalue(repriced).positions && RepricedTo(b.positions[s], Revalue(repriced).positions[s], PriceNow(s, prices))
  {
    RepricedMeans(b.positions[s], s, prices);
    MarkMeans(Repriced(b.positions[s], s, prices));
    hide Repriced, Mark, MarkedPosition, RepricedTo, SameHolding, Sum;
    var repriced := Book(b.account, RepriceAll(b.positions, prices));
    assert Revalue(repriced).positions[s] == Mark(Repriced(b.positions[s], s, prices));
    RepricedThenMarked(b.positions[s], repriced.positions[s], Revalue(repriced).positions[s], PriceNow(s, prices));
  }

  lemma {:induction false} RepriceMeans(l: Ledger, a: string, prices: map<string, real>)
    requires a in l.accounts
    ensures RepricedIn(BookOf(l, a), BookOf(UpdateValuationsStep(l, prices), a), prices)
  {
    var b := BookOf(l, a);
    var repriced := Book(b.account, RepriceAll(b.positions, prices));
    RepricedBook(l, a, prices);
    RevalueMeans(repriced);
    hide Revalue, Marked, UpdateValuationsStep, BookOf, Repriced, RepricedTo, SameHolding, PriceNow;
    forall s | s in b.positions
      ensures s in Revalue(repriced).positions && RepricedTo(b.positions[s], Revalue(repriced).positions[s], PriceNow(s, prices))
    {
      RepricedAt(b, prices, s);
    }
  }

  /** Opening an account: derived balances from the given ones, positions that are there stay. */
  ghost predicate OpenedIn(l: Ledger, l': Ledger, a: string, given: Account) {
    && l'.accounts
    == l.accounts[a := Account(given.cash, given.longMarketValue, given.shortMarketValue,
                               given.cash + given.longMarketValue - given.shortMarketValue,
                               given.cash + given.longMarketValue - given.shortMarketValue, given.cash * 2.0)]
    && l'.positions == (if a in l.positions then l.positions else l.positions[a := map[]])
    && l'.orders == l.orders && l'.accountOrders == l.accountOrders && l'.autoReplenish == l.autoReplenish
  }

  lemma {:induction false} OpenMeans(l: Ledger, a: string, given: Account)
    ensures OpenedIn(l, CreateAccountStep(l, a, given), a, given)
  {
  }

  /** A replenishment adds the amount to cash and revalues, or reports the missing account. */
  ghost predicate ReplenishedIn(l: Ledger, l': Ledger, result: Result<(), Error>, a: string, amount: real) {
    && l'.orders == l.orders && l'.accountOrders == l.accountOrders && l'.autoReplenish == l.autoReplenish
    && (forall c :: c != a ==> BookOf(l', c) == BookOf(l, c))
    && if a !in l.accounts then result == Err(AccountNotFound) && l' == l
       else
         var b := BookOf(l, a);
         result == Ok(()) && OnlyMarked(b.(account := b.account.(cash := b.account.cash + amount)), BookOf(l', a))
  }

  lemma {:induction false} ReplenishMeans(l: Ledger, a: string, amount: real)
    ensures var (l', r) := ReplenishStep(l, a, amount); ReplenishedIn(l, l', r, a, amount)
  {
    var b := BookOf(l, a);
    RevalueMeans(b.(account := b.account.(cash := b.account.cash + amount)));
    hide Revalue, OnlyMarked;
  }
}
