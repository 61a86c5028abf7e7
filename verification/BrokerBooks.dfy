/**
 * One brokerage account: its balances, its positions and the two ways an order fills, with
 * the accounting identities every fill keeps. Money, prices and quantities are real.
 */
module BrokerBooks {
  import opened MapSums
  import opened Wrappers

  const DUST: real := 0.00001
  const TOP_UP: real := 50000.0

  datatype Side = Buy | Sell
  datatype OrderType = Market | Limit | Unsupported(name: string)
  datatype Status = New | Accepted | Filled | Canceled

  datatype Account = Account(
    cash: real, longMarketValue: real, shortMarketValue: real, equity: real, portfolioValue: real, buyingPower: real)

  datatype Position = Position(
    qty: real, avgEntryPrice: real, costBasis: real, currentPrice: real, lastdayPrice: real,
    marketValue: real, unrealizedPL: real, unrealizedPLPC: real, changeToday: real)

  datatype Order = Order(
    symbol: string, qty: real, filledQty: real, orderType: OrderType, side: Side, limitPrice: Option<real>,
    filledAvgPrice: Option<real>, filledAt: Option<int>, canceledAt: Option<int>, createdAt: int, updatedAt: int, status: Status)

  datatype Quote = Quote(bid: real, ask: real)

  /** An account with its positions by symbol. */
  datatype Book = Book(account: Account, positions: map<string, Position>)

  // ---- Valuation ----

  ghost function MarketValue(): (f: Position -> real) {
    (p: Position) => p.qty * p.currentPrice
  }

  ghost function Basis(): (f: Position -> real) {
    (p: Position) => p.costBasis
  }

  function Quotient(a: real, b: real): (r: real) {
    if b == 0.0 then 0.0 else a / b
  }

  function Mark(p: Position): (r: Position) {
    var value := p.qty * p.currentPrice;
    var gain := value - p.costBasis;
    p.(marketValue := value, unrealizedPL := gain,
       unrealizedPLPC := if p.costBasis > 0.0 then gain / p.costBasis else p.unrealizedPLPC)
  }

  function MarkAll(positions: map<string, Position>): (r: map<string, Position>) {
    map s | s in positions :: Mark(positions[s])
  }

  /** recalculateAccountValuation. */
  ghost function Revalue(b: Book): (r: Book) {
    var long := Sum(b.positions, MarketValue());
    var equity := b.account.cash + long;
    Book(b.account.(longMarketValue := long, equity := equity, portfolioValue := equity, buyingPower := b.account.cash * 2.0),
         MarkAll(b.positions))
  }

  /** Equity is cash plus the positions at their current prices, buying power twice the cash. */
  ghost predicate Valued(b: Book) {
    && b.account.equity == b.account.cash + Sum(b.positions, MarketValue())
    && b.account.buyingPower == 2.0 * b.account.cash
  }

  lemma {:induction false} RevalueValues(b: Book)
    ensures Valued(Revalue(b))
    ensures Revalue(b).account.cash == b.account.cash
    ensures Sum(Revalue(b).positions, Basis()) == Sum(b.positions, Basis())
    ensures Sum(Revalue(b).positions, MarketValue()) == Sum(b.positions, MarketValue())
  {
    SumSame(MarkAll(b.positions), b.positions, MarketValue(), MarketValue());
    SumSame(MarkAll(b.positions), b.positions, Basis(), Basis());
  }

  // ---- Fills ----

  /** A fill's effect on the order. */
  function Fill(o: Order, price: real, now: int): (r: Order) {
    o.(status := Filled, filledQty := o.qty, filledAvgPrice := Some(price), filledAt := Some(now))
  }

  function Cost(qty: real, price: real): (r: real) {
    qty * price
  }

  /** The cost basis left after a sale. */
  function Reduced(p: Position, qty: real): (r: real) {
    p.costBasis - Cost(qty, p.avgEntryPrice)
  }

  /** A buy into a position, opening it if it is not there. */
  function BuyInto(positions: map<string, Position>, symbol: string, qty: real, price: real, lastdayPrice: real): (r: map<string, Position>) {
    var cost := Cost(qty, price);
    if symbol !in positions then
      positions[symbol := Position(qty, price, cost, price, lastdayPrice, 0.0, 0.0, 0.0, 0.0)]
    else
      var p := positions[symbol];
      positions[symbol := p.(qty := p.qty + qty, costBasis := p.costBasis + cost,
                             avgEntryPrice := Quotient(p.costBasis + cost, p.qty + qty), currentPrice := price)]
  }

  /** A sale out of a position; a remainder of at most DUST is dropped with its position. */
  function SellFrom(positions: map<string, Position>, symbol: string, qty: real, price: real): (r: map<string, Position>)
    requires symbol in positions
    ensures forall s :: s in r ==> s in positions && r[s].avgEntryPrice == positions[s].avgEntryPrice
  {
    var p := positions[symbol];
    if p.qty - qty <= DUST then positions - {symbol}
    else positions[symbol := p.(qty := p.qty - qty, costBasis := Reduced(p, qty), currentPrice := price)]
  }

  /** executeMarketBuy at a price: with replenishment on, a shortfall is topped up first. */
  function MarketBuy(b: Book, o: Order, price: real, autoReplenish: bool, now: int): (r: Option<(Book, Order)>) {
    var totalCost := Cost(o.qty, price);
    if b.account.cash < totalCost && !autoReplenish then None
    else
      var cash := if b.account.cash < totalCost then b.account.cash + (totalCost - b.account.cash + TOP_UP) else b.account.cash;
      Some((Book(b.account.(cash := cash - totalCost), BuyInto(b.positions, o.symbol, o.qty, price, price * 0.99)),
            Fill(o, price, now)))
  }

  /** executeMarketSell at a price, with its clamp of a negative cost basis to zero. */
  function MarketSell(b: Book, o: Order, price: real, now: int): (r: Option<(Book, Order)>)
    ensures r.Some? ==> forall s :: s in r.value.0.positions ==>
              s in b.positions && r.value.0.positions[s].avgEntryPrice == b.positions[s].avgEntryPrice
  {
    if o.symbol !in b.positions || b.positions[o.symbol].qty < o.qty then None
    else
      var p := b.positions[o.symbol];
      var reduced := Reduced(p, o.qty);
      var p' := p.(qty := p.qty - o.qty, costBasis := if reduced < 0.0 then 0.0 else reduced, currentPrice := price);
      var positions := if p'.qty <= DUST then b.positions - {o.symbol} else b.positions[o.symbol := p'];
      Some((Book(b.account.(cash := b.account.cash + Cost(o.qty, price)), positions), Fill(o, price, now)))
  }

  /** The limit matcher's buy. */
  function LimitBuy(b: Book, o: Order, price: real, now: int): (r: Option<(Book, Order)>) {
    var cost := Cost(o.qty, price);
    if b.account.cash >= cost then
      Some((Book(b.account.(cash := b.account.cash - cost), BuyInto(b.positions, o.symbol, o.qty, price, 0.0)), Fill(o, price, now)))
    else None
  }

  /** The limit matcher's sale. */
  function LimitSell(b: Book, o: Order, price: real, now: int): (r: Option<(Book, Order)>) {
    if o.symbol in b.positions && b.positions[o.symbol].qty >= o.qty then
      Some((Book(b.account.(cash := b.account.cash + Cost(o.qty, price)), SellFrom(b.positions, o.symbol, o.qty, price)),
            Fill(o, price, now)))
    else None
  }

  /** A market order fills at its own side of the quote, at the other side if that one is not positive. */
  function MarketPrice(side: Side, q: Quote): (r: Option<real>) {
    var own, other := if side == Buy then q.ask else q.bid, if side == Buy then q.bid else q.ask;
    if own > 0.0 then Some(own) else if other > 0.0 then Some(other) else None
  }

  // ---- Positions at average cost ----

  ghost predicate AverageCost(p: Position) {
    p.qty > 0.0 && p.avgEntryPrice > 0.0 && p.costBasis == p.qty * p.avgEntryPrice
  }

  ghost predicate AllAverageCost(positions: map<string, Position>) {
    forall s :: s in positions ==> AverageCost(positions[s])
  }

  lemma {:induction false} MulOrder(a: real, x: real, y: real)
    requires a >= 0.0 && x <= y
    ensures a * x <= a * y
  {
  }

  lemma {:induction false} QuotientTimes(a: real, b: real)
    requires b > 0.0
    ensures b * Quotient(a, b) == a
  {
  }

  lemma {:induction false} MulStrict(b: real, x: real, y: real)
    requires b > 0.0 && x < y
    ensures b * x < b * y
  {
  }

  lemma {:induction false} CancelFactor(b: real, x: real, y: real)
    requires b > 0.0 && b * x <= b * y
    ensures x <= y
  {
    if y < x {
      MulStrict(b, y, x);
    }
  }

  lemma {:induction false} QuotientBetween(a: real, b: real, lo: real, hi: real)
    requires b > 0.0 && b * lo <= a <= b * hi
    ensures lo <= Quotient(a, b) <= hi
  {
    QuotientTimes(a, b);
    CancelFactor(b, lo, Quotient(a, b));
    CancelFactor(b, Quotient(a, b), hi);
  }

  lemma {:induction false} WeightedAtLeast(q0: real, a0: real, q: real, price: real, lo: real)
    requires q0 > 0.0 && q > 0.0 && lo <= a0 && lo <= price
    ensures (q0 + q) * lo <= q0 * a0 + q * price
  {
    MulOrder(q0, lo, a0);
    MulOrder(q, lo, price);
  }

  lemma {:induction false} WeightedAtMost(q0: real, a0: real, q: real, price: real, hi: real)
    requires q0 > 0.0 && q > 0.0 && a0 <= hi && price <= hi
    ensures q0 * a0 + q * price <= (q0 + q) * hi
  {
    MulOrder(q0, a0, hi);
    MulOrder(q, price, hi);
  }

  /** A weighted average lies between the prices it averages. */
  lemma {:induction false} AverageBetween(q0: real, a0: real, q: real, price: real, lo: real, hi: real)
    requires q0 > 0.0 && q > 0.0 && lo <= a0 <= hi && lo <= price <= hi
    ensures lo <= Quotient(q0 * a0 + q * price, q0 + q) <= hi
  {
    hide Quotient;
    WeightedAtLeast(q0, a0, q, price, lo);
    WeightedAtMost(q0, a0, q, price, hi);
    QuotientBetween(q0 * a0 + q * price, q0 + q, lo, hi);
  }

  /** Selling part of a position leaves the basis at the average cost of the rest: the clamp is never taken. */
  lemma {:induction false} NoClamp(p: Position, qty: real)
    requires AverageCost(p) && qty <= p.qty
    ensures Reduced(p, qty) == (p.qty - qty) * p.avgEntryPrice >= 0.0
  {
    assert (p.qty - qty) * p.avgEntryPrice == p.qty * p.avgEntryPrice - qty * p.avgEntryPrice;
    MulOrder(p.avgEntryPrice, 0.0, p.qty - qty);
  }

  // ---- The two fill implementations agree ----

  /** Equal but for the previous day's price of one symbol. */
  ghost predicate SameButLastday(b: Book, c: Book, symbol: string) {
    && b.account == c.account && b.positions.Keys == c.positions.Keys
    && forall s :: s in b.positions ==>
         b.positions[s] == if s == symbol then c.positions[s].(lastdayPrice := b.positions[s].lastdayPrice) else c.positions[s]
  }

  /** Revaluation reads every field but the previous day's price. */
  lemma {:induction false} RevalueSame(b: Book, c: Book, symbol: string)
    requires SameButLastday(b, c, symbol)
    ensures SameButLastday(Revalue(b), Revalue(c), symbol)
  {
    SumSame(b.positions, c.positions, MarketValue(), MarketValue());
  }

  lemma {:induction false} BuysAgree(b: Book, o: Order, price: real, now: int)
    requires MarketBuy(b, o, price, false, now).Some?
    ensures LimitBuy(b, o, price, now).Some?
    ensures MarketBuy(b, o, price, false, now).value.1 == LimitBuy(b, o, price, now).value.1
    ensures SameButLastday(MarketBuy(b, o, price, false, now).value.0, LimitBuy(b, o, price, now).value.0, o.symbol)
    ensures o.symbol in b.positions ==>
              MarketBuy(b, o, price, false, now).value.0 == LimitBuy(b, o, price, now).value.0
  {
    hide Cost, Quotient;
  }

  lemma {:induction false} SellsAgree(b: Book, o: Order, price: real, now: int)
    requires AllAverageCost(b.positions)
    ensures MarketSell(b, o, price, now) == LimitSell(b, o, price, now)
  {
    hide Cost, Reduced;
    if o.symbol in b.positions && b.positions[o.symbol].qty >= o.qty {
      NoClamp(b.positions[o.symbol], o.qty);
    }
  }

  lemma {:induction false} BuysTogether(b: Book, o: Order, price: real, now: int)
    ensures MarketBuy(b, o, price, false, now).Some? <==> LimitBuy(b, o, price, now).Some?
  {
  }

  /**
   * With replenishment off, a limit fill and a market fill at the same price both happen or
   * both do not, and leave the same order, cash and positions, before and after revaluation,
   * but for the previous day's price of a newly opened position.
   */
  lemma {:induction false} FillsAgree(b: Book, o: Order, price: real, now: int)
    requires AllAverageCost(b.positions)
    ensures MarketBuy(b, o, price, false, now).Some? <==> LimitBuy(b, o, price, now).Some?
    ensures MarketBuy(b, o, price, false, now).Some? ==>
              var (mb, mo) := MarketBuy(b, o, price, false, now).value;
              var (lb, lo) := LimitBuy(b, o, price, now).value;
              && mo == lo && SameButLastday(mb, lb, o.symbol)
              && (o.symbol in b.positions ==> mb == lb)
              && SameButLastday(Revalue(mb), Revalue(lb), o.symbol)
    ensures MarketSell(b, o, price, now) == LimitSell(b, o, price, now)
  {
    hide MarketBuy, LimitBuy, MarketSell, LimitSell, SameButLastday, Revalue;
    BuysTogether(b, o, price, now);
    SellsAgree(b, o, price, now);
    if MarketBuy(b, o, price, false, now).Some? {
      BuysAgree(b, o, price, now);
      RevalueSame(MarketBuy(b, o, price, false, now).value.0, LimitBuy(b, o, price, now).value.0, o.symbol);
    }
  }
}
