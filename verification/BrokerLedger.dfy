/**
 * The brokerage ledger: accounts, positions, orders and the per-account order lists, each
 * operation one atomic step. An order appears in the order map and in one account's list
 * under the same identifier, which stands for the record the two share.
 */
module BrokerLedgers {
  import opened BrokerBooks
  import opened BrokerAccounts
  import opened MapSums
  import opened Wrappers

  datatype Error =
    AccountNotFound | OrderNotFound | InsufficientCash | InsufficientShares | InvalidOrderPayload | InvalidSide
    | QuoteUnavailable | OrderCannotBeCanceled

  datatype Request = Request(symbol: string, qty: real, side: string, orderType: string, limitPrice: Option<real>)

  datatype Ledger = Ledger(
    accounts: map<string, Account>,
    positions: map<string, map<string, Position>>,
    orders: map<string, Order>,
    accountOrders: map<string, seq<string>>,
    autoReplenish: bool)

  const NO_ACCOUNT := Account(0.0, 0.0, 0.0, 0.0, 0.0, 0.0)

  function PositionsOf(l: Ledger, a: string): (r: map<string, Position>) {
    if a in l.positions then l.positions[a] else map[]
  }

  function BookOf(l: Ledger, a: string): (r: Book) {
    Book(if a in l.accounts then l.accounts[a] else NO_ACCOUNT, PositionsOf(l, a))
  }

  function WithBook(l: Ledger, a: string, b: Book): (r: Ledger) {
    l.(accounts := l.accounts[a := b.account], positions := l.positions[a := b.positions])
  }

  function OrderIds(l: Ledger, a: string): (r: seq<string>) {
    if a in l.accountOrders then l.accountOrders[a] else []
  }

  // ---- The operations ----

  /** parseOrderRequest; an empty type means a market order. */
  function ParseOrder(req: Request, now: int): (r: Result<Order, Error>) {
    if req.symbol == "" || req.qty <= 0.0 then Err(InvalidOrderPayload)
    else if req.side != "buy" && req.side != "sell" then Err(InvalidSide)
    else
      var orderType := if req.orderType == "" || req.orderType == "market" then Market
                       else if req.orderType == "limit" then Limit else Unsupported(req.orderType);
      Ok(Order(req.symbol, req.qty, 0.0, orderType, if req.side == "buy" then Buy else Sell, req.limitPrice,
               None, None, None, now, now, New))
  }

  /** A market order against its account: the filled order and the book after it. */
  function ExecuteMarket(b: Book, o: Order, quote: Quote, autoReplenish: bool, now: int): (r: Result<(Book, Order), Error>) {
    match MarketPrice(o.side, quote)
    case None => Err(QuoteUnavailable)
    case Some(price) =>
      match if o.side == Buy then MarketBuy(b, o, price, autoReplenish, now) else MarketSell(b, o, price, now)
      case None => Err(if o.side == Buy then InsufficientCash else InsufficientShares)
      case Some(fill) => Ok(fill)
  }

  /** What becomes of a new order before it is recorded. */
  function Place(b: Book, o: Order, quote: Quote, autoReplenish: bool, now: int): (r: Result<(Book, Order), Error>) {
    match o.orderType
    case Market => ExecuteMarket(b, o, quote, autoReplenish, now)
    case Limit => Ok((b, o.(status := Accepted)))
    case Unsupported(_) => Ok((b, o))
  }

  ghost function CreateOrderStep(l: Ledger, a: string, req: Request, quote: Quote, now: int, id: string): (r: (Ledger, Result<Order, Error>)) {
    if a !in l.accounts then (l, Err(AccountNotFound))
    else
      match ParseOrder(req, now)
      case Err(e) => (l, Err(e))
      case Ok(o) =>
        var l1 := l.(positions := l.positions[a := PositionsOf(l, a)]);
        match Place(BookOf(l, a), o, quote, l.autoReplenish, now)
        case Err(e) => (l1, Err(e))
        case Ok((b, o')) =>
          (WithBook(l1, a, Revalue(b)).(orders := l.orders[id := o'], accountOrders := l.accountOrders[a := [id] + OrderIds(l, a)]),
           Ok(o'))
  }

  /** CreateAccount: derived balances come from the given cash and market values; positions stay. */
  function CreateAccountStep(l: Ledger, a: string, given: Account): (r: Ledger) {
    var equity := given.cash + given.longMarketValue - given.shortMarketValue;
    l.(accounts := l.accounts[a := given.(buyingPower := given.cash * 2.0, equity := equity, portfolioValue := equity)],
       positions := l.positions[a := PositionsOf(l, a)])
  }

  function SetPositionStep(l: Ledger, a: string, symbol: string, p: Position): (r: Ledger) {
    l.(positions := l.positions[a := PositionsOf(l, a)[symbol := p]])
  }

  ghost function ReplenishStep(l: Ledger, a: string, amount: real): (r: (Ledger, Result<(), Error>)) {
    if a !in l.accounts then (l, Err(AccountNotFound))
    else
      var b := BookOf(l, a);
      (WithBook(l, a, Revalue(b.(account := b.account.(cash := b.account.cash + amount)))), Ok(()))
  }

  /** Cancels by identifier alone, whichever account asks. */
  function CancelStep(l: Ledger, id: string, now: int): (r: (Ledger, Result<Order, Error>)) {
    if id !in l.orders then (l, Err(OrderNotFound))
    else
      var o := l.orders[id];
      if o.status == Filled || o.status == Canceled then (l, Err(OrderCannotBeCanceled))
      else
        var o' := o.(status := Canceled, canceledAt := Some(now), updatedAt := now);
        (l.(orders := l.orders[id := o']), Ok(o'))
  }

  /** One position marked to the latest price of its symbol, if there is a positive one. */
  function Repriced(p: Position, symbol: string, prices: map<string, real>): (r: Position) {
    if symbol in prices && prices[symbol] > 0.0 then
      var price := prices[symbol];
      var value := p.qty * price;
      var gain := value - p.costBasis;
      p.(currentPrice := price, marketValue := value, unrealizedPL := gain,
         unrealizedPLPC := if p.costBasis > 0.0 then gain / p.costBasis else p.unrealizedPLPC,
         changeToday := if p.lastdayPrice > 0.0 then (price - p.lastdayPrice) / p.lastdayPrice else p.changeToday)
    else p
  }

  function RepriceAll(positions: map<string, Position>, prices: map<string, real>): (r: map<string, Position>) {
    map s | s in positions :: Repriced(positions[s], s, prices)
  }

  ghost function UpdatedBook(l: Ledger, a: string, prices: map<string, real>): (r: Book) {
    Revalue(Book(BookOf(l, a).account, RepriceAll(PositionsOf(l, a), prices)))
  }

  /** UpdateAccountValuations over every account. */
  ghost function UpdateValuationsStep(l: Ledger, prices: map<string, real>): (r: Ledger) {
    l.(accounts := map a | a in l.accounts :: UpdatedBook(l, a, prices).account,
       positions := map a | a in l.positions :: if a in l.accounts then UpdatedBook(l, a, prices).positions else l.positions[a])
  }

  // ---- The limit matcher ----

  /** The price at which an accepted limit order should fill now. */
  function LimitPriceDue(o: Order, quotes: map<string, Quote>): (r: Option<real>) {
    if o.status != Accepted || o.orderType != Limit || o.limitPrice.None? || o.symbol !in quotes then None
    else
      var q, limit := quotes[o.symbol], o.limitPrice.value;
      if o.side == Buy && q.ask <= limit && q.ask > 0.0 then Some(q.ask)
      else if o.side == Sell && q.bid >= limit && q.bid > 0.0 then Some(q.bid)
      else None
  }

  predicate Owns(l: Ledger, a: string, id: string) {
    a in l.accountOrders && id in l.accountOrders[a]
  }

  /** The matcher's fill of order id in account a, if the account can cover it. */
  ghost function FillLimit(l: Ledger, a: string, id: string, price: real, now: int): (r: Ledger)
    requires id in l.orders
  {
    var o := l.orders[id];
    match if o.side == Buy then LimitBuy(BookOf(l, a), o, price, now) else LimitSell(BookOf(l, a), o, price, now)
    case None => l
    case Some((b, o')) => WithBook(l, a, Revalue(b)).(orders := l.orders[id := o'])
  }

  /** One order of the sweep, filled in the account whose list holds it. */
  ghost function SweepOne(l: Ledger, id: string, quotes: map<string, Quote>, now: int): (r: Ledger) {
    if id in l.orders && LimitPriceDue(l.orders[id], quotes).Some? && exists a :: Owns(l, a, id) then
      var a :| Owns(l, a, id);
      FillLimit(l, a, id, LimitPriceDue(l.orders[id], quotes).value, now)
    else l
  }

  /** CheckLimitOrders, visiting the orders in some order. */
  ghost function Sweep(l: Ledger, visits: seq<string>, quotes: map<string, Quote>, now: int): (r: Ledger) {
    if visits == [] then l
    else SweepOne(Sweep(l, visits[..|visits| - 1], quotes, now), visits[|visits| - 1], quotes, now)
  }

  // ---- Well-formed ledgers ----

  ghost predicate WellFormed(l: Ledger) {
    && l.accounts.Keys <= l.positions.Keys
    && l.accountOrders.Keys <= l.accounts.Keys
    && (forall a, id :: Owns(l, a, id) ==> id in l.orders)
    && (forall a, b, id :: Owns(l, a, id) && Owns(l, b, id) ==> a == b)
    && (forall a :: a in l.accountOrders ==>
          forall i, j :: 0 <= i < j < |l.accountOrders[a]| ==> l.accountOrders[a][i] != l.accountOrders[a][j])
  }

  /** The orders in an account's list. */
  ghost function OrdersOf(l: Ledger, a: string): (r: seq<Order>)
    requires WellFormed(l)
    ensures |r| == |OrderIds(l, a)|
    ensures forall i :: 0 <= i < |r| ==> OrderIds(l, a)[i] in l.orders && r[i] == l.orders[OrderIds(l, a)[i]]
  {
    var ids := OrderIds(l, a);
    assert forall i :: 0 <= i < |ids| ==> Owns(l, a, ids[i]);
    seq(|ids|, i requires 0 <= i < |ids| => l.orders[ids[i]])
  }

  ghost function TallyOf(t: map<string, Tally>, a: string): (r: Tally) {
    if a in t then t[a] else NO_TALLY
  }

  ghost function ViewOf(l: Ledger, t: map<string, Tally>, a: string): (r: View)
    requires WellFormed(l)
  {
    View(BookOf(l, a), OrdersOf(l, a), TallyOf(t, a))
  }

  /** Every account satisfies its identities. */
  ghost predicate AllOk(l: Ledger, t: map<string, Tally>) {
    WellFormed(l) && forall a :: AccountOk(ViewOf(l, t, a))
  }

  /** l' differs from l only in account a's book and in orders of a's list. */
  ghost predicate OnlyTouches(l: Ledger, l': Ledger, a: string) {
    && l'.accounts.Keys >= l.accounts.Keys
    && (forall b :: b != a ==> BookOf(l', b) == BookOf(l, b) && OrderIds(l', b) == OrderIds(l, b))
    && (forall id :: id in l.orders && !Owns(l, a, id) ==> id in l'.orders && l'.orders[id] == l.orders[id])
  }

  /** Such a change is judged on account a alone. */
  lemma {:induction false} JudgeOne(l: Ledger, l': Ledger, t: map<string, Tally>, a: string, t': Tally)
    requires AllOk(l, t) && WellFormed(l') && OnlyTouches(l, l', a)
    requires AccountOk(ViewOf(l', t[a := t'], a))
    ensures AllOk(l', t[a := t'])
  {
    hide AccountOk, BookOf;
    var tallies := t[a := t'];
    forall b: string ensures AccountOk(ViewOf(l', tallies, b)) {
      if b != a {
        OthersSeeNothing(l, l', a, b);
        assert ViewOf(l', tallies, b) == ViewOf(l, t, b);
      }
    }
  }

  lemma {:induction false} OthersSeeNothing(l: Ledger, l': Ledger, a: string, b: string)
    requires WellFormed(l) && WellFormed(l') && OnlyTouches(l, l', a) && b != a
    ensures OrdersOf(l', b) == OrdersOf(l, b)
  {
    var ids := OrderIds(l, b);
    forall i | 0 <= i < |ids| ensures OrdersOf(l', b)[i] == OrdersOf(l, b)[i] {
      assert Owns(l, b, ids[i]) && !Owns(l, a, ids[i]);
      assert ids[i] in l.orders;
    }
  }
}
