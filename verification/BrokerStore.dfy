/** The brokerage store: the object that changes the ledger, one locked operation at a time. */
module BrokerStores {
  import opened BrokerBooks
  import opened BrokerEffects
  import opened BrokerLedgers
  import opened MapSums
  import opened Wrappers

  class Store {
    var accounts: map<string, Account>
    var positions: map<string, map<string, Position>>
    var orders: map<string, Order>
    var accountOrders: map<string, seq<string>>
    var autoReplenish: bool

    function View(): Ledger
      reads this
    {
      Ledger(accounts, positions, orders, accountOrders, autoReplenish)
    }

    constructor ()
      ensures View() == Ledger(map[], map[], map[], map[], false)
    {
      accounts, positions, orders, accountOrders, autoReplenish := map[], map[], map[], map[], false;
    }

    method SetAutoReplenish(enabled: bool)
      modifies this
      ensures View() == old(View()).(autoReplenish := enabled)
    {
      autoReplenish := enabled;
    }

    method EnsurePositions(a: string)
      modifies this`positions
      ensures View() == old(View()).(positions := old(View()).positions[a := PositionsOf(old(View()), a)])
    {
      if a !in positions {
        positions := positions[a := map[]];
      }
    }

    /** An account without an identifier is given a generated one. */
    method CreateAccount(id: string, given: Account, generated: string)
      modifies this
      ensures View() == CreateAccountStep(old(View()), if id == "" then generated else id, given)
      ensures OpenedIn(old(View()), View(), if id == "" then generated else id, given)
    {
      OpenMeans(View(), if id == "" then generated else id, given);
      hide OpenedIn;
      var a := if id == "" then generated else id;
      var equity := given.cash + given.longMarketValue - given.shortMarketValue;
      accounts := accounts[a := given.(buyingPower := given.cash * 2.0, equity := equity, portfolioValue := equity)];
      EnsurePositions(a);
    }

    method SetPosition(a: string, symbol: string, p: Position)
      modifies this
      ensures View() == SetPositionStep(old(View()), a, symbol, p)
      ensures accounts == old(accounts) && orders == old(orders) && accountOrders == old(accountOrders)
      ensures positions == old(positions)[a := (if a in old(positions) then old(positions)[a] else map[])[symbol := p]]
    {
      EnsurePositions(a);
      positions := positions[a := positions[a][symbol := p]];
    }

    /** Marks every position, rederives the balances. */
    method RecalculateAccountValuation(a: string)
      requires a in accounts && a in positions
      modifies this`accounts, this`positions
      ensures View() == WithBook(old(View()), a, Revalue(BookOf(old(View()), a)))
    {
      var marked, long := MarkPositions(positions[a]);
      hide Sum, MarketValue, MarkAll;
      positions := positions[a := marked];
      var acc := accounts[a];
      var equity := acc.cash + long;
      accounts := accounts[a := acc.(longMarketValue := long, equity := equity, portfolioValue := equity,
                                     buyingPower := acc.cash * 2.0)];
    }

    /** The valuation loop, in whatever order the map yields the positions. */
    static method MarkPositions(held: map<string, Position>) returns (marked: map<string, Position>, long: real)
      ensures marked == MarkAll(held) && long == Sum(held, MarketValue())
    {
      hide Mark, MarketValue;
      marked, long := held, 0.0;
      var todo := held.Keys;
      assert held - held.Keys == map[];
      while todo != {}
        invariant todo <= held.Keys && marked.Keys == held.Keys
        invariant forall s :: s in held ==> marked[s] == if s in todo then held[s] else Mark(held[s])
        invariant long == Sum(held - todo, MarketValue())
        decreases todo
      {
        var s :| s in todo;
        SumRemove(held - (todo - {s}), MarketValue(), s);
        assert held - (todo - {s}) - {s} == held - todo;
        MarkWorth(held[s]);
        marked := marked[s := Mark(marked[s])];
        long := long + marked[s].marketValue;
        todo := todo - {s};
      }
      assert marked == MarkAll(held) && held - {} == held;
    }

    method ReplenishCash(a: string, amount: real) returns (result: Result<(), Error>)
      requires WellFormed(View())
      modifies this
      ensures (View(), result) == ReplenishStep(old(View()), a, amount)
      ensures ReplenishedIn(old(View()), View(), result, a, amount)
    {
      ReplenishMeans(View(), a, amount);
      hide ReplenishedIn;
      hide Revalue;
      if a !in accounts {
        return Err(AccountNotFound);
      }
      ghost var l, b := View(), BookOf(View(), a);
      assert a in positions;
      accounts := accounts[a := accounts[a].(cash := accounts[a].cash + amount)];
      AccountInPlace(l, View(), a, b.(account := accounts[a]));
      RecalculateAccountValuation(a);
      Overwrite(l, a, b.(account := b.account.(cash := b.account.cash + amount)),
                Revalue(b.(account := b.account.(cash := b.account.cash + amount))));
      result := Ok(());
    }

    /** Places an order and, if it is a market order, executes it. */
    method CreateOrder(a: string, req: Request, quote: Quote, now: int, id: string) returns (result: Result<Order, Error>)
      modifies this
      ensures (View(), result) == CreateOrderStep(old(View()), a, req, quote, now, id)
      ensures Ordered(old(View()), View(), result, a, req, quote, now, id)
    {
      OrderMeans(View(), a, req, quote, now, id);
      hide Ordered, CreateOrderStep;
      result := PlaceOrder(a, req, quote, now, id);
    }

    method PlaceOrder(a: string, req: Request, quote: Quote, now: int, id: string) returns (result: Result<Order, Error>)
      modifies this
      ensures (View(), result) == CreateOrderStep(old(View()), a, req, quote, now, id)
    {
      hide Revalue, ParseOrder, MarketBuy, MarketSell, MarketPrice;
      if a !in accounts {
        return Err(AccountNotFound);
      }
      var parsed := ParseOrder(req, now);
      if parsed.Err? {
        return parsed;
      }
      var order := parsed.value;
      EnsurePositions(a);
      ghost var l1, b := View(), BookOf(View(), a);
      AccountInPlace(l1, l1, a, b);
      if order.orderType == Market {
        result := ExecuteMarketOrder(a, order, quote, now);
        if result.Err? {
          return;
        }
        b := ExecuteMarket(b, order, quote, autoReplenish, now).value.0;
        order := result.value;
      } else if order.orderType == Limit {
        order := order.(status := Accepted);
      }
      assert View() == WithBook(l1, a, b);
      RecalculateAccountValuation(a);
      Overwrite(l1, a, b, Revalue(b));
      orders := orders[id := order];
      accountOrders := accountOrders[a := [id] + if a in accountOrders then accountOrders[a] else []];
      result := Ok(order);
    }

    /** A failing market order leaves the account as it was. */
    method ExecuteMarketOrder(a: string, order: Order, quote: Quote, now: int) returns (result: Result<Order, Error>)
      requires a in accounts && a in positions
      modifies this`accounts, this`positions
      ensures match ExecuteMarket(BookOf(old(View()), a), order, quote, autoReplenish, now)
              case Err(e) => View() == old(View()) && result == Err(e)
              case Ok((b, o)) => View() == WithBook(old(View()), a, b) && result == Ok(o)
    {
      if order.side == Buy {
        result := ExecuteMarketBuy(a, order, quote, now);
      } else {
        result := ExecuteMarketSell(a, order, quote, now);
      }
    }

    method ExecuteMarketBuy(a: string, order: Order, quote: Quote, now: int) returns (result: Result<Order, Error>)
      requires a in accounts && a in positions && order.side == Buy
      modifies this`accounts, this`positions
      ensures match ExecuteMarket(BookOf(old(View()), a), order, quote, autoReplenish, now)
              case Err(e) => View() == old(View()) && result == Err(e)
              case Ok((b, o)) => View() == WithBook(old(View()), a, b) && result == Ok(o)
    {
      hide Quotient, Cost;
      var fillPrice := quote.ask;
      if fillPrice <= 0.0 {
        fillPrice := quote.bid;
      }
      if fillPrice <= 0.0 {
        return Err(QuoteUnavailable);
      }
      var totalCost := Cost(order.qty, fillPrice);
      var cash := accounts[a].cash;
      if cash < totalCost {
        if !autoReplenish {
          return Err(InsufficientCash);
        }
        var replenishAmount := totalCost - cash + TOP_UP;
        cash := cash + replenishAmount;
      }
      cash := cash - totalCost;
      accounts := accounts[a := accounts[a].(cash := cash)];
      AddShares(a, order.symbol, order.qty, fillPrice, totalCost, fillPrice * 0.99);
      result := Ok(Fill(order, fillPrice, now));
    }

    method AddShares(a: string, symbol: string, qty: real, price: real, cost: real, lastdayPrice: real)
      requires a in positions && cost == Cost(qty, price)
      modifies this`positions
      ensures positions == old(positions)[a := BuyInto(old(positions)[a], symbol, qty, price, lastdayPrice)]
    {
      var held := positions[a];
      if symbol !in held {
        held := held[symbol := Position(qty, price, cost, price, lastdayPrice, 0.0, 0.0, 0.0, 0.0)];
      } else {
        var pos := held[symbol];
        var newTotalQty := pos.qty + qty;
        var newCostBasis := pos.costBasis + cost;
        pos := pos.(qty := newTotalQty, costBasis := newCostBasis);
        pos := pos.(avgEntryPrice := Quotient(newCostBasis, newTotalQty), currentPrice := price);
        held := held[symbol := pos];
      }
      positions := positions[a := held];
    }

    method ExecuteMarketSell(a: string, order: Order, quote: Quote, now: int) returns (result: Result<Order, Error>)
      requires a in accounts && a in positions && order.side == Sell
      modifies this`accounts, this`positions
      ensures match ExecuteMarket(BookOf(old(View()), a), order, quote, autoReplenish, now)
              case Err(e) => View() == old(View()) && result == Err(e)
              case Ok((b, o)) => View() == WithBook(old(View()), a, b) && result == Ok(o)
    {
      hide Reduced, Cost;
      var fillPrice := quote.bid;
      if fillPrice <= 0.0 {
        fillPrice := quote.ask;
      }
      if fillPrice <= 0.0 {
        return Err(QuoteUnavailable);
      }
      if order.symbol !in positions[a] || positions[a][order.symbol].qty < order.qty {
        return Err(InsufficientShares);
      }
      accounts := accounts[a := accounts[a].(cash := accounts[a].cash + Cost(order.qty, fillPrice))];
      var pos := positions[a][order.symbol];
      pos := pos.(costBasis := Reduced(pos, order.qty), qty := pos.qty - order.qty);
      if pos.costBasis < 0.0 {
        pos := pos.(costBasis := 0.0);
      }
      pos := pos.(currentPrice := fillPrice);
      if pos.qty <= DUST {
        positions := positions[a := positions[a] - {order.symbol}];
      } else {
        positions := positions[a := positions[a][order.symbol := pos]];
      }
      result := Ok(Fill(order, fillPrice, now));
    }

    method CancelOrder(id: string, now: int) returns (result: Result<Order, Error>)
      modifies this
      ensures (View(), result) == CancelStep(old(View()), id, now)
      ensures CanceledIn(old(View()), View(), result, id, now)
    {
      CancelMeans(View(), id, now);
      hide CanceledIn;
      if id !in orders {
        return Err(OrderNotFound);
      }
      var order := orders[id];
      if order.status == Filled || order.status == Canceled {
        return Err(OrderCannotBeCanceled);
      }
      order := order.(status := Canceled, canceledAt := Some(now), updatedAt := now);
      orders := orders[id := order];
      result := Ok(order);
    }

    /** Reprices and revalues every account, in whatever order the map yields them. */
    method UpdateAccountValuations(prices: map<string, real>)
      requires WellFormed(View())
      modifies this
      ensures View() == UpdateValuationsStep(old(View()), prices)
      ensures forall a :: a in old(accounts) ==> RepricedIn(BookOf(old(View()), a), BookOf(View(), a), prices)
    {
      forall a | a in accounts ensures RepricedIn(BookOf(View(), a), BookOf(UpdateValuationsStep(View(), prices), a), prices) {
        RepriceMeans(View(), a, prices);
      }
      hide RepricedIn;
      hide UpdatedBut, UpdateValuationsStep, WellFormed;
      ghost var l := View();
      var todo := accounts.Keys;
      UpdatedNone(l, prices);
      UpdatedAll(l, prices);
      while todo != {}
        invariant todo <= l.accounts.Keys
        invariant View() == UpdatedBut(l, prices, todo)
        decreases todo
      {
        var a :| a in todo;
        UpdateOne(a, prices, l, todo);
        todo := todo - {a};
      }
    }

    method UpdateOne(a: string, prices: map<string, real>, ghost l: Ledger, ghost todo: set<string>)
      requires WellFormed(l) && a in todo && todo <= l.accounts.Keys && View() == UpdatedBut(l, prices, todo)
      modifies this
      ensures View() == UpdatedBut(l, prices, todo - {a})
    {
      hide Revalue, RepriceAll;
      ghost var m := View();
      assert BookOf(m, a) == BookOf(l, a);
      RepricePositions(a, prices);
      ghost var b := Book(m.accounts[a], RepriceAll(m.positions[a], prices));
      assert m.accounts[a := m.accounts[a]] == m.accounts;
      assert View() == WithBook(m, a, b);
      RecalculateAccountValuation(a);
      Overwrite(m, a, b, Revalue(b));
      assert View() == WithBook(m, a, UpdatedBook(l, a, prices));
      UpdatedOneMore(l, prices, todo, a);
    }

    method RepricePositions(a: string, prices: map<string, real>)
      requires a in positions
      modifies this`positions
      ensures positions == old(positions)[a := RepriceAll(old(positions)[a], prices)]
    {
      hide Repriced;
      ghost var held := positions[a];
      var repriced := positions[a];
      var todo := repriced.Keys;
      while todo != {}
        invariant todo <= held.Keys == repriced.Keys
        invariant forall s :: s in held ==> repriced[s] == if s in todo then held[s] else Repriced(held[s], s, prices)
        decreases todo
      {
        var s :| s in todo;
        repriced := repriced[s := Repriced(repriced[s], s, prices)];
        todo := todo - {s};
      }
      assert repriced == RepriceAll(held, prices);
      positions := positions[a := repriced];
    }

    /** Visits the pending orders in whatever order the map yields them. */
    method CheckLimitOrders(quotes: map<string, Quote>, now: int) returns (ghost visits: seq<string>)
      requires WellFormed(View())
      modifies this
      ensures View() == Sweep(old(View()), visits, quotes, now)
      ensures forall id :: id in visits <==> id in old(orders)
      ensures forall i, j :: 0 <= i < j < |visits| ==> visits[i] != visits[j]
    {
      hide WellFormed;
      ghost var l := View();
      var todo := orders.Keys;
      visits := [];
      while todo != {}
        invariant WellFormed(View()) && orders.Keys == l.orders.Keys && todo <= l.orders.Keys
        invariant View() == Sweep(l, visits, quotes, now)
        invariant forall id :: id in visits <==> id in l.orders && id !in todo
        invariant forall i, j :: 0 <= i < j < |visits| ==> visits[i] != visits[j]
        decreases todo
      {
        var id :| id in todo;
        todo := todo - {id};
        CheckLimitOrder(id, quotes, now);
        assert (visits + [id])[..|visits|] == visits;
        visits := visits + [id];
      }
    }

    /** One pending order: fill it in every account whose list holds it, which is its owner. */
    method CheckLimitOrder(id: string, quotes: map<string, Quote>, now: int)
      requires WellFormed(View()) && id in orders
      modifies this
      ensures View() == SweepOne(old(View()), id, quotes, now)
      ensures WellFormed(View()) && orders.Keys == old(orders).Keys
    {
      hide FillLimit, Sweep;
      ghost var l := View();
      SweepOneShape(l, id, quotes, now);
      var due := LimitPriceDue(orders[id], quotes);
      if due.None? {
        return;
      }
      var todo := accountOrders.Keys;
      while todo != {}
        invariant todo <= accountOrders.Keys && accountOrders == l.accountOrders
        invariant (exists a :: Owns(l, a, id) && a !in todo) ==> View() == SweepOne(l, id, quotes, now)
        invariant !(exists a :: Owns(l, a, id) && a !in todo) ==> View() == l
        decreases todo
      {
        var a :| a in todo;
        todo := todo - {a};
        var found := Lists(a, id);
        if found {
          assert Owns(l, a, id);
          OwnerUnique(l, a, id);
          assert View() == l;
          SweepOneAt(l, a, id, quotes, now);
          FillLimitOrder(a, id, due.value, now);
        }
      }
    }

    /** Whether an account's list holds the order. */
    method Lists(a: string, id: string) returns (found: bool)
      requires a in accountOrders
      ensures found <==> id in accountOrders[a]
    {
      found := false;
      var list := accountOrders[a];
      for i := 0 to |list|
        invariant id !in list[..i]
      {
        if list[i] == id {
          return true;
        }
      }
    }

    method FillLimitOrder(a: string, id: string, fillPrice: real, now: int)
      requires a in accounts && a in positions && id in orders
      modifies this
      ensures View() == FillLimit(old(View()), a, id, fillPrice, now)
    {
      hide Revalue, LimitBuy, LimitSell;
      ghost var l := View();
      var order := orders[id];
      var filled := false;
      if order.side == Buy {
        filled := FillLimitBuy(a, order, fillPrice);
        LimitBuyShape(BookOf(l, a), order, fillPrice, now);
      } else {
        filled := FillLimitSell(a, order, fillPrice);
        LimitSellShape(BookOf(l, a), order, fillPrice, now);
      }
      if filled {
        ghost var b := BookOf(View(), a);
        RecalculateAccountValuation(a);
        Overwrite(l, a, b, Revalue(b));
        orders := orders[id := Fill(order, fillPrice, now)];
      }
    }

    method FillLimitBuy(a: string, order: Order, fillPrice: real) returns (filled: bool)
      requires a in accounts && a in positions
      modifies this`accounts, this`positions
      ensures filled <==> old(accounts)[a].cash >= Cost(order.qty, fillPrice)
      ensures View() == if filled then WithBook(old(View()), a, BoughtBook(BookOf(old(View()), a), order, fillPrice)) else old(View())
    {
      hide Cost, BuyInto;
      var cost := Cost(order.qty, fillPrice);
      filled := accounts[a].cash >= cost;
      if filled {
        accounts := accounts[a := accounts[a].(cash := accounts[a].cash - cost)];
        AddShares(a, order.symbol, order.qty, fillPrice, cost, 0.0);
      }
    }

    method FillLimitSell(a: string, order: Order, fillPrice: real) returns (filled: bool)
      requires a in accounts && a in positions
      modifies this`accounts, this`positions
      ensures filled <==> order.symbol in old(positions)[a] && old(positions)[a][order.symbol].qty >= order.qty
      ensures View() == if filled then WithBook(old(View()), a, SoldBook(BookOf(old(View()), a), order, fillPrice)) else old(View())
    {
      hide Cost, Reduced;
      filled := order.symbol in positions[a] && positions[a][order.symbol].qty >= order.qty;
      if filled {
        accounts := accounts[a := accounts[a].(cash := accounts[a].cash + Cost(order.qty, fillPrice))];
        var pos := positions[a][order.symbol];
        pos := pos.(costBasis := Reduced(pos, order.qty), qty := pos.qty - order.qty, currentPrice := fillPrice);
        if pos.qty <= DUST {
          positions := positions[a := positions[a] - {order.symbol}];
        } else {
          positions := positions[a := positions[a][order.symbol := pos]];
        }
      }
    }
  }

  function BoughtBook(b: Book, o: Order, price: real): (r: Book) {
    Book(b.account.(cash := b.account.cash - Cost(o.qty, price)), BuyInto(b.positions, o.symbol, o.qty, price, 0.0))
  }

  function SoldBook(b: Book, o: Order, price: real): (r: Book) {
    Book(b.account.(cash := b.account.cash + Cost(o.qty, price)),
         if o.symbol in b.positions then SellFrom(b.positions, o.symbol, o.qty, price) else b.positions)
  }

  lemma {:induction false} LimitBuyShape(b: Book, o: Order, price: real, now: int)
    ensures LimitBuy(b, o, price, now)
         == if b.account.cash >= Cost(o.qty, price) then Some((BoughtBook(b, o, price), Fill(o, price, now))) else None
  {
  }

  lemma {:induction false} LimitSellShape(b: Book, o: Order, price: real, now: int)
    ensures LimitSell(b, o, price, now)
         == if o.symbol in b.positions && b.positions[o.symbol].qty >= o.qty
            then Some((SoldBook(b, o, price), Fill(o, price, now))) else None
  {
  }

  /** The ledger with every account updated but those still to do. */
  ghost function UpdatedBut(l: Ledger, prices: map<string, real>, todo: set<string>): (r: Ledger) {
    l.(accounts := map a | a in l.accounts :: if a in todo then l.accounts[a] else UpdatedBook(l, a, prices).account,
       positions := map a | a in l.positions ::
         if a in l.accounts && a !in todo then UpdatedBook(l, a, prices).positions else l.positions[a])
  }

  lemma {:induction false} UpdatedNone(l: Ledger, prices: map<string, real>)
    ensures UpdatedBut(l, prices, l.accounts.Keys) == l
  {
    hide UpdatedBook;
  }

  lemma {:induction false} UpdatedAll(l: Ledger, prices: map<string, real>)
    ensures UpdatedBut(l, prices, {}) == UpdateValuationsStep(l, prices)
  {
    hide UpdatedBook;
  }

  lemma {:induction false} UpdatedOneMore(l: Ledger, prices: map<string, real>, todo: set<string>, a: string)
    requires WellFormed(l) && a in todo && todo <= l.accounts.Keys
    ensures WithBook(UpdatedBut(l, prices, todo), a, UpdatedBook(l, a, prices)) == UpdatedBut(l, prices, todo - {a})
  {
    hide UpdatedBook;
    assert a in l.positions;
  }

  /** Replacing only the account is replacing the book. */
  lemma {:induction false} AccountInPlace(l: Ledger, l': Ledger, a: string, b: Book)
    requires a in l.positions && l'.positions == l.positions && b.positions == l.positions[a]
    requires l' == l.(accounts := l.accounts[a := b.account])
    ensures l' == WithBook(l, a, b) && BookOf(l', a) == b
  {
    assert l.positions[a := l.positions[a]] == l.positions;
  }

  lemma {:induction false} Overwrite(l: Ledger, a: string, b: Book, c: Book)
    ensures BookOf(WithBook(l, a, b), a) == b
    ensures WithBook(WithBook(l, a, b), a, c) == WithBook(l, a, c)
  {
  }

  lemma {:induction false} MarkWorth(p: Position)
    ensures Mark(p).marketValue == MarketValue()(p)
  {
  }

  lemma {:induction false} OwnerUnique(l: Ledger, a: string, id: string)
    requires WellFormed(l) && Owns(l, a, id)
    ensures forall b :: Owns(l, b, id) ==> b == a
    ensures a in l.accounts && a in l.positions
  {
  }

  lemma {:induction false} SweepOneAt(l: Ledger, a: string, id: string, quotes: map<string, Quote>, now: int)
    requires WellFormed(l) && Owns(l, a, id) && id in l.orders && LimitPriceDue(l.orders[id], quotes).Some?
    ensures SweepOne(l, id, quotes, now) == FillLimit(l, a, id, LimitPriceDue(l.orders[id], quotes).value, now)
  {
    hide FillLimit, LimitPriceDue;
    OwnerUnique(l, a, id);
  }

  lemma {:induction false} SweepOneShape(l: Ledger, id: string, quotes: map<string, Quote>, now: int)
    requires WellFormed(l) && id in l.orders
    ensures WellFormed(SweepOne(l, id, quotes, now))
    ensures SweepOne(l, id, quotes, now).orders.Keys == l.orders.Keys
    ensures SweepOne(l, id, quotes, now).accountOrders == l.accountOrders
  {
    hide Revalue, LimitBuy, LimitSell;
    var l' := SweepOne(l, id, quotes, now);
    assert forall c, x :: Owns(l', c, x) == Owns(l, c, x);
  }
}
