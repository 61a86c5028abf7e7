/** Whole runs of the brokerage ledger: what every operation keeps, over any sequence of them. */
module BrokerRuns {
  import opened BrokerBooks
  import opened BrokerAccounts
  import opened BrokerLedgers
  import opened MapSums
  import opened Wrappers

  datatype Op =
    | OpenAccount(a: string, given: Account)
    | Seed(a: string, symbol: string, p: Position)
    | SetAuto(on: bool)
    | Replenish(a: string, amount: real)
    | Submit(a: string, req: Request, quote: Quote, now: int, id: string)
    | Cancel(id: string, now: int)
    | Reprice(prices: map<string, real>)
    | CheckLimits(visits: seq<string>, quotes: map<string, Quote>, now: int)

  ghost function LedgerStep(l: Ledger, op: Op): (r: Ledger) {
    match op
    case OpenAccount(a, given) => CreateAccountStep(l, a, given)
    case Seed(a, symbol, p) => SetPositionStep(l, a, symbol, p)
    case SetAuto(on) => l.(autoReplenish := on)
    case Replenish(a, amount) => ReplenishStep(l, a, amount).0
    case Submit(a, req, quote, now, id) => CreateOrderStep(l, a, req, quote, now, id).0
    case Cancel(id, now) => CancelStep(l, id, now).0
    case Reprice(prices) => UpdateValuationsStep(l, prices)
    case CheckLimits(visits, quotes, now) => Sweep(l, visits, quotes, now)
  }

  /** The tally of a fill in account a. */
  ghost function TallyFill(l: Ledger, t: map<string, Tally>, a: string, o: Order, price: real, topUp: real): (r: map<string, Tally>) {
    var positions := PositionsOf(l, a);
    if o.side == Buy then t[a := TallyBuy(TallyOf(t, a), positions, o.symbol, price, topUp)]
    else if o.symbol in positions then
      t[a := if o.orderType == Market then TallyMarketSell(TallyOf(t, a), positions[o.symbol], o.symbol, o.qty, price)
             else TallySell(TallyOf(t, a), positions[o.symbol], o.symbol, o.qty, price)]
    else t
  }

  /** The tally of a new order: only a market order that fills moves anything. */
  ghost function TallySubmit(l: Ledger, t: map<string, Tally>, a: string, req: Request, quote: Quote, now: int): (r: map<string, Tally>) {
    var o := ParseOrder(req, now);
    if a in l.accounts && o.Ok? && o.value.orderType == Market
       && ExecuteMarket(BookOf(l, a), o.value, quote, l.autoReplenish, now).Ok?
    then
      var price := MarketPrice(o.value.side, quote).value;
      TallyFill(l, t, a, o.value, price, TopUp(BookOf(l, a), Cost(o.value.qty, price)))
    else t
  }

  ghost predicate LimitFills(l: Ledger, a: string, id: string, price: real, now: int)
    requires id in l.orders
  {
    var o := l.orders[id];
    (if o.side == Buy then LimitBuy(BookOf(l, a), o, price, now) else LimitSell(BookOf(l, a), o, price, now)).Some?
  }

  ghost function TallyOne(l: Ledger, t: map<string, Tally>, id: string, quotes: map<string, Quote>, now: int): (r: map<string, Tally>) {
    if id in l.orders && LimitPriceDue(l.orders[id], quotes).Some? && exists a :: Owns(l, a, id) then
      var a :| Owns(l, a, id);
      var price := LimitPriceDue(l.orders[id], quotes).value;
      if LimitFills(l, a, id, price, now) then TallyFill(l, t, a, l.orders[id], price, 0.0) else t
    else t
  }

  ghost function TallySweep(l: Ledger, t: map<string, Tally>, visits: seq<string>, quotes: map<string, Quote>, now: int): (r: map<string, Tally>) {
    if visits == [] then t
    else
      var rest := visits[..|visits| - 1];
      TallyOne(Sweep(l, rest, quotes, now), TallySweep(l, t, rest, quotes, now), visits[|visits| - 1], quotes, now)
  }

  ghost function TallyStep(l: Ledger, t: map<string, Tally>, op: Op): (r: map<string, Tally>) {
    match op
    case OpenAccount(a, given) =>
      var before := TallyOf(t, a);
      t[a := before.(contributed := before.contributed + given.cash - BookOf(l, a).account.cash)]
    case Seed(a, symbol, p) => t[a := SeedView(View(BookOf(l, a), [], TallyOf(t, a)), symbol, p).tally]
    case Replenish(a, amount) =>
      if a in l.accounts then t[a := TallyOf(t, a).(contributed := TallyOf(t, a).contributed + amount)] else t
    case Submit(a, req, quote, now, _) => TallySubmit(l, t, a, req, quote, now)
    case CheckLimits(visits, quotes, now) => TallySweep(l, t, visits, quotes, now)
    case _ => t
  }

  /** What the environment owes: no withdrawals beyond the cash, fresh order identifiers. */
  ghost predicate Admissible(l: Ledger, op: Op) {
    match op
    case OpenAccount(_, given) => given.cash >= 0.0
    case Replenish(a, amount) => a in l.accounts ==> l.accounts[a].cash + amount >= 0.0
    case Submit(_, _, _, _, id) => id !in l.orders
    case _ => true
  }

  // ---- Frames ----

  lemma {:induction false} TouchBook(l: Ledger, a: string, b: Book)
    requires WellFormed(l)
    ensures WellFormed(WithBook(l, a, b)) && OnlyTouches(l, WithBook(l, a, b), a)
    ensures BookOf(WithBook(l, a, b), a) == b
    ensures OrdersOf(WithBook(l, a, b), a) == OrdersOf(l, a)
  {
    var l' := WithBook(l, a, b);
    assert forall c, id :: Owns(l', c, id) == Owns(l, c, id);
  }

  lemma {:induction false} TouchOrder(l: Ledger, a: string, i: nat, o: Order, b: Book)
    requires WellFormed(l) && i < |OrderIds(l, a)|
    ensures var l' := WithBook(l, a, b).(orders := l.orders[OrderIds(l, a)[i] := o]);
            WellFormed(l') && OnlyTouches(l, l', a) && BookOf(l', a) == b && OrdersOf(l', a) == OrdersOf(l, a)[i := o]
  {
    var id := OrderIds(l, a)[i];
    var l' := WithBook(l, a, b).(orders := l.orders[id := o]);
    assert forall c, x :: Owns(l', c, x) == Owns(l, c, x);
    assert Owns(l, a, id);
  }

  lemma {:induction false} EnterWellFormed(l: Ledger, a: string, id: string, o: Order, b: Book)
    requires WellFormed(l) && a in l.accounts && id !in l.orders
    ensures var l' := WithBook(l, a, b).(orders := l.orders[id := o], accountOrders := l.accountOrders[a := [id] + OrderIds(l, a)]);
            WellFormed(l') && OnlyTouches(l, l', a) && BookOf(l', a) == b && OrderIds(l', a) == [id] + OrderIds(l, a)
  {
    var ids := [id] + OrderIds(l, a);
    var l' := WithBook(l, a, b).(orders := l.orders[id := o], accountOrders := l.accountOrders[a := ids]);
    EnterOwns(l, a, id, o, b);
    forall i | 0 < i < |ids| ensures ids[i] in l.orders {
      assert Owns(l, a, ids[i]);
    }
  }

  lemma {:induction false} EnterOwns(l: Ledger, a: string, id: string, o: Order, b: Book)
    ensures var l' := WithBook(l, a, b).(orders := l.orders[id := o], accountOrders := l.accountOrders[a := [id] + OrderIds(l, a)]);
            forall c, x :: Owns(l', c, x) <==> Owns(l, c, x) || (c == a && x == id)
  {
  }

  lemma {:induction false} EnterOrder(l: Ledger, a: string, id: string, o: Order, b: Book)
    requires WellFormed(l) && a in l.accounts && id !in l.orders
    ensures var l' := WithBook(l, a, b).(orders := l.orders[id := o], accountOrders := l.accountOrders[a := [id] + OrderIds(l, a)]);
            WellFormed(l') && OnlyTouches(l, l', a) && BookOf(l', a) == b && OrdersOf(l', a) == [o] + OrdersOf(l, a)
  {
    EnterWellFormed(l, a, id, o, b);
    hide WellFormed, OnlyTouches, BookOf;
    var ids := [id] + OrderIds(l, a);
    var l' := WithBook(l, a, b).(orders := l.orders[id := o], accountOrders := l.accountOrders[a := ids]);
    assert OrdersOf(l', a) == [o] + OrdersOf(l, a);
  }

  // ---- Every operation keeps every identity ----

  lemma {:induction false} RevalueHoldings(b: Book)
    ensures SameHoldings(b, Revalue(b))
  {
  }

  lemma {:induction false} OpenKeeps(l: Ledger, t: map<string, Tally>, a: string, given: Account)
    requires AllOk(l, t) && given.cash >= 0.0
    ensures AllOk(CreateAccountStep(l, a, given), TallyStep(l, t, OpenAccount(a, given)))
  {
    hide AccountOk;
    var l' := CreateAccountStep(l, a, given);
    var v := ViewOf(l, t, a);
    var account := l'.accounts[a];
    assert l' == WithBook(l, a, v.book.(account := account));
    TouchBook(l, a, v.book.(account := account));
    DepositKeeps(v, account);
    JudgeOne(l, l', t, a, v.tally.(contributed := v.tally.contributed + account.cash - v.book.account.cash));
  }

  lemma {:induction false} SeedKeeps(l: Ledger, t: map<string, Tally>, a: string, symbol: string, p: Position)
    requires AllOk(l, t)
    ensures AllOk(SetPositionStep(l, a, symbol, p), TallyStep(l, t, Seed(a, symbol, p)))
  {
    hide AccountOk, AverageCost;
    var v := ViewOf(l, t, a);
    var l' := SetPositionStep(l, a, symbol, p);
    SeedKeepsLog(v, symbol, p);
    assert forall c, id :: Owns(l', c, id) == Owns(l, c, id);
    assert OrdersOf(l', a) == v.orders;
    JudgeOne(l, l', t, a, SeedView(v, symbol, p).tally);
  }

  lemma {:induction false} ReplenishKeeps(l: Ledger, t: map<string, Tally>, a: string, amount: real)
    requires AllOk(l, t) && a in l.accounts && l.accounts[a].cash + amount >= 0.0
    ensures AllOk(ReplenishStep(l, a, amount).0, TallyStep(l, t, Replenish(a, amount)))
  {
    hide AccountOk, Revalue;
    var v := ViewOf(l, t, a);
    assert AccountOk(v);
    hide SameHoldings;
    var account := v.book.account.(cash := v.book.account.cash + amount);
    DepositKeeps(v, account);
    var v1 := View(v.book.(account := account), v.orders, v.tally.(contributed := v.tally.contributed + amount));
    assert v.tally.contributed + account.cash - v.book.account.cash == v.tally.contributed + amount;
    RevalueHoldings(v1.book);
    RepriceKeeps(v1, Revalue(v1.book));
    TouchBook(l, a, Revalue(v1.book));
    var l' := ReplenishStep(l, a, amount).0;
    assert l' == WithBook(l, a, Revalue(v1.book));
    hide WellFormed, OnlyTouches, AllOk, BookOf;
    JudgeOne(l, l', t, a, v1.tally);
  }

  lemma {:induction false} ParsedOk(req: Request, now: int)
    ensures ParseOrder(req, now).Ok? ==> var o := ParseOrder(req, now).value;
              OrderOk(o) && o.status == New && (o.orderType == Limit ==> OrderOk(o.(status := Accepted)))
  {
  }

  /** A market order that fills takes its account through an unfilled entry and a fill. */
  lemma {:induction false} MarketKeeps(v: View, o: Order, quote: Quote, autoReplenish: bool, now: int)
    requires AccountOk(v) && OrderOk(o) && o.status == New && o.orderType == Market
    requires ExecuteMarket(v.book, o, quote, autoReplenish, now).Ok?
    ensures var (b, o') := ExecuteMarket(v.book, o, quote, autoReplenish, now).value;
            var price := MarketPrice(o.side, quote).value;
            && (o.side == Sell ==> o.symbol in v.book.positions)
            && AccountOk(View(b, [o'] + v.orders,
                              if o.side == Buy then TallyBuy(v.tally, v.book.positions, o.symbol, price, TopUp(v.book, Cost(o.qty, price)))
                              else TallyMarketSell(v.tally, v.book.positions[o.symbol], o.symbol, o.qty, price)))
  {
    var price := MarketPrice(o.side, quote).value;
    var v1 := v.(orders := [o] + v.orders);
    AddKeeps(v, o);
    assert v1.orders[0] == o && v1.orders[0 := Fill(o, price, now)] == [Fill(o, price, now)] + v.orders;
    hide AccountOk, OrderOk, Cost, BuyInto, SellFrom, Reduced, TallyBuy, TallyMarketSell;
    if o.side == Buy {
      BuyKeeps(v1, 0, price, TopUp(v.book, Cost(o.qty, price)), price * 0.99, now);
    } else {
      MarketSellKeeps(v1, 0, price, now);
    }
  }

  lemma {:induction false} SubmitKeeps(l: Ledger, t: map<string, Tally>, a: string, req: Request, quote: Quote, now: int, id: string)
    requires AllOk(l, t) && id !in l.orders
    ensures AllOk(CreateOrderStep(l, a, req, quote, now, id).0, TallySubmit(l, t, a, req, quote, now))
  {
    if a in l.accounts && ParseOrder(req, now).Ok? {
      var o := ParseOrder(req, now).value;
      ParsedOk(req, now);
      hide ParseOrder;
      assert l.positions[a := PositionsOf(l, a)] == l.positions;
      assert l.(positions := l.positions[a := PositionsOf(l, a)]) == l;
      match Place(BookOf(l, a), o, quote, l.autoReplenish, now)
      case Err(_) =>
      case Ok((b, o')) => PlacedKeeps(l, t, a, o, quote, now, id);
    }
  }

  /** A placed order, recorded and revalued. */
  lemma {:induction false} PlacedKeeps(l: Ledger, t: map<string, Tally>, a: string, o: Order, quote: Quote, now: int, id: string)
    requires AllOk(l, t) && id !in l.orders && a in l.accounts
    requires OrderOk(o) && o.status == New && (o.orderType == Limit ==> OrderOk(o.(status := Accepted)))
    requires Place(BookOf(l, a), o, quote, l.autoReplenish, now).Ok?
    ensures var (b, o') := Place(BookOf(l, a), o, quote, l.autoReplenish, now).value;
            var price := MarketPrice(o.side, quote);
            && (o.orderType == Market ==> price.Some?)
            && AllOk(WithBook(l, a, Revalue(b)).(orders := l.orders[id := o'], accountOrders := l.accountOrders[a := [id] + OrderIds(l, a)]),
                     if o.orderType == Market then TallyFill(l, t, a, o, price.value, TopUp(BookOf(l, a), Cost(o.qty, price.value))) else t)
  {
    hide AccountOk, OrderOk, Revalue, ExecuteMarket, Cost, TallyBuy, TallyMarketSell, TopUp;
    var v := ViewOf(l, t, a);
    var (b, o') := Place(v.book, o, quote, l.autoReplenish, now).value;
    var price := MarketPrice(o.side, quote);
    var v1 := View(b, [o'] + v.orders, v.tally);
    if o.orderType == Market {
      MarketPriced(v.book, o, quote, l.autoReplenish, now);
      MarketKeeps(v, o, quote, l.autoReplenish, now);
      v1 := v1.(tally := if o.side == Buy then TallyBuy(v.tally, v.book.positions, o.symbol, price.value, TopUp(v.book, Cost(o.qty, price.value)))
                         else TallyMarketSell(v.tally, v.book.positions[o.symbol], o.symbol, o.qty, price.value));
    } else {
      NotFilled(o);
      AddKeeps(v, o');
    }
    RevalueHoldings(b);
    RepriceKeeps(v1, Revalue(b));
    EnterOrder(l, a, id, o', Revalue(b));
    var l' := WithBook(l, a, Revalue(b)).(orders := l.orders[id := o'], accountOrders := l.accountOrders[a := [id] + OrderIds(l, a)]);
    JudgeOne(l, l', t, a, v1.tally);
    if o.orderType != Market {
      SameTally(l', t, a);
    }
  }

  lemma {:induction false} MarketPriced(b: Book, o: Order, quote: Quote, autoReplenish: bool, now: int)
    requires ExecuteMarket(b, o, quote, autoReplenish, now).Ok?
    ensures MarketPrice(o.side, quote).Some?
  {
  }

  lemma {:induction false} NotFilled(o: Order)
    requires o.status == New
    ensures o.(status := Accepted).status != Filled && o.status != Filled
  {
  }

  /** Recording an account's tally where it already was changes no view. */
  lemma {:induction false} SameTally(l: Ledger, t: map<string, Tally>, a: string)
    requires AllOk(l, t[a := TallyOf(t, a)])
    ensures AllOk(l, t)
  {
    hide AccountOk;
    forall b: string ensures AccountOk(ViewOf(l, t, b)) {
      assert ViewOf(l, t[a := TallyOf(t, a)], b) == ViewOf(l, t, b);
    }
  }

  lemma {:induction false} OwnerIndex(l: Ledger, a: string, id: string) returns (i: nat)
    requires WellFormed(l) && Owns(l, a, id)
    ensures i < |OrdersOf(l, a)| && OrderIds(l, a)[i] == id && OrdersOf(l, a)[i] == l.orders[id]
  {
    i :| 0 <= i < |l.accountOrders[a]| && l.accountOrders[a][i] == id;
  }

  lemma {:induction false} UnownedKeeps(l: Ledger, t: map<string, Tally>, id: string, o: Order)
    requires AllOk(l, t) && !exists a :: Owns(l, a, id)
    ensures AllOk(l.(orders := l.orders[id := o]), t)
  {
    hide AccountOk;
    var l' := l.(orders := l.orders[id := o]);
    assert forall a, x :: Owns(l', a, x) == Owns(l, a, x);
    forall a: string ensures AccountOk(ViewOf(l', t, a)) {
      forall i | 0 <= i < |OrderIds(l, a)| ensures OrdersOf(l', a)[i] == OrdersOf(l, a)[i] {
        assert Owns(l, a, OrderIds(l, a)[i]);
      }
      assert OrdersOf(l', a) == OrdersOf(l, a);
      assert ViewOf(l', t, a) == ViewOf(l, t, a);
    }
  }

  lemma {:induction false} CancelOwned(l: Ledger, t: map<string, Tally>, a: string, id: string, now: int)
    requires AllOk(l, t) && Owns(l, a, id) && id in l.orders && l.orders[id].status != Filled
    ensures AllOk(l.(orders := l.orders[id := l.orders[id].(status := Canceled, canceledAt := Some(now), updatedAt := now)]), t)
  {
    hide AccountOk;
    var o := l.orders[id].(status := Canceled, canceledAt := Some(now), updatedAt := now);
    var i := OwnerIndex(l, a, id);
    var v := ViewOf(l, t, a);
    CancelKeeps(v, i, now);
    TouchOrder(l, a, i, o, v.book);
    var l' := l.(orders := l.orders[id := o]);
    assert WithBook(l, a, v.book).(orders := l.orders[id := o]) == l';
    JudgeOne(l, l', t, a, v.tally);
    SameTally(l', t, a);
  }

  lemma {:induction false} CancelOpKeeps(l: Ledger, t: map<string, Tally>, id: string, now: int)
    requires AllOk(l, t)
    ensures AllOk(CancelStep(l, id, now).0, t)
  {
    hide AllOk;
    if id in l.orders && l.orders[id].status != Filled && l.orders[id].status != Canceled {
      if a :| Owns(l, a, id) {
        CancelOwned(l, t, a, id, now);
      } else {
        UnownedKeeps(l, t, id, l.orders[id].(status := Canceled, canceledAt := Some(now), updatedAt := now));
      }
    }
  }

  lemma {:induction false} RepricedHoldings(b: Book, prices: map<string, real>)
    ensures SameHoldings(b, Revalue(Book(b.account, RepriceAll(b.positions, prices))))
  {
  }

  lemma {:induction false} RepriceOpKeeps(l: Ledger, t: map<string, Tally>, prices: map<string, real>)
    requires AllOk(l, t)
    ensures AllOk(UpdateValuationsStep(l, prices), t)
  {
    hide AccountOk, Revalue, RepriceAll;
    var l' := UpdateValuationsStep(l, prices);
    assert forall a, x :: Owns(l', a, x) == Owns(l, a, x);
    forall a: string ensures AccountOk(ViewOf(l', t, a)) {
      assert OrdersOf(l', a) == OrdersOf(l, a);
      if a in l.accounts {
        RepricedHoldings(BookOf(l, a), prices);
        RepriceKeeps(ViewOf(l, t, a), UpdatedBook(l, a, prices));
        assert BookOf(l', a) == UpdatedBook(l, a, prices);
      } else {
        assert ViewOf(l', t, a) == ViewOf(l, t, a);
      }
    }
  }

  lemma {:induction false} DueIsFillable(v: View, i: nat, quotes: map<string, Quote>)
    requires i < |v.orders| && LimitPriceDue(v.orders[i], quotes).Some?
    ensures Fillable(v, i, LimitPriceDue(v.orders[i], quotes).value)
  {
  }

  /** A limit fill is one of the two account changes, at the matcher's price and with no cash put in. */
  lemma {:induction false} LimitFillKeeps(v: View, i: nat, price: real, now: int)
    requires AccountOk(v) && Fillable(v, i, price)
    ensures v.orders[i].side == Buy && LimitBuy(v.book, v.orders[i], price, now).Some? ==>
              var (b, o) := LimitBuy(v.book, v.orders[i], price, now).value;
              AccountOk(View(b, v.orders[i := o], TallyBuy(v.tally, v.book.positions, v.orders[i].symbol, price, 0.0)))
    ensures v.orders[i].side == Sell && LimitSell(v.book, v.orders[i], price, now).Some? ==>
              var (b, o) := LimitSell(v.book, v.orders[i], price, now).value;
              && v.orders[i].symbol in v.book.positions
              && AccountOk(View(b, v.orders[i := o],
                                TallySell(v.tally, v.book.positions[v.orders[i].symbol], v.orders[i].symbol, v.orders[i].qty, price)))
  {
    hide AccountOk, OrderOk, Cost, BuyInto, SellFrom, Reduced, TallyBuy, TallySell;
    if v.orders[i].side == Buy {
      if LimitBuy(v.book, v.orders[i], price, now).Some? {
        BuyKeeps(v, i, price, 0.0, 0.0, now);
      }
    } else if LimitSell(v.book, v.orders[i], price, now).Some? {
      SellKeeps(v, i, price, now);
    }
  }

  lemma {:induction false} FillLimitKeeps(l: Ledger, t: map<string, Tally>, a: string, id: string, quotes: map<string, Quote>, now: int)
    requires AllOk(l, t) && Owns(l, a, id) && id in l.orders && LimitPriceDue(l.orders[id], quotes).Some?
    ensures var price := LimitPriceDue(l.orders[id], quotes).value;
            AllOk(FillLimit(l, a, id, price, now),
                  if LimitFills(l, a, id, price, now) then TallyFill(l, t, a, l.orders[id], price, 0.0) else t)
  {
    hide AccountOk, Revalue, LimitBuy, LimitSell, TallyBuy, TallySell;
    var price, v := LimitPriceDue(l.orders[id], quotes).value, ViewOf(l, t, a);
    var i := OwnerIndex(l, a, id);
    DueIsFillable(v, i, quotes);
    hide LimitPriceDue;
    LimitFillKeeps(v, i, price, now);
    if LimitFills(l, a, id, price, now) {
      var o := l.orders[id];
      var (b, o') := (if o.side == Buy then LimitBuy(v.book, o, price, now) else LimitSell(v.book, o, price, now)).value;
      var tally := if o.side == Buy then TallyBuy(v.tally, v.book.positions, o.symbol, price, 0.0)
                   else TallySell(v.tally, v.book.positions[o.symbol], o.symbol, o.qty, price);
      RevalueHoldings(b);
      RepriceKeeps(View(b, v.orders[i := o'], tally), Revalue(b));
      TouchOrder(l, a, i, o', Revalue(b));
      JudgeOne(l, FillLimit(l, a, id, price, now), t, a, tally);
    }
  }

  lemma {:induction false} SweepKeeps(l: Ledger, t: map<string, Tally>, visits: seq<string>, quotes: map<string, Quote>, now: int)
    requires AllOk(l, t)
    ensures AllOk(Sweep(l, visits, quotes, now), TallySweep(l, t, visits, quotes, now))
  {
    if visits != [] {
      var rest, id := visits[..|visits| - 1], visits[|visits| - 1];
      SweepKeeps(l, t, rest, quotes, now);
      var m, u := Sweep(l, rest, quotes, now), TallySweep(l, t, rest, quotes, now);
      hide AllOk, FillLimit, LimitFills, TallyFill, LimitPriceDue;
      if id in m.orders && LimitPriceDue(m.orders[id], quotes).Some? && exists a :: Owns(m, a, id) {
        var a :| Owns(m, a, id) && SweepOne(m, id, quotes, now) == FillLimit(m, a, id, LimitPriceDue(m.orders[id], quotes).value, now);
        forall b | Owns(m, b, id) {
          FillLimitKeeps(m, u, b, id, quotes, now);
        }
      }
    }
  }

  /** Every admissible operation keeps every account's identities. */
  lemma {:induction false} StepKeeps(l: Ledger, t: map<string, Tally>, op: Op)
    requires AllOk(l, t) && Admissible(l, op)
    ensures AllOk(LedgerStep(l, op), TallyStep(l, t, op))
  {
    match op
    case OpenAccount(a, given) => OpenKeeps(l, t, a, given);
    case Seed(a, symbol, p) => SeedKeeps(l, t, a, symbol, p);
    case SetAuto(on) => SetAutoKeeps(l, t, on);
    case Replenish(a, amount) => if a in l.accounts { ReplenishKeeps(l, t, a, amount); }
    case Submit(a, req, quote, now, id) => SubmitKeeps(l, t, a, req, quote, now, id);
    case Cancel(id, now) => CancelOpKeeps(l, t, id, now);
    case Reprice(prices) => RepriceOpKeeps(l, t, prices);
    case CheckLimits(visits, quotes, now) => SweepKeeps(l, t, visits, quotes, now);
  }

  lemma {:induction false} SetAutoKeeps(l: Ledger, t: map<string, Tally>, on: bool)
    requires AllOk(l, t)
    ensures AllOk(l.(autoReplenish := on), t)
  {
    hide AccountOk;
    var l' := l.(autoReplenish := on);
    assert forall a, x :: Owns(l', a, x) == Owns(l, a, x);
    forall a: string ensures AccountOk(ViewOf(l', t, a)) {
      assert OrdersOf(l', a) == OrdersOf(l, a);
      assert ViewOf(l', t, a) == ViewOf(l, t, a);
    }
  }

  // ---- Runs from an empty store ----

  const EMPTY := Ledger(map[], map[], map[], map[], false)

  ghost function RunLedger(ops: seq<Op>): (r: Ledger) {
    if ops == [] then EMPTY else LedgerStep(RunLedger(ops[..|ops| - 1]), ops[|ops| - 1])
  }

  ghost function RunTally(ops: seq<Op>): (r: map<string, Tally>) {
    if ops == [] then map[] else TallyStep(RunLedger(ops[..|ops| - 1]), RunTally(ops[..|ops| - 1]), ops[|ops| - 1])
  }

  ghost predicate AdmissibleRun(ops: seq<Op>) {
    ops != [] ==> AdmissibleRun(ops[..|ops| - 1]) && Admissible(RunLedger(ops[..|ops| - 1]), ops[|ops| - 1])
  }

  lemma {:induction false} EmptyOk()
    ensures AllOk(EMPTY, map[])
  {
    forall a: string ensures AccountOk(ViewOf(EMPTY, map[], a)) {
      var v := ViewOf(EMPTY, map[], a);
      assert v.orders == [] && v.book.positions == map[] && v.tally == NO_TALLY;
      assert forall s :: SharesOk(v, s) && HeldOk(v, s);
    }
  }

  lemma {:induction false} RunKeeps(ops: seq<Op>)
    requires AdmissibleRun(ops)
    ensures AllOk(RunLedger(ops), RunTally(ops))
    decreases |ops|
  {
    hide AllOk, LedgerStep, TallyStep, Admissible;
    if ops == [] {
      EmptyOk();
    } else {
      RunKeeps(ops[..|ops| - 1]);
      StepKeeps(RunLedger(ops[..|ops| - 1]), RunTally(ops[..|ops| - 1]), ops[|ops| - 1]);
    }
  }

  /** An account's filled orders, each counted once, as cash and as shares of a symbol. */
  ghost function FilledCash(l: Ledger, a: string): (r: real)
    requires WellFormed(l)
  {
    Flow(OrdersOf(l, a), CashMoved())
  }

  ghost function FilledShares(l: Ledger, a: string, symbol: string): (r: real)
    requires WellFormed(l)
  {
    Flow(OrdersOf(l, a), SharesMoved(symbol))
  }

  /**
   * The ledger is the sum of its order log: over every run, in every map iteration order, an
   * account's cash is what came from outside plus what its filled orders moved, and its
   * shares are what was seeded plus what they moved, less the dust of closed positions.
   */
  lemma {:induction false} LedgerIsItsLog(ops: seq<Op>, a: string, symbol: string)
    requires AdmissibleRun(ops)
    ensures WellFormed(RunLedger(ops))
    ensures var l, tally := RunLedger(ops), TallyOf(RunTally(ops), a);
            var cash, lot := BookOf(l, a).account.cash, LotOf(tally, symbol);
            && cash == tally.contributed + FilledCash(l, a) && cash >= 0.0
            && Shares(PositionsOf(l, a), symbol) == lot.seeded + FilledShares(l, a, symbol) - lot.dust
            && 0.0 <= lot.dust <= DUST * lot.closes as real
  {
    RunKeeps(ops);
    var v := ViewOf(RunLedger(ops), RunTally(ops), a);
    hide Flow, BookOf, OrdersOf, TallyOf;
    assert AccountOk(v);
    assert SharesOk(v, symbol);
  }

  /** Every position put into the account from outside was at average cost. */
  ghost predicate AverageSeeds(ops: seq<Op>, a: string) {
    forall k :: 0 <= k < |ops| && ops[k].Seed? && ops[k].a == a ==> AverageCost(ops[k].p)
  }

  lemma {:induction false} SweepAveraged(l: Ledger, t: map<string, Tally>, visits: seq<string>, quotes: map<string, Quote>, now: int, a: string)
    ensures TallyOf(TallySweep(l, t, visits, quotes, now), a).averaged == TallyOf(t, a).averaged
  {
    hide FillLimit, LimitFills, LimitPriceDue, Sweep;
    if visits != [] {
      SweepAveraged(l, t, visits[..|visits| - 1], quotes, now, a);
    }
  }

  lemma {:induction false} StepAveraged(l: Ledger, t: map<string, Tally>, op: Op, a: string)
    ensures TallyOf(TallyStep(l, t, op), a).averaged
         == (TallyOf(t, a).averaged && (op.Seed? && op.a == a ==> AverageCost(op.p)))
  {
    hide TallySweep, AverageCost, ExecuteMarket, ParseOrder;
    if op.CheckLimits? {
      SweepAveraged(l, t, op.visits, op.quotes, op.now, a);
    }
  }

  /** The tally's flag means what it says. */
  lemma {:induction false} AveragedExactlyWhen(ops: seq<Op>, a: string)
    ensures TallyOf(RunTally(ops), a).averaged <==> AverageSeeds(ops, a)
    decreases |ops|
  {
    hide TallyStep, AverageCost;
    if ops != [] {
      var n := |ops| - 1;
      AveragedExactlyWhen(ops[..n], a);
      StepAveraged(RunLedger(ops[..n]), RunTally(ops[..n]), ops[n], a);
      assert AverageSeeds(ops, a) ==> AverageSeeds(ops[..n], a);
    }
  }

  lemma {:induction false} RunAveraged(ops: seq<Op>, a: string)
    requires AdmissibleRun(ops) && AverageSeeds(ops, a)
    ensures WellFormed(RunLedger(ops)) && AveragedOk(ViewOf(RunLedger(ops), RunTally(ops), a))
  {
    RunKeeps(ops);
    AveragedExactlyWhen(ops, a);
    hide RunLedger, RunTally, AverageSeeds, AveragedOk;
    assert AccountOk(ViewOf(RunLedger(ops), RunTally(ops), a));
  }

  /** Cash plus total cost basis is contributions plus realized gain less the basis of dust, plus what was clamped. */
  lemma {:induction false} BasisIsItsLog(ops: seq<Op>, a: string)
    requires AdmissibleRun(ops)
    ensures var l, tally := RunLedger(ops), TallyOf(RunTally(ops), a);
            && tally.clamped >= 0.0
            && BookOf(l, a).account.cash + Sum(PositionsOf(l, a), Basis())
            == tally.contributed + tally.seededBasis + tally.realized - tally.dustBasis + tally.clamped
  {
    RunKeeps(ops);
    hide RunLedger, RunTally;
    assert AccountOk(ViewOf(RunLedger(ops), RunTally(ops), a));
  }

  /** A market sale that leaves shares but would leave a negative basis, which the code clamps to zero. */
  ghost predicate ClampsIn(l: Ledger, op: Op, a: string) {
    && op.Submit? && op.a == a && a in l.accounts && ParseOrder(op.req, op.now).Ok?
    && var o := ParseOrder(op.req, op.now).value;
       && o.orderType == Market && o.side == Sell && ExecuteMarket(BookOf(l, a), o, op.quote, l.autoReplenish, op.now).Ok?
       && o.symbol in PositionsOf(l, a)
       && var p := PositionsOf(l, a)[o.symbol];
          p.qty - o.qty > DUST && Reduced(p, o.qty) < 0.0
  }

  lemma {:induction false} SweepClamped(l: Ledger, t: map<string, Tally>, visits: seq<string>, quotes: map<string, Quote>, now: int, a: string)
    ensures TallyOf(TallySweep(l, t, visits, quotes, now), a).clamped == TallyOf(t, a).clamped
  {
    hide FillLimit, LimitFills, Sweep, Cost, Reduced, Clamp;
    if visits != [] {
      SweepClamped(l, t, visits[..|visits| - 1], quotes, now, a);
    }
  }

  lemma {:induction false} StepClamped(l: Ledger, t: map<string, Tally>, op: Op, a: string)
    ensures TallyOf(TallyStep(l, t, op), a).clamped >= TallyOf(t, a).clamped
    ensures TallyOf(TallyStep(l, t, op), a).clamped == TallyOf(t, a).clamped <==> !ClampsIn(l, op, a)
  {
    hide TallySweep, AverageCost, ParseOrder, Cost, Reduced, TopUp, MarketBuy;
    if op.CheckLimits? {
      SweepClamped(l, t, op.visits, op.quotes, op.now, a);
    }
  }

  /** No market sale of the account was clamped. */
  ghost predicate NeverClamps(ops: seq<Op>, a: string) {
    forall k :: 0 <= k < |ops| ==> !ClampsIn(RunLedger(ops[..k]), ops[k], a)
  }

  lemma {:induction false} NeverClampsSnoc(ops: seq<Op>, a: string)
    requires ops != []
    ensures var n := |ops| - 1;
            NeverClamps(ops, a) <==> NeverClamps(ops[..n], a) && !ClampsIn(RunLedger(ops[..n]), ops[n], a)
  {
    hide RunLedger, ClampsIn;
    var n := |ops| - 1;
    assert forall k :: 0 <= k < n ==> ops[..n][..k] == ops[..k] && ops[..n][k] == ops[k];
    if NeverClamps(ops[..n], a) && !ClampsIn(RunLedger(ops[..n]), ops[n], a) {
      forall k | 0 <= k < |ops| ensures !ClampsIn(RunLedger(ops[..k]), ops[k], a) {
        assert k < n ==> !ClampsIn(RunLedger(ops[..n][..k]), ops[..n][k], a);
      }
    }
  }

  /** Nothing has been clamped in an account exactly when none of its market sales was. */
  lemma {:induction false} ClampedExactlyWhen(ops: seq<Op>, a: string)
    ensures TallyOf(RunTally(ops), a).clamped >= 0.0
    ensures TallyOf(RunTally(ops), a).clamped == 0.0 <==> NeverClamps(ops, a)
    decreases |ops|
  {
    hide TallyStep, ClampsIn;
    if ops != [] {
      var n := |ops| - 1;
      ClampedExactlyWhen(ops[..n], a);
      StepClamped(RunLedger(ops[..n]), RunTally(ops[..n]), ops[n], a);
      NeverClampsSnoc(ops, a);
      hide NeverClamps, RunLedger, TallyOf;
    }
  }

  /**
   * Over every run an account is self-financing, its cash plus total cost basis being contributions
   * plus realized gain less the basis of dust, exactly when none of its market sales was clamped.
   */
  lemma {:induction false} SelfFinancing(ops: seq<Op>, a: string)
    requires AdmissibleRun(ops)
    ensures var l, tally := RunLedger(ops), TallyOf(RunTally(ops), a);
            BookOf(l, a).account.cash + Sum(PositionsOf(l, a), Basis())
            == tally.contributed + tally.seededBasis + tally.realized - tally.dustBasis
            <==> NeverClamps(ops, a)
  {
    BasisIsItsLog(ops, a);
    ClampedExactlyWhen(ops, a);
    hide RunLedger, RunTally, NeverClamps, Sum;
  }

  /** In particular an account whose own seeds were all at average cost. */
  lemma {:induction false} AveragedNeverClamps(ops: seq<Op>, a: string)
    requires AdmissibleRun(ops) && AverageSeeds(ops, a)
    ensures NeverClamps(ops, a)
  {
    RunAveraged(ops, a);
    ClampedExactlyWhen(ops, a);
  }

  /** Every held position is at average cost, and that average lies between the buy prices since it opened. */
  lemma {:induction false} HeldAtAverageCost(ops: seq<Op>, a: string, symbol: string)
    requires AdmissibleRun(ops) && AverageSeeds(ops, a) && symbol in PositionsOf(RunLedger(ops), a)
    ensures var p, lot := PositionsOf(RunLedger(ops), a)[symbol], LotOf(TallyOf(RunTally(ops), a), symbol);
            AverageCost(p) && 0.0 < lot.low <= p.avgEntryPrice <= lot.high
  {
    RunAveraged(ops, a);
    assert HeldOk(ViewOf(RunLedger(ops), RunTally(ops), a), symbol);
  }

  /** Every order is in some account's list. */
  ghost predicate AllListed(l: Ledger) {
    forall id :: id in l.orders ==> exists a :: Owns(l, a, id)
  }

  lemma {:induction false} SameListsListed(l: Ledger, l': Ledger)
    requires AllListed(l) && l'.accountOrders == l.accountOrders && l'.orders.Keys <= l.orders.Keys
    ensures AllListed(l')
  {
    forall id | id in l'.orders ensures exists a :: Owns(l', a, id) {
      var a :| Owns(l, a, id);
      assert Owns(l', a, id);
    }
  }

  lemma {:induction false} SweepLists(l: Ledger, visits: seq<string>, quotes: map<string, Quote>, now: int)
    ensures Sweep(l, visits, quotes, now).accountOrders == l.accountOrders
    ensures Sweep(l, visits, quotes, now).orders.Keys == l.orders.Keys
  {
    hide Revalue, LimitBuy, LimitSell, LimitPriceDue;
    if visits != [] {
      SweepLists(l, visits[..|visits| - 1], quotes, now);
    }
  }

  lemma {:induction false} SubmitLists(l: Ledger, a: string, req: Request, quote: Quote, now: int, id: string)
    requires AllListed(l)
    ensures AllListed(CreateOrderStep(l, a, req, quote, now, id).0)
  {
    hide Revalue, Place, ParseOrder;
    var (l', r) := CreateOrderStep(l, a, req, quote, now, id);
    if r.Ok? {
      forall x | x in l'.orders ensures exists b :: Owns(l', b, x) {
        if x == id {
          assert Owns(l', a, x);
        } else {
          var b :| Owns(l, b, x);
          assert Owns(l', b, x);
        }
      }
    } else {
      SameListsListed(l, l');
    }
  }

  lemma {:induction false} StepLists(l: Ledger, op: Op)
    requires AllListed(l)
    ensures AllListed(LedgerStep(l, op))
  {
    hide AllListed, Revalue, Sweep, CreateOrderStep;
    match op
    case Submit(a, req, quote, now, id) => SubmitLists(l, a, req, quote, now, id);
    case CheckLimits(visits, quotes, now) =>
      SweepLists(l, visits, quotes, now);
      SameListsListed(l, LedgerStep(l, op));
    case _ => SameListsListed(l, LedgerStep(l, op));
  }

  lemma {:induction false} RunLists(ops: seq<Op>)
    ensures AllListed(RunLedger(ops))
    decreases |ops|
  {
    hide LedgerStep;
    if ops != [] {
      RunLists(ops[..|ops| - 1]);
      StepLists(RunLedger(ops[..|ops| - 1]), ops[|ops| - 1]);
    }
  }

  /** Every order of a run is in exactly one list, and in order: filled fully within its limit, or not at all. */
  lemma {:induction false} OrdersInOrder(ops: seq<Op>, id: string) returns (a: string)
    requires AdmissibleRun(ops) && id in RunLedger(ops).orders
    ensures OrderOk(RunLedger(ops).orders[id])
    ensures forall b :: Owns(RunLedger(ops), b, id) <==> b == a
  {
    RunKeeps(ops);
    RunLists(ops);
    var l := RunLedger(ops);
    a :| Owns(l, a, id);
    var i := OwnerIndex(l, a, id);
    assert AccountOk(ViewOf(l, RunTally(ops), a));
  }

  // ---- Orders execute at most once ----

  predicate IsFinished(l: Ledger, id: string) {
    id in l.orders && (l.orders[id].status == Filled || l.orders[id].status == Canceled)
  }

  /** One visit of the matcher moves only the visited order, and only in the account that owns it. */
  lemma {:induction false} SweepOneTouches(l: Ledger, id: string, quotes: map<string, Quote>, now: int)
    requires WellFormed(l)
    ensures forall x :: x in l.orders && (x != id || IsFinished(l, id)) ==>
              x in SweepOne(l, id, quotes, now).orders && SweepOne(l, id, quotes, now).orders[x] == l.orders[x]
    ensures forall b :: !Owns(l, b, id) ==> BookOf(SweepOne(l, id, quotes, now), b) == BookOf(l, b)
    ensures SweepOne(l, id, quotes, now).accountOrders == l.accountOrders
    ensures WellFormed(SweepOne(l, id, quotes, now))
  {
    hide Revalue, LimitBuy, LimitSell;
    var l' := SweepOne(l, id, quotes, now);
    assert forall c, x :: Owns(l', c, x) == Owns(l, c, x);
  }

  lemma {:induction false} SweepKeepsFinished(l: Ledger, visits: seq<string>, quotes: map<string, Quote>, now: int, id: string)
    requires WellFormed(l) && IsFinished(l, id)
    ensures WellFormed(Sweep(l, visits, quotes, now))
    ensures id in Sweep(l, visits, quotes, now).orders && Sweep(l, visits, quotes, now).orders[id] == l.orders[id]
  {
    hide SweepOne, WellFormed;
    if visits != [] {
      SweepKeepsFinished(l, visits[..|visits| - 1], quotes, now, id);
      SweepOneTouches(Sweep(l, visits[..|visits| - 1], quotes, now), visits[|visits| - 1], quotes, now);
    }
  }

  /** Filled and canceled are final: no operation changes such an order in any way. */
  lemma {:induction false} FinishedIsFinal(l: Ledger, op: Op, id: string)
    requires WellFormed(l) && Admissible(l, op) && IsFinished(l, id)
    ensures id in LedgerStep(l, op).orders && LedgerStep(l, op).orders[id] == l.orders[id]
  {
    hide WellFormed, Revalue, Place, ParseOrder;
    match op
    case CheckLimits(visits, quotes, now) => SweepKeepsFinished(l, visits, quotes, now, id);
    case _ =>
  }

  lemma {:induction false} RunFinished(ops: seq<Op>, i: nat, j: nat, id: string)
    requires AdmissibleRun(ops) && i <= j <= |ops| && IsFinished(RunLedger(ops[..i]), id)
    ensures id in RunLedger(ops[..j]).orders && RunLedger(ops[..j]).orders[id] == RunLedger(ops[..i]).orders[id]
    decreases j
  {
    hide LedgerStep, Admissible, AllOk;
    if i < j {
      RunFinished(ops, i, j - 1, id);
      RunPrefix(ops, j);
      RunPrefix(ops, j - 1);
      RunKeeps(ops[..j - 1]);
      assert ops[..j][..j - 1] == ops[..j - 1] && ops[..j][j - 1] == ops[j - 1];
      AllOkWellFormed(RunLedger(ops[..j - 1]), RunTally(ops[..j - 1]));
      FinishedIsFinal(RunLedger(ops[..j - 1]), ops[j - 1], id);
    }
  }

  lemma {:induction false} AllOkWellFormed(l: Ledger, t: map<string, Tally>)
    requires AllOk(l, t)
    ensures WellFormed(l)
  {
  }

  lemma {:induction false} RunPrefix(ops: seq<Op>, k: nat)
    requires AdmissibleRun(ops) && k <= |ops|
    ensures AdmissibleRun(ops[..k])
    decreases |ops|
  {
    hide Admissible;
    if k == |ops| {
      assert ops[..k] == ops;
    } else {
      RunPrefix(ops[..|ops| - 1], k);
      assert ops[..|ops| - 1][..k] == ops[..k];
    }
  }

  /** Whether the k-th operation of a run fills the order. */
  ghost predicate FillsIn(ops: seq<Op>, k: nat, id: string)
    requires k < |ops|
  {
    var before, after := RunLedger(ops[..k]), RunLedger(ops[..k + 1]);
    && id in after.orders && after.orders[id].status == Filled
    && (id in before.orders ==> before.orders[id].status != Filled)
  }

  /** No order executes twice in a run, and a canceled order never executes. */
  lemma {:induction false} ExecutesOnce(ops: seq<Op>, i: nat, j: nat, id: string)
    requires AdmissibleRun(ops) && i < j < |ops|
    ensures !(FillsIn(ops, i, id) && FillsIn(ops, j, id))
    ensures IsFinished(RunLedger(ops[..j]), id) ==> !FillsIn(ops, j, id)
  {
    if FillsIn(ops, i, id) {
      RunFinished(ops, i + 1, j, id);
    }
    if IsFinished(RunLedger(ops[..j]), id) {
      RunFinished(ops, j, j + 1, id);
    }
  }
}
