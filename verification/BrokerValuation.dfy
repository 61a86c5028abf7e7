/**
 * How far an account's balances are from the value of its holdings: which operations bring
 * the two together, and what is left over at any point of a run.
 */
module BrokerValuations {
  import opened BrokerBooks
  import opened BrokerLedgers
  import opened BrokerRuns
  import opened MapSums
  import opened Wrappers

  /** Equity in excess of cash plus the positions at their current prices. */
  ghost function Drift(b: Book): (r: real) {
    b.account.equity - b.account.cash - Sum(b.positions, MarketValue())
  }

  ghost predicate Powered(b: Book) {
    b.account.buyingPower == 2.0 * b.account.cash
  }

  lemma {:induction false} ValuedMeans(b: Book)
    ensures Valued(b) <==> Powered(b) && Drift(b) == 0.0
  {
  }

  /** What one symbol's position is worth. */
  function Worth(positions: map<string, Position>, symbol: string): (r: real) {
    if symbol in positions then positions[symbol].qty * positions[symbol].currentPrice else 0.0
  }

  // ---- What each operation does to one account ----

  lemma {:induction false} Revalued(l: Ledger, a: string, b: Book)
    ensures BookOf(WithBook(l, a, Revalue(b)), a) == Revalue(b) && Valued(Revalue(b))
  {
    RevalueValues(b);
  }

  /** Opening an account values it exactly when the given market values match its positions. */
  lemma {:induction false} OpenValuesExactlyWhen(l: Ledger, a: string, given: Account)
    ensures Valued(BookOf(CreateAccountStep(l, a, given), a))
       <==> given.longMarketValue - given.shortMarketValue == Sum(PositionsOf(l, a), MarketValue())
  {
    assert BookOf(CreateAccountStep(l, a, given), a).positions == PositionsOf(l, a);
  }

  /** Seeding takes its worth out of the valuation, and puts back the worth it replaces. */
  lemma {:induction false} SeedDrifts(l: Ledger, a: string, symbol: string, p: Position)
    ensures var b, b' := BookOf(l, a), BookOf(SetPositionStep(l, a, symbol, p), a);
            && b'.account == b.account
            && Drift(b') == Drift(b) - (p.qty * p.currentPrice - Worth(b.positions, symbol))
  {
    SumUpdate(PositionsOf(l, a), MarketValue(), symbol, p);
    hide Sum;
  }

  /** Seeding a valued account leaves it valued exactly when the position is worth what it replaces. */
  lemma {:induction false} SeedValuedExactlyWhen(l: Ledger, a: string, symbol: string, p: Position)
    requires Valued(BookOf(l, a))
    ensures Valued(BookOf(SetPositionStep(l, a, symbol, p), a))
       <==> p.qty * p.currentPrice == Worth(PositionsOf(l, a), symbol)
  {
    SeedDrifts(l, a, symbol, p);
    hide Sum;
  }

  /** A replenishment values its account, whatever the state before. */
  lemma {:induction false} ReplenishValues(l: Ledger, a: string, amount: real)
    ensures ReplenishStep(l, a, amount).1.Ok? ==> Valued(BookOf(ReplenishStep(l, a, amount).0, a))
  {
    hide Valued, Revalue;
    if a in l.accounts {
      Revalued(l, a, BookOf(l, a).(account := BookOf(l, a).account.(cash := BookOf(l, a).account.cash + amount)));
    }
  }

  /** An order placed values its account, whatever the state before; one refused moves no account. */
  lemma {:induction false} SubmitValues(l: Ledger, a: string, req: Request, quote: Quote, now: int, id: string)
    ensures var (l', r) := CreateOrderStep(l, a, req, quote, now, id);
            && (r.Ok? ==> Valued(BookOf(l', a)))
            && (forall b :: b != a || r.Err? ==> BookOf(l', b) == BookOf(l, b))
  {
    hide Revalue, Valued, Place, ParseOrder;
    var (l', r) := CreateOrderStep(l, a, req, quote, now, id);
    if r.Ok? {
      var (b, _) := Place(BookOf(l, a), ParseOrder(req, now).value, quote, l.autoReplenish, now).value;
      Revalued(l.(positions := l.positions[a := PositionsOf(l, a)]), a, b);
    }
  }

  /** Repricing values every account, whatever came before, and leaves the rest alone. */
  lemma {:induction false} RepriceValues(l: Ledger, prices: map<string, real>, a: string)
    ensures a in l.accounts ==> Valued(BookOf(UpdateValuationsStep(l, prices), a))
    ensures a !in l.accounts ==> BookOf(UpdateValuationsStep(l, prices), a) == BookOf(l, a)
  {
    hide Valued, Revalue, RepriceAll;
    if a in l.accounts {
      RevalueValues(Book(BookOf(l, a).account, RepriceAll(PositionsOf(l, a), prices)));
      if a !in l.positions {
        EmptyRevalued(l, a, prices);
      }
      assert BookOf(UpdateValuationsStep(l, prices), a) == UpdatedBook(l, a, prices);
    }
  }

  lemma {:induction false} EmptyRevalued(l: Ledger, a: string, prices: map<string, real>)
    requires a !in l.positions
    ensures UpdatedBook(l, a, prices).positions == map[]
  {
  }

  // ---- The limit matcher ----

  /** Whether one visit of the matcher fills an order of account a. */
  ghost predicate VisitFills(l: Ledger, id: string, quotes: map<string, Quote>, now: int, a: string) {
    && id in l.orders && LimitPriceDue(l.orders[id], quotes).Some? && Owns(l, a, id)
    && LimitFills(l, a, id, LimitPriceDue(l.orders[id], quotes).value, now)
  }

  ghost predicate SweepFills(l: Ledger, visits: seq<string>, quotes: map<string, Quote>, now: int, a: string) {
    visits != [] &&
    (SweepFills(l, visits[..|visits| - 1], quotes, now, a)
     || VisitFills(Sweep(l, visits[..|visits| - 1], quotes, now), visits[|visits| - 1], quotes, now, a))
  }

  /** A limit fill values its account; an order that does not fill moves nothing. */
  lemma {:induction false} FillLimitValues(l: Ledger, a: string, id: string, price: real, now: int)
    requires id in l.orders
    ensures LimitFills(l, a, id, price, now) ==> Valued(BookOf(FillLimit(l, a, id, price, now), a))
    ensures forall b :: b != a || !LimitFills(l, a, id, price, now) ==> BookOf(FillLimit(l, a, id, price, now), b) == BookOf(l, b)
  {
    hide Revalue, Valued, LimitBuy, LimitSell;
    var o := l.orders[id];
    var fill := if o.side == Buy then LimitBuy(BookOf(l, a), o, price, now) else LimitSell(BookOf(l, a), o, price, now);
    if fill.Some? {
      Revalued(l, a, fill.value.0);
    }
  }

  lemma {:induction false} VisitValues(l: Ledger, id: string, quotes: map<string, Quote>, now: int, a: string)
    requires WellFormed(l)
    ensures VisitFills(l, id, quotes, now, a) ==> Valued(BookOf(SweepOne(l, id, quotes, now), a))
    ensures !VisitFills(l, id, quotes, now, a) ==> BookOf(SweepOne(l, id, quotes, now), a) == BookOf(l, a)
  {
    hide FillLimit, LimitFills, Valued, BookOf;
    if id in l.orders && LimitPriceDue(l.orders[id], quotes).Some? && exists b :: Owns(l, b, id) {
      var price := LimitPriceDue(l.orders[id], quotes).value;
      hide LimitPriceDue;
      var b :| Owns(l, b, id) && SweepOne(l, id, quotes, now) == FillLimit(l, b, id, price, now);
      FillLimitValues(l, b, id, price, now);
      assert Owns(l, a, id) ==> a == b;
    }
  }

  /** A check of the limit orders values every account it fills in, and moves no other. */
  lemma {:induction false} SweepValues(l: Ledger, visits: seq<string>, quotes: map<string, Quote>, now: int, a: string)
    requires WellFormed(l)
    ensures WellFormed(Sweep(l, visits, quotes, now))
    ensures SweepFills(l, visits, quotes, now, a) ==> Valued(BookOf(Sweep(l, visits, quotes, now), a))
    ensures !SweepFills(l, visits, quotes, now, a) ==> BookOf(Sweep(l, visits, quotes, now), a) == BookOf(l, a)
  {
    hide WellFormed, Valued, BookOf, VisitFills, SweepOne;
    if visits != [] {
      var m, id := Sweep(l, visits[..|visits| - 1], quotes, now), visits[|visits| - 1];
      SweepValues(l, visits[..|visits| - 1], quotes, now, a);
      SweepOneTouches(m, id, quotes, now);
      VisitValues(m, id, quotes, now, a);
    }
  }

  // ---- Any operation ----

  /** Whether an operation rederives the balances of account a. */
  ghost predicate Revalues(l: Ledger, op: Op, a: string) {
    match op
    case Replenish(b, _) => b == a && a in l.accounts
    case Submit(b, req, quote, now, id) => b == a && CreateOrderStep(l, b, req, quote, now, id).1.Ok?
    case Reprice(_) => a in l.accounts
    case CheckLimits(visits, quotes, now) => SweepFills(l, visits, quotes, now, a)
    case _ => false
  }

  /** What is outstanding for account a after an operation, given what was outstanding before. */
  ghost function Carried(l: Ledger, op: Op, a: string, before: real): (r: real) {
    if Revalues(l, op, a) then 0.0
    else
      match op
      case OpenAccount(b, given) =>
        if b == a then given.longMarketValue - given.shortMarketValue - Sum(PositionsOf(l, a), MarketValue()) else before
      case Seed(b, symbol, p) => if b == a then before + Worth(PositionsOf(l, a), symbol) - p.qty * p.currentPrice else before
      case _ => before
  }

  /** An opening whose market values match the positions there, a seed worth what it replaces, or anything else. */
  ghost predicate Matched(l: Ledger, op: Op, a: string) {
    match op
    case OpenAccount(b, given) =>
      b == a ==> given.longMarketValue - given.shortMarketValue == Sum(PositionsOf(l, a), MarketValue())
    case Seed(b, symbol, p) => b == a ==> p.qty * p.currentPrice == Worth(PositionsOf(l, a), symbol)
    case _ => true
  }

  /** Neither opened, nor seeded, nor revalued: the account's book is as it was. */
  lemma {:induction false} Untouched(l: Ledger, op: Op, a: string)
    requires WellFormed(l) && !Revalues(l, op, a) && !((op.OpenAccount? || op.Seed?) && op.a == a)
    ensures BookOf(LedgerStep(l, op), a) == BookOf(l, a)
  {
    hide WellFormed, Revalue, Sweep, SweepFills, CreateOrderStep;
    match op
    case Submit(b, req, quote, now, id) => SubmitValues(l, b, req, quote, now, id);
    case Reprice(prices) => RepriceValues(l, prices, a);
    case CheckLimits(visits, quotes, now) => SweepValues(l, visits, quotes, now, a);
    case _ =>
  }

  /** An operation that revalues an account leaves it valued, whatever the state before. */
  lemma {:induction false} StepValues(l: Ledger, op: Op, a: string)
    requires WellFormed(l) && Revalues(l, op, a)
    ensures Valued(BookOf(LedgerStep(l, op), a))
  {
    hide WellFormed, Valued, Revalue, Sweep, SweepFills, CreateOrderStep;
    match op
    case Replenish(b, amount) => ReplenishValues(l, b, amount);
    case Submit(b, req, quote, now, id) => SubmitValues(l, b, req, quote, now, id);
    case Reprice(prices) => RepriceValues(l, prices, a);
    case CheckLimits(visits, quotes, now) => SweepValues(l, visits, quotes, now, a);
  }

  /** How any operation moves the drift of any account. */
  lemma {:induction false} StepDrifts(l: Ledger, op: Op, a: string)
    requires WellFormed(l) && Powered(BookOf(l, a))
    ensures Powered(BookOf(LedgerStep(l, op), a))
    ensures Drift(BookOf(LedgerStep(l, op), a)) == Carried(l, op, a, Drift(BookOf(l, a)))
  {
    hide WellFormed, Sum;
    if Revalues(l, op, a) {
      StepValues(l, op, a);
      hide LedgerStep, Revalues;
    } else if op.Seed? && op.a == a {
      SeedDrifts(l, a, op.symbol, op.p);
    } else if !(op.OpenAccount? && op.a == a) {
      Untouched(l, op, a);
      hide LedgerStep, Revalues;
    }
  }

  /** A valued account stays valued exactly when the operation brings in nothing unmatched. */
  lemma {:induction false} StepKeepsValuedExactlyWhen(l: Ledger, op: Op, a: string)
    requires WellFormed(l) && Valued(BookOf(l, a))
    ensures Valued(BookOf(LedgerStep(l, op), a)) <==> Matched(l, op, a)
  {
    hide LedgerStep, Sum, SweepFills, CreateOrderStep;
    StepDrifts(l, op, a);
  }

  // ---- Runs ----

  /** What openings and seedings of the account have left unmatched since it was last revalued, from the operations alone. */
  ghost function Outstanding(ops: seq<Op>, a: string): (r: real) {
    if ops == [] then 0.0
    else
      Carried(RunLedger(ops[..|ops| - 1]), ops[|ops| - 1], a, Outstanding(ops[..|ops| - 1], a))
  }

  /**
   * At every point of every run an account's buying power is twice its cash, and its equity is
   * cash plus the positions at their current prices plus exactly what is outstanding.
   */
  lemma {:induction false} RunDrifts(ops: seq<Op>, a: string)
    requires AdmissibleRun(ops)
    ensures Powered(BookOf(RunLedger(ops), a)) && Drift(BookOf(RunLedger(ops), a)) == Outstanding(ops, a)
    decreases |ops|
  {
    if ops == [] {
      assert BookOf(EMPTY, a) == Book(NO_ACCOUNT, map[]);
    } else {
      var n := |ops| - 1;
      RunDrifts(ops[..n], a);
      RunKeeps(ops[..n]);
      hide LedgerStep, Admissible, AllOk, Powered, Drift, Carried;
      AllOkWellFormed(RunLedger(ops[..n]), RunTally(ops[..n]));
      StepDrifts(RunLedger(ops[..n]), ops[n], a);
    }
  }

  /** So it is valued exactly when nothing is outstanding. */
  lemma {:induction false} RunValuedExactlyWhen(ops: seq<Op>, a: string)
    requires AdmissibleRun(ops)
    ensures Valued(BookOf(RunLedger(ops), a)) <==> Outstanding(ops, a) == 0.0
  {
    RunDrifts(ops, a);
    hide RunLedger, Outstanding, Sum;
  }

  /** In particular from any revaluation on until the next opening or seeding of the account. */
  lemma {:induction false} ValuedSinceRevalued(ops: seq<Op>, k: nat, a: string)
    requires AdmissibleRun(ops) && k < |ops| && Revalues(RunLedger(ops[..k]), ops[k], a)
    requires forall j :: k < j < |ops| && (ops[j].OpenAccount? || ops[j].Seed?) ==> ops[j].a != a
    ensures Valued(BookOf(RunLedger(ops), a))
  {
    OutstandingSince(ops, k, a);
    RunValuedExactlyWhen(ops, a);
  }

  lemma {:induction false} OutstandingSince(ops: seq<Op>, k: nat, a: string)
    requires k < |ops| && Revalues(RunLedger(ops[..k]), ops[k], a)
    requires forall j :: k < j < |ops| && (ops[j].OpenAccount? || ops[j].Seed?) ==> ops[j].a != a
    ensures Outstanding(ops, a) == 0.0
    decreases |ops|
  {
    hide Revalues, RunLedger;
    var n := |ops| - 1;
    if k < n {
      assert ops[..n][..k] == ops[..k];
      OutstandingSince(ops[..n], k, a);
    }
  }
}
