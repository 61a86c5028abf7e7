/**
 * The clearing engine: each tick takes a snapshot of the transfers in flight and moves every
 * one of them by at most one stage, in whatever order the snapshot lists them.
 */
module Settlement {
  import opened Banks
  import opened Wrappers

  const DEFAULT_TICK_INTERVAL: int := 1_000_000_000

  datatype Delays = Delays(post: int, settle: int)

  /** The status a snapshot record is due for, if any. */
  function Due(t: Transfer, now: int, d: Delays): (r: Option<Status>) {
    match t.status
    case Pending => if now - t.createdAt >= d.post then Some(Posted) else None
    case Posted => if now - t.createdAt >= d.post + d.settle then Some(Settled) else None
    case _ => None
  }

  /** One loop iteration: which transfer, and when its update ran. */
  datatype Visit = Visit(id: string, at: int)

  /** The updates a tick issues, decided from the snapshot b alone. */
  function TickEvents(b: Bank, now: int, d: Delays, visits: seq<Visit>): (r: seq<Event>)
    requires forall v :: v in visits ==> v.id in b.transfers
  {
    if visits == [] then []
    else
      var v := visits[|visits| - 1];
      var due := Due(b.transfers[v.id], now, d);
      TickEvents(b, now, d, visits[..|visits| - 1])
        + if due.Some? then [Update(v.id, due.value, "", v.at)] else []
  }

  function Tick(b: Bank, now: int, d: Delays, visits: seq<Visit>): (r: Bank)
    requires forall v :: v in visits ==> v.id in b.transfers
  {
    Run(b, TickEvents(b, now, d, visits))
  }

  /** The visits of one tick: every transfer in flight once, updated no earlier than now. */
  ghost predicate Sweep(b: Bank, now: int, visits: seq<Visit>) {
    && (forall k :: 0 <= k < |visits| ==>
          visits[k].id in b.transfers && IsHeld(b.transfers[visits[k].id].status) && visits[k].at >= now)
    && (forall j, k :: 0 <= j < k < |visits| ==> visits[j].id != visits[k].id)
    && (forall id :: id in b.transfers && IsHeld(b.transfers[id].status) ==>
          exists k :: 0 <= k < |visits| && visits[k].id == id)
  }

  /** What a tick makes of one snapshot record. */
  function Advanced(t: Transfer, now: int, d: Delays, at: int): (r: Transfer) {
    var due := Due(t, now, d);
    if due.Some? then Restamp(t, due.value, "", at) else t
  }

  ghost predicate Distinct(b: Bank, visits: seq<Visit>) {
    && (forall k :: 0 <= k < |visits| ==> visits[k].id in b.transfers && IsHeld(b.transfers[visits[k].id].status))
    && (forall j, k :: 0 <= j < k < |visits| ==> visits[j].id != visits[k].id)
  }

  /** No transfer names the custody account itself. */
  ghost predicate NoCustodyTransfers(b: Bank) {
    forall id :: id in b.transfers ==> b.transfers[id].accountId != b.custodyId
  }

  lemma {:induction false} RunSnoc(b: Bank, es: seq<Event>, e: Event)
    ensures Run(b, es + [e]) == Step(Run(b, es), e)
    ensures HoldSafe(b, es) && Fresh(Run(b, es), e) && KeepsHolds(Run(b, es), e) ==> HoldSafe(b, es + [e])
    ensures CustodySafe(b, es) && Fresh(Run(b, es), e) && KeepsCustody(Run(b, es), e) ==> CustodySafe(b, es + [e])
  {
    assert (es + [e])[..|es|] == es;
  }

  /** The records after the visits, each taken from the snapshot. */
  function Records(b: Bank, now: int, d: Delays, visits: seq<Visit>): (r: map<string, Transfer>)
    requires forall v :: v in visits ==> v.id in b.transfers
  {
    if visits == [] then b.transfers
    else
      var v := visits[|visits| - 1];
      Records(b, now, d, visits[..|visits| - 1])[v.id := Advanced(b.transfers[v.id], now, d, v.at)]
  }

  lemma {:induction false} RecordsLookup(b: Bank, now: int, d: Delays, visits: seq<Visit>)
    requires Distinct(b, visits)
    ensures Records(b, now, d, visits).Keys == b.transfers.Keys
    ensures forall k :: 0 <= k < |visits| ==>
              Records(b, now, d, visits)[visits[k].id] == Advanced(b.transfers[visits[k].id], now, d, visits[k].at)
    ensures forall id :: id in b.transfers && (forall k :: 0 <= k < |visits| ==> visits[k].id != id) ==>
              Records(b, now, d, visits)[id] == b.transfers[id]
    decreases |visits|
  {
    hide Advanced;
    if visits != [] {
      var rest := visits[..|visits| - 1];
      assert forall k :: 0 <= k < |rest| ==> rest[k] == visits[k];
      RecordsLookup(b, now, d, rest);
    }
  }

  lemma {:induction false} TickStep(cur: Bank, now: int, d: Delays, v: Visit)
    requires WellFormed(cur) && v.id in cur.transfers && IsHeld(cur.transfers[v.id].status)
    requires Due(cur.transfers[v.id], now, d).Some?
    ensures var t := cur.transfers[v.id];
            var e := Update(v.id, Due(t, now, d).value, "", v.at);
            && Step(cur, e).transfers == cur.transfers[v.id := Advanced(t, now, d, v.at)]
            && Step(cur, e).custodyId == cur.custodyId
            && WellFormed(Step(cur, e)) && Fresh(cur, e) && KeepsHolds(cur, e)
            && (t.accountId != cur.custodyId ==> KeepsCustody(cur, e))
  {
  }

  /** Every visited transfer advances from its snapshot record, the others stay, whatever the order. */
  lemma {:induction false} TickRecords(b: Bank, now: int, d: Delays, visits: seq<Visit>)
    requires WellFormed(b) && Distinct(b, visits)
    ensures WellFormed(Tick(b, now, d, visits))
    ensures Tick(b, now, d, visits).transfers == Records(b, now, d, visits)
    ensures Tick(b, now, d, visits).custodyId == b.custodyId
    ensures HoldSafe(b, TickEvents(b, now, d, visits))
    ensures NoCustodyTransfers(b) ==> CustodySafe(b, TickEvents(b, now, d, visits))
    decreases |visits|
  {
    if visits != [] {
      var rest, v := visits[..|visits| - 1], visits[|visits| - 1];
      assert forall k :: 0 <= k < |rest| ==> rest[k] == visits[k];
      assert v in visits;
      TickRecords(b, now, d, rest);
      RecordsLookup(b, now, d, rest);
      var due, es := Due(b.transfers[v.id], now, d), TickEvents(b, now, d, rest);
      hide Due, Advanced, Step, Fresh, KeepsHolds, KeepsCustody, WellFormed, HoldSafe, CustodySafe, Run;
      if due.Some? {
        TickStep(Run(b, es), now, d, v);
        RunSnoc(b, es, Update(v.id, due.value, "", v.at));
      } else {
        assert Advanced(b.transfers[v.id], now, d, v.at) == b.transfers[v.id] by { NotDue(b.transfers[v.id], now, d, v.at); }
        assert TickEvents(b, now, d, visits) == es + [] == es;
      }
    }
  }

  lemma {:induction false} NotDue(t: Transfer, now: int, d: Delays, at: int)
    requires Due(t, now, d).None?
    ensures Advanced(t, now, d, at) == t
  {
  }

  lemma {:induction false} TickTransfers(b: Bank, now: int, d: Delays, visits: seq<Visit>)
    requires WellFormed(b) && Distinct(b, visits)
    ensures WellFormed(Tick(b, now, d, visits))
    ensures Tick(b, now, d, visits).transfers.Keys == b.transfers.Keys
    ensures forall k :: 0 <= k < |visits| ==>
              Tick(b, now, d, visits).transfers[visits[k].id] == Advanced(b.transfers[visits[k].id], now, d, visits[k].at)
    ensures forall id :: id in b.transfers && (forall k :: 0 <= k < |visits| ==> visits[k].id != id) ==>
              Tick(b, now, d, visits).transfers[id] == b.transfers[id]
    ensures HoldSafe(b, TickEvents(b, now, d, visits))
  {
    hide Tick, Advanced, TickEvents, Records;
    TickRecords(b, now, d, visits);
    RecordsLookup(b, now, d, visits);
  }

  // ---- Runs of the engine beside new transfers ----

  datatype Round = Opened(create: Event) | Swept(now: int, visits: seq<Visit>)

  function TimeOf(r: Round): (t: int)
  {
    if r.Opened? then r.create.now else r.now
  }

  ghost predicate Next(b: Bank, r: Round, b': Bank, d: Delays) {
    match r
    case Opened(e) => e.Create? && Fresh(b, e) && b' == Step(b, e)
    case Swept(now, visits) => Sweep(b, now, visits) && b' == Tick(b, now, d, visits)
  }

  /** A run from a freshly seeded bank, at non-decreasing times. */
  ghost predicate IsRun(banks: seq<Bank>, rounds: seq<Round>, d: Delays) {
    && |banks| == |rounds| + 1
    && WellFormed(banks[0]) && banks[0].transfers == map[]
    && (forall k :: 0 <= k < |rounds| ==> Next(banks[k], rounds[k], banks[k + 1], d))
    && (forall j, k :: 0 <= j < k < |rounds| ==> TimeOf(rounds[j]) <= TimeOf(rounds[k]))
  }

  /** One record before and after a round: at most one stage forward, at the due time. */
  ghost predicate OneStage(t: Transfer, t': Transfer, now: int, d: Delays) {
    || t' == t
    || (t.status == Pending && t' == t.(status := Posted) && now >= t.createdAt + d.post)
    || (t.status == Posted && t'.settledAt.Some? && t'.settledAt.value >= now >= t.createdAt + d.post + d.settle
        && t' == t.(status := Settled, settledAt := t'.settledAt, returnCode := ""))
  }

  lemma {:induction false} RoundMoves(b: Bank, r: Round, b': Bank, d: Delays)
    requires WellFormed(b) && Next(b, r, b', d)
    ensures WellFormed(b')
    ensures forall id :: id in b.transfers ==>
              id in b'.transfers && OneStage(b.transfers[id], b'.transfers[id], TimeOf(r), d)
    ensures forall id :: id in b'.transfers && id !in b.transfers ==>
              b'.transfers[id].status in {Pending, Failed} && b'.transfers[id].createdAt == TimeOf(r)
  {
    match r
    case Opened(e) => StepWellFormed(b, e);
    case Swept(now, visits) =>
      TickTransfers(b, now, d, visits);
      forall id | id in b.transfers ensures OneStage(b.transfers[id], b'.transfers[id], now, d) {
        if k :| 0 <= k < |visits| && visits[k].id == id {
          assert b'.transfers[id] == Advanced(b.transfers[id], now, d, visits[k].at);
        }
      }
  }

  /** What the stage of a record says about the time. */
  ghost predicate Timely(t: Transfer, now: int, d: Delays) {
    && t.status in {Pending, Posted, Settled, Failed}
    && t.createdAt <= now
    && (t.status == Posted ==> now >= t.createdAt + d.post)
    && (t.status == Settled ==>
          t.settledAt.Some? && t.settledAt.value >= t.createdAt + d.post + d.settle && now >= t.createdAt + d.post + d.settle)
  }

  /** No transfer is posted before its post delay or settled before both delays have passed. */
  lemma {:induction false} NeverEarly(banks: seq<Bank>, rounds: seq<Round>, d: Delays, k: nat)
    requires IsRun(banks, rounds, d) && k < |banks|
    ensures WellFormed(banks[k])
    ensures forall id :: id in banks[k].transfers ==> k > 0 && Timely(banks[k].transfers[id], TimeOf(rounds[k - 1]), d)
    decreases k
  {
    if k > 0 {
      NeverEarly(banks, rounds, d, k - 1);
      RoundMoves(banks[k - 1], rounds[k - 1], banks[k], d);
      if k > 1 {
        assert TimeOf(rounds[k - 2]) <= TimeOf(rounds[k - 1]);
      }
    }
  }

  function Stage(s: Status): (n: nat) {
    match s
    case Pending => 0
    case Posted => 1
    case _ => 2
  }

  /** Between two points of a run a record only moves forward, and a finished one never changes. */
  lemma {:induction false} OnlyForward(banks: seq<Bank>, rounds: seq<Round>, d: Delays, i: nat, j: nat, id: string)
    requires IsRun(banks, rounds, d) && i <= j < |banks| && id in banks[i].transfers
    ensures id in banks[j].transfers
    ensures Stage(banks[i].transfers[id].status) <= Stage(banks[j].transfers[id].status)
    ensures !IsHeld(banks[i].transfers[id].status) ==> banks[j].transfers[id] == banks[i].transfers[id]
    decreases j
  {
    if i < j {
      OnlyForward(banks, rounds, d, i, j - 1, id);
      NeverEarly(banks, rounds, d, j - 1);
      RoundMoves(banks[j - 1], rounds[j - 1], banks[j], d);
    }
  }

  /** A transfer that goes from pending to settled was posted in between. */
  lemma {:induction false} PassesThroughPosted(banks: seq<Bank>, rounds: seq<Round>, d: Delays, i: nat, j: nat, id: string)
    returns (m: nat)
    requires IsRun(banks, rounds, d) && i < j < |banks| && id in banks[i].transfers && id in banks[j].transfers
    requires banks[i].transfers[id].status == Pending && banks[j].transfers[id].status == Settled
    ensures i < m < j && id in banks[m].transfers && banks[m].transfers[id].status == Posted
    decreases j
  {
    OnlyForward(banks, rounds, d, i, j - 1, id);
    NeverEarly(banks, rounds, d, j - 1);
    RoundMoves(banks[j - 1], rounds[j - 1], banks[j], d);
    if banks[j - 1].transfers[id].status == Posted {
      m := j - 1;
    } else {
      m := PassesThroughPosted(banks, rounds, d, i, j - 1, id);
    }
  }

  ghost predicate SettlesIn(banks: seq<Bank>, k: nat, id: string)
    requires k + 1 < |banks|
  {
    && id in banks[k].transfers && id in banks[k + 1].transfers
    && banks[k].transfers[id].status != Settled && banks[k + 1].transfers[id].status == Settled
  }

  /** A transfer settles in at most one round of a run. */
  lemma {:induction false} SettlesOnce(banks: seq<Bank>, rounds: seq<Round>, d: Delays, m: nat, n: nat, id: string)
    requires IsRun(banks, rounds, d) && m < n && n + 1 < |banks|
    ensures !(SettlesIn(banks, m, id) && SettlesIn(banks, n, id))
  {
    if SettlesIn(banks, m, id) {
      OnlyForward(banks, rounds, d, m + 1, n, id);
    }
  }

  lemma {:induction false} TickPosts(b: Bank, b': Bank, d: Delays, now: int, visits: seq<Visit>, id: string)
    requires WellFormed(b) && id in b.transfers && b.transfers[id].status == Pending
    requires Next(b, Swept(now, visits), b', d) && now >= b.transfers[id].createdAt + d.post
    ensures WellFormed(b') && id in b'.transfers && b'.transfers[id] == b.transfers[id].(status := Posted)
  {
    hide Tick, WellFormed;
    var k :| 0 <= k < |visits| && visits[k].id == id;
    TickTransfers(b, now, d, visits);
    assert b'.transfers[id] == Advanced(b.transfers[id], now, d, visits[k].at);
  }

  lemma {:induction false} TickSettles(b: Bank, b': Bank, d: Delays, now: int, visits: seq<Visit>, id: string)
    requires WellFormed(b) && id in b.transfers && b.transfers[id].status == Posted
    requires Next(b, Swept(now, visits), b', d) && now >= b.transfers[id].createdAt + d.post + d.settle
    ensures WellFormed(b') && id in b'.transfers && b'.transfers[id].status == Settled
  {
    hide Tick, WellFormed;
    var k :| 0 <= k < |visits| && visits[k].id == id;
    TickTransfers(b, now, d, visits);
    assert b'.transfers[id] == Advanced(b.transfers[id], now, d, visits[k].at);
  }

  lemma {:induction false} OnlyHeldMoves(b: Bank, b': Bank, d: Delays, now: int, visits: seq<Visit>, id: string)
    requires WellFormed(b) && id in b.transfers && !IsHeld(b.transfers[id].status)
    requires Next(b, Swept(now, visits), b', d)
    ensures id in b'.transfers && b'.transfers[id] == b.transfers[id]
  {
    hide Tick, WellFormed;
    TickTransfers(b, now, d, visits);
    assert forall k :: 0 <= k < |visits| ==> visits[k].id != id;
  }

  /** Two ticks at or after the full delay settle whatever was in flight before the first. */
  lemma {:induction false} TwoTicksSettle(b: Bank, b1: Bank, b2: Bank, d: Delays,
    now1: int, visits1: seq<Visit>, now2: int, visits2: seq<Visit>, id: string)
    requires WellFormed(b) && id in b.transfers && IsHeld(b.transfers[id].status)
    requires Next(b, Swept(now1, visits1), b1, d) && Next(b1, Swept(now2, visits2), b2, d) && now1 <= now2
    requires now1 >= b.transfers[id].createdAt + d.post && now1 >= b.transfers[id].createdAt + d.post + d.settle
    ensures id in b2.transfers && b2.transfers[id].status == Settled
  {
    hide Next, WellFormed;
    if b.transfers[id].status == Pending {
      TickPosts(b, b1, d, now1, visits1, id);
      TickSettles(b1, b2, d, now2, visits2, id);
    } else {
      TickSettles(b, b1, d, now1, visits1, id);
      OnlyHeldMoves(b1, b2, d, now2, visits2, id);
    }
  }

  /** In a run a transfer in flight stays on its way, and nothing but its stage changes before it settles. */
  lemma {:induction false} StaysOnItsWay(banks: seq<Bank>, rounds: seq<Round>, d: Delays, i: nat, j: nat, id: string)
    requires IsRun(banks, rounds, d) && i <= j < |banks| && id in banks[i].transfers && IsHeld(banks[i].transfers[id].status)
    ensures WellFormed(banks[j]) && id in banks[j].transfers
    ensures banks[j].transfers[id].status in {Pending, Posted, Settled}
    ensures banks[j].transfers[id].createdAt == banks[i].transfers[id].createdAt
    decreases j
  {
    NeverEarly(banks, rounds, d, j);
    if i < j {
      StaysOnItsWay(banks, rounds, d, i, j - 1, id);
      RoundMoves(banks[j - 1], rounds[j - 1], banks[j], d);
    }
  }

  /**
   * Any two ticks of a run at or after the full delay, whatever rounds lie between them, settle
   * whatever was in flight before the first, for good.
   */
  lemma {:induction false} TwoTicksInRun(banks: seq<Bank>, rounds: seq<Round>, d: Delays, i: nat, j: nat, k: nat, id: string)
    requires IsRun(banks, rounds, d) && i < j < k < |banks| && rounds[i].Swept? && rounds[j].Swept?
    requires id in banks[i].transfers && IsHeld(banks[i].transfers[id].status)
    requires rounds[i].now >= banks[i].transfers[id].createdAt + d.post
    requires rounds[i].now >= banks[i].transfers[id].createdAt + d.post + d.settle
    ensures id in banks[k].transfers && banks[k].transfers[id].status == Settled
  {
    var t := banks[i].transfers[id];
    NeverEarly(banks, rounds, d, i);
    assert Next(banks[i], rounds[i], banks[i + 1], d) && Next(banks[j], rounds[j], banks[j + 1], d);
    assert TimeOf(rounds[i]) <= TimeOf(rounds[j]);
    StaysOnItsWay(banks, rounds, d, i, j, id);
    hide Next, WellFormed;
    if t.status == Pending {
      TickPosts(banks[i], banks[i + 1], d, rounds[i].now, rounds[i].visits, id);
    } else {
      TickSettles(banks[i], banks[i + 1], d, rounds[i].now, rounds[i].visits, id);
    }
    OnlyForward(banks, rounds, d, i + 1, j, id);
    if banks[j].transfers[id].status == Posted {
      TickSettles(banks[j], banks[j + 1], d, rounds[j].now, rounds[j].visits, id);
      OnlyForward(banks, rounds, d, j + 1, k, id);
    } else {
      OnlyForward(banks, rounds, d, j, k, id);
    }
  }

  /** A tick conserves money, keeps every hold exact and keeps custody explained. */
  lemma {:induction false} TickIsSafe(b: Bank, now: int, d: Delays, visits: seq<Visit>)
    requires WellFormed(b) && Sweep(b, now, visits)
    ensures Total(Tick(b, now, d, visits)) == Total(b)
    ensures forall a :: a in b.accounts ==>
              a in Tick(b, now, d, visits).accounts && Reserve(Tick(b, now, d, visits), a) == Reserve(b, a)
    ensures NoCustodyTransfers(b) ==>
              && Tick(b, now, d, visits).custodyId in Tick(b, now, d, visits).accounts
              && CustodyOpening(Tick(b, now, d, visits)) == CustodyOpening(b)
  {
    var es := TickEvents(b, now, d, visits);
    TickRecords(b, now, d, visits);
    hide Reserve, Run, HoldSafe, Total, CustodyOpening, CustodySafe, TickEvents;
    RunConserves(b, es);
    if NoCustodyTransfers(b) {
      RunCustody(b, es);
    }
    forall a | a in b.accounts ensures a in Run(b, es).accounts && Reserve(Run(b, es), a) == Reserve(b, a) {
      RunHolds(b, es, a);
    }
  }

  /**
   * A tick is safe only undisturbed: if a debit in its snapshot is returned before the tick's
   * update runs, that update takes the account's hold out of balance by the amount.
   */
  lemma {:induction false} StaleSnapshotBreaksHold(b: Bank, id: string, target: Status, code: string, t1: int, t2: int)
    requires WellFormed(b) && id in b.transfers && target in {Posted, Settled}
    requires b.transfers[id].direction == Debit && IsHeld(b.transfers[id].status)
    ensures var a := b.transfers[id].accountId;
            var after := Step(Step(b, Update(id, Returned, code, t1)), Update(id, target, "", t2));
            a in after.accounts && Reserve(after, a) == Reserve(b, a) - b.transfers[id].amount
  {
    var a, returned := b.transfers[id].accountId, Step(b, Update(id, Returned, code, t1));
    StepWellFormed(b, Update(id, Returned, code, t1));
    assert returned.transfers[id].accountId == a && returned.transfers[id].status == Returned;
    hide Reserve, Clear;
    StepReserve(b, Update(id, Returned, code, t1), a);
    StepReserve(returned, Update(id, target, "", t2), a);
  }

  // ---- A tick disturbed by other operations ----

  /** What happens between a tick's snapshot and its end: its own updates, and other operations. */
  datatype Move = Visited(visit: Visit) | Between(event: Event)

  /** The events in their order; the tick still decides from its snapshot b alone. */
  function MoveEvents(b: Bank, now: int, d: Delays, moves: seq<Move>): (r: seq<Event>)
    requires forall v :: Visited(v) in moves ==> v.id in b.transfers
  {
    if moves == [] then []
    else
      var rest, m := moves[..|moves| - 1], moves[|moves| - 1];
      MoveEvents(b, now, d, rest) +
      match m
      case Between(e) => [e]
      case Visited(v) =>
        var due := Due(b.transfers[v.id], now, d);
        if due.Some? then [Update(v.id, due.value, "", v.at)] else []
  }

  /** The other operations are fresh and keep the holds themselves. */
  ghost predicate OthersSafe(b: Bank, now: int, d: Delays, moves: seq<Move>)
    requires forall v :: Visited(v) in moves ==> v.id in b.transfers
  {
    moves != [] ==>
      var rest, m := moves[..|moves| - 1], moves[|moves| - 1];
      var cur := Run(b, MoveEvents(b, now, d, rest));
      OthersSafe(b, now, d, rest) && (m.Between? ==> Fresh(cur, m.event) && KeepsHolds(cur, m.event))
  }

  /** No debit that the tick is about to move has been finished by another operation. */
  ghost predicate Undisturbed(b: Bank, now: int, d: Delays, moves: seq<Move>)
    requires forall v :: Visited(v) in moves ==> v.id in b.transfers
  {
    moves != [] ==>
      var rest, m := moves[..|moves| - 1], moves[|moves| - 1];
      var cur := Run(b, MoveEvents(b, now, d, rest));
      Undisturbed(b, now, d, rest)
      && (m.Visited? && Due(b.transfers[m.visit.id], now, d).Some? && b.transfers[m.visit.id].direction == Debit ==>
            m.visit.id in cur.transfers && IsHeld(cur.transfers[m.visit.id].status))
  }

  /** No operation removes a transfer or changes its direction. */
  lemma {:induction false} TransfersStay(b: Bank, es: seq<Event>, id: string)
    requires FreshRun(b, es) && id in b.transfers
    ensures id in Run(b, es).transfers && Run(b, es).transfers[id].direction == b.transfers[id].direction
    decreases |es|
  {
    if es != [] {
      TransfersStay(b, es[..|es| - 1], id);
    }
  }

  lemma {:induction false} FreshSnoc(b: Bank, es: seq<Event>, e: Event)
    requires FreshRun(b, es) && Fresh(Run(b, es), e)
    ensures FreshRun(b, es + [e])
    ensures HoldSafe(b, es + [e]) <==> HoldSafe(b, es) && KeepsHolds(Run(b, es), e)
  {
    assert (es + [e])[..|es|] == es;
  }

  lemma {:induction false} UpdateKeepsHolds(cur: Bank, v: Visit, t: Transfer, now: int, d: Delays)
    requires Due(t, now, d).Some? && v.id in cur.transfers && cur.transfers[v.id].direction == t.direction
    ensures Fresh(cur, Update(v.id, Due(t, now, d).value, "", v.at))
    ensures KeepsHolds(cur, Update(v.id, Due(t, now, d).value, "", v.at))
       <==> (t.direction == Debit ==> IsHeld(cur.transfers[v.id].status))
  {
  }

  lemma {:induction false} MovesHoldSafe(b: Bank, now: int, d: Delays, moves: seq<Move>)
    requires forall v :: Visited(v) in moves ==> v.id in b.transfers
    requires OthersSafe(b, now, d, moves)
    ensures FreshRun(b, MoveEvents(b, now, d, moves))
    ensures HoldSafe(b, MoveEvents(b, now, d, moves)) <==> Undisturbed(b, now, d, moves)
    decreases |moves|
  {
    if moves != [] {
      var rest, m := moves[..|moves| - 1], moves[|moves| - 1];
      MovesHoldSafe(b, now, d, rest);
      var es := MoveEvents(b, now, d, rest);
      hide HoldSafe, FreshRun, Run, Due, KeepsHolds, IsHeld;
      match m
      case Between(e) => FreshSnoc(b, es, e);
      case Visited(v) =>
        assert m in moves;
        var due := Due(b.transfers[v.id], now, d);
        if due.Some? {
          TransfersStay(b, es, v.id);
          UpdateKeepsHolds(Run(b, es), v, b.transfers[v.id], now, d);
          FreshSnoc(b, es, Update(v.id, due.value, "", v.at));
        } else {
          assert MoveEvents(b, now, d, moves) == es;
        }
    }
  }

  /**
   * However other operations fall between a tick's snapshot and its updates, as long as they keep
   * the holds themselves: every reserve is as it was at the end exactly when none of them finished
   * a due debit of the snapshot before the tick's own update of it.
   */
  lemma {:induction false} DisturbedTickSafeExactlyWhen(b: Bank, now: int, d: Delays, moves: seq<Move>)
    requires WellFormed(b) && forall v :: Visited(v) in moves ==> v.id in b.transfers
    requires OthersSafe(b, now, d, moves)
    ensures var after := Run(b, MoveEvents(b, now, d, moves));
            && after.accounts.Keys == b.accounts.Keys
            && ((forall a :: a in b.accounts ==> Reserve(after, a) == Reserve(b, a)) <==> Undisturbed(b, now, d, moves))
  {
    hide Reserve, Run, HoldSafe, FreshRun, WellFormed;
    MovesHoldSafe(b, now, d, moves);
    RunHoldsExactlyWhen(b, MoveEvents(b, now, d, moves));
  }

  // ---- The engine object ----

  lemma {:induction false} PendingIsHeld(b: Bank, pending: seq<(string, Transfer)>)
    ensures forall k :: 0 <= k < |pending| && pending[k].1.status in {Pending, Posted} ==> IsHeld(pending[k].1.status)
    ensures forall id :: id in b.transfers && IsHeld(b.transfers[id].status) ==> b.transfers[id].status in {Pending, Posted}
  {
  }

  /** Visiting the whole snapshot is a sweep. */
  lemma {:induction false} SweepComplete(b: Bank, now: int, pending: seq<(string, Transfer)>, visits: seq<Visit>)
    requires Distinct(b, visits) && |visits| == |pending|
    requires forall k :: 0 <= k < |visits| ==> visits[k].id == pending[k].0 && visits[k].at >= now
    requires forall id :: id in b.transfers && IsHeld(b.transfers[id].status) ==> (id, b.transfers[id]) in pending
    ensures Sweep(b, now, visits)
  {
    forall id | id in b.transfers && IsHeld(b.transfers[id].status)
      ensures exists k :: 0 <= k < |visits| && visits[k].id == id
    {
      var k :| 0 <= k < |pending| && pending[k] == (id, b.transfers[id]);
      assert visits[k].id == id;
    }
  }

  lemma {:induction false} NoVisits(b: Bank, now: int, d: Delays, others: nat -> seq<Event>)
    ensures Distinct(b, []) && TickAmong(b, now, d, [], others) == b
  {
  }

  lemma {:induction false} DistinctSnoc(b: Bank, visits: seq<Visit>, v: Visit)
    requires Distinct(b, visits) && v.id in b.transfers && IsHeld(b.transfers[v.id].status)
    requires forall k :: 0 <= k < |visits| ==> visits[k].id != v.id
    ensures Distinct(b, visits + [v])
  {
  }

  /** The moves of a tick whose k-th update finds the operations others(k) just before it. */
  function Interleaved(visits: seq<Visit>, others: nat -> seq<Event>): (r: seq<Move>)
    ensures forall v :: Visited(v) in r ==> v in visits
  {
    if visits == [] then []
    else
      var n := |visits| - 1;
      Interleaved(visits[..n], others) + OtherMoves(others(n)) + [Visited(visits[n])]
  }

  function OtherMoves(es: seq<Event>): (r: seq<Move>)
    ensures forall m :: m in r ==> m.Between?
  {
    if es == [] then [] else OtherMoves(es[..|es| - 1]) + [Between(es[|es| - 1])]
  }

  lemma {:induction false} MoveEventsSnoc(b: Bank, now: int, d: Delays, moves: seq<Move>, m: Move)
    requires forall v :: Visited(v) in moves + [m] ==> v.id in b.transfers
    ensures forall v :: Visited(v) in moves ==> v.id in b.transfers
    ensures MoveEvents(b, now, d, moves + [m]) == MoveEvents(b, now, d, moves) +
            match m
            case Between(e) => [e]
            case Visited(v) => (var due := Due(b.transfers[v.id], now, d); if due.Some? then [Update(v.id, due.value, "", v.at)] else [])
  {
    assert (moves + [m])[..|moves|] == moves;
    assert forall v :: Visited(v) in moves ==> Visited(v) in moves + [m];
  }

  lemma {:induction false} OtherMovesEvents(b: Bank, now: int, d: Delays, moves: seq<Move>, es: seq<Event>)
    requires forall v :: Visited(v) in moves ==> v.id in b.transfers
    ensures forall v :: Visited(v) in moves + OtherMoves(es) ==> v.id in b.transfers
    ensures MoveEvents(b, now, d, moves + OtherMoves(es)) == MoveEvents(b, now, d, moves) + es
    decreases |es|
  {
    hide MoveEvents, Due;
    if es == [] {
      assert moves + OtherMoves(es) == moves;
    } else {
      var rest, e := es[..|es| - 1], es[|es| - 1];
      OtherMovesEvents(b, now, d, moves, rest);
      assert moves + OtherMoves(es) == (moves + OtherMoves(rest)) + [Between(e)];
      MoveEventsSnoc(b, now, d, moves + OtherMoves(rest), Between(e));
      assert rest + [e] == es;
    }
  }

  lemma {:induction false} RunConcat(b: Bank, es: seq<Event>, more: seq<Event>)
    ensures Run(b, es + more) == Run(Run(b, es), more)
    decreases |more|
  {
    if more == [] {
      assert es + more == es;
    } else {
      var rest, e := more[..|more| - 1], more[|more| - 1];
      RunConcat(b, es, rest);
      assert es + more == (es + rest) + [e];
      RunSnoc(b, es + rest, e);
    }
  }

  /** A tick with others(k) just before its k-th update. */
  function TickAmong(b: Bank, now: int, d: Delays, visits: seq<Visit>, others: nat -> seq<Event>): (r: Bank)
    requires forall v :: v in visits ==> v.id in b.transfers
  {
    Run(b, MoveEvents(b, now, d, Interleaved(visits, others)))
  }

  /** One more loop iteration is the operations before it and one more visit. */
  lemma {:induction false} TickExtends(b: Bank, now: int, d: Delays, visits: seq<Visit>, others: nat -> seq<Event>, v: Visit)
    requires (forall u :: u in visits ==> u.id in b.transfers) && v.id in b.transfers
    ensures var before := Run(TickAmong(b, now, d, visits, others), others(|visits|));
            TickAmong(b, now, d, visits + [v], others)
            == if Due(b.transfers[v.id], now, d).Some?
               then UpdateStep(before, v.id, Due(b.transfers[v.id], now, d).value, "", v.at).0 else before
  {
    hide Due, UpdateStep;
    var n, moves := |visits|, Interleaved(visits, others);
    assert (visits + [v])[..n] == visits;
    OtherMovesEvents(b, now, d, moves, others(n));
    var all := moves + OtherMoves(others(n));
    MoveEventsSnoc(b, now, d, all, Visited(v));
    RunConcat(b, MoveEvents(b, now, d, moves), others(n));
    var due, es := Due(b.transfers[v.id], now, d), MoveEvents(b, now, d, all);
    if due.Some? {
      RunSnoc(b, es, Update(v.id, due.value, "", v.at));
    } else {
      assert es + [] == es;
    }
  }

  /** Undisturbed, it is the tick itself. */
  lemma {:induction false} TickAlone(b: Bank, now: int, d: Delays, visits: seq<Visit>, others: nat -> seq<Event>)
    requires (forall v :: v in visits ==> v.id in b.transfers) && forall k: nat :: k < |visits| ==> others(k) == []
    ensures TickAmong(b, now, d, visits, others) == Tick(b, now, d, visits)
    decreases |visits|
  {
    if visits != [] {
      var rest, v := visits[..|visits| - 1], visits[|visits| - 1];
      assert v in visits && rest + [v] == visits;
      TickAlone(b, now, d, rest, others);
      TickExtends(b, now, d, rest, others, v);
      var due, es := Due(b.transfers[v.id], now, d), TickEvents(b, now, d, rest);
      hide Due, UpdateStep, Tick, TickAmong;
      if due.Some? {
        RunSnoc(b, es, Update(v.id, due.value, "", v.at));
      } else {
        assert TickEvents(b, now, d, visits) == es + [] == es;
      }
      assert Tick(b, now, d, visits) == Run(b, TickEvents(b, now, d, visits)) by { TickMeans(b, now, d, visits); }
      assert Tick(b, now, d, rest) == Run(b, es) by { TickMeans(b, now, d, rest); }
    }
  }

  lemma {:induction false} TickMeans(b: Bank, now: int, d: Delays, visits: seq<Visit>)
    requires forall v :: v in visits ==> v.id in b.transfers
    ensures Tick(b, now, d, visits) == Run(b, TickEvents(b, now, d, visits))
  {
  }

  class SettlementEngine {
    const store: LedgerStore
    const tickInterval: int
    var postDelay: int
    var settleDelay: int

    constructor (store: LedgerStore, tickInterval: int)
      ensures this.store == store
      ensures this.tickInterval == if tickInterval <= 0 then 1_000_000_000 else tickInterval
      ensures postDelay == settleDelay == 2 * this.tickInterval
    {
      var interval := if tickInterval <= 0 then DEFAULT_TICK_INTERVAL else tickInterval;
      this.store := store;
      this.tickInterval := interval;
      postDelay := 2 * interval;
      settleDelay := 2 * interval;
    }

    method SetDelays(post: int, settle: int)
      modifies this
      ensures postDelay == post && settleDelay == settle
    {
      postDelay := post;
      settleDelay := settle;
    }

    /** One loop iteration, on the record the snapshot holds; what it returns is dispatched to webhooks. */
    method VisitOne(id: string, t: Transfer, now: int, at: int) returns (updated: seq<Transfer>)
      modifies store
      ensures store.View() == if Due(t, now, Delays(postDelay, settleDelay)).Some?
                              then UpdateStep(old(store.View()), id, Due(t, now, Delays(postDelay, settleDelay)).value, "", at).0
                              else old(store.View())
      ensures |updated| <= 1
    {
      hide UpdateStep;
      var elapsed := now - t.createdAt;
      var reply := Reply(None, None);
      updated := [];
      if t.status == Pending {
        if elapsed >= postDelay {
          reply := store.UpdateTransferStatus(id, Posted, "", at);
        }
      } else if t.status == Posted {
        if elapsed >= postDelay + settleDelay {
          reply := store.UpdateTransferStatus(id, Settled, "", at);
        }
      }
      if reply.error.None? && reply.transfer.Some? {
        updated := [reply.transfer.value];
      }
    }

    /** Operations that others get in between two of the tick's own. */
    method Perform(es: seq<Event>)
      modifies store
      ensures store.View() == Run(old(store.View()), es)
    {
      hide CreateStep, UpdateStep;
      ghost var b := store.View();
      assert es[..0] == [];
      for i := 0 to |es|
        invariant store.View() == Run(b, es[..i])
      {
        assert es[..i + 1][..i] == es[..i];
        match es[i]
        case Create(id, accountId, amount, direction, now) =>
          var _ := store.CreateTransfer(id, accountId, amount, direction, now);
        case Update(id, target, returnCode, now) =>
          var _ := store.UpdateTransferStatus(id, target, returnCode, now);
      }
      assert es[..|es|] == es;
    }

    /**
     * clock(k) is the time of the k-th loop iteration's update, others(k) what other operations
     * do to the store between the iteration before it, or the snapshot, and that update.
     */
    method TickOnce(now: int, clock: nat -> int, others: nat -> seq<Event>) returns (dispatched: seq<Transfer>, ghost visits: seq<Visit>)
      requires forall k: nat :: clock(k) >= now
      requires WellFormed(store.View())
      modifies store
      ensures Sweep(old(store.View()), now, visits)
      ensures store.View() == TickAmong(old(store.View()), now, Delays(postDelay, settleDelay), visits, others)
    {
      hide TickAmong, UpdateStep, WellFormed, Due, Distinct, IsHeld, Sweep, Run, Updated;
      ghost var b := store.View();
      var pending := store.GetPendingTransfers();
      PendingIsHeld(b, pending);
      dispatched, visits := [], [];
      NoVisits(b, now, Delays(postDelay, settleDelay), others);
      var i := 0;
      while i < |pending|
        invariant 0 <= i <= |pending|
        invariant |visits| == i && forall k :: 0 <= k < i ==> visits[k] == Visit(pending[k].0, clock(k))
        invariant Distinct(b, visits) && forall v :: v in visits ==> v.id in b.transfers
        invariant store.View() == TickAmong(b, now, Delays(postDelay, settleDelay), visits, others)
      {
        var (id, t) := pending[i];
        ghost var v := Visit(id, clock(i));
        DistinctSnoc(b, visits, v);
        TickExtends(b, now, Delays(postDelay, settleDelay), visits, others, v);
        Perform(others(i));
        var updated := VisitOne(id, t, now, clock(i));
        dispatched := dispatched + updated;
        visits := visits + [v];
        i := i + 1;
      }
      SweepComplete(b, now, pending, visits);
    }

    method SimulateSettlement(id: string, now: int) returns (reply: Reply)
      modifies store
      ensures (store.View(), reply) == UpdateStep(old(store.View()), id, Settled, "", now)
    {
      reply := store.UpdateTransferStatus(id, Settled, "", now);
    }

    /** A missing return code means insufficient funds. */
    method SimulateReturn(id: string, returnCode: string, now: int) returns (reply: Reply)
      modifies store
      ensures (store.View(), reply)
           == UpdateStep(old(store.View()), id, Returned, if returnCode == "" then "R01" else returnCode, now)
    {
      var code := if returnCode == "" then "R01" else returnCode;
      reply := store.UpdateTransferStatus(id, Returned, code, now);
    }
  }
}
