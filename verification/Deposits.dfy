/**
 * Claiming due recurring deposits: the calendar arithmetic of the next charge, the batch a
 * call claims, and what repeated calls claim. Instants are nanoseconds since the zero time
 * (1 January of year 1, UTC), so the zero time is instant 0.
 */
module Deposits {

  const DAY: int := 86_400_000_000_000
  const MICRO: int := 1000

  // ---- The proleptic Gregorian calendar ----

  datatype DateTime = DateTime(year: int, month: int, day: int, nanos: int) {
    predicate Valid() {
      && 1 <= month <= 12 && 1 <= day <= DaysIn(year, month) && 0 <= nanos < DAY
    }
  }

  predicate IsLeap(y: int) {
    y % 4 == 0 && (y % 100 != 0 || y % 400 == 0)
  }

  function DaysIn(y: int, m: int): (d: int)
    requires 1 <= m <= 12
    ensures 28 <= d <= 31
  {
    if m == 2 then (if IsLeap(y) then 29 else 28)
    else if m == 4 || m == 6 || m == 9 || m == 11 then 30 else 31
  }

  function DaysBeforeYear(y: int): (d: int) {
    var n := y - 1;
    365 * n + n / 4 - n / 100 + n / 400
  }

  function DaysBeforeMonth(y: int, m: int): (d: int)
    requires 1 <= m <= 13
    decreases m
  {
    if m == 1 then 0 else DaysBeforeMonth(y, m - 1) + DaysIn(y, m - 1)
  }

  /** Days since the zero time; a month out of range carries into the year, a day into the month. */
  function DateDays(year: int, month: int, day: int): (n: int) {
    var y := year + (month - 1) / 12;
    var m := (month - 1) % 12 + 1;
    DaysBeforeYear(y) + DaysBeforeMonth(y, m) + day - 1
  }

  /** time.Date in UTC. */
  function Date(year: int, month: int, day: int, nanos: int): (t: int) {
    DateDays(year, month, day) * DAY + nanos
  }

  function Instant(t: DateTime): (r: int) {
    Date(t.year, t.month, t.day, t.nanos)
  }

  function AddDate(t: DateTime, years: int, months: int, days: int): (r: int) {
    Date(t.year + years, t.month + months, t.day + days, t.nanos)
  }

  lemma {:induction false} LeapSteps(y: int)
    ensures y / 4 - (y - 1) / 4 == if y % 4 == 0 then 1 else 0
    ensures y / 100 - (y - 1) / 100 == if y % 100 == 0 then 1 else 0
    ensures y / 400 - (y - 1) / 400 == if y % 400 == 0 then 1 else 0
    ensures y % 400 == 0 ==> y % 100 == 0
    ensures y % 100 == 0 ==> y % 4 == 0
  {
  }

  lemma {:induction false} MonthsOfYear(y: int)
    ensures DaysBeforeMonth(y, 13) == 365 + if IsLeap(y) then 1 else 0
  {
    hide IsLeap;
    assert DaysBeforeMonth(y, 4) == 59 + 31 + if IsLeap(y) then 1 else 0;
    assert DaysBeforeMonth(y, 7) == DaysBeforeMonth(y, 4) + 91;
    assert DaysBeforeMonth(y, 10) == DaysBeforeMonth(y, 7) + 92;
    assert DaysBeforeMonth(y, 13) == DaysBeforeMonth(y, 10) + 92;
  }

  lemma {:induction false} YearLength(y: int)
    ensures DaysBeforeYear(y + 1) == DaysBeforeYear(y) + DaysBeforeMonth(y, 13)
  {
    hide DaysBeforeMonth;
    LeapSteps(y);
    MonthsOfYear(y);
  }

  lemma {:induction false} DateDaysInYear(y: int, m: int, day: int)
    requires 1 <= m <= 13
    ensures m <= 12 ==> DateDays(y, m, day) == DaysBeforeYear(y) + DaysBeforeMonth(y, m) + day - 1
    ensures m == 13 ==> DateDays(y, m, day) == DaysBeforeYear(y + 1) + day - 1
  {
    hide DaysBeforeYear;
    assert DaysBeforeMonth(y + 1, 1) == 0;
  }

  lemma {:induction false} NextMonthDays(y: int, m: int, day: int)
    requires 1 <= m <= 12
    ensures DateDays(y, m + 1, day) == DateDays(y, m, day) + DaysIn(y, m)
  {
    assert DaysBeforeMonth(y, m + 1) == DaysBeforeMonth(y, m) + DaysIn(y, m);
    hide DaysBeforeYear, DateDays, DaysBeforeMonth;
    DateDaysInYear(y, m, day);
    DateDaysInYear(y, m + 1, day);
    YearLength(y);
  }

  /** One calendar month later is later by exactly the length of the current month. */
  lemma {:induction false} MonthLater(t: DateTime)
    requires t.Valid()
    ensures AddDate(t, 0, 1, 0) == Instant(t) + DaysIn(t.year, t.month) * DAY
  {
    hide DateDays;
    NextMonthDays(t.year, t.month, t.day);
  }

  lemma {:induction false} DaysLater(t: DateTime, n: int)
    requires t.Valid()
    ensures AddDate(t, 0, 0, n) == Instant(t) + n * DAY
  {
    hide DaysBeforeYear, DaysBeforeMonth;
    assert DateDays(t.year, t.month, t.day + n) == DateDays(t.year, t.month, t.day) + n;
  }

  /** The lengths of the months, February's by the Gregorian rule. */
  lemma {:induction false} MonthLengths(y: int, m: int)
    requires 1 <= m <= 12
    ensures m in {1, 3, 5, 7, 8, 10, 12} ==> DaysIn(y, m) == 31
    ensures m in {4, 6, 9, 11} ==> DaysIn(y, m) == 30
    ensures m == 2 ==> DaysIn(y, m) == if y % 4 == 0 && (y % 100 != 0 || y % 400 == 0) then 29 else 28
  {
  }

  /** Instants count from the zero time, and the day after any date is 24 hours on, across months and years. */
  lemma {:induction false} InstantCounts(t: DateTime)
    requires t.Valid()
    ensures Instant(DateTime(1, 1, 1, 0)) == 0
    ensures Instant(t) == Instant(t.(nanos := 0)) + t.nanos
    ensures t.day < DaysIn(t.year, t.month) ==> Instant(t.(day := t.day + 1)) == Instant(t) + 86_400_000_000_000
    ensures t.day == DaysIn(t.year, t.month) && t.month < 12 ==>
              Instant(t.(month := t.month + 1, day := 1)) == Instant(t) + 86_400_000_000_000
    ensures t.day == 31 && t.month == 12 ==>
              Instant(DateTime(t.year + 1, 1, 1, t.nanos)) == Instant(t) + 86_400_000_000_000
  {
    assert Instant(DateTime(1, 1, 1, 0)) == 0;
    var last := DaysIn(t.year, t.month);
    assert t.month == 12 ==> last == 31;
    NextMonthDays(t.year, t.month, 1);
    assert DateDays(t.year, t.month, t.day) == DateDays(t.year, t.month, 1) + t.day - 1;
    hide DaysIn;
    if t.month == 12 {
      DateDaysInYear(t.year, 13, 1);
      DateDaysInYear(t.year + 1, 1, 1);
      assert DaysBeforeMonth(t.year + 1, 1) == 0;
      hide DateDays, DaysBeforeMonth, DaysBeforeYear;
    } else {
      hide DateDays, DaysBeforeMonth, DaysBeforeYear;
    }
  }

  // ---- Claiming ----

  datatype Deposit = Deposit(id: string, status: string, frequency: string, nextChargeAt: int)

  /** Deposits that are active (or carry no status) and whose next charge is unset or has come. */
  predicate IsDue(d: Deposit, now: int) {
    && (d.status == "active" || d.status == "")
    && (d.nextChargeAt == 0 || d.nextChargeAt <= now)
  }

  function NextCharge(now: DateTime, frequency: string): (r: int) {
    if frequency == "weekly" then AddDate(now, 0, 0, 7)
    else if frequency == "biweekly" then AddDate(now, 0, 0, 14)
    else AddDate(now, 0, 1, 0)
  }

  /** The least number of days between two charges of a frequency. */
  function MinimumGap(frequency: string): (days: int) {
    if frequency == "weekly" then 7 else if frequency == "biweekly" then 14 else 28
  }

  /** The days to the next charge: seven, fourteen, or as many as the current month has. */
  function ChargeDays(now: DateTime, frequency: string): (days: int)
    requires now.Valid()
  {
    if frequency == "weekly" then 7 else if frequency == "biweekly" then 14 else DaysIn(now.year, now.month)
  }

  /** The next charge is exactly so many times 24 hours on. */
  lemma {:induction false} NextChargeIs(now: DateTime, frequency: string)
    requires now.Valid()
    ensures NextCharge(now, frequency) == Instant(now) + ChargeDays(now, frequency) * 86_400_000_000_000
  {
    hide AddDate, Instant;
    MonthLater(now);
    DaysLater(now, 7);
    DaysLater(now, 14);
  }

  lemma {:induction false} NextChargeGap(now: DateTime, frequency: string)
    requires now.Valid()
    ensures NextCharge(now, frequency) >= Instant(now) + MinimumGap(frequency) * DAY
    ensures frequency == "weekly" || frequency == "biweekly" ==>
              NextCharge(now, frequency) == Instant(now) + MinimumGap(frequency) * DAY
  {
    hide AddDate, Instant;
    MonthLater(now);
    DaysLater(now, 7);
    DaysLater(now, 14);
  }

  /** The schedule column keeps microseconds; the driver drops the rest. */
  function Stored(t: int): (r: int)
    ensures r <= t < r + MICRO
  {
    t - t % MICRO
  }

  lemma {:induction false} StoredMonotone(s: int, t: int)
    requires s <= t
    ensures Stored(s) <= Stored(t)
  {
  }

  lemma {:induction false} StoredDays(t: int, days: int)
    ensures Stored(t + days * DAY) == Stored(t) + days * DAY
  {
    assert days * DAY == days * (DAY / MICRO) * MICRO;
    assert (t + days * (DAY / MICRO) * MICRO) % MICRO == t % MICRO;
  }

  /** In stored time, too, the next charge is at least the minimum gap later, and for weeks exactly. */
  lemma {:induction false} StoredGap(now: DateTime, frequency: string)
    requires now.Valid()
    ensures Stored(NextCharge(now, frequency)) >= Stored(Instant(now)) + MinimumGap(frequency) * DAY
    ensures frequency == "weekly" || frequency == "biweekly" ==>
              Stored(NextCharge(now, frequency)) == Stored(Instant(now)) + MinimumGap(frequency) * DAY
  {
    hide NextCharge, Instant, Stored;
    NextChargeGap(now, frequency);
    StoredDays(Instant(now), MinimumGap(frequency));
    StoredMonotone(Instant(now) + MinimumGap(frequency) * DAY, NextCharge(now, frequency));
  }

  function DueList(deposits: seq<Deposit>, now: int): (r: seq<Deposit>)
    ensures |r| <= |deposits|
  {
    if deposits == [] then []
    else
      var n := |deposits| - 1;
      DueList(deposits[..n], now) + if IsDue(deposits[n], now) then [deposits[n]] else []
  }

  /** The first batchSize due deposits in listing order; all of them for a size that is not positive. */
  function Batch(due: seq<Deposit>, batchSize: int): (r: seq<Deposit>)
    ensures r <= due
  {
    if batchSize > 0 && |due| > batchSize then due[..batchSize] else due
  }

  function Claimed(deposits: seq<Deposit>, now: DateTime, batchSize: int): (r: seq<Deposit>) {
    Batch(DueList(deposits, Instant(now)), batchSize)
  }

  /** A claimed deposit as the call returns it. */
  function Advance(d: Deposit, now: DateTime): (r: Deposit) {
    d.(nextChargeAt := NextCharge(now, d.frequency))
  }

  /** A claimed deposit as the schedule keeps it. */
  function Moved(d: Deposit, now: DateTime): (r: Deposit) {
    d.(nextChargeAt := Stored(NextCharge(now, d.frequency)))
  }

  /** The schedule after a claim: claimed deposits whose advance succeeded move on. */
  function AfterClaim(deposits: seq<Deposit>, claimed: seq<Deposit>, now: DateTime, succeeds: string -> bool): (r: seq<Deposit>)
    ensures |r| == |deposits|
  {
    seq(|deposits|, i requires 0 <= i < |deposits| =>
      if deposits[i] in claimed && succeeds(deposits[i].id) then Moved(deposits[i], now) else deposits[i])
  }

  /** UPDATE ... SET next_charge_at WHERE deposit_id = id. */
  function SetSchedule(deposits: seq<Deposit>, id: string, nextChargeAt: int): (r: seq<Deposit>) {
    seq(|deposits|, i requires 0 <= i < |deposits| =>
      if deposits[i].id == id then deposits[i].(nextChargeAt := Stored(nextChargeAt)) else deposits[i])
  }

  ghost predicate DistinctIds(deposits: seq<Deposit>) {
    forall i, j :: 0 <= i < j < |deposits| ==> deposits[i].id != deposits[j].id
  }

  lemma {:induction false} DueListMembers(deposits: seq<Deposit>, now: int)
    ensures forall d :: d in DueList(deposits, now) <==> d in deposits && IsDue(d, now)
  {
    if deposits != [] {
      var n := |deposits| - 1;
      DueListMembers(deposits[..n], now);
      assert deposits == deposits[..n] + [deposits[n]];
    }
  }

  lemma {:induction false} DueListSnoc(deposits: seq<Deposit>, d: Deposit, now: int)
    ensures DueList(deposits + [d], now) == DueList(deposits, now) + if IsDue(d, now) then [d] else []
  {
    assert (deposits + [d])[..|deposits|] == deposits;
  }

  /** A schedule update by another call. */
  datatype Change = Change(id: string, nextChargeAt: int)

  function Changed(deposits: seq<Deposit>, changes: seq<Change>): (r: seq<Deposit>)
    ensures |r| == |deposits|
  {
    if changes == [] then deposits
    else
      var c := changes[|changes| - 1];
      SetSchedule(Changed(deposits, changes[..|changes| - 1]), c.id, c.nextChargeAt)
  }

  /** Whether the k-th listed deposit is claimed: it is due, and fewer than batchSize before it are. */
  predicate Taken(deposits: seq<Deposit>, k: nat, now: DateTime, batchSize: int)
    requires k < |deposits|
  {
    IsDue(deposits[k], Instant(now)) && (batchSize > 0 ==> |DueList(deposits[..k], Instant(now))| < batchSize)
  }

  /** The schedule after the turns of the first n listed deposits, among the updates of other calls. */
  function AfterTurns(deposits: seq<Deposit>, n: nat, now: DateTime, batchSize: int, succeeds: string -> bool,
                      others: nat -> seq<Change>): (r: seq<Deposit>)
    requires n <= |deposits|
    ensures |r| == |deposits|
  {
    if n == 0 then deposits
    else
      var s := Changed(AfterTurns(deposits, n - 1, now, batchSize, succeeds, others), others(n - 1));
      var d := deposits[n - 1];
      if Taken(deposits, n - 1, now, batchSize) && succeeds(d.id) then SetSchedule(s, d.id, NextCharge(now, d.frequency)) else s
  }

  /** The returned dates. */
  ghost predicate ReturnedOn(due: seq<Deposit>, now: DateTime)
    requires now.Valid()
  {
    forall k :: 0 <= k < |due| ==>
      due[k].nextChargeAt == Instant(now) + ChargeDays(now, due[k].frequency) * 86_400_000_000_000
  }

  lemma {:induction false} DatesMean(due: seq<Deposit>, claimed: seq<Deposit>, now: DateTime)
    requires |due| == |claimed| && forall k :: 0 <= k < |due| ==> due[k] == Advance(claimed[k], now)
    ensures now.Valid() ==> ReturnedOn(due, now)
  {
    hide NextCharge, Instant;
    forall k | 0 <= k < |due| && now.Valid()
      ensures due[k].nextChargeAt == Instant(now) + ChargeDays(now, due[k].frequency) * 86_400_000_000_000
    {
      NextChargeIs(now, due[k].frequency);
    }
  }

  class DepositService {
    var deposits: seq<Deposit>

    constructor (initial: seq<Deposit>)
      ensures deposits == initial
    {
      deposits := initial;
    }

    /** A failing call changes nothing. */
    method AdvanceSchedule(id: string, nextChargeAt: int, ok: bool)
      modifies this
      ensures deposits == if ok then SetSchedule(old(deposits), id, nextChargeAt) else old(deposits)
      ensures |deposits| == |old(deposits)|
      ensures forall p :: 0 <= p < |deposits| ==>
                deposits[p] == if ok && old(deposits)[p].id == id then old(deposits)[p].(nextChargeAt := nextChargeAt - nextChargeAt % 1000)
                               else old(deposits)[p]
    {
      if ok {
        deposits := SetSchedule(deposits, id, nextChargeAt);
      }
    }

    /** Schedule updates that other calls get in. */
    method Perform(changes: seq<Change>)
      modifies this
      ensures deposits == Changed(old(deposits), changes)
    {
      hide SetSchedule;
      ghost var before := deposits;
      assert changes[..0] == [];
      for i := 0 to |changes|
        invariant deposits == Changed(before, changes[..i])
      {
        assert changes[..i + 1][..i] == changes[..i];
        AdvanceSchedule(changes[i].id, changes[i].nextChargeAt, true);
      }
      assert changes[..|changes|] == changes;
    }

    /**
     * Claims a batch, decided from the listing: a claimed deposit is returned even when its advance
     * fails. others(k) is what other calls do to the schedule before the k-th listed deposit's turn;
     * the call ends after the first `turns` of them.
     */
    method ClaimDue(now: DateTime, batchSize: int, succeeds: string -> bool, others: nat -> seq<Change>)
      returns (due: seq<Deposit>, ghost turns: nat)
      requires DistinctIds(deposits)
      modifies this
      ensures |due| == |Claimed(old(deposits), now, batchSize)|
      ensures forall k :: 0 <= k < |due| ==> due[k] == Advance(Claimed(old(deposits), now, batchSize)[k], now)
      ensures turns <= |old(deposits)| && forall d :: d in Claimed(old(deposits), now, batchSize) ==> d in old(deposits)[..turns]
      ensures deposits == AfterTurns(old(deposits), turns, now, batchSize, succeeds, others)
      ensures now.Valid() ==> ReturnedOn(due, now)
    {
      hide ReturnedOn, NextCharge, Instant, IsDue, SetSchedule, DueList, Changed;
      var deps := deposits;
      var instant := Instant(now);
      due := [];
      ghost var claimed: seq<Deposit> := [];
      var i := 0;
      NothingDue(instant);
      assert deps[..0] == [];
      while i < |deps|
        invariant 0 <= i <= |deps|
        invariant claimed == DueList(deps[..i], instant)
        invariant batchSize > 0 ==> |claimed| < batchSize
        invariant forall d :: d in claimed ==> d in deps[..i]
        invariant deposits == AfterTurns(deps, i, now, batchSize, succeeds, others)
        invariant |due| == |claimed| && forall k :: 0 <= k < |due| ==> due[k] == Advance(claimed[k], now)
      {
        var d := deps[i];
        assert deps[..i + 1] == deps[..i] + [d];
        DueListSnoc(deps[..i], d, instant);
        Perform(others(i));
        i := i + 1;
        if IsDue(d, instant) {
          var next := NextCharge(now, d.frequency);
          AdvanceSchedule(d.id, next, succeeds(d.id));
          claimed := claimed + [d];
          due := due + [d.(nextChargeAt := next)];
          if batchSize > 0 && |due| >= batchSize {
            DueListPrefix(deps, i, instant);
            assert claimed == DueList(deps, instant)[..batchSize];
            assert claimed == Claimed(deps, now, batchSize);
            DatesMean(due, claimed, now);
            return due, i;
          }
        }
      }
      assert deps[..|deps|] == deps;
      DatesMean(due, claimed, now);
      turns := i;
    }
  }

  lemma {:induction false} ClaimOneMore(deps: seq<Deposit>, claimed: seq<Deposit>, i: nat, now: DateTime, succeeds: string -> bool)
    requires DistinctIds(deps) && i < |deps| && forall d :: d in claimed ==> d in deps[..i]
    ensures AfterClaim(deps, claimed + [deps[i]], now, succeeds)
         == if succeeds(deps[i].id)
            then SetSchedule(AfterClaim(deps, claimed, now, succeeds), deps[i].id, NextCharge(now, deps[i].frequency))
            else AfterClaim(deps, claimed, now, succeeds)
  {
    hide NextCharge;
    assert deps[i] !in deps[..i];
    var more, before := claimed + [deps[i]], AfterClaim(deps, claimed, now, succeeds);
    var after := if succeeds(deps[i].id) then SetSchedule(before, deps[i].id, NextCharge(now, deps[i].frequency)) else before;
    forall k | 0 <= k < |deps| ensures AfterClaim(deps, more, now, succeeds)[k] == after[k] {
      assert deps[k] in more <==> deps[k] in claimed || deps[k] == deps[i];
      assert before[k] == if deps[k] in claimed && succeeds(deps[k].id) then Moved(deps[k], now) else deps[k];
      assert k != i ==> deps[k].id != deps[i].id;
    }
  }

  lemma {:induction false} NothingDue(now: int)
    ensures DueList([], now) == []
  {
  }

  lemma {:induction false} NothingClaimed(deps: seq<Deposit>, now: DateTime, succeeds: string -> bool)
    ensures AfterClaim(deps, [], now, succeeds) == deps
  {
  }

  /** What is due in a prefix is a prefix of what is due. */
  lemma {:induction false} DueListPrefix(deposits: seq<Deposit>, i: nat, now: int)
    requires i <= |deposits|
    ensures DueList(deposits[..i], now) <= DueList(deposits, now)
    decreases |deposits|
  {
    if i == |deposits| {
      assert deposits[..i] == deposits;
    } else {
      var rest := deposits[..|deposits| - 1];
      DueListPrefix(rest, i, now);
      assert rest[..i] == deposits[..i];
    }
  }

  /**
   * What a batch is: deposits that are active or carry no status and whose charge is unset or has
   * come, as many as the batch takes, none before one that is passed over.
   */
  lemma {:induction false} ClaimedMeans(deposits: seq<Deposit>, now: DateTime, batchSize: int)
    requires DistinctIds(deposits)
    ensures forall d :: d in Claimed(deposits, now, batchSize) ==>
              d in deposits && d.status in {"active", ""} && (d.nextChargeAt == 0 || d.nextChargeAt <= Instant(now))
    ensures batchSize > 0 ==> |Claimed(deposits, now, batchSize)| <= batchSize
    ensures batchSize <= 0 || |Claimed(deposits, now, batchSize)| < batchSize ==>
              forall d :: d in deposits && d.status in {"active", ""} && (d.nextChargeAt == 0 || d.nextChargeAt <= Instant(now)) ==>
                d in Claimed(deposits, now, batchSize)
    ensures forall i, j ::
              (0 <= i < j < |deposits| && deposits[j] in Claimed(deposits, now, batchSize)
               && deposits[i].status in {"active", ""} && (deposits[i].nextChargeAt == 0 || deposits[i].nextChargeAt <= Instant(now)))
              ==> deposits[i] in Claimed(deposits, now, batchSize)
  {
    DueListMembers(deposits, Instant(now));
    hide Instant, DueList;
    forall i, j | 0 <= i < j < |deposits| && deposits[j] in Claimed(deposits, now, batchSize) && IsDue(deposits[i], Instant(now))
      ensures deposits[i] in Claimed(deposits, now, batchSize)
    {
      TakenIsClaimed(deposits, i, now, batchSize);
      TakenIsClaimed(deposits, j, now, batchSize);
      assert deposits[..j][..i] == deposits[..i];
      DueListPrefix(deposits[..j], i, Instant(now));
    }
  }

  /** What an undisturbed claim leaves in the schedule. */
  lemma {:induction false} ScheduleMeans(deposits: seq<Deposit>, turns: nat, now: DateTime, batchSize: int, succeeds: string -> bool,
                                         others: nat -> seq<Change>, p: nat)
    requires DistinctIds(deposits) && turns <= |deposits| && forall k: nat :: k < turns ==> others(k) == []
    requires forall d :: d in Claimed(deposits, now, batchSize) ==> d in deposits[..turns]
    requires now.Valid() && p < |deposits|
    ensures var d := deposits[p];
            var next := Instant(now) + ChargeDays(now, d.frequency) * 86_400_000_000_000;
            AfterTurns(deposits, turns, now, batchSize, succeeds, others)[p]
            == if d in Claimed(deposits, now, batchSize) && succeeds(d.id) then d.(nextChargeAt := next - next % 1000) else d
  {
    hide Instant, NextCharge, Claimed;
    ClaimAlone(deposits, turns, now, batchSize, succeeds, others);
    NextChargeIs(now, deposits[p].frequency);
  }

  // ---- A claim among the updates of other calls ----

  lemma {:induction false} TakenIsClaimed(deposits: seq<Deposit>, k: nat, now: DateTime, batchSize: int)
    requires DistinctIds(deposits) && k < |deposits|
    ensures Taken(deposits, k, now, batchSize) <==> deposits[k] in Claimed(deposits, now, batchSize)
  {
    hide Instant, IsDue, DueList;
    var t, d := Instant(now), deposits[k];
    var m, due := |DueList(deposits[..k], t)|, DueList(deposits, t);
    DueListMembers(deposits, t);
    if IsDue(d, t) {
      assert deposits[..k + 1] == deposits[..k] + [d];
      DueListSnoc(deposits[..k], d, t);
      DueListPrefix(deposits, k + 1, t);
      assert m < |due| && due[m] == d;
      DueListDistinct(deposits, t);
    }
  }

  lemma {:induction false} TurnAt(deposits: seq<Deposit>, n: nat, now: DateTime, batchSize: int, succeeds: string -> bool)
    requires DistinctIds(deposits) && n < |deposits|
    ensures AfterClaim(deposits, Batch(DueList(deposits[..n + 1], Instant(now)), batchSize), now, succeeds)
         == if Taken(deposits, n, now, batchSize) && succeeds(deposits[n].id)
            then SetSchedule(AfterClaim(deposits, Batch(DueList(deposits[..n], Instant(now)), batchSize), now, succeeds),
                             deposits[n].id, NextCharge(now, deposits[n].frequency))
            else AfterClaim(deposits, Batch(DueList(deposits[..n], Instant(now)), batchSize), now, succeeds)
  {
    hide Instant, IsDue, DueList, NextCharge, AfterClaim, SetSchedule;
    var t, d := Instant(now), deposits[n];
    assert deposits[..n + 1] == deposits[..n] + [d];
    DueListSnoc(deposits[..n], d, t);
    DueListMembers(deposits[..n], t);
    if Taken(deposits, n, now, batchSize) {
      ClaimOneMore(deposits, DueList(deposits[..n], t), n, now, succeeds);
    } else {
      assert Batch(DueList(deposits[..n + 1], t), batchSize) == Batch(DueList(deposits[..n], t), batchSize);
    }
  }

  /** With no other call about, the turns of all listed deposits are the claim. */
  lemma {:induction false} TurnsAlone(deposits: seq<Deposit>, n: nat, now: DateTime, batchSize: int, succeeds: string -> bool,
                                      others: nat -> seq<Change>)
    requires DistinctIds(deposits) && n <= |deposits| && forall k: nat :: k < n ==> others(k) == []
    ensures AfterTurns(deposits, n, now, batchSize, succeeds, others)
         == AfterClaim(deposits, Batch(DueList(deposits[..n], Instant(now)), batchSize), now, succeeds)
  {
    hide Instant, IsDue, DueList, NextCharge, AfterClaim, SetSchedule, Taken;
    if n == 0 {
      NothingDue(Instant(now));
      assert deposits[..0] == [];
      NothingClaimed(deposits, now, succeeds);
    } else {
      TurnsAlone(deposits, n - 1, now, batchSize, succeeds, others);
      TurnAt(deposits, n - 1, now, batchSize, succeeds);
    }
  }

  /** So an undisturbed call leaves the schedule of AfterClaim, wherever it stops. */
  lemma {:induction false} ClaimAlone(deposits: seq<Deposit>, turns: nat, now: DateTime, batchSize: int, succeeds: string -> bool,
                                      others: nat -> seq<Change>)
    requires DistinctIds(deposits) && turns <= |deposits| && forall k: nat :: k < turns ==> others(k) == []
    requires forall d :: d in Claimed(deposits, now, batchSize) ==> d in deposits[..turns]
    ensures AfterTurns(deposits, turns, now, batchSize, succeeds, others)
         == AfterClaim(deposits, Claimed(deposits, now, batchSize), now, succeeds)
  {
    hide Instant, IsDue, DueList, NextCharge, SetSchedule, Taken;
    TurnsAlone(deposits, turns, now, batchSize, succeeds, others);
    var t := Instant(now);
    var early, claimed := DueList(deposits[..turns], t), Claimed(deposits, now, batchSize);
    DueListPrefix(deposits, turns, t);
    DueListMembers(deposits[..turns], t);
    DueListMembers(deposits, t);
    DueListDistinct(deposits, t);
    if claimed != [] {
      var k := |claimed| - 1;
      assert claimed[k] in deposits[..turns] && claimed[k] in DueList(deposits, t);
      var q :| 0 <= q < |early| && early[q] == claimed[k];
      assert q == k;
    }
    assert |claimed| <= |early|;
    assert Batch(early, batchSize) == claimed;
  }

  /**
   * Whatever other calls do meanwhile, a claimed deposit whose update succeeded keeps the date this
   * call set unless another call updates it after its turn.
   */
  lemma {:induction false} LastUpdateStays(deposits: seq<Deposit>, p: nat, n: nat, now: DateTime, batchSize: int, succeeds: string -> bool,
                                           others: nat -> seq<Change>)
    requires DistinctIds(deposits) && p < n <= |deposits| && Taken(deposits, p, now, batchSize) && succeeds(deposits[p].id)
    requires forall k, c :: p < k < n && c in others(k) ==> c.id != deposits[p].id
    ensures AfterTurns(deposits, n, now, batchSize, succeeds, others)[p].nextChargeAt == Stored(NextCharge(now, deposits[p].frequency))
  {
    hide Taken, NextCharge, Stored;
    var before := AfterTurns(deposits, n - 1, now, batchSize, succeeds, others);
    OnlyDates(deposits, n - 1, now, batchSize, succeeds, others);
    ChangedKeeps(before, others(n - 1), p);
    if p < n - 1 {
      LastUpdateStays(deposits, p, n - 1, now, batchSize, succeeds, others);
    }
  }

  lemma {:induction false} ChangedKeeps(deposits: seq<Deposit>, changes: seq<Change>, p: nat)
    requires p < |deposits|
    ensures Changed(deposits, changes)[p].id == deposits[p].id
    ensures (forall c :: c in changes ==> c.id != deposits[p].id) ==> Changed(deposits, changes)[p] == deposits[p]
    decreases |changes|
  {
    if changes != [] {
      ChangedKeeps(deposits, changes[..|changes| - 1], p);
    }
  }

  lemma {:induction false} OnlyDates(deposits: seq<Deposit>, n: nat, now: DateTime, batchSize: int, succeeds: string -> bool,
                                     others: nat -> seq<Change>)
    requires n <= |deposits|
    ensures forall q :: 0 <= q < |deposits| ==> AfterTurns(deposits, n, now, batchSize, succeeds, others)[q].id == deposits[q].id
  {
    hide Taken, NextCharge, Stored, Changed;
    if n > 0 {
      OnlyDates(deposits, n - 1, now, batchSize, succeeds, others);
      var before := AfterTurns(deposits, n - 1, now, batchSize, succeeds, others);
      forall q | 0 <= q < |deposits| ensures Changed(before, others(n - 1))[q].id == before[q].id {
        ChangedKeeps(before, others(n - 1), q);
      }
    }
  }

  // ---- Runs of claims ----

  datatype Call = Call(now: DateTime, batchSize: int, succeeds: string -> bool)

  function Serve(deposits: seq<Deposit>, c: Call): (r: seq<Deposit>)
    ensures |r| == |deposits|
  {
    AfterClaim(deposits, Claimed(deposits, c.now, c.batchSize), c.now, c.succeeds)
  }

  /** Claims at non-decreasing times after the zero time, some advances possibly failing. */
  ghost predicate IsRun(states: seq<seq<Deposit>>, calls: seq<Call>) {
    && |states| == |calls| + 1 && DistinctIds(states[0])
    && (forall k :: 0 <= k < |calls| ==> calls[k].now.Valid() && Instant(calls[k].now) >= 0)
    && (forall k :: 0 <= k < |calls| ==> states[k + 1] == Serve(states[k], calls[k]))
    && (forall j, k :: 0 <= j < k < |calls| ==> Instant(calls[j].now) <= Instant(calls[k].now))
  }

  lemma {:induction false} ServeAt(deposits: seq<Deposit>, c: Call, p: nat)
    requires p < |deposits|
    ensures Serve(deposits, c)[p]
         == if deposits[p] in Claimed(deposits, c.now, c.batchSize) && c.succeeds(deposits[p].id)
            then Moved(deposits[p], c.now) else deposits[p]
    ensures deposits[p] in Claimed(deposits, c.now, c.batchSize) ==> IsDue(deposits[p], Instant(c.now))
  {
    hide Instant, IsDue, NextCharge;
    DueListMembers(deposits, Instant(c.now));
  }

  /** Once charged, a deposit's next charge never falls below the one set then. */
  lemma {:induction false} NeverBack(states: seq<seq<Deposit>>, calls: seq<Call>, i: nat, k: nat, p: nat)
    requires IsRun(states, calls) && i < k < |states| && p < |states[i]|
    requires states[i][p] in Claimed(states[i], calls[i].now, calls[i].batchSize) && calls[i].succeeds(states[i][p].id)
    ensures p < |states[k]| && states[k][p].frequency == states[i][p].frequency
    ensures states[k][p].nextChargeAt >= Stored(NextCharge(calls[i].now, states[i][p].frequency))
    decreases k
  {
    hide Instant, NextCharge, Claimed, Serve;
    ServeAt(states[k - 1], calls[k - 1], p) by {
      if i < k - 1 { NeverBack(states, calls, i, k - 1, p); }
    }
    if i < k - 1 {
      NeverBack(states, calls, i, k - 1, p);
      StoredGap(calls[k - 1].now, states[k - 1][p].frequency);
      StoredGap(calls[i].now, states[i][p].frequency);
      hide Stored;
    }
  }

  /**
   * Two claims of one deposit are at least its frequency apart, counted in whole microseconds, if
   * the first one's advance succeeded.
   */
  lemma {:induction false} ClaimsAreSpaced(states: seq<seq<Deposit>>, calls: seq<Call>, i: nat, j: nat, p: nat)
    requires IsRun(states, calls) && i < j < |calls| && p < |states[i]| == |states[j]|
    requires states[i][p] in Claimed(states[i], calls[i].now, calls[i].batchSize) && calls[i].succeeds(states[i][p].id)
    requires states[j][p] in Claimed(states[j], calls[j].now, calls[j].batchSize)
    ensures var f := states[i][p].frequency;
            Stored(Instant(calls[j].now))
            >= Stored(Instant(calls[i].now)) + (if f == "weekly" then 7 else if f == "biweekly" then 14 else 28) * 86_400_000_000_000
  {
    hide Instant, NextCharge, Claimed, Serve;
    NeverBack(states, calls, i, j, p);
    ServeAt(states[j], calls[j], p);
    StoredGap(calls[i].now, states[i][p].frequency);
    StoredDays(Instant(calls[i].now), MinimumGap(states[i][p].frequency));
  }

  /** The m-th call claimed the deposit at position p and moved its schedule. */
  ghost predicate Charged(states: seq<seq<Deposit>>, calls: seq<Call>, m: nat, p: nat)
    requires m < |calls| && m < |states| && p < |states[m]|
  {
    states[m][p] in Claimed(states[m], calls[m].now, calls[m].batchSize) && calls[m].succeeds(states[m][p].id)
  }

  /** Only the date of a deposit ever changes, and only when it is charged. */
  lemma {:induction false} OnlyDatesChange(states: seq<seq<Deposit>>, calls: seq<Call>, i: nat, k: nat, p: nat)
    requires IsRun(states, calls) && i <= k < |states| && p < |states[i]|
    ensures |states[k]| == |states[i]|
    ensures states[k][p] == states[i][p].(nextChargeAt := states[k][p].nextChargeAt)
    ensures (forall m :: i <= m < k ==> |states[m]| == |states[i]|)
    ensures (forall m :: i <= m < k ==> !Charged(states, calls, m, p)) ==> states[k][p] == states[i][p]
    decreases k
  {
    hide Instant, NextCharge, Claimed, Serve, Charged;
    if i < k {
      OnlyDatesChange(states, calls, i, k - 1, p);
      ServeAt(states[k - 1], calls[k - 1], p);
      ChargedMeans(states, calls, k - 1, p);
    }
  }

  lemma {:induction false} ChargedMeans(states: seq<seq<Deposit>>, calls: seq<Call>, m: nat, p: nat)
    requires m < |calls| && m < |states| && p < |states[m]|
    ensures Charged(states, calls, m, p)
       <==> states[m][p] in Claimed(states[m], calls[m].now, calls[m].batchSize) && calls[m].succeeds(states[m][p].id)
  {
  }

  /**
   * From a claim to the end of its gap the deposit is due exactly as long as no claim of it,
   * the first one included, has moved its schedule.
   */
  lemma {:induction false} DueInsideGap(states: seq<seq<Deposit>>, calls: seq<Call>, i: nat, k: nat, p: nat, t: int)
    requires IsRun(states, calls) && i < k < |states| && p < |states[i]|
    requires states[i][p] in Claimed(states[i], calls[i].now, calls[i].batchSize)
    requires Instant(calls[i].now) <= t < Stored(Instant(calls[i].now)) + MinimumGap(states[i][p].frequency) * DAY
    ensures |states[k]| == |states[i]| && forall m :: i <= m < k ==> |states[m]| == |states[i]|
    ensures IsDue(states[k][p], t) <==> forall m :: i <= m < k ==> !Charged(states, calls, m, p)
  {
    hide Instant, NextCharge, Claimed, Serve, Charged;
    OnlyDatesChange(states, calls, i, k, p);
    ServeAt(states[i], calls[i], p);
    if m :| i <= m < k && Charged(states, calls, m, p) {
      OnlyDatesChange(states, calls, i, m, p);
      ChargedMeans(states, calls, m, p);
      NeverBack(states, calls, m, k, p);
      StoredGap(calls[m].now, states[m][p].frequency);
      StoredMonotone(Instant(calls[i].now), Instant(calls[m].now));
    }
  }

  /**
   * A charged deposit is due again exactly from the microsecond of its charge seven days later, or
   * fourteen, or as many as the month of the charge has: up to a microsecond before the full time.
   */
  lemma {:induction false} DueAgainFrom(d: Deposit, now: DateTime, t: int)
    requires now.Valid() && Instant(now) >= 0 && IsDue(d, Instant(now))
    ensures IsDue(Moved(d, now), t) <==> t >= Stored(Instant(now)) + ChargeDays(now, d.frequency) * 86_400_000_000_000
  {
    hide Instant, NextCharge, Stored;
    NextChargeIs(now, d.frequency);
    StoredDays(Instant(now), ChargeDays(now, d.frequency));
    AdvancedNotDue(d, now);
  }

  /** In the state right after its own call: due again inside the gap exactly when the update failed. */
  lemma {:induction false} DueAfterOneCall(states: seq<seq<Deposit>>, calls: seq<Call>, i: nat, p: nat, t: int)
    requires IsRun(states, calls) && i < |calls| && p < |states[i]|
    requires states[i][p] in Claimed(states[i], calls[i].now, calls[i].batchSize)
    requires Instant(calls[i].now) <= t < Stored(Instant(calls[i].now)) + MinimumGap(states[i][p].frequency) * DAY
    ensures |states[i + 1]| == |states[i]|
    ensures IsDue(states[i + 1][p], t) <==> !calls[i].succeeds(states[i][p].id)
  {
    hide Instant, NextCharge, Claimed, Serve, Charged;
    DueInsideGap(states, calls, i, i + 1, p, t);
    ChargedMeans(states, calls, i, p);
  }

  /** A failed update does let a deposit be claimed twice, at any two times however close. */
  lemma {:induction false} ClaimedTwice(d: Deposit, now: DateTime, later: DateTime)
    returns (states: seq<seq<Deposit>>, calls: seq<Call>)
    requires now.Valid() && later.Valid() && 0 <= Instant(now) <= Instant(later) && IsDue(d, Instant(now))
    ensures IsRun(states, calls) && states == [[d], [d], [d]] && |calls| == 2
    ensures calls[0].now == now && calls[1].now == later
    ensures d in Claimed(states[0], now, calls[0].batchSize) && d in Claimed(states[1], later, calls[1].batchSize)
  {
    hide Instant, NextCharge, AddDate;
    states := [[d], [d], [d]];
    calls := [Call(now, 0, _ => false), Call(later, 0, _ => false)];
    DueListMembers([d], Instant(now));
    DueListMembers([d], Instant(later));
    assert d in [d];
    assert Serve([d], calls[0]) == [d] && Serve([d], calls[1]) == [d];
  }

  // ---- Draining at one instant ----

  /** Due deposits that a claim leaves due. */
  function Remaining(due: seq<Deposit>, claimed: seq<Deposit>, succeeds: string -> bool): (r: seq<Deposit>) {
    if due == [] then []
    else
      var n := |due| - 1;
      Remaining(due[..n], claimed, succeeds) + if due[n] in claimed && succeeds(due[n].id) then [] else [due[n]]
  }

  lemma {:induction false} RemainingSnoc(due: seq<Deposit>, d: Deposit, claimed: seq<Deposit>, succeeds: string -> bool)
    ensures Remaining(due + [d], claimed, succeeds)
         == Remaining(due, claimed, succeeds) + if d in claimed && succeeds(d.id) then [] else [d]
  {
    assert (due + [d])[..|due|] == due;
  }

  lemma {:induction false} AfterClaimSnoc(deposits: seq<Deposit>, d: Deposit, claimed: seq<Deposit>, now: DateTime, succeeds: string -> bool)
    ensures AfterClaim(deposits + [d], claimed, now, succeeds)
         == AfterClaim(deposits, claimed, now, succeeds) + [if d in claimed && succeeds(d.id) then Moved(d, now) else d]
  {
  }

  lemma {:induction false} AdvancedNotDue(d: Deposit, now: DateTime)
    requires now.Valid() && Instant(now) >= 0
    ensures !IsDue(Moved(d, now), Instant(now))
  {
    hide Instant, NextCharge;
    StoredGap(now, d.frequency);
  }

  /**
   * At the claim's own instant a due deposit is due again exactly when it was not claimed or
   * its advance failed.
   */
  lemma {:induction false} DueAgain(deposits: seq<Deposit>, claimed: seq<Deposit>, now: DateTime, succeeds: string -> bool)
    requires now.Valid() && Instant(now) >= 0
    requires forall d :: d in claimed ==> IsDue(d, Instant(now))
    ensures DueList(AfterClaim(deposits, claimed, now, succeeds), Instant(now))
         == Remaining(DueList(deposits, Instant(now)), claimed, succeeds)
  {
    var instant, after := Instant(now), AfterClaim(deposits, claimed, now, succeeds);
    if deposits == [] {
      assert after == [];
    } else {
      hide Instant, IsDue, Advance, AfterClaim, DueList, Remaining;
      var n := |deposits| - 1;
      var rest, d := deposits[..n], deposits[n];
      var moved := if d in claimed && succeeds(d.id) then Moved(d, now) else d;
      assert deposits == rest + [d];
      DueAgain(rest, claimed, now, succeeds);
      AfterClaimSnoc(rest, d, claimed, now, succeeds);
      DueListSnoc(AfterClaim(rest, claimed, now, succeeds), moved, instant);
      DueListSnoc(rest, d, instant);
      AdvancedNotDue(d, now);
      RemainingSnoc(DueList(rest, instant), d, claimed, succeeds);
      assert Remaining(DueList(rest, instant) + [], claimed, succeeds)
          == Remaining(DueList(rest, instant), claimed, succeeds) + [] by {
        assert DueList(rest, instant) + [] == DueList(rest, instant);
      }
    }
  }

  function AllSucceed(): (f: string -> bool) {
    (id: string) => true
  }

  lemma {:induction false} RemainingPrefix(due: seq<Deposit>, m: nat, n: nat)
    requires m <= |due| && n <= |due| && forall i, j :: 0 <= i < j < |due| ==> due[i] != due[j]
    ensures Remaining(due[..n], due[..m], AllSucceed()) == if n <= m then [] else due[m..n]
  {
    if n > 0 {
      RemainingPrefix(due, m, n - 1);
      RemainingSnoc(due[..n - 1], due[n - 1], due[..m], AllSucceed());
      assert due[..n - 1] + [due[n - 1]] == due[..n];
      assert due[n - 1] in due[..m] <==> n - 1 < m by {
        if n - 1 < m {
          assert due[..m][n - 1] == due[n - 1];
        }
      }
      if n > m {
        assert due[m..n] == due[m..n - 1] + [due[n - 1]];
      }
    }
  }

  lemma {:induction false} DueListDistinct(deposits: seq<Deposit>, now: int)
    requires DistinctIds(deposits)
    ensures forall i, j :: 0 <= i < j < |DueList(deposits, now)| ==> DueList(deposits, now)[i].id != DueList(deposits, now)[j].id
  {
    if deposits != [] {
      var n := |deposits| - 1;
      DueListDistinct(deposits[..n], now);
      DueListMembers(deposits[..n], now);
      var rest := DueList(deposits[..n], now);
      assert forall i :: 0 <= i < |rest| ==> rest[i] in deposits[..n];
    }
  }

  lemma {:induction false} ServeDistinct(deposits: seq<Deposit>, c: Call)
    requires DistinctIds(deposits)
    ensures DistinctIds(Serve(deposits, c))
  {
    hide Instant, NextCharge, Claimed;
    forall k | 0 <= k < |deposits| ensures Serve(deposits, c)[k].id == deposits[k].id {
      ServeAt(deposits, c, k);
    }
  }

  /** A claim takes the front of the due list and leaves exactly the rest. */
  lemma {:induction false} ClaimDrains(deposits: seq<Deposit>, now: DateTime, batchSize: int)
    requires DistinctIds(deposits) && now.Valid() && Instant(now) >= 0
    ensures DueList(Serve(deposits, Call(now, batchSize, AllSucceed())), Instant(now))
         == DueList(deposits, Instant(now))[|Claimed(deposits, now, batchSize)|..]
    ensures DistinctIds(Serve(deposits, Call(now, batchSize, AllSucceed())))
  {
    hide Instant, NextCharge, IsDue;
    var due, claimed := DueList(deposits, Instant(now)), Claimed(deposits, now, batchSize);
    DueListMembers(deposits, Instant(now));
    DueListDistinct(deposits, Instant(now));
    DueAgain(deposits, claimed, now, AllSucceed());
    RemainingPrefix(due, |claimed|, |due|);
    assert due[..|claimed|] == claimed && due[..|due|] == due;
    ServeDistinct(deposits, Call(now, batchSize, AllSucceed()));
  }

  /** The schedule after n calls at one instant. */
  function AfterCalls(deposits: seq<Deposit>, now: DateTime, batchSize: int, n: nat): (r: seq<Deposit>) {
    if n == 0 then deposits
    else Serve(AfterCalls(deposits, now, batchSize, n - 1), Call(now, batchSize, AllSucceed()))
  }

  /** Where the n-th call's slice of the due list starts. */
  function SliceStart(n: nat, batchSize: int, total: nat): (k: nat)
    requires batchSize > 0
    ensures k <= total
  {
    if n * batchSize < total then n * batchSize else total
  }

  lemma {:induction false} NextSlice(n: nat, batchSize: int, total: nat)
    requires batchSize > 0
    ensures SliceStart(0, batchSize, total) == 0
    ensures SliceStart(n + 1, batchSize, total)
         == if SliceStart(n, batchSize, total) + batchSize < total then SliceStart(n, batchSize, total) + batchSize else total
    ensures SliceStart(n, batchSize, total) == total <==> n * batchSize >= total
  {
    assert (n + 1) * batchSize == n * batchSize + batchSize;
  }

  /**
   * Repeated calls at one instant claim consecutive, hence disjoint, slices of the original
   * due list, of batchSize each until it runs out; n calls drain it exactly when
   * n * batchSize reaches its length.
   */
  lemma {:induction false} CallsDrain(deposits: seq<Deposit>, now: DateTime, batchSize: int, n: nat)
    requires DistinctIds(deposits) && now.Valid() && Instant(now) >= 0 && batchSize > 0
    ensures DistinctIds(AfterCalls(deposits, now, batchSize, n))
    ensures var due := DueList(deposits, Instant(now));
            var first, next := SliceStart(n, batchSize, |due|), SliceStart(n + 1, batchSize, |due|);
            && first <= next
            && DueList(AfterCalls(deposits, now, batchSize, n), Instant(now)) == due[first..]
            && Claimed(AfterCalls(deposits, now, batchSize, n), now, batchSize) == due[first..next]
            && (due[first..] == [] <==> n * batchSize >= |due|)
  {
    hide Instant, DueList, Serve, SliceStart;
    var due := DueList(deposits, Instant(now));
    NextSlice(n, batchSize, |due|);
    if n > 0 {
      NextSlice(n - 1, batchSize, |due|);
      CallsDrain(deposits, now, batchSize, n - 1);
      ClaimDrains(AfterCalls(deposits, now, batchSize, n - 1), now, batchSize);
    }
  }
}
