/**
 * The rolling candlestick builder of one symbol: a ring buffer of finished minute bars
 * plus the forming bar, and the read path that filters, re-buckets and limits them.
 * Times are integer nanoseconds, prices are real.
 */
module Aggregators {
  import opened BarGroups
  import opened Wrappers

  const MINUTE: int := 60_000_000_000
  const DEFAULT_CAPACITY: nat := 1440
  const SEED_COUNT: nat := 60

  /** The bucket length of a timeframe; anything unknown means one minute. */
  function Interval(timeframe: string): (d: int)
    ensures d in {MINUTE, 5 * MINUTE, 60 * MINUTE, 1440 * MINUTE}
  {
    if timeframe == "5Min" then 5 * MINUTE
    else if timeframe == "1Hour" then 60 * MINUTE
    else if timeframe == "1Day" then 1440 * MINUTE
    else MINUTE
  }

  /** The length of a timeframe in nanoseconds, by its name. */
  ghost predicate LastsAs(timeframe: string, length: int) {
    && (timeframe == "5Min" ==> length == 300_000_000_000)
    && (timeframe == "1Hour" ==> length == 3_600_000_000_000)
    && (timeframe == "1Day" ==> length == 86_400_000_000_000)
    && (timeframe != "5Min" && timeframe != "1Hour" && timeframe != "1Day" ==> length == 60_000_000_000)
  }

  lemma {:induction false} IntervalLasts(timeframe: string)
    ensures LastsAs(timeframe, Interval(timeframe))
  {
  }

  /** A price tick as a degenerate bar. */
  function Tick(price: real, volume: int, t: int): (r: Bar) {
    Bar(t, price, price, price, price, volume)
  }

  ghost predicate AllTicks(ticks: seq<Bar>) {
    forall b :: b in ticks ==> b == Tick(b.open, b.volume, b.timestamp)
  }

  /** The minute each tick is filed under: the latest minute seen so far. */
  function RunningMinutes(ticks: seq<Bar>): (r: seq<int>)
    ensures |r| == |ticks|
  {
    if ticks == [] then []
    else
      var earlier := RunningMinutes(Init(ticks));
      var minute := Trunc(Last(ticks).timestamp, MINUTE);
      earlier + [if earlier != [] && minute <= Last(earlier) then Last(earlier) else minute]
  }

  /** Minute bars of a tick history, by the batch definition. */
  function MinuteBars(ticks: seq<Bar>): (r: seq<Bar>) {
    Group(RunningMinutes(ticks), ticks)
  }

  lemma {:induction false} RunningMinutesSnoc(ticks: seq<Bar>, b: Bar)
    ensures RunningMinutes(ticks + [b])
         == RunningMinutes(ticks)
          + [if ticks != [] && Trunc(b.timestamp, MINUTE) <= Last(RunningMinutes(ticks))
             then Last(RunningMinutes(ticks)) else Trunc(b.timestamp, MINUTE)]
  {
    assert Init(ticks + [b]) == ticks;
  }

  lemma {:induction false} FirstMinuteBar(tick: Bar)
    ensures RunningMinutes([tick]) == [Trunc(tick.timestamp, MINUTE)]
    ensures MinuteBars([tick]) == [tick.(timestamp := Trunc(tick.timestamp, MINUTE))]
  {
    RunningMinutesSnoc([], tick);
    EmptyGroup(MINUTE);
    assert [] + [tick] == [tick];
    assert RunningMinutes([tick]) == [] + [Trunc(tick.timestamp, MINUTE)];
    GroupSnoc([], [], Trunc(tick.timestamp, MINUTE), tick);
  }

  lemma {:induction false} RunningMinutesAscending(ticks: seq<Bar>)
    ensures Ascending(RunningMinutes(ticks))
    ensures forall m :: m in RunningMinutes(ticks) ==> Trunc(m, MINUTE) == m
    ensures ticks != [] ==> RunningMinutes(ticks)[0] == Trunc(ticks[0].timestamp, MINUTE)
    decreases |ticks|
  {
    if ticks != [] {
      RunningMinutesAscending(Init(ticks));
      RunningMinutesSnoc(Init(ticks), Last(ticks));
      assert ticks == Init(ticks) + [Last(ticks)];
    }
  }

  // ---- Ring contents as a bounded suffix ----

  function Suffix<T>(s: seq<T>, n: nat): (r: seq<T>) {
    if |s| <= n then s else s[|s| - n..]
  }

  lemma {:induction false} SuffixPush<T>(s: seq<T>, x: T, n: nat)
    ensures Suffix(Suffix(s, n) + [x], n) == Suffix(s + [x], n)
    ensures Suffix(s, n) + [x] == Suffix(s + [x], n + 1)
  {
  }

  lemma {:induction false} SuffixSuffix<T>(s: seq<T>, n: nat)
    ensures Suffix(Suffix(s, n + 1), n) == Suffix(s, n)
  {
  }

  // ---- Historical seeding ----

  function SeedBar(price: real, t: int): (r: Bar) {
    var high, low := price * 1.002, price * 0.998;
    Bar(t, price, high, low, (high + low) / 2.0, 50000)
  }

  /** The first n of the seeded bars, the oldest an hour before now. */
  function SeedBars(price: real, now: int, n: nat): (r: seq<Bar>)
    ensures |r| == n
  {
    if n == 0 then []
    else
      var earlier := SeedBars(price, now, n - 1);
      var open := if n == 1 then price else Last(earlier).close;
      earlier + [SeedBar(open, now - (SEED_COUNT - (n - 1)) * MINUTE)]
  }

  lemma {:induction false} MinutesEarlier(now: int, k: int)
    requires Trunc(now, MINUTE) == now
    ensures Trunc(now - k * MINUTE, MINUTE) == now - k * MINUTE
  {
  }

  lemma {:induction false} SeedBarsTimes(price: real, now: int, n: nat)
    requires Trunc(now, MINUTE) == now
    ensures forall i :: 0 <= i < n ==>
              && SeedBars(price, now, n)[i].timestamp == now - (SEED_COUNT - i) * MINUTE
              && Trunc(SeedBars(price, now, n)[i].timestamp, MINUTE) == SeedBars(price, now, n)[i].timestamp
    decreases n
  {
    if n != 0 {
      hide Trunc;
      SeedBarsTimes(price, now, n - 1);
      MinutesEarlier(now, SEED_COUNT - (n - 1));
    }
  }

  /** In real arithmetic every seed is the same bar, one minute after the other. */
  lemma {:induction false} SeedBarsAre(price: real, now: int, n: nat)
    requires n <= 60
    ensures forall i :: 0 <= i < n ==>
              SeedBars(price, now, n)[i] == Bar(now - (60 - i) * 60_000_000_000, price, price * 1.002, price * 0.998, price, 50_000)
    decreases n
  {
    if n > 0 {
      SeedBarsAre(price, now, n - 1);
    }
  }

  /** In real arithmetic the seeds are flat, and sound exactly for prices that are not negative. */
  lemma {:induction false} SeedBarsFlat(price: real, now: int, n: nat)
    ensures forall i :: 0 <= i < n ==>
              && SeedBars(price, now, n)[i].open == SeedBars(price, now, n)[i].close == price
              && (Sound(SeedBars(price, now, n)[i]) <==> price >= 0.0)
    decreases n
  {
    if n != 0 {
      SeedBarsFlat(price, now, n - 1);
    }
  }

  /** The whole history, before the ring drops its oldest bars. */
  function FullHistory(price: real, start: int, ticks: seq<Bar>): (r: seq<Bar>) {
    SeedBars(price, Trunc(start, MINUTE), SEED_COUNT) + MinuteBars(ticks)
  }

  ghost predicate Chronological(bars: seq<Bar>) {
    && StrictlyOrdered(bars)
    && forall b :: b in bars ==> Trunc(b.timestamp, MINUTE) == b.timestamp
  }

  lemma {:induction false} MinuteBarsChronological(ticks: seq<Bar>)
    ensures Chronological(MinuteBars(ticks))
    ensures ticks != [] ==>
              && MinuteBars(ticks) != []
              && forall b :: b in MinuteBars(ticks) ==> Trunc(ticks[0].timestamp, MINUTE) <= b.timestamp
  {
    hide Group, RunningMinutes, Distinct, Trunc;
    var ms, g := RunningMinutes(ticks), MinuteBars(ticks);
    RunningMinutesAscending(ticks);
    GroupTimes(ms, ticks);
    DistinctAscending(ms);
    DistinctMembers(ms);
    forall b | b in g
      ensures Trunc(b.timestamp, MINUTE) == b.timestamp
      ensures ticks != [] ==> Trunc(ticks[0].timestamp, MINUTE) <= b.timestamp
    {
      var j :| 0 <= j < |g| && g[j] == b;
      assert Distinct(ms)[j] == b.timestamp;
      assert b.timestamp in Distinct(ms);
      var i :| 0 <= i < |ms| && ms[i] == b.timestamp;
      assert ms[0] <= ms[i];
    }
  }

  /** The recorded history is strictly time-ordered and minute-aligned. */
  lemma {:induction false} FullHistoryChronological(price: real, start: int, ticks: seq<Bar>)
    requires ticks != [] && ticks[0].timestamp == start
    ensures Chronological(FullHistory(price, start, ticks))
  {
    hide MinuteBars, SeedBars;
    var now := Trunc(start, MINUTE);
    var seeds, g := SeedBars(price, now, SEED_COUNT), MinuteBars(ticks);
    SeedBarsTimes(price, now, SEED_COUNT);
    MinuteBarsChronological(ticks);
    var h := seeds + g;
    forall i, j | 0 <= i < j < |h| ensures h[i].timestamp < h[j].timestamp {
      if i < |seeds| <= j {
        assert g[j - |seeds|] in g;
      }
    }
  }

  lemma {:induction false} SuffixChronological(bars: seq<Bar>, n: nat)
    requires Chronological(bars)
    ensures Chronological(Suffix(bars, n))
  {
    var s := Suffix(bars, n);
    var k := |bars| - |s|;
    assert forall i :: 0 <= i < |s| ==> s[i] == bars[k + i];
  }

  /** A ring index one lap at most past the end. */
  function Wrap(x: int, n: int): (r: int)
    requires 0 <= x < 2 * n
    ensures r == if x < n then x else x - n
  {
    DivUnique(x, n, if x < n then 0 else 1, if x < n then x else x - n);
    x % n
  }

  /** Ring contents, oldest first: the ring fills from slot 0 and wraps only once full. */
  function RingContents(data: seq<Bar>, head: nat, count: nat): (r: seq<Bar>)
    requires head < |data| && count <= |data|
  {
    if count < |data| then data[..count] else data[head..] + data[..head]
  }

  lemma {:induction false} RingPush(data: seq<Bar>, head: nat, count: nat, bar: Bar)
    requires head < |data| && count <= |data| && (count < |data| ==> head == count)
    ensures RingContents(data[head := bar], if head + 1 < |data| then head + 1 else 0,
                         if count < |data| then count + 1 else count)
         == Suffix(RingContents(data, head, count) + [bar], |data|)
  {
  }

  // ---- The read path's specification ----

  predicate InWindow(b: Bar, start: Option<int>, end: Option<int>) {
    && (start.Some? ==> start.value <= b.timestamp)
    && (end.Some? ==> b.timestamp <= end.value)
  }

  function InRange(bars: seq<Bar>, start: Option<int>, end: Option<int>): (r: seq<Bar>) {
    if bars == [] then []
    else InRange(Init(bars), start, end) + if InWindow(Last(bars), start, end) then [Last(bars)] else []
  }

  lemma {:induction false} InRangeChronological(bars: seq<Bar>, start: Option<int>, end: Option<int>)
    requires Chronological(bars)
    ensures Chronological(InRange(bars, start, end))
    ensures forall b :: b in InRange(bars, start, end) <==> b in bars && InWindow(b, start, end)
    decreases |bars|
  {
    if bars != [] {
      var rest, b := Init(bars), Last(bars);
      assert bars == rest + [b];
      InRangeChronological(rest, start, end);
      var sel := InRange(rest, start, end);
      var all := InRange(bars, start, end);
      assert all == sel || all == sel + [b];
      forall i | 0 <= i < |sel| ensures sel[i].timestamp < b.timestamp {
        assert sel[i] in rest;
      }
    }
  }

  function Limited(bars: seq<Bar>, limit: int): (r: seq<Bar>) {
    if limit > 0 then Suffix(bars, limit) else bars
  }

  lemma {:induction false} LimitedTo(bars: seq<Bar>, limit: int)
    ensures Limited(bars, limit) == if limit > 0 && |bars| > limit then bars[|bars| - limit..] else bars
  {
  }

  /** What the read path selects is in strict time order, one bar per minute. */
  lemma {:induction false} WindowChronological(price: real, opening: int, ticks: seq<Bar>, n: nat, start: Option<int>, end: Option<int>)
    requires ticks != [] && ticks[0].timestamp == opening
    ensures Chronological(InRange(Suffix(FullHistory(price, opening, ticks), n), start, end))
    ensures Ordered(InRange(Suffix(FullHistory(price, opening, ticks), n), start, end))
  {
    hide FullHistory, Suffix, InRange, Trunc;
    FullHistoryChronological(price, opening, ticks);
    SuffixChronological(FullHistory(price, opening, ticks), n);
    InRangeChronological(Suffix(FullHistory(price, opening, ticks), n), start, end);
  }

  class BarAggregator {
    const capacity: nat
    const minuteBars: array<Bar>
    var head: nat
    var count: nat
    var currentBar: Bar
    var currentMin: int

    // The opening price and time, and every tick recorded since (the opening one included).
    ghost const openingPrice: real
    ghost const openingTime: int
    ghost var ticks: seq<Bar>

    /** The ring itself: it fills from slot 0 and wraps only once full. */
    ghost predicate RingValid()
      reads this, minuteBars
    {
      && 0 < capacity == minuteBars.Length
      && head < capacity && count <= capacity
      && (count < capacity ==> head == count)
    }

    /** Finished bars, oldest first. */
    ghost function Finished(): (r: seq<Bar>)
      requires RingValid()
      reads this, minuteBars
    {
      RingContents(minuteBars[..], head, count)
    }

    ghost function History(): (r: seq<Bar>)
      requires RingValid()
      reads this, minuteBars
    {
      Finished() + [currentBar]
    }

    /**
     * The online builder refines the batch definition: ring and forming bar are the last
     * capacity + 1 bars of the seeds followed by the batch grouping of all ticks.
     */
    ghost predicate Valid()
      reads this, minuteBars
    {
      && RingValid()
      && ticks != [] && ticks[0] == Tick(openingPrice, 0, openingTime) && AllTicks(ticks)
      && currentMin == currentBar.timestamp == Last(RunningMinutes(ticks))
      && History() == Suffix(FullHistory(openingPrice, openingTime, ticks), capacity + 1)
    }

    constructor (requestedCapacity: int, initialPrice: real, startTime: int)
      ensures Valid() && fresh(minuteBars)
      ensures capacity == if requestedCapacity <= 0 then 1440 else requestedCapacity
      ensures Opened(History(), initialPrice, startTime, capacity)
      ensures openingPrice == initialPrice && openingTime == startTime
      ensures ticks == [Tick(initialPrice, 0, startTime)]
    {
      hide RingContents, RunningMinutes, MinuteBars, SeedBars, Trunc, Suffix;
      var size := if requestedCapacity <= 0 then DEFAULT_CAPACITY else requestedCapacity;
      capacity := size;
      minuteBars := new Bar[size](_ => Bar(0, 0.0, 0.0, 0.0, 0.0, 0));
      head, count := 0, 0;
      currentMin := Trunc(startTime, MINUTE);
      currentBar := Tick(initialPrice, 0, Trunc(startTime, MINUTE));
      openingPrice, openingTime := initialPrice, startTime;
      ticks := [Tick(initialPrice, 0, startTime)];
      new;
      SeedHistoricalBars(initialPrice, startTime);
      FirstMinuteBar(ticks[0]);
      SuffixPush(SeedBars(initialPrice, Trunc(startTime, MINUTE), SEED_COUNT), currentBar, capacity);
      OpenedSuffix(initialPrice, startTime, capacity);
    }

    method Flush(bar: Bar)
      requires RingValid()
      modifies this`head, this`count, minuteBars
      ensures RingValid()
      ensures Finished() == Suffix(old(Finished()) + [bar], capacity)
    {
      hide Wrap, RingContents, Suffix;
      RingPush(minuteBars[..], head, count, bar);
      minuteBars[head] := bar;
      assert minuteBars[..] == old(minuteBars[..])[old(head) := bar];
      head := Wrap(head + 1, capacity);
      if count < capacity {
        count := count + 1;
      }
    }

    method SeedHistoricalBars(basePrice: real, now: int)
      requires RingValid() && count == 0
      modifies this`head, this`count, minuteBars
      ensures RingValid()
      ensures Finished() == Suffix(SeedBars(basePrice, Trunc(now, MINUTE), SEED_COUNT), capacity)
    {
      assert Finished() == Suffix(SeedBars(basePrice, Trunc(now, MINUTE), 0), capacity);
      hide RingContents, Suffix, Trunc;
      var rounded := Trunc(now, MINUTE);
      var price := basePrice;
      var i := SEED_COUNT;
      while i >= 1
        invariant RingValid() && 0 <= i <= SEED_COUNT
        invariant Finished() == Suffix(SeedBars(basePrice, rounded, SEED_COUNT - i), capacity)
        invariant price == if i == SEED_COUNT then basePrice
                           else Last(SeedBars(basePrice, rounded, SEED_COUNT - i)).close
      {
        var t := rounded - i * MINUTE;
        var open := price;
        var high := open * 1.002;
        var low := open * 0.998;
        var close := (high + low) / 2.0;
        ghost var n := SEED_COUNT - i;
        assert SeedBars(basePrice, rounded, n + 1)
            == SeedBars(basePrice, rounded, n) + [Bar(t, open, high, low, close, 50000)];
        SuffixPush(SeedBars(basePrice, rounded, n), Bar(t, open, high, low, close, 50000), capacity);
        Flush(Bar(t, open, high, low, close, 50000));
        price := close;
        i := i - 1;
      }
    }

    /** Records a tick; late ticks are filed under the newest minute. */
    method Update(price: real, volume: int, t: int)
      requires Valid()
      modifies this`head, this`count, this`currentBar, this`currentMin, this`ticks, minuteBars
      ensures Valid()
      ensures ticks == old(ticks) + [Tick(price, volume, t)]
      ensures Ticked(old(History()), History(), capacity + 1, price, volume, t)
    {
      hide FullHistory, RingContents, RunningMinutes, Suffix, Trunc;
      ghost var tick := Tick(price, volume, t);
      RecordTick(openingPrice, openingTime, ticks, tick);
      ghost var full := FullHistory(openingPrice, openingTime, ticks);
      var tickMin := Trunc(t, MINUTE);
      if tickMin > currentMin {
        SuffixSuffix(full, capacity);
        SuffixPush(full, tick.(timestamp := tickMin), capacity);
        Flush(currentBar);
        currentMin := tickMin;
        currentBar := Bar(tickMin, price, price, price, price, volume);
      } else {
        SuffixReplaceLast(full, Absorb(Last(full), tick), capacity + 1);
        assert currentBar == Last(full);
        assert Init(History()) == Finished();
        var bar := currentBar;
        if price > bar.high {
          bar := bar.(high := price);
        }
        if price < bar.low {
          bar := bar.(low := price);
        }
        currentBar := bar.(close := price, volume := bar.volume + volume);
      }
      ticks := ticks + [tick];
      TickedSuffix(full, FullHistory(openingPrice, openingTime, ticks), capacity + 1, price, volume, t);
    }

    /**
     * The bars the builder holds have open and close between low and high exactly when the opening
     * price is not negative or the ring has by now dropped every seeded bar.
     */
    lemma {:induction false} HistorySoundExactlyWhen()
      requires Valid()
      ensures (forall b :: b in History() ==> Sound(b)) <==> openingPrice >= 0.0 || |MinuteBars(ticks)| > capacity
    {
      KeptSoundExactlyWhen(openingPrice, openingTime, ticks, capacity + 1);
    }

    /** Every bar the builder holds is stamped on a whole minute. */
    lemma {:induction false} HeldOnWholeMinutes()
      requires Valid()
      ensures forall b :: b in History() ==> b.timestamp % 60_000_000_000 == 0
    {
      FullHistoryChronological(openingPrice, openingTime, ticks);
      hide FullHistory;
      forall b | b in History() ensures b.timestamp % 60_000_000_000 == 0 {
        TruncIsBucket(b.timestamp, MINUTE);
      }
    }

    /**
     * The bars of a timeframe inside a window, oldest first, the newest `limit` of them. Each starts
     * on a multiple of the timeframe's length and summarises the held bars of that length.
     */
    method GetBars(timeframe: string, limit: int, start: Option<int>, end: Option<int>) returns (result: seq<Bar>)
      requires Valid()
      ensures result == Limited(Aggregate(InRange(History(), start, end), Interval(timeframe)), limit)
      ensures Chronological(InRange(History(), start, end))
      ensures forall b :: b in InRange(History(), start, end) <==>
                b in History() && (start == None || start.value <= b.timestamp) && (end == None || b.timestamp <= end.value)
      ensures forall length :: LastsAs(timeframe, length) ==>
                && Summarised(result, InRange(History(), start, end), length)
                && (limit <= 0 ==> Covered(result, InRange(History(), start, end), length))
    {
      ghost var kept := Suffix(FullHistory(openingPrice, openingTime, ticks), capacity + 1);
      FullHistoryChronological(openingPrice, openingTime, ticks);
      SuffixChronological(FullHistory(openingPrice, openingTime, ticks), capacity + 1);
      InRangeChronological(kept, start, end);
      ReadMeans(InRange(kept, start, end), timeframe, limit);
      hide Aggregate, Summarised, Covered, LastsAs, FullHistory, RingContents, InRange, RunningMinutes, Trunc, Suffix;
      WindowChronological(openingPrice, openingTime, ticks, capacity + 1, start, end);
      var raw := ReadWindow(start, end);
      var interval := Interval(timeframe);
      if interval == MINUTE {
        AggregateAligned(raw, MINUTE);
        result := raw;
      } else {
        result := Rebucket(raw, interval);
      }
      LimitedTo(result, limit);
      if limit > 0 && |result| > limit {
        result := result[|result| - limit..];
      }
    }

    method ReadWindow(start: Option<int>, end: Option<int>) returns (raw: seq<Bar>)
      requires RingValid()
      ensures raw == InRange(History(), start, end)
    {
      raw := [];
      hide Wrap, InWindow;
      var startIdx := Wrap(head - count + capacity, capacity);
      var i := 0;
      while i < count
        invariant 0 <= i <= count
        invariant raw == InRange(Finished()[..i], start, end)
      {
        var idx := Wrap(startIdx + i, capacity);
        var b := minuteBars[idx];
        assert b == Finished()[i];
        assert Init(Finished()[..i + 1]) == Finished()[..i];
        if InWindow(b, start, end) {
          raw := raw + [b];
        }
        i := i + 1;
      }
      assert Finished()[..count] == Finished() == Init(History());
      if InWindow(currentBar, start, end) {
        raw := raw + [currentBar];
      }
    }
  }

  lemma {:induction false} ReadMeans(raw: seq<Bar>, timeframe: string, limit: int)
    ensures forall length :: LastsAs(timeframe, length) ==>
              && Summarised(Limited(Aggregate(raw, Interval(timeframe)), limit), raw, length)
              && (limit <= 0 ==> Covered(Aggregate(raw, Interval(timeframe)), raw, length))
  {
    IntervalLasts(timeframe);
    AggregateBuckets(raw, Interval(timeframe));
    hide Aggregate, SummaryOf;
  }

  /**
   * What one tick does to the newest n bars: its whole minute decides whether it opens a new bar
   * or joins the last one.
   */
  ghost predicate Ticked(before: seq<Bar>, after: seq<Bar>, n: nat, price: real, volume: int, t: int) {
    var m := t / 60_000_000_000;
    && m * 60_000_000_000 <= t < (m + 1) * 60_000_000_000
    && before != []
    && var last := before[|before| - 1];
       && (m * 60_000_000_000 > last.timestamp ==>
             after == Suffix(before + [Bar(m * 60_000_000_000, price, price, price, price, volume)], n))
       && (m * 60_000_000_000 <= last.timestamp ==>
             after == before[..|before| - 1]
                    + [Bar(last.timestamp, last.open, if price > last.high then price else last.high,
                           if price < last.low then price else last.low, price, last.volume + volume)])
  }

  lemma {:induction false} TickedSuffix(full: seq<Bar>, full': seq<Bar>, n: nat, price: real, volume: int, t: int)
    requires full != [] && n > 0
    requires var minute, tick := Trunc(t, MINUTE), Tick(price, volume, t);
             full' == if minute > Last(full).timestamp then full + [tick.(timestamp := minute)]
                      else Init(full) + [Absorb(Last(full), tick)]
    ensures Ticked(Suffix(full, n), Suffix(full', n), n, price, volume, t)
  {
    WholeMinute(t);
    var minute := Trunc(t, MINUTE);
    hide Trunc;
    if minute > Last(full).timestamp {
      SuffixPush(full, Tick(price, volume, t).(timestamp := minute), n);
    } else {
      SuffixReplaceLast(full, Absorb(Last(full), Tick(price, volume, t)), n);
    }
    assert Last(Suffix(full, n)) == Last(full);
  }

  /** A new builder's bars: up to sixty flat seeds a minute apart, then the opening price in its whole minute. */
  ghost predicate Opened(history: seq<Bar>, price: real, start: int, capacity: nat) {
    var n, first := |history| - 1, start / 60_000_000_000 * 60_000_000_000;
    && n == (if capacity < 60 then capacity else 60)
    && history[n] == Bar(first, price, price, price, price, 0)
    && forall i :: 0 <= i < n ==>
         history[i] == Bar(first - (n - i) * 60_000_000_000, price, price * 1.002, price * 0.998, price, 50_000)
  }

  lemma {:induction false} OpenedSuffix(price: real, start: int, capacity: nat)
    ensures Opened(Suffix(SeedBars(price, Trunc(start, MINUTE), SEED_COUNT), capacity) + [Tick(price, 0, Trunc(start, MINUTE))],
                   price, start, capacity)
  {
    WholeMinute(start);
    SeedBarsAre(price, Trunc(start, MINUTE), SEED_COUNT);
    hide Trunc, SeedBars;
  }

  lemma {:induction false} WholeMinute(t: int)
    ensures Trunc(t, MINUTE) == t / 60_000_000_000 * 60_000_000_000
    ensures Trunc(t, MINUTE) <= t < Trunc(t, MINUTE) + 60_000_000_000
  {
  }

  lemma {:induction false} SuffixReplaceLast<T>(s: seq<T>, x: T, n: nat)
    requires s != [] && n > 0
    ensures Suffix(Init(s) + [x], n) == Init(Suffix(s, n)) + [x]
    ensures Last(Suffix(s, n)) == Last(s)
  {
  }

  /** One more tick either extends the last minute bar or opens the next one. */
  lemma {:induction false} RecordTick(price: real, start: int, ticks: seq<Bar>, tick: Bar)
    requires ticks != []
    ensures var full := FullHistory(price, start, ticks);
            var minute := Trunc(tick.timestamp, MINUTE);
            && full != [] && Last(full).timestamp == Last(RunningMinutes(ticks))
            && FullHistory(price, start, ticks + [tick])
            == if minute > Last(full).timestamp then full + [tick.(timestamp := minute)]
               else Init(full) + [Absorb(Last(full), tick)]
    ensures Last(RunningMinutes(ticks + [tick])) == Last(FullHistory(price, start, ticks + [tick])).timestamp
  {
    hide Distinct, Select, Summarize, SeedBars, Group;
    var ms := RunningMinutes(ticks);
    RunningMinutesSnoc(ticks, tick);
    RunningMinutesAscending(ticks + [tick]);
    RunningMinutesAscending(ticks);
    DistinctAscending(ms);
    GroupTimes(ms, ticks);
    var g := Group(ms, ticks);
    assert Last(g).timestamp == Last(Distinct(ms));
    GroupSnoc(ms, ticks, Last(RunningMinutes(ticks + [tick])), tick);
    var seeds := SeedBars(price, Trunc(start, MINUTE), SEED_COUNT);
    assert Init(seeds + g) == seeds + Init(g);
  }

  lemma {:induction false} AggregatePrefix(raw: seq<Bar>, i: nat, d: int)
    requires 0 < d && i < |raw| && Ordered(raw)
    ensures Aggregate(raw[..i + 1], d) == Push(Aggregate(raw[..i], d), Trunc(raw[i].timestamp, d), raw[i])
  {
    hide Aggregate, Push, Trunc;
    assert raw[..i] + [raw[i]] == raw[..i + 1];
    AggregateSnoc(raw[..i], raw[i], d);
  }

  /** One pass that closes a bar whenever the bucket changes. */
  method Rebucket(raw: seq<Bar>, interval: int) returns (aggregated: seq<Bar>)
    requires 0 < interval && Ordered(raw)
    ensures aggregated == Aggregate(raw, interval)
  {
    hide Aggregate, Trunc, Push, Group, Buckets;
    aggregated := [];
    var currentAgg: Option<Bar> := None;
    var aggBucket := 0;
    var i := 0;
    EmptyGroup(interval);
    assert raw[..0] == [] && raw[..|raw|] == raw;
    while i < |raw|
      invariant 0 <= i <= |raw|
      invariant Aggregate(raw[..i], interval) == Closed(aggregated, currentAgg)
      invariant if currentAgg.Some? then aggBucket == currentAgg.value.timestamp else aggregated == []
    {
      var b := raw[i];
      var bucket := Trunc(b.timestamp, interval);
      AggregatePrefix(raw, i, interval);
      PushClosed(aggregated, currentAgg, bucket, b);
      if currentAgg.None? || bucket != aggBucket {
        if currentAgg.Some? {
          aggregated := aggregated + [currentAgg.value];
        }
        aggBucket := bucket;
        currentAgg := Some(Bar(bucket, b.open, b.high, b.low, b.close, b.volume));
      } else {
        var a := currentAgg.value;
        if b.high > a.high {
          a := a.(high := b.high);
        }
        if b.low < a.low {
          a := a.(low := b.low);
        }
        currentAgg := Some(a.(close := b.close, volume := a.volume + b.volume));
      }
      i := i + 1;
    }
    if currentAgg.Some? {
      aggregated := aggregated + [currentAgg.value];
    }
  }

  /** The finished bars followed by the forming one, if any. */
  function Closed(aggregated: seq<Bar>, currentAgg: Option<Bar>): (r: seq<Bar>) {
    if currentAgg.Some? then aggregated + [currentAgg.value] else aggregated
  }

  lemma {:induction false} PushClosed(aggregated: seq<Bar>, currentAgg: Option<Bar>, bucket: int, b: Bar)
    requires currentAgg.None? ==> aggregated == []
    ensures Push(Closed(aggregated, currentAgg), bucket, b)
         == if currentAgg.Some? && currentAgg.value.timestamp == bucket
            then aggregated + [Absorb(currentAgg.value, b)]
            else Closed(aggregated, currentAgg) + [b.(timestamp := bucket)]
  {
    if currentAgg.Some? {
      assert Init(aggregated + [currentAgg.value]) == aggregated;
    }
  }

  /** Going through the intermediate timeframes gives the same daily bars. */
  lemma {:induction false} TimeframesCompose(bars: seq<Bar>)
    requires Ordered(bars)
    ensures var fiveMin := Aggregate(bars, Interval("5Min"));
            var hourly := Aggregate(fiveMin, Interval("1Hour"));
            && hourly == Aggregate(bars, Interval("1Hour"))
            && Aggregate(fiveMin, Interval("1Day")) == Aggregate(bars, Interval("1Day"))
            && Aggregate(hourly, Interval("1Day")) == Aggregate(bars, Interval("1Day"))
  {
    hide Aggregate;
    AggregateCompose(bars, Interval("5Min"), 12);
    AggregateCompose(bars, Interval("5Min"), 288);
    AggregateCompose(bars, Interval("1Hour"), 24);
  }

  /** Re-bucketed minute bars are the ticks grouped straight by the larger bucket of their minute. */
  lemma {:induction false} TimeframeOfTicks(ticks: seq<Bar>, timeframe: string)
    ensures Aggregate(MinuteBars(ticks), Interval(timeframe)) == Group(Buckets(RunningMinutes(ticks), Interval(timeframe)), ticks)
    ensures TotalVolume(Aggregate(MinuteBars(ticks), Interval(timeframe))) == TotalVolume(ticks)
  {
    hide Aggregate, Group, Buckets, RunningMinutes, Interval;
    RunningMinutesAscending(ticks);
    Coarsen(RunningMinutes(ticks), ticks, Interval(timeframe));
    BucketsAscending(RunningMinutes(ticks), Interval(timeframe));
    GroupVolume(Buckets(RunningMinutes(ticks), Interval(timeframe)), ticks);
  }

  lemma {:induction false} MinuteBarsSound(ticks: seq<Bar>)
    requires AllTicks(ticks)
    ensures forall b :: b in MinuteBars(ticks) ==> Sound(b)
  {
    GroupSound(RunningMinutes(ticks), ticks);
  }

  /**
   * The newest n bars of the history all have open and close between low and high exactly when
   * the opening price is not negative or no seeded bar is left among them.
   */
  lemma {:induction false} KeptSoundExactlyWhen(price: real, start: int, ticks: seq<Bar>, n: nat)
    requires AllTicks(ticks)
    ensures (forall b :: b in Suffix(FullHistory(price, start, ticks), n) ==> Sound(b)) <==> price >= 0.0 || |MinuteBars(ticks)| >= n
  {
    hide SeedBars, MinuteBars, Sound;
    var seeds, minutes := SeedBars(price, Trunc(start, MINUTE), SEED_COUNT), MinuteBars(ticks);
    var kept := Suffix(seeds + minutes, n);
    SeedBarsFlat(price, Trunc(start, MINUTE), SEED_COUNT);
    MinuteBarsSound(ticks);
    if |minutes| >= n {
      assert forall b :: b in kept ==> b in minutes;
    } else {
      var last := seeds[SEED_COUNT - 1];
      assert last == kept[|kept| - |minutes| - 1];
    }
  }
}
