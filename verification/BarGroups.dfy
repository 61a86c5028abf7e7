/**
 * Candlestick bars and the batch definition of grouping them by a key:
 * one bar per distinct key, summarising all the inputs that carry that key.
 * Ticks are bars whose four prices coincide.
 */
module BarGroups {

  datatype Bar = Bar(timestamp: int, open: real, high: real, low: real, close: real, volume: int)

  function Last<T>(s: seq<T>): (r: T)
    requires s != []
  {
    s[|s| - 1]
  }

  function Init<T>(s: seq<T>): (r: seq<T>)
    requires s != []
  {
    s[..|s| - 1]
  }

  // ---- Time buckets: time.Time.Truncate, which rounds down for every time ----

  function Trunc(t: int, d: int): (r: int)
    requires 0 < d
  {
    t - t % d
  }

  lemma {:induction false} MulAtLeast(d: int, m: int)
    requires 0 < d
    ensures 1 <= m ==> d <= d * m
    ensures m <= -1 ==> d * m <= -d
  {
    if 1 <= m {
      assert d * m == d + d * (m - 1);
    } else if m <= -1 {
      assert d * m == -d + d * (m + 1);
    }
  }

  lemma {:induction false} QuotientsAgree(d: int, q: int, r: int, p: int, s: int)
    requires 0 < d && 0 <= r < d && 0 <= s < d && d * q + r == d * p + s
    ensures q == p && r == s
  {
    MulAtLeast(d, q - p);
    assert d * (q - p) == s - r;
  }

  lemma {:induction false} DivUnique(x: int, d: int, q: int, r: int)
    requires 0 < d && 0 <= r < d && x == d * q + r
    ensures x % d == r
  {
    QuotientsAgree(d, q, r, x / d, x % d);
  }

  /** A bucket is the stretch of d from a multiple of d, and every time lies in its own. */
  lemma {:induction false} TruncIsBucket(t: int, d: int)
    requires 0 < d
    ensures Trunc(t, d) <= t < Trunc(t, d) + d && Trunc(t, d) % d == 0
  {
    assert Trunc(t, d) == d * (t / d);
    DivUnique(Trunc(t, d), d, t / d, 0);
  }

  /** A multiple of d starts exactly the bucket of the times in the d from it. */
  lemma {:induction false} TruncExactlyWhen(t: int, d: int, k: int)
    requires 0 < d && k % d == 0
    ensures Trunc(t, d) == k <==> k <= t < k + d
  {
    TruncIsBucket(t, d);
    if k <= t < k + d {
      assert k == d * (k / d);
      DivUnique(t, d, k / d, t - k);
    }
  }

  lemma {:induction false} TruncMonotone(a: int, b: int, d: int)
    requires 0 < d && a <= b
    ensures Trunc(a, d) <= Trunc(b, d)
  {
    var qa, ra, qb, rb := a / d, a % d, b / d, b % d;
    MulAtLeast(d, qa - qb);
    assert d * (qa - qb) == (a - ra) - (b - rb);
  }

  lemma {:induction false} NestedRemainders(d: int, k: int, q: int, r: int, p: int, s: int)
    requires 0 < d && 0 < k && 0 <= r && 0 <= s < d && (d * k) * q + r == d * p + s
    ensures s <= r
  {
    MulAtLeast(d, p - k * q);
    assert d * (p - k * q) == r - s by {
      assert (d * k) * q == d * (k * q);
      assert d * (p - k * q) == d * p - d * (k * q);
    }
  }

  /** Truncating to a fine bucket first never moves a time out of its coarse bucket. */
  lemma {:induction false} TruncTrunc(t: int, d: int, k: int)
    requires 0 < d && 0 < k
    ensures 0 < d * k && Trunc(Trunc(t, d), d * k) == Trunc(t, d * k)
  {
    var w := d * k;
    MulAtLeast(d, k);
    var q, r, p, s := t / w, t % w, t / d, t % d;
    NestedRemainders(d, k, q, r, p, s);
    DivUnique(t - s, w, q, r - s);
  }

  // ---- Merging bars ----

  /** The in-place update of a forming bar by a later one. */
  function Absorb(a: Bar, b: Bar): (r: Bar) {
    Bar(a.timestamp, a.open,
        if b.high > a.high then b.high else a.high,
        if b.low < a.low then b.low else a.low,
        b.close, a.volume + b.volume)
  }

  function MaxHigh(bars: seq<Bar>): (r: real)
    requires bars != []
  {
    if |bars| == 1 then bars[0].high
    else
      var m := MaxHigh(Init(bars));
      if Last(bars).high > m then Last(bars).high else m
  }

  function MinLow(bars: seq<Bar>): (r: real)
    requires bars != []
  {
    if |bars| == 1 then bars[0].low
    else
      var m := MinLow(Init(bars));
      if Last(bars).low < m then Last(bars).low else m
  }

  /** MaxHigh and MinLow are the extremes: bounds that some bar attains. */
  lemma {:induction false} Extremes(bars: seq<Bar>)
    requires bars != []
    ensures forall b :: b in bars ==> b.high <= MaxHigh(bars) && MinLow(bars) <= b.low
    ensures exists b :: b in bars && b.high == MaxHigh(bars)
    ensures exists b :: b in bars && b.low == MinLow(bars)
  {
    if |bars| == 1 {
      assert bars[0] in bars;
    } else {
      assert bars == Init(bars) + [Last(bars)];
      Extremes(Init(bars));
      assert Last(bars) in bars;
    }
  }

  function TotalVolume(bars: seq<Bar>): (r: int) {
    if bars == [] then 0 else TotalVolume(Init(bars)) + Last(bars).volume
  }

  /** One bar for a whole group: open first, high max, low min, close last, volume summed. */
  function Summarize(k: int, bars: seq<Bar>): (r: Bar)
    requires bars != []
  {
    Bar(k, bars[0].open, MaxHigh(bars), MinLow(bars), Last(bars).close, TotalVolume(bars))
  }

  lemma {:induction false} SummarizeSnoc(k: int, bars: seq<Bar>, b: Bar)
    ensures bars == [] ==> Summarize(k, bars + [b]) == b.(timestamp := k)
    ensures bars != [] ==> Summarize(k, bars + [b]) == Absorb(Summarize(k, bars), b)
  {
    assert Init(bars + [b]) == bars && Last(bars + [b]) == b;
    if bars == [] {
      assert TotalVolume(bars + [b]) == TotalVolume(bars) + b.volume;
    }
  }

  // ---- Grouping by key ----

  /** The distinct keys, in order of first appearance. */
  function Distinct(keys: seq<int>): (r: seq<int>) {
    if keys == [] then []
    else if Last(keys) in Init(keys) then Distinct(Init(keys))
    else Distinct(Init(keys)) + [Last(keys)]
  }

  lemma {:induction false} DistinctMember(keys: seq<int>, j: nat)
    requires j < |Distinct(keys)|
    ensures Distinct(keys)[j] in keys
  {
    assert keys == Init(keys) + [Last(keys)];
    if j < |Distinct(Init(keys))| {
      DistinctMember(Init(keys), j);
    }
  }

  lemma {:induction false} DistinctMembers(keys: seq<int>)
    ensures forall k :: k in Distinct(keys) ==> k in keys
    ensures forall k :: k in keys ==> k in Distinct(keys)
  {
    if keys != [] {
      DistinctMembers(Init(keys));
      assert keys == Init(keys) + [Last(keys)];
    }
  }

  /** The bars whose key is k, in input order. */
  function Select(keys: seq<int>, bars: seq<Bar>, k: int): (r: seq<Bar>)
    requires |keys| == |bars|
    ensures r != [] <==> k in keys
  {
    if keys == [] then []
    else
      assert keys == Init(keys) + [Last(keys)];
      Select(Init(keys), Init(bars), k) + if Last(keys) == k then [Last(bars)] else []
  }

  /** The summary of the bars whose key is k. */
  function GroupBar(keys: seq<int>, bars: seq<Bar>, k: int): (r: Bar)
    requires |keys| == |bars| && k in keys
  {
    Summarize(k, Select(keys, bars, k))
  }

  /** The batch grouping: one summary per distinct key. */
  function Group(keys: seq<int>, bars: seq<Bar>): (r: seq<Bar>)
    requires |keys| == |bars|
    ensures |r| == |Distinct(keys)|
    ensures forall j :: 0 <= j < |r| ==> r[j].timestamp == Distinct(keys)[j]
  {
    var ks := Distinct(keys);
    seq(|ks|, j requires 0 <= j < |ks| => DistinctMember(keys, j); GroupBar(keys, bars, ks[j]))
  }

  ghost predicate Ascending(keys: seq<int>) {
    forall i, j :: 0 <= i < j < |keys| ==> keys[i] <= keys[j]
  }

  ghost predicate StrictlyAscending(keys: seq<int>) {
    forall i, j :: 0 <= i < j < |keys| ==> keys[i] < keys[j]
  }

  /** Bars in time order. */
  ghost predicate Ordered(bars: seq<Bar>) {
    forall i, j :: 0 <= i < j < |bars| ==> bars[i].timestamp <= bars[j].timestamp
  }

  ghost predicate StrictlyOrdered(bars: seq<Bar>) {
    forall i, j :: 0 <= i < j < |bars| ==> bars[i].timestamp < bars[j].timestamp
  }

  lemma {:induction false} DistinctSnoc(keys: seq<int>, k: int)
    ensures Distinct(keys + [k]) == Distinct(keys) + if k in keys then [] else [k]
  {
    assert Init(keys + [k]) == keys;
  }

  lemma {:induction false} AscendingSnoc(keys: seq<int>, k: int)
    requires Ascending(keys + [k])
    ensures Ascending(keys)
    ensures k in keys ==> Last(keys) == k
    ensures forall x :: x in keys ==> x <= k
  {
    var keys' := keys + [k];
    assert forall i :: 0 <= i < |keys| ==> keys[i] == keys'[i] <= keys'[|keys|];
    if k in keys {
      var i :| 0 <= i < |keys| && keys[i] == k;
      assert keys'[i] <= keys'[|keys| - 1] <= keys'[|keys|];
    }
  }

  lemma {:induction false} StrictlySnoc(d: seq<int>, k: int)
    requires StrictlyAscending(d) && (d != [] ==> Last(d) < k)
    ensures StrictlyAscending(d + [k])
  {
  }

  lemma {:induction false} DistinctAscending(keys: seq<int>)
    requires Ascending(keys)
    ensures StrictlyAscending(Distinct(keys))
    ensures keys != [] ==> Distinct(keys) != [] && Last(Distinct(keys)) == Last(keys)
  {
    if keys != [] {
      var rest, k := Init(keys), Last(keys);
      assert keys == rest + [k];
      AscendingSnoc(rest, k);
      DistinctAscending(rest);
      if k !in rest {
        assert rest != [] ==> Last(rest) in rest && Last(rest) < k;
        StrictlySnoc(Distinct(rest), k);
      }
    }
  }

  /** What one loop iteration does to the groups built so far. */
  function Push(groups: seq<Bar>, k: int, b: Bar): (r: seq<Bar>)
  {
    if groups != [] && Last(groups).timestamp == k
    then Init(groups) + [Absorb(Last(groups), b)]
    else groups + [b.(timestamp := k)]
  }

  lemma {:induction false} SelectSnoc(keys: seq<int>, bars: seq<Bar>, k: int, b: Bar, x: int)
    requires |keys| == |bars|
    ensures Select(keys + [k], bars + [b], x) == Select(keys, bars, x) + if x == k then [b] else []
  {
    assert Init(keys + [k]) == keys && Init(bars + [b]) == bars;
  }

  lemma {:induction false} GroupBarSnoc(keys: seq<int>, bars: seq<Bar>, k: int, b: Bar, x: int)
    requires |keys| == |bars| && x in keys
    ensures GroupBar(keys + [k], bars + [b], x)
         == if x == k then Absorb(GroupBar(keys, bars, x), b) else GroupBar(keys, bars, x)
  {
    SelectSnoc(keys, bars, k, b, x);
    SummarizeSnoc(x, Select(keys, bars, x), b);
    assert Select(keys, bars, x) + [] == Select(keys, bars, x);
  }

  lemma {:induction false} GroupAt(keys: seq<int>, bars: seq<Bar>, j: int)
    requires |keys| == |bars| && 0 <= j < |Distinct(keys)|
    ensures Distinct(keys)[j] in keys
    ensures Group(keys, bars)[j] == GroupBar(keys, bars, Distinct(keys)[j])
  {
    DistinctMember(keys, j);
  }

  lemma {:induction false} GroupOldKeyAt(keys: seq<int>, bars: seq<Bar>, k: int, b: Bar, j: int)
    requires |keys| == |bars| && k in keys
    requires StrictlyAscending(Distinct(keys)) && Distinct(keys) != [] && Last(Distinct(keys)) == k
    requires Distinct(keys + [k]) == Distinct(keys)
    requires 0 <= j < |Distinct(keys)|
    ensures Group(keys + [k], bars + [b])[j]
         == if j == |Distinct(keys)| - 1 then Absorb(Group(keys, bars)[j], b) else Group(keys, bars)[j]
  {
    GroupAt(keys, bars, j);
    GroupAt(keys + [k], bars + [b], j);
    GroupBarSnoc(keys, bars, k, b, Distinct(keys)[j]);
  }

  lemma {:induction false} ReplacedLast<T>(s: seq<T>, t: seq<T>, x: T)
    requires |s| == |t| > 0 && Last(t) == x
    requires forall j :: 0 <= j < |s| - 1 ==> t[j] == s[j]
    ensures t == Init(s) + [x]
  {
  }

  lemma {:induction false} GroupOldKey(keys: seq<int>, bars: seq<Bar>, k: int, b: Bar)
    requires |keys| == |bars| && k in keys
    requires StrictlyAscending(Distinct(keys)) && Distinct(keys) != [] && Last(Distinct(keys)) == k
    ensures Group(keys + [k], bars + [b]) == Init(Group(keys, bars)) + [Absorb(Last(Group(keys, bars)), b)]
  {
    hide Distinct, Absorb, Summarize, Group;
    var n, g, g' := |Distinct(keys)|, Group(keys, bars), Group(keys + [k], bars + [b]);
    DistinctSnoc(keys, k);
    assert |g| == |g'| == n;
    GroupOldKeyAt(keys, bars, k, b, n - 1);
    forall j | 0 <= j < n - 1 ensures g'[j] == g[j] {
      GroupOldKeyAt(keys, bars, k, b, j);
    }
    ReplacedLast(g, g', Absorb(Last(g), b));
  }

  lemma {:induction false} GroupNewKeyAt(keys: seq<int>, bars: seq<Bar>, k: int, b: Bar, j: int)
    requires |keys| == |bars| && k !in keys
    requires Distinct(keys + [k]) == Distinct(keys) + [k]
    requires 0 <= j < |Distinct(keys)|
    ensures Group(keys + [k], bars + [b])[j] == Group(keys, bars)[j]
  {
    GroupAt(keys, bars, j);
    GroupAt(keys + [k], bars + [b], j);
    GroupBarSnoc(keys, bars, k, b, Distinct(keys)[j]);
  }

  lemma {:induction false} GroupNewKeyLast(keys: seq<int>, bars: seq<Bar>, k: int, b: Bar)
    requires |keys| == |bars| && k !in keys
    requires Distinct(keys + [k]) == Distinct(keys) + [k]
    ensures Last(Group(keys + [k], bars + [b])) == b.(timestamp := k)
  {
    GroupAt(keys + [k], bars + [b], |Distinct(keys)|);
    SelectSnoc(keys, bars, k, b, k);
    SummarizeSnoc(k, Select(keys, bars, k), b);
  }

  lemma {:induction false} GroupNewKey(keys: seq<int>, bars: seq<Bar>, k: int, b: Bar)
    requires |keys| == |bars| && k !in keys
    ensures Group(keys + [k], bars + [b]) == Group(keys, bars) + [b.(timestamp := k)]
  {
    hide Distinct, Group, Summarize, Select;
    var n, g, g' := |Distinct(keys)|, Group(keys, bars), Group(keys + [k], bars + [b]);
    DistinctSnoc(keys, k);
    GroupNewKeyLast(keys, bars, k, b);
    forall j | 0 <= j < n ensures g'[j] == g[j] {
      GroupNewKeyAt(keys, bars, k, b, j);
    }
  }

  /** On ascending keys the one-pass loop body computes the batch grouping. */
  lemma {:induction false} GroupSnoc(keys: seq<int>, bars: seq<Bar>, k: int, b: Bar)
    requires |keys| == |bars|
    requires Ascending(keys + [k])
    ensures Group(keys + [k], bars + [b]) == Push(Group(keys, bars), k, b)
  {
    hide Distinct, Absorb, Summarize, Group;
    AscendingSnoc(keys, k);
    DistinctAscending(keys);
    DistinctMembers(keys);
    var g := Group(keys, bars);
    assert g != [] ==> Last(g).timestamp == Last(Distinct(keys));
    if k in keys {
      GroupOldKey(keys, bars, k, b);
    } else {
      assert g != [] ==> Last(Distinct(keys)) in keys;
      GroupNewKey(keys, bars, k, b);
    }
  }

  // ---- Aggregation of bars into larger buckets ----

  function Buckets(times: seq<int>, d: int): (r: seq<int>)
    requires 0 < d
    ensures |r| == |times|
  {
    seq(|times|, i requires 0 <= i < |times| => Trunc(times[i], d))
  }

  function Times(bars: seq<Bar>): (r: seq<int>) {
    seq(|bars|, i requires 0 <= i < |bars| => bars[i].timestamp)
  }

  /** Re-bucketing to a timeframe of length d. */
  function Aggregate(bars: seq<Bar>, d: int): (r: seq<Bar>)
    requires 0 < d
  {
    Group(Buckets(Times(bars), d), bars)
  }

  /** The bars from lo up to but not at hi, in input order. */
  function Within(bars: seq<Bar>, lo: int, hi: int): (r: seq<Bar>) {
    if bars == [] then []
    else Within(Init(bars), lo, hi) + if lo <= Last(bars).timestamp < hi then [Last(bars)] else []
  }

  lemma {:induction false} SelectWithin(bars: seq<Bar>, d: int, k: int)
    requires 0 < d && k % d == 0
    ensures Select(Buckets(Times(bars), d), bars, k) == Within(bars, k, k + d)
    decreases |bars|
  {
    if bars != [] {
      SelectWithin(Init(bars), d, k);
      TruncExactlyWhen(Last(bars).timestamp, d, k);
      hide Trunc;
      assert Init(Buckets(Times(bars), d)) == Buckets(Times(Init(bars)), d);
      assert Last(Buckets(Times(bars), d)) == Trunc(Last(bars).timestamp, d);
    }
  }

  /** Every bar starts on a multiple of d and summarises exactly the bars of the d from there. */
  ghost predicate Summarised(groups: seq<Bar>, bars: seq<Bar>, d: int) {
    d > 0 && forall a :: a in groups ==> SummaryOf(a, bars, d)
  }

  ghost predicate SummaryOf(a: Bar, bars: seq<Bar>, d: int)
    requires d > 0
  {
    var part := Within(bars, a.timestamp, a.timestamp + d);
    a.timestamp % d == 0 && part != [] && a == Summarize(a.timestamp, part)
  }

  /** Every bar lies in the d from some group. */
  ghost predicate Covered(groups: seq<Bar>, bars: seq<Bar>, d: int) {
    forall b :: b in bars ==> exists a :: a in groups && a.timestamp <= b.timestamp < a.timestamp + d
  }

  lemma {:induction false} GroupIsSummary(bars: seq<Bar>, d: int, j: nat)
    requires 0 < d && j < |Aggregate(bars, d)|
    ensures SummaryOf(Aggregate(bars, d)[j], bars, d)
  {
    var keys := Buckets(Times(bars), d);
    var k := Distinct(keys)[j];
    GroupAt(keys, bars, j);
    hide Trunc, Summarize, Select, Within, Distinct, Group;
    var i :| 0 <= i < |keys| && keys[i] == k;
    TruncIsBucket(bars[i].timestamp, d);
    assert keys[i] == Trunc(bars[i].timestamp, d);
    SelectWithin(bars, d, k);
    assert Aggregate(bars, d)[j] == Summarize(k, Within(bars, k, k + d));
  }

  lemma {:induction false} GroupFor(bars: seq<Bar>, d: int, i: nat) returns (a: Bar)
    requires 0 < d && i < |bars|
    ensures a in Aggregate(bars, d) && a.timestamp <= bars[i].timestamp < a.timestamp + d
  {
    var keys := Buckets(Times(bars), d);
    TruncIsBucket(bars[i].timestamp, d);
    DistinctMembers(keys);
    hide Trunc, GroupBar, Distinct;
    assert keys[i] == Trunc(bars[i].timestamp, d);
    assert keys[i] in Distinct(keys);
    var j :| 0 <= j < |Distinct(keys)| && Distinct(keys)[j] == keys[i];
    a := Group(keys, bars)[j];
  }

  /** Where the buckets lie. */
  lemma {:induction false} AggregateBuckets(bars: seq<Bar>, d: int)
    requires 0 < d
    ensures Summarised(Aggregate(bars, d), bars, d) && Covered(Aggregate(bars, d), bars, d)
  {
    hide Aggregate, SummaryOf;
    forall a | a in Aggregate(bars, d) ensures SummaryOf(a, bars, d) {
      var j :| 0 <= j < |Aggregate(bars, d)| && Aggregate(bars, d)[j] == a;
      GroupIsSummary(bars, d, j);
    }
    forall b | b in bars ensures exists a :: a in Aggregate(bars, d) && a.timestamp <= b.timestamp < a.timestamp + d {
      var i :| 0 <= i < |bars| && bars[i] == b;
      var a := GroupFor(bars, d, i);
    }
  }

  /** A summary's prices and volume, read off its bars. */
  lemma {:induction false} SummaryMeans(k: int, bars: seq<Bar>)
    requires bars != []
    ensures var r := Summarize(k, bars);
            && r.timestamp == k && r.open == bars[0].open && r.close == bars[|bars| - 1].close
            && (forall b :: b in bars ==> r.low <= b.low && b.high <= r.high)
            && (exists b :: b in bars && b.high == r.high) && (exists b :: b in bars && b.low == r.low)
            && r.volume == TotalVolume(bars)
  {
    Extremes(bars);
  }

  lemma {:induction false} BucketsAscending(times: seq<int>, d: int)
    requires 0 < d && Ascending(times)
    ensures Ascending(Buckets(times, d))
  {
    forall i, j | 0 <= i < j < |times| ensures Buckets(times, d)[i] <= Buckets(times, d)[j] {
      TruncMonotone(times[i], times[j], d);
    }
  }

  lemma {:induction false} TimesAscending(bars: seq<Bar>)
    ensures Ordered(bars) <==> Ascending(Times(bars))
    ensures StrictlyOrdered(bars) <==> StrictlyAscending(Times(bars))
  {
    if Ascending(Times(bars)) {
      forall i, j | 0 <= i < j < |bars| ensures bars[i].timestamp <= bars[j].timestamp {
        assert Times(bars)[i] <= Times(bars)[j];
      }
    }
    if StrictlyAscending(Times(bars)) {
      forall i, j | 0 <= i < j < |bars| ensures bars[i].timestamp < bars[j].timestamp {
        assert Times(bars)[i] < Times(bars)[j];
      }
    }
  }

  /** Adding one later bar to the input is one loop iteration on the output. */
  lemma {:induction false} AggregateSnoc(bars: seq<Bar>, b: Bar, d: int)
    requires 0 < d && Ordered(bars + [b])
    ensures Aggregate(bars + [b], d) == Push(Aggregate(bars, d), Trunc(b.timestamp, d), b)
  {
    TimesAscending(bars + [b]);
    BucketsAscending(Times(bars + [b]), d);
    assert Buckets(Times(bars + [b]), d) == Buckets(Times(bars), d) + [Trunc(b.timestamp, d)];
    GroupSnoc(Buckets(Times(bars), d), bars, Trunc(b.timestamp, d), b);
  }

  lemma {:induction false} PushPush(groups: seq<Bar>, k: int, a: Bar, b: Bar)
    ensures Push(Push(groups, k, a), k, b) == Push(groups, k, Absorb(a, b))
  {
    var once := Push(groups, k, a);
    assert Last(once).timestamp == k;
    if groups != [] && Last(groups).timestamp == k {
      assert Init(once) == Init(groups);
    } else {
      assert Init(once) == groups;
    }
  }

  /** The coarse groups follow when one more input reaches the fine groups. */
  lemma {:induction false} CoarsenStep(g: seq<Bar>, k: int, b: Bar, d: int)
    requires 0 < d && Ordered(Push(g, k, b)) && Ordered(g)
    ensures Aggregate(Push(g, k, b), d) == Push(Aggregate(g, d), Trunc(k, d), b)
  {
    hide Aggregate;
    if g != [] && Last(g).timestamp == k {
      var h, l := Init(g), Last(g);
      assert g == h + [l];
      calc {
        Aggregate(Push(g, k, b), d);
        Aggregate(h + [Absorb(l, b)], d);
        { AggregateSnoc(h, Absorb(l, b), d); }
        Push(Aggregate(h, d), Trunc(k, d), Absorb(l, b));
        { PushPush(Aggregate(h, d), Trunc(k, d), l, b); }
        Push(Push(Aggregate(h, d), Trunc(k, d), l), Trunc(k, d), b);
        { AggregateSnoc(h, l, d); }
        Push(Aggregate(g, d), Trunc(k, d), b);
      }
    } else {
      AggregateSnoc(g, b.(timestamp := k), d);
    }
  }

  lemma {:induction false} EmptyGroup(d: int)
    requires 0 < d
    ensures Group([], []) == [] && Buckets([], d) == [] && Aggregate([], d) == []
  {
    assert Buckets(Times([]), d) == [];
  }

  lemma {:induction false} BucketsSnoc(times: seq<int>, t: int, d: int)
    requires 0 < d
    ensures Buckets(times + [t], d) == Buckets(times, d) + [Trunc(t, d)]
  {
  }

  /** Re-bucketing grouped bars equals grouping the raw inputs by the coarser key. */
  lemma {:induction false} Coarsen(keys: seq<int>, bars: seq<Bar>, d: int)
    requires 0 < d && |keys| == |bars| && Ascending(keys)
    ensures Aggregate(Group(keys, bars), d) == Group(Buckets(keys, d), bars)
    decreases |keys|
  {
    hide Aggregate, Absorb, Group, Distinct, Push, Buckets, Trunc;
    if keys == [] {
      EmptyGroup(d);
    } else {
      var rest, k, bars0, b := Init(keys), Last(keys), Init(bars), Last(bars);
      assert keys == rest + [k] && bars == bars0 + [b];
      AscendingSnoc(rest, k);
      Coarsen(rest, bars0, d);
      GroupSnoc(rest, bars0, k, b);
      GroupTimes(keys, bars);
      GroupTimes(rest, bars0);
      CoarsenStep(Group(rest, bars0), k, b, d);
      BucketsAscending(keys, d);
      BucketsSnoc(rest, k, d);
      GroupSnoc(Buckets(rest, d), bars0, Trunc(k, d), b);
    }
  }

  lemma {:induction false} GroupTimes(keys: seq<int>, bars: seq<Bar>)
    requires |keys| == |bars| && Ascending(keys)
    ensures Times(Group(keys, bars)) == Distinct(keys)
    ensures StrictlyOrdered(Group(keys, bars))
  {
    DistinctAscending(keys);
    TimesAscending(Group(keys, bars));
    assert Times(Group(keys, bars)) == Distinct(keys);
  }

  /** Aggregating in two stages equals aggregating straight to the larger timeframe. */
  lemma {:induction false} AggregateCompose(bars: seq<Bar>, d: int, k: int)
    requires 0 < d && 0 < k && Ordered(bars)
    ensures 0 < d * k
    ensures Aggregate(Aggregate(bars, d), d * k) == Aggregate(bars, d * k)
  {
    assert 0 < d * k;
    var ts := Times(bars);
    TimesAscending(bars);
    BucketsAscending(ts, d);
    Coarsen(Buckets(ts, d), bars, d * k);
    forall i | 0 <= i < |ts| ensures Buckets(Buckets(ts, d), d * k)[i] == Buckets(ts, d * k)[i] {
      TruncTrunc(ts[i], d, k);
    }
    assert Buckets(Buckets(ts, d), d * k) == Buckets(ts, d * k);
  }

  /** On bars already aligned to d and strictly ordered, aggregation changes nothing. */
  lemma {:induction false} AggregateAligned(bars: seq<Bar>, d: int)
    requires 0 < d && StrictlyOrdered(bars)
    requires forall b :: b in bars ==> Trunc(b.timestamp, d) == b.timestamp
    ensures Aggregate(bars, d) == bars
    decreases |bars|
  {
    if bars == [] {
    } else {
      var rest, b := Init(bars), Last(bars);
      assert bars == rest + [b];
      AggregateAligned(rest, d);
      AggregateSnoc(rest, b, d);
    }
  }

  // ---- What aggregation conserves ----

  lemma {:induction false} PushVolume(groups: seq<Bar>, k: int, b: Bar)
    ensures TotalVolume(Push(groups, k, b)) == TotalVolume(groups) + b.volume
  {
    var r := Push(groups, k, b);
    if groups != [] && Last(groups).timestamp == k {
      assert Init(r) == Init(groups);
    } else {
      assert Init(r) == groups;
    }
  }

  lemma {:induction false} GroupVolume(keys: seq<int>, bars: seq<Bar>)
    requires |keys| == |bars| && Ascending(keys)
    ensures TotalVolume(Group(keys, bars)) == TotalVolume(bars)
    decreases |keys|
  {
    if keys == [] {
      assert Group(keys, bars) == [];
    } else {
      hide Group, Push, Ascending;
      var rest, bars0 := Init(keys), Init(bars);
      assert keys == rest + [Last(keys)] && bars == bars0 + [Last(bars)];
      AscendingSnoc(rest, Last(keys));
      GroupVolume(rest, bars0);
      GroupSnoc(rest, bars0, Last(keys), Last(bars));
      PushVolume(Group(rest, bars0), Last(keys), Last(bars));
    }
  }

  predicate Sound(b: Bar) {
    b.low <= b.open <= b.high && b.low <= b.close <= b.high
  }

  lemma {:induction false} SelectSubset(keys: seq<int>, bars: seq<Bar>, k: int)
    requires |keys| == |bars|
    ensures forall b :: b in Select(keys, bars, k) ==> b in bars
    decreases |keys|
  {
    if keys != [] {
      assert bars == Init(bars) + [Last(bars)];
      SelectSubset(Init(keys), Init(bars), k);
    }
  }

  lemma {:induction false} GroupSound(keys: seq<int>, bars: seq<Bar>)
    requires |keys| == |bars|
    requires forall b :: b in bars ==> Sound(b)
    ensures forall g :: g in Group(keys, bars) ==> Sound(g)
  {
    forall j | 0 <= j < |Distinct(keys)| ensures Sound(Group(keys, bars)[j]) {
      GroupAt(keys, bars, j);
      var sel := Select(keys, bars, Distinct(keys)[j]);
      SelectSubset(keys, bars, Distinct(keys)[j]);
      Extremes(sel);
      assert sel[0] in sel && Last(sel) in sel;
    }
  }

  /**
   * What every re-bucketing keeps: each bucket appears exactly once and in order,
   * no bucket is invented or lost, volume is conserved and the prices stay sound.
   */
  lemma {:induction false} AggregateConserves(bars: seq<Bar>, d: int)
    requires 0 < d && Ordered(bars)
    ensures StrictlyOrdered(Aggregate(bars, d))
    ensures forall t :: t in Times(Aggregate(bars, d)) <==> t in Buckets(Times(bars), d)
    ensures TotalVolume(Aggregate(bars, d)) == TotalVolume(bars)
    ensures (forall b :: b in bars ==> Sound(b)) ==> forall a :: a in Aggregate(bars, d) ==> Sound(a)
  {
    DistinctMembers(Buckets(Times(bars), d));
    TimesAscending(bars);
    BucketsAscending(Times(bars), d);
    GroupTimes(Buckets(Times(bars), d), bars);
    GroupVolume(Buckets(Times(bars), d), bars);
    if forall b :: b in bars ==> Sound(b) {
      GroupSound(Buckets(Times(bars), d), bars);
    }
  }
}
