/** The metrics collector (src/platform/MetricsCollector.cpp), with values as reals: bounded sample
    series, and aggregates with nearest-rank percentiles over a time window. */
module Metrics {

  datatype Sample = Sample(value: real, timestamp: int)

  datatype Series = Series(samples: seq<Sample>, latest: real, counter: real)

  const FRESH: Series := Series([], 0.0, 0.0)
  const MAX_SAMPLES: nat := 2000
  const HOUR: int := 3600 * 1000000

  // ---- sums, counts and sorting ------------------------------------------------------------------

  function Total(s: seq<real>): (r: real)
  {
    if s == [] then 0.0 else s[0] + Total(s[1..])
  }

  /** How many elements are at most `x`. */
  function AtMost(s: seq<real>, x: real): (n: nat)
    ensures n <= |s|
  {
    if s == [] then 0 else (if s[0] <= x then 1 else 0) + AtMost(s[1..], x)
  }

  function AtLeast(s: seq<real>, x: real): (n: nat)
    ensures n <= |s|
  {
    if s == [] then 0 else (if s[0] >= x then 1 else 0) + AtLeast(s[1..], x)
  }

  ghost predicate Sorted(s: seq<real>)
  {
    forall i, j | 0 <= i < j < |s| :: s[i] <= s[j]
  }

  function Insert(s: seq<real>, x: real): (r: seq<real>)
    ensures |r| == |s| + 1
  {
    if s == [] || x <= s[0] then [x] + s else [s[0]] + Insert(s[1..], x)
  }

  /** `std::sort`, whose algorithm is the library's business. */
  function Sort(s: seq<real>): (r: seq<real>)
    ensures |r| == |s|
  {
    if s == [] then [] else Insert(Sort(s[1..]), s[0])
  }

  lemma {:induction false} InsertMembers(s: seq<real>, x: real)
    ensures forall v :: v in Insert(s, x) <==> v == x || v in s
  {
    if s != [] && s[0] < x {
      InsertMembers(s[1..], x);
      assert s == [s[0]] + s[1..];
    }
  }

  lemma {:induction false} InsertSorted(s: seq<real>, x: real)
    requires Sorted(s)
    ensures Sorted(Insert(s, x))
  {
    if s != [] && s[0] < x {
      InsertSorted(s[1..], x);
      InsertMembers(s[1..], x);
      var rest := Insert(s[1..], x);
      assert forall v <- rest :: s[0] <= v;
      assert forall i | 0 <= i < |rest| :: rest[i] in rest;
    }
  }

  lemma {:induction false} InsertTotals(s: seq<real>, x: real, y: real)
    ensures var r := Insert(s, x);
      && Total(r) == Total(s) + x
      && AtMost(r, y) == AtMost(s, y) + (if x <= y then 1 else 0)
      && AtLeast(r, y) == AtLeast(s, y) + if x >= y then 1 else 0
  {
    var r := Insert(s, x);
    if s == [] || x <= s[0] {
      assert r[1..] == s;
    } else {
      InsertTotals(s[1..], x, y);
      assert r[1..] == Insert(s[1..], x);
    }
  }

  /** Sorting keeps everything the aggregates depend on. */
  lemma {:induction false} SortFacts(s: seq<real>, y: real)
    ensures var r := Sort(s);
      && Sorted(r) && (forall v :: v in r <==> v in s)
      && Total(r) == Total(s) && AtMost(r, y) == AtMost(s, y) && AtLeast(r, y) == AtLeast(s, y)
  {
    hide Sorted, Insert;
    if s == [] {
      assert Sorted([]) by { NothingSorted(); }
    } else {
      var rest := Sort(s[1..]);
      SortFacts(s[1..], y);
      InsertSorted(rest, s[0]);
      InsertMembers(rest, s[0]);
      InsertTotals(rest, s[0], y);
      assert s == [s[0]] + s[1..];
    }
  }

  lemma NothingSorted()
    ensures Sorted([])
  {
  }

  lemma {:induction false} TotalSnoc(s: seq<real>, x: real)
    ensures Total(s + [x]) == Total(s) + x
  {
    if s == [] {
      assert s + [x] == [x] && [x][1..] == [];
    } else {
      assert (s + [x])[1..] == s[1..] + [x];
      TotalSnoc(s[1..], x);
    }
  }

  /** The mean lies between bounds of the elements. */
  lemma {:induction false} TotalBounds(s: seq<real>, lo: real, hi: real)
    requires forall v <- s :: lo <= v <= hi
    ensures lo * |s| as real <= Total(s) <= hi * |s| as real
  {
    if s != [] {
      assert forall v <- s[1..] :: v in s;
      TotalBounds(s[1..], lo, hi);
      assert |s| as real == 1.0 + |s[1..]| as real;
      assert lo * |s| as real == lo + lo * |s[1..]| as real;
      assert hi * |s| as real == hi + hi * |s[1..]| as real;
      assert s[0] in s;
    }
  }

  lemma {:induction false} SortedCounts(s: seq<real>, i: nat)
    requires Sorted(s) && i < |s|
    ensures AtMost(s, s[i]) >= i + 1 && AtLeast(s, s[i]) >= |s| - i
  {
    if i == 0 {
      AllAtLeast(s, s[0]);
    } else {
      SortedCounts(s[1..], i - 1);
    }
  }

  lemma {:induction false} AllAtLeast(s: seq<real>, x: real)
    requires forall v <- s :: x <= v
    ensures AtLeast(s, x) == |s|
  {
    if s != [] {
      assert s[0] in s && forall v <- s[1..] :: v in s;
      AllAtLeast(s[1..], x);
    }
  }

  // ---- series over whole histories -----------------------------------------------------------------

  /** The samples taken at or after `cutoff`. */
  function Since(samples: seq<Sample>, cutoff: int): (r: seq<Sample>)
    ensures |r| <= |samples| && forall s <- r :: s in samples
  {
    if samples == [] then []
    else
      var k := |samples| - 1;
      var r := Since(samples[..k], cutoff);
      if samples[k].timestamp >= cutoff then r + [samples[k]] else r
  }

  function Values(samples: seq<Sample>): (r: seq<real>)
    ensures |r| == |samples| && forall i | 0 <= i < |r| :: r[i] == samples[i].value
  {
    seq(|samples|, i requires 0 <= i < |samples| => samples[i].value)
  }

  /** The newest samples that a series may hold. */
  function Newest(samples: seq<Sample>): (r: seq<Sample>)
    ensures |r| <= MAX_SAMPLES
  {
    if |samples| <= MAX_SAMPLES then samples else samples[|samples| - MAX_SAMPLES..]
  }

  datatype Op =
    | Record(value: real, now: int)
    | Increment(delta: real, now: int)
    | Prune(now: int)

  /** What an operation does to a series. */
  function Apply(s: Series, op: Op): (r: Series)
  {
    match op
    case Record(value, now) => Series(Newest(s.samples + [Sample(value, now)]), value, s.counter)
    case Increment(delta, now) =>
      Series(Newest(s.samples + [Sample(s.counter + delta, now)]), s.counter + delta, s.counter + delta)
    case Prune(now) => s.(samples := Since(s.samples, now - HOUR))
  }

  function ApplyAll(ops: seq<Op>): (r: Series)
    ensures |r.samples| <= MAX_SAMPLES
  {
    if ops == [] then FRESH else Apply(ApplyAll(ops[..|ops| - 1]), ops[|ops| - 1])
  }

  /** The sum of all increments: the value an unbounded counter has. */
  function Count(ops: seq<Op>): (r: real)
  {
    if ops == [] then 0.0
    else Count(ops[..|ops| - 1]) + if ops[|ops| - 1].Increment? then ops[|ops| - 1].delta else 0.0
  }

  /** Every point that was ever recorded, in order. */
  function History(ops: seq<Op>): (r: seq<Sample>)
  {
    if ops == [] then []
    else
      var k := |ops| - 1;
      var before := History(ops[..k]);
      match ops[k]
      case Record(value, now) => before + [Sample(value, now)]
      case Increment(delta, now) => before + [Sample(Count(ops[..k]) + delta, now)]
      case Prune(_) => before
  }

  ghost predicate Suffix<T>(s: seq<T>, whole: seq<T>)
  {
    |s| <= |whole| && whole[|whole| - |s|..] == s
  }

  lemma SinceSnoc(samples: seq<Sample>, s: Sample, cutoff: int)
    ensures Since(samples + [s], cutoff)
         == if s.timestamp >= cutoff then Since(samples, cutoff) + [s] else Since(samples, cutoff)
  {
    assert (samples + [s])[..|samples|] == samples;
  }

  lemma {:induction false} SinceSince(samples: seq<Sample>, c: int, d: int)
    requires c <= d
    ensures Since(Since(samples, c), d) == Since(samples, d)
  {
    if samples != [] {
      var k := |samples| - 1;
      SinceSince(samples[..k], c, d);
      if samples[k].timestamp >= c {
        SinceSnoc(Since(samples[..k], c), samples[k], d);
      }
    }
  }

  lemma SuffixSnoc<T>(s: seq<T>, whole: seq<T>, x: T)
    requires Suffix(s, whole)
    ensures Suffix(s + [x], whole + [x])
  {
  }

  lemma NoSamples(cutoff: int)
    ensures Since([], cutoff) == []
  {
  }

  lemma SuffixFront<T>(s: seq<T>, whole: seq<T>)
    requires Suffix(s, whole) && s != []
    ensures |whole| > 0 && s[|s| - 1] == whole[|whole| - 1] && Suffix(s[..|s| - 1], whole[..|whole| - 1])
  {
  }

  lemma NothingIsSuffix<T>(whole: seq<T>)
    ensures Suffix([], whole)
  {
  }

  lemma {:induction false} SinceOfSuffix(s: seq<Sample>, whole: seq<Sample>, cutoff: int)
    requires Suffix(s, whole)
    ensures Suffix(Since(s, cutoff), Since(whole, cutoff))
  {
    hide Suffix;
    if s == [] {
      NothingIsSuffix(Since(whole, cutoff));
    } else {
      var k, n := |s| - 1, |whole| - 1;
      SuffixFront(s, whole);
      SinceOfSuffix(s[..k], whole[..n], cutoff);
      SuffixSnoc(Since(s[..k], cutoff), Since(whole[..n], cutoff), s[k]);
    }
  }

  /** What `Since` keeps: every sample of the time, as often as it is there, in order. */
  lemma {:induction false} SinceExact(samples: seq<Sample>, cutoff: int, x: Sample)
    ensures multiset(Since(samples, cutoff))[x] == if x.timestamp >= cutoff then multiset(samples)[x] else 0
  {
    if samples != [] {
      var k := |samples| - 1;
      SinceExact(samples[..k], cutoff, x);
      assert samples == samples[..k] + [samples[k]];
    }
  }

  lemma {:induction false} SinceAppend(a: seq<Sample>, b: seq<Sample>, cutoff: int)
    ensures Since(a + b, cutoff) == Since(a, cutoff) + Since(b, cutoff)
  {
    if b == [] {
      assert a + b == a;
    } else {
      var k := |b| - 1;
      assert (a + b)[..|a + b| - 1] == a + b[..k];
      SinceAppend(a, b[..k], cutoff);
    }
  }

  /** A prune keeps exactly the samples of the last hour, and neither the latest value nor the counter
      changes. */
  lemma PruneKeepsHour(s: Series, now: int, x: Sample)
    ensures var r := Apply(s, Prune(now));
      && multiset(r.samples)[x] == (if x.timestamp >= now - 3_600_000_000 then multiset(s.samples)[x] else 0)
      && r.latest == s.latest && r.counter == s.counter
  {
    SinceExact(s.samples, now - HOUR, x);
  }

  /** The latest value: that of the last sample ever recorded. */
  lemma {:induction false} LatestIsLast(ops: seq<Op>)
    ensures ApplyAll(ops).latest == if History(ops) == [] then 0.0 else History(ops)[|History(ops)| - 1].value
    ensures ApplyAll(ops).counter == Count(ops)
  {
    hide Newest, Since;
    if ops != [] {
      LatestIsLast(ops[..|ops| - 1]);
    }
  }

  /** Sums are sums, whatever the grouping. */
  lemma {:induction false} TotalAppend(a: seq<real>, b: seq<real>, x: real)
    ensures Total(a + b) == Total(a) + Total(b) && Total([x]) == x
  {
    if b == [] {
      assert a + b == a;
    } else {
      var k := |b| - 1;
      TotalAppend(a, b[..k], x);
      TotalSnoc(a + b[..k], b[k]);
      TotalSnoc(b[..k], b[k]);
      assert a + b == (a + b[..k]) + [b[k]] && b == b[..k] + [b[k]];
    }
  }

  /** A query window that no prune has cut into: the stored samples in it are the newest part of all
      points ever recorded in it, and all of them if no more than 2000 points were recorded in all. The
      counter is the sum of all increments. */
  lemma {:induction false} WindowIsFaithful(ops: seq<Op>, cutoff: int)
    requires forall op <- ops :: op.Prune? ==> op.now - 3_600_000_000 <= cutoff
    ensures ApplyAll(ops).counter == Count(ops)
    ensures Suffix(Since(ApplyAll(ops).samples, cutoff), Since(History(ops), cutoff))
    ensures |History(ops)| <= 2000 ==> Since(ApplyAll(ops).samples, cutoff) == Since(History(ops), cutoff)
    ensures |ApplyAll(ops).samples| <= |History(ops)|
  {
    hide Since, Suffix, Newest;
    if ops == [] {
      assert Since([], cutoff) == [] by { NoSamples(cutoff); }
      NothingIsSuffix<Sample>([]);
    } else {
      var k := |ops| - 1;
      WindowIsFaithful(ops[..k], cutoff);
      var before := ApplyAll(ops[..k]);
      match ops[k]
      case Prune(now) => SinceSince(before.samples, now - HOUR, cutoff);
      case Record(value, now) => OneMore(before.samples, History(ops[..k]), Sample(value, now), cutoff);
      case Increment(delta, now) => OneMore(before.samples, History(ops[..k]), Sample(before.counter + delta, now), cutoff);
    }
  }

  lemma SuffixTrans<T>(s: seq<T>, mid: seq<T>, whole: seq<T>)
    requires Suffix(s, mid) && Suffix(mid, whole)
    ensures Suffix(s, whole)
  {
    var n := |whole| - |mid|;
    assert whole[n..][|mid| - |s|..] == whole[|whole| - |s|..];
  }

  lemma NewestIsSuffix(samples: seq<Sample>)
    ensures Suffix(Newest(samples), samples)
  {
  }

  lemma OneMore(samples: seq<Sample>, history: seq<Sample>, s: Sample, cutoff: int)
    requires Suffix(Since(samples, cutoff), Since(history, cutoff)) && |samples| <= |history|
    ensures Suffix(Since(Newest(samples + [s]), cutoff), Since(history + [s], cutoff))
    ensures |samples| < MAX_SAMPLES && Since(samples, cutoff) == Since(history, cutoff) ==>
      Since(Newest(samples + [s]), cutoff) == Since(history + [s], cutoff)
    ensures |Newest(samples + [s])| <= |history + [s]|
  {
    hide Since, Suffix;
    SinceSnoc(samples, s, cutoff);
    SinceSnoc(history, s, cutoff);
    SuffixSnoc(Since(samples, cutoff), Since(history, cutoff), s);
    NewestIsSuffix(samples + [s]);
    SinceOfSuffix(Newest(samples + [s]), samples + [s], cutoff);
    SuffixTrans(Since(Newest(samples + [s]), cutoff), Since(samples + [s], cutoff), Since(history + [s], cutoff));
  }

  // ---- aggregates -----------------------------------------------------------------------------------

  datatype Aggregated = Aggregated(
    min: real, max: real, avg: real, p50: real, p95: real, p99: real, sampleCount: nat)

  const NOTHING: Aggregated := Aggregated(0.0, 0.0, 0.0, 0.0, 0.0, 0.0, 0)

  /** ceil(p * n) for p in hundredths. */
  function Rank(p: nat, n: nat): (r: nat)
  {
    (p * n + 99) / 100
  }

  lemma RankIsCeiling(p: nat, n: nat)
    requires 0 < p <= 100 && n > 0
    ensures 100 * (Rank(p, n) - 1) < p * n <= 100 * Rank(p, n)
    ensures 1 <= Rank(p, n) <= n
  {
  }

  /** `x` is a value of the window; at least p hundredths of the window are at most `x`, and less than p
      hundredths are below it. */
  ghost predicate NearestRank(window: seq<real>, p: nat, x: real)
  {
    && x in window
    && 100 * AtMost(window, x) >= p * |window|
    && 100 * (|window| - AtLeast(window, x)) < p * |window|
  }

  /** The aggregates of a non-empty window. */
  ghost predicate Right(window: seq<real>, a: Aggregated)
  {
    && a.sampleCount == |window|
    && a.min in window && a.max in window && (forall v <- window :: a.min <= v <= a.max)
    && a.avg * |window| as real == Total(window)
    && a.min <= a.avg <= a.max
    && NearestRank(window, 50, a.p50) && NearestRank(window, 95, a.p95) && NearestRank(window, 99, a.p99)
    && a.min <= a.p50 <= a.p95 <= a.p99 <= a.max
  }

  lemma SidesOfSorted(window: seq<real>, i: nat)
    requires i < |window|
    ensures var x := Sort(window)[i]; x in window && AtMost(window, x) > i && |window| - AtLeast(window, x) <= i
  {
    hide Sort, AtMost, AtLeast, Sorted;
    SortFacts(window, Sort(window)[i]);
    SortedCounts(Sort(window), i);
    assert Sort(window)[i] in Sort(window);
  }

  /** The element at the rank ceil(p n / 100) of the sorted window. */
  lemma RankOfSorted(window: seq<real>, p: nat, i: nat)
    requires i < |window| && 100 * i < p * |window| <= 100 * (i + 1)
    ensures NearestRank(window, p, Sort(window)[i])
  {
    hide Sort, AtMost, AtLeast;
    SidesOfSorted(window, i);
  }

  lemma SortedAt(s: seq<real>, i: nat, j: nat)
    requires Sorted(s) && i <= j < |s|
    ensures s[i] <= s[j]
  {
  }

  /** The ends of the sorted window are its extremes. */
  lemma SortedEnds(window: seq<real>)
    requires window != []
    ensures var s := Sort(window);
      && s[0] in window && s[|s| - 1] in window
      && forall v <- window :: s[0] <= v <= s[|s| - 1]
  {
    hide Sort;
    var s := Sort(window);
    SortFacts(window, 0.0);
    forall v <- window
      ensures s[0] <= v <= s[|s| - 1]
    {
      assert v in s;
      var i :| 0 <= i < |s| && s[i] == v;
    }
    assert s[0] in s && s[|s| - 1] in s;
  }

  lemma MeanBounds(window: seq<real>, lo: real, hi: real, avg: real)
    requires window != [] && forall v <- window :: lo <= v <= hi
    requires avg == Total(window) / |window| as real
    ensures avg * |window| as real == Total(window) && lo <= avg <= hi
  {
    hide Total;
    TotalBounds(window, lo, hi);
    var n := |window| as real;
    assert avg * n == Total(window);
  }

  /** Percentiles of the same window are ordered like their ranks. */
  lemma RanksAreOrdered(n: nat, p: nat, q: nat)
    requires p <= q
    ensures Rank(p, n) <= Rank(q, n)
  {
    assert p * n <= q * n;
  }

  function SeriesOf(data: map<string, Series>, name: string): (s: Series)
  {
    if name in data then data[name] else FRESH
  }

  class MetricsCollector {
    var data: map<string, Series>

    ghost predicate Valid()
      reads this
    {
      forall name <- data :: |data[name].samples| <= MAX_SAMPLES
    }

    constructor ()
      ensures Valid() && data == map[]
    {
      data := map[];
    }

    method Store(name: string, series: Series)
      requires |series.samples| <= MAX_SAMPLES + 1
      modifies this
      ensures data == old(data)[name := series.(samples := Newest(series.samples))]
    {
      var samples := series.samples;
      if |samples| > MAX_SAMPLES {
        samples := samples[1..];
      }
      data := data[name := series.(samples := samples)];
    }

    method RecordValue(name: string, value: real, now: int)
      requires Valid()
      modifies this
      ensures Valid()
      ensures data == old(data)[name := Apply(SeriesOf(old(data), name), Record(value, now))]
    {
      var s := SeriesOf(data, name);
      Store(name, s.(samples := s.samples + [Sample(value, now)], latest := value));
    }

    method IncrementBy(name: string, delta: real, now: int)
      requires Valid()
      modifies this
      ensures Valid()
      ensures data == old(data)[name := Apply(SeriesOf(old(data), name), Increment(delta, now))]
    {
      var s := SeriesOf(data, name);
      s := s.(counter := s.counter + delta);
      Store(name, s.(samples := s.samples + [Sample(s.counter, now)], latest := s.counter));
    }

    /** The filtering loops of `getAggregated` and of `pruneOldSamples`. */
    method Filter(samples: seq<Sample>, cutoff: int) returns (r: seq<Sample>)
      ensures r == Since(samples, cutoff)
    {
      r := [];
      var i := 0;
      while i < |samples|
        invariant i <= |samples| && r == Since(samples[..i], cutoff)
      {
        SinceSnoc(samples[..i], samples[i], cutoff);
        assert samples[..i + 1] == samples[..i] + [samples[i]];
        if samples[i].timestamp >= cutoff {
          r := r + [samples[i]];
        }
        i := i + 1;
      }
      assert samples[..i] == samples;
    }

    method PruneOldSamples(now: int)
      requires Valid()
      modifies this
      ensures Valid()
      ensures data.Keys == old(data).Keys
      ensures forall name <- data :: data[name] == Apply(old(data)[name], Prune(now))
    {
      hide Since;
      var todo := data.Keys;
      while todo != {}
        invariant todo <= data.Keys == old(data).Keys
        invariant forall name <- data ::
          data[name] == if name in todo then old(data)[name] else Apply(old(data)[name], Prune(now))
        decreases |todo|
      {
        var name :| name in todo;
        var samples := Filter(data[name].samples, now - HOUR);
        data := data[name := data[name].(samples := samples)];
        todo := todo - {name};
      }
    }

    /** The lambda `percentile`. */
    method Percentile(values: seq<real>, p: nat) returns (x: real)
      requires values != [] && 0 < p <= 100
      ensures 1 <= Rank(p, |values|) <= |values| && x == values[Rank(p, |values|) - 1]
    {
      RankIsCeiling(p, |values|);
      var idx := (p * |values| + 99) / 100 - 1;
      if idx >= |values| {
        idx := |values| - 1;
      }
      x := values[idx];
    }

    /** An empty window, like an unknown metric, gives zeros. */
    method GetAggregated(name: string, windowSec: int, now: int) returns (a: Aggregated)
      ensures var window := Values(Since(SeriesOf(data, name).samples, now - windowSec * 1000000));
        if window == [] then a == NOTHING else Right(window, a)
    {
      a := NOTHING;
      if name !in data || data[name].samples == [] { return; }
      var kept := Filter(data[name].samples, now - windowSec * 1000000);
      if kept == [] { return; }
      a := Aggregate(Values(kept));
    }

    method SumUp(values: seq<real>) returns (sum: real)
      ensures sum == Total(values)
    {
      sum := 0.0;
      var i := 0;
      while i < |values|
        invariant i <= |values| && sum == Total(values[..i])
      {
        TotalSnoc(values[..i], values[i]);
        assert values[..i + 1] == values[..i] + [values[i]];
        sum := sum + values[i];
        i := i + 1;
      }
      assert values[..i] == values;
    }

    method Aggregate(window: seq<real>) returns (a: Aggregated)
      requires window != []
      ensures Right(window, a)
    {
      hide Rank, Sort, AtMost, AtLeast, Total, NearestRank, Sorted;
      var values := Sort(window);
      var n := |values|;
      var sum := SumUp(values);
      var avg := sum / n as real;
      SortedEnds(window);
      SortFacts(window, 0.0);
      MeanBounds(window, values[0], values[n - 1], avg);
      var p50 := Percentile(values, 50);
      ghost var i50 := Rank(50, n) - 1;
      var p95 := Percentile(values, 95);
      ghost var i95 := Rank(95, n) - 1;
      var p99 := Percentile(values, 99);
      ghost var i99 := Rank(99, n) - 1;
      RankIsCeiling(50, n);
      RankIsCeiling(95, n);
      RankIsCeiling(99, n);
      RankOfSorted(window, 50, i50);
      RankOfSorted(window, 95, i95);
      RankOfSorted(window, 99, i99);
      RanksAreOrdered(n, 50, 95);
      RanksAreOrdered(n, 95, 99);
      SortedAt(values, i50, i95);
      SortedAt(values, i95, i99);
      SortedAt(values, 0, i50);
      SortedAt(values, i99, n - 1);
      a := Aggregated(values[0], values[n - 1], avg, p50, p95, p99, n);
    }
  }
}
