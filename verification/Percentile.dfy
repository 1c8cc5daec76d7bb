/** The sampling and the interpolated percentiles of scripts/latency_comparison_phase_1_17.py, in exact
    arithmetic. */
module Percentile {
  // ---------------------------------------------------------------- sorting

  ghost predicate Ordered(s: seq<real>) {
    forall i, j | 0 <= i <= j < |s| :: s[i] <= s[j]
  }

  function Insert(x: real, s: seq<real>): (r: seq<real>)
    ensures multiset(r) == multiset(s) + multiset{x} && |r| == |s| + 1
  {
    if s == [] then [x]
    else if x <= s[0] then
      assert multiset([x] + s) == multiset{x} + multiset(s);
      [x] + s
    else
      assert s == [s[0]] + s[1..];
      [s[0]] + Insert(x, s[1..])
  }

  /** `sorted(values)` */
  function Sorted(values: seq<real>): (s: seq<real>)
    ensures multiset(s) == multiset(values) && |s| == |values|
  {
    if values == [] then []
    else
      assert values == [values[0]] + values[1..];
      Insert(values[0], Sorted(values[1..]))
  }

  lemma PrependOrdered(x: real, s: seq<real>)
    requires Ordered(s) && (s != [] ==> x <= s[0])
    ensures Ordered([x] + s)
  {
  }

  lemma {:induction false} InsertOrdered(x: real, s: seq<real>)
    requires Ordered(s)
    ensures Ordered(Insert(x, s)) && (Insert(x, s)[0] == x || (s != [] && Insert(x, s)[0] == s[0]))
  {
    if s == [] || x <= s[0] {
      PrependOrdered(x, s);
    } else {
      InsertOrdered(x, s[1..]);
      PrependOrdered(s[0], Insert(x, s[1..]));
    }
  }

  lemma {:induction false} SortedOrdered(values: seq<real>)
    ensures Ordered(Sorted(values))
  {
    if values == [] {
    } else {
      SortedOrdered(values[1..]);
      InsertOrdered(values[0], Sorted(values[1..]));
    }
  }

  lemma HeadIsLeast(a: seq<real>, b: seq<real>)
    requires a != [] && Ordered(a) && multiset(a) == multiset(b)
    ensures b != [] && forall i | 0 <= i < |b| :: a[0] <= b[i]
  {
    assert a[0] in multiset(b);
    forall i | 0 <= i < |b| ensures a[0] <= b[i] {
      assert b[i] in multiset(a);
    }
  }

  lemma RestOf(a: seq<real>)
    requires a != []
    ensures multiset(a[1..]) == multiset(a) - multiset{a[0]}
  {
    assert a == [a[0]] + a[1..];
  }

  /** Two ordered sequences of the same elements agree at the head, and their rests are such a pair. */
  lemma HeadsAgree(a: seq<real>, b: seq<real>)
    requires a != [] && Ordered(a) && Ordered(b) && multiset(a) == multiset(b)
    ensures b != [] && a[0] == b[0] && multiset(a[1..]) == multiset(b[1..])
  {
    hide Ordered;
    HeadIsLeast(a, b);
    HeadIsLeast(b, a);
    RestOf(a);
    RestOf(b);
  }

  /** An ordered sequence is determined by its elements. */
  lemma {:induction false} OrderedUnique(a: seq<real>, b: seq<real>)
    requires Ordered(a) && Ordered(b) && multiset(a) == multiset(b)
    ensures a == b
  {
    if a == [] {
      assert |multiset(b)| == |b|;
    } else {
      HeadsAgree(a, b);
      OrderedUnique(a[1..], b[1..]);
      assert a == [a[0]] + a[1..] && b == [b[0]] + b[1..];
    }
  }

  // ---------------------------------------------------------------- percentile

  /** The line from a to b. */
  function Line(a: real, b: real, x: real): real {
    a + (b - a) * x
  }

  lemma LineMonotone(a: real, b: real, x: real, y: real)
    requires a <= b && 0.0 <= x <= y <= 1.0
    ensures a <= Line(a, b, x) <= Line(a, b, y) <= b
  {
    Scale(b - a, 0.0, x);
    Scale(b - a, x, y);
    Scale(b - a, y, 1.0);
  }

  lemma Scale(d: real, x: real, y: real)
    requires 0.0 <= d && x <= y
    ensures d * x <= d * y
  {
  }

  /** The value at position k of the ordered sample, between two points on the line joining them. */
  function Interpolated(s: seq<real>, k: real): real
    requires s != [] && 0.0 <= k <= (|s| - 1) as real
  {
    var f := k.Floor;
    var c := if f + 1 <= |s| - 1 then f + 1 else |s| - 1;
    if f == c then s[k.Floor] else Line(s[f], s[c], k - f as real)
  }

  function Times(m: real, x: real): real {
    m * x
  }

  lemma TimesMonotone(m: real, x: real, y: real)
    requires 0.0 <= m && x <= y
    ensures Times(m, x) <= Times(m, y)
  {
  }

  function Position(n: nat, p: real): (k: real)
    requires n > 0 && 0.0 <= p <= 100.0
    ensures 0.0 <= k <= (n - 1) as real
  {
    TimesMonotone((n - 1) as real, 0.0, p / 100.0);
    TimesMonotone((n - 1) as real, p / 100.0, 1.0);
    Times((n - 1) as real, p / 100.0)
  }

  /** `percentile(values, p)` */
  function Percentile(values: seq<real>, p: real): real
    requires 0.0 <= p <= 100.0
  {
    if values == [] then 0.0 else Interpolated(Sorted(values), Position(|values|, p))
  }

  /** Between the points on either side. */
  lemma InterpolatedBetween(s: seq<real>, k: real)
    requires s != [] && Ordered(s) && 0.0 <= k <= (|s| - 1) as real
    ensures s[k.Floor] <= Interpolated(s, k)
    ensures k.Floor + 1 < |s| ==> Interpolated(s, k) <= s[k.Floor + 1]
  {
    if k.Floor + 1 < |s| {
      LineMonotone(s[k.Floor], s[k.Floor + 1], k - k.Floor as real, k - k.Floor as real);
    }
  }

  lemma InterpolatedMonotone(s: seq<real>, k: real, l: real)
    requires s != [] && Ordered(s) && 0.0 <= k <= l <= (|s| - 1) as real
    ensures Interpolated(s, k) <= Interpolated(s, l)
  {
    hide Line;
    var f, g := k.Floor, l.Floor;
    if f == g {
      if f + 1 < |s| {
        LineMonotone(s[f], s[f + 1], k - f as real, l - f as real);
      }
    } else {
      InterpolatedBetween(s, k);
      InterpolatedBetween(s, l);
      assert f + 1 <= g < |s|;
      assert s[f + 1] <= s[g];
    }
  }

  lemma PositionMonotone(n: nat, p: real, q: real)
    requires n > 0 && 0.0 <= p <= q <= 100.0
    ensures Position(n, p) <= Position(n, q)
  {
    hide Times;
    TimesMonotone((n - 1) as real, p / 100.0, q / 100.0);
  }

  /** A higher p never gives a lower percentile, across the joints of the line too. */
  lemma PercentileMonotone(values: seq<real>, p: real, q: real)
    requires 0.0 <= p <= q <= 100.0
    ensures Percentile(values, p) <= Percentile(values, q)
  {
    if values != [] {
      hide Sorted, Interpolated, Position;
      SortedOrdered(values);
      PositionMonotone(|values|, p, q);
      InterpolatedMonotone(Sorted(values), Position(|values|, p), Position(|values|, q));
    }
  }

  /** i as a fraction of m. */
  lemma Ratio(i: real, m: real)
    requires 0.0 <= i <= m && m > 0.0
    ensures 0.0 <= i / m <= 1.0 && m * (i / m) == i
  {
  }

  function Rank(n: nat, i: nat): (p: real)
    requires i < n && n > 1
    ensures 0.0 <= p <= 100.0
  {
    Ratio(i as real, (n - 1) as real);
    100.0 * (i as real / (n - 1) as real)
  }

  lemma PositionOfRank(n: nat, i: nat)
    requires i < n && n > 1
    ensures Position(n, Rank(n, i)) == i as real
  {
  }

  lemma InterpolatedAtPoint(s: seq<real>, i: nat)
    requires i < |s|
    ensures Interpolated(s, i as real) == s[i]
  {
  }

  /** It is an order statistic: at 100 i / (n - 1) it is the i-th smallest value, so the minimum at 0 and
      the maximum at 100. */
  lemma PercentileHitsRanks(values: seq<real>, i: nat)
    requires i < |values| && |values| > 1
    ensures Percentile(values, Rank(|values|, i)) == Sorted(values)[i]
  {
    hide Sorted, Position, Rank, Interpolated;
    PositionOfRank(|values|, i);
    InterpolatedAtPoint(Sorted(values), i);
  }

  lemma PositionOfShare(n: nat, p: real, k: real)
    requires n > 0 && 0.0 <= p <= 100.0 && (n - 1) as real * p == 100.0 * k
    ensures Position(n, p) == k
  {
  }

  lemma InterpolatedOnLine(s: seq<real>, i: nat, x: real)
    requires i + 1 < |s| && 0.0 <= x <= 1.0
    ensures Interpolated(s, i as real + x) == Line(s[i], s[i + 1], x)
  {
    if x < 1.0 {
      assert (i as real + x).Floor == i;
    } else {
      InterpolatedAtPoint(s, i + 1);
    }
  }

  lemma PercentileAtShare(values: seq<real>, p: real, i: nat, x: real)
    requires 0.0 <= p <= 100.0 && i + 1 < |values| && 0.0 <= x <= 1.0
    requires Position(|values|, p) == i as real + x
    ensures var s := Sorted(values); Percentile(values, p) == Line(s[i], s[i + 1], x)
  {
    hide Sorted, Position, Interpolated, Line;
    InterpolatedOnLine(Sorted(values), i, x);
  }

  lemma LineMixes(a: real, b: real, x: real)
    ensures Line(a, b, x) == a * (1.0 - x) + b * x
  {
  }

  /** Between two ranks the percentile mixes one order statistic with the next: at the share x of the way, x
      of the one and the rest of the other. Every p lies so between two ranks. */
  lemma PercentileOnLine(values: seq<real>, p: real, i: nat, x: real)
    requires 0.0 <= p <= 100.0 && i + 1 < |values| && 0.0 <= x <= 1.0
    requires (|values| - 1) as real * p == 100.0 * (i as real + x)
    ensures var s := Sorted(values); Percentile(values, p) == s[i] * (1.0 - x) + s[i + 1] * x
  {
    hide *;
    PositionOfShare(|values|, p, i as real + x);
    PercentileAtShare(values, p, i, x);
    LineMixes(Sorted(values)[i], Sorted(values)[i + 1], x);
  }

  /** A sample of one has that value for every percentile, an empty one zero. */
  lemma PercentileOfFew(v: real, p: real)
    requires 0.0 <= p <= 100.0
    ensures Percentile([v], p) == v && Percentile([], p) == 0.0
  {
    PercentileWithin([v], p);
  }

  lemma PositionEnds(n: nat)
    requires n > 0
    ensures Position(n, 0.0) == 0.0 && Position(n, 100.0) == (n - 1) as real
  {
  }

  lemma EndsOfSorted(values: seq<real>)
    requires values != []
    ensures var s := Sorted(values);
            Percentile(values, 0.0) == s[0] && Percentile(values, 100.0) == s[|s| - 1]
  {
    hide Sorted, Position, Interpolated;
    var s := Sorted(values);
    PositionEnds(|values|);
    InterpolatedAtPoint(s, 0);
    InterpolatedAtPoint(s, |s| - 1);
  }

  lemma SortedEnds(values: seq<real>)
    requires values != []
    ensures var s := Sorted(values);
            s[0] in values && s[|s| - 1] in values && forall v | v in values :: s[0] <= v <= s[|s| - 1]
  {
    hide Sorted;
    SortedOrdered(values);
    var s := Sorted(values);
    assert s[0] in multiset(values) && s[|s| - 1] in multiset(values);
    forall v | v in values ensures s[0] <= v <= s[|s| - 1] {
      assert v in multiset(s);
      var i :| 0 <= i < |s| && s[i] == v;
    }
  }

  /** Every percentile lies between the sample's minimum, at 0, and its maximum, at 100. */
  lemma PercentileWithin(values: seq<real>, p: real)
    requires values != [] && 0.0 <= p <= 100.0
    ensures Percentile(values, 0.0) <= Percentile(values, p) <= Percentile(values, 100.0)
    ensures Percentile(values, 0.0) in values && Percentile(values, 100.0) in values
    ensures forall v | v in values :: Percentile(values, 0.0) <= v <= Percentile(values, 100.0)
  {
    hide Percentile, Sorted;
    PercentileMonotone(values, 0.0, p);
    PercentileMonotone(values, p, 100.0);
    EndsOfSorted(values);
    SortedEnds(values);
  }

  /** The order in which the sample was taken does not matter. */
  lemma PercentileOfAnyOrder(a: seq<real>, b: seq<real>, p: real)
    requires multiset(a) == multiset(b) && 0.0 <= p <= 100.0
    ensures Percentile(a, p) == Percentile(b, p)
  {
    SortedOrdered(a);
    SortedOrdered(b);
    OrderedUnique(Sorted(a), Sorted(b));
  }

  // ---------------------------------------------------------------- taking the sample

  /** One timed call: did it succeed, how long, which status. */
  datatype Call = Call(ok: bool, latency: real, status: int)

  function Latencies(calls: seq<Call>): seq<real> {
    if calls == [] then []
    else Latencies(calls[..|calls| - 1]) + (if calls[|calls| - 1].ok then [calls[|calls| - 1].latency] else [])
  }

  class Sample {
    var latencies: seq<real>
    var errors: nat
    var statuses: map<int, nat>

    constructor ()
      ensures latencies == [] && errors == 0 && statuses == map[]
    {
      latencies, errors, statuses := [], 0, map[];
    }

    method Record(call: Call)
      modifies this
      ensures latencies == if call.ok then old(latencies) + [call.latency] else old(latencies)
      ensures errors == if call.ok then old(errors) else old(errors) + 1
      ensures statuses == old(statuses)[call.status := (if call.status in old(statuses) then old(statuses)[call.status] else 0) + 1]
    {
      if call.ok {
        latencies := latencies + [call.latency];
      } else {
        errors := errors + 1;
      }
      var before := if call.status in statuses then statuses[call.status] else 0;
      statuses := statuses[call.status := before + 1];
    }
  }

  function StatusCount(calls: seq<Call>, status: int): nat {
    if calls == [] then 0
    else StatusCount(calls[..|calls| - 1], status) + (if calls[|calls| - 1].status == status then 1 else 0)
  }

  datatype Summary = Summary(
    successes: nat, errors: nat, p50: real, p95: real, p99: real, min: real, max: real)

  function MinOf(values: seq<real>): real
    requires values != []
  {
    if |values| == 1 then values[0]
    else var m := MinOf(values[1..]); if values[0] <= m then values[0] else m
  }

  function MaxOf(values: seq<real>): real
    requires values != []
  {
    if |values| == 1 then values[0]
    else var m := MaxOf(values[1..]); if values[0] >= m then values[0] else m
  }

  lemma {:induction false} MinMaxOf(values: seq<real>)
    requires values != []
    ensures MinOf(values) in values && MaxOf(values) in values
    ensures forall v | v in values :: MinOf(values) <= v <= MaxOf(values)
  {
    if |values| == 1 {
    } else {
      MinMaxOf(values[1..]);
      assert forall v :: v in values <==> v == values[0] || v in values[1..];
    }
  }

  function Summarize(latencies: seq<real>, errors: nat): Summary {
    Summary(|latencies|, errors, Percentile(latencies, 50.0), Percentile(latencies, 95.0), Percentile(latencies, 99.0),
            if latencies == [] then 0.0 else MinOf(latencies), if latencies == [] then 0.0 else MaxOf(latencies))
  }

  /** The calls in the order they complete. */
  method RunEndpoint(calls: seq<Call>) returns (summary: Summary, statuses: map<int, nat>)
    ensures summary == Summarize(Latencies(calls), summary.errors)
    ensures summary.successes + summary.errors == |calls| && summary.successes == |Latencies(calls)|
    ensures summary.p50 == Percentile(Latencies(calls), 50.0)
    ensures summary.p95 == Percentile(Latencies(calls), 95.0)
    ensures summary.p99 == Percentile(Latencies(calls), 99.0)
    ensures Latencies(calls) == [] ==> summary.min == summary.max == 0.0
    ensures Latencies(calls) != [] ==>
              && summary.min in Latencies(calls) && summary.max in Latencies(calls)
              && forall v | v in Latencies(calls) :: summary.min <= v <= summary.max
    ensures forall status :: (if status in statuses then statuses[status] else 0) == StatusCount(calls, status)
    ensures summary.min <= summary.p50 <= summary.p95 <= summary.p99 <= summary.max
  {
    var sample := new Sample();
    for i := 0 to |calls|
      invariant fresh(sample)
      invariant sample.latencies == Latencies(calls[..i]) && |sample.latencies| + sample.errors == i
      invariant forall status :: (if status in sample.statuses then sample.statuses[status] else 0) == StatusCount(calls[..i], status)
    {
      assert calls[..i + 1][..i] == calls[..i];
      sample.Record(calls[i]);
    }
    assert calls[..|calls|] == calls;
    SummaryOrdered(sample.latencies, sample.errors);
    if sample.latencies != [] {
      MinMaxOf(sample.latencies);
    }
    summary, statuses := Summarize(sample.latencies, sample.errors), sample.statuses;
  }

  lemma SummaryOrdered(latencies: seq<real>, errors: nat)
    ensures var s := Summarize(latencies, errors); s.min <= s.p50 <= s.p95 <= s.p99 <= s.max
  {
    hide Percentile;
    PercentileMonotone(latencies, 50.0, 95.0);
    PercentileMonotone(latencies, 95.0, 99.0);
    if latencies != [] {
      PercentileWithin(latencies, 50.0);
      PercentileWithin(latencies, 99.0);
      MinMaxOf(latencies);
    } else {
      EmptySample();
    }
  }

  lemma EmptySample()
    ensures Percentile([], 50.0) == Percentile([], 95.0) == Percentile([], 99.0) == 0.0
  {
  }

  // ---------------------------------------------------------------- completion order

  function Bag(c: Call): multiset<real> {
    if c.ok then multiset{c.latency} else multiset{}
  }

  lemma LatenciesAppend(calls: seq<Call>, c: Call)
    ensures multiset(Latencies(calls + [c])) == multiset(Latencies(calls)) + Bag(c)
  {
  }

  lemma {:induction false} LatenciesSplit(a: seq<Call>, c: Call, b: seq<Call>)
    ensures multiset(Latencies(a + [c] + b)) == multiset(Latencies(a + b)) + Bag(c)
  {
    hide Latencies, Bag;
    if b == [] {
      assert a + [c] + b == a + [c] && a + b == a;
      LatenciesAppend(a, c);
    } else {
      var n := |b| - 1;
      LatenciesSplit(a, c, b[..n]);
      assert a + [c] + b == (a + [c] + b[..n]) + [b[n]];
      assert a + b == (a + b[..n]) + [b[n]];
      LatenciesAppend(a + [c] + b[..n], b[n]);
      LatenciesAppend(a + b[..n], b[n]);
    }
  }

  lemma TakeOut(b: seq<Call>, c: Call) returns (i: nat)
    requires c in multiset(b)
    ensures i < |b| && b[i] == c && multiset(b[..i] + b[i + 1..]) == multiset(b) - multiset{c}
  {
    i :| 0 <= i < |b| && b[i] == c;
    assert b == b[..i] + [b[i]] + b[i + 1..];
  }

  lemma {:induction false} LatenciesOfAnyOrder(a: seq<Call>, b: seq<Call>)
    requires multiset(a) == multiset(b)
    ensures multiset(Latencies(a)) == multiset(Latencies(b))
    decreases |a|
  {
    hide Latencies, Bag;
    if a == [] {
      assert |multiset(b)| == |b|;
      assert a == b;
    } else {
      var n := |a| - 1;
      assert a == a[..n] + [a[n]];
      assert multiset(a[..n]) == multiset(a) - multiset{a[n]};
      LatenciesAppend(a[..n], a[n]);
      var i := TakeOut(b, a[n]);
      LatenciesOfAnyOrder(a[..n], b[..i] + b[i + 1..]);
      LatenciesSplit(b[..i], b[i], b[i + 1..]);
      assert b == b[..i] + [b[i]] + b[i + 1..];
    }
  }

  /** Whatever order the concurrent calls complete in, the summary is the same. */
  lemma SummaryOfAnyOrder(a: seq<Call>, b: seq<Call>, errors: nat)
    requires multiset(a) == multiset(b)
    ensures Summarize(Latencies(a), errors) == Summarize(Latencies(b), errors)
  {
    var la, lb := Latencies(a), Latencies(b);
    LatenciesOfAnyOrder(a, b);
    assert |multiset(la)| == |la| && |multiset(lb)| == |lb|;
    PercentileOfAnyOrder(la, lb, 50.0);
    PercentileOfAnyOrder(la, lb, 95.0);
    PercentileOfAnyOrder(la, lb, 99.0);
    if la != [] {
      ExtremesOfAnyOrder(la, lb);
    }
  }

  lemma ExtremesOfAnyOrder(a: seq<real>, b: seq<real>)
    requires a != [] && b != [] && multiset(a) == multiset(b)
    ensures MinOf(a) == MinOf(b) && MaxOf(a) == MaxOf(b)
  {
    MinMaxOf(a);
    MinMaxOf(b);
    assert forall x :: x in a <==> x in multiset(a);
    assert forall x :: x in b <==> x in multiset(b);
  }
}
