/** The dashboard's time series: minute aggregates regrouped to the chart interval and patched at the end
    bound, against the series of the facts. */
module DashboardSeries {
  import opened Counting
  import opened Dashboard
  import opened Rounding

  datatype Interval = S1 | S5 | S10 | S15 | S30 | M1 | M5 | M10 | M15 | M30 | H1 | D1

  /** `chart_interval_seconds`, in milliseconds. */
  function Width(i: Interval): (w: int)
    ensures w > 0
  {
    match i
    case S1 => 1000
    case S5 => 5000
    case S10 => 10000
    case S15 => 15000
    case S30 => 30000
    case M1 => 60000
    case M5 => 300000
    case M10 => 600000
    case M15 => 900000
    case M30 => 1800000
    case H1 => 3600000
    case D1 => 86400000
  }

  /** The width by which facts are grouped, and the end bound rounded: five intervals have one of their
      own, all others are grouped by minutes. */
  function FactWidth(i: Interval): (w: int)
    ensures w > 0
  {
    match i
    case S1 => 1000
    case M5 => 300000
    case H1 => 3600000
    case D1 => 86400000
    case _ => 60000
  }

  /** `_bucket_start_for_interval`, field by field: days, hours, minutes and seconds of a UTC time. */
  function CalendarBucket(i: Interval, t: int): int {
    var day, hour, minute, second := t / 86400000, t / 3600000 % 24, t / 60000 % 60, t / 1000 % 60;
    var (h, m, s) :=
      match i
      case S1 => (hour, minute, second)
      case M5 => (hour, minute / 5 * 5, 0)
      case H1 => (hour, 0, 0)
      case D1 => (0, 0, 0)
      case _ => (hour, minute, 0);
    day * 86400000 + h * 3600000 + m * 60000 + s * 1000
  }

  /** Replacing calendar fields is rounding down to a multiple of the width. */
  lemma CalendarIsFloor(i: Interval, t: int)
    ensures CalendarBucket(i, t) == Floor(FactWidth(i), t)
  {
    NestedDiv(t, 3600000, 24);
    NestedDiv(t, 60000, 60);
    var day, hour, minute := t / 86400000, t / 3600000, t / 60000;
    assert hour == 24 * day + hour % 24;
    assert minute == 60 * hour + minute % 60;
    if i == S1 {
      NestedDiv(t, 1000, 60);
    } else if i == M5 {
      NestedDiv(t, 60000, 5);
      FiveMinutes(minute, hour);
    }
  }

  lemma FiveMinutes(minute: int, hour: int)
    requires minute / 60 == hour
    ensures minute / 5 == 12 * hour + minute % 60 / 5
  {
  }

  datatype Point = Point(time: int, count: nat)

  /** `GROUP BY ... ORDER BY`: the positive weights, in order of time. */
  ghost predicate IsSeries(points: seq<Point>, w: int -> nat) {
    && (forall i, j :: 0 <= i < j < |points| ==> points[i].time < points[j].time)
    && (forall i :: 0 <= i < |points| ==> points[i].count == w(points[i].time) > 0)
    && (forall t :: w(t) > 0 ==> exists i :: 0 <= i < |points| && points[i].time == t)
  }

  // ---- A series is determined by its weights ------------------------------------------------

  predicate Increasing(a: seq<int>) { forall i, j :: 0 <= i < j < |a| ==> a[i] < a[j] }

  lemma {:induction false} IncreasingUnique(a: seq<int>, b: seq<int>)
    requires Increasing(a) && Increasing(b) && forall t :: t in a <==> t in b
    ensures a == b
  {
    assert b != [] ==> b[0] in b;
    if a != [] {
      assert a[0] in a;
      assert a[0] in b && b[0] in a;
      assert a[0] == b[0];
      forall t ensures t in a[1..] <==> t in b[1..] {
        assert t in a[1..] ==> t in b && t != b[0];
        assert t in b[1..] ==> t in a && t != a[0];
      }
      IncreasingUnique(a[1..], b[1..]);
      assert a == [a[0]] + a[1..] && b == [b[0]] + b[1..];
    }
  }

  function Times(points: seq<Point>): seq<int> { seq(|points|, i requires 0 <= i < |points| => points[i].time) }

  lemma TimesExact(p: seq<Point>, w: int -> nat, t: int)
    requires IsSeries(p, w)
    ensures t in Times(p) <==> w(t) > 0
  {
    if w(t) > 0 {
      var i :| 0 <= i < |p| && p[i].time == t;
      assert Times(p)[i] == t;
    }
  }

  lemma SeriesUnique(p: seq<Point>, q: seq<Point>, w: int -> nat)
    requires IsSeries(p, w) && IsSeries(q, w)
    ensures p == q
  {
    forall t ensures t in Times(p) <==> t in Times(q) {
      TimesExact(p, w, t);
      TimesExact(q, w, t);
    }
    IncreasingUnique(Times(p), Times(q));
    SameTimes(p, q, w);
  }

  lemma SameTimes(p: seq<Point>, q: seq<Point>, w: int -> nat)
    requires Times(p) == Times(q)
    requires forall i :: 0 <= i < |p| ==> p[i].count == w(p[i].time)
    requires forall i :: 0 <= i < |q| ==> q[i].count == w(q[i].time)
    ensures p == q
  {
    assert |p| == |Times(p)| == |Times(q)| == |q|;
    forall i | 0 <= i < |p| ensures p[i] == q[i] {
      assert Times(p)[i] == Times(q)[i];
    }
  }

  // ---- Patching the end ---------------------------------------------------------------------

  function Raise(points: seq<Point>, bucket: int, extra: nat): seq<Point> {
    seq(|points|, i requires 0 <= i < |points| =>
      if points[i].time == bucket then Point(bucket, points[i].count + extra) else points[i])
  }

  function Patched(points: seq<Point>, bucket: int, extra: nat): seq<Point> {
    if exists i :: 0 <= i < |points| && points[i].time == bucket then Raise(points, bucket, extra)
    else points + [Point(bucket, extra)]
  }

  /** The merge loop of `dashboard_aggregates`. */
  method MergeEnd(points: seq<Point>, bucket: int, extra: nat) returns (merged: seq<Point>)
    ensures merged == Patched(points, bucket, extra)
  {
    merged := [];
    var matched := false;
    for i := 0 to |points|
      invariant merged == Raise(points, bucket, extra)[..i]
      invariant matched <==> exists k :: 0 <= k < i && points[k].time == bucket
    {
      if points[i].time == bucket {
        merged := merged + [Point(points[i].time, points[i].count + extra)];
        matched := true;
      } else {
        merged := merged + [points[i]];
      }
    }
    if !matched {
      assert merged == points;
      merged := merged + [Point(bucket, extra)];
    }
  }

  lemma SeriesSameWeights(points: seq<Point>, w: int -> nat, v: int -> nat)
    requires IsSeries(points, w) && forall t :: w(t) == v(t)
    ensures IsSeries(points, v)
  {
  }

  function Added(w: int -> nat, bucket: int, extra: nat): int -> nat {
    (t: int) => w(t) + if t == bucket then extra else 0
  }

  lemma RaisedSeries(points: seq<Point>, w: int -> nat, k: nat, extra: nat)
    requires IsSeries(points, w) && k < |points|
    ensures IsSeries(Raise(points, points[k].time, extra), Added(w, points[k].time, extra))
  {
    var bucket := points[k].time;
    var merged := Raise(points, bucket, extra);
    var v := Added(w, bucket, extra);
    assert forall i :: 0 <= i < |points| ==> merged[i].time == points[i].time;
    forall t | v(t) > 0 ensures exists i :: 0 <= i < |merged| && merged[i].time == t {
      var i :| 0 <= i < |points| && points[i].time == t;
      assert merged[i].time == t;
    }
  }

  lemma AppendedSeries(points: seq<Point>, w: int -> nat, bucket: int, extra: nat)
    requires IsSeries(points, w) && extra > 0
    requires forall i :: 0 <= i < |points| ==> points[i].time < bucket
    ensures IsSeries(points + [Point(bucket, extra)], Added(w, bucket, extra))
  {
    var merged := points + [Point(bucket, extra)];
    var v := Added(w, bucket, extra);
    assert w(bucket) == 0;
    forall t | v(t) > 0 ensures exists i :: 0 <= i < |merged| && merged[i].time == t {
      if t == bucket {
        assert merged[|points|].time == t;
      } else {
        var i :| 0 <= i < |points| && points[i].time == t;
        assert merged[i].time == t;
      }
    }
  }

  /** Patching the last bucket, or one beyond it, adds `extra` to that bucket and nothing else. */
  lemma PatchedSeries(points: seq<Point>, w: int -> nat, bucket: int, extra: nat)
    requires IsSeries(points, w) && extra > 0
    requires forall i :: 0 <= i < |points| ==> points[i].time <= bucket
    ensures IsSeries(Patched(points, bucket, extra), Added(w, bucket, extra))
  {
    if k :| 0 <= k < |points| && points[k].time == bucket {
      RaisedSeries(points, w, k, extra);
    } else {
      AppendedSeries(points, w, bucket, extra);
    }
  }

  // ---- Sums over a series -------------------------------------------------------------------

  function SumPoints(points: seq<Point>): nat {
    if points == [] then 0 else points[0].count + SumPoints(points[1..])
  }

  lemma {:induction false} SumRaised(points: seq<Point>, bucket: int, extra: nat)
    requires Increasing(Times(points))
    ensures SumPoints(Raise(points, bucket, extra)) == SumPoints(points) + if bucket in Times(points) then extra else 0
  {
    if points != [] {
      var rest := points[1..];
      assert Times(points) == [points[0].time] + Times(rest);
      assert Times(rest) == Times(points)[1..];
      SumRaised(rest, bucket, extra);
      assert Raise(points, bucket, extra)[1..] == Raise(rest, bucket, extra);
      if points[0].time == bucket {
        forall k | 0 <= k < |Times(rest)| ensures Times(rest)[k] != bucket {
          assert Times(points)[0] < Times(points)[k + 1];
        }
      }
    }
  }

  lemma {:induction false} SumAppended(points: seq<Point>, p: Point)
    ensures SumPoints(points + [p]) == SumPoints(points) + p.count
  {
    if points != [] {
      SumAppended(points[1..], p);
      assert (points + [p])[1..] == points[1..] + [p];
    }
  }

  lemma SumPatched(points: seq<Point>, bucket: int, extra: nat)
    requires forall i, j :: 0 <= i < j < |points| ==> points[i].time < points[j].time
    ensures SumPoints(Patched(points, bucket, extra)) == SumPoints(points) + extra
  {
    if k :| 0 <= k < |points| && points[k].time == bucket {
      assert Times(points)[k] == bucket;
      SumRaised(points, bucket, extra);
    } else {
      SumAppended(points, Point(bucket, extra));
    }
  }

  /** How many of the facts that satisfy `p` fall in each bucket. */
  function Weights(facts: seq<Fact>, p: Fact -> bool, bucket: Fact -> int): int -> nat {
    (t: int) => Number(facts, (f: Fact) => p(f) && bucket(f) == t)
  }

  function SumWhere(points: seq<Point>, c: int -> bool): nat {
    if points == [] then 0 else (if c(points[0].time) then points[0].count else 0) + SumWhere(points[1..], c)
  }

  lemma {:induction false} SumEverywhere(points: seq<Point>)
    ensures SumWhere(points, (t: int) => true) == SumPoints(points)
  {
    if points != [] {
      SumEverywhere(points[1..]);
    }
  }

  lemma {:induction false} SumCounts(points: seq<Point>, facts: seq<Fact>, p: Fact -> bool, bucket: Fact -> int, c: int -> bool)
    requires Increasing(Times(points))
    requires forall k :: 0 <= k < |points| ==> points[k].count == Weights(facts, p, bucket)(points[k].time)
    ensures SumWhere(points, c) == Number(facts, (f: Fact) => p(f) && bucket(f) in Times(points) && c(bucket(f)))
  {
    if points == [] {
      NumberNone(facts, (f: Fact) => p(f) && bucket(f) in Times(points) && c(bucket(f)));
    } else {
      var rest, first := points[1..], points[0].time;
      assert Times(rest) == Times(points)[1..];
      assert Times(points) == [first] + Times(rest);
      assert forall k :: 0 <= k < |rest| ==> rest[k] == points[k + 1];
      SumCounts(rest, facts, p, bucket, c);
      FirstApart(points);
      FirstCount(points, facts, p, bucket, c);
      NumberSplit(facts, (f: Fact) => p(f) && bucket(f) == first && c(first),
                  (f: Fact) => p(f) && bucket(f) in Times(rest) && c(bucket(f)),
                  (f: Fact) => p(f) && bucket(f) in Times(points) && c(bucket(f)));
    }
  }

  lemma FirstApart(points: seq<Point>)
    requires Increasing(Times(points)) && points != []
    ensures points[0].time !in Times(points[1..])
  {
    var rest := Times(points[1..]);
    forall k | 0 <= k < |rest| ensures rest[k] != points[0].time {
      assert Times(points)[0] < Times(points)[k + 1];
    }
  }

  lemma FirstCount(points: seq<Point>, facts: seq<Fact>, p: Fact -> bool, bucket: Fact -> int, c: int -> bool)
    requires points != [] && points[0].count == Weights(facts, p, bucket)(points[0].time)
    ensures (if c(points[0].time) then points[0].count else 0)
         == Number(facts, (f: Fact) => p(f) && bucket(f) == points[0].time && c(points[0].time))
  {
    var first := points[0].time;
    if c(first) {
      NumberSame(facts, (f: Fact) => p(f) && bucket(f) == first, (f: Fact) => p(f) && bucket(f) == first && c(first));
    } else {
      NumberNone(facts, (f: Fact) => p(f) && bucket(f) == first && c(first));
    }
  }

  lemma BucketListed(points: seq<Point>, facts: seq<Fact>, p: Fact -> bool, bucket: Fact -> int, f: Fact)
    requires IsSeries(points, Weights(facts, p, bucket)) && f in facts && p(f)
    ensures bucket(f) in Times(points)
  {
    var t := bucket(f);
    NumberNone(facts, (g: Fact) => p(g) && bucket(g) == t);
    TimesExact(points, Weights(facts, p, bucket), t);
  }

  /** The points of a series that meet a condition on time count the facts that do. */
  lemma SeriesSum(points: seq<Point>, facts: seq<Fact>, p: Fact -> bool, bucket: Fact -> int, c: int -> bool)
    requires IsSeries(points, Weights(facts, p, bucket))
    ensures SumWhere(points, c) == Number(facts, (f: Fact) => p(f) && c(bucket(f)))
  {
    SumCounts(points, facts, p, bucket, c);
    forall f | f in facts && p(f) ensures bucket(f) in Times(points) {
      BucketListed(points, facts, p, bucket, f);
    }
    NumberSame(facts, (f: Fact) => p(f) && bucket(f) in Times(points) && c(bucket(f)), (f: Fact) => p(f) && c(bucket(f)));
  }

  lemma SeriesTotal(points: seq<Point>, facts: seq<Fact>, p: Fact -> bool, bucket: Fact -> int)
    requires IsSeries(points, Weights(facts, p, bucket))
    ensures SumPoints(points) == Number(facts, p)
  {
    var all := (t: int) => true;
    SeriesSum(points, facts, p, bucket, all);
    SumEverywhere(points);
    NumberSame(facts, (f: Fact) => p(f) && all(bucket(f)), p);
  }

  /** Two series over the same facts, the first of fewer facts and rounded further down: they are equal
      exactly if it leaves none out and rounds none differently. */
  lemma SeriesEqualIff(x: seq<Point>, y: seq<Point>, facts: seq<Fact>, p: Fact -> bool, low: Fact -> int, q: Fact -> bool, high: Fact -> int)
    requires IsSeries(x, Weights(facts, p, low)) && IsSeries(y, Weights(facts, q, high))
    requires forall f :: f in facts && p(f) ==> q(f) && low(f) <= high(f)
    ensures x == y <==> forall f :: f in facts && q(f) ==> p(f) && low(f) == high(f)
  {
    if x == y {
      SeriesTotal(x, facts, p, low);
      SeriesTotal(y, facts, q, high);
      NumberSubset(facts, p, q);
      forall f | f in facts && q(f) ensures low(f) == high(f) {
        SameBucket(x, facts, p, low, q, high, f);
      }
    } else if forall f :: f in facts && q(f) ==> p(f) && low(f) == high(f) {
      forall t ensures Weights(facts, p, low)(t) == Weights(facts, q, high)(t) {
        NumberSame(facts, (f: Fact) => p(f) && low(f) == t, (f: Fact) => q(f) && high(f) == t);
      }
      SeriesSameWeights(x, Weights(facts, p, low), Weights(facts, q, high));
      SeriesUnique(x, y, Weights(facts, q, high));
    }
  }

  /** Counting up to its bucket tells a fact that was rounded further down. */
  lemma SameBucket(x: seq<Point>, facts: seq<Fact>, p: Fact -> bool, low: Fact -> int, q: Fact -> bool, high: Fact -> int, g: Fact)
    requires IsSeries(x, Weights(facts, p, low)) && IsSeries(x, Weights(facts, q, high))
    requires forall f :: f in facts ==> (p(f) <==> q(f)) && (p(f) ==> low(f) <= high(f))
    requires g in facts && p(g)
    ensures low(g) == high(g)
  {
    var c := (t: int) => t <= low(g);
    SeriesSum(x, facts, p, low, c);
    SeriesSum(x, facts, q, high, c);
    NumberSubset(facts, (f: Fact) => q(f) && c(high(f)), (f: Fact) => p(f) && c(low(f)));
  }

  function Before(points: seq<Point>, t: int): (k: nat)
    ensures k <= |points|
    ensures forall i :: 0 <= i < k ==> points[i].time < t
    ensures k < |points| ==> points[k].time >= t
  {
    if points == [] || points[0].time >= t then 0 else 1 + Before(points[1..], t)
  }

  function Spliced(points: seq<Point>, k: nat, x: Point): (now: seq<Point>)
    requires k <= |points|
    ensures |now| == |points| + 1 && now[k] == x
    ensures forall i :: 0 <= i < k ==> now[i] == points[i]
    ensures forall i :: k < i < |now| ==> now[i] == points[i - 1]
  {
    points[..k] + [x] + points[k..]
  }

  lemma SplicedOrder(points: seq<Point>, t: int)
    requires forall i, j :: 0 <= i < j < |points| ==> points[i].time < points[j].time
    requires forall i :: 0 <= i < |points| ==> points[i].time != t
    ensures var now := Spliced(points, Before(points, t), Point(t, 1));
            forall i, j :: 0 <= i < j < |now| ==> now[i].time < now[j].time
  {
    var k := Before(points, t);
    assert k < |points| ==> points[k].time > t;
    assert forall j :: k <= j < |points| ==> points[j].time > t;
  }

  lemma SplicedCovers(points: seq<Point>, k: nat, x: Point, u: int)
    requires k <= |points| && (u == x.time || exists i :: 0 <= i < |points| && points[i].time == u)
    ensures exists i :: 0 <= i < |Spliced(points, k, x)| && Spliced(points, k, x)[i].time == u
  {
    var now := Spliced(points, k, x);
    if u == x.time {
      assert now[k].time == u;
    } else {
      var i :| 0 <= i < |points| && points[i].time == u;
      assert now[if i < k then i else i + 1].time == u;
    }
  }

  lemma InsertedSeries(points: seq<Point>, w: int -> nat, t: int)
    requires IsSeries(points, w) && w(t) == 0
    ensures IsSeries(Spliced(points, Before(points, t), Point(t, 1)), Added(w, t, 1))
  {
    var k := Before(points, t);
    var now := Spliced(points, k, Point(t, 1));
    assert forall i :: 0 <= i < |points| ==> points[i].time != t;
    SplicedOrder(points, t);
    forall i | 0 <= i < |now| ensures now[i].count == Added(w, t, 1)(now[i].time) > 0 {
      assert i < k ==> now[i] == points[i];
      assert i > k ==> now[i] == points[i - 1];
    }
    forall u | Added(w, t, 1)(u) > 0 ensures exists i :: 0 <= i < |now| && now[i].time == u {
      SplicedCovers(points, k, Point(t, 1), u);
    }
  }

  /** One more fact in bucket `t`. */
  lemma OneMore(points: seq<Point>, w: int -> nat, t: int) returns (now: seq<Point>)
    requires IsSeries(points, w)
    ensures IsSeries(now, Added(w, t, 1))
  {
    if w(t) > 0 {
      var k :| 0 <= k < |points| && points[k].time == t;
      RaisedSeries(points, w, k, 1);
      now := Raise(points, t, 1);
    } else {
      InsertedSeries(points, w, t);
      now := Spliced(points, Before(points, t), Point(t, 1));
    }
  }

  lemma WeightsNext(facts: seq<Fact>, p: Fact -> bool, bucket: Fact -> int, t: int)
    requires facts != []
    ensures Weights(facts, p, bucket)(t)
         == Weights(facts[1..], p, bucket)(t) + if p(facts[0]) && t == bucket(facts[0]) then 1 else 0
  {
  }

  /** The query always has an answer. */
  lemma {:induction false} SeriesExists(facts: seq<Fact>, p: Fact -> bool, bucket: Fact -> int) returns (points: seq<Point>)
    ensures IsSeries(points, Weights(facts, p, bucket))
  {
    points := [];
    if facts != [] {
      var before := SeriesExists(facts[1..], p, bucket);
      points := SeriesNext(facts, p, bucket, before);
    }
  }

  lemma SeriesNext(facts: seq<Fact>, p: Fact -> bool, bucket: Fact -> int, before: seq<Point>) returns (points: seq<Point>)
    requires facts != [] && IsSeries(before, Weights(facts[1..], p, bucket))
    ensures IsSeries(points, Weights(facts, p, bucket))
  {
    var w := Weights(facts[1..], p, bucket);
    points := before;
    if p(facts[0]) {
      points := OneMore(before, w, bucket(facts[0]));
      w := Added(w, bucket(facts[0]), 1);
    }
    forall t ensures w(t) == Weights(facts, p, bucket)(t) {
      WeightsNext(facts, p, bucket, t);
    }
    SeriesSameWeights(points, w, Weights(facts, p, bucket));
  }

  // ---- The two ways to a series -------------------------------------------------------------

  /** The window of the table's series: each bound applies where it is given. */
  predicate InSeries(start: Bound, end: Bound, bucket: int) {
    (start.At? ==> start.time <= bucket) && (end.At? ==> bucket < end.time)
  }

  /** What the aggregate table yields for each chart bucket. */
  function TableWeights(rows: seq<Entry<Key>>, start: Bound, end: Bound, i: Interval): int -> nat {
    (t: int) => Sum(rows, (k: Key) => k.dimension == "url" && InSeries(start, end, k.bucket) && Floor(Width(i), k.bucket) == t)
  }

  function InTable(start: Bound, end: Bound): Fact -> bool { (f: Fact) => InSeries(start, end, Minute(f.ts)) }

  function TableBucket(i: Interval): Fact -> int { (f: Fact) => Floor(Width(i), Minute(f.ts)) }

  function InFacts(start: Bound, end: Bound): Fact -> bool { (f: Fact) => Asked(start, end, f.ts) }

  /** The bucket `_facts_time_series` puts a fact in. */
  function FactBucket(i: Interval): Fact -> int { (f: Fact) => Floor(FactWidth(i), f.ts) }

  lemma TableIsBase(batches: seq<seq<Fact>>, dims: seq<string>, start: Bound, end: Bound, i: Interval, t: int)
    requires Once(dims, "url")
    ensures TableWeights(Published(batches, dims), start, end, i)(t)
         == Weights(Facts(batches), InTable(start, end), TableBucket(i))(t)
  {
    var q := (v: string, b: int) => InSeries(start, end, b) && Floor(Width(i), b) == t;
    TableSum(batches, dims, "url", q);
    SumSame(Published(batches, dims),
            (k: Key) => k.dimension == "url" && InSeries(start, end, k.bucket) && Floor(Width(i), k.bucket) == t,
            (k: Key) => k.dimension == "url" && q(k.value, k.bucket));
    NumberSame(Facts(batches), (f: Fact) => q(Value(f, "url"), Minute(f.ts)),
               (f: Fact) => InTable(start, end)(f) && TableBucket(i)(f) == t);
  }

  /** Two answers to one question: the series read from the table, and the series of the facts. */
  ghost predicate Answers(i: Interval, batches: seq<seq<Fact>>, dims: seq<string>, start: Bound, end: Bound,
                          base: seq<Point>, direct: seq<Point>)
  {
    && IsSeries(base, TableWeights(Published(batches, dims), start, end, i))
    && IsSeries(direct, Weights(Facts(batches), InFacts(start, end), FactBucket(i)))
  }

  /** The series shown: the table's, with the facts read for the end bound added where there are any. */
  function Shown(base: seq<Point>, facts: seq<Fact>, start: Bound, end: Bound, ok: bool, i: Interval): seq<Point> {
    var extra := |EndFacts(facts, start, end, ok)|;
    if extra == 0 || end.Open? then base else Patched(base, CalendarBucket(i, end.time), extra)
  }

  lemma BaseSeries(i: Interval, batches: seq<seq<Fact>>, dims: seq<string>, start: Bound, end: Bound, base: seq<Point>)
    requires Once(dims, "url") && IsSeries(base, TableWeights(Published(batches, dims), start, end, i))
    ensures IsSeries(base, Weights(Facts(batches), InTable(start, end), TableBucket(i)))
  {
    forall t ensures TableWeights(Published(batches, dims), start, end, i)(t)
                  == Weights(Facts(batches), InTable(start, end), TableBucket(i))(t)
    {
      TableIsBase(batches, dims, start, end, i, t);
    }
    SeriesSameWeights(base, TableWeights(Published(batches, dims), start, end, i),
                      Weights(Facts(batches), InTable(start, end), TableBucket(i)));
  }

  /** Chart intervals for which the two paths agree on what a bucket is. */
  predicate SameBuckets(i: Interval) { i != S1 && i != M10 && i != M15 && i != M30 }

  lemma CoarserFloor(c: int, t: int)
    requires c > 0
    ensures Floor(60000 * c, Minute(t)) == Floor(60000 * c, t)
  {
    NestedDiv(t, 60000, c);
    NestedDiv(Minute(t), 60000, c);
    QuotientIs(60000, Minute(t), t / 60000);
  }

  lemma FinerFloor(n: int, c: int, t: int)
    requires n > 0 && n * c == 60000
    ensures Floor(n, Minute(t)) == Minute(t)
  {
    var q := t / 60000 * c;
    Regroup(t / 60000, c, n);
    QuotientIs(n, Minute(t), q);
  }

  lemma BucketsAgree(i: Interval, t: int)
    requires SameBuckets(i)
    ensures Floor(Width(i), Minute(t)) == Floor(FactWidth(i), t)
  {
    match i
    case S5 => FinerFloor(5000, 12, t);
    case S10 => FinerFloor(10000, 6, t);
    case S15 => FinerFloor(15000, 4, t);
    case S30 => FinerFloor(30000, 2, t);
    case M1 => CoarserFloor(1, t);
    case M5 => CoarserFloor(5, t);
    case H1 => CoarserFloor(60, t);
    case D1 => CoarserFloor(1440, t);
  }

  /** The table's buckets never lie above the fact path's. */
  lemma BucketsBelow(i: Interval, t: int)
    requires i != S1
    ensures Floor(Width(i), Minute(t)) <= Floor(FactWidth(i), t)
    ensures Floor(Width(i), Minute(t)) == Floor(FactWidth(i), t) <==> SameBuckets(i) || Floor(Width(i), Minute(t)) == Minute(t)
  {
    if SameBuckets(i) {
      BucketsAgree(i, t);
    } else {
      DivBounds(Width(i), Minute(t));
    }
  }

  lemma BaseBeforeEnd(i: Interval, t: int, end: int)
    requires i != S1 && Minute(t) < end
    ensures Floor(Width(i), Minute(t)) <= CalendarBucket(i, end)
  {
    CalendarIsFloor(i, end);
    BucketsBelow(i, Minute(t));
    FloorMonotone(FactWidth(i), Minute(t), end);
    QuotientIs(60000, Minute(t), t / 60000);
  }

  /** Every chart bucket of the table lies at or before the end bucket. */
  lemma BaseTimes(base: seq<Point>, facts: seq<Fact>, start: Bound, end: Bound, i: Interval, k: nat)
    requires i != S1 && end.At? && k < |base|
    requires IsSeries(base, Weights(facts, InTable(start, end), TableBucket(i)))
    ensures base[k].time <= CalendarBucket(i, end.time)
  {
    var t := base[k].time;
    NumberNone(facts, (f: Fact) => InTable(start, end)(f) && TableBucket(i)(f) == t);
    var f :| f in facts && InTable(start, end)(f) && TableBucket(i)(f) == t;
    BaseBeforeEnd(i, f.ts, end.time);
  }

  function EndBucket(i: Interval, end: Bound): int { if end.At? then CalendarBucket(i, end.time) else 0 }

  /** Whatever the interval, the bounds and the outcome of the end query, the shown series stays sorted and
      gains exactly the facts read for the end. */
  lemma ShownSeries(i: Interval, batches: seq<seq<Fact>>, dims: seq<string>, start: Bound, end: Bound, ok: bool, base: seq<Point>)
    requires i != S1 && Once(dims, "url") && IsSeries(base, TableWeights(Published(batches, dims), start, end, i))
    ensures var facts := Facts(batches);
            IsSeries(Shown(base, facts, start, end, ok, i),
                     Added(Weights(facts, InTable(start, end), TableBucket(i)), EndBucket(i, end), |EndFacts(facts, start, end, ok)|))
  {
    var facts := Facts(batches);
    var w := Weights(facts, InTable(start, end), TableBucket(i));
    var extra := |EndFacts(facts, start, end, ok)|;
    BaseSeries(i, batches, dims, start, end, base);
    if extra > 0 {
      forall k | 0 <= k < |base| ensures base[k].time <= EndBucket(i, end) {
        BaseTimes(base, facts, start, end, i, k);
      }
      PatchedSeries(base, w, EndBucket(i, end), extra);
    } else {
      SeriesSameWeights(base, w, Added(w, EndBucket(i, end), 0));
    }
  }

  /** Whatever the interval, the shown series sums to the table's facts and those read for the end. */
  lemma ShownSum(i: Interval, batches: seq<seq<Fact>>, dims: seq<string>, start: Bound, end: Bound, ok: bool, base: seq<Point>)
    requires Once(dims, "url") && IsSeries(base, TableWeights(Published(batches, dims), start, end, i))
    ensures SumPoints(Shown(base, Facts(batches), start, end, ok, i))
         == Number(Facts(batches), InTable(start, end)) + |EndFacts(Facts(batches), start, end, ok)|
  {
    var facts := Facts(batches);
    BaseSeries(i, batches, dims, start, end, base);
    SeriesTotal(base, facts, InTable(start, end), TableBucket(i));
    var extra := |EndFacts(facts, start, end, ok)|;
    if extra > 0 {
      SumPatched(base, CalendarBucket(i, end.time), extra);
    }
  }

  /** The shown series sums to the shown total exactly if no fact lies outside a lone bound: the total
      ignores a bound that is given alone, the series applies it. */
  lemma ShownSumsToTotalIff(i: Interval, batches: seq<seq<Fact>>, dims: seq<string>, start: Bound, end: Bound, ok: bool, base: seq<Point>)
    requires Once(dims, "url") && IsSeries(base, TableWeights(Published(batches, dims), start, end, i))
    ensures SumPoints(Shown(base, Facts(batches), start, end, ok, i)) == ProjectionTotal(Published(batches, dims), Facts(batches), start, end, ok)
       <==> (start.At? && end.At?) || forall f :: f in Facts(batches) ==> InSeries(start, end, Minute(f.ts))
  {
    var facts := Facts(batches);
    ShownSum(i, batches, dims, start, end, ok, base);
    BaseCount(batches, dims, start, end);
    var total := (f: Fact) => InTotal(start, end, Minute(f.ts));
    NumberSubset(facts, InTable(start, end), total);
    if forall f :: f in facts ==> total(f) ==> InTable(start, end)(f) {
      NumberSame(facts, InTable(start, end), total);
    }
  }

  // ---- Agreement ----------------------------------------------------------------------------

  function InShown(start: Bound, end: Bound, ok: bool): Fact -> bool {
    (f: Fact) => InSeries(start, end, Minute(f.ts)) || AtEnd(start, end, ok, f.ts)
  }

  function ShownBucket(i: Interval, start: Bound, end: Bound, ok: bool): Fact -> int {
    (f: Fact) => if AtEnd(start, end, ok, f.ts) then EndBucket(i, end) else Floor(Width(i), Minute(f.ts))
  }

  /** Bounds of the fast path; a lone end bound may still split a minute. */
  predicate WholeEnd(start: Bound, end: Bound) { Fast(start, end) && (end.At? ==> WholeMinute(end.time)) }

  /** With a whole-minute end no fact is in the table's window and at the end. */
  lemma ShownWeights(facts: seq<Fact>, i: Interval, start: Bound, end: Bound, ok: bool, t: int)
    requires WholeEnd(start, end)
    ensures Added(Weights(facts, InTable(start, end), TableBucket(i)), EndBucket(i, end), |EndFacts(facts, start, end, ok)|)(t)
         == Weights(facts, InShown(start, end, ok), ShownBucket(i, start, end, ok))(t)
  {
    var table := (f: Fact) => InTable(start, end)(f) && TableBucket(i)(f) == t;
    var last := (f: Fact) => AtEnd(start, end, ok, f.ts) && EndBucket(i, end) == t;
    EndFactsLength(facts, start, end, ok);
    if EndBucket(i, end) == t {
      NumberSame(facts, last, (f: Fact) => AtEnd(start, end, ok, f.ts));
    } else {
      NumberNone(facts, last);
    }
    var shown := (f: Fact) => InShown(start, end, ok)(f) && ShownBucket(i, start, end, ok)(f) == t;
    forall f: Fact ensures (shown(f) <==> table(f) || last(f)) && !(table(f) && last(f)) {
      assert InTable(start, end)(f) == InSeries(start, end, Minute(f.ts));
      assert InShown(start, end, ok)(f) == (InSeries(start, end, Minute(f.ts)) || AtEnd(start, end, ok, f.ts));
      assert AtEnd(start, end, ok, f.ts) ==> !InSeries(start, end, Minute(f.ts));
    }
    NumberSplit(facts, table, last, shown);
  }

  /** Every fact asked for is shown, said of the bounds: with both, only the end can be missed; a lone
      bound hides what lies outside it. */
  predicate NothingHidden(facts: seq<Fact>, start: Bound, end: Bound, ok: bool) {
    if start.At? && end.At? then
      ok || end.time < start.time || forall f :: f in facts ==> f.ts != end.time
    else
      && (start.At? ==> forall f :: f in facts ==> start.time <= Minute(f.ts))
      && (end.At? ==> forall f :: f in facts ==> f.ts < end.time || (ok && f.ts == end.time))
  }

  lemma NothingHiddenMeans(facts: seq<Fact>, start: Bound, end: Bound, ok: bool)
    requires WholeEnd(start, end)
    ensures NothingHidden(facts, start, end, ok) <==> forall f :: f in facts && Asked(start, end, f.ts) ==> InShown(start, end, ok)(f)
  {
    forall f | f in facts
      ensures end.At? ==> (Minute(f.ts) < end.time <==> f.ts < end.time)
      ensures start.At? && end.At? ==> (start.time <= Minute(f.ts) < end.time <==> start.time <= f.ts < end.time)
    {
      if end.At? {
        FloorBelow(60000, f.ts, end.time);
        if start.At? {
          FloorBetween(60000, f.ts, start.time, end.time);
        }
      }
    }
    if NothingHidden(facts, start, end, ok) {
      forall f | f in facts && Asked(start, end, f.ts) ensures InShown(start, end, ok)(f) {
      }
    } else if start.At? && end.At? {
      var f :| f in facts && f.ts == end.time;
      assert Asked(start, end, f.ts) && !InShown(start, end, ok)(f);
    } else if start.At? && !(forall f :: f in facts ==> start.time <= Minute(f.ts)) {
      var f :| f in facts && start.time > Minute(f.ts);
      assert Asked(start, end, f.ts) && !InShown(start, end, ok)(f);
    } else {
      var f :| f in facts && !(f.ts < end.time || (ok && f.ts == end.time));
      assert Asked(start, end, f.ts) && !InShown(start, end, ok)(f);
    }
  }

  /** What is shown is asked for, in a bucket no higher. */
  lemma ShownBelow(i: Interval, start: Bound, end: Bound, ok: bool, f: Fact)
    requires i != S1 && WholeEnd(start, end) && InShown(start, end, ok)(f)
    ensures InFacts(start, end)(f) && ShownBucket(i, start, end, ok)(f) <= FactBucket(i)(f)
    ensures ShownBucket(i, start, end, ok)(f) == FactBucket(i)(f)
       <==> SameBuckets(i) || AtEnd(start, end, ok, f.ts) || Floor(Width(i), Minute(f.ts)) == Minute(f.ts)
  {
    if start.At? && end.At? {
      FloorBetween(60000, f.ts, start.time, end.time);
    }
    BucketsBelow(i, f.ts);
    if AtEnd(start, end, ok, f.ts) {
      CalendarIsFloor(i, end.time);
    }
  }

  /** No fact the table counts lies past the first minute of a wide chart bucket. */
  predicate OnBucketStarts(facts: seq<Fact>, i: Interval, start: Bound, end: Bound) {
    forall f :: f in facts && InSeries(start, end, Minute(f.ts)) ==> f.ts / 60000 % Span(i) == 0
  }

  /** The minutes of a wide chart bucket. */
  function Span(i: Interval): int { if i == M10 then 10 else if i == M15 then 15 else if i == M30 then 30 else 1 }

  lemma StartsBucket(i: Interval, t: int)
    requires i != S1 && !SameBuckets(i)
    ensures Floor(Width(i), Minute(t)) == Minute(t) <==> t / 60000 % Span(i) == 0
  {
    var m := t / 60000;
    assert Minute(t) == m * 60000 && Width(i) == 60000 * Span(i);
    NestedDiv(Minute(t), 60000, Span(i));
    QuotientIs(60000, Minute(t), m);
    assert Floor(Width(i), Minute(t)) == m / Span(i) * (60000 * Span(i));
  }

  /** The fast path shows the series of the facts exactly if no fact asked for is hidden by a failed end
      query or a lone bound, and the interval is not 10, 15 or 30 minutes or no fact lies past the first
      minute of its bucket. (One-second charts never take the fast path.) */
  lemma SeriesAgreeIff(i: Interval, batches: seq<seq<Fact>>, dims: seq<string>, start: Bound, end: Bound, ok: bool,
                       base: seq<Point>, direct: seq<Point>)
    requires i != S1 && Once(dims, "url") && WholeEnd(start, end) && Answers(i, batches, dims, start, end, base, direct)
    ensures Shown(base, Facts(batches), start, end, ok, i) == direct
       <==> NothingHidden(Facts(batches), start, end, ok)
            && (SameBuckets(i) || OnBucketStarts(Facts(batches), i, start, end))
  {
    var facts := Facts(batches);
    var p, low := InShown(start, end, ok), ShownBucket(i, start, end, ok);
    ShownSeries(i, batches, dims, start, end, ok, base);
    forall t ensures Added(Weights(facts, InTable(start, end), TableBucket(i)), EndBucket(i, end), |EndFacts(facts, start, end, ok)|)(t)
                  == Weights(facts, p, low)(t)
    {
      ShownWeights(facts, i, start, end, ok, t);
    }
    SeriesSameWeights(Shown(base, facts, start, end, ok, i),
                      Added(Weights(facts, InTable(start, end), TableBucket(i)), EndBucket(i, end), |EndFacts(facts, start, end, ok)|),
                      Weights(facts, p, low));
    forall f | f in facts && p(f) ensures InFacts(start, end)(f) && low(f) <= FactBucket(i)(f) {
      ShownBelow(i, start, end, ok, f);
    }
    SeriesEqualIff(Shown(base, facts, start, end, ok, i), direct, facts, p, low, InFacts(start, end), FactBucket(i));
    AgreementMeans(facts, i, start, end, ok);
  }

  lemma AgreementMeans(facts: seq<Fact>, i: Interval, start: Bound, end: Bound, ok: bool)
    requires i != S1 && WholeEnd(start, end)
    ensures (forall f :: f in facts && InFacts(start, end)(f) ==>
               InShown(start, end, ok)(f) && ShownBucket(i, start, end, ok)(f) == FactBucket(i)(f))
       <==> NothingHidden(facts, start, end, ok) && (SameBuckets(i) || OnBucketStarts(facts, i, start, end))
  {
    NothingHiddenMeans(facts, start, end, ok);
    forall f | f in facts && InShown(start, end, ok)(f)
      ensures InFacts(start, end)(f)
      ensures ShownBucket(i, start, end, ok)(f) == FactBucket(i)(f)
         <==> SameBuckets(i) || AtEnd(start, end, ok, f.ts) || f.ts / 60000 % Span(i) == 0
      ensures AtEnd(start, end, ok, f.ts) ==> !InSeries(start, end, Minute(f.ts))
    {
      ShownStarts(i, start, end, ok, f);
    }
  }

  lemma ShownStarts(i: Interval, start: Bound, end: Bound, ok: bool, f: Fact)
    requires i != S1 && WholeEnd(start, end) && InShown(start, end, ok)(f)
    ensures InFacts(start, end)(f)
    ensures ShownBucket(i, start, end, ok)(f) == FactBucket(i)(f)
       <==> SameBuckets(i) || AtEnd(start, end, ok, f.ts) || f.ts / 60000 % Span(i) == 0
    ensures AtEnd(start, end, ok, f.ts) ==> !InSeries(start, end, Minute(f.ts))
  {
    ShownBelow(i, start, end, ok, f);
    if !SameBuckets(i) {
      StartsBucket(i, f.ts);
    }
  }

  lemma AnswersExist(i: Interval, batches: seq<seq<Fact>>, dims: seq<string>, start: Bound, end: Bound)
      returns (base: seq<Point>, direct: seq<Point>)
    requires Once(dims, "url")
    ensures Answers(i, batches, dims, start, end, base, direct)
  {
    base := SeriesExists(Facts(batches), InTable(start, end), TableBucket(i));
    direct := SeriesExists(Facts(batches), InFacts(start, end), FactBucket(i));
    var w := Weights(Facts(batches), InTable(start, end), TableBucket(i));
    forall t ensures w(t) == TableWeights(Published(batches, dims), start, end, i)(t) {
      TableIsBase(batches, dims, start, end, i, t);
    }
    SeriesSameWeights(base, w, TableWeights(Published(batches, dims), start, end, i));
  }

  /** A lone end bound inside a minute fails on some facts, whatever the interval: read, it counts a fact
      there twice; not read, it hides the next minute. */
  lemma LonePartialEnd(i: Interval, dims: seq<string>, end: int, ok: bool) returns (f: Fact)
    requires Once(dims, "url") && !WholeMinute(end)
    ensures forall base, direct :: Answers(i, [[f]], dims, Open, At(end), base, direct) ==>
              Shown(base, [f], Open, At(end), ok, i) != direct
  {
    DivBounds(60000, end);
    f := Fact(if ok then end else Minute(end) + 60000, map[], map[]);
    assert Facts([[f]]) == [f] by {
      assert [[f]][1..] == [];
    }
    QuotientIs(60000, Minute(end) + 60000, end / 60000 + 1);
    NumberOne(f, InTable(Open, At(end)));
    NumberOne(f, InFacts(Open, At(end)));
    EndFactsLength([f], Open, At(end), ok);
    NumberOne(f, (g: Fact) => AtEnd(Open, At(end), ok, g.ts));
    forall base, direct | Answers(i, [[f]], dims, Open, At(end), base, direct)
      ensures Shown(base, [f], Open, At(end), ok, i) != direct
    {
      ShownSum(i, [[f]], dims, Open, At(end), ok, base);
      SeriesTotal(direct, [f], InFacts(Open, At(end)), FactBucket(i));
    }
  }

  /** Concretely: one request in the second minute of a wide bucket, all bounds whole and the end read. */
  lemma WideBucketsDiffer(i: Interval, dims: seq<string>)
    requires (i == M10 || i == M15 || i == M30) && Once(dims, "url")
    ensures var f := Fact(60000, map[], map[]);
            exists base, direct :: Answers(i, [[f]], dims, At(0), At(120000), base, direct)
              && Shown(base, [f], At(0), At(120000), true, i) != direct
  {
    var f := Fact(60000, map[], map[]);
    var base, direct := AnswersExist(i, [[f]], dims, At(0), At(120000));
    assert [[f]][1..] == [] && Facts([[f]]) == [f];
    assert Minute(60000) == 60000 && Floor(Width(i), 60000) == 0;
    assert f in [f] && !OnBucketStarts([f], i, At(0), At(120000));
    SeriesAgreeIff(i, [[f]], dims, At(0), At(120000), true, base, direct);
  }

  /** And a failed end query with one request at the end: the chart misses it on every interval. */
  lemma FailedEndHidden(i: Interval, dims: seq<string>)
    requires i != S1 && Once(dims, "url")
    ensures var f := Fact(0, map[], map[]);
            exists base, direct :: Answers(i, [[f]], dims, At(0), At(0), base, direct)
              && Shown(base, [f], At(0), At(0), false, i) != direct
  {
    var f := Fact(0, map[], map[]);
    var base, direct := AnswersExist(i, [[f]], dims, At(0), At(0));
    assert [[f]][1..] == [] && Facts([[f]]) == [f];
    assert f in [f] && !NothingHidden([f], At(0), At(0), false);
    SeriesAgreeIff(i, [[f]], dims, At(0), At(0), false, base, direct);
  }
}
