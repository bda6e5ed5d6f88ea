/** The log-histogram quantile sketch of backend/high_scale/_common.py.

    Floats are idealised as reals. The bucket index `ceil(log|v| / log GAMMA)` is given by the
    inequality that defines it, `GAMMA^(i-1) < |v| <= GAMMA^i`; that exactly one such integer exists
    for every positive real is proved, not assumed. */
module Sketch {
  import opened Sorting
  import opened Wrappers

  const GAMMA: real := 1.02
  const RELATIVE_ERROR: real := (GAMMA - 1.0) / (GAMMA + 1.0)

  function Abs(x: real): real { if x < 0.0 then -x else x }

  /** Within the advertised relative error. */
  predicate Near(x: real, v: real) { Abs(x - v) <= RELATIVE_ERROR * Abs(v) }

  predicate Le(x: real, y: real) { x <= y }

  lemma LeTotal()
    ensures TotalOrder(Le)
  {
    forall x, y ensures Compares(Le, x, y) && Separates(Le, x, y) {
    }
    forall x, y, z ensures Chains(Le, x, y, z) {
    }
  }

  // ---- Powers of GAMMA ----------------------------------------------------------------------

  /** GAMMA to an integer power, negative powers included. */
  function Pow(n: int): (p: real)
    ensures p > 0.0
    decreases if n < 0 then -n else n
  {
    if n == 0 then 1.0
    else if n > 0 then 1.02 * Pow(n - 1)
    else Pow(n + 1) / 1.02
  }

  lemma PowStep(n: int)
    ensures Pow(n + 1) == 1.02 * Pow(n)
  {}

  lemma {:induction false} PowMonotone(m: int, n: int)
    requires m <= n
    ensures Pow(m) <= Pow(n)
    decreases n - m
  {
    if m < n {
      PowStep(m);
      PowMonotone(m + 1, n);
    }
  }

  lemma {:induction false} PowGrows(n: nat)
    ensures Pow(n) >= 1.0 + 0.02 * (n as real)
  {
    if n > 0 {
      PowGrows(n - 1);
    }
  }

  lemma {:induction false} PowShrinks(n: int)
    requires n >= 0
    ensures Pow(-n) * (1.0 + 0.02 * (n as real)) <= 1.0
  {
    if n > 0 {
      PowShrinks(n - 1);
      var p, m := Pow(-(n - 1)), (n - 1) as real;
      assert Pow(-n) == p / 1.02;
      assert p * (1.0 + 0.02 * m) <= 1.0;
      assert p * (0.0004 * m) >= 0.0;
      assert Pow(-n) * (1.0 + 0.02 * (n as real)) == (p / 1.02) * (1.02 + 0.02 * m);
    }
  }

  lemma PowUnbounded(v: real) returns (n: nat)
    requires v > 0.0
    ensures v <= Pow(n)
  {
    n := (v * 50.0).Floor + 1;
    PowGrows(n);
  }

  lemma PowVanishes(v: real) returns (n: int)
    requires v > 0.0
    ensures n >= 0 && Pow(-n) < v
  {
    n := (50.0 / v).Floor + 1;
    PowShrinks(n);
    BelowReciprocal(Pow(-n), n as real, v);
  }

  lemma BelowReciprocal(p: real, m: real, v: real)
    requires p > 0.0 && v > 0.0 && m > 50.0 / v
    requires p * (1.0 + 0.02 * m) <= 1.0
    ensures p < v
  {
    assert v * (50.0 / v) == 50.0;
    assert v * m > v * (50.0 / v);
    assert p * (1.0 + 0.02 * m) == p + 0.02 * (p * m);
    assert p >= v ==> p * m >= v * m;
  }

  // ---- The bucket index ---------------------------------------------------------------------

  ghost predicate InBucket(v: real, i: int) { Pow(i - 1) < v <= Pow(i) }

  lemma {:induction false} IndexBetween(v: real, lo: int, hi: int) returns (i: int)
    requires lo <= hi && Pow(lo) < v <= Pow(hi)
    ensures InBucket(v, i)
    decreases hi - lo
  {
    if v <= Pow(lo + 1) {
      i := lo + 1;
    } else {
      i := IndexBetween(v, lo + 1, hi);
    }
  }

  lemma IndexExists(v: real)
    requires v > 0.0
    ensures exists i: int :: InBucket(v, i)
  {
    var lo := PowVanishes(v);
    var hi := PowUnbounded(v);
    if hi < -lo {
      PowMonotone(hi, -lo);
    }
    var i := IndexBetween(v, -lo, hi);
  }

  lemma IndexUnique(v: real, i: int, j: int)
    requires InBucket(v, i) && InBucket(v, j)
    ensures i == j
  {
    if i < j {
      PowMonotone(i, j - 1);
    } else if j < i {
      PowMonotone(j, i - 1);
    }
  }

  /** `math.ceil(math.log(v) / math.log(GAMMA))`. */
  ghost function Index(v: real): (i: int)
    requires v > 0.0
    ensures InBucket(v, i)
  {
    IndexExists(v);
    var i :| InBucket(v, i);
    i
  }

  /** The representative of the bucket `value` falls in. */
  ghost function Centroid(value: real): real {
    if value == 0.0 then 0.0
    else
      var magnitude := 2.0 * Pow(Index(Abs(value))) / 2.02;
      if value < 0.0 then -magnitude else magnitude
  }

  /** Every representative is within the advertised relative error of the value it stands for. */
  lemma CentroidError(v: real)
    ensures Near(Centroid(v), v)
    ensures v > 0.0 <==> Centroid(v) > 0.0
    ensures v < 0.0 <==> Centroid(v) < 0.0
  {
    if v != 0.0 {
      var i := Index(Abs(v));
      PowStep(i - 1);
    }
  }

  lemma CentroidInBucket(v: real, i: int)
    requires v > 0.0 && InBucket(v, i)
    ensures Centroid(v) == 2.0 * Pow(i) / 2.02
  {
    IndexUnique(v, Index(v), i);
  }

  lemma HalfStep(p: real)
    requires p > 0.0
    ensures Abs(2.0 * p / 2.02 - p) == RELATIVE_ERROR * p
  {}

  /** The advertised bound is attained at the top of every bucket: it cannot be lowered. */
  lemma ErrorBoundTight(i: int, top: real)
    requires top == Pow(i)
    ensures Abs(Centroid(top) - top) == RELATIVE_ERROR * Abs(top)
  {
    TopInBucket(i);
    CentroidInBucket(top, i);
    HalfStep(top);
  }

  lemma TopInBucket(i: int)
    ensures 0.0 < Pow(i) && InBucket(Pow(i), i)
  {
    PowStep(i - 1);
  }

  lemma CentroidMonotone(v: real, w: real)
    requires v <= w
    ensures Centroid(v) <= Centroid(w)
  {
    CentroidError(v);
    CentroidError(w);
    if 0.0 < v {
      IndexMonotone(v, w);
    } else if w < 0.0 {
      IndexMonotone(-w, -v);
    }
  }

  lemma IndexMonotone(v: real, w: real)
    requires 0.0 < v <= w
    ensures Index(v) <= Index(w) && Pow(Index(v)) <= Pow(Index(w))
  {
    if Index(w) <= Index(v) - 1 {
      PowMonotone(Index(w), Index(v) - 1);
    }
    PowMonotone(Index(v), Index(w));
  }

  // ---- Sketches -----------------------------------------------------------------------------

  datatype Histogram = Histogram(centroids: seq<real>, counts: seq<nat>)

  ghost predicate Ascending(s: seq<real>) {
    forall i, j :: 0 <= i < j < |s| ==> s[i] < s[j]
  }

  ghost function Centroids(values: seq<real>): seq<real> {
    Image(Centroid, values)
  }

  /** One of each run of equal neighbours. */
  function Dedup(s: seq<real>): seq<real> {
    if |s| <= 1 then s
    else if s[0] == s[1] then Dedup(s[1..])
    else [s[0]] + Dedup(s[1..])
  }

  lemma {:induction false} DedupAscending(s: seq<real>)
    requires Sorted(Le, s)
    ensures Ascending(Dedup(s))
    ensures forall x :: x in Dedup(s) <==> x in s
    ensures s != [] ==> Dedup(s) != [] && Dedup(s)[0] == s[0]
  {
    if |s| > 1 {
      DedupAscending(s[1..]);
      assert s == [s[0]] + s[1..];
      assert Le(s[0], s[1]);
    }
  }

  /** Counts the representatives of `values`, keyed in ascending order. */
  ghost function Sketch(values: seq<real>): Histogram {
    var tally := multiset(Centroids(values));
    var keys := Dedup(Sort(Le, Centroids(values)));
    Histogram(keys, seq(|keys|, i requires 0 <= i < |keys| => tally[keys[i]]))
  }

  ghost function Repeat(c: real, n: nat): (r: seq<real>)
    ensures |r| == n && forall i :: 0 <= i < n ==> r[i] == c
  {
    seq(n, _ => c)
  }

  /** What a reader of weighted values sees: every centroid as often as its weight says. */
  ghost function Expand(h: Histogram): seq<real>
    decreases |h.centroids|
  {
    if h.centroids == [] || h.counts == [] then []
    else Repeat(h.centroids[0], h.counts[0]) + Expand(Histogram(h.centroids[1..], h.counts[1..]))
  }

  ghost function Weight(counts: seq<nat>): nat {
    if counts == [] then 0 else counts[0] + Weight(counts[1..])
  }

  lemma RepeatMultiset(c: real, n: nat, x: real)
    ensures multiset(Repeat(c, n))[x] == if x == c then n else 0
  {
    if n > 0 {
      assert Repeat(c, n) == [c] + Repeat(c, n - 1);
      RepeatMultiset(c, n - 1, x);
    }
  }

  lemma {:induction false} ExpandCounts(h: Histogram, x: real)
    requires |h.centroids| == |h.counts| && Ascending(h.centroids)
    ensures x !in h.centroids ==> multiset(Expand(h))[x] == 0
    ensures forall i :: 0 <= i < |h.centroids| && h.centroids[i] == x ==> multiset(Expand(h))[x] == h.counts[i]
    decreases |h.centroids|
  {
    if h.centroids != [] {
      var c, n := h.centroids[0], h.counts[0];
      var rest := Histogram(h.centroids[1..], h.counts[1..]);
      ExpandCounts(rest, x);
      RepeatMultiset(c, n, x);
      assert h.centroids == [c] + rest.centroids;
      if x == c {
        assert x !in rest.centroids;
      } else {
        forall i | 0 <= i < |h.centroids| && h.centroids[i] == x
          ensures multiset(Expand(h))[x] == h.counts[i]
        {
          assert rest.centroids[i - 1] == x;
        }
      }
    }
  }

  lemma {:induction false} ExpandLength(h: Histogram)
    requires |h.centroids| == |h.counts|
    ensures |Expand(h)| == Weight(h.counts)
    decreases |h.centroids|
  {
    if h.centroids != [] {
      ExpandLength(Histogram(h.centroids[1..], h.counts[1..]));
    }
  }

  /** A sketch holds exactly its values' representatives: nothing is lost or counted twice. */
  lemma SketchExpands(values: seq<real>)
    ensures var h := Sketch(values);
            && |h.centroids| == |h.counts| && Ascending(h.centroids)
            && (forall n <- h.counts :: n > 0)
            && multiset(Expand(h)) == multiset(Centroids(values))
            && Weight(h.counts) == |values|
  {
    var h := Sketch(values);
    var tally := multiset(Centroids(values));
    SketchKeys(values);
    forall x ensures multiset(Expand(h))[x] == tally[x] {
      ExpandCounts(h, x);
    }
    assert multiset(Expand(h)) == tally;
    ExpandLength(h);
    assert |multiset(Expand(h))| == |Expand(h)| && |tally| == |Centroids(values)|;
  }

  lemma SketchKeys(values: seq<real>)
    ensures var h := Sketch(values);
            && |h.centroids| == |h.counts| && Ascending(h.centroids) && (forall n <- h.counts :: n > 0)
            && (forall x :: x in h.centroids <==> x in multiset(Centroids(values)))
            && (forall i :: 0 <= i < |h.counts| ==> h.counts[i] == multiset(Centroids(values))[h.centroids[i]])
  {
    KeysOf(Centroids(values));
    var h, tally := Sketch(values), multiset(Centroids(values));
    forall i | 0 <= i < |h.counts| ensures h.counts[i] == tally[h.centroids[i]] > 0 {
      assert h.centroids[i] in tally;
    }
  }

  lemma KeysOf(c: seq<real>)
    ensures Ascending(Dedup(Sort(Le, c))) && forall x :: x in Dedup(Sort(Le, c)) <==> x in multiset(c)
  {
    LeTotal();
    SortPermutes(Le, c);
    SortSorted(Le, c);
    DedupAscending(Sort(Le, c));
    forall x ensures x in Sort(Le, c) <==> x in multiset(c) {
      assert x in Sort(Le, c) <==> x in multiset(Sort(Le, c));
    }
  }

  /** A sketch depends only on how often each value occurs, not on the order of the values. */
  lemma SketchOrderless(a: seq<real>, b: seq<real>)
    requires multiset(a) == multiset(b)
    ensures Sketch(a) == Sketch(b)
  {
    ImageMultiset(Centroid, a, b);
    LeTotal();
    SortUnique(Le, Centroids(a), Centroids(b));
  }

  // ---- Merging across minutes and batches ---------------------------------------------------

  /** The union a reader forms from the stored sketches of several minutes. */
  ghost function MergedExpansion(parts: seq<seq<real>>): seq<real> {
    if parts == [] then []
    else Expand(Sketch(parts[0])) + MergedExpansion(parts[1..])
  }

  ghost function MergedWeight(parts: seq<seq<real>>): nat {
    if parts == [] then 0 else Weight(Sketch(parts[0]).counts) + MergedWeight(parts[1..])
  }

  lemma {:induction false} MergeIsUnion(parts: seq<seq<real>>)
    ensures multiset(MergedExpansion(parts)) == multiset(Centroids(Flat(parts)))
    ensures MergedWeight(parts) == |Flat(parts)|
  {
    if parts != [] {
      SketchExpands(parts[0]);
      MergeIsUnion(parts[1..]);
      ImageConcat(Centroid, parts[0], Flat(parts[1..]));
    }
  }

  /** Taking representatives commutes with sorting. */
  lemma SortedCentroids(values: seq<real>)
    ensures Sort(Le, Centroids(values)) == Centroids(Sort(Le, values))
  {
    LeTotal();
    var r := Sort(Le, values);
    SortPermutes(Le, values);
    SortSorted(Le, values);
    ImageMultiset(Centroid, r, values);
    forall i, j | 0 <= i < j < |r| ensures Le(Centroids(r)[i], Centroids(r)[j]) {
      assert Le(r[i], r[j]);
      CentroidMonotone(r[i], r[j]);
    }
    SortPermutes(Le, Centroids(values));
    SortSorted(Le, Centroids(values));
    SortedUnique(Le, Sort(Le, Centroids(values)), Centroids(r));
  }

  /** Sorting the merged sketches gives the representatives of the sorted raw values. */
  lemma MergedSorted(parts: seq<seq<real>>)
    ensures Sort(Le, MergedExpansion(parts)) == Centroids(Sort(Le, Flat(parts)))
    ensures |MergedExpansion(parts)| == |Sort(Le, Flat(parts))| == |Flat(parts)| == MergedWeight(parts)
  {
    LeTotal();
    MergeIsUnion(parts);
    SortUnique(Le, MergedExpansion(parts), Centroids(Flat(parts)));
    SortedCentroids(Flat(parts));
    SortPermutes(Le, Flat(parts));
    SortPermutes(Le, MergedExpansion(parts));
  }

  /** The advertised guarantee. For any list of per-minute value lists and any rank, the value the
      merged sketches report at that rank is the representative of the raw value of that rank, and
      so lies within the advertised relative error of it; the merged weights count every value. */
  lemma MergedQuantileError(parts: seq<seq<real>>, k: nat)
    requires k < |Flat(parts)|
    ensures MergedWeight(parts) == |Flat(parts)|
    ensures |Sort(Le, MergedExpansion(parts))| == |Sort(Le, Flat(parts))| == |Flat(parts)|
    ensures var raw := Sort(Le, Flat(parts))[k];
            var estimate := Sort(Le, MergedExpansion(parts))[k];
            estimate == Centroid(raw) && Near(estimate, raw)
  {
    MergedSorted(parts);
    var raws := Sort(Le, Flat(parts));
    var raw := raws[k];
    assert Centroids(raws)[k] == Centroid(raw);
    CentroidError(raw);
  }

  // ---- Per-minute percentiles ---------------------------------------------------------------

  function Ceiling(x: real): int { -((-x).Floor) }

  lemma RankInRange(n: nat, q: real)
    requires 0.0 <= q <= 1.0
    ensures 0.0 <= n as real * q <= n as real
  {}

  lemma FloorInRange(n: nat, pos: real)
    requires 0.0 <= pos <= n as real
    ensures 0 <= pos.Floor <= Ceiling(pos) <= n
    ensures pos.Floor != Ceiling(pos) ==> Ceiling(pos) == pos.Floor + 1
  {}

  function Blend(x: real, y: real, t: real): real { x + (y - x) * t }

  lemma BlendBounds(x: real, y: real, s: real, t: real)
    requires x <= y && 0.0 <= s <= t <= 1.0
    ensures x <= Blend(x, y, s) <= Blend(x, y, t) <= y
  {
    var d := y - x;
    NonNegative(d, s);
    NonNegative(d, t - s);
    NonNegative(d, 1.0 - t);
    assert d * (t - s) == d * t - d * s;
    assert d * (1.0 - t) == d - d * t;
  }

  lemma NonNegative(x: real, y: real)
    requires 0.0 <= x && 0.0 <= y
    ensures 0.0 <= x * y
  {
  }

  /** Linear interpolation between the two order statistics around a fractional rank. */
  function At(ordered: seq<real>, pos: real): real
    requires 0.0 <= pos <= (|ordered| - 1) as real
  {
    var lo, hi := pos.Floor, Ceiling(pos);
    if lo == hi then ordered[lo]
    else Blend(ordered[lo], ordered[hi], pos - lo as real)
  }

  /** The percentile at level `q` is read at rank `(n - 1) q`. */
  function Interpolated(ordered: seq<real>, q: real): real
    requires ordered != [] && 0.0 <= q <= 1.0
  {
    RankInRange(|ordered| - 1, q);
    At(ordered, (|ordered| - 1) as real * q)
  }

  method ReadAt(ordered: seq<real>, pos: real) returns (value: real)
    requires 0.0 <= pos <= (|ordered| - 1) as real
    ensures value == At(ordered, pos)
  {
    FloorInRange(|ordered| - 1, pos);
    var lo, hi := pos.Floor, Ceiling(pos);
    if lo == hi {
      value := ordered[lo];
    } else {
      value := Blend(ordered[lo], ordered[hi], pos - lo as real);
    }
  }

  method Percentile(ordered: seq<real>, q: real) returns (value: real)
    requires ordered != [] && 0.0 <= q <= 1.0
    ensures value == Interpolated(ordered, q)
  {
    RankInRange(|ordered| - 1, q);
    value := ReadAt(ordered, (|ordered| - 1) as real * q);
  }

  /** `percentiles`: no values give no percentiles; otherwise one sort serves every level. */
  method Percentiles(values: seq<real>, qs: seq<real>) returns (out: seq<Option<real>>)
    requires forall i :: 0 <= i < |qs| ==> 0.0 <= qs[i] <= 1.0
    ensures |out| == |qs|
    ensures values == [] ==> forall i :: 0 <= i < |qs| ==> out[i] == None
    ensures values != [] ==> |Sort(Le, values)| == |values| && forall i :: 0 <= i < |qs| ==>
              out[i] == Some(Interpolated(Sort(Le, values), qs[i]))
  {
    if values == [] {
      return seq(|qs|, _ => None);
    }
    SortPermutes(Le, values);
    var ordered := Sort(Le, values);
    out := [];
    for k := 0 to |qs|
      invariant |out| == k
      invariant forall i :: 0 <= i < k ==> out[i] == Some(Interpolated(ordered, qs[i]))
    {
      var value := Percentile(ordered, qs[k]);
      out := out + [Some(value)];
    }
  }

  /** An interpolated value lies between the order statistics on either side of its rank. */
  lemma AtBetween(ordered: seq<real>, pos: real)
    requires 0.0 <= pos <= (|ordered| - 1) as real && Sorted(Le, ordered)
    ensures 0 <= pos.Floor <= Ceiling(pos) < |ordered|
    ensures ordered[pos.Floor] <= At(ordered, pos) <= ordered[Ceiling(pos)]
  {
    var lo, hi := pos.Floor, Ceiling(pos);
    if lo != hi {
      assert Le(ordered[lo], ordered[hi]);
      var t := pos - lo as real;
      BlendBounds(ordered[lo], ordered[hi], t, t);
    }
  }

  lemma AtMonotone(ordered: seq<real>, a: real, b: real)
    requires 0.0 <= a <= b <= (|ordered| - 1) as real && Sorted(Le, ordered)
    ensures At(ordered, a) <= At(ordered, b)
  {
    AtBetween(ordered, a);
    AtBetween(ordered, b);
    if a.Floor < b.Floor {
      assert Ceiling(a) == b.Floor || Le(ordered[Ceiling(a)], ordered[b.Floor]);
    } else if Ceiling(a) != a.Floor {
      var lo := a.Floor;
      assert Le(ordered[lo], ordered[lo + 1]);
      BlendBounds(ordered[lo], ordered[lo + 1], a - lo as real, b - lo as real);
    }
  }

  lemma Ranks(n: nat, q: real, p: real) returns (a: real, b: real)
    requires q <= p
    ensures a == n as real * q && b == n as real * p && a <= b
  {
    a, b := n as real * q, n as real * p;
    assert b - a == n as real * (p - q);
  }

  lemma InterpolatedAtRank(ordered: seq<real>, q: real, pos: real)
    requires ordered != [] && 0.0 <= q <= 1.0 && pos == (|ordered| - 1) as real * q
    ensures 0.0 <= pos <= (|ordered| - 1) as real && Interpolated(ordered, q) == At(ordered, pos)
  {
    RankInRange(|ordered| - 1, q);
  }

  /** At the level that stands `t` of the way from the `k`-th to the next of `n` values, the percentile stands there too:
      levels 0 and 1 give the least and the greatest value, and each level `k / (n - 1)` the `k`-th value itself. */
  lemma InterpolatedIs(ordered: seq<real>, q: real, k: nat, t: real)
    requires 0.0 <= q <= 1.0 && k < |ordered| && 0.0 <= t < 1.0 && (k == |ordered| - 1 ==> t == 0.0)
    requires (|ordered| - 1) as real * q == k as real + t
    ensures k == |ordered| - 1 ==> Interpolated(ordered, q) == ordered[k]
    ensures k < |ordered| - 1 ==> Interpolated(ordered, q) == ordered[k] * (1.0 - t) + ordered[k + 1] * t
  {
    InterpolatedAtRank(ordered, q, k as real + t);
    assert (k as real + t).Floor == k;
    if t > 0.0 {
      assert Ceiling(k as real + t) == k + 1;
      BlendIs(ordered[k], ordered[k + 1], t);
    } else {
      assert Ceiling(k as real) == k;
    }
  }

  lemma BlendIs(x: real, y: real, t: real)
    ensures Blend(x, y, t) == x * (1.0 - t) + y * t
  {
  }

  /** Percentiles never decrease as the level rises. */
  lemma InterpolatedMonotone(ordered: seq<real>, q: real, p: real)
    requires ordered != [] && 0.0 <= q <= p <= 1.0 && Sorted(Le, ordered)
    ensures Interpolated(ordered, q) <= Interpolated(ordered, p)
  {
    var a, b := Ranks(|ordered| - 1, q, p);
    InterpolatedAtRank(ordered, q, a);
    InterpolatedAtRank(ordered, p, b);
    AtMonotone(ordered, a, b);
  }
}
