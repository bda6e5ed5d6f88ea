/** The time series under a lone end bound (backend/high_scale/dashboard.py): the table stops at the end of the
    bound's minute, the facts at the bound are added, and the fact path applies no bound. */
module DashboardEnd {
  import opened Counting
  import opened Dashboard
  import opened DashboardSeries
  import opened Rounding

  /** The facts the table leaves out. */
  function Past(end: int): Fact -> bool { (f: Fact) => Minute(f.ts) >= end }

  /** The facts left out are made up for by as many read for the end, all in the bucket those are added to. */
  predicate MadeUp(facts: seq<Fact>, i: Interval, end: int, ok: bool) {
    && (forall f :: f in facts && Past(end)(f) ==> FactBucket(i)(f) == CalendarBucket(i, end))
    && Number(facts, Past(end)) == |EndFacts(facts, Open, At(end), ok)|
  }

  /** What the table counts, grouped as it groups. */
  function Rounded(facts: seq<Fact>, i: Interval, end: int): int -> nat {
    Weights(facts, InTable(Open, At(end)), TableBucket(i))
  }

  /** What the table counts, grouped as the facts are. */
  function Kept(facts: seq<Fact>, i: Interval, end: int): int -> nat {
    Weights(facts, InTable(Open, At(end)), FactBucket(i))
  }

  function Missing(facts: seq<Fact>, i: Interval, end: int): int -> nat { Weights(facts, Past(end), FactBucket(i)) }

  function Whole(facts: seq<Fact>, i: Interval, end: int): int -> nat {
    Weights(facts, InFacts(Open, At(end)), FactBucket(i))
  }

  function Extra(facts: seq<Fact>, i: Interval, end: int, ok: bool): int -> nat {
    (t: int) => if t == CalendarBucket(i, end) then |EndFacts(facts, Open, At(end), ok)| else 0
  }

  lemma WholeSplits(facts: seq<Fact>, i: Interval, end: int, t: int)
    ensures Whole(facts, i, end)(t) == Kept(facts, i, end)(t) + Missing(facts, i, end)(t)
  {
    var kept := (f: Fact) => InTable(Open, At(end))(f) && FactBucket(i)(f) == t;
    var past := (f: Fact) => Past(end)(f) && FactBucket(i)(f) == t;
    var all := (f: Fact) => InFacts(Open, At(end))(f) && FactBucket(i)(f) == t;
    forall f: Fact ensures (all(f) <==> kept(f) || past(f)) && !(kept(f) && past(f)) {
      assert InTable(Open, At(end))(f) == (Minute(f.ts) < end) && Past(end)(f) == (Minute(f.ts) >= end);
      assert InFacts(Open, At(end))(f);
    }
    NumberSplit(facts, kept, past, all);
  }

  // ---- Series and weights -------------------------------------------------------------------

  lemma SameSeries(x: seq<Point>, w: int -> nat, v: int -> nat, t: int)
    requires IsSeries(x, w) && IsSeries(x, v)
    ensures w(t) == v(t)
  {
    TimesExact(x, w, t);
    TimesExact(x, v, t);
    if w(t) > 0 {
      var k :| 0 <= k < |x| && x[k].time == t;
    }
  }

  lemma SeriesEqualWeights(x: seq<Point>, w: int -> nat, y: seq<Point>, v: int -> nat)
    requires IsSeries(x, w) && IsSeries(y, v)
    ensures x == y <==> forall t :: w(t) == v(t)
  {
    if x == y {
      forall t ensures w(t) == v(t) {
        SameSeries(x, w, v, t);
      }
    } else if forall t :: w(t) == v(t) {
      SeriesSameWeights(x, w, v);
      SeriesUnique(x, y, v);
    }
  }

  ghost predicate Balanced(facts: seq<Fact>, i: Interval, end: int, ok: bool, t: int) {
    Rounded(facts, i, end)(t) + Extra(facts, i, end, ok)(t) == Kept(facts, i, end)(t) + Missing(facts, i, end)(t)
  }

  function Drawn(facts: seq<Fact>, i: Interval, end: int, ok: bool): int -> nat {
    Added(Rounded(facts, i, end), CalendarBucket(i, end), |EndFacts(facts, Open, At(end), ok)|)
  }

  lemma BalancedIs(facts: seq<Fact>, i: Interval, end: int, ok: bool, t: int)
    ensures Balanced(facts, i, end, ok, t) <==> Drawn(facts, i, end, ok)(t) == Whole(facts, i, end)(t)
  {
    WholeSplits(facts, i, end, t);
  }

  /** The series agree exactly if every bucket balances. */
  lemma SeriesBalance(i: Interval, batches: seq<seq<Fact>>, dims: seq<string>, end: int, ok: bool,
                      base: seq<Point>, direct: seq<Point>)
    requires i != S1 && Once(dims, "url") && Answers(i, batches, dims, Open, At(end), base, direct)
    ensures var facts := Facts(batches);
            Shown(base, facts, Open, At(end), ok, i) == direct <==> forall t :: Balanced(facts, i, end, ok, t)
  {
    var facts := Facts(batches);
    ShownSeries(i, batches, dims, Open, At(end), ok, base);
    SeriesEqualWeights(Shown(base, facts, Open, At(end), ok, i), Drawn(facts, i, end, ok), direct, Whole(facts, i, end));
    forall t ensures Balanced(facts, i, end, ok, t) <==> Drawn(facts, i, end, ok)(t) == Whole(facts, i, end)(t) {
      BalancedIs(facts, i, end, ok, t);
    }
  }

  // ---- When every bucket balances -----------------------------------------------------------

  predicate RoundedAlike(facts: seq<Fact>, i: Interval, end: int) {
    SameBuckets(i) || OnBucketStarts(facts, i, Open, At(end))
  }

  lemma RoundedIsKept(facts: seq<Fact>, i: Interval, end: int, t: int)
    requires i != S1 && RoundedAlike(facts, i, end)
    ensures Rounded(facts, i, end)(t) == Kept(facts, i, end)(t)
  {
    forall f | f in facts && InTable(Open, At(end))(f) ensures TableBucket(i)(f) == FactBucket(i)(f) {
      BucketsBelow(i, f.ts);
      if !SameBuckets(i) {
        StartsBucket(i, f.ts);
      }
    }
    NumberSame(facts, (f: Fact) => InTable(Open, At(end))(f) && TableBucket(i)(f) == t,
               (f: Fact) => InTable(Open, At(end))(f) && FactBucket(i)(f) == t);
  }

  /** Facts left out that all lie in the end bucket. */
  lemma MissingAtEnd(facts: seq<Fact>, i: Interval, end: int, t: int)
    requires forall f :: f in facts && Past(end)(f) ==> FactBucket(i)(f) == CalendarBucket(i, end)
    ensures Missing(facts, i, end)(t) == if t == CalendarBucket(i, end) then Number(facts, Past(end)) else 0
  {
    if t == CalendarBucket(i, end) {
      NumberSame(facts, (f: Fact) => Past(end)(f) && FactBucket(i)(f) == t, Past(end));
    } else {
      NumberNone(facts, (f: Fact) => Past(end)(f) && FactBucket(i)(f) == t);
    }
  }

  lemma BalancedIf(facts: seq<Fact>, i: Interval, end: int, ok: bool, t: int)
    requires i != S1 && MadeUp(facts, i, end, ok) && RoundedAlike(facts, i, end)
    ensures Balanced(facts, i, end, ok, t)
  {
    RoundedIsKept(facts, i, end, t);
    MissingAtEnd(facts, i, end, t);
  }

  /** A fact left out is missed in its bucket. */
  lemma MissedThere(facts: seq<Fact>, i: Interval, end: int, f: Fact)
    requires f in facts && Past(end)(f)
    ensures Missing(facts, i, end)(FactBucket(i)(f)) > 0
  {
    var t := FactBucket(i)(f);
    NumberNone(facts, (g: Fact) => Past(end)(g) && FactBucket(i)(g) == t);
    assert Past(end)(f) && FactBucket(i)(f) == t;
  }

  /** Above the end bucket the table has nothing. */
  lemma NothingAbove(facts: seq<Fact>, i: Interval, end: int, t: int)
    requires i != S1 && t > CalendarBucket(i, end)
    ensures Rounded(facts, i, end)(t) == 0
  {
    forall f | f in facts && InTable(Open, At(end))(f) ensures TableBucket(i)(f) != t {
      BaseBeforeEnd(i, f.ts, end);
    }
    NumberNone(facts, (f: Fact) => InTable(Open, At(end))(f) && TableBucket(i)(f) == t);
  }

  lemma PastAtOrAbove(i: Interval, end: int, f: Fact)
    requires i != S1 && !SameBuckets(i) && Past(end)(f)
    ensures FactBucket(i)(f) >= CalendarBucket(i, end)
  {
    CalendarIsFloor(i, end);
    DivBounds(60000, end);
  }

  lemma MissingInBucket(facts: seq<Fact>, i: Interval, end: int, ok: bool, f: Fact)
    requires i != S1 && f in facts && Past(end)(f) && Balanced(facts, i, end, ok, FactBucket(i)(f))
    ensures FactBucket(i)(f) == CalendarBucket(i, end)
  {
    var t := FactBucket(i)(f);
    MissedThere(facts, i, end, f);
    if SameBuckets(i) {
      RoundedIsKept(facts, i, end, t);
    } else {
      PastAtOrAbove(i, end, f);
      if t > CalendarBucket(i, end) {
        NothingAbove(facts, i, end, t);
      }
    }
  }

  lemma TotalsBalance(i: Interval, batches: seq<seq<Fact>>, dims: seq<string>, end: int, ok: bool,
                      base: seq<Point>, direct: seq<Point>)
    requires Once(dims, "url") && Answers(i, batches, dims, Open, At(end), base, direct)
    requires Shown(base, Facts(batches), Open, At(end), ok, i) == direct
    ensures Number(Facts(batches), Past(end)) == |EndFacts(Facts(batches), Open, At(end), ok)|
  {
    var facts := Facts(batches);
    ShownSum(i, batches, dims, Open, At(end), ok, base);
    SeriesTotal(direct, facts, InFacts(Open, At(end)), FactBucket(i));
    NumberSplit(facts, InTable(Open, At(end)), Past(end), InFacts(Open, At(end)));
  }

  lemma RoundedAlikeIf(i: Interval, batches: seq<seq<Fact>>, dims: seq<string>, end: int, ok: bool, base: seq<Point>)
    requires i != S1 && Once(dims, "url") && MadeUp(Facts(batches), i, end, ok)
    requires IsSeries(base, TableWeights(Published(batches, dims), Open, At(end), i))
    requires forall t :: Balanced(Facts(batches), i, end, ok, t)
    ensures RoundedAlike(Facts(batches), i, end)
  {
    var facts := Facts(batches);
    BaseSeries(i, batches, dims, Open, At(end), base);
    forall t ensures Rounded(facts, i, end)(t) == Kept(facts, i, end)(t) {
      assert Balanced(facts, i, end, ok, t);
      MissingAtEnd(facts, i, end, t);
    }
    SeriesSameWeights(base, Rounded(facts, i, end), Kept(facts, i, end));
    var p := InTable(Open, At(end));
    forall f | f in facts && p(f) ensures TableBucket(i)(f) <= FactBucket(i)(f) {
      BucketsBelow(i, f.ts);
    }
    SeriesEqualIff(base, base, facts, p, TableBucket(i), p, FactBucket(i));
    forall f | f in facts && InSeries(Open, At(end), Minute(f.ts))
      ensures SameBuckets(i) || f.ts / 60000 % Span(i) == 0
    {
      assert p(f);
      BucketsBelow(i, f.ts);
      if !SameBuckets(i) {
        StartsBucket(i, f.ts);
      }
    }
  }

  /** Under a lone end bound, anywhere in a minute, the fast path shows the series of the facts exactly if the facts
      past the table's window are made up for by those read at the bound, and the buckets agree. */
  lemma LoneEndAgreeIff(i: Interval, batches: seq<seq<Fact>>, dims: seq<string>, end: int, ok: bool,
                        base: seq<Point>, direct: seq<Point>)
    requires i != S1 && Once(dims, "url") && Answers(i, batches, dims, Open, At(end), base, direct)
    ensures Shown(base, Facts(batches), Open, At(end), ok, i) == direct
       <==> (MadeUp(Facts(batches), i, end, ok)
             && (SameBuckets(i) || OnBucketStarts(Facts(batches), i, Open, At(end))))
  {
    var facts := Facts(batches);
    SeriesBalance(i, batches, dims, end, ok, base, direct);
    if Shown(base, facts, Open, At(end), ok, i) == direct {
      forall f | f in facts && Past(end)(f) ensures FactBucket(i)(f) == CalendarBucket(i, end) {
        assert Balanced(facts, i, end, ok, FactBucket(i)(f));
        MissingInBucket(facts, i, end, ok, f);
      }
      TotalsBalance(i, batches, dims, end, ok, base, direct);
      RoundedAlikeIf(i, batches, dims, end, ok, base);
    } else if MadeUp(facts, i, end, ok) && RoundedAlike(facts, i, end) {
      forall t ensures Balanced(facts, i, end, ok, t) {
        BalancedIf(facts, i, end, ok, t);
      }
    }
  }
}
