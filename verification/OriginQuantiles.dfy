/** From requests to the quantiles a reader shows: batches are projected per minute, sketched and stored, and the
    stored sketches of a window are pooled (backend/high_scale/origin.py). This holds for every sketched measure, of
    the minute summaries and of the dimensions. */
module OriginQuantiles {
  import opened Keyed
  import opened Sorting
  import opened Sketch
  import opened Projections
  import opened OriginStore
  import opened Wrappers

  predicate Distinct(minutes: seq<int>) { forall i, j :: 0 <= i < j < |minutes| ==> minutes[i] != minutes[j] }

  /** The raw values of a measure in the given minutes, row by row. */
  function Measured(measure: Request -> seq<real>, rows: seq<Request>, minutes: seq<int>): seq<real> {
    if rows == [] then []
    else
      var front, r := Measured(measure, rows[..|rows| - 1], minutes), rows[|rows| - 1];
      if r.minute.Some? && r.minute.value in minutes then front + measure(r) else front
  }

  // ---- One measure of one family of accumulators --------------------------------------------

  /** Where a measure is kept: which contributions, under which key for a minute, in which list and sketch. */
  datatype Keeping<!K> = Keeping(part: Request -> seq<Contribution<K, Acc>>, at: int -> K,
                                 pick: Acc -> seq<real>, sketch: Origin<Histogram> -> Histogram)

  ghost predicate Picks<K>(c: Keeping<K>, a: Acc, b: Acc) { c.pick(AddLists(a, b)) == c.pick(a) + c.pick(b) }

  ghost predicate Sketches<K>(c: Keeping<K>, a: Acc) { c.sketch(Sketched(a)) == Sketch.Sketch(c.pick(a)) }

  ghost predicate Gives<K>(c: Keeping<K>, measure: Request -> seq<real>, r: Request, minute: int) {
    c.pick(Total(AddLists, NoLists(), c.part(r), c.at(minute))) == if r.minute == Some(minute) then measure(r) else []
  }

  /** The list is added to by concatenation, is what the sketch is made from, and gets from each request just
      its measure, under its minute. */
  ghost predicate Keeps<K(!new)>(c: Keeping<K>, measure: Request -> seq<real>) {
    && c.pick(NoLists()) == []
    && (forall a, b :: Picks(c, a, b))
    && (forall a :: Sketches(c, a))
    && (forall r, minute :: Gives(c, measure, r, minute))
  }

  ghost function ListAt<K>(c: Keeping<K>, rows: seq<Request>, minute: int): seq<real> {
    c.pick(Total(AddLists, NoLists(), All(c.part, rows), c.at(minute)))
  }

  lemma ListStep<K(!new)>(c: Keeping<K>, measure: Request -> seq<real>, rows: seq<Request>, r: Request, minute: int)
    requires Keeps(c, measure)
    ensures ListAt(c, rows + [r], minute) == ListAt(c, rows, minute) + if r.minute == Some(minute) then measure(r) else []
  {
    OriginListsMonoid();
    AllConcat(c.part, rows, [r]);
    AllOne(c.part, r);
    var k := c.at(minute);
    TotalConcat(AddLists, NoLists(), All(c.part, rows), c.part(r), k);
    assert Picks(c, Total(AddLists, NoLists(), All(c.part, rows), k), Total(AddLists, NoLists(), c.part(r), k));
    assert Gives(c, measure, r, minute);
  }

  lemma MeasuredStep(measure: Request -> seq<real>, rows: seq<Request>, r: Request, minute: int)
    ensures Measured(measure, rows + [r], [minute]) == Measured(measure, rows, [minute]) + if r.minute == Some(minute) then measure(r) else []
  {
    assert (rows + [r])[..|rows|] == rows;
  }

  /** The accumulator of a minute holds the measure of that minute's rows, in row order. */
  lemma {:induction false} ListExact<K(!new)>(c: Keeping<K>, measure: Request -> seq<real>, rows: seq<Request>, minute: int)
    requires Keeps(c, measure)
    ensures ListAt(c, rows, minute) == Measured(measure, rows, [minute])
  {
    if rows == [] {
      assert Image(c.part, rows) == [] && All(c.part, rows) == [];
    } else {
      var front, last := rows[..|rows| - 1], rows[|rows| - 1];
      ListExact(c, measure, front, minute);
      ListStep(c, measure, front, last, minute);
      MeasuredStep(measure, front, last, minute);
      assert rows == front + [last];
    }
  }

  // ---- A window -----------------------------------------------------------------------------

  /** The lists behind the stored sketches of one batch, one for each minute of the window. */
  ghost function Lists<K>(c: Keeping<K>, rows: seq<Request>, minutes: seq<int>): seq<seq<real>> {
    seq(|minutes|, i requires 0 <= i < |minutes| => ListAt(c, rows, minutes[i]))
  }

  ghost function Window<K>(c: Keeping<K>, batches: seq<seq<Request>>, minutes: seq<int>): seq<seq<real>> {
    if batches == [] then [] else Lists(c, batches[0], minutes) + Window(c, batches[1..], minutes)
  }

  lemma {:induction false} MinuteApart(measure: Request -> seq<real>, rows: seq<Request>, m: int, rest: seq<int>)
    requires m !in rest
    ensures multiset(Measured(measure, rows, [m] + rest)) == multiset(Measured(measure, rows, [m])) + multiset(Measured(measure, rows, rest))
  {
    if rows != [] {
      MinuteApart(measure, rows[..|rows| - 1], m, rest);
    }
  }

  lemma {:induction false} NoMinutes(measure: Request -> seq<real>, rows: seq<Request>)
    ensures Measured(measure, rows, []) == []
  {
    if rows != [] {
      NoMinutes(measure, rows[..|rows| - 1]);
    }
  }

  lemma ListsStep<K(!new)>(c: Keeping<K>, measure: Request -> seq<real>, rows: seq<Request>, m: int, rest: seq<int>)
    requires Keeps(c, measure)
    ensures Flat(Lists(c, rows, [m] + rest)) == Measured(measure, rows, [m]) + Flat(Lists(c, rows, rest))
  {
    ListExact(c, measure, rows, m);
    assert Lists(c, rows, [m] + rest)[1..] == Lists(c, rows, rest);
  }

  /** The lists of the minutes of a window are its values, each once. */
  lemma {:induction false} ListsCover<K(!new)>(c: Keeping<K>, measure: Request -> seq<real>, rows: seq<Request>, minutes: seq<int>)
    requires Keeps(c, measure) && Distinct(minutes)
    ensures multiset(Flat(Lists(c, rows, minutes))) == multiset(Measured(measure, rows, minutes))
  {
    if minutes == [] {
      NoMinutes(measure, rows);
    } else {
      var m, rest := minutes[0], minutes[1..];
      ListsCover(c, measure, rows, rest);
      ListsStep(c, measure, rows, m, rest);
      MinuteApart(measure, rows, m, rest);
      assert minutes == [m] + rest;
    }
  }

  lemma {:induction false} MeasuredConcat(measure: Request -> seq<real>, a: seq<Request>, b: seq<Request>, minutes: seq<int>)
    ensures Measured(measure, a + b, minutes) == Measured(measure, a, minutes) + Measured(measure, b, minutes)
    decreases |b|
  {
    if b == [] {
      assert a + b == a;
    } else {
      MeasuredConcat(measure, a, b[..|b| - 1], minutes);
      assert (a + b)[..|a + b| - 1] == a + b[..|b| - 1];
    }
  }

  lemma {:induction false} WindowCovers<K(!new)>(c: Keeping<K>, measure: Request -> seq<real>, batches: seq<seq<Request>>, minutes: seq<int>)
    requires Keeps(c, measure) && Distinct(minutes)
    ensures multiset(Flat(Window(c, batches, minutes))) == multiset(Measured(measure, Flat(batches), minutes))
  {
    if batches != [] {
      WindowCovers(c, measure, batches[1..], minutes);
      ListsCover(c, measure, batches[0], minutes);
      MeasuredConcat(measure, batches[0], Flat(batches[1..]), minutes);
      FlatConcat(Lists(c, batches[0], minutes), Window(c, batches[1..], minutes));
    }
  }

  // ---- What a reader gets -------------------------------------------------------------------

  /** The weighted values of one batch's stored rows: a minute without a row gives none. */
  ghost function ReadMinutes<K>(c: Keeping<K>, rows: seq<Request>, minutes: seq<int>): seq<real> {
    if minutes == [] then []
    else
      var stored := StoredBy(c.part, AddLists, NoLists(), Sketched, rows);
      var k := c.at(minutes[0]);
      (if k in stored then Expand(c.sketch(stored[k])) else []) + ReadMinutes(c, rows, minutes[1..])
  }

  /** `_sketch_select`: the weighted values of all stored rows of a window, over all batches. */
  ghost function ReadWindow<K>(c: Keeping<K>, batches: seq<seq<Request>>, minutes: seq<int>): seq<real> {
    if batches == [] then [] else ReadMinutes(c, batches[0], minutes) + ReadWindow(c, batches[1..], minutes)
  }

  lemma StoredSketch<K(!new)>(c: Keeping<K>, measure: Request -> seq<real>, rows: seq<Request>, minute: int)
    requires Keeps(c, measure)
    ensures var stored := StoredBy(c.part, AddLists, NoLists(), Sketched, rows);
            var k := c.at(minute);
            (if k in stored then Expand(c.sketch(stored[k])) else []) == Expand(Sketch.Sketch(ListAt(c, rows, minute)))
  {
    var acc := Total(AddLists, NoLists(), All(c.part, rows), c.at(minute));
    assert Sketches(c, acc);
    NoTotal(AddLists, NoLists(), All(c.part, rows), c.at(minute));
    NothingExpanded();
  }

  lemma NothingExpanded()
    ensures Expand(Sketch.Sketch([])) == []
  {
    SketchExpands([]);
    var e := Expand(Sketch.Sketch([]));
    assert |e| == |multiset(e)| == 0;
  }

  lemma ReadStep<K(!new)>(c: Keeping<K>, measure: Request -> seq<real>, rows: seq<Request>, minutes: seq<int>)
    requires Keeps(c, measure) && minutes != []
    ensures ReadMinutes(c, rows, minutes) == Expand(Sketch.Sketch(ListAt(c, rows, minutes[0]))) + ReadMinutes(c, rows, minutes[1..])
  {
    StoredSketch(c, measure, rows, minutes[0]);
  }

  lemma MergedStep(first: seq<real>, rest: seq<seq<real>>)
    ensures MergedExpansion([first] + rest) == Expand(Sketch.Sketch(first)) + MergedExpansion(rest)
  {
    assert ([first] + rest)[1..] == rest;
  }

  lemma {:induction false} MinutesMerge<K(!new)>(c: Keeping<K>, measure: Request -> seq<real>, rows: seq<Request>, minutes: seq<int>, rest: seq<seq<real>>)
    requires Keeps(c, measure)
    ensures MergedExpansion(Lists(c, rows, minutes) + rest) == ReadMinutes(c, rows, minutes) + MergedExpansion(rest)
  {
    if minutes == [] {
      assert Lists(c, rows, minutes) + rest == rest;
    } else {
      MinutesMerge(c, measure, rows, minutes[1..], rest);
      ReadStep(c, measure, rows, minutes);
      ListsAppend(c, rows, minutes, rest);
      MergedStep(ListAt(c, rows, minutes[0]), Lists(c, rows, minutes[1..]) + rest);
      Regroup(Expand(Sketch.Sketch(ListAt(c, rows, minutes[0]))), ReadMinutes(c, rows, minutes[1..]), MergedExpansion(rest));
    }
  }

  lemma ListsAppend<K(!new)>(c: Keeping<K>, rows: seq<Request>, minutes: seq<int>, rest: seq<seq<real>>)
    requires minutes != []
    ensures Lists(c, rows, minutes) + rest == [ListAt(c, rows, minutes[0])] + (Lists(c, rows, minutes[1..]) + rest)
  {
  }

  lemma {:induction false} WindowMerge<K(!new)>(c: Keeping<K>, measure: Request -> seq<real>, batches: seq<seq<Request>>, minutes: seq<int>)
    requires Keeps(c, measure)
    ensures ReadWindow(c, batches, minutes) == MergedExpansion(Window(c, batches, minutes))
  {
    if batches != [] {
      WindowMerge(c, measure, batches[1..], minutes);
      MinutesMerge(c, measure, batches[0], minutes, Window(c, batches[1..], minutes));
    }
  }

  /** The weighted values report the `k`-th smallest raw value within the advertised relative error, and are
      as many as there are raw values. */
  ghost predicate Reports(read: seq<real>, raw: seq<real>, k: nat) {
    var low, high := Sort(Le, raw), Sort(Le, read);
    && |read| == |raw| == |low| == |high|
    && k < |raw|
    && Near(high[k], low[k])
  }

  lemma QuantileOf(parts: seq<seq<real>>, raw: seq<real>, k: nat)
    requires multiset(Flat(parts)) == multiset(raw) && k < |raw|
    ensures Reports(MergedExpansion(parts), raw, k)
  {
    assert |Flat(parts)| == |multiset(Flat(parts))| == |multiset(raw)| == |raw|;
    SortEqual(Flat(parts), raw);
    MergedQuantileError(parts, k);
    SortPermutes(Le, MergedExpansion(parts));
  }

  lemma SortEqual(a: seq<real>, b: seq<real>)
    requires multiset(a) == multiset(b)
    ensures Sort(Le, a) == Sort(Le, b)
  {
    LeTotal();
    SortUnique(Le, a, b);
  }

  /** However the requests were cut into batches, every quantile read from the stored sketches of a window is
      within the advertised relative error of that quantile of the window's raw values. */
  lemma QuantileError<K(!new)>(c: Keeping<K>, measure: Request -> seq<real>, batches: seq<seq<Request>>, minutes: seq<int>, k: nat)
    requires Keeps(c, measure) && Distinct(minutes) && k < |Measured(measure, Flat(batches), minutes)|
    ensures Reports(ReadWindow(c, batches, minutes), Measured(measure, Flat(batches), minutes), k)
  {
    WindowCovers(c, measure, batches, minutes);
    WindowMerge(c, measure, batches, minutes);
    QuantileOf(Window(c, batches, minutes), Measured(measure, Flat(batches), minutes), k);
  }

  // ---- The measures -------------------------------------------------------------------------

  datatype Measure = OfLatency | OfTtlb | OfOverhead | OfSize

  /** What the measure of a request is, in its own fields: a request counts only if it has a time to first byte, of
      the origin in microseconds or else of the client in seconds. */
  function Raw(m: Measure): Request -> seq<real> {
    (r: Request) =>
      if r.ottfb.None? && r.ttfb.None? then []
      else
        match m
        case OfLatency => [if r.ottfb.Some? then r.ottfb.value else r.ttfb.value * 1000000.0]
        case OfTtlb => if r.ottlb.Some? then [r.ottlb.value] else []
        case OfOverhead => if r.ottlb.Some? && r.elapsed.Some? then [r.elapsed.value - r.ottlb.value] else []
        case OfSize => if r.originBytes.Some? && r.originBytes.value >= 0 then [r.originBytes.value as real] else []
  }

  function Pick(m: Measure): Acc -> seq<real> {
    (a: Acc) =>
      match m
      case OfLatency => a.latencies
      case OfTtlb => a.ttlb
      case OfOverhead => a.overhead
      case OfSize => a.sizes
  }

  function PickSketch(m: Measure): Origin<Histogram> -> Histogram {
    (o: Origin<Histogram>) =>
      match m
      case OfLatency => o.latencies
      case OfTtlb => o.ttlb
      case OfOverhead => o.overhead
      case OfSize => o.sizes
  }

  function Summaries(m: Measure): Keeping<int> { Keeping(SummaryPart, (minute: int) => minute, Pick(m), PickSketch(m)) }

  lemma SummaryPartTotal(r: Request, minute: int)
    ensures Total(AddLists, NoLists(), SummaryPart(r), minute) ==
            if r.minute == Some(minute) && Latency(r).Some? then SummaryDelta(r, Latency(r).value) else NoLists()
  {
    OriginListsMonoid();
    if r.minute.Some? && Latency(r).Some? {
      TotalOne(AddLists, NoLists(), Contribution(r.minute.value, SummaryDelta(r, Latency(r).value)), minute);
    }
  }

  lemma SummariesKeep(m: Measure)
    ensures Keeps(Summaries(m), Raw(m))
  {
    var c := Summaries(m);
    forall a, b ensures Picks(c, a, b) {
    }
    forall a ensures Sketches(c, a) {
    }
    forall r, minute ensures Gives(c, Raw(m), r, minute) {
      SummaryPartTotal(r, minute);
    }
  }

  /** Latency, last byte, overhead and size quantiles of a window of minute summaries. */
  lemma SummaryQuantile(m: Measure, batches: seq<seq<Request>>, minutes: seq<int>, k: nat)
    requires Distinct(minutes) && k < |Measured(Raw(m), Flat(batches), minutes)|
    ensures Reports(ReadWindow(Summaries(m), batches, minutes), Measured(Raw(m), Flat(batches), minutes), k)
  {
    SummariesKeep(m);
    QuantileError(Summaries(m), Raw(m), batches, minutes, k);
  }

  /** The requests whose latency counts under a value of a dimension. */
  predicate Counts(r: Request, name: string, tag: Tag) {
    || (name == "url" && r.url != "" && tag == Word(r.url))
    || (name == "pop" && r.pop != "" && tag == Word(r.pop))
    || (name == "edge" && r.edge.Some? && r.edge.value && tag == Word("true"))
    || (name == "edge" && r.edge.Some? && !r.edge.value && tag == Word("false"))
    || (name == "oip" && r.originIp != "" && r.originStatus.Some? && tag == Word(r.originIp))
  }

  function RawUnder(name: string, tag: Tag): Request -> seq<real> {
    (r: Request) => if Counts(r, name, tag) then Raw(OfLatency)(r) else []
  }

  function Under(name: string, tag: Tag): Keeping<Dimension> {
    Keeping(DimensionPart, (minute: int) => Dimension(minute, name, tag), Pick(OfLatency), PickSketch(OfLatency))
  }

  /** What one place adds to a dimension's latencies. */
  function Added(minute: int, p: Place, k: Dimension): seq<real> {
    if p.counts && k == Dimension(minute, p.name, p.tag) then p.delta.latencies else []
  }

  lemma PlaceAdds(minute: int, p: Place, k: Dimension)
    ensures Total(AddLists, NoLists(), PlaceIn(minute, p), k).latencies == Added(minute, p, k)
  {
    OriginListsMonoid();
    if p.counts {
      TotalOne(AddLists, NoLists(), Contribution(Dimension(minute, p.name, p.tag), p.delta), k);
    }
  }

  lemma LatenciesConcat(a: seq<Contribution<Dimension, Acc>>, b: seq<Contribution<Dimension, Acc>>, k: Dimension)
    ensures Total(AddLists, NoLists(), a + b, k).latencies
         == Total(AddLists, NoLists(), a, k).latencies + Total(AddLists, NoLists(), b, k).latencies
  {
    OriginListsMonoid();
    TotalConcat(AddLists, NoLists(), a, b, k);
  }

  lemma PlacesAdd(minute: int, r: Request, k: Dimension)
    ensures Total(AddLists, NoLists(), PlacesIn(minute, r), k).latencies
         == Added(minute, StatusPlace(r), k) + Added(minute, UrlPlace(r), k) + Added(minute, PopPlace(r), k)
            + Added(minute, EdgePlace(r), k) + Added(minute, AddressPlace(r), k)
  {
    var a, b, c, d, e := PlaceIn(minute, StatusPlace(r)), PlaceIn(minute, UrlPlace(r)), PlaceIn(minute, PopPlace(r)),
                         PlaceIn(minute, EdgePlace(r)), PlaceIn(minute, AddressPlace(r));
    LatenciesConcat(a + b + c + d, e, k);
    LatenciesConcat(a + b + c, d, k);
    LatenciesConcat(a + b, c, k);
    LatenciesConcat(a, b, k);
    PlaceAdds(minute, StatusPlace(r), k);
    PlaceAdds(minute, UrlPlace(r), k);
    PlaceAdds(minute, PopPlace(r), k);
    PlaceAdds(minute, EdgePlace(r), k);
    PlaceAdds(minute, AddressPlace(r), k);
  }

  lemma DimensionGives(r: Request, minute: int, name: string, tag: Tag)
    ensures Gives(Under(name, tag), RawUnder(name, tag), r, minute)
  {
    assert Raw(OfLatency)(r) == Listed(Latency(r));
    if r.minute.Some? {
      PlacesTotal(r, Dimension(minute, name, tag));
    } else {
      assert DimensionPart(r) == [];
    }
  }

  lemma PlacesTotal(r: Request, k: Dimension)
    requires r.minute.Some?
    ensures Total(AddLists, NoLists(), DimensionPart(r), k).latencies
         == if k.minute == r.minute.value && Counts(r, k.name, k.tag) then Listed(Latency(r)) else []
  {
    PlacesAdd(r.minute.value, r, k);
    PlacesList(r.minute.value, r, k);
  }

  lemma PlacesList(minute: int, r: Request, k: Dimension)
    ensures Added(minute, StatusPlace(r), k) + Added(minute, UrlPlace(r), k) + Added(minute, PopPlace(r), k)
            + Added(minute, EdgePlace(r), k) + Added(minute, AddressPlace(r), k)
         == if k.minute == minute && Counts(r, k.name, k.tag) then Listed(Latency(r)) else []
  {
    assert r.edge.Some? && r.edge.value ==> EdgeWord(r) == "true";
    assert r.edge.Some? && !r.edge.value ==> EdgeWord(r) == "false";
  }

  lemma DimensionsKeep(name: string, tag: Tag)
    ensures Keeps(Under(name, tag), RawUnder(name, tag))
  {
    var c := Under(name, tag);
    forall a, b ensures Picks(c, a, b) {
    }
    forall a ensures Sketches(c, a) {
    }
    forall r, minute ensures Gives(c, RawUnder(name, tag), r, minute) {
      DimensionGives(r, minute, name, tag);
    }
  }

  /** Latency quantiles of a window under any value of any dimension. */
  lemma DimensionQuantile(name: string, tag: Tag, batches: seq<seq<Request>>, minutes: seq<int>, k: nat)
    requires Distinct(minutes) && k < |Measured(RawUnder(name, tag), Flat(batches), minutes)|
    ensures Reports(ReadWindow(Under(name, tag), batches, minutes), Measured(RawUnder(name, tag), Flat(batches), minutes), k)
  {
    DimensionsKeep(name, tag);
    QuantileError(Under(name, tag), RawUnder(name, tag), batches, minutes, k);
  }
}
