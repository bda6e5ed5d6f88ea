/** What the origin tables say, in the fields of the log rows alone (backend/high_scale/origin.py): which minutes and
    dimension values have a row, and the value of every counter read from any batches. */
module OriginCounts {
  import opened Counting
  import opened Keyed
  import opened Sorting
  import opened Sketch
  import opened Projections
  import opened OriginStore
  import opened OriginQuantiles
  import opened Text
  import opened Wrappers

  // ---- Minutes ------------------------------------------------------------------------------

  /** A request of the minute with a time to first byte, of the origin or of the client. */
  predicate Timed(r: Request, minute: int) { r.minute == Some(minute) && (r.ottfb.Some? || r.ttfb.Some?) }

  predicate SaysMiss(s: string) { |s| >= 4 && s[0] in "mM" && s[1] in "iI" && s[2] in "sS" && s[3] in "sS" }

  predicate SaysPass(s: string) { |s| >= 4 && s[0] in "pP" && s[1] in "aA" && s[2] in "sS" && s[3] in "sS" }

  predicate ServerError(r: Request) { r.originStatus.Some? && 500 <= r.originStatus.value <= 599 }

  function BytesOf(r: Request): int { if r.originBytes.Some? && r.originBytes.value > 0 then r.originBytes.value else 0 }

  lemma CacheWords(s: string)
    ensures StartsWith(Lower(s), "miss") <==> SaysMiss(s)
    ensures StartsWith(Lower(s), "pass") <==> SaysPass(s)
  {
    var t := Lower(s);
    assert StartsWith(t, "miss") <==> |t| >= 4 && t[0] == 'm' && t[1] == 'i' && t[2] == 's' && t[3] == 's';
    assert StartsWith(t, "pass") <==> |t| >= 4 && t[0] == 'p' && t[1] == 'a' && t[2] == 's' && t[3] == 's';
    LowerLetters(s);
  }

  lemma LowerLetters(s: string)
    ensures forall i :: 0 <= i < |s| ==> (Lower(s)[i] == 'm' <==> s[i] in "mM") && (Lower(s)[i] == 'i' <==> s[i] in "iI")
    ensures forall i :: 0 <= i < |s| ==> (Lower(s)[i] == 's' <==> s[i] in "sS") && (Lower(s)[i] == 'p' <==> s[i] in "pP")
    ensures forall i :: 0 <= i < |s| ==> (Lower(s)[i] == 'a' <==> s[i] in "aA")
  {
  }

  /** What one request adds to a counter of its minute. */
  lemma SummaryRow(r: Request, minute: int)
    ensures var a := Total(AddLists, NoLists(), SummaryPart(r), minute);
            && a.requests == One(Timed(r, minute))
            && a.misses == One(Timed(r, minute) && SaysMiss(r.cache))
            && a.passes == One(Timed(r, minute) && SaysPass(r.cache))
            && a.errors == One(Timed(r, minute) && ServerError(r))
            && a.statuses == One(Timed(r, minute) && r.originStatus.Some?)
            && a.bytes == if Timed(r, minute) then BytesOf(r) else 0
  {
    SummaryPartTotal(r, minute);
    CacheWords(r.cache);
  }

  lemma SummaryInt(h: Acc -> int, f: Request -> int, p: Request -> bool, rows: seq<Request>, minute: int)
    requires h(NoLists()) == 0 && forall x, y :: AddsInt(AddLists, h, x, y)
    requires forall r :: h(Total(AddLists, NoLists(), SummaryPart(r), minute)) == f(r)
    ensures h(SummaryOf(rows, minute)) == SumInt(rows, f)
    ensures (forall r :: f(r) == One(p(r))) ==> h(SummaryOf(rows, minute)) == Number(rows, p)
  {
    OriginListsMonoid();
    TotalInt(SummaryPart, AddLists, NoLists(), h, f, rows, minute);
    if forall r :: f(r) == One(p(r)) {
      NumberIsSum(rows, p, f);
    }
  }

  /** The counters of a minute, over any rows. */
  ghost predicate MinuteCounts<L>(a: Origin<L>, rows: seq<Request>, minute: int) {
    && a.requests == Number(rows, (r: Request) => Timed(r, minute))
    && a.misses == Number(rows, (r: Request) => Timed(r, minute) && SaysMiss(r.cache))
    && a.passes == Number(rows, (r: Request) => Timed(r, minute) && SaysPass(r.cache))
    && a.errors == Number(rows, (r: Request) => Timed(r, minute) && ServerError(r))
    && a.statuses == Number(rows, (r: Request) => Timed(r, minute) && r.originStatus.Some?)
    && a.bytes == SumInt(rows, (r: Request) => if Timed(r, minute) then BytesOf(r) else 0)
  }

  lemma SummaryRequests(rows: seq<Request>, minute: int)
    ensures SummaryOf(rows, minute).requests == Number(rows, (r: Request) => Timed(r, minute))
  {
    var h, p := (a: Acc) => a.requests, (r: Request) => Timed(r, minute);
    var f := (r: Request) => One(p(r));
    forall r ensures h(Total(AddLists, NoLists(), SummaryPart(r), minute)) == f(r) {
      SummaryRow(r, minute);
    }
    SummaryInt(h, f, p, rows, minute);
  }

  lemma SummaryMisses(rows: seq<Request>, minute: int)
    ensures SummaryOf(rows, minute).misses == Number(rows, (r: Request) => Timed(r, minute) && SaysMiss(r.cache))
  {
    var h, p := (a: Acc) => a.misses, (r: Request) => Timed(r, minute) && SaysMiss(r.cache);
    var f := (r: Request) => One(p(r));
    forall r ensures h(Total(AddLists, NoLists(), SummaryPart(r), minute)) == f(r) {
      SummaryRow(r, minute);
    }
    SummaryInt(h, f, p, rows, minute);
  }

  lemma SummaryPasses(rows: seq<Request>, minute: int)
    ensures SummaryOf(rows, minute).passes == Number(rows, (r: Request) => Timed(r, minute) && SaysPass(r.cache))
  {
    var h, p := (a: Acc) => a.passes, (r: Request) => Timed(r, minute) && SaysPass(r.cache);
    var f := (r: Request) => One(p(r));
    forall r ensures h(Total(AddLists, NoLists(), SummaryPart(r), minute)) == f(r) {
      SummaryRow(r, minute);
    }
    SummaryInt(h, f, p, rows, minute);
  }

  lemma SummaryErrors(rows: seq<Request>, minute: int)
    ensures SummaryOf(rows, minute).errors == Number(rows, (r: Request) => Timed(r, minute) && ServerError(r))
  {
    var h, p := (a: Acc) => a.errors, (r: Request) => Timed(r, minute) && ServerError(r);
    var f := (r: Request) => One(p(r));
    forall r ensures h(Total(AddLists, NoLists(), SummaryPart(r), minute)) == f(r) {
      SummaryRow(r, minute);
    }
    SummaryInt(h, f, p, rows, minute);
  }

  lemma SummaryStatuses(rows: seq<Request>, minute: int)
    ensures SummaryOf(rows, minute).statuses == Number(rows, (r: Request) => Timed(r, minute) && r.originStatus.Some?)
  {
    var h, p := (a: Acc) => a.statuses, (r: Request) => Timed(r, minute) && r.originStatus.Some?;
    var f := (r: Request) => One(p(r));
    forall r ensures h(Total(AddLists, NoLists(), SummaryPart(r), minute)) == f(r) {
      SummaryRow(r, minute);
    }
    SummaryInt(h, f, p, rows, minute);
  }

  lemma SummaryBytes(rows: seq<Request>, minute: int)
    ensures SummaryOf(rows, minute).bytes == SumInt(rows, (r: Request) => if Timed(r, minute) then BytesOf(r) else 0)
  {
    var h, f := (a: Acc) => a.bytes, (r: Request) => if Timed(r, minute) then BytesOf(r) else 0;
    forall r ensures h(Total(AddLists, NoLists(), SummaryPart(r), minute)) == f(r) {
      SummaryRow(r, minute);
    }
    SummaryInt(h, f, (r: Request) => true, rows, minute);
  }

  lemma SummaryCounts(rows: seq<Request>, minute: int)
    ensures MinuteCounts(SummaryOf(rows, minute), rows, minute)
  {
    SummaryRequests(rows, minute);
    SummaryMisses(rows, minute);
    SummaryPasses(rows, minute);
    SummaryErrors(rows, minute);
    SummaryStatuses(rows, minute);
    SummaryBytes(rows, minute);
  }

  lemma SummaryKeys(rows: seq<Request>, minute: int)
    ensures minute in StoredSummaries(rows) <==> exists r :: r in rows && Timed(r, minute)
  {
    AllKeys(SummaryPart, rows, minute);
    forall r ensures minute in Keyed.Keys(SummaryPart(r)) <==> Timed(r, minute) {
      if Timed(r, minute) {
        assert SummaryPart(r)[0].key == minute;
      }
    }
  }

  // ---- What is read for a minute ------------------------------------------------------------

  /** The four weighted lists of a minute are the representatives of its requests' measures. */
  ghost predicate MinuteValues(a: Origin<multiset<real>>, rows: seq<Request>, minute: int) {
    && a.latencies == multiset(Image(Centroid, Measured(Raw(OfLatency), rows, [minute])))
    && a.ttlb == multiset(Image(Centroid, Measured(Raw(OfTtlb), rows, [minute])))
    && a.overhead == multiset(Image(Centroid, Measured(Raw(OfOverhead), rows, [minute])))
    && a.sizes == multiset(Image(Centroid, Measured(Raw(OfSize), rows, [minute])))
  }

  lemma ListSketched(m: Measure, rows: seq<Request>, minute: int)
    ensures multiset(Expand(Sketch.Sketch(Pick(m)(SummaryOf(rows, minute))))) == multiset(Image(Centroid, Measured(Raw(m), rows, [minute])))
  {
    SummariesKeep(m);
    ListExact(Summaries(m), Raw(m), rows, minute);
    SketchExpands(Measured(Raw(m), rows, [minute]));
  }

  lemma SummaryValues(rows: seq<Request>, minute: int)
    ensures MinuteValues(Seen(SummaryOf(rows, minute)), rows, minute)
  {
    ListSketched(OfLatency, rows, minute);
    ListSketched(OfTtlb, rows, minute);
    ListSketched(OfOverhead, rows, minute);
    ListSketched(OfSize, rows, minute);
  }

  /** However the rows were cut into batches, a reader finds a minute exactly if one of its requests has a time to
      first byte, and finds there the true counts and the representatives of the true values. */
  lemma MinutesRead(batches: seq<seq<Request>>, minute: int)
    ensures var rows, read := Flat(batches), ReadSummaries(batches);
            && (minute in read <==> exists r :: r in rows && Timed(r, minute))
            && (minute in read ==> MinuteCounts(read[minute], rows, minute) && MinuteValues(read[minute], rows, minute))
  {
    var rows := Flat(batches);
    OriginBatches(batches, rows);
    SummaryKeys(rows, minute);
    if minute in ReadSummaries(batches) {
      SummaryCounts(rows, minute);
      SummaryValues(rows, minute);
      assert ReadSummaries(batches)[minute] == Seen(SummaryOf(rows, minute));
    }
  }

  // ---- Dimensions ---------------------------------------------------------------------------

  /** The requests of a minute that count under a value: by status if there is one, by url, pop and edge only with a
      time to first byte, by origin address only with a status. */
  predicate Placed(r: Request, k: Dimension) {
    && r.minute == Some(k.minute)
    && ((k.name == "status" && r.originStatus.Some?
         && k.tag == Code(if r.originStatus.value < 100 || r.originStatus.value > 599 then -1 else r.originStatus.value))
        || (k.name == "url" && Timed(r, k.minute) && r.url != "" && k.tag == Word(r.url))
        || (k.name == "pop" && Timed(r, k.minute) && r.pop != "" && k.tag == Word(r.pop))
        || (k.name == "edge" && Timed(r, k.minute) && r.edge.Some? && k.tag == Word(if r.edge.value then "true" else "false"))
        || (k.name == "oip" && r.originStatus.Some? && r.originIp != "" && k.tag == Word(r.originIp)))
  }

  /** What one place adds to a counter. */
  function PlaceInt(h: Acc -> int, minute: int, p: Place, k: Dimension): int {
    if p.counts && k == Dimension(minute, p.name, p.tag) then h(p.delta) else 0
  }

  lemma PlaceTotal(h: Acc -> int, minute: int, p: Place, k: Dimension)
    requires h(NoLists()) == 0
    ensures h(Total(AddLists, NoLists(), PlaceIn(minute, p), k)) == PlaceInt(h, minute, p, k)
  {
    OriginListsMonoid();
    if p.counts {
      TotalOne(AddLists, NoLists(), Contribution(Dimension(minute, p.name, p.tag), p.delta), k);
    }
  }

  lemma IntConcat(h: Acc -> int, a: seq<Contribution<Dimension, Acc>>, b: seq<Contribution<Dimension, Acc>>, k: Dimension)
    requires forall x, y :: AddsInt(AddLists, h, x, y)
    ensures h(Total(AddLists, NoLists(), a + b, k)) == h(Total(AddLists, NoLists(), a, k)) + h(Total(AddLists, NoLists(), b, k))
  {
    OriginListsMonoid();
    TotalConcat(AddLists, NoLists(), a, b, k);
    assert AddsInt(AddLists, h, Total(AddLists, NoLists(), a, k), Total(AddLists, NoLists(), b, k));
  }

  lemma PlacesInt(h: Acc -> int, minute: int, r: Request, k: Dimension)
    requires h(NoLists()) == 0 && forall x, y :: AddsInt(AddLists, h, x, y)
    ensures h(Total(AddLists, NoLists(), PlacesIn(minute, r), k))
         == PlaceInt(h, minute, StatusPlace(r), k) + PlaceInt(h, minute, UrlPlace(r), k) + PlaceInt(h, minute, PopPlace(r), k)
            + PlaceInt(h, minute, EdgePlace(r), k) + PlaceInt(h, minute, AddressPlace(r), k)
  {
    var a, b, c, d, e := PlaceIn(minute, StatusPlace(r)), PlaceIn(minute, UrlPlace(r)), PlaceIn(minute, PopPlace(r)),
                         PlaceIn(minute, EdgePlace(r)), PlaceIn(minute, AddressPlace(r));
    IntConcat(h, a + b + c + d, e, k);
    IntConcat(h, a + b + c, d, k);
    IntConcat(h, a + b, c, k);
    IntConcat(h, a, b, k);
    PlaceTotal(h, minute, StatusPlace(r), k);
    PlaceTotal(h, minute, UrlPlace(r), k);
    PlaceTotal(h, minute, PopPlace(r), k);
    PlaceTotal(h, minute, EdgePlace(r), k);
    PlaceTotal(h, minute, AddressPlace(r), k);
  }

  /** At most one place of a request has the key, and which one its fields tell. */
  lemma OnePlace(r: Request, k: Dimension)
    requires r.minute == Some(k.minute)
    ensures var at := (p: Place) => p.counts && k == Dimension(k.minute, p.name, p.tag);
            Placed(r, k) <==> at(StatusPlace(r)) || at(UrlPlace(r)) || at(PopPlace(r)) || at(EdgePlace(r)) || at(AddressPlace(r))
  {
    assert r.edge.Some? && r.edge.value ==> EdgeWord(r) == "true";
    assert r.edge.Some? && !r.edge.value ==> EdgeWord(r) == "false";
  }

  lemma PlacedCounts(h: Acc -> int, r: Request, k: Dimension)
    requires h(NoLists()) == 0 && forall x, y :: AddsInt(AddLists, h, x, y)
    ensures h(Total(AddLists, NoLists(), DimensionPart(r), k))
         == if Placed(r, k) then h(if k.name == "status" then StatusDelta(r) else DimensionDelta(r)) else 0
  {
    if r.minute.Some? {
      PlacesInt(h, r.minute.value, r, k);
      if r.minute.value == k.minute {
        OnePlace(r, k);
      }
    }
  }

  lemma DimensionInt(h: Acc -> int, f: Request -> int, rows: seq<Request>, k: Dimension)
    requires h(NoLists()) == 0 && forall x, y :: AddsInt(AddLists, h, x, y)
    requires forall r :: f(r) == if Placed(r, k) then h(if k.name == "status" then StatusDelta(r) else DimensionDelta(r)) else 0
    ensures h(Total(AddLists, NoLists(), All(DimensionPart, rows), k)) == SumInt(rows, f)
  {
    OriginListsMonoid();
    forall r ensures h(Total(AddLists, NoLists(), DimensionPart(r), k)) == f(r) {
      PlacedCounts(h, r, k);
    }
    TotalInt(DimensionPart, AddLists, NoLists(), h, f, rows, k);
  }

  /** The counters under a value, over any rows. Bytes are not summed by status. */
  ghost predicate ValueCounts<L>(a: Origin<L>, rows: seq<Request>, k: Dimension) {
    && a.requests == Number(rows, (r: Request) => Placed(r, k))
    && a.errors == Number(rows, (r: Request) => Placed(r, k) && ServerError(r))
    && a.bytes == SumInt(rows, (r: Request) => if Placed(r, k) && k.name != "status" then BytesOf(r) else 0)
  }

  lemma DimensionRequests(rows: seq<Request>, k: Dimension)
    ensures Total(AddLists, NoLists(), All(DimensionPart, rows), k).requests == Number(rows, (r: Request) => Placed(r, k))
  {
    var p := (r: Request) => Placed(r, k);
    var f := (r: Request) => if p(r) then 1 else 0;
    DimensionInt((a: Acc) => a.requests, f, rows, k);
    NumberIsSum(rows, p, f);
  }

  lemma DimensionErrors(rows: seq<Request>, k: Dimension)
    ensures Total(AddLists, NoLists(), All(DimensionPart, rows), k).errors
         == Number(rows, (r: Request) => Placed(r, k) && ServerError(r))
  {
    var p := (r: Request) => Placed(r, k) && ServerError(r);
    var f := (r: Request) => if p(r) then 1 else 0;
    DimensionInt((a: Acc) => a.errors, f, rows, k);
    NumberIsSum(rows, p, f);
  }

  lemma DimensionBytes(rows: seq<Request>, k: Dimension)
    ensures Total(AddLists, NoLists(), All(DimensionPart, rows), k).bytes
         == SumInt(rows, (r: Request) => if Placed(r, k) && k.name != "status" then BytesOf(r) else 0)
  {
    DimensionInt((a: Acc) => a.bytes, (r: Request) => if Placed(r, k) && k.name != "status" then BytesOf(r) else 0, rows, k);
  }

  lemma PlaceKeys(r: Request, k: Dimension)
    ensures k in Keyed.Keys(DimensionPart(r)) <==> Placed(r, k)
  {
    if r.minute.Some? {
      var m := r.minute.value;
      var a, b, c, d, e := PlaceIn(m, StatusPlace(r)), PlaceIn(m, UrlPlace(r)), PlaceIn(m, PopPlace(r)),
                           PlaceIn(m, EdgePlace(r)), PlaceIn(m, AddressPlace(r));
      KeysConcat(a + b + c + d, e);
      KeysConcat(a + b + c, d);
      KeysConcat(a + b, c);
      KeysConcat(a, b);
      KeyOfPlace(m, StatusPlace(r), k);
      KeyOfPlace(m, UrlPlace(r), k);
      KeyOfPlace(m, PopPlace(r), k);
      KeyOfPlace(m, EdgePlace(r), k);
      KeyOfPlace(m, AddressPlace(r), k);
      if m == k.minute {
        OnePlace(r, k);
      }
    }
  }

  lemma KeyOfPlace(minute: int, p: Place, k: Dimension)
    ensures k in Keyed.Keys(PlaceIn(minute, p)) <==> p.counts && k == Dimension(minute, p.name, p.tag)
  {
    if p.counts {
      assert PlaceIn(minute, p)[0].key == Dimension(minute, p.name, p.tag);
    }
  }

  /** However the rows were cut into batches, a reader finds a dimension value exactly if a request counts there, and
      finds the true counts. */
  lemma ValuesRead(batches: seq<seq<Request>>, k: Dimension)
    ensures var rows, read := Flat(batches), ReadDimensions(batches);
            && (k in read <==> exists r :: r in rows && Placed(r, k))
            && (k in read ==> ValueCounts(read[k], rows, k))
  {
    var rows := Flat(batches);
    OriginBatches(batches, rows);
    AllKeys(DimensionPart, rows, k);
    forall r ensures k in Keyed.Keys(DimensionPart(r)) <==> Placed(r, k) {
      PlaceKeys(r, k);
    }
    DimensionRequests(rows, k);
    DimensionErrors(rows, k);
    DimensionBytes(rows, k);
  }
}
