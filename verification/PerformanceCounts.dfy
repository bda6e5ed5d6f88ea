/** What the performance tables say, in the fields of the log rows alone (backend/high_scale/performance.py). */
module PerformanceCounts {
  import opened Keyed
  import opened Sorting
  import opened Projections
  import opened PerformanceProjection
  import opened Sums
  import opened Wrappers
  import Counting

  // ---- The waterfall ------------------------------------------------------------------------

  /** Requests with both an elapsed time, in microseconds, and a time to first byte, in seconds. */
  predicate Divided(r: Request, minute: int) { r.minute == Some(minute) && r.elapsed.Some? && r.ttfb.Some? }

  /** A time of the origin, in milliseconds; absent is zero. */
  function OriginMs(us: Option<real>): real { match us case None => 0.0 case Some(t) => t / 1000.0 }

  function OrZero(x: real): real { if x < 0.0 then 0.0 else x }

  /** Before the origin answered, beyond the origin's own time to first byte. */
  function EdgeMs(r: Request): real { if r.ttfb.Some? then OrZero(r.ttfb.value * 1000.0 - OriginMs(r.ottfb)) else 0.0 }

  function WaitMs(r: Request): real { OriginMs(r.ottfb) }

  /** From the origin's first byte to its last. */
  function DownloadMs(r: Request): real { OrZero(OriginMs(r.ottlb) - OriginMs(r.ottfb)) }

  /** After both the origin's last byte and the client's first. */
  function ClientMs(r: Request): real {
    if r.elapsed.None? || r.ttfb.None? then 0.0
    else
      var done := if r.ttfb.value * 1000.0 > OriginMs(r.ottlb) then r.ttfb.value * 1000.0 else OriginMs(r.ottlb);
      OrZero(r.elapsed.value / 1000.0 - done)
  }

  lemma WaterfallRow(r: Request, minute: int)
    ensures var a := Total(Add, Nothing(), WaterfallPart(r), minute);
            && a.count == One(Divided(r, minute))
            && a.edge == (if Divided(r, minute) then EdgeMs(r) else 0.0)
            && a.wait == (if Divided(r, minute) then WaitMs(r) else 0.0)
            && a.download == (if Divided(r, minute) then DownloadMs(r) else 0.0)
            && a.client == (if Divided(r, minute) then ClientMs(r) else 0.0)
  {
    AddMonoid();
    if r.minute.Some? && Split(r).Some? {
      TotalOne(Add, Nothing(), Contribution(r.minute.value, Split(r).value), minute);
    }
  }

  /** The reading of the requests of a minute. */
  function During(minute: int, g: Request -> real): Request -> real { (r: Request) => if Divided(r, minute) then g(r) else 0.0 }

  /** The sums of a minute: where the time of its requests went. */
  ghost predicate MinuteSums(a: Waterfall, rows: seq<Request>, minute: int) {
    && a.count == Counting.Number(rows, (r: Request) => Divided(r, minute))
    && a.edge == SumReal(rows, During(minute, EdgeMs))
    && a.wait == SumReal(rows, During(minute, WaitMs))
    && a.download == SumReal(rows, During(minute, DownloadMs))
    && a.client == SumReal(rows, During(minute, ClientMs))
  }

  lemma WaterfallCount(rows: seq<Request>, minute: int)
    ensures Total(Add, Nothing(), All(WaterfallPart, rows), minute).count == Counting.Number(rows, (r: Request) => Divided(r, minute))
  {
    AddMonoid();
    var h, p := (a: Waterfall) => a.count, (r: Request) => Divided(r, minute);
    var f := (r: Request) => One(p(r));
    forall r ensures h(Total(Add, Nothing(), WaterfallPart(r), minute)) == f(r) {
      WaterfallRow(r, minute);
    }
    TotalInt(WaterfallPart, Add, Nothing(), h, f, rows, minute);
    NumberIsSum(rows, p, f);
  }

  lemma SumOfPart(h: Waterfall -> real, g: Request -> real, rows: seq<Request>, minute: int)
    requires h(Nothing()) == 0.0 && forall x, y :: AddsReal(Add, h, x, y)
    requires forall r :: h(Total(Add, Nothing(), WaterfallPart(r), minute)) == During(minute, g)(r)
    ensures h(Total(Add, Nothing(), All(WaterfallPart, rows), minute)) == SumReal(rows, During(minute, g))
  {
    AddMonoid();
    TotalReal(WaterfallPart, Add, Nothing(), h, During(minute, g), rows, minute);
  }

  lemma WaterfallSums(rows: seq<Request>, minute: int)
    ensures MinuteSums(Total(Add, Nothing(), All(WaterfallPart, rows), minute), rows, minute)
  {
    WaterfallCount(rows, minute);
    EdgeSum(rows, minute);
    WaitSum(rows, minute);
    DownloadSum(rows, minute);
    ClientSum(rows, minute);
  }

  lemma EdgeSum(rows: seq<Request>, minute: int)
    ensures Total(Add, Nothing(), All(WaterfallPart, rows), minute).edge == SumReal(rows, During(minute, EdgeMs))
  {
    var h := (a: Waterfall) => a.edge;
    forall r ensures h(Total(Add, Nothing(), WaterfallPart(r), minute)) == During(minute, EdgeMs)(r) {
      WaterfallRow(r, minute);
    }
    SumOfPart(h, EdgeMs, rows, minute);
  }

  lemma WaitSum(rows: seq<Request>, minute: int)
    ensures Total(Add, Nothing(), All(WaterfallPart, rows), minute).wait == SumReal(rows, During(minute, WaitMs))
  {
    var h := (a: Waterfall) => a.wait;
    forall r ensures h(Total(Add, Nothing(), WaterfallPart(r), minute)) == During(minute, WaitMs)(r) {
      WaterfallRow(r, minute);
    }
    SumOfPart(h, WaitMs, rows, minute);
  }

  lemma DownloadSum(rows: seq<Request>, minute: int)
    ensures Total(Add, Nothing(), All(WaterfallPart, rows), minute).download == SumReal(rows, During(minute, DownloadMs))
  {
    var h := (a: Waterfall) => a.download;
    forall r ensures h(Total(Add, Nothing(), WaterfallPart(r), minute)) == During(minute, DownloadMs)(r) {
      WaterfallRow(r, minute);
    }
    SumOfPart(h, DownloadMs, rows, minute);
  }

  lemma ClientSum(rows: seq<Request>, minute: int)
    ensures Total(Add, Nothing(), All(WaterfallPart, rows), minute).client == SumReal(rows, During(minute, ClientMs))
  {
    var h := (a: Waterfall) => a.client;
    forall r ensures h(Total(Add, Nothing(), WaterfallPart(r), minute)) == During(minute, ClientMs)(r) {
      WaterfallRow(r, minute);
    }
    SumOfPart(h, ClientMs, rows, minute);
  }

  /** However the rows were cut into batches, a reader finds a minute exactly if one of its requests has both times,
      and finds where the time of all such requests went. */
  lemma WaterfallRead(batches: seq<seq<Request>>, minute: int)
    ensures var rows, read := Flat(batches), MergeAll(Add, Batches(WaterfallPart, Add, Nothing(), batches));
            && (minute in read <==> exists r :: r in rows && Divided(r, minute))
            && (minute in read ==> MinuteSums(read[minute], rows, minute))
  {
    var rows := Flat(batches);
    WaterfallBatches(batches, rows);
    WaterfallSums(rows, minute);
    AllKeys(WaterfallPart, rows, minute);
    forall r ensures minute in Keys(WaterfallPart(r)) <==> Divided(r, minute) {
      if Divided(r, minute) {
        assert WaterfallPart(r)[0].key == minute;
      }
    }
  }

  // ---- Dimensions ---------------------------------------------------------------------------

  predicate Placed(r: Request, k: Slot) {
    && r.minute == Some(k.minute) && k.value != ""
    && ((k.name == "url" && k.value == r.url) || (k.name == "asn" && k.value == r.asnNumbered) || (k.name == "bot" && k.value == r.bot))
  }

  lemma ServedMonoid()
    ensures Monoid(AddServed, NoneServed())
  {
    forall x, y, z ensures Associates(AddServed, x, y, z) {
      assert x.latencies + y.latencies + z.latencies == x.latencies + (y.latencies + z.latencies);
    }
    forall x ensures Neutral(AddServed, NoneServed(), x) {
      assert x.latencies + [] == x.latencies && [] + x.latencies == x.latencies;
    }
  }

  lemma AtTotal(r: Request, m: int, name: string, value: string, k: Slot)
    ensures Total(AddServed, NoneServed(), At(r, m, name, value), k)
         == if value != "" && k == Slot(m, name, value) then ServedDelta(r) else NoneServed()
  {
    ServedMonoid();
    if value != "" {
      TotalOne(AddServed, NoneServed(), Contribution(Slot(m, name, value), ServedDelta(r)), k);
    }
  }

  lemma ServedTotal(r: Request, k: Slot)
    ensures Total(AddServed, NoneServed(), ServedPart(r), k) == if Placed(r, k) then ServedDelta(r) else NoneServed()
  {
    if r.minute.Some? {
      var m := r.minute.value;
      var a, b, c := At(r, m, "url", r.url), At(r, m, "asn", r.asnNumbered), At(r, m, "bot", r.bot);
      ServedMonoid();
      TotalConcat(AddServed, NoneServed(), a + b, c, k);
      TotalConcat(AddServed, NoneServed(), a, b, k);
      AtTotal(r, m, "url", r.url, k);
      AtTotal(r, m, "asn", r.asnNumbered, k);
      AtTotal(r, m, "bot", r.bot, k);
      assert Neutral(AddServed, NoneServed(), ServedDelta(r)) && Neutral(AddServed, NoneServed(), NoneServed());
    }
  }

  lemma ServedKeys(r: Request, k: Slot)
    ensures k in Keys(ServedPart(r)) <==> Placed(r, k)
  {
    if r.minute.Some? {
      var m := r.minute.value;
      var a, b, c := At(r, m, "url", r.url), At(r, m, "asn", r.asnNumbered), At(r, m, "bot", r.bot);
      KeysConcat(a + b, c);
      KeysConcat(a, b);
      AtKeys(r, m, "url", r.url, k);
      AtKeys(r, m, "asn", r.asnNumbered, k);
      AtKeys(r, m, "bot", r.bot, k);
    }
  }

  lemma AtKeys(r: Request, m: int, name: string, value: string, k: Slot)
    ensures k in Keys(At(r, m, name, value)) <==> value != "" && k == Slot(m, name, value)
  {
    if value != "" {
      assert At(r, m, name, value)[0].key == Slot(m, name, value);
    }
  }

  /** Requests under a value, how many of them have an elapsed time, and the sum of those times, absent without one. */
  ghost predicate SlotCounts(a: Row, rows: seq<Request>, k: Slot) {
    && a.requests == Counting.Number(rows, (r: Request) => Placed(r, k))
    && a.count == Counting.Number(rows, (r: Request) => Placed(r, k) && r.elapsed.Some?)
    && (a.sum.Some? <==> a.count > 0)
    && (a.sum.Some? ==> a.sum.value == SumReal(rows, (r: Request) => if Placed(r, k) && r.elapsed.Some? then r.elapsed.value else 0.0))
  }

  lemma ServedInt(h: Served -> int, p: Request -> bool, rows: seq<Request>, k: Slot)
    requires h(NoneServed()) == 0 && forall x, y :: AddsInt(AddServed, h, x, y)
    requires forall r :: h(Total(AddServed, NoneServed(), ServedPart(r), k)) == One(p(r))
    ensures h(Total(AddServed, NoneServed(), All(ServedPart, rows), k)) == Counting.Number(rows, p)
  {
    ServedMonoid();
    var f := (r: Request) => One(p(r));
    TotalInt(ServedPart, AddServed, NoneServed(), h, f, rows, k);
    NumberIsSum(rows, p, f);
  }

  lemma ServedRequests(rows: seq<Request>, k: Slot)
    ensures Total(AddServed, NoneServed(), All(ServedPart, rows), k).requests == Counting.Number(rows, (r: Request) => Placed(r, k))
  {
    var h, p := (a: Served) => a.requests, (r: Request) => Placed(r, k);
    forall r ensures h(Total(AddServed, NoneServed(), ServedPart(r), k)) == One(p(r)) {
      ServedTotal(r, k);
    }
    ServedInt(h, p, rows, k);
  }

  lemma ServedCount(rows: seq<Request>, k: Slot)
    ensures |Total(AddServed, NoneServed(), All(ServedPart, rows), k).latencies|
         == Counting.Number(rows, (r: Request) => Placed(r, k) && r.elapsed.Some?)
  {
    var h, p := (a: Served) => |a.latencies|, (r: Request) => Placed(r, k) && r.elapsed.Some?;
    forall r ensures h(Total(AddServed, NoneServed(), ServedPart(r), k)) == One(p(r)) {
      ServedTotal(r, k);
    }
    ServedInt(h, p, rows, k);
  }

  lemma ServedSum(rows: seq<Request>, k: Slot)
    ensures SumOf(Total(AddServed, NoneServed(), All(ServedPart, rows), k).latencies)
         == SumReal(rows, (r: Request) => if Placed(r, k) && r.elapsed.Some? then r.elapsed.value else 0.0)
  {
    ServedMonoid();
    var h, f := (a: Served) => SumOf(a.latencies), (r: Request) => if Placed(r, k) && r.elapsed.Some? then r.elapsed.value else 0.0;
    forall x, y ensures AddsReal(AddServed, h, x, y) {
      SumConcat(x.latencies, y.latencies);
    }
    forall r ensures h(Total(AddServed, NoneServed(), ServedPart(r), k)) == f(r) {
      ServedTotal(r, k);
      assert Listed(r.elapsed) != [] ==> SumOf(Listed(r.elapsed)[..0]) == 0.0;
    }
    TotalReal(ServedPart, AddServed, NoneServed(), h, f, rows, k);
  }

  /** However the rows were cut into batches, a reader finds a value exactly if a request counts there, and finds the
      true counts and the true sum. */
  lemma SlotsRead(batches: seq<seq<Request>>, k: Slot)
    ensures var rows, read := Flat(batches), MergeAll(AddRows, Image(StoredDimensions, batches));
            && (k in read <==> exists r :: r in rows && Placed(r, k))
            && (k in read ==> SlotCounts(read[k], rows, k))
  {
    var rows := Flat(batches);
    DimensionBatches(batches, rows);
    AllKeys(ServedPart, rows, k);
    forall r ensures k in Keys(ServedPart(r)) <==> Placed(r, k) {
      ServedKeys(r, k);
    }
    ServedRequests(rows, k);
    ServedCount(rows, k);
    ServedSum(rows, k);
  }
}
