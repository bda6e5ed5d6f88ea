/** The origin minute projection (backend/high_scale/origin.py): what a request contributes to which accumulator,
    and the builder's loop. The network and performance projections read the same rows. */
module Projections {
  import opened Keyed
  import opened Sorting
  import opened Text
  import opened Wrappers

  /** A log row as the projections read it: numbers that do not parse are absent, text is stripped. The network
      projection reads `asn` as text only; the performance projection writes a whole number out as well (`asnNumbered`). */
  datatype Request = Request(
    minute: Option<int>,
    ottfb: Option<real>, ttfb: Option<real>, ottlb: Option<real>, elapsed: Option<real>, rtt: Option<real>, ploss: Option<real>,
    originStatus: Option<int>, status: Option<int>, originBytes: Option<int>,
    cache: string, url: string, pop: string, originIp: string, country: string, asn: string, asnNumbered: string, region: string,
    speed: string, bot: string,
    edge: Option<bool>)

  function One(b: bool): int { if b then 1 else 0 }

  function Listed(x: Option<real>): seq<real> { if x.Some? then [x.value] else [] }

  // ---- Accumulators -------------------------------------------------------------------------

  /** `_OriginAccumulator`, its lists kept as `L`. */
  datatype Origin<L> = Origin(requests: int, misses: int, passes: int, errors: int, statuses: int, bytes: int,
                              latencies: L, ttlb: L, overhead: L, sizes: L)

  function AddLists(a: Origin<seq<real>>, b: Origin<seq<real>>): Origin<seq<real>> {
    Origin(a.requests + b.requests, a.misses + b.misses, a.passes + b.passes, a.errors + b.errors,
           a.statuses + b.statuses, a.bytes + b.bytes,
           a.latencies + b.latencies, a.ttlb + b.ttlb, a.overhead + b.overhead, a.sizes + b.sizes)
  }

  function NoLists(): Origin<seq<real>> { Origin(0, 0, 0, 0, 0, 0, [], [], [], []) }

  lemma OriginListsMonoid()
    ensures Monoid(AddLists, NoLists())
  {
    forall x, y, z ensures Associates(AddLists, x, y, z) {
      assert x.latencies + y.latencies + z.latencies == x.latencies + (y.latencies + z.latencies);
      assert x.ttlb + y.ttlb + z.ttlb == x.ttlb + (y.ttlb + z.ttlb);
      assert x.overhead + y.overhead + z.overhead == x.overhead + (y.overhead + z.overhead);
      assert x.sizes + y.sizes + z.sizes == x.sizes + (y.sizes + z.sizes);
    }
    forall x ensures Neutral(AddLists, NoLists(), x) {
      assert x.latencies + [] == x.latencies && [] + x.latencies == x.latencies;
      assert x.ttlb + [] == x.ttlb && [] + x.ttlb == x.ttlb;
      assert x.overhead + [] == x.overhead && [] + x.overhead == x.overhead;
      assert x.sizes + [] == x.sizes && [] + x.sizes == x.sizes;
    }
  }

  // ---- What a request contributes -----------------------------------------------------------

  datatype Tag = Code(status: int) | Word(text: string)

  datatype Dimension = Dimension(minute: int, name: string, tag: Tag)

  type Acc = Origin<seq<real>>

  /** `_origin_latency_us`: the origin's own time to first byte, or else the request's in microseconds. */
  function Latency(r: Request): Option<real> {
    if r.ottfb.Some? then r.ottfb else if r.ttfb.Some? then Some(r.ttfb.value * 1000000.0) else None
  }

  function Size(r: Request): Option<int> {
    if r.originBytes.Some? && r.originBytes.value >= 0 then r.originBytes else None
  }

  predicate Failed(status: Option<int>) { status.Some? && 500 <= status.value < 600 }

  function Overhead(r: Request): seq<real> {
    if r.ottlb.Some? && r.elapsed.Some? then [r.elapsed.value - r.ottlb.value] else []
  }

  function Sizes(r: Request): seq<real> { if Size(r).Some? then [Size(r).value as real] else [] }

  function Bytes(r: Request): int { if Size(r).Some? then Size(r).value else 0 }

  function SummaryDelta(r: Request, latency: real): Acc {
    Origin(1, One(StartsWith(Lower(r.cache), "miss")), One(StartsWith(Lower(r.cache), "pass")), One(Failed(r.originStatus)),
           One(r.originStatus.Some?), Bytes(r), [latency], Listed(r.ottlb), Overhead(r), Sizes(r))
  }

  function DimensionDelta(r: Request): Acc {
    NoLists().(requests := 1, errors := One(Failed(r.originStatus)), bytes := Bytes(r), latencies := Listed(Latency(r)))
  }

  function StatusDelta(r: Request): Acc { NoLists().(requests := 1, errors := One(Failed(r.originStatus))) }

  function SummaryPart(r: Request): seq<Contribution<int, Acc>> {
    if r.minute.Some? && Latency(r).Some? then [Contribution(r.minute.value, SummaryDelta(r, Latency(r).value))] else []
  }

  function StatusCode(r: Request): int {
    if r.originStatus.Some? && 100 <= r.originStatus.value <= 599 then r.originStatus.value else -1
  }

  function EdgeWord(r: Request): string { if r.edge == Some(true) then "true" else "false" }

  /** Whether a request counts under a dimension, and under which tag. */
  datatype Place = Place(name: string, counts: bool, tag: Tag, delta: Acc)

  function StatusPlace(r: Request): Place { Place("status", r.originStatus.Some?, Code(StatusCode(r)), StatusDelta(r)) }

  function UrlPlace(r: Request): Place { Place("url", Latency(r).Some? && r.url != "", Word(r.url), DimensionDelta(r)) }

  function PopPlace(r: Request): Place { Place("pop", Latency(r).Some? && r.pop != "", Word(r.pop), DimensionDelta(r)) }

  function EdgePlace(r: Request): Place { Place("edge", Latency(r).Some? && r.edge.Some?, Word(EdgeWord(r)), DimensionDelta(r)) }

  function AddressPlace(r: Request): Place {
    Place("oip", r.originIp != "" && r.originStatus.Some?, Word(r.originIp), DimensionDelta(r))
  }

  function PlaceIn(minute: int, p: Place): seq<Contribution<Dimension, Acc>> {
    if p.counts then [Contribution(Dimension(minute, p.name, p.tag), p.delta)] else []
  }

  function PlacesIn(minute: int, r: Request): seq<Contribution<Dimension, Acc>> {
    PlaceIn(minute, StatusPlace(r)) + PlaceIn(minute, UrlPlace(r)) + PlaceIn(minute, PopPlace(r))
    + PlaceIn(minute, EdgePlace(r)) + PlaceIn(minute, AddressPlace(r))
  }

  function DimensionPart(r: Request): seq<Contribution<Dimension, Acc>> {
    if r.minute.None? then [] else PlacesIn(r.minute.value, r)
  }

  // ---- The builder --------------------------------------------------------------------------

  /** `_add_latency_metrics`. */
  method AddLatencyMetrics(acc: Acc, r: Request, latency: real) returns (now: Acc)
    ensures now == AddLists(acc, SummaryDelta(r, latency))
  {
    now := acc.(requests := acc.requests + 1);
    now := now.(latencies := now.latencies + [latency]);
    var cache := Lower(r.cache);
    if StartsWith(cache, "miss") {
      now := now.(misses := now.misses + 1);
    }
    if StartsWith(cache, "pass") {
      now := now.(passes := now.passes + 1);
    }
    if r.originStatus.Some? {
      if 500 <= r.originStatus.value < 600 {
        now := now.(errors := now.errors + 1);
      }
      now := now.(statuses := now.statuses + 1);
    }
    now := AddSizes(now, r);
  }

  /** Its last part: the bytes, the last byte and the overhead, where they are given. */
  method AddSizes(acc: Acc, r: Request) returns (now: Acc)
    ensures now == acc.(bytes := acc.bytes + Bytes(r), sizes := acc.sizes + Sizes(r), ttlb := acc.ttlb + Listed(r.ottlb),
                        overhead := acc.overhead + Overhead(r))
  {
    now := acc;
    if r.originBytes.Some? && r.originBytes.value >= 0 {
      now := now.(bytes := now.bytes + r.originBytes.value);
      now := now.(sizes := now.sizes + [r.originBytes.value as real]);
    }
    if r.ottlb.Some? {
      now := now.(ttlb := now.ttlb + [r.ottlb.value]);
      if r.elapsed.Some? {
        now := now.(overhead := now.overhead + [r.elapsed.value - r.ottlb.value]);
      }
    }
    assert now.ttlb == acc.ttlb + Listed(r.ottlb) && now.overhead == acc.overhead + Overhead(r);
    assert now.sizes == acc.sizes + Sizes(r);
  }

  /** `_add_dimension_metrics`, after the request was counted. */
  method AddDimensionMetrics(acc: Acc, r: Request) returns (now: Acc)
    ensures now == AddLists(acc, DimensionDelta(r))
  {
    now := acc.(requests := acc.requests + 1);
    var latency := Latency(r);
    if latency.Some? {
      now := now.(latencies := now.latencies + [latency.value]);
    }
    if r.originStatus.Some? && 500 <= r.originStatus.value < 600 {
      now := now.(errors := now.errors + 1);
    }
    if r.originBytes.Some? && r.originBytes.value >= 0 {
      now := now.(bytes := now.bytes + r.originBytes.value);
    }
    assert now.latencies == acc.latencies + Listed(Latency(r));
    assert acc.ttlb + [] == acc.ttlb && acc.overhead + [] == acc.overhead && acc.sizes + [] == acc.sizes;
  }

  method AddStatus(acc: Acc, r: Request) returns (now: Acc)
    requires r.originStatus.Some?
    ensures now == AddLists(acc, StatusDelta(r))
  {
    now := acc.(requests := acc.requests + 1);
    if 500 <= r.originStatus.value < 600 {
      now := now.(errors := now.errors + 1);
    }
    assert acc.latencies + [] == acc.latencies && acc.ttlb + [] == acc.ttlb;
    assert acc.overhead + [] == acc.overhead && acc.sizes + [] == acc.sizes;
  }

  type Dimensions = map<Dimension, Acc>

  predicate Holds(m: Dimensions, cs: seq<Contribution<Dimension, Acc>>) { m == Project(AddLists, NoLists(), cs) }

  lemma HoldsPut(m: Dimensions, cs: seq<Contribution<Dimension, Acc>>, minute: int, p: Place)
    requires Holds(m, cs)
    ensures p.counts ==> var key := Dimension(minute, p.name, p.tag);
                         Holds(m[key := AddLists(Get(m, key, NoLists()), p.delta)], cs + PlaceIn(minute, p))
    ensures !p.counts ==> Holds(m, cs + PlaceIn(minute, p))
  {
    if p.counts {
      PutIs(AddLists, NoLists(), cs, Contribution(Dimension(minute, p.name, p.tag), p.delta), m);
    } else {
      assert cs + PlaceIn(minute, p) == cs;
    }
  }

  /** A dimension's accumulator, updated in place if the row counts there. */
  method Visit(m: Dimensions, r: Request, minute: int, counts: bool, name: string, tag: Tag,
               ghost cs: seq<Contribution<Dimension, Acc>>, ghost p: Place) returns (now: Dimensions)
    requires Holds(m, cs) && p == Place(name, counts, tag, DimensionDelta(r))
    ensures Holds(now, cs + PlaceIn(minute, p))
  {
    now := m;
    HoldsPut(m, cs, minute, p);
    if counts {
      var key := Dimension(minute, name, tag);
      var acc := AddDimensionMetrics(Get(m, key, NoLists()), r);
      now := m[key := acc];
    }
  }

  method VisitStatus(m: Dimensions, r: Request, minute: int, ghost cs: seq<Contribution<Dimension, Acc>>) returns (now: Dimensions)
    requires Holds(m, cs)
    ensures Holds(now, cs + PlaceIn(minute, StatusPlace(r)))
  {
    now := m;
    HoldsPut(m, cs, minute, StatusPlace(r));
    if r.originStatus.Some? {
      var status := r.originStatus.value;
      var key := Dimension(minute, "status", Code(if 100 <= status <= 599 then status else -1));
      var acc := AddStatus(Get(m, key, NoLists()), r);
      now := m[key := acc];
    }
  }

  /** The dimension updates of one row, in the order of the code. */
  method UpdateDimensions(m: Dimensions, r: Request, minute: int, ghost cs: seq<Contribution<Dimension, Acc>>) returns (now: Dimensions)
    requires Holds(m, cs)
    ensures Holds(now, cs + PlacesIn(minute, r))
  {
    var timed := Latency(r).Some?;
    ghost var c0 := cs + PlaceIn(minute, StatusPlace(r));
    ghost var c1 := c0 + PlaceIn(minute, UrlPlace(r));
    ghost var c2 := c1 + PlaceIn(minute, PopPlace(r));
    ghost var c3 := c2 + PlaceIn(minute, EdgePlace(r));
    now := VisitStatus(m, r, minute, cs);
    now := Visit(now, r, minute, timed && r.url != "", "url", Word(r.url), c0, UrlPlace(r));
    now := Visit(now, r, minute, timed && r.pop != "", "pop", Word(r.pop), c1, PopPlace(r));
    now := Visit(now, r, minute, timed && r.edge.Some?, "edge", Word(EdgeWord(r)), c2, EdgePlace(r));
    now := Visit(now, r, minute, r.originIp != "" && r.originStatus.Some?, "oip", Word(r.originIp), c3, AddressPlace(r));
    AllPlaces(cs, minute, r);
  }

  lemma AllPlaces(cs: seq<Contribution<Dimension, Acc>>, minute: int, r: Request)
    ensures cs + PlaceIn(minute, StatusPlace(r)) + PlaceIn(minute, UrlPlace(r)) + PlaceIn(minute, PopPlace(r))
              + PlaceIn(minute, EdgePlace(r)) + PlaceIn(minute, AddressPlace(r)) == cs + PlacesIn(minute, r)
  {
    FiveAfter(cs, PlaceIn(minute, StatusPlace(r)), PlaceIn(minute, UrlPlace(r)), PlaceIn(minute, PopPlace(r)),
              PlaceIn(minute, EdgePlace(r)), PlaceIn(minute, AddressPlace(r)));
  }

  lemma FiveAfter<T>(s: seq<T>, a: seq<T>, b: seq<T>, c: seq<T>, d: seq<T>, e: seq<T>)
    ensures s + a + b + c + d + e == s + (a + b + c + d + e)
  {
  }

  /** The summary update of one row. */
  method UpdateSummaries(m: map<int, Acc>, r: Request, minute: int, ghost cs: seq<Contribution<int, Acc>>) returns (now: map<int, Acc>)
    requires m == Project(AddLists, NoLists(), cs) && r.minute == Some(minute)
    ensures now == Project(AddLists, NoLists(), cs + SummaryPart(r))
  {
    now := m;
    var latency := Latency(r);
    if latency.Some? {
      var acc := AddLatencyMetrics(Get(m, minute, NoLists()), r, latency.value);
      PutIs(AddLists, NoLists(), cs, Contribution(minute, SummaryDelta(r, latency.value)), m);
      now := m[minute := acc];
    } else {
      assert cs + SummaryPart(r) == cs;
    }
  }

  /** `build_origin_projection_rows` up to the shaping of its rows: two dictionaries of accumulators, updated
      row by row. */
  method BuildOrigin(rows: seq<Request>) returns (summaries: map<int, Acc>, dimensions: Dimensions)
    ensures summaries == Project(AddLists, NoLists(), All(SummaryPart, rows))
    ensures dimensions == Project(AddLists, NoLists(), All(DimensionPart, rows))
  {
    summaries, dimensions := map[], map[];
    assert Image(SummaryPart, rows[..0]) == [] && Image(DimensionPart, rows[..0]) == [];
    for i := 0 to |rows|
      invariant summaries == Project(AddLists, NoLists(), All(SummaryPart, rows[..i]))
      invariant dimensions == Project(AddLists, NoLists(), All(DimensionPart, rows[..i]))
    {
      var r := rows[i];
      NextRow(SummaryPart, rows, i);
      NextRow(DimensionPart, rows, i);
      if r.minute.Some? {
        summaries := UpdateSummaries(summaries, r, r.minute.value, All(SummaryPart, rows[..i]));
        dimensions := UpdateDimensions(dimensions, r, r.minute.value, All(DimensionPart, rows[..i]));
      }
    }
    assert rows[..|rows|] == rows;
  }

  // ---- What a summary counts ----------------------------------------------------------------

  function SummaryOf(rows: seq<Request>, minute: int): Acc { Total(AddLists, NoLists(), All(SummaryPart, rows), minute) }

  /** The counters of a summary are counts of its requests. */
  predicate Sound(s: Acc) {
    && s.requests == |s.latencies|
    && 0 <= s.errors <= s.statuses <= s.requests
    && 0 <= s.misses && 0 <= s.passes && s.misses + s.passes <= s.requests
    && |s.overhead| <= |s.ttlb| <= s.requests && |s.sizes| <= s.requests
  }

  lemma SoundAdds(a: Acc, b: Acc)
    requires Sound(a) && Sound(b)
    ensures Sound(AddLists(a, b))
  {
  }

  lemma DeltaSound(r: Request, latency: real)
    ensures Sound(SummaryDelta(r, latency))
  {
    var c := Lower(r.cache);
    assert StartsWith(c, "miss") ==> c[0] == 'm';
    assert StartsWith(c, "pass") ==> c[0] == 'p';
  }

  lemma {:induction false} SoundTotal(cs: seq<Contribution<int, Acc>>, minute: int)
    requires AllGood(Sound, cs)
    ensures Sound(Total(AddLists, NoLists(), cs, minute))
  {
    if cs != [] {
      SoundTotal(cs[..|cs| - 1], minute);
      if cs[|cs| - 1].key == minute {
        SoundAdds(Total(AddLists, NoLists(), cs[..|cs| - 1], minute), cs[|cs| - 1].delta);
      }
    }
  }

  /** Counters of a summary never exceed its requests, over every batch. */
  lemma SummarySound(rows: seq<Request>, minute: int)
    ensures Sound(SummaryOf(rows, minute))
  {
    forall r ensures AllGood(Sound, SummaryPart(r)) {
      if Latency(r).Some? {
        DeltaSound(r, Latency(r).value);
      }
    }
    AllAllGood(Sound, SummaryPart, rows);
    SoundTotal(All(SummaryPart, rows), minute);
  }
}
