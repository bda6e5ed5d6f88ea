/** The performance minute projection (backend/high_scale/performance.py): waterfall sums, request dimensions
    and the scatter sample. */
module PerformanceProjection {
  import opened Keyed
  import opened Sorting
  import opened Projections
  import opened Sums
  import opened Wrappers

  // ---- The waterfall ------------------------------------------------------------------------

  datatype Waterfall = Waterfall(count: int, edge: real, wait: real, download: real, client: real)

  function Add(a: Waterfall, b: Waterfall): Waterfall {
    Waterfall(a.count + b.count, a.edge + b.edge, a.wait + b.wait, a.download + b.download, a.client + b.client)
  }

  function Nothing(): Waterfall { Waterfall(0, 0.0, 0.0, 0.0, 0.0) }

  function Max(a: real, b: real): real { if a >= b then a else b }

  function Millis(us: Option<real>): real { if us.Some? then us.value / 1000.0 else 0.0 }

  /** The parts of one request's time: it needs both a time to first byte and an elapsed time. */
  function Split(r: Request): Option<Waterfall> {
    if r.elapsed.None? || r.ttfb.None? then None
    else
      var elapsed, ttfb, ottfb, ottlb := r.elapsed.value / 1000.0, r.ttfb.value * 1000.0, Millis(r.ottfb), Millis(r.ottlb);
      Some(Waterfall(1, Max(0.0, ttfb - ottfb), ottfb, Max(0.0, ottlb - ottfb), Max(0.0, elapsed - Max(ottlb, ttfb))))
  }

  function WaterfallPart(r: Request): seq<Contribution<int, Waterfall>> {
    if r.minute.Some? && Split(r).Some? then [Contribution(r.minute.value, Split(r).value)] else []
  }

  lemma AddMonoid()
    ensures Monoid(Add, Nothing()) && Commutative(Add)
  {
    forall x, y, z ensures Associates(Add, x, y, z) {
    }
    forall x ensures Neutral(Add, Nothing(), x) {
    }
    forall x, y ensures Commutes(Add, x, y) {
    }
  }

  /** The stored sums of all batches, however cut and ordered, add up to the sums of all rows. */
  lemma WaterfallBatches(batches: seq<seq<Request>>, rows: seq<Request>)
    requires multiset(Flat(batches)) == multiset(rows)
    ensures MergeAll(Add, Batches(WaterfallPart, Add, Nothing(), batches)) == Project(Add, Nothing(), All(WaterfallPart, rows))
  {
    AddMonoid();
    BatchesMerge(WaterfallPart, Add, Nothing(), batches, rows);
  }

  // ---- Dimensions ---------------------------------------------------------------------------

  /** `_Accumulator`. */
  datatype Served = Served(requests: int, latencies: seq<real>)

  datatype Slot = Slot(minute: int, name: string, value: string)

  function AddServed(a: Served, b: Served): Served { Served(a.requests + b.requests, a.latencies + b.latencies) }

  function NoneServed(): Served { Served(0, []) }

  function ServedDelta(r: Request): Served { Served(1, Listed(r.elapsed)) }

  function At(r: Request, minute: int, name: string, value: string): seq<Contribution<Slot, Served>> {
    if value == "" then [] else [Contribution(Slot(minute, name, value), ServedDelta(r))]
  }

  function ServedIn(m: int, r: Request): seq<Contribution<Slot, Served>> {
    At(r, m, "url", r.url) + At(r, m, "asn", r.asnNumbered) + At(r, m, "bot", r.bot)
  }

  /** Every request with a url, a network or a bot name counts there, its latency only if it has one. */
  function ServedPart(r: Request): seq<Contribution<Slot, Served>> { if r.minute.None? then [] else ServedIn(r.minute.value, r) }

  /** `_dimension_row`, its averaged percentiles aside. */
  datatype Row = Row(requests: int, count: int, sum: Option<real>)

  function RowOf(a: Served): Row { Row(a.requests, |a.latencies|, Summed(a.latencies)) }

  function AddRows(a: Row, b: Row): Row { Row(a.requests + b.requests, a.count + b.count, Plus(a.sum, b.sum)) }

  function NoRow(): Row { Row(0, 0, None) }

  predicate Any(a: Served) { true }

  lemma RowsMonoid()
    ensures Monoid(AddRows, NoRow()) && Commutative(AddRows)
  {
    forall x, y, z ensures Associates(AddRows, x, y, z) {
    }
    forall x ensures Neutral(AddRows, NoRow(), x) {
    }
    forall x, y ensures Commutes(AddRows, x, y) {
    }
  }

  lemma RowRespects()
    ensures Respects(Any, RowOf, AddServed, NoneServed(), AddRows, NoRow())
  {
    forall x, y ensures RowOf(AddServed(x, y)) == AddRows(RowOf(x), RowOf(y)) {
      SummedConcat(x.latencies, y.latencies);
    }
  }

  function StoredDimensions(rows: seq<Request>): map<Slot, Row> { StoredBy(ServedPart, AddServed, NoneServed(), RowOf, rows) }

  /** However the rows are cut into batches and ordered, adding up the stored counts and sums of all batches
      gives what a single batch of all rows would have stored. */
  lemma DimensionBatches(batches: seq<seq<Request>>, rows: seq<Request>)
    requires multiset(Flat(batches)) == multiset(rows)
    ensures MergeAll(AddRows, Image(StoredDimensions, batches)) == StoredDimensions(rows)
  {
    RowsMonoid();
    RowRespects();
    forall r ensures AllGood(Any, ServedPart(r)) {
    }
    StoredMerge(ServedPart, Any, RowOf, AddServed, NoneServed(), AddRows, NoRow(), batches, rows);
    assert Image((b: seq<Request>) => StoredBy(ServedPart, AddServed, NoneServed(), RowOf, b), batches) == Image(StoredDimensions, batches);
  }

  // ---- Candidates for the scatter sample ----------------------------------------------------

  const SAMPLE: nat := 300

  datatype Candidate = Candidate(key: nat, index: nat, minute: int, origin: real, edge: real, cache: string)

  /** Both times are present and the time spent at the edge is not negative. */
  predicate Eligible(r: Request) {
    r.minute.Some? && r.elapsed.Some? && r.ttfb.Some? && r.ttfb.value * 1000.0 <= r.elapsed.value / 1000.0
  }

  /** The candidate a row gives; `key` is the hash of the row and its index. */
  function CandidateOf(key: nat, index: nat, r: Request): Candidate
    requires Eligible(r)
  {
    Candidate(key, index, r.minute.value, r.ttfb.value * 1000.0, r.elapsed.value / 1000.0 - r.ttfb.value * 1000.0, r.cache)
  }

  function Candidates(keyOf: (Request, nat) -> nat, rows: seq<Request>, n: nat): seq<Candidate>
    requires n <= |rows|
    decreases n
  {
    if n == 0 then []
    else Candidates(keyOf, rows, n - 1) + if Eligible(rows[n - 1]) then [CandidateOf(keyOf(rows[n - 1], n - 1), n - 1, rows[n - 1])] else []
  }

  /** What a candidate tells of its row: the minute, the milliseconds to the first byte, and those from then to the end,
      which are not negative. */
  predicate Tells(c: Candidate, r: Request) {
    && r.minute.Some? && r.minute.value == c.minute
    && r.ttfb.Some? && c.origin == 1000.0 * r.ttfb.value
    && r.elapsed.Some? && 1000.0 * (c.origin + c.edge) == r.elapsed.value
    && c.edge >= 0.0 && c.cache == r.cache
  }

  /** A candidate comes from exactly one row, which it tells of, and every row with both times and none negative at the
      edge gives one; they come in row order. */
  lemma {:induction false} CandidatesExact(keyOf: (Request, nat) -> nat, rows: seq<Request>, n: nat)
    requires n <= |rows|
    ensures forall c :: c in Candidates(keyOf, rows, n) <==>
              c.index < n && Tells(c, rows[c.index]) && c.key == keyOf(rows[c.index], c.index)
    ensures forall i, j :: 0 <= i < j < |Candidates(keyOf, rows, n)| ==>
              Candidates(keyOf, rows, n)[i].index < Candidates(keyOf, rows, n)[j].index
    decreases n
  {
    if n > 0 {
      CandidatesExact(keyOf, rows, n - 1);
      var before := Candidates(keyOf, rows, n - 1);
      forall i | 0 <= i < |before| ensures before[i].index < n - 1 {
        assert before[i] in before;
      }
    }
  }

  // ---- The builder --------------------------------------------------------------------------

  /** `_add_waterfall_and_scatter`: the sums of the row's minute, and the row's candidate. */
  method AddWaterfallAndScatter(m: map<int, Waterfall>, candidates: seq<Candidate>, keyOf: (Request, nat) -> nat, r: Request, index: nat,
                                minute: int, ghost cs: seq<Contribution<int, Waterfall>>)
      returns (now: map<int, Waterfall>, all: seq<Candidate>)
    requires m == Project(Add, Nothing(), cs) && r.minute == Some(minute)
    ensures now == Project(Add, Nothing(), cs + WaterfallPart(r))
    ensures all == candidates + if Eligible(r) then [CandidateOf(keyOf(r, index), index, r)] else []
  {
    now, all := m, candidates;
    if r.elapsed.None? || r.ttfb.None? {
      assert cs + WaterfallPart(r) == cs && candidates + [] == candidates;
      return;
    }
    var elapsed, ttfb := r.elapsed.value / 1000.0, r.ttfb.value * 1000.0;
    var ottfb, ottlb := Millis(r.ottfb), Millis(r.ottlb);
    var sums := Get(m, minute, Nothing());
    sums := sums.(count := sums.count + 1);
    sums := sums.(edge := sums.edge + Max(0.0, ttfb - ottfb));
    sums := sums.(wait := sums.wait + ottfb);
    sums := sums.(download := sums.download + Max(0.0, ottlb - ottfb));
    sums := sums.(client := sums.client + Max(0.0, elapsed - Max(ottlb, ttfb)));
    PutIs(Add, Nothing(), cs, Contribution(minute, Split(r).value), m);
    now := m[minute := sums];
    var edge := elapsed - ttfb;
    if edge < 0.0 {
      assert candidates + [] == candidates;
      return;
    }
    all := candidates + [Candidate(keyOf(r, index), index, minute, ttfb, edge, r.cache)];
  }

  type Slots = map<Slot, Served>

  predicate Holds(m: Slots, cs: seq<Contribution<Slot, Served>>) { m == Project(AddServed, NoneServed(), cs) }

  method Visit(m: Slots, r: Request, minute: int, name: string, value: string, ghost cs: seq<Contribution<Slot, Served>>) returns (now: Slots)
    requires Holds(m, cs)
    ensures Holds(now, cs + At(r, minute, name, value))
  {
    now := m;
    if value != "" {
      var key := Slot(minute, name, value);
      var acc := Get(m, key, NoneServed());
      acc := acc.(requests := acc.requests + 1);
      if r.elapsed.Some? {
        acc := acc.(latencies := acc.latencies + [r.elapsed.value]);
      }
      assert acc == AddServed(Get(m, key, NoneServed()), ServedDelta(r)) by {
        assert acc.latencies == Get(m, key, NoneServed()).latencies + Listed(r.elapsed);
      }
      PutIs(AddServed, NoneServed(), cs, Contribution(key, ServedDelta(r)), m);
      now := m[key := acc];
    } else {
      assert cs + At(r, minute, name, value) == cs;
    }
  }

  method UpdateDimensions(m: Slots, r: Request, minute: int, ghost cs: seq<Contribution<Slot, Served>>) returns (now: Slots)
    requires Holds(m, cs)
    ensures Holds(now, cs + ServedIn(minute, r))
  {
    ghost var c1 := cs + At(r, minute, "url", r.url);
    ghost var c2 := c1 + At(r, minute, "asn", r.asnNumbered);
    now := Visit(m, r, minute, "url", r.url, cs);
    now := Visit(now, r, minute, "asn", r.asnNumbered, c1);
    now := Visit(now, r, minute, "bot", r.bot, c2);
    AllSlots(cs, minute, r);
  }

  lemma AllSlots(cs: seq<Contribution<Slot, Served>>, m: int, r: Request)
    ensures cs + At(r, m, "url", r.url) + At(r, m, "asn", r.asnNumbered) + At(r, m, "bot", r.bot) == cs + ServedIn(m, r)
  {
  }

  /** `build_performance_projection_rows` up to the shaping of its rows: one loop fills the two dictionaries and
      the list of candidates. */
  method BuildPerformance(keyOf: (Request, nat) -> nat, rows: seq<Request>)
      returns (waterfalls: map<int, Waterfall>, dimensions: Slots, candidates: seq<Candidate>)
    ensures waterfalls == Project(Add, Nothing(), All(WaterfallPart, rows))
    ensures Holds(dimensions, All(ServedPart, rows))
    ensures candidates == Candidates(keyOf, rows, |rows|)
  {
    waterfalls, dimensions, candidates := map[], map[], [];
    assert Image(WaterfallPart, rows[..0]) == [] && Image(ServedPart, rows[..0]) == [];
    for i := 0 to |rows|
      invariant waterfalls == Project(Add, Nothing(), All(WaterfallPart, rows[..i]))
      invariant Holds(dimensions, All(ServedPart, rows[..i]))
      invariant candidates == Candidates(keyOf, rows, i)
    {
      var r := rows[i];
      NextRow(WaterfallPart, rows, i);
      NextRow(ServedPart, rows, i);
      if r.minute.Some? {
        waterfalls, candidates := AddWaterfallAndScatter(waterfalls, candidates, keyOf, r, i, r.minute.value, All(WaterfallPart, rows[..i]));
        dimensions := UpdateDimensions(dimensions, r, r.minute.value, All(ServedPart, rows[..i]));
      }
    }
    assert rows[..|rows|] == rows;
  }

  // ---- The scatter sample -------------------------------------------------------------------

  /** `heapq.nsmallest` by key, then index. */
  predicate KeyIndexLe(a: Candidate, b: Candidate) { a.key < b.key || (a.key == b.key && a.index <= b.index) }

  function KeyOf(c: Candidate): nat { c.key }

  predicate NatLe(a: nat, b: nat) { a <= b }

  /** The sample of each batch, as stored. */
  function Samples(batches: seq<seq<Candidate>>): seq<seq<Candidate>> { Tops(KeyIndexLe, SAMPLE, batches) }

  predicate DistinctKeys(cs: seq<Candidate>) { forall i, j :: 0 <= i < j < |cs| ==> cs[i].key != cs[j].key }

  lemma KeyOrder()
    ensures TotalOrder(NatLe)
  {
    forall x, y ensures Compares(NatLe, x, y) && Separates(NatLe, x, y) {
    }
    forall x, y, z ensures Chains(NatLe, x, y, z) {
    }
  }

  lemma SampleByKey(cs: seq<Candidate>)
    requires DistinctKeys(cs)
    ensures Sort(KeyIndexLe, cs) == Sort(By(KeyOf, NatLe), cs)
  {
    forall i, j | 0 <= i < j < |cs| ensures KeyIndexLe(cs[i], cs[j]) == By(KeyOf, NatLe)(cs[i], cs[j]) {
    }
    SortAgree(KeyIndexLe, By(KeyOf, NatLe), cs);
  }

  lemma {:induction false} PartDistinct(batches: seq<seq<Candidate>>, i: nat)
    requires DistinctKeys(Flat(batches)) && i < |batches|
    ensures DistinctKeys(batches[i])
  {
    var rest := Flat(batches[1..]);
    assert Flat(batches) == batches[0] + rest;
    if i == 0 {
      assert forall k :: 0 <= k < |batches[0]| ==> Flat(batches)[k] == batches[0][k];
    } else {
      assert forall k :: 0 <= k < |rest| ==> Flat(batches)[|batches[0]| + k] == rest[k];
      PartDistinct(batches[1..], i - 1);
    }
  }

  lemma SamplesByKey(batches: seq<seq<Candidate>>)
    requires DistinctKeys(Flat(batches))
    ensures Samples(batches) == Tops(By(KeyOf, NatLe), SAMPLE, batches)
  {
    forall i | 0 <= i < |batches| ensures Sort(KeyIndexLe, batches[i]) == Sort(By(KeyOf, NatLe), batches[i]) {
      PartDistinct(batches, i);
      SampleByKey(batches[i]);
    }
  }

  /** With distinct sample keys, the 300 smallest of the stored samples are the 300 smallest of all
      candidates, however they were batched. */
  lemma ScatterExact(batches: seq<seq<Candidate>>)
    requires DistinctKeys(Flat(batches))
    ensures Take(SAMPLE, Sort(By(KeyOf, NatLe), Flat(Samples(batches)))) == Take(300, Sort(By(KeyOf, NatLe), Flat(batches)))
  {
    KeyOrder();
    SamplesByKey(batches);
    TopByKey(KeyOf, NatLe, batches, SAMPLE);
  }
}
