/** What the origin tables hold (backend/high_scale/origin.py): counters and log-histogram sketches, and how readers
    merge them. */
module OriginStore {
  import opened Keyed
  import opened Sorting
  import opened Sketch
  import opened Projections

  /** `_origin_summary_row` and `_origin_dimension_row`: every list becomes a sketch. (What a dimension row leaves
      out is empty in its accumulator.) */
  ghost function Sketched(o: Acc): Origin<Histogram> {
    Origin(o.requests, o.misses, o.passes, o.errors, o.statuses, o.bytes,
           Sketch.Sketch(o.latencies), Sketch.Sketch(o.ttlb), Sketch.Sketch(o.overhead), Sketch.Sketch(o.sizes))
  }

  /** What a reader of weighted values sees in a row: each centroid as often as its weight says. */
  ghost function Expanded(o: Origin<Histogram>): Origin<multiset<real>> {
    Origin(o.requests, o.misses, o.passes, o.errors, o.statuses, o.bytes,
           multiset(Expand(o.latencies)), multiset(Expand(o.ttlb)), multiset(Expand(o.overhead)), multiset(Expand(o.sizes)))
  }

  ghost function Seen(o: Acc): Origin<multiset<real>> { Expanded(Sketched(o)) }

  /** Readers add counters and pool weighted values. */
  function Pool(a: Origin<multiset<real>>, b: Origin<multiset<real>>): Origin<multiset<real>> {
    Origin(a.requests + b.requests, a.misses + b.misses, a.passes + b.passes, a.errors + b.errors,
           a.statuses + b.statuses, a.bytes + b.bytes,
           a.latencies + b.latencies, a.ttlb + b.ttlb, a.overhead + b.overhead, a.sizes + b.sizes)
  }

  function Empty(): Origin<multiset<real>> {
    Origin(0, 0, 0, 0, 0, 0, multiset{}, multiset{}, multiset{}, multiset{})
  }

  lemma PoolMonoid()
    ensures Monoid(Pool, Empty()) && Commutative(Pool)
  {
    forall x, y, z ensures Associates(Pool, x, y, z) {
      assert x.latencies + y.latencies + z.latencies == x.latencies + (y.latencies + z.latencies);
      assert x.ttlb + y.ttlb + z.ttlb == x.ttlb + (y.ttlb + z.ttlb);
      assert x.overhead + y.overhead + z.overhead == x.overhead + (y.overhead + z.overhead);
      assert x.sizes + y.sizes + z.sizes == x.sizes + (y.sizes + z.sizes);
    }
    forall x ensures Neutral(Pool, Empty(), x) {
      assert x.latencies + multiset{} == x.latencies && multiset{} + x.latencies == x.latencies;
      assert x.ttlb + multiset{} == x.ttlb && multiset{} + x.ttlb == x.ttlb;
      assert x.overhead + multiset{} == x.overhead && multiset{} + x.overhead == x.overhead;
      assert x.sizes + multiset{} == x.sizes && multiset{} + x.sizes == x.sizes;
    }
    forall x, y ensures Commutes(Pool, x, y) {
      assert x.latencies + y.latencies == y.latencies + x.latencies;
      assert x.ttlb + y.ttlb == y.ttlb + x.ttlb;
      assert x.overhead + y.overhead == y.overhead + x.overhead;
      assert x.sizes + y.sizes == y.sizes + x.sizes;
    }
  }

  /** Sketching loses the values but not the union: pooled sketches are the sketch of the pooled values. */
  lemma SketchConcat(a: seq<real>, b: seq<real>)
    ensures multiset(Expand(Sketch.Sketch(a + b))) == multiset(Expand(Sketch.Sketch(a))) + multiset(Expand(Sketch.Sketch(b)))
  {
    SketchExpands(a);
    SketchExpands(b);
    SketchExpands(a + b);
    ImageConcat(Centroid, a, b);
  }

  lemma NothingSketched()
    ensures multiset(Expand(Sketch.Sketch([]))) == multiset{}
  {
    SketchExpands([]);
  }

  predicate Any(o: Acc) { true }

  lemma SeenAdds(x: Acc, y: Acc)
    ensures Seen(AddLists(x, y)) == Pool(Seen(x), Seen(y))
  {
    SketchConcat(x.latencies, y.latencies);
    SketchConcat(x.ttlb, y.ttlb);
    SketchConcat(x.overhead, y.overhead);
    SketchConcat(x.sizes, y.sizes);
    Fieldwise(Seen(AddLists(x, y)), Seen(x), Seen(y));
  }

  lemma Fieldwise(all: Origin<multiset<real>>, a: Origin<multiset<real>>, b: Origin<multiset<real>>)
    requires all.requests == a.requests + b.requests && all.misses == a.misses + b.misses
    requires all.passes == a.passes + b.passes && all.errors == a.errors + b.errors
    requires all.statuses == a.statuses + b.statuses && all.bytes == a.bytes + b.bytes
    requires all.latencies == a.latencies + b.latencies && all.ttlb == a.ttlb + b.ttlb
    requires all.overhead == a.overhead + b.overhead && all.sizes == a.sizes + b.sizes
    ensures all == Pool(a, b)
  {
  }

  lemma SeenNothing()
    ensures Seen(NoLists()) == Empty()
  {
    NothingSketched();
  }

  lemma SeenRespects()
    ensures Respects(Any, Seen, AddLists, NoLists(), Pool, Empty())
  {
    SeenNothing();
    forall x, y ensures Seen(AddLists(x, y)) == Pool(Seen(x), Seen(y)) {
      SeenAdds(x, y);
    }
  }

  // ---- Batches ------------------------------------------------------------------------------

  /** The rows one batch stores, per minute and per dimension. */
  ghost function StoredSummaries(rows: seq<Request>): map<int, Origin<Histogram>> {
    StoredBy(SummaryPart, AddLists, NoLists(), Sketched, rows)
  }

  ghost function StoredDimensions(rows: seq<Request>): map<Dimension, Origin<Histogram>> {
    StoredBy(DimensionPart, AddLists, NoLists(), Sketched, rows)
  }

  /** What readers make of the rows of several batches: merged key by key. */
  ghost function ReadSummaries(batches: seq<seq<Request>>): map<int, Origin<multiset<real>>> {
    MergeAll(Pool, Image((b: seq<Request>) => Store(Expanded, StoredSummaries(b)), batches))
  }

  ghost function ReadDimensions(batches: seq<seq<Request>>): map<Dimension, Origin<multiset<real>>> {
    MergeAll(Pool, Image((b: seq<Request>) => Store(Expanded, StoredDimensions(b)), batches))
  }

  lemma SeenTwice<K>(f: Request -> seq<Contribution<K, Acc>>, rows: seq<Request>)
    ensures Store(Expanded, StoredBy(f, AddLists, NoLists(), Sketched, rows)) == StoredBy(f, AddLists, NoLists(), Seen, rows)
  {
  }

  /** However the rows are cut into batches and ordered, the sketches and counters read from all batches are
      those a single batch of all rows would have stored: for every minute, and for every dimension. */
  lemma OriginBatches(batches: seq<seq<Request>>, rows: seq<Request>)
    requires multiset(Flat(batches)) == multiset(rows)
    ensures ReadSummaries(batches) == Store(Expanded, StoredSummaries(rows))
    ensures ReadDimensions(batches) == Store(Expanded, StoredDimensions(rows))
  {
    BatchesFor(SummaryPart, batches, rows);
    BatchesFor(DimensionPart, batches, rows);
    assert Image((b: seq<Request>) => Store(Expanded, StoredBy(SummaryPart, AddLists, NoLists(), Sketched, b)), batches)
        == Image((b: seq<Request>) => Store(Expanded, StoredSummaries(b)), batches);
    assert Image((b: seq<Request>) => Store(Expanded, StoredBy(DimensionPart, AddLists, NoLists(), Sketched, b)), batches)
        == Image((b: seq<Request>) => Store(Expanded, StoredDimensions(b)), batches);
  }

  lemma BatchesFor<K>(f: Request -> seq<Contribution<K, Acc>>, batches: seq<seq<Request>>, rows: seq<Request>)
    requires multiset(Flat(batches)) == multiset(rows)
    ensures MergeAll(Pool, Image((b: seq<Request>) => Store(Expanded, StoredBy(f, AddLists, NoLists(), Sketched, b)), batches))
         == Store(Expanded, StoredBy(f, AddLists, NoLists(), Sketched, rows))
  {
    PoolMonoid();
    SeenRespects();
    StoredMerge(f, Any, Seen, AddLists, NoLists(), Pool, Empty(), batches, rows);
    forall i | 0 <= i < |batches|
      ensures Store(Expanded, StoredBy(f, AddLists, NoLists(), Sketched, batches[i])) == StoredBy(f, AddLists, NoLists(), Seen, batches[i])
    {
      SeenTwice(f, batches[i]);
    }
    SeenTwice(f, rows);
    assert Image((b: seq<Request>) => Store(Expanded, StoredBy(f, AddLists, NoLists(), Sketched, b)), batches)
        == Image((b: seq<Request>) => StoredBy(f, AddLists, NoLists(), Seen, b), batches);
  }
}
