/** The network minute projection (backend/high_scale/network.py). */
module NetworkProjection {
  import opened Keyed
  import opened Sorting
  import opened Projections
  import opened Sums
  import opened Wrappers

  /** `_NetworkAccumulator`. */
  datatype Network = Network(requests: int, errors: int, rtts: seq<real>, ttfbs: seq<real>, lossSum: real, lossCount: int)

  datatype Slot = Slot(minute: int, name: string, value: string, speed: string)

  function Add(a: Network, b: Network): Network {
    Network(a.requests + b.requests, a.errors + b.errors, a.rtts + b.rtts, a.ttfbs + b.ttfbs,
            a.lossSum + b.lossSum, a.lossCount + b.lossCount)
  }

  function Nothing(): Network { Network(0, 0, [], [], 0.0, 0) }

  function Positive(x: Option<real>): seq<real> { if x.Some? && x.value > 0.0 then [x.value] else [] }

  function Delta(r: Request): Network {
    Network(1, One(r.status.Some? && r.status.value >= 500), Positive(r.rtt), Positive(r.ttfb),
            if r.ploss.Some? then r.ploss.value else 0.0, One(r.ploss.Some?))
  }

  function At(minute: int, name: string, value: string, speed: string, r: Request): seq<Contribution<Slot, Network>> {
    if value == "" then [] else [Contribution(Slot(minute, name, value, speed), Delta(r))]
  }

  function PartIn(m: int, r: Request): seq<Contribution<Slot, Network>> {
    At(m, "country", r.country, "", r) + At(m, "asn", r.asn, r.speed, r) + At(m, "pop", r.pop, "", r) + At(m, "region", r.region, "", r)
  }

  /** Which accumulators one request updates. The connection speed separates only networks. */
  function Part(r: Request): seq<Contribution<Slot, Network>> { if r.minute.None? then [] else PartIn(r.minute.value, r) }

  // ---- The builder --------------------------------------------------------------------------

  /** `_network_update`. */
  method Update(acc: Network, r: Request) returns (now: Network)
    ensures now == Add(acc, Delta(r))
  {
    now := acc.(requests := acc.requests + 1);
    if r.status.Some? && r.status.value >= 500 {
      now := now.(errors := now.errors + 1);
    }
    if r.rtt.Some? && r.rtt.value > 0.0 {
      now := now.(rtts := now.rtts + [r.rtt.value]);
    }
    if r.ttfb.Some? && r.ttfb.value > 0.0 {
      now := now.(ttfbs := now.ttfbs + [r.ttfb.value]);
    }
    if r.ploss.Some? {
      now := now.(lossSum := now.lossSum + r.ploss.value, lossCount := now.lossCount + 1);
    }
    assert now.rtts == acc.rtts + Positive(r.rtt) && now.ttfbs == acc.ttfbs + Positive(r.ttfb);
  }

  type Slots = map<Slot, Network>

  predicate Holds(m: Slots, cs: seq<Contribution<Slot, Network>>) { m == Project(Add, Nothing(), cs) }

  method Visit(m: Slots, r: Request, minute: int, name: string, value: string, speed: string, ghost cs: seq<Contribution<Slot, Network>>)
      returns (now: Slots)
    requires Holds(m, cs)
    ensures Holds(now, cs + At(minute, name, value, speed, r))
  {
    now := m;
    if value != "" {
      var key := Slot(minute, name, value, speed);
      var acc := Update(Get(m, key, Nothing()), r);
      PutIs(Add, Nothing(), cs, Contribution(key, Delta(r)), m);
      now := m[key := acc];
    } else {
      assert cs + At(minute, name, value, speed, r) == cs;
    }
  }

  method UpdateRow(m: Slots, r: Request, minute: int, ghost cs: seq<Contribution<Slot, Network>>) returns (now: Slots)
    requires Holds(m, cs)
    ensures Holds(now, cs + PartIn(minute, r))
  {
    ghost var c1 := cs + At(minute, "country", r.country, "", r);
    ghost var c2 := c1 + At(minute, "asn", r.asn, r.speed, r);
    ghost var c3 := c2 + At(minute, "pop", r.pop, "", r);
    now := Visit(m, r, minute, "country", r.country, "", cs);
    now := Visit(now, r, minute, "asn", r.asn, r.speed, c1);
    now := Visit(now, r, minute, "pop", r.pop, "", c2);
    now := Visit(now, r, minute, "region", r.region, "", c3);
    AllSlots(cs, minute, r);
  }

  lemma AllSlots(cs: seq<Contribution<Slot, Network>>, m: int, r: Request)
    ensures cs + At(m, "country", r.country, "", r) + At(m, "asn", r.asn, r.speed, r) + At(m, "pop", r.pop, "", r)
              + At(m, "region", r.region, "", r) == cs + PartIn(m, r)
  {
  }

  /** `build_network_projection_rows` up to the shaping of its rows. */
  method BuildNetwork(rows: seq<Request>) returns (m: Slots)
    ensures Holds(m, All(Part, rows))
  {
    m := map[];
    assert Image(Part, rows[..0]) == [];
    for i := 0 to |rows|
      invariant Holds(m, All(Part, rows[..i]))
    {
      var r := rows[i];
      NextRow(Part, rows, i);
      if r.minute.Some? {
        m := UpdateRow(m, r, r.minute.value, All(Part, rows[..i]));
      }
    }
    assert rows[..|rows|] == rows;
  }

  // ---- What is stored -----------------------------------------------------------------------

  /** `_network_dimension_row`, its averaged percentiles aside. */
  datatype Row = Row(requests: int, errors: int, rttCount: int, rttSum: Option<real>, lossSum: Option<real>, lossCount: int)

  function RowOf(a: Network): Row {
    Row(a.requests, a.errors, |a.rtts|, Summed(a.rtts), if a.lossCount > 0 then Some(a.lossSum) else None, a.lossCount)
  }

  function AddRows(a: Row, b: Row): Row {
    Row(a.requests + b.requests, a.errors + b.errors, a.rttCount + b.rttCount, Plus(a.rttSum, b.rttSum),
        Plus(a.lossSum, b.lossSum), a.lossCount + b.lossCount)
  }

  function NoRow(): Row { Row(0, 0, 0, None, None, 0) }

  /** No loss counted, none summed. */
  predicate Tidy(a: Network) { a.lossCount >= 0 && (a.lossCount == 0 ==> a.lossSum == 0.0) }

  lemma RowsMonoid()
    ensures Monoid(AddRows, NoRow()) && Commutative(AddRows)
  {
    forall x, y, z ensures Associates(AddRows, x, y, z) {
    }
    forall x ensures Neutral(AddRows, NoRow(), x) {
    }
    forall x, y ensures Commutes(AddRows, x, y) {
    }
  }

  lemma RowRespects()
    ensures Respects(Tidy, RowOf, Add, Nothing(), AddRows, NoRow())
  {
    forall x, y | Tidy(x) && Tidy(y) ensures Tidy(Add(x, y)) && RowOf(Add(x, y)) == AddRows(RowOf(x), RowOf(y)) {
      SummedConcat(x.rtts, y.rtts);
    }
  }

  function StoredNetwork(rows: seq<Request>): map<Slot, Row> { StoredBy(Part, Add, Nothing(), RowOf, rows) }

  /** However the rows are cut into batches and ordered, adding up the stored counts and sums of all batches
      gives what a single batch of all rows would have stored. */
  lemma NetworkBatches(batches: seq<seq<Request>>, rows: seq<Request>)
    requires multiset(Flat(batches)) == multiset(rows)
    ensures MergeAll(AddRows, Image(StoredNetwork, batches)) == StoredNetwork(rows)
  {
    RowsMonoid();
    RowRespects();
    forall r ensures AllGood(Tidy, Part(r)) {
    }
    StoredMerge(Part, Tidy, RowOf, Add, Nothing(), AddRows, NoRow(), batches, rows);
    assert Image((b: seq<Request>) => StoredBy(Part, Add, Nothing(), RowOf, b), batches) == Image(StoredNetwork, batches);
  }
}
