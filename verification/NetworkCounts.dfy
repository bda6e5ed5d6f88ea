/** What the network table says, in the fields of the log rows alone (backend/high_scale/network.py). */
module NetworkCounts {
  import opened Keyed
  import opened Sorting
  import opened Projections
  import opened NetworkProjection
  import opened Sums
  import opened Wrappers
  import Counting

  /** The requests that count under a value: of four fields, where they are not empty. The connection speed
      separates networks only. */
  predicate Placed(r: Request, k: Slot) {
    && r.minute == Some(k.minute) && k.value != ""
    && ((k.name == "country" && k.value == r.country && k.speed == "")
        || (k.name == "asn" && k.value == r.asn && k.speed == r.speed)
        || (k.name == "pop" && k.value == r.pop && k.speed == "")
        || (k.name == "region" && k.value == r.region && k.speed == ""))
  }

  predicate Anyhow(r: Request) { true }

  predicate Erred(r: Request) { r.status.Some? && r.status.value >= 500 }

  predicate RoundTrip(r: Request) { r.rtt.Some? && r.rtt.value > 0.0 }

  predicate Lossy(r: Request) { r.ploss.Some? }

  function RttOf(r: Request): real { if RoundTrip(r) then r.rtt.value else 0.0 }

  function LossOf(r: Request): real { if r.ploss.Some? then r.ploss.value else 0.0 }

  /** Of the requests under a value, those that satisfy `p`; and their readings. */
  function Those(k: Slot, p: Request -> bool): Request -> bool { (r: Request) => Placed(r, k) && p(r) }

  function Theirs(k: Slot, g: Request -> real): Request -> real { (r: Request) => if Placed(r, k) then g(r) else 0.0 }

  lemma AddMonoid()
    ensures Monoid(Add, Nothing())
  {
    forall x, y, z ensures Associates(Add, x, y, z) {
      assert x.rtts + y.rtts + z.rtts == x.rtts + (y.rtts + z.rtts);
      assert x.ttfbs + y.ttfbs + z.ttfbs == x.ttfbs + (y.ttfbs + z.ttfbs);
    }
    forall x ensures Neutral(Add, Nothing(), x) {
      assert x.rtts + [] == x.rtts && [] + x.rtts == x.rtts && x.ttfbs + [] == x.ttfbs && [] + x.ttfbs == x.ttfbs;
    }
  }

  lemma AtTotal(m: int, name: string, value: string, speed: string, r: Request, k: Slot)
    ensures Total(Add, Nothing(), At(m, name, value, speed, r), k)
         == if value != "" && k == Slot(m, name, value, speed) then Delta(r) else Nothing()
  {
    AddMonoid();
    if value != "" {
      TotalOne(Add, Nothing(), Contribution(Slot(m, name, value, speed), Delta(r)), k);
    }
  }

  lemma PartTotal(r: Request, k: Slot)
    ensures Total(Add, Nothing(), Part(r), k) == if Placed(r, k) then Delta(r) else Nothing()
  {
    if r.minute.Some? {
      var m := r.minute.value;
      var a, b, c, d := At(m, "country", r.country, "", r), At(m, "asn", r.asn, r.speed, r), At(m, "pop", r.pop, "", r),
                        At(m, "region", r.region, "", r);
      AddMonoid();
      TotalConcat(Add, Nothing(), a + b + c, d, k);
      TotalConcat(Add, Nothing(), a + b, c, k);
      TotalConcat(Add, Nothing(), a, b, k);
      AtTotal(m, "country", r.country, "", r, k);
      AtTotal(m, "asn", r.asn, r.speed, r, k);
      AtTotal(m, "pop", r.pop, "", r, k);
      AtTotal(m, "region", r.region, "", r, k);
      assert Neutral(Add, Nothing(), Delta(r)) && Neutral(Add, Nothing(), Nothing());
    }
  }

  lemma AtKeys(m: int, name: string, value: string, speed: string, r: Request, k: Slot)
    ensures k in Keys(At(m, name, value, speed, r)) <==> value != "" && k == Slot(m, name, value, speed)
  {
    if value != "" {
      assert At(m, name, value, speed, r)[0].key == Slot(m, name, value, speed);
    }
  }

  lemma PartKeys(r: Request, k: Slot)
    ensures k in Keys(Part(r)) <==> Placed(r, k)
  {
    if r.minute.Some? {
      var m := r.minute.value;
      var a, b, c, d := At(m, "country", r.country, "", r), At(m, "asn", r.asn, r.speed, r), At(m, "pop", r.pop, "", r),
                        At(m, "region", r.region, "", r);
      KeysConcat(a + b + c, d);
      KeysConcat(a + b, c);
      KeysConcat(a, b);
      AtKeys(m, "country", r.country, "", r, k);
      AtKeys(m, "asn", r.asn, r.speed, r, k);
      AtKeys(m, "pop", r.pop, "", r, k);
      AtKeys(m, "region", r.region, "", r, k);
    }
  }

  /** A counter under a value, over any rows. */
  lemma CountedInt(h: Network -> int, p: Request -> bool, rows: seq<Request>, k: Slot)
    requires h(Nothing()) == 0 && forall x, y :: AddsInt(Add, h, x, y)
    requires forall r :: h(Delta(r)) == One(p(r))
    ensures h(Total(Add, Nothing(), All(Part, rows), k)) == Counting.Number(rows, Those(k, p))
  {
    AddMonoid();
    var f := (r: Request) => if Placed(r, k) && p(r) then 1 else 0;
    forall r ensures h(Total(Add, Nothing(), Part(r), k)) == f(r) {
      PartTotal(r, k);
      assert h(Delta(r)) == One(p(r));
    }
    TotalInt(Part, Add, Nothing(), h, f, rows, k);
    NumberIsSum(rows, Those(k, p), f);
  }

  lemma CountedReal(h: Network -> real, g: Request -> real, rows: seq<Request>, k: Slot)
    requires h(Nothing()) == 0.0 && forall x, y :: AddsReal(Add, h, x, y)
    requires forall r :: h(Delta(r)) == g(r)
    ensures h(Total(Add, Nothing(), All(Part, rows), k)) == SumReal(rows, Theirs(k, g))
  {
    AddMonoid();
    forall r ensures h(Total(Add, Nothing(), Part(r), k)) == Theirs(k, g)(r) {
      PartTotal(r, k);
    }
    TotalReal(Part, Add, Nothing(), h, Theirs(k, g), rows, k);
  }

  lemma RoundTrips(rows: seq<Request>, k: Slot)
    ensures |Total(Add, Nothing(), All(Part, rows), k).rtts| == Counting.Number(rows, Those(k, RoundTrip))
    ensures SumOf(Total(Add, Nothing(), All(Part, rows), k).rtts) == SumReal(rows, Theirs(k, RttOf))
  {
    var n := (a: Network) => |a.rtts|;
    CountedInt(n, RoundTrip, rows, k);
    var h := (a: Network) => SumOf(a.rtts);
    forall x, y ensures AddsReal(Add, h, x, y) {
      SumConcat(x.rtts, y.rtts);
    }
    forall r ensures h(Delta(r)) == RttOf(r) {
      assert Positive(r.rtt) != [] ==> SumOf(Positive(r.rtt)[..0]) == 0.0;
    }
    CountedReal(h, RttOf, rows, k);
  }

  lemma Counters(rows: seq<Request>, k: Slot)
    ensures var a := Total(Add, Nothing(), All(Part, rows), k);
            && a.requests == Counting.Number(rows, Those(k, Anyhow)) && a.errors == Counting.Number(rows, Those(k, Erred))
            && a.lossCount == Counting.Number(rows, Those(k, Lossy)) && a.lossSum == SumReal(rows, Theirs(k, LossOf))
  {
    CountedInt((a: Network) => a.requests, Anyhow, rows, k);
    CountedInt((a: Network) => a.errors, Erred, rows, k);
    CountedInt((a: Network) => a.lossCount, Lossy, rows, k);
    CountedReal((a: Network) => a.lossSum, LossOf, rows, k);
  }

  /** The stored numbers under a value: counts of its requests, and sums that are absent without a summand. */
  ghost predicate SlotCounts(a: Row, rows: seq<Request>, k: Slot) {
    && a.requests == Counting.Number(rows, Those(k, Anyhow))
    && a.errors == Counting.Number(rows, Those(k, Erred))
    && a.rttCount == Counting.Number(rows, Those(k, RoundTrip))
    && a.lossCount == Counting.Number(rows, Those(k, Lossy))
    && a.rttSum == (if a.rttCount > 0 then Some(SumReal(rows, Theirs(k, RttOf))) else None)
    && a.lossSum == (if a.lossCount > 0 then Some(SumReal(rows, Theirs(k, LossOf))) else None)
  }

  /** However the rows were cut into batches, a reader finds a value exactly if a request counts there, and finds the
      true counts and sums. */
  lemma SlotsRead(batches: seq<seq<Request>>, k: Slot)
    ensures var rows, read := Flat(batches), MergeAll(AddRows, Image(StoredNetwork, batches));
            && (k in read <==> exists r :: r in rows && Placed(r, k))
            && (k in read ==> SlotCounts(read[k], rows, k))
  {
    var rows := Flat(batches);
    NetworkBatches(batches, rows);
    AllKeys(Part, rows, k);
    forall r ensures k in Keys(Part(r)) <==> Placed(r, k) {
      PartKeys(r, k);
    }
    Counters(rows, k);
    RoundTrips(rows, k);
  }
}
