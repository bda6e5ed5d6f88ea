/** The dashboard's fast path (backend/high_scale/dashboard.py, aggregate_query.py): totals, time series and
    top values read from per-minute aggregates and patched with the facts exactly at the end bound, against
    the same answers computed from the facts. Times are milliseconds. */
module Dashboard {
  import opened Counting
  import opened Rounding

  // ---- The per-minute aggregates ------------------------------------------------------------

  /** A value of a log row: null, text, another scalar or a container; `falsy` as Python tests it. */
  datatype Cell = Null | Text(text: string) | Scalar(text: string, falsy: bool) | Container(text: string, falsy: bool)

  /** An event: its time, the row it came from, and the row's own dictionary of custom fields. */
  datatype Fact = Fact(ts: int, cells: map<string, Cell>, nested: map<string, string>)

  datatype Key = Key(dimension: string, value: string, bucket: int)

  /** `str(row.get(field, ""))`, where the client's address goes by another name. */
  function Value(f: Fact, dimension: string): string {
    var field := if dimension == "client_ip" then "ip" else dimension;
    if field !in f.cells then ""
    else if f.cells[field].Null? then "None"
    else f.cells[field].text
  }

  function Minute(t: int): int { Floor(60000, t) }

  /** The minute of a time: the last multiple of 60000 milliseconds up to it. */
  lemma MinuteIs(t: int)
    ensures Minute(t) <= t < Minute(t) + 60000 && Minute(t) % 60000 == 0
  {
    DivBounds(60000, t);
  }

  /** What the table counts a row under: the text of the field, nothing if the row lacks it, and the word None if it is
      null; the address of the client is the row's `ip`. */
  lemma ValueIs(f: Fact, d: string)
    ensures d != "client_ip" && d !in f.cells ==> Value(f, d) == ""
    ensures d != "client_ip" && d in f.cells ==> Value(f, d) == if f.cells[d] == Null then "None" else f.cells[d].text
    ensures Value(f, "client_ip") == Value(f, "ip")
  {
  }

  function KeyOf(f: Fact, dimension: string): Key { Key(dimension, Value(f, dimension), Minute(f.ts)) }

  function KeysOfOne(f: Fact, dims: seq<string>): seq<Key> {
    seq(|dims|, i requires 0 <= i < |dims| => KeyOf(f, dims[i]))
  }

  function KeysOf(facts: seq<Fact>, dims: seq<string>): seq<Key> {
    if facts == [] then [] else KeysOf(facts[..|facts| - 1], dims) + KeysOfOne(facts[|facts| - 1], dims)
  }

  /** `compute_dimension_counts`. */
  method CountDimensions(facts: seq<Fact>, dims: seq<string>) returns (rows: seq<Entry<Key>>)
    ensures rows == Tally(KeysOf(facts, dims))
  {
    rows := [];
    for i := 0 to |facts|
      invariant rows == Tally(KeysOf(facts[..i], dims))
    {
      rows := CountOne(facts[i], dims, rows, KeysOf(facts[..i], dims));
      assert facts[..i + 1][..i] == facts[..i];
    }
    assert facts[..|facts|] == facts;
  }

  method CountOne(f: Fact, dims: seq<string>, before: seq<Entry<Key>>, ghost keys: seq<Key>) returns (rows: seq<Entry<Key>>)
    requires before == Tally(keys)
    ensures rows == Tally(keys + KeysOfOne(f, dims))
  {
    rows := before;
    ghost var all := KeysOfOne(f, dims);
    assert keys + all[..0] == keys;
    for j := 0 to |dims|
      invariant rows == Tally(keys + all[..j])
    {
      TallyNext(keys, all, j);
      rows := Bump(rows, KeyOf(f, dims[j]), 1);
    }
    assert all[..|dims|] == all;
  }

  lemma TallyNext(keys: seq<Key>, all: seq<Key>, j: nat)
    requires j < |all|
    ensures Tally(keys + all[..j + 1]) == Bump(Tally(keys + all[..j]), all[j], 1)
  {
    assert keys + all[..j + 1] == keys + all[..j] + [all[j]];
    TallyAppend(keys + all[..j], all[j]);
  }

  lemma TallyAppend(keys: seq<Key>, key: Key)
    ensures Tally(keys + [key]) == Bump(Tally(keys), key, 1)
  {
    assert (keys + [key])[..|keys|] == keys;
  }

  predicate Once(dims: seq<string>, d: string) {
    d in dims && forall i, j :: 0 <= i < j < |dims| && dims[i] == d ==> dims[j] != d
  }

  /** The dimension is listed once, neither missing nor repeated. */
  lemma {:induction false} OnceIs(dims: seq<string>, d: string)
    ensures Once(dims, d) <==> Number(dims, (x: string) => x == d) == 1
  {
    if dims != [] {
      OnceIs(dims[1..], d);
      assert dims == [dims[0]] + dims[1..];
      NumberNone(dims[1..], (x: string) => x == d);
      if dims[0] == d {
        OnceFirst(dims, d);
      } else {
        OnceLater(dims, d);
      }
    }
  }

  lemma OnceFirst(dims: seq<string>, d: string)
    requires dims != [] && dims[0] == d
    ensures Once(dims, d) <==> d !in dims[1..]
  {
    if d in dims[1..] {
      var k :| 0 <= k < |dims[1..]| && dims[1..][k] == d;
      assert dims[0] == d && dims[k + 1] == d;
    } else {
      assert forall k :: 0 < k < |dims| ==> dims[k] == dims[1..][k - 1];
    }
  }

  lemma OnceLater(dims: seq<string>, d: string)
    requires dims != [] && dims[0] != d
    ensures Once(dims, d) <==> Once(dims[1..], d)
  {
    assert forall k :: 0 < k < |dims| ==> dims[k] == dims[1..][k - 1];
  }

  lemma {:induction false} OneKeyPerFact(f: Fact, dims: seq<string>, d: string, q: (string, int) -> bool)
    ensures d !in dims ==> Number(KeysOfOne(f, dims), (k: Key) => k.dimension == d && q(k.value, k.bucket)) == 0
    ensures Once(dims, d) ==> Number(KeysOfOne(f, dims), (k: Key) => k.dimension == d && q(k.value, k.bucket))
                              == if q(Value(f, d), Minute(f.ts)) then 1 else 0
    decreases |dims|
  {
    if dims != [] {
      OneKeyPerFact(f, dims[1..], d, q);
      assert KeysOfOne(f, dims)[1..] == KeysOfOne(f, dims[1..]);
      assert dims == [dims[0]] + dims[1..];
    }
  }

  lemma {:induction false} KeysNumber(facts: seq<Fact>, dims: seq<string>, d: string, q: (string, int) -> bool)
    requires Once(dims, d)
    ensures Number(KeysOf(facts, dims), (k: Key) => k.dimension == d && q(k.value, k.bucket))
         == Number(facts, (f: Fact) => q(Value(f, d), Minute(f.ts)))
  {
    if facts != [] {
      var front, last := facts[..|facts| - 1], facts[|facts| - 1];
      var p := (k: Key) => k.dimension == d && q(k.value, k.bucket);
      var p' := (f: Fact) => q(Value(f, d), Minute(f.ts));
      KeysNumber(front, dims, d, q);
      NumberConcat(KeysOf(front, dims), KeysOfOne(last, dims), p);
      OneKeyPerFact(last, dims, d, q);
      assert facts == front + [last];
      NumberConcat(front, [last], p');
    }
  }

  /** The table: what every published batch contributed. */
  function Published(batches: seq<seq<Fact>>, dims: seq<string>): seq<Entry<Key>> {
    if batches == [] then [] else Tally(KeysOf(batches[0], dims)) + Published(batches[1..], dims)
  }

  function Facts(batches: seq<seq<Fact>>): seq<Fact> {
    if batches == [] then [] else batches[0] + Facts(batches[1..])
  }

  /** Summing one dimension of the table under any condition on value and minute counts facts. */
  lemma {:induction false} TableSum(batches: seq<seq<Fact>>, dims: seq<string>, d: string, q: (string, int) -> bool)
    requires Once(dims, d)
    ensures Sum(Published(batches, dims), (k: Key) => k.dimension == d && q(k.value, k.bucket))
         == Number(Facts(batches), (f: Fact) => q(Value(f, d), Minute(f.ts)))
  {
    if batches != [] {
      var p := (k: Key) => k.dimension == d && q(k.value, k.bucket);
      var p' := (f: Fact) => q(Value(f, d), Minute(f.ts));
      TableSum(batches[1..], dims, d, q);
      TallySum(KeysOf(batches[0], dims), p);
      KeysNumber(batches[0], dims, d, q);
      SumConcat(Tally(KeysOf(batches[0], dims)), Published(batches[1..], dims), p);
      NumberConcat(batches[0], Facts(batches[1..]), p');
    }
  }

  // ---- Totals -------------------------------------------------------------------------------

  datatype Bound = Open | At(time: int)

  predicate WholeMinute(t: int) { Minute(t) == t }

  /** The window of the total and of the top values: bounded only if both bounds are given. */
  predicate InTotal(start: Bound, end: Bound, bucket: int) { start.At? && end.At? ==> start.time <= bucket < end.time }

  /** The closed window of the fact path, likewise. */
  predicate Asked(start: Bound, end: Bound, ts: int) { start.At? && end.At? ==> start.time <= ts <= end.time }

  /** The facts read for the end bound. */
  predicate AtEnd(start: Bound, end: Bound, ok: bool, ts: int) {
    ok && end.At? && !(start.At? && end.time < start.time) && ts == end.time
  }

  /** Bounds that reach the fast path: if both are given they are whole minutes. */
  predicate Fast(start: Bound, end: Bound) { start.At? && end.At? ==> WholeMinute(start.time) && WholeMinute(end.time) }

  function BaseTotal(rows: seq<Entry<Key>>, start: Bound, end: Bound): nat {
    Sum(rows, (k: Key) => k.dimension == "url" && InTotal(start, end, k.bucket))
  }

  /** `_exact_end_fact_rows`: the facts at the end bound; a failed query reads as none. */
  function EndFacts(facts: seq<Fact>, start: Bound, end: Bound, ok: bool): seq<Fact> {
    if !ok || end.Open? || (start.At? && end.time < start.time) then [] else AtTime(facts, end.time)
  }

  function AtTime(facts: seq<Fact>, t: int): seq<Fact> {
    if facts == [] then []
    else if facts[0].ts == t then [facts[0]] + AtTime(facts[1..], t)
    else AtTime(facts[1..], t)
  }

  lemma {:induction false} AtTimeNumber(facts: seq<Fact>, t: int, p: Fact -> bool)
    ensures Number(AtTime(facts, t), p) == Number(facts, (f: Fact) => f.ts == t && p(f))
    ensures forall f :: f in AtTime(facts, t) ==> f.ts == t && f in facts
  {
    if facts != [] {
      AtTimeNumber(facts[1..], t, p);
      assert facts == [facts[0]] + facts[1..];
      if facts[0].ts == t {
        assert ([facts[0]] + AtTime(facts[1..], t))[1..] == AtTime(facts[1..], t);
      }
    }
  }

  lemma {:induction false} NumberAll<T>(s: seq<T>)
    ensures Number(s, (x: T) => true) == |s|
  {
    if s != [] {
      NumberAll(s[1..]);
    }
  }

  function ProjectionTotal(rows: seq<Entry<Key>>, facts: seq<Fact>, start: Bound, end: Bound, ok: bool): nat {
    BaseTotal(rows, start, end) + |EndFacts(facts, start, end, ok)|
  }

  /** The count the fact path makes. */
  function FactTotal(facts: seq<Fact>, start: Bound, end: Bound): nat {
    Number(facts, (f: Fact) => Asked(start, end, f.ts))
  }

  lemma EndFactsNumber(facts: seq<Fact>, start: Bound, end: Bound, ok: bool, p: Fact -> bool)
    ensures Number(EndFacts(facts, start, end, ok), p) == Number(facts, (f: Fact) => AtEnd(start, end, ok, f.ts) && p(f))
    ensures forall f :: f in EndFacts(facts, start, end, ok) ==> f in facts && AtEnd(start, end, ok, f.ts)
  {
    if !ok || end.Open? || (start.At? && end.time < start.time) {
      NumberNone(facts, (f: Fact) => AtEnd(start, end, ok, f.ts) && p(f));
    } else {
      AtTimeNumber(facts, end.time, p);
      NumberSame(facts, (f: Fact) => f.ts == end.time && p(f), (f: Fact) => AtEnd(start, end, ok, f.ts) && p(f));
    }
  }

  lemma EndFactsLength(facts: seq<Fact>, start: Bound, end: Bound, ok: bool)
    ensures |EndFacts(facts, start, end, ok)| == Number(facts, (f: Fact) => AtEnd(start, end, ok, f.ts))
  {
    var all := (f: Fact) => true;
    EndFactsNumber(facts, start, end, ok, all);
    NumberAll(EndFacts(facts, start, end, ok));
    NumberSame(facts, (f: Fact) => AtEnd(start, end, ok, f.ts) && all(f), (f: Fact) => AtEnd(start, end, ok, f.ts));
  }

  lemma BaseCount(batches: seq<seq<Fact>>, dims: seq<string>, start: Bound, end: Bound)
    requires Once(dims, "url")
    ensures BaseTotal(Published(batches, dims), start, end)
         == Number(Facts(batches), (f: Fact) => InTotal(start, end, Minute(f.ts)))
  {
    var q := (v: string, b: int) => InTotal(start, end, b);
    TableSum(batches, dims, "url", q);
    SumSame(Published(batches, dims), (k: Key) => k.dimension == "url" && InTotal(start, end, k.bucket),
            (k: Key) => k.dimension == "url" && q(k.value, k.bucket));
    NumberSame(Facts(batches), (f: Fact) => q(Value(f, "url"), Minute(f.ts)),
               (f: Fact) => InTotal(start, end, Minute(f.ts)));
  }

  /** In a whole-minute window a fact is asked for exactly if the table counts it or it lies at the end. */
  lemma AskedSplits(start: Bound, end: Bound, ts: int)
    requires start.At? && end.At? && Fast(start, end)
    ensures Asked(start, end, ts) <==> InTotal(start, end, Minute(ts)) || AtEnd(start, end, true, ts)
    ensures !(InTotal(start, end, Minute(ts)) && AtEnd(start, end, true, ts))
  {
    FloorBetween(60000, ts, start.time, end.time);
  }

  lemma {:induction false} SumSame<K>(t: seq<Entry<K>>, p: K -> bool, q: K -> bool)
    requires forall k :: p(k) == q(k)
    ensures Sum(t, p) == Sum(t, q)
  {
    if t != [] {
      SumSame(t[1..], p, q);
    }
  }

  /** No fact at the end is left out or counted twice, whatever the facts. */
  predicate EndCounted(start: Bound, end: Bound, ok: bool) {
    end.Open? || (start.At? <==> ok) || (start.At? && end.time < start.time)
  }

  /** The fast total is the fact path's count exactly if the end facts are counted once, or there are none.
      With both bounds that takes a successful end query; with an open start it takes a failed one. */
  lemma TotalExactIff(batches: seq<seq<Fact>>, dims: seq<string>, start: Bound, end: Bound, ok: bool)
    requires Once(dims, "url") && Fast(start, end)
    ensures ProjectionTotal(Published(batches, dims), Facts(batches), start, end, ok) == FactTotal(Facts(batches), start, end)
       <==> EndCounted(start, end, ok) || forall f :: f in Facts(batches) ==> f.ts != end.time
  {
    var facts := Facts(batches);
    BaseCount(batches, dims, start, end);
    EndFactsLength(facts, start, end, ok);
    NumberNone(facts, (f: Fact) => AtEnd(start, end, ok, f.ts));
    if start.At? && end.At? {
      BoundedTotal(facts, start, end);
      NumberNone(facts, (f: Fact) => AtEnd(start, end, true, f.ts));
    } else {
      NumberSame(facts, (f: Fact) => InTotal(start, end, Minute(f.ts)), (f: Fact) => Asked(start, end, f.ts));
    }
  }

  /** One request at a lone end bound is counted twice. */
  lemma LoneEndTwice(dims: seq<string>, end: int)
    requires Once(dims, "url")
    ensures var f := Fact(end, map[], map[]);
            ProjectionTotal(Published([[f]], dims), [f], Open, At(end), true) == 2 && FactTotal([f], Open, At(end)) == 1
  {
    OneFact(Fact(end, map[], map[]), dims, Open, At(end), true);
  }

  /** One request at the end of a window whose end query failed is left out. */
  lemma FailedEndLeftOut(dims: seq<string>, end: int)
    requires Once(dims, "url") && WholeMinute(end)
    ensures var f := Fact(end, map[], map[]);
            ProjectionTotal(Published([[f]], dims), [f], At(end), At(end), false) == 0 && FactTotal([f], At(end), At(end)) == 1
  {
    OneFact(Fact(end, map[], map[]), dims, At(end), At(end), false);
  }

  lemma OneFact(f: Fact, dims: seq<string>, start: Bound, end: Bound, ok: bool)
    requires Once(dims, "url")
    ensures ProjectionTotal(Published([[f]], dims), [f], start, end, ok)
         == (if InTotal(start, end, Minute(f.ts)) then 1 else 0) + (if AtEnd(start, end, ok, f.ts) then 1 else 0)
    ensures FactTotal([f], start, end) == if Asked(start, end, f.ts) then 1 else 0
  {
    assert Facts([[f]]) == [f] by {
      assert [[f]][1..] == [];
    }
    BaseCount([[f]], dims, start, end);
    EndFactsLength([f], start, end, ok);
    NumberOne(f, (g: Fact) => InTotal(start, end, Minute(g.ts)));
    NumberOne(f, (g: Fact) => AtEnd(start, end, ok, g.ts));
    NumberOne(f, (g: Fact) => Asked(start, end, g.ts));
  }

  lemma BoundedTotal(facts: seq<Fact>, start: Bound, end: Bound)
    requires start.At? && end.At? && Fast(start, end)
    ensures FactTotal(facts, start, end) == Number(facts, (f: Fact) => InTotal(start, end, Minute(f.ts)))
                                            + Number(facts, (f: Fact) => AtEnd(start, end, true, f.ts))
  {
    forall f: Fact
      ensures Asked(start, end, f.ts) <==> InTotal(start, end, Minute(f.ts)) || AtEnd(start, end, true, f.ts)
      ensures !(InTotal(start, end, Minute(f.ts)) && AtEnd(start, end, true, f.ts))
    {
      AskedSplits(start, end, f.ts);
    }
    NumberSplit(facts, (f: Fact) => InTotal(start, end, Minute(f.ts)), (f: Fact) => AtEnd(start, end, true, f.ts),
                (f: Fact) => Asked(start, end, f.ts));
  }
}
