/** The dashboard's top values: grouped from the table, patched with the facts at the end bound, and compared
    with the counts the fact path makes. The table and the facts read a row's fields differently. */
module DashboardTop {
  import opened Counting
  import opened Sorting
  import opened Rounding
  import opened TopValues
  import opened Dashboard

  // ---- How the facts read a row -------------------------------------------------------------

  predicate Truthy(f: Fact, field: string) {
    field in f.cells &&
    match f.cells[field]
    case Null => false
    case Text(s) => s != ""
    case Scalar(_, falsy) => !falsy
    case Container(_, falsy) => !falsy
  }

  predicate TextAt(f: Fact, field: string) { field in f.cells && f.cells[field].Text? }

  function AddressField(f: Fact): string { if Truthy(f, "client_ip") then "client_ip" else "ip" }

  /** Rows that become facts: url and country are text or absent, and the client's address is text. */
  predicate Accepted(f: Fact) {
    && ("url" in f.cells ==> f.cells["url"].Text?)
    && ("country" in f.cells ==> f.cells["country"].Text?)
    && TextAt(f, AddressField(f))
  }

  function TextOf(f: Fact, field: string): string { if TextAt(f, field) then f.cells[field].text else "" }

  /** A scalar that is copied into the fact's custom fields. */
  predicate Copied(f: Fact, field: string) {
    field in f.cells && ((f.cells[field].Text? && f.cells[field].text != "") || f.cells[field].Scalar?)
  }

  function Nested(f: Fact, field: string): string { if field in f.nested then f.nested[field] else "" }

  predicate Plain(d: string) { d == "url" || d == "country" }

  /** The fact table's value of a dimension. */
  function FactValue(f: Fact, d: string): string {
    if Plain(d) then TextOf(f, d)
    else if d == "client_ip" then TextOf(f, AddressField(f))
    else if Copied(f, d) then f.cells[d].text
    else Nested(f, d)
  }

  /** `_field_sql_column`: age and ttl are rounded by the database, `rounded` being its rounding. */
  function Reading(rounded: string -> string, f: Fact, d: string): string {
    if d == "age" || d == "ttl" then rounded(FactValue(f, d)) else FactValue(f, d)
  }

  /** What the fact path reads of a row: its url and country where they are text; for the client's address the row's
      `client_ip` if that says anything, else its `ip`; and for any other field the row's own scalar, else its custom
      field; age and ttl rounded. */
  lemma ReadingIs(rounded: string -> string, f: Fact, d: string)
    ensures (d == "url" || d == "country") && d in f.cells && f.cells[d].Text? ==> Reading(rounded, f, d) == f.cells[d].text
    ensures (d == "url" || d == "country") && (d !in f.cells || !f.cells[d].Text?) ==> Reading(rounded, f, d) == ""
    ensures "client_ip" in f.cells && f.cells["client_ip"].Text? && f.cells["client_ip"].text != "" ==>
              Reading(rounded, f, "client_ip") == f.cells["client_ip"].text
    ensures "client_ip" !in f.cells || f.cells["client_ip"] == Null || f.cells["client_ip"] == Text("") ==>
              Reading(rounded, f, "client_ip") == if "ip" in f.cells && f.cells["ip"].Text? then f.cells["ip"].text else ""
    ensures "client_ip" in f.cells && (f.cells["client_ip"].Scalar? || f.cells["client_ip"].Container?) ==>
              Reading(rounded, f, "client_ip")
              == if f.cells["client_ip"].falsy && "ip" in f.cells && f.cells["ip"].Text? then f.cells["ip"].text else ""
    ensures d !in ["url", "country", "client_ip", "age", "ttl"] && d in f.cells && f.cells[d].Scalar? ==>
              Reading(rounded, f, d) == f.cells[d].text
    ensures d !in ["url", "country", "client_ip", "age", "ttl"] && d in f.cells && f.cells[d].Text? && f.cells[d].text != "" ==>
              Reading(rounded, f, d) == f.cells[d].text
    ensures d !in ["url", "country", "client_ip", "age", "ttl"]
            && (d !in f.cells || f.cells[d] == Null || f.cells[d] == Text("") || f.cells[d].Container?) ==>
              Reading(rounded, f, d) == if d in f.nested then f.nested[d] else ""
    ensures d == "age" || d == "ttl" ==>
              Reading(rounded, f, d) == rounded(if d in f.cells && (f.cells[d].Scalar? || (f.cells[d].Text? && f.cells[d].text != ""))
                                                then f.cells[d].text else if d in f.nested then f.nested[d] else "")
  {
  }

  /** When the table and the fact path read the same value from a row. */
  predicate Agrees(rounded: string -> string, f: Fact, d: string) {
    if Plain(d) then true
    else if d == "client_ip" then Truthy(f, "client_ip") ==> Value(f, "client_ip") == f.cells["client_ip"].text
    else if d == "age" || d == "ttl" then
      if Copied(f, d) then rounded(f.cells[d].text) == f.cells[d].text else rounded(Nested(f, d)) == Value(f, d)
    else Copied(f, d) || Nested(f, d) == (if d !in f.cells then "" else if f.cells[d].Null? then "None" else f.cells[d].text)
  }

  lemma AgreesIff(rounded: string -> string, f: Fact, d: string)
    requires Accepted(f) && d != "ip"
    ensures Value(f, d) == Reading(rounded, f, d) <==> Agrees(rounded, f, d)
  {
  }

  // ---- The table's top values ---------------------------------------------------------------

  /** `GROUP BY value` with summed counts, over the window of the total. */
  function Grouped(rows: seq<Entry<Key>>, d: string, start: Bound, end: Bound): Counts {
    if rows == [] then []
    else
      var before, last := Grouped(rows[..|rows| - 1], d, start, end), rows[|rows| - 1];
      if last.key.dimension == d && InTotal(start, end, last.key.bucket) then Bump(before, last.key.value, last.count)
      else before
  }

  function Picks(d: string, start: Bound, end: Bound, v: string): Key -> bool {
    (k: Key) => k.dimension == d && k.value == v && InTotal(start, end, k.bucket)
  }

  lemma {:induction false} GroupedCount(rows: seq<Entry<Key>>, d: string, start: Bound, end: Bound, v: string)
    ensures Distinct(Grouped(rows, d, start, end))
    ensures CountOf(Grouped(rows, d, start, end), v) == Sum(rows, Picks(d, start, end, v))
  {
    if rows != [] {
      var front, last := rows[..|rows| - 1], rows[|rows| - 1];
      GroupedCount(front, d, start, end, v);
      assert rows == front + [last];
      SumConcat(front, [last], Picks(d, start, end, v));
      SumOne(last, Picks(d, start, end, v));
      if last.key.dimension == d && InTotal(start, end, last.key.bucket) {
        BumpCount(Grouped(front, d, start, end), last.key.value, last.count, v);
        BumpKeys(Grouped(front, d, start, end), last.key.value, last.count);
      }
    }
  }

  lemma SumOne<K>(e: Entry<K>, p: K -> bool)
    ensures Sum([e], p) == if p(e.key) then e.count else 0
  {
    assert Sum([e][1..], p) == 0;
  }

  /** The table's count of a value: the facts of the window whose row reads so. */
  function TableCount(facts: seq<Fact>, d: string, start: Bound, end: Bound, v: string): nat {
    Number(facts, (f: Fact) => Value(f, d) == v && InTotal(start, end, Minute(f.ts)))
  }

  lemma TableCounts(batches: seq<seq<Fact>>, dims: seq<string>, d: string, start: Bound, end: Bound, v: string)
    requires Once(dims, d)
    ensures CountOf(Grouped(Published(batches, dims), d, start, end), v) == TableCount(Facts(batches), d, start, end, v)
  {
    var rows := Published(batches, dims);
    GroupedCount(rows, d, start, end, v);
    var q := (value: string, b: int) => value == v && InTotal(start, end, b);
    TableSum(batches, dims, d, q);
    SumSame(rows, Picks(d, start, end, v), (k: Key) => k.dimension == d && q(k.value, k.bucket));
    NumberSame(Facts(batches), (f: Fact) => q(Value(f, d), Minute(f.ts)),
               (f: Fact) => Value(f, d) == v && InTotal(start, end, Minute(f.ts)));
  }

  function TableTop(batches: seq<seq<Fact>>, dims: seq<string>, d: string, start: Bound, end: Bound): Counts {
    Top(10, Grouped(Published(batches, dims), d, start, end))
  }

  // ---- What is shown ------------------------------------------------------------------------

  /** The values of the facts read for the end bound. */
  function Ends(rounded: string -> string, facts: seq<Fact>, d: string, start: Bound, end: Bound, ok: bool): seq<string> {
    Image((f: Fact) => Reading(rounded, f, d), EndFacts(facts, start, end, ok))
  }

  /** The list shown for a field: the table's, merged with the end values if any facts lie there. */
  function ShownTop(rounded: string -> string, batches: seq<seq<Fact>>, dims: seq<string>, d: string, start: Bound, end: Bound, ok: bool): Counts {
    var base := TableTop(batches, dims, d, start, end);
    if EndFacts(Facts(batches), start, end, ok) == [] then base
    else Top(10, Patched(base, Ends(rounded, Facts(batches), d, start, end, ok)))
  }

  lemma ShownIsMerged(rounded: string -> string, batches: seq<seq<Fact>>, dims: seq<string>, d: string, start: Bound, end: Bound, ok: bool)
    ensures ShownTop(rounded, batches, dims, d, start, end, ok)
         == Top(10, Patched(TableTop(batches, dims, d, start, end), Ends(rounded, Facts(batches), d, start, end, ok)))
  {
    var base := TableTop(batches, dims, d, start, end);
    if EndFacts(Facts(batches), start, end, ok) == [] {
      TopFacts(10, Grouped(Published(batches, dims), d, start, end), Entry("", 0));
      TopOrder();
      SortOfSorted(TopLe, base);
    }
  }

  lemma EndsSeen(rounded: string -> string, facts: seq<Fact>, d: string, start: Bound, end: Bound, ok: bool, v: string)
    ensures Seen(Ends(rounded, facts, d, start, end, ok), v)
         == Number(facts, (f: Fact) => AtEnd(start, end, ok, f.ts) && Reading(rounded, f, d) == v)
  {
    var r := (f: Fact) => Reading(rounded, f, d) == v;
    NumberImage(EndFacts(facts, start, end, ok), Ends(rounded, facts, d, start, end, ok), (x: string) => x == v, r);
    EndFactsNumber(facts, start, end, ok, r);
    NumberSame(facts, (f: Fact) => AtEnd(start, end, ok, f.ts) && r(f),
               (f: Fact) => AtEnd(start, end, ok, f.ts) && Reading(rounded, f, d) == v);
  }

  /** The count the fact path makes for a value. */
  function FactCount(rounded: string -> string, facts: seq<Fact>, d: string, start: Bound, end: Bound, v: string): nat {
    Number(facts, (f: Fact) => Asked(start, end, f.ts) && Reading(rounded, f, d) == v)
  }

  /** The two readings agree on every fact the table counts. */
  predicate ReadAlike(rounded: string -> string, facts: seq<Fact>, d: string, start: Bound, end: Bound) {
    forall f :: f in facts && InTotal(start, end, Minute(f.ts)) ==> Value(f, d) == Reading(rounded, f, d)
  }

  predicate EndOnce(facts: seq<Fact>, start: Bound, end: Bound, ok: bool) {
    EndCounted(start, end, ok) || forall f :: f in facts ==> f.ts != end.time
  }

  /** Table and end together find a value as often as the fact path does. */
  lemma CountsMeet(rounded: string -> string, facts: seq<Fact>, d: string, start: Bound, end: Bound, ok: bool, v: string)
    requires Fast(start, end) && ReadAlike(rounded, facts, d, start, end) && EndOnce(facts, start, end, ok)
    ensures FactCount(rounded, facts, d, start, end, v)
         == TableCount(facts, d, start, end, v) + Number(facts, (f: Fact) => AtEnd(start, end, ok, f.ts) && Reading(rounded, f, d) == v)
  {
    var table := (f: Fact) => Value(f, d) == v && InTotal(start, end, Minute(f.ts));
    var last := (f: Fact) => AtEnd(start, end, ok, f.ts) && Reading(rounded, f, d) == v;
    var asked := (f: Fact) => Asked(start, end, f.ts) && Reading(rounded, f, d) == v;
    forall f | f in facts ensures (asked(f) <==> table(f) || last(f)) && !(table(f) && last(f)) {
      if start.At? && end.At? {
        AskedSplits(start, end, f.ts);
      }
    }
    NumberSplit(facts, table, last, asked);
  }

  // ---- How far off the list can be ----------------------------------------------------------

  /** One value is reported within bounds: never too often, exact if it was in the table's list or that
      list was not full, and short by at most its last count otherwise; left out, it occurs no more often
      than the last value reported, up to that count. */
  predicate WithinFor(top: Counts, base: Counts, count: nat, v: string) {
    if v in Keys(top) then
      && CountOf(top, v) <= count <= CountOf(top, v) + Hidden(base)
      && (v in Keys(base) || |base| < 10 ==> CountOf(top, v) == count)
    else count <= Hidden(base) + if |top| == 10 then top[9].count else 0
  }

  ghost predicate Within(rounded: string -> string, batches: seq<seq<Fact>>, dims: seq<string>, d: string, start: Bound, end: Bound, ok: bool) {
    forall v :: v != "" ==>
      WithinFor(ShownTop(rounded, batches, dims, d, start, end, ok), TableTop(batches, dims, d, start, end),
                FactCount(rounded, Facts(batches), d, start, end, v), v)
  }

  lemma MergedWithin(all: Counts, ends: seq<string>, v: string)
    requires Distinct(all) && v != ""
    ensures WithinFor(Top(10, Patched(Top(10, all), ends)), Top(10, all), Together(all, ends, v), v)
  {
    var base := Top(10, all);
    var top := Top(10, Patched(base, ends));
    if v in Keys(top) {
      var e :| e in top && e.key == v;
      BaseKnows(all, v);
      PatchedCount(base, ends, v);
      TopDistinct(10, Patched(base, ends));
      EntryCount(top, e);
      ReportedWithin(all, ends, 10, e);
    } else {
      OmittedWithin(all, ends, 10, v);
    }
  }

  /** Where the readings agree and the end facts are counted once, all counts are within bounds of the
      fact path's. */
  lemma TopWithin(rounded: string -> string, batches: seq<seq<Fact>>, dims: seq<string>, d: string, start: Bound, end: Bound, ok: bool)
    requires Once(dims, d) && Fast(start, end)
    requires ReadAlike(rounded, Facts(batches), d, start, end) && EndOnce(Facts(batches), start, end, ok)
    ensures Within(rounded, batches, dims, d, start, end, ok)
  {
    var facts := Facts(batches);
    var all := Grouped(Published(batches, dims), d, start, end);
    var ends := Ends(rounded, facts, d, start, end, ok);
    ShownIsMerged(rounded, batches, dims, d, start, end, ok);
    forall v | v != ""
      ensures WithinFor(ShownTop(rounded, batches, dims, d, start, end, ok), TableTop(batches, dims, d, start, end),
                        FactCount(rounded, facts, d, start, end, v), v)
    {
      GroupedCount(Published(batches, dims), d, start, end, v);
      TableCounts(batches, dims, d, start, end, v);
      EndsSeen(rounded, facts, d, start, end, ok, v);
      CountsMeet(rounded, facts, d, start, end, ok, v);
      MergedWithin(all, ends, v);
    }
  }

  // ---- For which fields that is always so ---------------------------------------------------

  ghost predicate AlwaysWithin(rounded: string -> string, dims: seq<string>, d: string, start: Bound, end: Bound, ok: bool) {
    forall batches :: (forall f :: f in Facts(batches) ==> Accepted(f)) ==> Within(rounded, batches, dims, d, start, end, ok)
  }

  /** The table counts nothing: both bounds are given and the end is not after the start. */
  predicate NothingCounted(start: Bound, end: Bound) { start.At? && end.At? && end.time <= start.time }

  lemma {:induction false} TallyKeys(keys: seq<Key>)
    ensures Keys(Tally(keys)) == set k | k in keys
  {
    if keys != [] {
      var front, last := keys[..|keys| - 1], keys[|keys| - 1];
      TallyKeys(front);
      BumpKeys(Tally(front), last, 1);
      assert keys == front + [last];
    }
  }

  lemma {:induction false} GroupedKeys(rows: seq<Entry<Key>>, d: string, start: Bound, end: Bound, v: string)
    requires forall e :: e in rows && e.key.dimension == d ==> e.key.value == v
    ensures Keys(Grouped(rows, d, start, end)) <= {v}
  {
    if rows != [] {
      var front, last := rows[..|rows| - 1], rows[|rows| - 1];
      assert rows == front + [last];
      GroupedKeys(front, d, start, end, v);
      BumpKeys(Grouped(front, d, start, end), last.key.value, last.count);
    }
  }

  lemma OneKeyOneEntry(t: Counts, v: string)
    requires Distinct(t) && Keys(t) <= {v}
    ensures |t| <= 1
  {
    forall i | 0 <= i < |t| ensures t[i].key == v {
      assert t[i].key in Keys(t);
    }
    if |t| > 1 {
      FirstTwo(t);
    }
  }

  lemma FirstTwo(t: Counts)
    requires Distinct(t) && |t| > 1
    ensures t[0].key != t[1].key
  {
  }

  lemma SoleFact(f: Fact)
    ensures Facts([[f]]) == [f]
  {
    assert [[f]][1..] == [];
  }

  /** With a single fact the table's list is that fact's value, or empty. */
  lemma SoleTop(f: Fact, dims: seq<string>, d: string, start: Bound, end: Bound)
    requires Once(dims, d)
    ensures var base := TableTop([[f]], dims, d, start, end);
            var v := Value(f, d);
            && |base| <= 1 && Keys(base) <= {v} && Distinct(base)
            && (InTotal(start, end, Minute(f.ts)) ==> v in Keys(base) && CountOf(base, v) == 1)
            && (!InTotal(start, end, Minute(f.ts)) ==> CountOf(base, v) == 0)
  {
    var v := Value(f, d);
    var rows := Published([[f]], dims);
    var all := Grouped(rows, d, start, end);
    SolePublished(f, dims);
    forall e | e in rows && e.key.dimension == d ensures e.key.value == v {
      assert e.key in Keys(Tally(KeysOfOne(f, dims)));
      TallyKeys(KeysOfOne(f, dims));
    }
    GroupedKeys(rows, d, start, end, v);
    GroupedCount(rows, d, start, end, v);
    OneKeyOneEntry(all, v);
    TableCounts([[f]], dims, d, start, end, v);
    SoleFact(f);
    SoleNumber(f, (g: Fact) => Value(g, d) == v && InTotal(start, end, Minute(g.ts)));
    BaseKnows(all, v);
    forall k | k in Keys(TableTop([[f]], dims, d, start, end)) ensures k == v {
      var e :| e in TableTop([[f]], dims, d, start, end) && e.key == k;
      TopFacts(10, all, e);
      assert e.key in Keys(all);
    }
    TopFacts(10, all, Entry("", 0));
  }

  lemma SoleNumber<T>(x: T, p: T -> bool)
    ensures Number([x], p) == if p(x) then 1 else 0
  {
    assert Number([x][1..], p) == 0;
  }

  lemma SolePublished(f: Fact, dims: seq<string>)
    ensures Published([[f]], dims) == Tally(KeysOfOne(f, dims))
  {
    assert [[f]][1..] == [];
    assert KeysOf([f], dims) == KeysOf([f][..0], dims) + KeysOfOne(f, dims);
    assert KeysOf([f], dims) == KeysOfOne(f, dims);
    assert Published([[f]], dims) == Tally(KeysOf([f], dims)) + Published([], dims);
  }

  /** A row the two readings disagree on, and nothing at the end: the table's value is reported, and the
      fact path never finds it. */
  lemma DisagreementShows(rounded: string -> string, f: Fact, dims: seq<string>, d: string, start: Bound, end: Bound, ok: bool)
    requires Once(dims, d) && InTotal(start, end, Minute(f.ts)) && !AtEnd(start, end, ok, f.ts)
    requires Value(f, d) != "" && Value(f, d) != Reading(rounded, f, d)
    ensures !Within(rounded, [[f]], dims, d, start, end, ok)
  {
    var v := Value(f, d);
    SoleTop(f, dims, d, start, end);
    SoleFact(f);
    EndFactsNumber([f], start, end, ok, (g: Fact) => true);
    SoleNumber(f, (g: Fact) => Asked(start, end, g.ts) && Reading(rounded, g, d) == v);
    assert !WithinFor(ShownTop(rounded, [[f]], dims, d, start, end, ok), TableTop([[f]], dims, d, start, end),
                      FactCount(rounded, Facts([[f]]), d, start, end, v), v);
  }

  /** A row with a null, or with two different addresses: accepted, and read differently. */
  function OddRow(d: string, ts: int): Fact {
    if d == "client_ip" then Fact(ts, map["client_ip" := Text("a"), "ip" := Text("b")], map[])
    else Fact(ts, map["ip" := Text("b"), d := Null], map[])
  }

  lemma OddRowDiffers(rounded: string -> string, d: string, ts: int)
    requires !Plain(d) && d != "ip" && rounded("") == "0"
    ensures var f := OddRow(d, ts);
            Accepted(f) && Value(f, d) != "" && Value(f, d) != Reading(rounded, f, d)
  {
  }

  /** A row both readings take as `v`. */
  function EvenRow(d: string, ts: int): Fact {
    if d == "client_ip" then Fact(ts, map["ip" := Text("0")], map[])
    else Fact(ts, map["ip" := Text("0"), d := Text("0")], map[])
  }

  lemma EvenRowAgrees(rounded: string -> string, d: string, ts: int)
    requires d != "ip" && rounded("0") == "0"
    ensures var f := EvenRow(d, ts);
            Accepted(f) && Value(f, d) == "0" && Reading(rounded, f, d) == "0"
  {
  }

  /** A fact at the end that is left out: the end query failed, and the list is empty. */
  lemma EndLeftOut(rounded: string -> string, f: Fact, dims: seq<string>, d: string, start: Bound, end: Bound)
    requires Once(dims, d) && Fast(start, end) && start.At? && end.At? && start.time <= end.time && f.ts == end.time
    requires Reading(rounded, f, d) != ""
    ensures !Within(rounded, [[f]], dims, d, start, end, false)
  {
    var v := Reading(rounded, f, d);
    var base := TableTop([[f]], dims, d, start, end);
    AskedSplits(start, end, f.ts);
    SoleTop(f, dims, d, start, end);
    SoleFact(f);
    SoleNumber(f, (g: Fact) => Asked(start, end, g.ts) && Reading(rounded, g, d) == v);
    NotListed(f, dims, d, start, end, v);
    assert ShownTop(rounded, [[f]], dims, d, start, end, false) == base;
    assert !WithinFor(base, base, FactCount(rounded, Facts([[f]]), d, start, end, v), v);
  }

  lemma NotListed(f: Fact, dims: seq<string>, d: string, start: Bound, end: Bound, v: string)
    requires Once(dims, d) && !InTotal(start, end, Minute(f.ts))
    ensures CountOf(TableTop([[f]], dims, d, start, end), v) == 0
  {
    var all := Grouped(Published([[f]], dims), d, start, end);
    GroupedCount(Published([[f]], dims), d, start, end, v);
    TableCounts([[f]], dims, d, start, end, v);
    SoleFact(f);
    SoleNumber(f, (g: Fact) => Value(g, d) == v && InTotal(start, end, Minute(g.ts)));
    BaseKnows(all, v);
  }

  /** A fact at a lone end is in the table, which ignores the bound, and is read again for the end. */
  lemma EndCountedTwice(rounded: string -> string, f: Fact, dims: seq<string>, d: string, end: int)
    requires Once(dims, d) && f.ts == end && Value(f, d) == Reading(rounded, f, d) != ""
    ensures !Within(rounded, [[f]], dims, d, Open, At(end), true)
  {
    var v := Value(f, d);
    var base := TableTop([[f]], dims, d, Open, At(end));
    var ends := Ends(rounded, [f], d, Open, At(end), true);
    var top := ShownTop(rounded, [[f]], dims, d, Open, At(end), true);
    SoleTop(f, dims, d, Open, At(end));
    SoleFact(f);
    SoleNumber(f, (g: Fact) => Asked(Open, At(end), g.ts) && Reading(rounded, g, d) == v);
    EndsSeen(rounded, [f], d, Open, At(end), true, v);
    SoleNumber(f, (g: Fact) => AtEnd(Open, At(end), true, g.ts) && Reading(rounded, g, d) == v);
    ShownIsMerged(rounded, [[f]], dims, d, Open, At(end), true);
    PatchedCount(base, ends, v);
    PatchedSmall(base, ends);
    AtTimeSole(f);
    KeptWhole(Patched(base, ends), v);
    assert CountOf(top, v) == 2;
    assert !WithinFor(top, base, FactCount(rounded, Facts([[f]]), d, Open, At(end), v), v);
  }

  lemma AtTimeSole(f: Fact)
    ensures AtTime([f], f.ts) == [f]
  {
    assert AtTime([f][1..], f.ts) == [];
  }

  lemma {:induction false} PatchedSmall(base: Counts, ends: seq<string>)
    ensures |Patched(base, ends)| <= |base| + |ends|
  {
    if ends != [] {
      PatchedSmall(base, ends[..|ends| - 1]);
      BumpLength(Patched(base, ends[..|ends| - 1]), ends[|ends| - 1], 1);
    }
  }

  lemma {:induction false} BumpLength(t: Counts, key: string, n: nat)
    ensures |Bump(t, key, n)| <= |t| + 1
  {
    if t != [] && t[0].key != key {
      BumpLength(t[1..], key, n);
    }
  }

  /** A short dictionary is shown whole. */
  lemma KeptWhole(t: Counts, v: string)
    requires Distinct(t) && |t| <= 10 && CountOf(t, v) > 0
    ensures v in Keys(Top(10, t)) && CountOf(Top(10, t), v) == CountOf(t, v)
  {
    EntryCount(t, Entry(v, 0));
    var e :| e in t && e.key == v;
    EntryCount(t, e);
    SortPermutes(TopLe, t);
    assert e in multiset(t);
    assert e in Sort(TopLe, t) by {
      assert e in multiset(Sort(TopLe, t));
    }
    assert Top(10, t) == Sort(TopLe, t);
    TopDistinct(10, t);
    EntryCount(Top(10, t), e);
  }

  /** The top values of a field are within bounds, whatever the facts, exactly if the field is the url or the
      country, or the window leaves the table nothing to count, and the end facts are counted once. */
  lemma AlwaysWithinIff(rounded: string -> string, dims: seq<string>, d: string, start: Bound, end: Bound, ok: bool)
    requires Once(dims, d) && d != "ip" && Fast(start, end) && rounded("") == "0" && rounded("0") == "0"
    ensures AlwaysWithin(rounded, dims, d, start, end, ok) <==> (Plain(d) || NothingCounted(start, end)) && EndCounted(start, end, ok)
  {
    if !EndCounted(start, end, ok) {
      var f := EvenRow(d, end.time);
      EvenRowAgrees(rounded, d, end.time);
      SoleFact(f);
      if start.At? {
        EndLeftOut(rounded, f, dims, d, start, end);
      } else {
        EndCountedTwice(rounded, f, dims, d, end.time);
      }
      assert !AlwaysWithin(rounded, dims, d, start, end, ok) by {
        assert forall g :: g in Facts([[f]]) ==> Accepted(g);
      }
    } else if !Plain(d) && !NothingCounted(start, end) {
      var ts := if start.At? && end.At? then start.time else if end.At? then end.time - 1 else 0;
      var f := OddRow(d, ts);
      OddRowDiffers(rounded, d, ts);
      SoleFact(f);
      DisagreementShows(rounded, f, dims, d, start, end, ok);
      assert !AlwaysWithin(rounded, dims, d, start, end, ok) by {
        assert forall g :: g in Facts([[f]]) ==> Accepted(g);
      }
    } else {
      forall batches | forall f :: f in Facts(batches) ==> Accepted(f) ensures Within(rounded, batches, dims, d, start, end, ok) {
        forall f | f in Facts(batches) && InTotal(start, end, Minute(f.ts)) ensures Value(f, d) == Reading(rounded, f, d) {
          if Plain(d) {
            AgreesIff(rounded, f, d);
          }
        }
        TopWithin(rounded, batches, dims, d, start, end, ok);
      }
    }
  }

  /** Two rows without an age, one of them at the end: the table counts the first as empty, the end reads
      the second as zero, so the list shows one zero where the fact path counts two. */
  lemma MissingAge(rounded: string -> string, dims: seq<string>)
    requires Once(dims, "age") && rounded("") == "0"
    ensures var row := map["ip" := Text("b")];
            var facts := [Fact(0, row, map[]), Fact(60000, row, map[])];
            && |TableTop([facts], dims, "age", At(0), At(60000))| < 10
            && CountOf(ShownTop(rounded, [facts], dims, "age", At(0), At(60000), true), "0") == 1
            && FactCount(rounded, facts, "age", At(0), At(60000), "0") == 2
  {
    var row := map["ip" := Text("b")];
    var f, g := Fact(0, row, map[]), Fact(60000, row, map[]);
    var facts := [f, g];
    assert [facts][1..] == [] && Facts([facts]) == facts;
    assert Minute(0) == 0 && Minute(60000) == 60000;
    PairNumber(f, g, (h: Fact) => Asked(At(0), At(60000), h.ts) && Reading(rounded, h, "age") == "0");
    MissingAgeShown(rounded, dims, f, g);
  }

  lemma PairNumber<T>(x: T, y: T, p: T -> bool)
    ensures Number([x, y], p) == (if p(x) then 1 else 0) + if p(y) then 1 else 0
  {
    assert [x, y][1..] == [y];
    SoleNumber(y, p);
  }

  lemma MissingAgeShown(rounded: string -> string, dims: seq<string>, f: Fact, g: Fact)
    requires Once(dims, "age") && rounded("") == "0" && f.ts == 0 && g.ts == 60000
    requires "age" !in f.cells && "age" !in g.cells && "age" !in g.nested && Facts([[f, g]]) == [f, g]
    ensures |TableTop([[f, g]], dims, "age", At(0), At(60000))| < 10
    ensures CountOf(ShownTop(rounded, [[f, g]], dims, "age", At(0), At(60000), true), "0") == 1
  {
    var all := Grouped(Published([[f, g]], dims), "age", At(0), At(60000));
    var base := TableTop([[f, g]], dims, "age", At(0), At(60000));
    var ends := Ends(rounded, [f, g], "age", At(0), At(60000), true);
    PairSmall(f, g, dims);
    TableCounts([[f, g]], dims, "age", At(0), At(60000), "0");
    PairNumber(f, g, (h: Fact) => Value(h, "age") == "0" && InTotal(At(0), At(60000), Minute(h.ts)));
    GroupedCount(Published([[f, g]], dims), "age", At(0), At(60000), "0");
    BaseKnows(all, "0");
    EndsSeen(rounded, [f, g], "age", At(0), At(60000), true, "0");
    PairNumber(f, g, (h: Fact) => AtEnd(At(0), At(60000), true, h.ts) && Reading(rounded, h, "age") == "0");
    ShownIsMerged(rounded, [[f, g]], dims, "age", At(0), At(60000), true);
    PatchedCount(base, ends, "0");
    PatchedSmall(base, ends);
    AtTimeSole(g);
    assert AtTime([f, g], 60000) == [g] by {
      assert [f, g][1..] == [g];
    }
    KeptWhole(Patched(base, ends), "0");
  }

  /** Rows without an age are all listed under the empty value. */
  lemma PairSmall(f: Fact, g: Fact, dims: seq<string>)
    requires "age" !in f.cells && "age" !in g.cells
    ensures |TableTop([[f, g]], dims, "age", At(0), At(60000))| <= 1
  {
    var rows := Published([[f, g]], dims);
    var keys := KeysOf([f, g], dims);
    assert [[f, g]][1..] == [];
    assert rows == Tally(keys) + Published([], dims);
    assert rows == Tally(keys);
    forall e | e in rows && e.key.dimension == "age" ensures e.key.value == "" {
      assert e.key in Keys(Tally(keys));
      TallyKeys(keys);
      KeysOfPair(f, g, dims);
    }
    GroupedKeys(rows, "age", At(0), At(60000), "");
    GroupedCount(rows, "age", At(0), At(60000), "");
    OneKeyOneEntry(Grouped(rows, "age", At(0), At(60000)), "");
    TopFacts(10, Grouped(rows, "age", At(0), At(60000)), Entry("", 0));
  }

  lemma KeysOfPair(f: Fact, g: Fact, dims: seq<string>)
    ensures KeysOf([f, g], dims) == KeysOfOne(f, dims) + KeysOfOne(g, dims)
  {
    assert [f, g][..1] == [f] && [f][..0] == [];
    assert KeysOf([f], dims) == KeysOf([f][..0], dims) + KeysOfOne(f, dims) == KeysOfOne(f, dims);
  }
}
