/** `list_ingest_ledger_entries` of backend/celery_app.py: a page of the ledger over many services, made
    from a truncated list of each. */
module Ledger {
  import opened Sorting
  import opened Text
  import opened Wrappers

  /** A ledger row; `service` is the position of its service in the list of services. */
  datatype Row = Row(service: nat, key: string, status: string,
                     claimed: Option<real>, discovered: Option<real>, committed: Option<real>)

  // ---- The two readings of a row's time -----------------------------------------------------

  /** `COALESCE(claimed_at, discovered_at, committed_at, 0)`: the first that is present. */
  function SqlTime(r: Row): real {
    if r.claimed.Some? then r.claimed.value
    else if r.discovered.Some? then r.discovered.value
    else if r.committed.Some? then r.committed.value
    else 0.0
  }

  /** `claimed_at or discovered_at or committed_at or 0.0`: the first that is present and not zero. */
  function ListTime(r: Row): real {
    if r.claimed.Some? && r.claimed.value != 0.0 then r.claimed.value
    else if r.discovered.Some? && r.discovered.value != 0.0 then r.discovered.value
    else if r.committed.Some? && r.committed.value != 0.0 then r.committed.value
    else 0.0
  }

  predicate Newer(t: real, key: string, t': real, key': string) { t > t' || (t == t' && StrLe(key', key)) }

  predicate SqlLe(a: Row, b: Row) { Newer(SqlTime(a), a.key, SqlTime(b), b.key) }

  /** The final sort is by time and key, descending, and stable. */
  predicate ListLe(a: Row, b: Row) { Newer(ListTime(a), a.key, ListTime(b), b.key) }

  // ---- The listing --------------------------------------------------------------------------

  predicate Selected(status: string, r: Row) {
    if status == "all" then true
    else if status in {"discovered", "claimed", "committed", "quarantined", "dead_letter"} then r.status == status
    else r.status in {"dead_letter", "quarantined"}
  }

  function Select(status: string, rows: seq<Row>): seq<Row> {
    if rows == [] then []
    else if Selected(status, rows[0]) then [rows[0]] + Select(status, rows[1..])
    else Select(status, rows[1..])
  }

  /** How a service answers: with its rows, with their count only, or not at all. A failed query drops the
      service from the list, but what was counted before it failed stays counted. */
  datatype Answer = Answered(rows: seq<Row>) | CountOnly(rows: seq<Row>) | Failed

  /** The rows that can be listed. */
  function Listed(services: seq<Answer>): seq<seq<Row>> {
    seq(|services|, i requires 0 <= i < |services| => if services[i].Answered? then services[i].rows else [])
  }

  function Matching(status: string, services: seq<Answer>): seq<seq<Row>> {
    seq(|services|, i requires 0 <= i < |services| => Select(status, Listed(services)[i]))
  }

  /** The matching rows that were counted. */
  function Counted(status: string, services: seq<Answer>): nat {
    if services == [] then 0
    else
      var last := services[|services| - 1];
      Counted(status, services[..|services| - 1]) + if last.Failed? then 0 else |Select(status, last.rows)|
  }

  function PerService(offset: nat, limit: nat): nat { if offset + limit < 1 then 1 else offset + limit }

  function Page(entries: seq<Row>, offset: nat, limit: nat): seq<Row> {
    if |entries| <= offset then []
    else if |entries| <= offset + limit then entries[offset..]
    else entries[offset..offset + limit]
  }

  /** Keeps the first row of each service and key. */
  function Unique(rows: seq<Row>): seq<Row> {
    if rows == [] then []
    else
      var front, last := Unique(rows[..|rows| - 1]), rows[|rows| - 1];
      if (last.service, last.key) in Seen(rows[..|rows| - 1]) then front else front + [last]
  }

  function Seen(rows: seq<Row>): set<(nat, string)> { set r | r in rows :: (r.service, r.key) }

  lemma UniqueStep(past: seq<Row>, row: Row)
    ensures Unique(past + [row]) == if (row.service, row.key) in Seen(past) then Unique(past) else Unique(past) + [row]
    ensures Seen(past + [row]) == Seen(past) + {(row.service, row.key)}
  {
    assert (past + [row])[..|past|] == past;
  }

  /** Adds the rows of one service that were not seen before. */
  method CollectOne(entries: seq<Row>, seen: set<(nat, string)>, rows: seq<Row>, ghost past: seq<Row>)
      returns (all: seq<Row>, known: set<(nat, string)>)
    requires entries == Unique(past) && seen == Seen(past)
    ensures all == Unique(past + rows) && known == Seen(past + rows)
  {
    all, known := entries, seen;
    assert past + rows[..0] == past;
    for j := 0 to |rows|
      invariant all == Unique(past + rows[..j]) && known == Seen(past + rows[..j])
    {
      var row := rows[j];
      CollectNext(past, rows, j);
      if (row.service, row.key) !in known {
        known := known + {(row.service, row.key)};
        all := all + [row];
      }
    }
    assert rows[..|rows|] == rows;
  }

  lemma CollectNext(past: seq<Row>, rows: seq<Row>, j: nat)
    requires j < |rows|
    ensures var p, row := past + rows[..j], rows[j];
            && Unique(past + rows[..j + 1]) == (if (row.service, row.key) in Seen(p) then Unique(p) else Unique(p) + [row])
            && Seen(past + rows[..j + 1]) == if (row.service, row.key) in Seen(p) then Seen(p) else Seen(p) + {(row.service, row.key)}
  {
    assert past + rows[..j + 1] == past + rows[..j] + [rows[j]];
    UniqueStep(past + rows[..j], rows[j]);
  }

  /** The loop over the services, their rows already in database order and cut. */
  method Collect(tops: seq<seq<Row>>) returns (entries: seq<Row>)
    ensures entries == Unique(Flat(tops))
  {
    entries := [];
    var seen: set<(nat, string)> := {};
    for i := 0 to |tops|
      invariant entries == Unique(Flat(tops[..i])) && seen == Seen(Flat(tops[..i]))
    {
      entries, seen := CollectOne(entries, seen, tops[i], Flat(tops[..i]));
      FlatAppend(tops[..i], tops[i]);
      assert tops[..i] + [tops[i]] == tops[..i + 1];
    }
    assert tops[..|tops|] == tops;
  }

  lemma FlatAppend<T>(parts: seq<seq<T>>, p: seq<T>)
    ensures Flat(parts + [p]) == Flat(parts) + p
  {
    FlatConcat(parts, [p]);
    assert Flat([p][1..]) == [];
  }

  /** The loop over the services: each one's matching rows counted, and the first `n` of them in database
      order; an exception goes on with the next service. */
  method Query(services: seq<Answer>, status: string, n: nat) returns (tops: seq<seq<Row>>, total: nat)
    ensures tops == Tops(SqlLe, n, Matching(status, services)) && total == Counted(status, services)
  {
    tops, total := [], 0;
    for i := 0 to |services|
      invariant total == Counted(status, services[..i])
      invariant tops == Tops(SqlLe, n, Matching(status, services))[..i]
    {
      assert services[..i + 1][..i] == services[..i];
      var top: seq<Row> := [];
      if !services[i].Failed? {
        total := total + |Select(status, services[i].rows)|;
        if services[i].Answered? {
          top := Take(n, Sort(SqlLe, Select(status, services[i].rows)));
        }
      }
      tops := tops + [top];
    }
    assert services[..|services|] == services;
  }

  /** `list_ingest_ledger_entries`. With unique keys per service and times both readings agree on, the items
      are the page of all rows that could be listed. */
  method ListEntries(services: seq<Answer>, status: string, offset: nat, limit: nat) returns (items: seq<Row>, total: nat)
    ensures items == CutPage(Matching(status, services), offset, limit) && total == Counted(status, services)
    ensures Keyed(Listed(services)) && AllTimely(Listed(services)) ==> items == FullPage(Matching(status, services), offset, limit)
  {
    var tops;
    tops, total := Query(services, status, PerService(offset, limit));
    var entries := Collect(tops);
    items := Page(Sort(ListLe, entries), offset, limit);
    if Keyed(Listed(services)) && AllTimely(Listed(services)) {
      MatchingKeyed(status, services);
      PageExact(Matching(status, services), offset, limit);
    }
  }

  /** The page made from the truncated lists. */
  function CutPage(matching: seq<seq<Row>>, offset: nat, limit: nat): seq<Row> {
    Page(Sort(ListLe, Unique(Flat(Tops(SqlLe, PerService(offset, limit), matching)))), offset, limit)
  }

  // ---- What the page should be --------------------------------------------------------------

  predicate DistinctKeys(rows: seq<Row>) { forall j, k :: 0 <= j < k < |rows| ==> rows[j].key != rows[k].key }

  /** The rows of a service carry its position, and no two of them the same key. */
  predicate Keyed(services: seq<seq<Row>>) {
    && (forall i, k :: 0 <= i < |services| && 0 <= k < |services[i]| ==> services[i][k].service == i)
    && (forall i :: 0 <= i < |services| ==> DistinctKeys(services[i]))
  }

  /** The same page from all rows, nothing truncated. */
  function FullPage(matching: seq<seq<Row>>, offset: nat, limit: nat): seq<Row> {
    Page(Sort(ListLe, Flat(matching)), offset, limit)
  }

  /** Where a row stands among all: no two rows of a ledger share a slot. */
  datatype Slot = Slot(time: real, key: string, service: nat)

  function SlotOf(r: Row): Slot { Slot(ListTime(r), r.key, r.service) }

  predicate SlotLe(a: Slot, b: Slot) {
    || a.time > b.time
    || (a.time == b.time && if a.key == b.key then a.service <= b.service else StrLe(b.key, a.key))
  }

  lemma SlotTransitive(a: Slot, b: Slot, c: Slot)
    requires SlotLe(a, b) && SlotLe(b, c)
    ensures SlotLe(a, c)
  {
    if a.time == b.time == c.time && a.key != b.key && b.key != c.key {
      StrTransitive(c.key, b.key, a.key);
      if a.key == c.key {
        StrAntisymmetric(a.key, b.key);
      }
    }
  }

  lemma SlotOrder()
    ensures TotalOrder(SlotLe)
  {
    forall a, b ensures Compares(SlotLe, a, b) {
      StrTotal(a.key, b.key);
    }
    forall a, b, c ensures Chains(SlotLe, a, b, c) {
      if SlotLe(a, b) && SlotLe(b, c) {
        SlotTransitive(a, b, c);
      }
    }
    forall a, b ensures Separates(SlotLe, a, b) {
      if SlotLe(a, b) && SlotLe(b, a) && a.key != b.key {
        StrAntisymmetric(a.key, b.key);
      }
    }
  }

  // ---- The page is right --------------------------------------------------------------------

  lemma {:induction false} SelectKeyed(status: string, rows: seq<Row>)
    ensures forall r :: r in Select(status, rows) <==> r in rows && Selected(status, r)
    ensures DistinctKeys(rows) ==> DistinctKeys(Select(status, rows))
  {
    if rows != [] {
      SelectKeyed(status, rows[1..]);
      assert rows == [rows[0]] + rows[1..];
      var rest := Select(status, rows[1..]);
      if DistinctKeys(rows) {
        forall k | 0 <= k < |rest| ensures rest[k].key != rows[0].key {
          assert rest[k] in rows[1..];
        }
      }
    }
  }

  predicate AllTimely(services: seq<seq<Row>>) {
    forall i, k :: 0 <= i < |services| && 0 <= k < |services[i]| ==> Timely(services[i][k])
  }

  /** Selecting rows keeps a ledger keyed and timely. */
  lemma MatchingKeyed(status: string, services: seq<Answer>)
    requires Keyed(Listed(services)) && AllTimely(Listed(services))
    ensures Keyed(Matching(status, services)) && AllTimely(Matching(status, services))
  {
    var rows: seq<seq<Row>> := Listed(services);
    var m: seq<seq<Row>> := Matching(status, services);
    forall i | 0 <= i < |m|
      ensures forall k :: 0 <= k < |m[i]| ==> m[i][k].service == i && Timely(m[i][k])
      ensures DistinctKeys(m[i])
    {
      SelectKeyed(status, rows[i]);
      forall k | 0 <= k < |m[i]| ensures m[i][k].service == i && Timely(m[i][k]) {
        assert m[i][k] in rows[i];
      }
    }
  }

  /** Rows of services in order: the service never goes back, and service and key determine the row. */
  predicate Ordered(rows: seq<Row>) {
    forall j, k :: 0 <= j < k < |rows| ==>
      rows[j].service < rows[k].service || (rows[j].service == rows[k].service && rows[j].key != rows[k].key)
  }

  lemma {:induction false} FlatOrdered(parts: seq<seq<Row>>, from: nat)
    requires forall i, k :: 0 <= i < |parts| && 0 <= k < |parts[i]| ==> parts[i][k].service == from + i
    requires forall i :: 0 <= i < |parts| ==> DistinctKeys(parts[i])
    ensures Ordered(Flat(parts)) && forall r :: r in Flat(parts) ==> r.service >= from
  {
    if parts != [] {
      var rest := parts[1..];
      assert forall i :: 0 <= i < |rest| ==> rest[i] == parts[i + 1];
      FlatOrdered(rest, from + 1);
      forall k | |parts[0]| <= k < |Flat(parts)| ensures Flat(parts)[k].service >= from + 1 {
        assert Flat(parts)[k] in Flat(rest);
      }
    }
  }

  /** Rows in such an order are all distinct by service and key, so nothing is dropped. */
  lemma {:induction false} OrderedUnique(rows: seq<Row>)
    requires Ordered(rows)
    ensures Unique(rows) == rows
  {
    if rows != [] {
      var front, last := rows[..|rows| - 1], rows[|rows| - 1];
      OrderedUnique(front);
      assert rows == front + [last];
      NotSeen(rows);
      UniqueStep(front, last);
    }
  }

  lemma NotSeen(rows: seq<Row>)
    requires Ordered(rows) && rows != []
    ensures var last := rows[|rows| - 1]; (last.service, last.key) !in Seen(rows[..|rows| - 1])
  {
    var front, last := rows[..|rows| - 1], rows[|rows| - 1];
    forall j | 0 <= j < |front| ensures (front[j].service, front[j].key) != (last.service, last.key) {
      assert front[j] == rows[j];
    }
  }

  lemma PairAgrees(a: Row, b: Row)
    requires a.service < b.service || (a.service == b.service && a.key != b.key)
    ensures ListLe(a, b) == SlotLe(SlotOf(a), SlotOf(b))
  {
    if a.key == b.key {
      StrTotal(a.key, b.key);
    }
  }

  /** On such rows the stable sort is the sort by slot. */
  lemma StableIsSlot(rows: seq<Row>)
    requires Ordered(rows)
    ensures Sort(ListLe, rows) == Sort(By(SlotOf, SlotLe), rows)
  {
    forall i, j | 0 <= i < j < |rows| ensures ListLe(rows[i], rows[j]) == By(SlotOf, SlotLe)(rows[i], rows[j]) {
      PairAgrees(rows[i], rows[j]);
    }
    SortAgree(ListLe, By(SlotOf, SlotLe), rows);
  }

  /** Both readings of the row's time agree. */
  predicate Timely(r: Row) { SqlTime(r) == ListTime(r) }

  /** They do unless the first time present is zero and a later one is not. */
  lemma TimelyIff(r: Row)
    ensures !Timely(r) <==> ZeroFirst(r)
  {
  }

  predicate ZeroFirst(r: Row) {
    || (r.claimed == Some(0.0) && (Later(r.discovered) || Later(r.committed)))
    || (r.claimed == None && r.discovered == Some(0.0) && Later(r.committed))
  }

  predicate Later(t: Option<real>) { t.Some? && t.value != 0.0 }

  /** The cut list of a service is the same in database order and by slot. */
  lemma ServiceTop(rows: seq<Row>, n: nat)
    requires forall r :: r in rows ==> Timely(r)
    requires Ordered(rows)
    ensures Take(n, Sort(SqlLe, rows)) == Take(n, Sort(By(SlotOf, SlotLe), rows))
  {
    forall i, j | 0 <= i < j < |rows| ensures SqlLe(rows[i], rows[j]) == ListLe(rows[i], rows[j]) {
      assert Timely(rows[i]) && Timely(rows[j]);
    }
    SortAgree(SqlLe, ListLe, rows);
    StableIsSlot(rows);
  }

  lemma AllTops(matching: seq<seq<Row>>, n: nat)
    requires Keyed(matching) && AllTimely(matching)
    ensures Tops(SqlLe, n, matching) == Tops(By(SlotOf, SlotLe), n, matching)
  {
    forall i | 0 <= i < |matching| ensures Take(n, Sort(SqlLe, matching[i])) == Take(n, Sort(By(SlotOf, SlotLe), matching[i])) {
      ServiceTop(matching[i], n);
    }
  }

  lemma TopsKeyed(matching: seq<seq<Row>>, n: nat)
    requires Keyed(matching)
    ensures Keyed(Tops(SqlLe, n, matching))
  {
    var tops: seq<seq<Row>> := Tops(SqlLe, n, matching);
    forall i | 0 <= i < |tops|
      ensures forall k :: 0 <= k < |tops[i]| ==> tops[i][k].service == i
      ensures DistinctKeys(tops[i])
    {
      CutKeyed(matching[i], n);
      forall k | 0 <= k < |tops[i]| ensures tops[i][k].service == i {
        assert tops[i][k] in matching[i];
      }
    }
  }

  lemma CutKeyed(rows: seq<Row>, n: nat)
    requires DistinctKeys(rows)
    ensures forall r :: r in Take(n, Sort(SqlLe, rows)) ==> r in rows
    ensures DistinctKeys(Take(n, Sort(SqlLe, rows)))
  {
    var s := Sort(SqlLe, rows);
    SortPermutes(SqlLe, rows);
    forall r | r in s ensures r in rows {
      assert r in multiset(rows);
    }
    forall j, k | 0 <= j < k < |s| ensures s[j].key != s[k].key {
      SortedKeysDiffer(rows, s, j, k);
    }
  }

  lemma SortedKeysDiffer(rows: seq<Row>, s: seq<Row>, j: nat, k: nat)
    requires multiset(s) == multiset(rows) && j < k < |s|
    requires DistinctKeys(rows)
    ensures s[j].key != s[k].key
  {
    assert s[j] in multiset(rows) && s[k] in multiset(rows);
    if s[j] == s[k] {
      assert s == s[..k] + s[k..];
      assert s[..k][j] == s[j] && s[k..][0] == s[j];
      KeyedOnce(rows, s[j]);
    }
  }

  lemma {:induction false} KeyedOnce(rows: seq<Row>, r: Row)
    requires DistinctKeys(rows)
    ensures multiset(rows)[r] <= 1
  {
    if rows != [] {
      KeyedOnce(rows[1..], r);
      assert rows == [rows[0]] + rows[1..];
      if r == rows[0] {
        assert r !in rows[1..];
      }
    }
  }

  /** A page looks only at as many of the first rows as it skips and shows. */
  lemma PageOfTake(a: seq<Row>, n: nat, offset: nat, limit: nat)
    requires offset + limit <= n
    ensures Page(Take(n, a), offset, limit) == Page(a, offset, limit)
  {
    if n < |a| {
      assert offset < n ==> a[..n][offset..offset + limit] == a[offset..offset + limit];
      if offset == n {
        assert Page(a, offset, limit) == [];
      }
    }
  }

  /** For every offset and limit, the page made from truncated lists is the page of all rows. */
  lemma PageExact(matching: seq<seq<Row>>, offset: nat, limit: nat)
    requires Keyed(matching) && AllTimely(matching)
    ensures CutPage(matching, offset, limit) == FullPage(matching, offset, limit)
  {
    var n := PerService(offset, limit);
    TopsKeyed(matching, n);
    AllTops(matching, n);
    FlatOrdered(matching, 0);
    FlatOrdered(Tops(SqlLe, n, matching), 0);
    OrderedUnique(Flat(Tops(SqlLe, n, matching)));
    StableIsSlot(Flat(matching));
    StableIsSlot(Flat(Tops(SqlLe, n, matching)));
    SlotOrder();
    SlotsDiffer(Flat(matching));
    TopByKey(SlotOf, SlotLe, matching, n);
    PageOfTake(Sort(ListLe, Flat(Tops(SqlLe, n, matching))), n, offset, limit);
    PageOfTake(Sort(ListLe, Flat(matching)), n, offset, limit);
  }

  lemma SlotsDiffer(rows: seq<Row>)
    requires Ordered(rows)
    ensures forall x, y :: x in rows && y in rows && SlotOf(x) == SlotOf(y) ==> x == y
  {
  }

  /** Services without rows, and then one with these. */
  function Alone(service: nat, rows: seq<Row>): seq<seq<Row>> {
    seq(service + 1, i requires 0 <= i < service + 1 => if i == service then rows else [])
  }

  lemma AloneTops(le: (Row, Row) -> bool, n: nat, service: nat, rows: seq<Row>)
    ensures Tops(le, n, Alone(service, rows)) == Alone(service, Take(n, Sort(le, rows)))
    ensures Flat(Alone(service, rows)) == rows
  {
    FlatOnly(Alone(service, rows), service);
    assert Sort(le, []) == [];
  }

  /** Two rows of one service, one row to show: the database picks before the final sort can. */
  lemma FirstOfTwo(service: nat, r: Row, q: Row)
    ensures CutPage(Alone(service, [r, q]), 0, 1) == [if SqlLe(r, q) then r else q]
    ensures FullPage(Alone(service, [r, q]), 0, 1) == [if ListLe(r, q) then r else q]
  {
    TwoRows(SqlLe, r, q);
    TwoRows(ListLe, r, q);
    var first := if SqlLe(r, q) then r else q;
    AloneTops(SqlLe, 1, service, [r, q]);
    AloneTops(SqlLe, 1, service, [first]);
    OrderedUnique([first]);
    assert Sort(ListLe, [first]) == [first];
  }

  /** Conversely, every row with a zero in front of a later time gets some listing wrong: beside a row
      half as far from zero, the database and the final sort disagree on which of the two is first. */
  lemma UntimelyRowLost(r: Row)
    requires !Timely(r)
    ensures exists q ::
              var ledger := Alone(r.service, [r, q]);
              Keyed(ledger) && CutPage(ledger, 0, 1) != FullPage(ledger, 0, 1)
  {
    var q := Row(r.service, r.key + "x", r.status, Some(ListTime(r) / 2.0), None, None);
    assert |q.key| == |r.key| + 1;
    var ledger := Alone(r.service, [r, q]);
    assert Keyed(ledger);
    FirstOfTwo(r.service, r, q);
    HalfTime(r, q);
  }

  lemma HalfTime(r: Row, q: Row)
    requires !Timely(r) && q.claimed == Some(ListTime(r) / 2.0)
    ensures SqlLe(r, q) != ListLe(r, q)
  {
    TimelyIff(r);
  }

  lemma TwoRows(le: (Row, Row) -> bool, r: Row, q: Row)
    ensures Sort(le, [r, q]) == if le(r, q) then [r, q] else [q, r]
    ensures Take(1, Sort(le, [r, q])) == [if le(r, q) then r else q]
  {
    assert [r, q][1..] == [q] && [q][1..] == [];
    assert Sort(le, [q]) == Insert(le, q, Sort(le, [])) == [q];
    assert Insert(le, r, [q]) == if le(r, q) then [r, q] else [q] + Insert(le, r, []);
  }
}
