/** What a page of the ledger shows, said of the rows alone (`list_ingest_ledger_entries` of backend/celery_app.py). */
module LedgerListing {
  import opened Counting
  import opened Ledger
  import opened Sorting
  import opened Text
  import opened Wrappers

  /** The rows a status asks for: all, those with the status, or, if it is none, the problem rows. */
  predicate Asked(status: string, r: Row) {
    || status == "all"
    || (status in ["discovered", "claimed", "committed", "quarantined", "dead_letter"] && r.status == status)
    || (status !in ["all", "discovered", "claimed", "committed", "quarantined", "dead_letter"]
        && (r.status == "dead_letter" || r.status == "quarantined"))
  }

  function FirstSet(times: seq<Option<real>>): real {
    if times == [] then 0.0
    else if times[0].None? || times[0].value == 0.0 then FirstSet(times[1..])
    else times[0].value
  }

  /** When a row was last heard of: claimed, or else discovered, or else committed; unknown is zero. */
  function Moment(r: Row): real { FirstSet([r.claimed, r.discovered, r.committed]) }

  /** Later comes first; at the same moment the greater key does, and at the same key the earlier service. */
  predicate ShownBefore(a: Row, b: Row) {
    || Moment(a) > Moment(b)
    || (Moment(a) == Moment(b) && a.key != b.key && StrLe(b.key, a.key))
    || (Moment(a) == Moment(b) && a.key == b.key && a.service < b.service)
  }

  lemma SelectedIs(status: string, r: Row)
    ensures Selected(status, r) <==> Asked(status, r)
  {
  }

  lemma MomentIs(r: Row)
    ensures Moment(r) == ListTime(r)
  {
    var times := [r.claimed, r.discovered, r.committed];
    assert times[1..] == [r.discovered, r.committed] && times[1..][1..] == [r.committed] && times[1..][1..][1..] == [];
    assert FirstSet(times[1..][1..][1..]) == 0.0;
    assert FirstSet(times[1..][1..]) == if r.committed.None? then 0.0 else r.committed.value;
    assert FirstSet(times[1..]) == if r.discovered.None? || r.discovered.value == 0.0 then FirstSet(times[1..][1..]) else r.discovered.value;
  }

  /** The rows that could be listed: of the services that answered, those asked for. */
  predicate Due(services: seq<Answer>, status: string, r: Row) {
    exists i :: 0 <= i < |services| && services[i].Answered? && r in services[i].rows && Asked(status, r)
  }

  lemma MatchingIs(services: seq<Answer>, status: string, r: Row)
    ensures r in Flat(Matching(status, services)) <==> Due(services, status, r)
  {
    var m: seq<seq<Row>> := Matching(status, services);
    FlatMember(m, r);
    SelectedIs(status, r);
    forall i | 0 <= i < |services| ensures r in m[i] <==> services[i].Answered? && r in services[i].rows && Asked(status, r) {
      SelectKeyed(status, Listed(services)[i]);
    }
  }

  /** Rows in the order of the page. */
  predicate InOrder(all: seq<Row>) { forall j, k :: 0 <= j < k < |all| ==> ShownBefore(all[j], all[k]) }

  lemma SlotBefore(a: Row, b: Row)
    requires SlotLe(SlotOf(a), SlotOf(b)) && SlotOf(a) != SlotOf(b)
    ensures ShownBefore(a, b)
  {
    MomentIs(a);
    MomentIs(b);
  }

  lemma SortedInOrder(matching: seq<seq<Row>>)
    requires Ledger.Keyed(matching)
    ensures InOrder(Sort(ListLe, Flat(matching)))
  {
    var rows := Flat(matching);
    FlatOrdered(matching, 0);
    StableIsSlot(rows);
    var all := Sort(By(SlotOf, SlotLe), rows);
    SlotOrder();
    BySlotPreorder();
    SortSorted(By(SlotOf, SlotLe), rows);
    SortPermutes(By(SlotOf, SlotLe), rows);
    DistinctSlots(rows, all);
    forall j, k | 0 <= j < k < |all| ensures ShownBefore(all[j], all[k]) {
      assert By(SlotOf, SlotLe)(all[j], all[k]);
      SlotBefore(all[j], all[k]);
    }
  }

  lemma BySlotPreorder()
    ensures TotalPreorder(By(SlotOf, SlotLe))
  {
    SlotOrder();
    forall a, b ensures Compares(By(SlotOf, SlotLe), a, b) {
      assert Compares(SlotLe, SlotOf(a), SlotOf(b));
    }
    forall a, b, c ensures Chains(By(SlotOf, SlotLe), a, b, c) {
      assert Chains(SlotLe, SlotOf(a), SlotOf(b), SlotOf(c));
    }
  }

  /** Sorting keeps the rows apart. */
  lemma DistinctSlots(rows: seq<Row>, all: seq<Row>)
    requires Ordered(rows) && multiset(all) == multiset(rows)
    ensures forall j, k :: 0 <= j < k < |all| ==> SlotOf(all[j]) != SlotOf(all[k])
  {
    forall j, k | 0 <= j < k < |all| ensures SlotOf(all[j]) != SlotOf(all[k]) {
      if SlotOf(all[j]) == SlotOf(all[k]) {
        assert all[j] in multiset(rows) && all[k] in multiset(rows);
        SlotsDiffer(rows);
        TwiceIn(all, j, k);
        OnceIn(rows, all[j]);
      }
    }
  }

  lemma TwiceIn(all: seq<Row>, j: nat, k: nat)
    requires j < k < |all| && all[j] == all[k]
    ensures multiset(all)[all[j]] >= 2
  {
    assert all == all[..j] + [all[j]] + all[j + 1..k] + [all[k]] + all[k + 1..];
  }

  lemma {:induction false} OnceIn(rows: seq<Row>, r: Row)
    requires Ordered(rows)
    ensures multiset(rows)[r] <= 1
  {
    if rows != [] {
      OnceIn(rows[1..], r);
      assert rows == [rows[0]] + rows[1..];
      assert rows[0] !in rows[1..];
    }
  }

  /** The page: with unique keys per service and times both readings agree on, there is one arrangement of all due rows,
      each once, in the order of the page, and the items are its entries from the offset on, as many as the limit allows. */
  lemma PageShows(services: seq<Answer>, status: string, offset: nat, limit: nat) returns (all: seq<Row>)
    requires Ledger.Keyed(Listed(services)) && AllTimely(Listed(services))
    ensures InOrder(all) && forall r :: r in all <==> Due(services, status, r)
    ensures var items := CutPage(Matching(status, services), offset, limit);
            && |items| == (if |all| <= offset then 0 else if |all| - offset <= limit then |all| - offset else limit)
            && forall k :: 0 <= k < |items| ==> items[k] == all[offset + k]
  {
    var m: seq<seq<Row>> := Matching(status, services);
    MatchingKeyed(status, services);
    PageExact(m, offset, limit);
    all := Sort(ListLe, Flat(m));
    SortedInOrder(m);
    forall r ensures r in all <==> Due(services, status, r) {
      InSorted(Flat(m), r);
      MatchingIs(services, status, r);
    }
    PageIs(all, offset, limit);
  }

  lemma InSorted(rows: seq<Row>, r: Row)
    ensures r in Sort(ListLe, rows) <==> r in rows
  {
    SortPermutes(ListLe, rows);
    assert r in Sort(ListLe, rows) <==> r in multiset(Sort(ListLe, rows));
  }

  lemma PageIs(all: seq<Row>, offset: nat, limit: nat)
    ensures var items := Page(all, offset, limit);
            && |items| == (if |all| <= offset then 0 else if |all| - offset <= limit then |all| - offset else limit)
            && forall k :: 0 <= k < |items| ==> items[k] == all[offset + k]
  {
  }

  lemma {:induction false} SelectCounts(status: string, rows: seq<Row>)
    ensures |Select(status, rows)| == Number(rows, (r: Row) => Asked(status, r))
  {
    if rows != [] {
      SelectCounts(status, rows[1..]);
      SelectedIs(status, rows[0]);
    }
  }

  /** How many rows a service that could be counted has for the status. */
  function CountOfOne(status: string, a: Answer): nat {
    if a.Failed? then 0 else Number(a.rows, (r: Row) => Asked(status, r))
  }

  function TotalOf(status: string, services: seq<Answer>): nat {
    if services == [] then 0 else CountOfOne(status, services[0]) + TotalOf(status, services[1..])
  }

  /** The total counts the asked-for rows of every service that could be counted, listed or not. */
  lemma TotalCounts(status: string, services: seq<Answer>)
    ensures Counted(status, services) == TotalOf(status, services)
  {
    assert services[0..] == services && services[..0] == [];
    TotalFrom(status, services, 0);
  }

  lemma {:induction false} TotalFrom(status: string, services: seq<Answer>, n: nat)
    requires n <= |services|
    ensures Counted(status, services) == Counted(status, services[..n]) + TotalOf(status, services[n..])
    decreases |services| - n
  {
    if n == |services| {
      assert services[..n] == services;
    } else {
      TotalFrom(status, services, n + 1);
      assert services[..n + 1][..n] == services[..n];
      assert services[n..][0] == services[n] && services[n..][1..] == services[n + 1..];
      if !services[n].Failed? {
        SelectCounts(status, services[n].rows);
      }
    }
  }
}
