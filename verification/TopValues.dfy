/** `_merge_top_values_with_exact_end` of backend/high_scale/dashboard.py: ten base values patched with the
    values of the facts at the end bound, and how far its counts can be off. */
module TopValues {
  import opened Counting
  import opened Sorting
  import opened Text

  type Counts = seq<Entry<string>>

  /** Order by count descending, then value. */
  predicate TopLe(a: Entry<string>, b: Entry<string>) {
    a.count > b.count || (a.count == b.count && StrLe(a.key, b.key))
  }

  lemma TopOrder()
    ensures TotalOrder(TopLe)
  {
    forall a, b ensures Compares(TopLe, a, b) {
      StrTotal(a.key, b.key);
    }
    forall a, b, c ensures Chains(TopLe, a, b, c) {
      if TopLe(a, b) && TopLe(b, c) && a.count == b.count == c.count {
        StrTransitive(a.key, b.key, c.key);
      }
    }
    forall a, b ensures Separates(TopLe, a, b) {
      if TopLe(a, b) && TopLe(b, a) {
        StrAntisymmetric(a.key, b.key);
      }
    }
  }

  /** The first `limit` entries in order, as `ORDER BY ... LIMIT` and `sorted(...)[:limit]` give them. */
  function Top(limit: nat, t: Counts): Counts { Take(limit, Sort(TopLe, t)) }

  lemma TopFacts(limit: nat, t: Counts, e: Entry<string>)
    ensures |Top(limit, t)| == if |t| <= limit then |t| else limit
    ensures Sorted(TopLe, Top(limit, t))
    ensures e in Top(limit, t) ==> e in t
    ensures e in t && e !in Top(limit, t) ==> |Top(limit, t)| == limit
    ensures e in t && e !in Top(limit, t) && limit > 0 ==> TopLe(Top(limit, t)[limit - 1], e)
  {
    TopOrder();
    SortPermutes(TopLe, t);
    SortSorted(TopLe, t);
    var s := Sort(TopLe, t);
    assert e in s <==> e in multiset(s);
    assert e in t <==> e in multiset(t);
    if e in t && e !in Top(limit, t) {
      var i :| 0 <= i < |s| && s[i] == e;
    }
  }

  lemma TopDistinct(limit: nat, t: Counts)
    requires Distinct(t)
    ensures Distinct(Top(limit, t))
  {
    TopOrder();
    SortPermutes(TopLe, t);
    var s := Sort(TopLe, t);
    forall i, j | 0 <= i < j < |s| ensures s[i].key != s[j].key {
      if s[i].key == s[j].key {
        assert s[i] in multiset(t) && s[j] in multiset(t);
        SameKeySameEntry(t, s[i], s[j]);
        TwiceInSequence(s, i, j);
        OnceInDistinct(t, s[i]);
      }
    }
  }

  lemma SameKeySameEntry(t: Counts, a: Entry<string>, b: Entry<string>)
    requires Distinct(t) && a in t && b in t && a.key == b.key
    ensures a == b
  {
  }

  lemma TwiceInSequence<T>(s: seq<T>, i: nat, j: nat)
    requires i < j < |s| && s[i] == s[j]
    ensures multiset(s)[s[i]] >= 2
  {
    assert s == s[..j] + s[j..];
    assert s[i] in s[..j] && s[j] in s[j..];
    assert s[..j][i] == s[i] && s[j..][0] == s[j];
  }

  lemma {:induction false} OnceInDistinct(t: Counts, e: Entry<string>)
    requires Distinct(t)
    ensures multiset(t)[e] <= 1
  {
    if t != [] {
      assert t == [t[0]] + t[1..];
      OnceInDistinct(t[1..], e);
      if e == t[0] {
        assert e !in t[1..];
      }
    }
  }

  // ---- The merge ----------------------------------------------------------------------------

  function Patched(base: Counts, ends: seq<string>): Counts {
    if ends == [] then base
    else
      var before := Patched(base, ends[..|ends| - 1]);
      if ends[|ends| - 1] == "" then before else Bump(before, ends[|ends| - 1], 1)
  }

  method MergeTop(base: Counts, ends: seq<string>, limit: nat) returns (top: Counts)
    ensures top == Top(limit, Patched(base, ends))
  {
    var counts := base;
    for i := 0 to |ends|
      invariant counts == Patched(base, ends[..i])
    {
      assert ends[..i + 1][..i] == ends[..i];
      if ends[i] != "" {
        counts := Bump(counts, ends[i], 1);
      }
    }
    assert ends[..|ends|] == ends;
    top := Take(limit, Sort(TopLe, counts));
  }

  function Seen(ends: seq<string>, v: string): nat { Number(ends, (x: string) => x == v) }

  lemma {:induction false} PatchedCount(base: Counts, ends: seq<string>, v: string)
    requires Distinct(base)
    ensures Distinct(Patched(base, ends))
    ensures CountOf(Patched(base, ends), v) == CountOf(base, v) + if v == "" then 0 else Seen(ends, v)
  {
    if ends != [] {
      var front, last := ends[..|ends| - 1], ends[|ends| - 1];
      PatchedCount(base, front, v);
      assert ends == front + [last];
      NumberConcat(front, [last], (x: string) => x == v);
      if last != "" {
        BumpCount(Patched(base, front), last, 1, v);
        BumpKeys(Patched(base, front), last, 1);
      }
    }
  }

  /** How often a value occurs in what was grouped and in what is patched in. */
  function Together(all: Counts, ends: seq<string>, v: string): nat { CountOf(all, v) + Seen(ends, v) }

  /** What the ten base values can hide: at most the count of the last one, and nothing if there are
      fewer than ten. */
  function Hidden(base: Counts): nat { if |base| == 10 then base[9].count else 0 }

  lemma BaseKnows(all: Counts, v: string)
    requires Distinct(all)
    ensures var base := Top(10, all);
            && Distinct(base)
            && (v in Keys(base) ==> CountOf(base, v) == CountOf(all, v))
            && (v !in Keys(base) ==> CountOf(base, v) == 0 && CountOf(all, v) <= Hidden(base))
  {
    var base := Top(10, all);
    TopDistinct(10, all);
    EntryCount(base, Entry(v, 0));
    if v in Keys(base) {
      var e :| e in base && e.key == v;
      TopFacts(10, all, e);
      EntryCount(base, e);
      EntryCount(all, e);
    } else if v in Keys(all) {
      var e :| e in all && e.key == v;
      EntryCount(all, e);
      TopFacts(10, all, e);
    } else {
      EntryCount(all, Entry(v, 0));
    }
  }

  /** A reported non-empty value never overcounts; it is exact if it was among the base values, and
      otherwise falls short by just its count before the end, which is at most the smallest of ten. */
  lemma ReportedWithin(all: Counts, ends: seq<string>, limit: nat, r: Entry<string>)
    requires Distinct(all) && r.key != "" && r in Top(limit, Patched(Top(10, all), ends))
    ensures var base := Top(10, all);
            && r.count <= Together(all, ends, r.key) <= r.count + Hidden(base)
            && (r.key in Keys(base) || |base| < 10 ==> r.count == Together(all, ends, r.key))
            && (r.key !in Keys(base) ==> Together(all, ends, r.key) == r.count + CountOf(all, r.key))
  {
    var base := Top(10, all);
    BaseKnows(all, r.key);
    PatchedCount(base, ends, r.key);
    TopFacts(limit, Patched(base, ends), r);
    EntryCount(Patched(base, ends), r);
  }

  /** A value left out is no more frequent, up to what the base hides, than the last one reported; and
      if the report is not full, it did not occur at all, up to the same. */
  lemma OmittedWithin(all: Counts, ends: seq<string>, limit: nat, v: string)
    requires Distinct(all) && v != "" && limit > 0 && v !in Keys(Top(limit, Patched(Top(10, all), ends)))
    ensures var base := Top(10, all);
            var top := Top(limit, Patched(base, ends));
            Together(all, ends, v) <= Hidden(base) + if |top| == limit then top[limit - 1].count else 0
  {
    var base := Top(10, all);
    var counts := Patched(base, ends);
    var top := Top(limit, counts);
    BaseKnows(all, v);
    PatchedCount(base, ends, v);
    TopFacts(limit, counts, Entry(v, 0));
    if v in Keys(counts) {
      var e :| e in counts && e.key == v;
      EntryCount(counts, e);
      TopFacts(limit, counts, e);
    } else {
      EntryCount(counts, Entry(v, 0));
    }
  }
}
