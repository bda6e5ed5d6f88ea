/** Reading the scatter sample for a window (backend/high_scale/performance.py): each batch was cut to its sample
    before the reader keeps the minutes it is asked for. */
module ScatterWindow {
  import opened Sorting
  import opened PerformanceProjection

  function ByKey(): (Candidate, Candidate) -> bool { By(KeyOf, NatLe) }

  lemma ByKeyIs(a: Candidate, b: Candidate)
    ensures ByKey()(a, b) <==> a.key <= b.key
  {
    assert NatLe(KeyOf(a), KeyOf(b)) <==> a.key <= b.key;
  }

  function InWindow(p: int -> bool): Candidate -> bool { (c: Candidate) => p(c.minute) }

  /** What the reader gets: the window's part of the stored samples, ordered by key and cut. */
  function Shown(p: int -> bool, batches: seq<seq<Candidate>>): seq<Candidate> {
    Take(SAMPLE, Sort(ByKey(), Filter(InWindow(p), Flat(Samples(batches)))))
  }

  /** The sample of the window's candidates. */
  function Wanted(p: int -> bool, batches: seq<seq<Candidate>>): seq<Candidate> {
    Take(300, Sort(ByKey(), Filter(InWindow(p), Flat(batches))))
  }

  predicate ToldApart(cs: seq<Candidate>) { forall x, y :: x in cs && y in cs && KeyOf(x) == KeyOf(y) ==> x == y }

  lemma DistinctToldApart(cs: seq<Candidate>)
    requires DistinctKeys(cs)
    ensures ToldApart(cs)
  {
  }

  // ---- A batch that is not torn -------------------------------------------------------------

  /** A batch that was not cut, or that the window does not divide. */
  predicate Whole(p: int -> bool, batch: seq<Candidate>) {
    || |batch| <= 300
    || (forall c :: c in batch ==> p(c.minute))
    || (forall c :: c in batch ==> !p(c.minute))
  }

  /** The first of the window's part of a batch. */
  function WindowTop(p: int -> bool, batch: seq<Candidate>): seq<Candidate> {
    Take(SAMPLE, Sort(ByKey(), Filter(InWindow(p), batch)))
  }

  /** Such a batch's sample has the same part of the window's sample as the batch itself. */
  lemma WholeTop(p: int -> bool, batch: seq<Candidate>)
    requires DistinctKeys(batch) && Whole(p, batch)
    ensures WindowTop(p, Take(SAMPLE, Sort(KeyIndexLe, batch))) == WindowTop(p, batch)
  {
    var sample := Take(SAMPLE, Sort(KeyIndexLe, batch));
    SortPermutes(KeyIndexLe, batch);
    if |batch| <= SAMPLE {
      assert sample == Sort(KeyIndexLe, batch);
      KeyOrder();
      FilterMultiset(InWindow(p), sample, batch);
      FilteredApart(p, sample, batch);
      SortByKeyUnique(KeyOf, NatLe, Filter(InWindow(p), sample), Filter(InWindow(p), batch));
    } else if forall c :: c in batch ==> p(c.minute) {
      SampleWithin(batch);
      FilterAll(InWindow(p), batch);
      FilterAll(InWindow(p), sample);
      SampleByKey(batch);
      SortAgain(batch);
    } else {
      SampleWithin(batch);
      FilterNone(InWindow(p), batch);
      FilterNone(InWindow(p), sample);
    }
  }

  lemma SampleWithin(batch: seq<Candidate>)
    ensures forall c :: c in Take(SAMPLE, Sort(KeyIndexLe, batch)) ==> c in batch
  {
    SortPermutes(KeyIndexLe, batch);
    forall c | c in Take(SAMPLE, Sort(KeyIndexLe, batch)) ensures c in batch {
      assert c in multiset(Sort(KeyIndexLe, batch));
    }
  }

  lemma FilteredApart(p: int -> bool, sample: seq<Candidate>, batch: seq<Candidate>)
    requires multiset(sample) == multiset(batch) && DistinctKeys(batch)
    ensures ToldApart(Filter(InWindow(p), sample))
  {
    DistinctToldApart(batch);
    forall x | x in Filter(InWindow(p), sample) ensures x in batch {
      FilterMember(InWindow(p), sample, x);
      assert x in multiset(sample);
    }
  }

  /** Sorting the sample again and cutting it again changes nothing. */
  lemma SortAgain(batch: seq<Candidate>)
    requires DistinctKeys(batch)
    ensures var top := Take(SAMPLE, Sort(ByKey(), batch)); Take(SAMPLE, Sort(ByKey(), top)) == top
  {
    KeyOrder();
    DistinctToldApart(batch);
    FlatSingle(batch);
    TopByKey(KeyOf, NatLe, [batch], SAMPLE);
    assert Tops(ByKey(), SAMPLE, [batch]) == [Take(SAMPLE, Sort(ByKey(), batch))];
    FlatSingle(Take(SAMPLE, Sort(ByKey(), batch)));
  }

  // ---- All batches whole --------------------------------------------------------------------

  lemma TopsAt(p: int -> bool, batches: seq<seq<Candidate>>)
    ensures var tops := Tops(ByKey(), SAMPLE, FilterEach(InWindow(p), batches));
            |tops| == |batches| && forall i :: 0 <= i < |batches| ==> tops[i] == WindowTop(p, batches[i])
  {
  }

  lemma TopsWhole(p: int -> bool, batches: seq<seq<Candidate>>)
    requires DistinctKeys(Flat(batches)) && forall i :: 0 <= i < |batches| ==> Whole(p, batches[i])
    ensures Tops(ByKey(), SAMPLE, FilterEach(InWindow(p), Samples(batches)))
         == Tops(ByKey(), SAMPLE, FilterEach(InWindow(p), batches))
  {
    TopsAt(p, batches);
    TopsAt(p, Samples(batches));
    forall i | 0 <= i < |batches| ensures WindowTop(p, Samples(batches)[i]) == WindowTop(p, batches[i]) {
      PartDistinct(batches, i);
      WholeTop(p, batches[i]);
    }
  }

  lemma ShownWhole(p: int -> bool, batches: seq<seq<Candidate>>)
    requires DistinctKeys(Flat(batches)) && forall i :: 0 <= i < |batches| ==> Whole(p, batches[i])
    ensures Shown(p, batches) == Wanted(p, batches)
  {
    KeyOrder();
    TopsWhole(p, batches);
    WindowApart(p, batches);
    SameTops(KeyOf, NatLe, FilterEach(InWindow(p), Samples(batches)), FilterEach(InWindow(p), batches), SAMPLE);
  }

  lemma WindowApart(p: int -> bool, batches: seq<seq<Candidate>>)
    requires DistinctKeys(Flat(batches))
    ensures ToldApart(Filter(InWindow(p), Flat(batches))) && ToldApart(Filter(InWindow(p), Flat(Samples(batches))))
    ensures Flat(FilterEach(InWindow(p), Samples(batches))) == Filter(InWindow(p), Flat(Samples(batches)))
    ensures Flat(FilterEach(InWindow(p), batches)) == Filter(InWindow(p), Flat(batches))
  {
    FilterFlat(InWindow(p), Samples(batches));
    FilterFlat(InWindow(p), batches);
    DistinctToldApart(Flat(batches));
    forall x | x in Filter(InWindow(p), Flat(batches)) ensures x in Flat(batches) {
      FilterMember(InWindow(p), Flat(batches), x);
    }
    forall x | x in Filter(InWindow(p), Flat(Samples(batches))) ensures x in Flat(batches) {
      FilterMember(InWindow(p), Flat(Samples(batches)), x);
      TopsWithin(KeyIndexLe, batches, SAMPLE, x);
    }
  }

  // ---- The place of a key -------------------------------------------------------------------

  function Below(k: nat): Candidate -> bool { (c: Candidate) => c.key < k }

  /** In a sorted sequence the smaller keys come first and are as many as are selected. */
  lemma {:induction false} RankSplits(r: seq<Candidate>, k: nat, i: nat)
    requires Sorted(ByKey(), r) && i < |r|
    ensures i < |Filter(Below(k), r)| <==> r[i].key < k
  {
    if i == 0 {
      if r[0].key >= k {
        NoneBelow(r, k);
      }
    } else if r[0].key < k {
      ByKeyIs(r[0], r[i]);
      RankSplits(r[1..], k, i - 1);
    } else {
      ByKeyIs(r[0], r[i]);
      NoneBelow(r, k);
    }
  }

  lemma NoneBelow(r: seq<Candidate>, k: nat)
    requires Sorted(ByKey(), r) && r != [] && r[0].key >= k
    ensures Filter(Below(k), r) == []
  {
    forall c | c in r ensures !Below(k)(c) {
      var i :| 0 <= i < |r| && r[i] == c;
      ByKeyIs(r[0], r[i]);
    }
    FilterNone(Below(k), r);
  }

  lemma ByKeyOrder()
    ensures TotalPreorder(ByKey())
  {
    forall x, y ensures Compares(ByKey(), x, y) {
      ByKeyIs(x, y);
      ByKeyIs(y, x);
    }
    forall x, y, z ensures Chains(ByKey(), x, y, z) {
      ByKeyIs(x, y);
      ByKeyIs(y, z);
      ByKeyIs(x, z);
    }
  }

  /** How many of `s` have a smaller key. */
  function Smaller(s: seq<Candidate>, x: Candidate): nat { |Filter(Below(x.key), s)| }

  lemma SortedRank(s: seq<Candidate>, x: Candidate)
    ensures Sorted(ByKey(), Sort(ByKey(), s)) && |Sort(ByKey(), s)| == |s|
    ensures Smaller(s, x) == Smaller(Sort(ByKey(), s), x)
    ensures x in s ==> x in Sort(ByKey(), s)
  {
    ByKeyOrder();
    SortSorted(ByKey(), s);
    SortPermutes(ByKey(), s);
    FilterMultiset(Below(x.key), s, Sort(ByKey(), s));
    SameSize(Filter(Below(x.key), s), Filter(Below(x.key), Sort(ByKey(), s)));
    assert x in s ==> x in multiset(s);
  }

  lemma SameSize(a: seq<Candidate>, b: seq<Candidate>)
    requires multiset(a) == multiset(b)
    ensures |a| == |b|
  {
    assert |a| == |multiset(a)| == |multiset(b)| == |b|;
  }

  /** With `k` smaller keys, a candidate misses the first `k`. */
  lemma CutOff(s: seq<Candidate>, x: Candidate, k: nat)
    requires k <= Smaller(s, x)
    ensures x !in Take(k, Sort(ByKey(), s))
  {
    SortedRank(s, x);
    if x in Take(k, Sort(ByKey(), s)) {
      var i :| 0 <= i < k && i < |Sort(ByKey(), s)| && Sort(ByKey(), s)[i] == x;
      RankSplits(Sort(ByKey(), s), x.key, i);
    }
  }

  /** With fewer, it is among them. */
  lemma KeptIn(s: seq<Candidate>, x: Candidate, k: nat)
    requires ToldApart(s) && x in s && Smaller(s, x) < k
    ensures x in Take(k, Sort(ByKey(), s))
  {
    SortedRank(s, x);
    SortPermutes(ByKey(), s);
    var r := Sort(ByKey(), s);
    forall y | y in r ensures y in s {
      assert y in multiset(r);
    }
    AtRank(r, x);
    assert Take(k, r)[Smaller(s, x)] == x;
  }

  lemma AtRank(r: seq<Candidate>, x: Candidate)
    requires Sorted(ByKey(), r) && ToldApart(r) && x in r
    ensures Smaller(r, x) < |r| && r[Smaller(r, x)] == x
  {
    var d := Smaller(r, x);
    var i :| 0 <= i < |r| && r[i] == x;
    RankSplits(r, x.key, i);
    RankSplits(r, x.key, d);
    ByKeyIs(r[d], r[i]);
    assert KeyOf(r[d]) == KeyOf(x);
  }

  // ---- The same candidates under other keys -------------------------------------------------

  function RekeyedBatch(keys: (nat, nat) -> nat, i: nat, batch: seq<Candidate>): seq<Candidate> {
    seq(|batch|, j requires 0 <= j < |batch| => batch[j].(key := keys(i, j)))
  }

  /** The candidates of the batches, with the key of each given by its place. */
  function Rekeyed(keys: (nat, nat) -> nat, batches: seq<seq<Candidate>>): seq<seq<Candidate>> {
    seq(|batches|, i requires 0 <= i < |batches| => RekeyedBatch(keys, i, batches[i]))
  }

  lemma RekeyedWhole(p: int -> bool, keys: (nat, nat) -> nat, i: nat, batch: seq<Candidate>)
    requires Whole(p, batch)
    ensures Whole(p, RekeyedBatch(keys, i, batch))
  {
    var to := RekeyedBatch(keys, i, batch);
    forall c | c in to ensures exists j :: 0 <= j < |batch| && batch[j].minute == c.minute {
      var j :| 0 <= j < |to| && to[j] == c;
      assert batch[j].minute == c.minute;
    }
  }

  /** Batches with distinct keys that share none have distinct keys together. */
  lemma {:induction false} FlatDistinct(batches: seq<seq<Candidate>>)
    requires forall i :: 0 <= i < |batches| ==> DistinctKeys(batches[i])
    requires forall i, j :: 0 <= i < j < |batches| ==> Apart(batches[i], batches[j])
    ensures DistinctKeys(Flat(batches))
  {
    if batches != [] {
      FlatDistinct(batches[1..]);
      var a, b := batches[0], Flat(batches[1..]);
      forall y | y in b ensures forall x :: x in a ==> x.key != y.key {
        FlatMember(batches[1..], y);
        var i :| 0 <= i < |batches[1..]| && y in batches[1..][i];
        assert Apart(batches[0], batches[i + 1]);
      }
      BothDistinct(a, b);
    }
  }

  predicate Apart(a: seq<Candidate>, b: seq<Candidate>) { forall x, y :: x in a && y in b ==> x.key != y.key }

  lemma BothDistinct(a: seq<Candidate>, b: seq<Candidate>)
    requires DistinctKeys(a) && DistinctKeys(b) && Apart(a, b)
    ensures DistinctKeys(a + b)
  {
    var s := a + b;
    forall i, j | 0 <= i < j < |s| ensures s[i].key != s[j].key {
      if j < |a| {
        assert s[i] == a[i] && s[j] == a[j];
      } else if i < |a| {
        assert s[i] in a && s[j] in b;
      } else {
        assert s[i] == b[i - |a|] && s[j] == b[j - |a|];
      }
    }
  }

  // ---- A torn batch -------------------------------------------------------------------------

  function Offset(batches: seq<seq<Candidate>>, i: nat): nat
    decreases i
  {
    if i == 0 || i > |batches| then 0 else Offset(batches, i - 1) + |batches[i - 1]|
  }

  lemma {:induction false} OffsetGrows(batches: seq<seq<Candidate>>, i: nat, j: nat)
    requires i < j <= |batches|
    ensures Offset(batches, i) + |batches[i]| <= Offset(batches, j)
  {
    if i + 1 < j {
      OffsetGrows(batches, i, j - 1);
    }
  }

  /** Keys that put batch `b` before all others and, in it, what is outside the window first. */
  function TearingKey(p: int -> bool, batches: seq<seq<Candidate>>, b: nat, i: nat, j: nat): nat
    requires b < |batches|
  {
    var n := |batches[b]|;
    if i != b then n + n + Offset(batches, i) + j
    else if j < n && p(batches[b][j].minute) then n + j else j
  }

  function Tearing(p: int -> bool, batches: seq<seq<Candidate>>, b: nat): (nat, nat) -> nat
    requires b < |batches|
  {
    (i: nat, j: nat) => TearingKey(p, batches, b, i, j)
  }

  function Torn(p: int -> bool, batches: seq<seq<Candidate>>, b: nat): seq<seq<Candidate>>
    requires b < |batches|
  {
    Rekeyed(Tearing(p, batches, b), batches)
  }

  lemma TornKeys(p: int -> bool, batches: seq<seq<Candidate>>, b: nat, i: nat, c: Candidate)
    requires b < |batches| && i < |batches| && c in Torn(p, batches, b)[i]
    ensures i == b ==> c.key < |batches[b]| + |batches[b]|
    ensures i != b ==> |batches[b]| + |batches[b]| + Offset(batches, i) <= c.key
    ensures i != b ==> c.key < |batches[b]| + |batches[b]| + Offset(batches, i) + |batches[i]|
  {
  }

  lemma TornApart(p: int -> bool, batches: seq<seq<Candidate>>, b: nat, i: nat, j: nat)
    requires b < |batches| && i < j < |batches|
    ensures Apart(Torn(p, batches, b)[i], Torn(p, batches, b)[j])
  {
    var t: seq<seq<Candidate>> := Torn(p, batches, b);
    OffsetGrows(batches, i, j);
    forall x, y | x in t[i] && y in t[j] ensures x.key != y.key {
      TornKeys(p, batches, b, i, x);
      TornKeys(p, batches, b, j, y);
    }
  }

  lemma TornDistinct(p: int -> bool, batches: seq<seq<Candidate>>, b: nat)
    requires b < |batches|
    ensures DistinctKeys(Flat(Torn(p, batches, b)))
  {
    var t: seq<seq<Candidate>> := Torn(p, batches, b);
    forall i | 0 <= i < |t| ensures DistinctKeys(t[i]) {
    }
    forall i, j | 0 <= i < j < |t| ensures Apart(t[i], t[j]) {
      TornApart(p, batches, b, i, j);
    }
    FlatDistinct(t);
  }

  function Outside(p: int -> bool): Candidate -> bool { (c: Candidate) => !p(c.minute) }

  /** Before a candidate of the window come, in its batch, all outside it and those of the window before it. */
  lemma TornBatchRank(p: int -> bool, batches: seq<seq<Candidate>>, b: nat, j: nat)
    requires b < |batches| && j < |batches[b]| && p(batches[b][j].minute)
    ensures var t := Torn(p, batches, b)[b];
            Smaller(t, t[j]) == |Filter(Outside(p), t)| + |Filter(InWindow(p), t[..j])|
  {
    var t := Torn(p, batches, b)[b];
    assert t == t[..j] + t[j..];
    FilterConcat(Below(t[j].key), t[..j], t[j..]);
    FilterConcat(Outside(p), t[..j], t[j..]);
    TornBefore(p, batches, b, j);
    TornAfter(p, batches, b, j);
    FilterSplits(InWindow(p), Outside(p), t[..j]);
  }

  lemma TornBefore(p: int -> bool, batches: seq<seq<Candidate>>, b: nat, j: nat)
    requires b < |batches| && j < |batches[b]| && p(batches[b][j].minute)
    ensures var t := Torn(p, batches, b)[b]; Filter(Below(t[j].key), t[..j]) == t[..j]
  {
    var t := Torn(p, batches, b)[b];
    FilterAll(Below(t[j].key), t[..j]);
  }

  lemma TornAfter(p: int -> bool, batches: seq<seq<Candidate>>, b: nat, j: nat)
    requires b < |batches| && j < |batches[b]| && p(batches[b][j].minute)
    ensures var t := Torn(p, batches, b)[b]; Filter(Below(t[j].key), t[j..]) == Filter(Outside(p), t[j..])
  {
    var t := Torn(p, batches, b)[b];
    FilterSame(Below(t[j].key), Outside(p), t[j..]);
  }

  function Both(p: int -> bool, k: nat): Candidate -> bool { (c: Candidate) => p(c.minute) && c.key < k }

  /** Before it come, in the window, those of its batch's part before it. */
  lemma TornWindowRank(p: int -> bool, batches: seq<seq<Candidate>>, b: nat, j: nat)
    requires b < |batches| && j < |batches[b]| && p(batches[b][j].minute)
    ensures var t := Torn(p, batches, b);
            Smaller(Filter(InWindow(p), Flat(t)), t[b][j]) == |Filter(InWindow(p), t[b][..j])|
  {
    var t: seq<seq<Candidate>> := Torn(p, batches, b);
    var k := t[b][j].key;
    FilterTwice(InWindow(p), Below(k), Both(p, k), Flat(t));
    FilterFlat(Both(p, k), t);
    forall i | 0 <= i < |t| && i != b ensures Filter(Both(p, k), t[i]) == [] {
      TornElsewhere(p, batches, b, j, i);
    }
    FlatOnly(FilterEach(Both(p, k), t), b);
    TornHere(p, batches, b, j);
  }

  lemma TornElsewhere(p: int -> bool, batches: seq<seq<Candidate>>, b: nat, j: nat, i: nat)
    requires b < |batches| && j < |batches[b]| && i < |batches| && i != b
    ensures var t := Torn(p, batches, b); Filter(Both(p, t[b][j].key), t[i]) == []
  {
    var t: seq<seq<Candidate>> := Torn(p, batches, b);
    TornKeys(p, batches, b, b, t[b][j]);
    forall c | c in t[i] ensures !Both(p, t[b][j].key)(c) {
      TornKeys(p, batches, b, i, c);
    }
    FilterNone(Both(p, t[b][j].key), t[i]);
  }

  lemma TornHere(p: int -> bool, batches: seq<seq<Candidate>>, b: nat, j: nat)
    requires b < |batches| && j < |batches[b]| && p(batches[b][j].minute)
    ensures var t := Torn(p, batches, b); Filter(Both(p, t[b][j].key), t[b]) == Filter(InWindow(p), t[b][..j])
  {
    var t := Torn(p, batches, b)[b];
    assert t == t[..j] + t[j..];
    FilterConcat(Both(p, t[j].key), t[..j], t[j..]);
    FilterNone(Both(p, t[j].key), t[j..]);
    FilterSame(Both(p, t[j].key), InWindow(p), t[..j]);
  }

  /** Under these keys a candidate of the window is missing. */
  lemma TornLoses(p: int -> bool, batches: seq<seq<Candidate>>, b: nat)
    requires b < |batches| && !Whole(p, batches[b])
    ensures Shown(p, Torn(p, batches, b)) != Wanted(p, Torn(p, batches, b))
  {
    var t: seq<seq<Candidate>> := Torn(p, batches, b);
    var j := Lost(p, batches, b);
    TornDistinct(p, batches, b);
    LostWanted(p, batches, b, j);
    LostHidden(p, batches, b, j);
  }

  lemma Lost(p: int -> bool, batches: seq<seq<Candidate>>, b: nat) returns (j: nat)
    requires b < |batches| && !Whole(p, batches[b])
    ensures j < |batches[b]| && p(batches[b][j].minute)
    ensures var t := Torn(p, batches, b)[b];
            && |Filter(InWindow(p), t[..j])| < SAMPLE
            && SAMPLE <= |Filter(Outside(p), t)| + |Filter(InWindow(p), t[..j])|
  {
    var t := Torn(p, batches, b)[b];
    FilterSplits(InWindow(p), Outside(p), t);
    var u :| u in batches[b] && !p(u.minute);
    var v :| v in batches[b] && p(v.minute);
    var i :| 0 <= i < |t| && batches[b][i] == u;
    var k :| 0 <= k < |t| && batches[b][k] == v;
    FilterMember(Outside(p), t, t[i]);
    FilterMember(InWindow(p), t, t[k]);
    var m := |Filter(Outside(p), t)|;
    j := SelectedAt(InWindow(p), t, if m < SAMPLE then SAMPLE - m else 0);
  }

  lemma LostWanted(p: int -> bool, batches: seq<seq<Candidate>>, b: nat, j: nat)
    requires b < |batches| && j < |batches[b]| && p(batches[b][j].minute)
    requires |Filter(InWindow(p), Torn(p, batches, b)[b][..j])| < SAMPLE
    ensures Torn(p, batches, b)[b][j] in Wanted(p, Torn(p, batches, b))
  {
    var t: seq<seq<Candidate>> := Torn(p, batches, b);
    var x := t[b][j];
    TornDistinct(p, batches, b);
    WindowApart(p, t);
    TornWindowRank(p, batches, b, j);
    FlatMember(t, x);
    FilterMember(InWindow(p), Flat(t), x);
    KeptIn(Filter(InWindow(p), Flat(t)), x, SAMPLE);
  }

  lemma LostHidden(p: int -> bool, batches: seq<seq<Candidate>>, b: nat, j: nat)
    requires b < |batches| && j < |batches[b]| && p(batches[b][j].minute)
    requires var t := Torn(p, batches, b)[b]; SAMPLE <= |Filter(Outside(p), t)| + |Filter(InWindow(p), t[..j])|
    ensures Torn(p, batches, b)[b][j] !in Shown(p, Torn(p, batches, b))
  {
    var t: seq<seq<Candidate>> := Torn(p, batches, b);
    var x := t[b][j];
    TornDistinct(p, batches, b);
    SamplesByKey(t);
    TornBatchRank(p, batches, b, j);
    CutOff(t[b], x, SAMPLE);
    forall i | 0 <= i < |t| ensures x !in Samples(t)[i] {
      if i != b {
        SampleWithin(t[i]);
        NotElsewhere(p, batches, b, j, i);
      }
    }
    FlatMember(Samples(t), x);
    ShownMember(p, t, x);
  }

  lemma NotElsewhere(p: int -> bool, batches: seq<seq<Candidate>>, b: nat, j: nat, i: nat)
    requires b < |batches| && j < |batches[b]| && i < |batches| && i != b
    ensures Torn(p, batches, b)[b][j] !in Torn(p, batches, b)[i]
  {
    var t: seq<seq<Candidate>> := Torn(p, batches, b);
    TornKeys(p, batches, b, b, t[b][j]);
    if t[b][j] in t[i] {
      TornKeys(p, batches, b, i, t[b][j]);
    }
  }

  lemma ShownMember(p: int -> bool, batches: seq<seq<Candidate>>, x: Candidate)
    ensures x in Shown(p, batches) ==> x in Flat(Samples(batches))
  {
    var s := Filter(InWindow(p), Flat(Samples(batches)));
    SortPermutes(ByKey(), s);
    FilterMember(InWindow(p), Flat(Samples(batches)), x);
    if x in Shown(p, batches) {
      assert x in multiset(Sort(ByKey(), s));
    }
  }

  /** Whatever distinct keys the candidates have, the reader gets the sample of the window's candidates exactly
      when each batch fits the sample, lies in the window or lies outside it. */
  lemma WindowExactIff(p: int -> bool, batches: seq<seq<Candidate>>)
    ensures (forall keys :: DistinctKeys(Flat(Rekeyed(keys, batches)))
                 ==> Shown(p, Rekeyed(keys, batches)) == Wanted(p, Rekeyed(keys, batches)))
       <==> (forall i :: 0 <= i < |batches| ==> Whole(p, batches[i]))
  {
    if forall i :: 0 <= i < |batches| ==> Whole(p, batches[i]) {
      forall keys | DistinctKeys(Flat(Rekeyed(keys, batches)))
        ensures Shown(p, Rekeyed(keys, batches)) == Wanted(p, Rekeyed(keys, batches))
      {
        forall i | 0 <= i < |batches| ensures Whole(p, Rekeyed(keys, batches)[i]) {
          RekeyedWhole(p, keys, i, batches[i]);
        }
        ShownWhole(p, Rekeyed(keys, batches));
      }
    } else {
      var b :| 0 <= b < |batches| && !Whole(p, batches[b]);
      TornDistinct(p, batches, b);
      TornLoses(p, batches, b);
    }
  }

  /** One batch: the sample's size in minute 0, then one candidate in minute 1 with the largest key. */
  function OneTooMany(): seq<Candidate> {
    seq(SAMPLE + 1, i requires 0 <= i < SAMPLE + 1 =>
      Candidate(i, i, if i < SAMPLE then 0 else 1, 0.0, 0.0, ""))
  }

  /** Reading minute 1 then shows nothing, though the minute has a candidate. */
  lemma MinuteHidden()
    ensures DistinctKeys(Flat([OneTooMany()]))
    ensures Shown(m => m == 1, [OneTooMany()]) == []
    ensures Wanted(m => m == 1, [OneTooMany()]) == [OneTooMany()[SAMPLE]]
  {
    FlatSingle(OneTooMany());
    LastHidden(m => m == 1, OneTooMany());
  }

  lemma LastHidden(p: int -> bool, s: seq<Candidate>)
    requires |s| == SAMPLE + 1 && forall i, j :: 0 <= i < j < |s| ==> s[i].key < s[j].key
    requires p(s[SAMPLE].minute) && forall i :: 0 <= i < SAMPLE ==> !p(s[i].minute)
    ensures Shown(p, [s]) == [] && Wanted(p, [s]) == [s[SAMPLE]]
  {
    FlatSingle(s);
    LastOnly(p, s);
    SortSingle(s[SAMPLE]);
    SampleOfSorted(s);
    assert Samples([s]) == [s[..SAMPLE]];
    FlatSingle(s[..SAMPLE]);
  }

  lemma LastOnly(p: int -> bool, s: seq<Candidate>)
    requires |s| == SAMPLE + 1 && p(s[SAMPLE].minute) && forall i :: 0 <= i < SAMPLE ==> !p(s[i].minute)
    ensures Filter(InWindow(p), s[..SAMPLE]) == [] && Filter(InWindow(p), s) == [s[SAMPLE]]
  {
    assert s == s[..SAMPLE] + [s[SAMPLE]];
    FilterConcat(InWindow(p), s[..SAMPLE], [s[SAMPLE]]);
    FilterNone(InWindow(p), s[..SAMPLE]);
    FilterAll(InWindow(p), [s[SAMPLE]]);
  }

  lemma SortSingle(c: Candidate)
    ensures Sort(ByKey(), [c]) == [c]
  {
    assert [c][1..] == [];
  }

  lemma {:induction false} SampleOfSorted(s: seq<Candidate>)
    requires forall i, j :: 0 <= i < j < |s| ==> s[i].key < s[j].key
    ensures Sort(KeyIndexLe, s) == s
  {
    if s != [] {
      SampleOfSorted(s[1..]);
    }
  }
}
