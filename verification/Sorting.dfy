/** Stable insertion sort over an arbitrary order, and the selection facts that the readers of
    per-batch samples, per-service pages and per-minute histograms rely on. */
module Sorting {

  ghost predicate Compares<T>(le: (T, T) -> bool, x: T, y: T) { le(x, y) || le(y, x) }

  ghost predicate Chains<T>(le: (T, T) -> bool, x: T, y: T, z: T) { le(x, y) && le(y, z) ==> le(x, z) }

  ghost predicate Separates<T>(le: (T, T) -> bool, x: T, y: T) { le(x, y) && le(y, x) ==> x == y }

  ghost predicate TotalPreorder<T(!new)>(le: (T, T) -> bool) {
    (forall x, y :: Compares(le, x, y)) && (forall x, y, z :: Chains(le, x, y, z))
  }

  ghost predicate TotalOrder<T(!new)>(le: (T, T) -> bool) {
    TotalPreorder(le) && (forall x, y :: Separates(le, x, y))
  }

  ghost predicate Sorted<T>(le: (T, T) -> bool, s: seq<T>) {
    forall i, j :: 0 <= i < j < |s| ==> le(s[i], s[j])
  }

  /** Puts `x` in front of the first element that is not strictly smaller. */
  function Insert<T>(le: (T, T) -> bool, x: T, s: seq<T>): seq<T> {
    if s == [] then [x]
    else if le(x, s[0]) then [x] + s
    else [s[0]] + Insert(le, x, s[1..])
  }

  /** Stable: equal elements keep their order. */
  function Sort<T>(le: (T, T) -> bool, s: seq<T>): seq<T> {
    if s == [] then [] else Insert(le, s[0], Sort(le, s[1..]))
  }

  function Take<T>(k: nat, s: seq<T>): seq<T> {
    if k <= |s| then s[..k] else s
  }

  lemma {:induction false} InsertPermutes<T>(le: (T, T) -> bool, x: T, s: seq<T>)
    ensures multiset(Insert(le, x, s)) == multiset{x} + multiset(s)
  {
    if s == [] || le(x, s[0]) {
    } else {
      InsertPermutes(le, x, s[1..]);
      assert s == [s[0]] + s[1..];
    }
  }

  lemma {:induction false} SortPermutes<T>(le: (T, T) -> bool, s: seq<T>)
    ensures multiset(Sort(le, s)) == multiset(s)
    ensures |Sort(le, s)| == |s|
  {
    if s != [] {
      SortPermutes(le, s[1..]);
      InsertPermutes(le, s[0], Sort(le, s[1..]));
      assert s == [s[0]] + s[1..];
    }
    assert |multiset(Sort(le, s))| == |Sort(le, s)| && |multiset(s)| == |s|;
  }

  /** In front of a sorted sequence, an element below its first is below all. */
  lemma BelowAll<T(!new)>(le: (T, T) -> bool, x: T, s: seq<T>, j: nat)
    requires TotalPreorder(le) && Sorted(le, s) && j < |s| && le(x, s[0])
    ensures le(x, s[j])
  {
    assert j == 0 || le(s[0], s[j]);
    assert Chains(le, x, s[0], s[j]);
  }

  lemma {:induction false} InsertSorted<T(!new)>(le: (T, T) -> bool, x: T, s: seq<T>)
    requires TotalPreorder(le) && Sorted(le, s)
    ensures Sorted(le, Insert(le, x, s))
  {
    if s == [] {
    } else if le(x, s[0]) {
      forall j | 0 <= j < |s| ensures le(x, s[j]) {
        BelowAll(le, x, s, j);
      }
    } else {
      InsertSorted(le, x, s[1..]);
      InsertPermutes(le, x, s[1..]);
      assert Compares(le, x, s[0]);
      var r := Insert(le, x, s[1..]);
      forall j | 0 <= j < |r| ensures le(s[0], r[j]) {
        assert r[j] in multiset(r);
        assert r[j] == x || r[j] in s[1..];
      }
    }
  }

  lemma {:induction false} SortSorted<T(!new)>(le: (T, T) -> bool, s: seq<T>)
    requires TotalPreorder(le)
    ensures Sorted(le, Sort(le, s))
  {
    if s != [] {
      SortSorted(le, s[1..]);
      InsertSorted(le, s[0], Sort(le, s[1..]));
    }
  }

  /** The first of a sorted sequence is below each of its elements. */
  lemma FirstBelow<T(!new)>(le: (T, T) -> bool, s: seq<T>, x: T)
    requires TotalPreorder(le) && Sorted(le, s) && x in s
    ensures le(s[0], x)
  {
    assert Compares(le, s[0], s[0]);
  }

  lemma WithoutFirst<T>(s: seq<T>)
    requires s != []
    ensures multiset(s[1..]) == multiset(s) - multiset{s[0]}
  {
    assert s == [s[0]] + s[1..];
  }

  /** A multiset has at most one sorted arrangement. */
  lemma {:induction false} SortedUnique<T(!new)>(le: (T, T) -> bool, a: seq<T>, b: seq<T>)
    requires TotalOrder(le) && Sorted(le, a) && Sorted(le, b)
    requires multiset(a) == multiset(b)
    ensures a == b
  {
    assert |a| == |multiset(a)| == |multiset(b)| == |b|;
    if a != [] {
      SameFirst(le, a, b);
      WithoutFirst(a);
      WithoutFirst(b);
      SortedUnique(le, a[1..], b[1..]);
      assert a == [a[0]] + a[1..] && b == [b[0]] + b[1..];
    }
  }

  lemma SameFirst<T(!new)>(le: (T, T) -> bool, a: seq<T>, b: seq<T>)
    requires TotalOrder(le) && Sorted(le, a) && Sorted(le, b) && a != [] && b != []
    requires multiset(a) == multiset(b)
    ensures a[0] == b[0]
  {
    assert a[0] in multiset(b) && b[0] in multiset(a);
    FirstBelow(le, a, b[0]);
    FirstBelow(le, b, a[0]);
    assert Separates(le, a[0], b[0]);
  }

  lemma SortUnique<T(!new)>(le: (T, T) -> bool, a: seq<T>, b: seq<T>)
    requires TotalOrder(le) && multiset(a) == multiset(b)
    ensures Sort(le, a) == Sort(le, b)
  {
    SortPermutes(le, a);
    SortPermutes(le, b);
    SortSorted(le, a);
    SortSorted(le, b);
    SortedUnique(le, Sort(le, a), Sort(le, b));
  }

  lemma AboveBack<T(!new)>(le: (T, T) -> bool, back: seq<T>, e: T, x: T)
    requires TotalPreorder(le) && Sorted(le, back) && e in back && !le(back[0], x)
    ensures !le(e, x)
  {
    FirstBelow(le, back, e);
    assert Chains(le, back[0], e, x);
  }

  /** Fewer than `k` elements of a sorted sequence lie at or below `x` when its `k`-th does not. */
  lemma FewBelow<T(!new)>(le: (T, T) -> bool, r: seq<T>, low: seq<T>, x: T, k: nat)
    requires TotalOrder(le) && Sorted(le, r) && 0 < k <= |r| && !le(r[k - 1], x)
    requires multiset(low) <= multiset(r)
    requires forall e <- low :: le(e, x)
    ensures |low| < k
  {
    var front, back := r[..k - 1], r[k - 1..];
    assert r == front + back;
    forall e | e in multiset(low) ensures multiset(low)[e] <= multiset(front)[e] {
      assert e in low;
      if e in back {
        AboveBack(le, back, e, x);
      }
    }
    assert multiset(low) <= multiset(front);
    assert multiset(front) == multiset(low) + (multiset(front) - multiset(low));
    assert |multiset(front)| == |front|;
  }

  /** If `k` elements of a collection lie at or below `x`, so does its `k`-th smallest. */
  lemma KthAtMost<T(!new)>(le: (T, T) -> bool, s: seq<T>, low: seq<T>, x: T)
    requires TotalOrder(le) && 0 < |low|
    requires multiset(low) <= multiset(s)
    requires forall e <- low :: le(e, x)
    ensures |low| <= |Sort(le, s)| && le(Sort(le, s)[|low| - 1], x)
  {
    SortPermutes(le, s);
    SortSorted(le, s);
    assert multiset(s) == multiset(low) + (multiset(s) - multiset(low));
    assert |multiset(s)| == |s| && |multiset(low)| == |low|;
    if !le(Sort(le, s)[|low| - 1], x) {
      FewBelow(le, Sort(le, s), low, x, |low|);
    }
  }

  /** Where `x` belongs in a sorted sequence, after everything at or below it. */
  function Position<T>(le: (T, T) -> bool, r: seq<T>, x: T): (p: nat)
    ensures p <= |r|
    ensures forall i :: 0 <= i < p ==> le(r[i], x)
    ensures p < |r| ==> !le(r[p], x)
  {
    if r == [] || !le(r[0], x) then 0 else 1 + Position(le, r[1..], x)
  }

  lemma SpliceSorted<T(!new)>(le: (T, T) -> bool, r: seq<T>, x: T, p: nat)
    requires TotalPreorder(le) && Sorted(le, r) && p <= |r|
    requires forall i :: 0 <= i < p ==> le(r[i], x)
    requires p < |r| ==> le(x, r[p])
    ensures Sorted(le, r[..p] + [x] + r[p..])
  {
    var q := r[..p] + [x] + r[p..];
    forall j | p <= j < |r| ensures le(x, r[j]) {
      assert r[p..][j - p] == r[j];
      BelowAll(le, x, r[p..], j - p);
    }
    forall i, j | 0 <= i < j < |q| ensures le(q[i], q[j]) {
      var u, v := if i <= p then i else i - 1, if j <= p then j else j - 1;
      assert i != p ==> q[i] == r[u];
      assert j != p ==> q[j] == r[v];
    }
  }

  lemma SpliceMultiset<T>(r: seq<T>, x: T, p: nat)
    requires p <= |r|
    ensures multiset(r[..p] + [x] + r[p..]) == multiset(r) + multiset{x}
  {
    assert r == r[..p] + r[p..];
  }

  lemma SortOfAppended<T(!new)>(le: (T, T) -> bool, s: seq<T>, x: T, p: nat)
    requires TotalOrder(le) && p == Position(le, Sort(le, s), x)
    ensures Sort(le, s + [x]) == Sort(le, s)[..p] + [x] + Sort(le, s)[p..]
  {
    SortPermutes(le, s);
    SortSorted(le, s);
    assert p == |s| || Compares(le, Sort(le, s)[p], x);
    SpliceSorted(le, Sort(le, s), x, p);
    SpliceMultiset(Sort(le, s), x, p);
    SortPermutes(le, s + [x]);
    SortSorted(le, s + [x]);
    SortedUnique(le, Sort(le, s)[..p] + [x] + Sort(le, s)[p..], Sort(le, s + [x]));
  }

  lemma SpliceBeyond<T>(r: seq<T>, x: T, p: nat, k: nat)
    requires k <= p <= |r|
    ensures Take(k, r[..p] + [x] + r[p..]) == Take(k, r)
  {
  }

  lemma PositionBeyond<T(!new)>(le: (T, T) -> bool, r: seq<T>, x: T, k: nat)
    requires TotalPreorder(le) && Sorted(le, r) && k <= |r| && (k == 0 || le(r[k - 1], x))
    ensures k <= Position(le, r, x)
  {
    var p := Position(le, r, x);
    if p < k {
      BelowKth(le, r, x, p, k);
    }
  }

  lemma BelowKth<T(!new)>(le: (T, T) -> bool, r: seq<T>, x: T, p: nat, k: nat)
    requires TotalPreorder(le) && Sorted(le, r) && p < k <= |r| && le(r[k - 1], x)
    ensures le(r[p], x)
  {
    assert p == k - 1 || le(r[p], r[k - 1]);
    assert Chains(le, r[p], r[k - 1], x);
  }

  /** Adding an element no smaller than the `k`-th leaves the first `k` untouched. */
  lemma DropLarge<T(!new)>(le: (T, T) -> bool, s: seq<T>, x: T, k: nat)
    requires TotalOrder(le) && k <= |Sort(le, s)|
    requires k == 0 || le(Sort(le, s)[k - 1], x)
    ensures Take(k, Sort(le, s + [x])) == Take(k, Sort(le, s))
  {
    SortSorted(le, s);
    var r := Sort(le, s);
    var p := Position(le, r, x);
    PositionBeyond(le, r, x, k);
    SortOfAppended(le, s, x, p);
    SpliceBeyond(r, x, p, k);
  }

  /** The first `k` of `k` or more sorted elements bound the `k`-th of any union with them. */
  lemma UnionKthAtMost<T(!new)>(le: (T, T) -> bool, a: seq<T>, b: seq<T>, x: T, k: nat)
    requires TotalOrder(le) && 0 < k <= |a|
    requires forall e <- a :: le(e, x)
    ensures k <= |Sort(le, a + b)| && le(Sort(le, a + b)[k - 1], x)
  {
    assert a == a[..k] + a[k..];
    assert multiset(a + b) == multiset(a[..k]) + multiset(a[k..]) + multiset(b);
    KthAtMost(le, a + b, a[..k], x);
  }

  /** One step of a truncation: dropping the largest of more than `k` elements. */
  lemma TruncateOne<T(!new)>(le: (T, T) -> bool, a: seq<T>, x: T, b: seq<T>, k: nat)
    requires TotalOrder(le) && k <= |a|
    requires forall e <- a :: le(e, x)
    ensures Take(k, Sort(le, a + [x] + b)) == Take(k, Sort(le, a + b))
  {
    assert multiset(a + [x] + b) == multiset(a + b + [x]);
    SortUnique(le, a + [x] + b, a + b + [x]);
    if k > 0 {
      UnionKthAtMost(le, a, b, x, k);
    }
    DropLarge(le, a + b, x, k);
  }

  /** Truncating one part of a union to its `k` smallest does not change the union's `k` smallest. */
  lemma {:induction false} TruncateLeft<T(!new)>(le: (T, T) -> bool, a: seq<T>, b: seq<T>, k: nat)
    requires TotalOrder(le) && Sorted(le, a)
    ensures Take(k, Sort(le, a + b)) == Take(k, Sort(le, Take(k, a) + b))
  {
    if k < |a| {
      assert a == a[..|a| - 1] + [a[|a| - 1]];
      TruncateOne(le, a[..|a| - 1], a[|a| - 1], b, k);
      TruncateLeft(le, a[..|a| - 1], b, k);
      assert Take(k, a) == Take(k, a[..|a| - 1]);
    } else {
      assert Take(k, a) == a;
    }
  }

  /** The `k` smallest of a union are the `k` smallest of the parts' own `k` smallest. */
  lemma TopOfUnion<T(!new)>(le: (T, T) -> bool, a: seq<T>, b: seq<T>, k: nat)
    requires TotalOrder(le)
    ensures Take(k, Sort(le, Take(k, Sort(le, a)) + Take(k, Sort(le, b)))) == Take(k, Sort(le, a + b))
  {
    var ra, rb := Sort(le, a), Sort(le, b);
    SortPermutes(le, a);
    SortPermutes(le, b);
    SortSorted(le, a);
    SortSorted(le, b);
    SortUnique(le, a + b, ra + rb);
    TruncateLeft(le, ra, rb, k);
    var ta := Take(k, ra);
    assert Take(k, Sort(le, ra + rb)) == Take(k, Sort(le, ta + rb));
    SortUnique(le, ta + rb, rb + ta);
    TruncateLeft(le, rb, ta, k);
    var tb := Take(k, rb);
    SortUnique(le, tb + ta, ta + tb);
  }

  // ---- Many parts, and elements known by a key ------------------------------------------------

  function Flat<T>(parts: seq<seq<T>>): seq<T> {
    if parts == [] then [] else parts[0] + Flat(parts[1..])
  }

  lemma Regroup<T>(a: seq<T>, b: seq<T>, c: seq<T>)
    ensures a + (b + c) == (a + b) + c
  {
  }

  lemma {:induction false} FlatConcat<T>(a: seq<seq<T>>, b: seq<seq<T>>)
    ensures Flat(a + b) == Flat(a) + Flat(b)
  {
    if a == [] {
      assert a + b == b;
    } else {
      FlatConcat(a[1..], b);
      assert (a + b)[1..] == a[1..] + b;
      Regroup(a[0], Flat(a[1..]), Flat(b));
    }
  }

  /** Every part cut to its own `k` smallest. */
  function Tops<T>(le: (T, T) -> bool, k: nat, parts: seq<seq<T>>): seq<seq<T>> {
    seq(|parts|, i requires 0 <= i < |parts| => Take(k, Sort(le, parts[i])))
  }

  lemma SortOfSorted<T(!new)>(le: (T, T) -> bool, s: seq<T>)
    requires TotalOrder(le) && Sorted(le, s)
    ensures Sort(le, s) == s
  {
    SortPermutes(le, s);
    SortSorted(le, s);
    SortedUnique(le, Sort(le, s), s);
  }

  lemma {:induction false} TopOfMany<T(!new)>(le: (T, T) -> bool, parts: seq<seq<T>>, k: nat)
    requires TotalOrder(le)
    ensures Take(k, Sort(le, Flat(Tops(le, k, parts)))) == Take(k, Sort(le, Flat(parts)))
  {
    if parts != [] {
      var rest := parts[1..];
      var tops := Flat(Tops(le, k, rest));
      var first := Take(k, Sort(le, parts[0]));
      TopOfMany(le, rest, k);
      assert Tops(le, k, parts)[1..] == Tops(le, k, rest);
      SortSorted(le, parts[0]);
      SortOfSorted(le, first);
      assert Take(k, first) == first;
      TopOfUnion(le, first, tops, k);
      TopOfUnion(le, parts[0], Flat(rest), k);
    }
  }

  /** Orders that agree on every pair in sequence sort alike. */
  lemma {:induction false} SortAgree<T>(le: (T, T) -> bool, le': (T, T) -> bool, s: seq<T>)
    requires forall i, j :: 0 <= i < j < |s| ==> le(s[i], s[j]) == le'(s[i], s[j])
    ensures Sort(le, s) == Sort(le', s)
  {
    if s != [] {
      SortAgree(le, le', s[1..]);
      SortPermutes(le, s[1..]);
      forall x | x in Sort(le, s[1..]) ensures le(s[0], x) == le'(s[0], x) {
        assert x in multiset(s[1..]);
      }
      InsertAgree(le, le', s[0], Sort(le, s[1..]));
    }
  }

  lemma {:induction false} InsertAgree<T>(le: (T, T) -> bool, le': (T, T) -> bool, x: T, s: seq<T>)
    requires forall y :: y in s ==> le(x, y) == le'(x, y)
    ensures Insert(le, x, s) == Insert(le', x, s)
  {
    if s != [] {
      InsertAgree(le, le', x, s[1..]);
    }
  }

  function Image<T, K>(f: T -> K, s: seq<T>): (r: seq<K>)
    ensures |r| == |s| && forall i :: 0 <= i < |s| ==> r[i] == f(s[i])
  {
    seq(|s|, i requires 0 <= i < |s| => f(s[i]))
  }

  /** In two arrangements of the same elements, the first of one can be found and taken out of the other. */
  lemma Partner<T>(a: seq<T>, b: seq<T>) returns (j: nat)
    requires multiset(a) == multiset(b) && a != []
    ensures j < |b| && b[j] == a[0] && multiset(a[1..]) == multiset(b[..j] + b[j + 1..])
  {
    assert a[0] in multiset(b);
    j :| 0 <= j < |b| && b[j] == a[0];
    WithoutFirst(a);
    WithoutAt(b, j);
  }

  lemma WithoutAt<T>(s: seq<T>, j: nat)
    requires j < |s|
    ensures multiset(s[..j] + s[j + 1..]) == multiset(s) - multiset{s[j]}
  {
    assert s == s[..j] + [s[j]] + s[j + 1..];
  }

  lemma ImageConcat<T, K>(f: T -> K, a: seq<T>, b: seq<T>)
    ensures Image(f, a + b) == Image(f, a) + Image(f, b)
  {
  }

  lemma ImageAround<T, K>(f: T -> K, s: seq<T>, j: nat)
    requires j < |s|
    ensures multiset(Image(f, s)) == multiset{f(s[j])} + multiset(Image(f, s[..j] + s[j + 1..]))
  {
    assert s == s[..j] + ([s[j]] + s[j + 1..]);
    ImageConcat(f, s[..j], [s[j]] + s[j + 1..]);
    ImageConcat(f, [s[j]], s[j + 1..]);
    ImageConcat(f, s[..j], s[j + 1..]);
    assert Image(f, [s[j]]) == [f(s[j])];
  }

  lemma ImageFirst<T, K>(f: T -> K, s: seq<T>)
    requires s != []
    ensures multiset(Image(f, s)) == multiset{f(s[0])} + multiset(Image(f, s[1..]))
  {
    assert Image(f, s) == [f(s[0])] + Image(f, s[1..]);
  }

  /** Rearranging elements rearranges their images. */
  lemma {:induction false} ImageMultiset<T, K>(f: T -> K, a: seq<T>, b: seq<T>)
    requires multiset(a) == multiset(b)
    ensures multiset(Image(f, a)) == multiset(Image(f, b))
  {
    if a == [] {
      assert |b| == |multiset(b)| == 0;
    } else {
      var j := Partner(a, b);
      ImageMultiset(f, a[1..], b[..j] + b[j + 1..]);
      ImageAround(f, b, j);
      ImageFirst(f, a);
    }
  }

  /** Comparing by a key. */
  function By<T, K>(f: T -> K, le: (K, K) -> bool): (T, T) -> bool { (x: T, y: T) => le(f(x), f(y)) }

  /** Sorting by a key and then taking keys is taking keys and then sorting. */
  lemma {:induction false} SortImage<T, K>(f: T -> K, le: (K, K) -> bool, s: seq<T>)
    ensures Image(f, Sort(By(f, le), s)) == Sort(le, Image(f, s))
  {
    if s != [] {
      SortImage(f, le, s[1..]);
      InsertImage(f, le, s[0], Sort(By(f, le), s[1..]));
      assert Image(f, s)[1..] == Image(f, s[1..]);
    }
  }

  lemma {:induction false} InsertImage<T, K>(f: T -> K, le: (K, K) -> bool, x: T, s: seq<T>)
    ensures Image(f, Insert(By(f, le), x, s)) == Insert(le, f(x), Image(f, s))
  {
    if s != [] && !le(f(x), f(s[0])) {
      InsertImage(f, le, x, s[1..]);
      assert Image(f, s)[1..] == Image(f, s[1..]);
      assert Image(f, [s[0]] + Insert(By(f, le), x, s[1..])) == [f(s[0])] + Image(f, Insert(By(f, le), x, s[1..]));
    } else {
      assert Image(f, [x] + s) == [f(x)] + Image(f, s);
    }
  }

  lemma {:induction false} ImageFlat<T, K>(f: T -> K, parts: seq<seq<T>>)
    ensures Image(f, Flat(parts)) == Flat(Image((p: seq<T>) => Image(f, p), parts))
  {
    if parts != [] {
      var g := (p: seq<T>) => Image(f, p);
      ImageFlat(f, parts[1..]);
      assert Image(g, parts)[1..] == Image(g, parts[1..]);
      assert Image(f, parts[0] + Flat(parts[1..])) == Image(f, parts[0]) + Image(f, Flat(parts[1..]));
    }
  }

  /** The `k` smallest by a key are the `k` smallest of the parts' own, if no two elements share a key. */
  lemma TopByKey<T(!new), K(!new)>(f: T -> K, le: (K, K) -> bool, parts: seq<seq<T>>, k: nat)
    requires TotalOrder(le)
    requires forall x, y :: x in Flat(parts) && y in Flat(parts) && f(x) == f(y) ==> x == y
    ensures Take(k, Sort(By(f, le), Flat(Tops(By(f, le), k, parts)))) == Take(k, Sort(By(f, le), Flat(parts)))
  {
    var g := (p: seq<T>) => Image(f, p);
    var a, b := Take(k, Sort(By(f, le), Flat(Tops(By(f, le), k, parts)))), Take(k, Sort(By(f, le), Flat(parts)));
    SortImage(f, le, Flat(Tops(By(f, le), k, parts)));
    SortImage(f, le, Flat(parts));
    ImageFlat(f, Tops(By(f, le), k, parts));
    ImageFlat(f, parts);
    TopsImage(f, le, parts, k);
    TopOfMany(le, Image(g, parts), k);
    TakeImage(f, k, Sort(By(f, le), Flat(Tops(By(f, le), k, parts))));
    TakeImage(f, k, Sort(By(f, le), Flat(parts)));
    assert Image(f, a) == Image(f, b);
    SortPermutes(By(f, le), Flat(parts));
    SortPermutes(By(f, le), Flat(Tops(By(f, le), k, parts)));
    forall x | x in a ensures x in Flat(parts) {
      assert x in Sort(By(f, le), Flat(Tops(By(f, le), k, parts)));
      assert x in multiset(Flat(Tops(By(f, le), k, parts)));
      TopsWithin(By(f, le), parts, k, x);
    }
    forall x | x in b ensures x in Flat(parts) {
      assert x in Sort(By(f, le), Flat(parts));
      assert x in multiset(Flat(parts));
    }
    ImageInjective(f, a, b);
  }

  lemma ImageInjective<T, K>(f: T -> K, a: seq<T>, b: seq<T>)
    requires Image(f, a) == Image(f, b)
    requires forall x, y :: x in a && y in b && f(x) == f(y) ==> x == y
    ensures a == b
  {
    assert |a| == |Image(f, a)| == |b|;
    forall i | 0 <= i < |a| ensures a[i] == b[i] {
      assert Image(f, a)[i] == Image(f, b)[i];
    }
  }

  lemma TakeImage<T, K>(f: T -> K, k: nat, s: seq<T>)
    ensures Image(f, Take(k, s)) == Take(k, Image(f, s))
  {
  }

  lemma TopsImage<T, K>(f: T -> K, le: (K, K) -> bool, parts: seq<seq<T>>, k: nat)
    ensures var g := (p: seq<T>) => Image(f, p);
            Image(g, Tops(By(f, le), k, parts)) == Tops(le, k, Image(g, parts))
  {
    var g := (p: seq<T>) => Image(f, p);
    forall i | 0 <= i < |parts| ensures Image(g, Tops(By(f, le), k, parts))[i] == Tops(le, k, Image(g, parts))[i] {
      SortImage(f, le, parts[i]);
      TakeImage(f, k, Sort(By(f, le), parts[i]));
    }
  }

  lemma {:induction false} TopsWithin<T>(le: (T, T) -> bool, parts: seq<seq<T>>, k: nat, x: T)
    ensures x in Flat(Tops(le, k, parts)) ==> x in Flat(parts)
  {
    if parts != [] {
      TopsWithin(le, parts[1..], k, x);
      assert Tops(le, k, parts)[1..] == Tops(le, k, parts[1..]);
      SortPermutes(le, parts[0]);
      if x in Take(k, Sort(le, parts[0])) {
        assert x in multiset(Sort(le, parts[0]));
      }
    }
  }

  /** Elements told apart by a key have one arrangement sorted by it. */
  lemma SortByKeyUnique<T(!new), K(!new)>(f: T -> K, le: (K, K) -> bool, a: seq<T>, b: seq<T>)
    requires TotalOrder(le) && multiset(a) == multiset(b)
    requires forall x, y :: x in a && y in a && f(x) == f(y) ==> x == y
    ensures Sort(By(f, le), a) == Sort(By(f, le), b)
  {
    var sa, sb := Sort(By(f, le), a), Sort(By(f, le), b);
    SortImage(f, le, a);
    SortImage(f, le, b);
    ImageMultiset(f, a, b);
    SortUnique(le, Image(f, a), Image(f, b));
    SortPermutes(By(f, le), a);
    SortPermutes(By(f, le), b);
    forall x | x in sa ensures x in a {
      assert x in multiset(sa);
    }
    forall x | x in sb ensures x in a {
      assert x in multiset(sb) && x in multiset(a);
    }
    ImageInjective(f, sa, sb);
  }

  /** Parts that have the same first `k` each have the same first `k` together. */
  lemma SameTops<T(!new), K(!new)>(f: T -> K, le: (K, K) -> bool, a: seq<seq<T>>, b: seq<seq<T>>, k: nat)
    requires TotalOrder(le) && Tops(By(f, le), k, a) == Tops(By(f, le), k, b)
    requires forall x, y :: x in Flat(a) && y in Flat(a) && f(x) == f(y) ==> x == y
    requires forall x, y :: x in Flat(b) && y in Flat(b) && f(x) == f(y) ==> x == y
    ensures Take(k, Sort(By(f, le), Flat(a))) == Take(k, Sort(By(f, le), Flat(b)))
  {
    TopByKey(f, le, a, k);
    TopByKey(f, le, b, k);
  }

  // ---- Selecting ----------------------------------------------------------------------------

  function Filter<T>(p: T -> bool, s: seq<T>): seq<T> {
    if s == [] then [] else (if p(s[0]) then [s[0]] else []) + Filter(p, s[1..])
  }

  lemma {:induction false} FilterMember<T>(p: T -> bool, s: seq<T>, x: T)
    ensures x in Filter(p, s) <==> x in s && p(x)
  {
    if s != [] {
      FilterMember(p, s[1..], x);
      assert s == [s[0]] + s[1..];
    }
  }

  lemma {:induction false} FilterAll<T>(p: T -> bool, s: seq<T>)
    requires forall x :: x in s ==> p(x)
    ensures Filter(p, s) == s
  {
    if s != [] {
      FilterAll(p, s[1..]);
      assert s == [s[0]] + s[1..];
    }
  }

  lemma {:induction false} FilterNone<T>(p: T -> bool, s: seq<T>)
    requires forall x :: x in s ==> !p(x)
    ensures Filter(p, s) == []
  {
    if s != [] {
      FilterNone(p, s[1..]);
    }
  }

  lemma {:induction false} FilterConcat<T>(p: T -> bool, a: seq<T>, b: seq<T>)
    ensures Filter(p, a + b) == Filter(p, a) + Filter(p, b)
  {
    if a == [] {
      assert a + b == b;
    } else {
      FilterConcat(p, a[1..], b);
      assert (a + b)[1..] == a[1..] + b;
      Regroup(if p(a[0]) then [a[0]] else [], Filter(p, a[1..]), Filter(p, b));
    }
  }

  lemma FilterAround<T>(p: T -> bool, s: seq<T>, j: nat)
    requires j < |s|
    ensures multiset(Filter(p, s)) == multiset(Filter(p, [s[j]])) + multiset(Filter(p, s[..j] + s[j + 1..]))
  {
    assert s == s[..j] + ([s[j]] + s[j + 1..]);
    FilterConcat(p, s[..j], [s[j]] + s[j + 1..]);
    FilterConcat(p, [s[j]], s[j + 1..]);
    FilterConcat(p, s[..j], s[j + 1..]);
    MiddleFirst(Filter(p, s[..j]), Filter(p, [s[j]]), Filter(p, s[j + 1..]));
  }

  lemma MiddleFirst<T>(a: seq<T>, b: seq<T>, c: seq<T>)
    ensures multiset(a + (b + c)) == multiset(b) + multiset(a + c)
  {
  }

  lemma {:induction false} FilterMultiset<T>(p: T -> bool, a: seq<T>, b: seq<T>)
    requires multiset(a) == multiset(b)
    ensures multiset(Filter(p, a)) == multiset(Filter(p, b))
  {
    if a == [] {
      assert |b| == |multiset(b)| == 0;
    } else {
      var j := Partner(a, b);
      FilterMultiset(p, a[1..], b[..j] + b[j + 1..]);
      FilterAround(p, b, j);
      assert a == [a[0]] + a[1..];
      FilterConcat(p, [a[0]], a[1..]);
    }
  }

  lemma {:induction false} FilterSame<T>(p: T -> bool, q: T -> bool, s: seq<T>)
    requires forall x :: x in s ==> p(x) == q(x)
    ensures Filter(p, s) == Filter(q, s)
  {
    if s != [] {
      FilterSame(p, q, s[1..]);
      assert s[0] in s;
    }
  }

  /** Every element is selected or not. */
  lemma {:induction false} FilterSplits<T>(p: T -> bool, q: T -> bool, s: seq<T>)
    requires forall x :: x in s ==> p(x) == !q(x)
    ensures |Filter(p, s)| + |Filter(q, s)| == |s|
  {
    if s != [] {
      FilterSplits(p, q, s[1..]);
      assert s[0] in s;
    }
  }

  lemma {:induction false} FilterTwice<T>(p: T -> bool, q: T -> bool, both: T -> bool, s: seq<T>)
    requires forall x :: x in s ==> both(x) == (p(x) && q(x))
    ensures Filter(q, Filter(p, s)) == Filter(both, s)
  {
    if s != [] {
      FilterTwice(p, q, both, s[1..]);
      assert s[0] in s;
      FilterConcat(q, if p(s[0]) then [s[0]] else [], Filter(p, s[1..]));
    }
  }

  /** The selected element that has `r` selected ones before it. */
  lemma {:induction false} SelectedAt<T>(p: T -> bool, s: seq<T>, r: nat) returns (j: nat)
    requires r < |Filter(p, s)|
    ensures j < |s| && p(s[j]) && |Filter(p, s[..j])| == r
  {
    if p(s[0]) && r == 0 {
      j := 0;
    } else {
      var k := SelectedAt(p, s[1..], if p(s[0]) then r - 1 else r);
      j := k + 1;
      assert s[..j][1..] == s[1..][..k];
    }
  }

  function FilterEach<T>(p: T -> bool, parts: seq<seq<T>>): seq<seq<T>> {
    seq(|parts|, i requires 0 <= i < |parts| => Filter(p, parts[i]))
  }

  lemma {:induction false} FilterFlat<T>(p: T -> bool, parts: seq<seq<T>>)
    ensures Filter(p, Flat(parts)) == Flat(FilterEach(p, parts))
  {
    if parts != [] {
      FilterFlat(p, parts[1..]);
      FilterConcat(p, parts[0], Flat(parts[1..]));
      assert FilterEach(p, parts)[1..] == FilterEach(p, parts[1..]);
    }
  }

  lemma {:induction false} FlatMember<T>(parts: seq<seq<T>>, x: T)
    ensures x in Flat(parts) <==> exists i :: 0 <= i < |parts| && x in parts[i]
  {
    if parts != [] {
      FlatMember(parts[1..], x);
      assert forall i :: 0 < i < |parts| ==> parts[i] == parts[1..][i - 1];
      if x in Flat(parts[1..]) {
        var i :| 0 <= i < |parts[1..]| && x in parts[1..][i];
        assert x in parts[i + 1];
      }
    }
  }

  lemma FlatSingle<T>(s: seq<T>)
    ensures Flat([s]) == s
  {
    assert Flat([s][1..]) == [];
  }

  lemma {:induction false} FlatOnly<T>(parts: seq<seq<T>>, b: nat)
    requires b < |parts| && forall i :: 0 <= i < |parts| && i != b ==> parts[i] == []
    ensures Flat(parts) == parts[b]
  {
    if b == 0 {
      FlatEmpty(parts[1..]);
    } else {
      FlatOnly(parts[1..], b - 1);
    }
  }

  lemma {:induction false} FlatEmpty<T>(parts: seq<seq<T>>)
    requires forall i :: 0 <= i < |parts| ==> parts[i] == []
    ensures Flat(parts) == []
  {
    if parts != [] {
      FlatEmpty(parts[1..]);
    }
  }
}
