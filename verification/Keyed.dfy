/** Dictionaries of accumulators, filled by keyed contributions: the common shape of the minute projections. */
module Keyed {
  import Counting
  import opened Sorting

  datatype Contribution<K, A> = Contribution(key: K, delta: A)

  /** What one key has accumulated. */
  function Total<K(==), A>(add: (A, A) -> A, zero: A, cs: seq<Contribution<K, A>>, k: K): A {
    if cs == [] then zero
    else
      var front, last := Total(add, zero, cs[..|cs| - 1], k), cs[|cs| - 1];
      if last.key == k then add(front, last.delta) else front
  }

  function Keys<K(==), A>(cs: seq<Contribution<K, A>>): set<K> { set i | 0 <= i < |cs| :: cs[i].key }

  /** The dictionary: one entry for every key that was contributed to. */
  function Project<K(==), A>(add: (A, A) -> A, zero: A, cs: seq<Contribution<K, A>>): map<K, A> {
    map k | k in Keys(cs) :: Total(add, zero, cs, k)
  }

  lemma KeysConcat<K, A>(a: seq<Contribution<K, A>>, b: seq<Contribution<K, A>>)
    ensures Keys(a + b) == Keys(a) + Keys(b)
  {
    forall k ensures k in Keys(a + b) <==> k in Keys(a) + Keys(b) {
      if k in Keys(a) {
        var i :| 0 <= i < |a| && a[i].key == k;
        assert (a + b)[i].key == k;
      }
      if k in Keys(b) {
        var i :| 0 <= i < |b| && b[i].key == k;
        assert (a + b)[|a| + i].key == k;
      }
    }
  }

  lemma ProjectOne<K, A>(add: (A, A) -> A, zero: A, cs: seq<Contribution<K, A>>, c: Contribution<K, A>)
    ensures Project(add, zero, cs + [c]) ==
            Project(add, zero, cs)[c.key := add(if c.key in Keys(cs) then Total(add, zero, cs, c.key) else zero, c.delta)]
  {
    assert (cs + [c])[..|cs|] == cs;
    KeysConcat(cs, [c]);
    assert [c][0].key == c.key && Keys([c]) == {c.key};
    NoTotal(add, zero, cs, c.key);
  }

  lemma {:induction false} NoTotal<K, A>(add: (A, A) -> A, zero: A, cs: seq<Contribution<K, A>>, k: K)
    ensures k !in Keys(cs) ==> Total(add, zero, cs, k) == zero
  {
    if cs != [] && k !in Keys(cs) {
      assert cs[|cs| - 1].key in Keys(cs);
      assert k !in Keys(cs[..|cs| - 1]);
      NoTotal(add, zero, cs[..|cs| - 1], k);
    }
  }

  /** `accumulators[key]` of a default dictionary. */
  function Get<K(==), A>(m: map<K, A>, k: K, zero: A): A { if k in m then m[k] else zero }

  /** Adding a contribution in place keeps the dictionary the projection of all contributions so far. */
  lemma PutIs<K, A>(add: (A, A) -> A, zero: A, cs: seq<Contribution<K, A>>, c: Contribution<K, A>, m: map<K, A>)
    requires m == Project(add, zero, cs)
    ensures m[c.key := add(Get(m, c.key, zero), c.delta)] == Project(add, zero, cs + [c])
  {
    ProjectOne(add, zero, cs, c);
  }

  // ---- Batches ------------------------------------------------------------------------------

  ghost predicate Associates<A>(add: (A, A) -> A, x: A, y: A, z: A) { add(add(x, y), z) == add(x, add(y, z)) }

  ghost predicate Neutral<A>(add: (A, A) -> A, zero: A, x: A) { add(x, zero) == x && add(zero, x) == x }

  ghost predicate Commutes<A>(add: (A, A) -> A, x: A, y: A) { add(x, y) == add(y, x) }

  ghost predicate Monoid<A(!new)>(add: (A, A) -> A, zero: A) {
    (forall x, y, z :: Associates(add, x, y, z)) && (forall x :: Neutral(add, zero, x))
  }

  ghost predicate Commutative<A(!new)>(add: (A, A) -> A) { forall x, y :: Commutes(add, x, y) }

  lemma {:induction false} TotalConcat<K, A(!new)>(add: (A, A) -> A, zero: A, a: seq<Contribution<K, A>>, b: seq<Contribution<K, A>>, k: K)
    requires Monoid(add, zero)
    ensures Total(add, zero, a + b, k) == add(Total(add, zero, a, k), Total(add, zero, b, k))
    decreases |b|
  {
    var x := Total(add, zero, a, k);
    if b == [] {
      assert a + b == a;
      assert Neutral(add, zero, x);
    } else {
      var front, last := b[..|b| - 1], b[|b| - 1];
      TotalConcat(add, zero, a, front, k);
      assert (a + b)[..|a + b| - 1] == a + front;
      assert Associates(add, x, Total(add, zero, front, k), last.delta);
    }
  }

  lemma TotalOne<K, A(!new)>(add: (A, A) -> A, zero: A, c: Contribution<K, A>, k: K)
    requires Monoid(add, zero)
    ensures Total(add, zero, [c], k) == if c.key == k then c.delta else zero
  {
    assert [c][..0] == [];
    assert Total(add, zero, [c][..0], k) == zero;
    assert Neutral(add, zero, c.delta);
  }

  /** Merging two projections key by key. */
  function Merge<K(==), A>(add: (A, A) -> A, m: map<K, A>, n: map<K, A>): map<K, A> {
    map k | k in m.Keys + n.Keys ::
      if k in m && k in n then add(m[k], n[k]) else if k in m then m[k] else n[k]
  }

  /** Projecting batches apart and merging them is projecting them together. */
  lemma MergeIsProject<K, A(!new)>(add: (A, A) -> A, zero: A, a: seq<Contribution<K, A>>, b: seq<Contribution<K, A>>)
    requires Monoid(add, zero)
    ensures Merge(add, Project(add, zero, a), Project(add, zero, b)) == Project(add, zero, a + b)
  {
    KeysConcat(a, b);
    forall k | k in Keys(a + b)
      ensures Merge(add, Project(add, zero, a), Project(add, zero, b))[k] == Total(add, zero, a + b, k)
    {
      TotalConcat(add, zero, a, b, k);
      NoTotal(add, zero, a, k);
      NoTotal(add, zero, b, k);
      assert Neutral(add, zero, Total(add, zero, a, k)) && Neutral(add, zero, Total(add, zero, b, k));
    }
  }

  function MergeAll<K(==), A>(add: (A, A) -> A, parts: seq<map<K, A>>): map<K, A> {
    if parts == [] then map[] else Merge(add, parts[0], MergeAll(add, parts[1..]))
  }

  /** Any number of batches. */
  lemma {:induction false} MergeAllIsProject<K, A(!new)>(add: (A, A) -> A, zero: A, batches: seq<seq<Contribution<K, A>>>)
    requires Monoid(add, zero)
    ensures MergeAll(add, Image((b: seq<Contribution<K, A>>) => Project(add, zero, b), batches)) == Project(add, zero, Flat(batches))
  {
    if batches != [] {
      var p := (b: seq<Contribution<K, A>>) => Project(add, zero, b);
      MergeAllIsProject(add, zero, batches[1..]);
      assert Image(p, batches)[1..] == Image(p, batches[1..]);
      MergeIsProject(add, zero, batches[0], Flat(batches[1..]));
    }
  }

  // ---- Any order ----------------------------------------------------------------------------

  lemma Shuffle<A(!new)>(add: (A, A) -> A, zero: A, x: A, y: A, z: A)
    requires Monoid(add, zero) && Commutative(add)
    ensures add(x, add(y, z)) == add(y, add(x, z))
  {
    assert Associates(add, x, y, z) && Associates(add, y, x, z) && Commutes(add, x, y);
  }

  lemma TotalWith<K, A(!new)>(add: (A, A) -> A, zero: A, front: seq<Contribution<K, A>>, c: Contribution<K, A>, back: seq<Contribution<K, A>>, k: K)
    requires Monoid(add, zero)
    ensures Total(add, zero, front + ([c] + back), k)
         == add(Total(add, zero, front, k), add(Total(add, zero, [c], k), Total(add, zero, back, k)))
  {
    TotalConcat(add, zero, front, [c] + back, k);
    TotalConcat(add, zero, [c], back, k);
  }

  lemma TotalAround<K, A(!new)>(add: (A, A) -> A, zero: A, b: seq<Contribution<K, A>>, j: nat, k: K)
    requires Monoid(add, zero) && Commutative(add) && j < |b|
    ensures Total(add, zero, b, k) == add(Total(add, zero, [b[j]], k), Total(add, zero, b[..j] + b[j + 1..], k))
  {
    assert b == b[..j] + ([b[j]] + b[j + 1..]);
    TotalWith(add, zero, b[..j], b[j], b[j + 1..], k);
    TotalConcat(add, zero, b[..j], b[j + 1..], k);
    Shuffle(add, zero, Total(add, zero, b[..j], k), Total(add, zero, [b[j]], k), Total(add, zero, b[j + 1..], k));
  }

  lemma {:induction false} TotalOrderless<K, A(!new)>(add: (A, A) -> A, zero: A, a: seq<Contribution<K, A>>, b: seq<Contribution<K, A>>, k: K)
    requires Monoid(add, zero) && Commutative(add) && multiset(a) == multiset(b)
    ensures Total(add, zero, a, k) == Total(add, zero, b, k)
  {
    if a == [] {
      assert |b| == |multiset(b)| == 0;
    } else {
      var j := Partner(a, b);
      TotalConcat(add, zero, [a[0]], a[1..], k);
      assert a == [a[0]] + a[1..];
      TotalAround(add, zero, b, j, k);
      TotalOrderless(add, zero, a[1..], b[..j] + b[j + 1..], k);
    }
  }

  lemma KeysOrderless<K, A>(a: seq<Contribution<K, A>>, b: seq<Contribution<K, A>>)
    requires multiset(a) == multiset(b)
    ensures Keys(a) <= Keys(b)
  {
    forall i | 0 <= i < |a| ensures a[i].key in Keys(b) {
      assert a[i] in multiset(b);
      var j :| 0 <= j < |b| && b[j] == a[i];
    }
  }

  lemma ProjectOrderless<K, A(!new)>(add: (A, A) -> A, zero: A, a: seq<Contribution<K, A>>, b: seq<Contribution<K, A>>)
    requires Monoid(add, zero) && Commutative(add) && multiset(a) == multiset(b)
    ensures Project(add, zero, a) == Project(add, zero, b)
  {
    KeysOrderless(a, b);
    KeysOrderless(b, a);
    forall k | k in Keys(a) ensures Total(add, zero, a, k) == Total(add, zero, b, k) {
      TotalOrderless(add, zero, a, b, k);
    }
  }

  // ---- Rows to contributions ----------------------------------------------------------------

  function All<R, K, A>(f: R -> seq<Contribution<K, A>>, rows: seq<R>): seq<Contribution<K, A>> { Flat(Image(f, rows)) }

  lemma AllConcat<R, K, A>(f: R -> seq<Contribution<K, A>>, a: seq<R>, b: seq<R>)
    ensures All(f, a + b) == All(f, a) + All(f, b)
  {
    assert Image(f, a + b) == Image(f, a) + Image(f, b);
    FlatConcat(Image(f, a), Image(f, b));
  }

  lemma AllOne<R, K, A>(f: R -> seq<Contribution<K, A>>, r: R)
    ensures All(f, [r]) == f(r)
  {
    assert Flat(Image(f, [r])[1..]) == [];
  }

  /** The contributions of one row more. */
  lemma NextRow<R, K, A>(f: R -> seq<Contribution<K, A>>, rows: seq<R>, i: nat)
    requires i < |rows|
    ensures All(f, rows[..i + 1]) == All(f, rows[..i]) + f(rows[i])
    ensures f(rows[i]) == [] ==> All(f, rows[..i + 1]) == All(f, rows[..i])
  {
    assert rows[..i + 1] == rows[..i] + [rows[i]];
    AllConcat(f, rows[..i], [rows[i]]);
    AllOne(f, rows[i]);
  }

  lemma AllAround<R, K, A>(f: R -> seq<Contribution<K, A>>, s: seq<R>, j: nat)
    requires j < |s|
    ensures multiset(All(f, s)) == multiset(f(s[j])) + multiset(All(f, s[..j] + s[j + 1..]))
  {
    assert s == s[..j] + ([s[j]] + s[j + 1..]);
    AllConcat(f, s[..j], [s[j]] + s[j + 1..]);
    AllConcat(f, [s[j]], s[j + 1..]);
    AllOne(f, s[j]);
    AllConcat(f, s[..j], s[j + 1..]);
  }

  lemma {:induction false} AllOrderless<R, K, A>(f: R -> seq<Contribution<K, A>>, a: seq<R>, b: seq<R>)
    requires multiset(a) == multiset(b)
    ensures multiset(All(f, a)) == multiset(All(f, b))
  {
    if a == [] {
      assert |b| == |multiset(b)| == 0;
    } else {
      var j := Partner(a, b);
      AllConcat(f, [a[0]], a[1..]);
      AllOne(f, a[0]);
      assert a == [a[0]] + a[1..];
      AllAround(f, b, j);
      AllOrderless(f, a[1..], b[..j] + b[j + 1..]);
    }
  }

  lemma {:induction false} AllFlat<R, K, A>(f: R -> seq<Contribution<K, A>>, batches: seq<seq<R>>)
    ensures All(f, Flat(batches)) == Flat(Image((b: seq<R>) => All(f, b), batches))
  {
    if batches != [] {
      var g := (b: seq<R>) => All(f, b);
      AllFlat(f, batches[1..]);
      AllConcat(f, batches[0], Flat(batches[1..]));
      assert Image(g, batches)[1..] == Image(g, batches[1..]);
    }
  }

  function Batches<R, K(==), A>(f: R -> seq<Contribution<K, A>>, add: (A, A) -> A, zero: A, batches: seq<seq<R>>): seq<map<K, A>> {
    Image((b: seq<R>) => Project(add, zero, All(f, b)), batches)
  }

  /** Batches of rows in any order: the merged projections are the projection of all rows. */
  lemma BatchesMerge<R(!new), K, A(!new)>(f: R -> seq<Contribution<K, A>>, add: (A, A) -> A, zero: A, batches: seq<seq<R>>, rows: seq<R>)
    requires Monoid(add, zero) && Commutative(add) && multiset(Flat(batches)) == multiset(rows)
    ensures MergeAll(add, Batches(f, add, zero, batches)) == Project(add, zero, All(f, rows))
  {
    var g := (b: seq<R>) => All(f, b);
    var p := (b: seq<Contribution<K, A>>) => Project(add, zero, b);
    assert Image(p, Image(g, batches)) == Batches(f, add, zero, batches);
    MergeAllIsProject(add, zero, Image(g, batches));
    AllFlat(f, batches);
    AllOrderless(f, Flat(batches), rows);
    ProjectOrderless(add, zero, All(f, Flat(batches)), All(f, rows));
  }

  // ---- Numbers read off a dictionary --------------------------------------------------------

  /** The sum of a reading over all rows. */
  function SumInt<R>(rows: seq<R>, f: R -> int): int { if rows == [] then 0 else f(rows[0]) + SumInt(rows[1..], f) }

  function SumReal<R>(rows: seq<R>, f: R -> real): real { if rows == [] then 0.0 else f(rows[0]) + SumReal(rows[1..], f) }

  ghost predicate AddsInt<A>(add: (A, A) -> A, h: A -> int, x: A, y: A) { h(add(x, y)) == h(x) + h(y) }

  ghost predicate AddsReal<A>(add: (A, A) -> A, h: A -> real, x: A, y: A) { h(add(x, y)) == h(x) + h(y) }

  lemma TotalFirst<R, K, A(!new)>(part: R -> seq<Contribution<K, A>>, add: (A, A) -> A, zero: A, rows: seq<R>, k: K)
    requires Monoid(add, zero) && rows != []
    ensures Total(add, zero, All(part, rows), k)
         == add(Total(add, zero, part(rows[0]), k), Total(add, zero, All(part, rows[1..]), k))
  {
    assert rows == [rows[0]] + rows[1..];
    AllConcat(part, [rows[0]], rows[1..]);
    AllOne(part, rows[0]);
    TotalConcat(add, zero, part(rows[0]), All(part, rows[1..]), k);
  }

  /** A counter that adds up is, for every key, the sum of what the rows add to it. */
  lemma {:induction false} TotalInt<R(!new), K, A(!new)>(part: R -> seq<Contribution<K, A>>, add: (A, A) -> A, zero: A, h: A -> int,
                                                         f: R -> int, rows: seq<R>, k: K)
    requires Monoid(add, zero) && h(zero) == 0 && forall x, y :: AddsInt(add, h, x, y)
    requires forall r :: h(Total(add, zero, part(r), k)) == f(r)
    ensures h(Total(add, zero, All(part, rows), k)) == SumInt(rows, f)
  {
    if rows == [] {
      assert Image(part, rows) == [] && All(part, rows) == [];
    } else {
      TotalInt(part, add, zero, h, f, rows[1..], k);
      TotalFirst(part, add, zero, rows, k);
      assert AddsInt(add, h, Total(add, zero, part(rows[0]), k), Total(add, zero, All(part, rows[1..]), k));
    }
  }

  lemma {:induction false} TotalReal<R(!new), K, A(!new)>(part: R -> seq<Contribution<K, A>>, add: (A, A) -> A, zero: A, h: A -> real,
                                                          f: R -> real, rows: seq<R>, k: K)
    requires Monoid(add, zero) && h(zero) == 0.0 && forall x, y :: AddsReal(add, h, x, y)
    requires forall r :: h(Total(add, zero, part(r), k)) == f(r)
    ensures h(Total(add, zero, All(part, rows), k)) == SumReal(rows, f)
  {
    if rows == [] {
      assert Image(part, rows) == [] && All(part, rows) == [];
    } else {
      TotalReal(part, add, zero, h, f, rows[1..], k);
      TotalFirst(part, add, zero, rows, k);
      assert AddsReal(add, h, Total(add, zero, part(rows[0]), k), Total(add, zero, All(part, rows[1..]), k));
    }
  }

  /** A dictionary has the keys its rows contribute to. */
  lemma {:induction false} AllKeys<R, K, A>(part: R -> seq<Contribution<K, A>>, rows: seq<R>, k: K)
    ensures k in Keys(All(part, rows)) <==> exists r :: r in rows && k in Keys(part(r))
  {
    if rows == [] {
      assert Image(part, rows) == [] && All(part, rows) == [];
    } else {
      AllKeys(part, rows[1..], k);
      assert rows == [rows[0]] + rows[1..];
      AllConcat(part, [rows[0]], rows[1..]);
      AllOne(part, rows[0]);
      KeysConcat(part(rows[0]), All(part, rows[1..]));
      if k in Keys(part(rows[0])) {
        assert rows[0] in rows;
      }
    }
  }

  lemma {:induction false} NumberIsSum<R>(rows: seq<R>, p: R -> bool, f: R -> int)
    requires forall r :: r in rows ==> f(r) == if p(r) then 1 else 0
    ensures SumInt(rows, f) == Counting.Number(rows, p)
  {
    if rows != [] {
      assert rows[0] in rows;
      NumberIsSum(rows[1..], p, f);
    }
  }

  // ---- What is stored -----------------------------------------------------------------------

  /** A view of accumulators that respects addition, on those that `good` admits. */
  ghost predicate Respects<A(!new), B>(good: A -> bool, view: A -> B, add: (A, A) -> A, zero: A, add': (B, B) -> B, zero': B) {
    && good(zero) && view(zero) == zero'
    && forall x, y :: good(x) && good(y) ==> good(add(x, y)) && view(add(x, y)) == add'(view(x), view(y))
  }

  predicate AllGood<K, A>(good: A -> bool, cs: seq<Contribution<K, A>>) { forall i :: 0 <= i < |cs| ==> good(cs[i].delta) }

  function Viewed<K, A, B>(view: A -> B, cs: seq<Contribution<K, A>>): seq<Contribution<K, B>> {
    Image((c: Contribution<K, A>) => Contribution(c.key, view(c.delta)), cs)
  }

  /** Totals commute with such a view. */
  lemma {:induction false} TotalView<K, A(!new), B>(good: A -> bool, view: A -> B, add: (A, A) -> A, zero: A,
                                                    add': (B, B) -> B, zero': B, cs: seq<Contribution<K, A>>, k: K)
    requires Respects(good, view, add, zero, add', zero') && AllGood(good, cs)
    ensures good(Total(add, zero, cs, k)) && view(Total(add, zero, cs, k)) == Total(add', zero', Viewed(view, cs), k)
  {
    if cs != [] {
      TotalView(good, view, add, zero, add', zero', cs[..|cs| - 1], k);
      assert Viewed(view, cs)[..|cs| - 1] == Viewed(view, cs[..|cs| - 1]);
    }
  }

  /** The stored form of a projection: every accumulator under the view. */
  function Store<K(==), A, B>(view: A -> B, m: map<K, A>): map<K, B> { map k | k in m :: view(m[k]) }

  lemma ViewedKeys<K, A, B>(view: A -> B, cs: seq<Contribution<K, A>>)
    ensures Keys(Viewed(view, cs)) == Keys(cs)
  {
    forall i | 0 <= i < |cs| ensures Viewed(view, cs)[i].key == cs[i].key {
    }
    assert forall k :: k in Keys(cs) ==> exists i :: 0 <= i < |cs| && Viewed(view, cs)[i].key == k;
  }

  lemma StoreIsProject<K, A(!new), B>(good: A -> bool, view: A -> B, add: (A, A) -> A, zero: A,
                                      add': (B, B) -> B, zero': B, cs: seq<Contribution<K, A>>)
    requires Respects(good, view, add, zero, add', zero') && AllGood(good, cs)
    ensures Store(view, Project(add, zero, cs)) == Project(add', zero', Viewed(view, cs))
  {
    ViewedKeys(view, cs);
    forall k | k in Keys(cs) ensures view(Total(add, zero, cs, k)) == Total(add', zero', Viewed(view, cs), k) {
      TotalView(good, view, add, zero, add', zero', cs, k);
    }
  }

  function ViewedPart<R, K, A, B>(view: A -> B, f: R -> seq<Contribution<K, A>>): R -> seq<Contribution<K, B>> {
    (r: R) => Viewed(view, f(r))
  }

  lemma {:induction false} ViewAll<R, K, A, B>(view: A -> B, f: R -> seq<Contribution<K, A>>, rows: seq<R>)
    ensures All(ViewedPart(view, f), rows) == Viewed(view, All(f, rows))
  {
    if rows == [] {
      assert Image(f, rows) == [] && Image(ViewedPart(view, f), rows) == [];
    } else {
      ViewAll(view, f, rows[1..]);
      assert rows == [rows[0]] + rows[1..];
      AllConcat(f, [rows[0]], rows[1..]);
      AllConcat(ViewedPart(view, f), [rows[0]], rows[1..]);
      AllOne(f, rows[0]);
      AllOne(ViewedPart(view, f), rows[0]);
      assert Viewed(view, f(rows[0]) + All(f, rows[1..])) == Viewed(view, f(rows[0])) + Viewed(view, All(f, rows[1..]));
    }
  }

  lemma {:induction false} AllAllGood<R, K, A>(good: A -> bool, f: R -> seq<Contribution<K, A>>, rows: seq<R>)
    requires forall r :: AllGood(good, f(r))
    ensures AllGood(good, All(f, rows))
  {
    if rows == [] {
      assert Image(f, rows) == [];
    } else {
      AllAllGood(good, f, rows[1..]);
      assert rows == [rows[0]] + rows[1..];
      AllConcat(f, [rows[0]], rows[1..]);
      AllOne(f, rows[0]);
    }
  }

  /** What one batch stores. */
  function StoredBy<R, K(==), A, B>(f: R -> seq<Contribution<K, A>>, add: (A, A) -> A, zero: A, view: A -> B, rows: seq<R>): map<K, B> {
    Store(view, Project(add, zero, All(f, rows)))
  }

  lemma StoredIsProject<R(!new), K, A(!new), B>(f: R -> seq<Contribution<K, A>>, good: A -> bool, view: A -> B, add: (A, A) -> A, zero: A,
                                                add': (B, B) -> B, zero': B, rows: seq<R>)
    requires Respects(good, view, add, zero, add', zero') && forall r :: AllGood(good, f(r))
    ensures StoredBy(f, add, zero, view, rows) == Project(add', zero', All(ViewedPart(view, f), rows))
  {
    AllAllGood(good, f, rows);
    StoreIsProject(good, view, add, zero, add', zero', All(f, rows));
    ViewAll(view, f, rows);
  }

  /** Batches in any cut and order: merging what each stores gives what one batch of all rows would store. */
  lemma StoredMerge<R(!new), K, A(!new), B(!new)>(f: R -> seq<Contribution<K, A>>, good: A -> bool, view: A -> B, add: (A, A) -> A, zero: A,
                                                  add': (B, B) -> B, zero': B, batches: seq<seq<R>>, rows: seq<R>)
    requires Respects(good, view, add, zero, add', zero') && forall r :: AllGood(good, f(r))
    requires Monoid(add', zero') && Commutative(add') && multiset(Flat(batches)) == multiset(rows)
    ensures MergeAll(add', Image((b: seq<R>) => StoredBy(f, add, zero, view, b), batches)) == StoredBy(f, add, zero, view, rows)
  {
    var stored := (b: seq<R>) => StoredBy(f, add, zero, view, b);
    BatchesMerge(ViewedPart(view, f), add', zero', batches, rows);
    forall i | 0 <= i < |batches| ensures stored(batches[i]) == Project(add', zero', All(ViewedPart(view, f), batches[i])) {
      StoredIsProject(f, good, view, add, zero, add', zero', batches[i]);
    }
    assert Image(stored, batches) == Batches(ViewedPart(view, f), add', zero', batches);
    StoredIsProject(f, good, view, add, zero, add', zero', rows);
  }
}
