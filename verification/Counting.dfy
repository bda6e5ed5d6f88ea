/** Dictionaries of counters in insertion order, and counting by predicate. */
module Counting {

  datatype Entry<K> = Entry(key: K, count: nat)

  /** `counts[key] = counts.get(key, 0) + n`. */
  function Bump<K(==)>(t: seq<Entry<K>>, key: K, n: nat): seq<Entry<K>> {
    if t == [] then [Entry(key, n)]
    else if t[0].key == key then [Entry(key, t[0].count + n)] + t[1..]
    else [t[0]] + Bump(t[1..], key, n)
  }

  function CountOf<K(==)>(t: seq<Entry<K>>, key: K): nat {
    if t == [] then 0 else if t[0].key == key then t[0].count else CountOf(t[1..], key)
  }

  predicate Distinct<K(==)>(t: seq<Entry<K>>) {
    forall i, j :: 0 <= i < j < |t| ==> t[i].key != t[j].key
  }

  function Sum<K>(t: seq<Entry<K>>, p: K -> bool): nat {
    if t == [] then 0 else (if p(t[0].key) then t[0].count else 0) + Sum(t[1..], p)
  }

  /** How many elements satisfy `p`. */
  function Number<T>(s: seq<T>, p: T -> bool): nat {
    if s == [] then 0 else (if p(s[0]) then 1 else 0) + Number(s[1..], p)
  }

  lemma {:induction false} BumpSum<K>(t: seq<Entry<K>>, key: K, n: nat, p: K -> bool)
    ensures Sum(Bump(t, key, n), p) == Sum(t, p) + if p(key) then n else 0
  {
    if t != [] && t[0].key != key {
      BumpSum(t[1..], key, n, p);
      assert ([t[0]] + Bump(t[1..], key, n))[1..] == Bump(t[1..], key, n);
    } else if t != [] {
      assert ([Entry(key, t[0].count + n)] + t[1..])[1..] == t[1..];
    }
  }

  function Keys<K(==)>(t: seq<Entry<K>>): set<K> { set e | e in t :: e.key }

  lemma {:induction false} BumpKeys<K>(t: seq<Entry<K>>, key: K, n: nat)
    ensures Keys(Bump(t, key, n)) == Keys(t) + {key}
    ensures Distinct(t) ==> Distinct(Bump(t, key, n))
  {
    var now := Bump(t, key, n);
    if t != [] {
      assert t == [t[0]] + t[1..];
      assert Keys(t) == {t[0].key} + Keys(t[1..]);
      if t[0].key == key {
        assert Keys(now) == {key} + Keys(t[1..]);
      } else {
        BumpKeys(t[1..], key, n);
        var rest := Bump(t[1..], key, n);
        assert Keys(now) == {t[0].key} + Keys(rest);
        if Distinct(t) {
          forall j | 0 <= j < |rest| ensures rest[j].key != t[0].key {
            assert rest[j].key in Keys(rest);
          }
        }
      }
    }
  }

  lemma {:induction false} BumpCount<K>(t: seq<Entry<K>>, key: K, n: nat, k: K)
    ensures CountOf(Bump(t, key, n), k) == CountOf(t, k) + if k == key then n else 0
  {
    if t != [] && t[0].key != key {
      BumpCount(t[1..], key, n, k);
      assert ([t[0]] + Bump(t[1..], key, n))[1..] == Bump(t[1..], key, n);
    } else if t != [] {
      assert ([Entry(key, t[0].count + n)] + t[1..])[1..] == t[1..];
    }
  }

  /** In a dictionary an entry's count is the count of its key. */
  lemma {:induction false} EntryCount<K>(t: seq<Entry<K>>, e: Entry<K>)
    requires Distinct(t)
    ensures e in t ==> CountOf(t, e.key) == e.count
    ensures e.key !in Keys(t) ==> CountOf(t, e.key) == 0
  {
    if t != [] {
      assert t == [t[0]] + t[1..];
      EntryCount(t[1..], e);
    }
  }

  lemma {:induction false} SumConcat<K>(a: seq<Entry<K>>, b: seq<Entry<K>>, p: K -> bool)
    ensures Sum(a + b, p) == Sum(a, p) + Sum(b, p)
  {
    if a == [] {
      assert a + b == b;
    } else {
      SumConcat(a[1..], b, p);
      assert (a + b)[1..] == a[1..] + b;
    }
  }

  lemma {:induction false} NumberConcat<T>(a: seq<T>, b: seq<T>, p: T -> bool)
    ensures Number(a + b, p) == Number(a, p) + Number(b, p)
  {
    if a == [] {
      assert a + b == b;
    } else {
      NumberConcat(a[1..], b, p);
      assert (a + b)[1..] == a[1..] + b;
    }
  }

  /** Predicates that agree on the elements count alike. */
  lemma {:induction false} NumberSame<T>(s: seq<T>, p: T -> bool, q: T -> bool)
    requires forall x :: x in s ==> p(x) == q(x)
    ensures Number(s, p) == Number(s, q)
  {
    if s != [] {
      assert s == [s[0]] + s[1..];
      NumberSame(s[1..], p, q);
    }
  }

  /** Counting a union of two disjoint cases. */
  lemma {:induction false} NumberSplit<T>(s: seq<T>, p: T -> bool, q: T -> bool, r: T -> bool)
    requires forall x :: x in s ==> (r(x) <==> p(x) || q(x)) && !(p(x) && q(x))
    ensures Number(s, r) == Number(s, p) + Number(s, q)
  {
    if s != [] {
      assert s == [s[0]] + s[1..];
      NumberSplit(s[1..], p, q, r);
    }
  }

  /** A narrower predicate counts no more, and as much only if it is not narrower on the elements. */
  lemma {:induction false} NumberSubset<T>(s: seq<T>, p: T -> bool, q: T -> bool)
    requires forall x :: x in s && p(x) ==> q(x)
    ensures Number(s, p) <= Number(s, q)
    ensures Number(s, p) == Number(s, q) ==> forall x :: x in s && q(x) ==> p(x)
  {
    if s != [] {
      assert s == [s[0]] + s[1..];
      NumberSubset(s[1..], p, q);
    }
  }

  lemma {:induction false} NumberNone<T>(s: seq<T>, p: T -> bool)
    ensures Number(s, p) == 0 <==> forall x :: x in s ==> !p(x)
  {
    if s != [] {
      assert s == [s[0]] + s[1..];
      NumberNone(s[1..], p);
    }
  }

  lemma NumberOne<T>(x: T, p: T -> bool)
    ensures Number([x], p) == if p(x) then 1 else 0
  {
    assert Number([x][1..], p) == 0;
  }

  /** Counting images is counting what they are images of. */
  lemma {:induction false} NumberImage<T, U>(s: seq<T>, image: seq<U>, p: U -> bool, q: T -> bool)
    requires |image| == |s| && forall i :: 0 <= i < |s| ==> p(image[i]) == q(s[i])
    ensures Number(image, p) == Number(s, q)
  {
    if s != [] {
      NumberImage(s[1..], image[1..], p, q);
    }
  }

  /** Every key counted once. */
  function Tally<K(==)>(keys: seq<K>): seq<Entry<K>> {
    if keys == [] then [] else Bump(Tally(keys[..|keys| - 1]), keys[|keys| - 1], 1)
  }

  /** Conservation: a tally spreads exactly the keys it was given. */
  lemma {:induction false} TallySum<K>(keys: seq<K>, p: K -> bool)
    ensures Sum(Tally(keys), p) == Number(keys, p)
  {
    if keys != [] {
      var front, last := keys[..|keys| - 1], keys[|keys| - 1];
      TallySum(front, p);
      BumpSum(Tally(front), last, 1, p);
      assert keys == front + [last];
      NumberConcat(front, [last], p);
    }
  }
}
