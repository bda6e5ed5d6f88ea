/** Rounding times down to a multiple of a width. */
module Rounding {

  function Floor(n: int, t: int): int
    requires n > 0
  {
    t / n * n
  }

  lemma MulLe(a: int, b: int, n: int)
    requires a <= b && n >= 0
    ensures a * n <= b * n
  {
  }

  lemma Succ(a: int, n: int)
    ensures (a + 1) * n == a * n + n
  {
  }

  lemma Regroup(q: int, c: int, m: int)
    ensures q * c * m == q * (m * c)
  {
  }

  lemma DivBounds(n: int, t: int)
    requires n > 0
    ensures Floor(n, t) <= t < Floor(n, t) + n
  {
  }

  lemma QuotientIs(n: int, t: int, q: int)
    requires n > 0 && q * n <= t < q * n + n
    ensures t / n == q
  {
    var p := t / n;
    DivBounds(n, t);
    Succ(p, n);
    Succ(q, n);
    if p < q {
      MulLe(p + 1, q, n);
    } else if p > q {
      MulLe(q + 1, p, n);
    }
  }

  lemma NestedDiv(t: int, m: int, c: int)
    requires m > 0 && c > 0
    ensures m * c > 0 && t / (m * c) == t / m / c
  {
    var a := t / m;
    var q := a / c;
    DivBounds(m, t);
    DivBounds(c, a);
    MulLe(q * c, a, m);
    MulLe(a + 1, q * c + c, m);
    Succ(a, m);
    Succ(q, c);
    Succ(q, m * c);
    Regroup(q, c, m);
    Regroup(q + 1, c, m);
    Positive(m, c);
    QuotientIs(m * c, t, q);
  }

  lemma Positive(m: int, c: int)
    requires m > 0 && c > 0
    ensures m * c > 0
  {
  }

  lemma FloorMonotone(n: int, a: int, b: int)
    requires n > 0 && a <= b
    ensures Floor(n, a) <= Floor(n, b)
  {
    var x, y := a / n, b / n;
    DivBounds(n, a);
    DivBounds(n, b);
    Succ(y, n);
    if x > y {
      MulLe(y + 1, x, n);
    } else {
      MulLe(x, y, n);
    }
  }

  /** A floor lies below a multiple of the width exactly if the time does. */
  lemma FloorBelow(n: int, t: int, bound: int)
    requires n > 0 && Floor(n, bound) == bound
    ensures Floor(n, t) < bound <==> t < bound
  {
    DivBounds(n, t);
    if t >= bound {
      FloorMonotone(n, bound, t);
    }
  }

  /** A floor stays on its side of whole bounds. */
  lemma FloorBetween(n: int, t: int, start: int, end: int)
    requires n > 0 && Floor(n, start) == start && Floor(n, end) == end
    ensures start <= Floor(n, t) < end <==> start <= t < end
  {
    FloorBelow(n, t, start);
    FloorBelow(n, t, end);
  }
}
