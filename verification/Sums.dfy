/** Sums as the minute tables store them: absent when there is nothing to sum, and ignored when absent. */
module Sums {
  import opened Wrappers

  function SumOf(s: seq<real>): real { if s == [] then 0.0 else SumOf(s[..|s| - 1]) + s[|s| - 1] }

  lemma {:induction false} SumConcat(a: seq<real>, b: seq<real>)
    ensures SumOf(a + b) == SumOf(a) + SumOf(b)
    decreases |b|
  {
    if b == [] {
      assert a + b == a;
    } else {
      SumConcat(a, b[..|b| - 1]);
      assert (a + b)[..|a + b| - 1] == a + b[..|b| - 1];
    }
  }

  /** `sum(values) if values else None`. */
  function Summed(s: seq<real>): Option<real> { if s == [] then None else Some(SumOf(s)) }

  /** `sum` over a column that may be null. */
  function Plus(a: Option<real>, b: Option<real>): Option<real> {
    if a.None? then b else if b.None? then a else Some(a.value + b.value)
  }

  lemma SummedConcat(a: seq<real>, b: seq<real>)
    ensures Summed(a + b) == Plus(Summed(a), Summed(b))
  {
    if a == [] {
      assert a + b == b;
    } else if b == [] {
      assert a + b == a;
    } else {
      SumConcat(a, b);
    }
  }
}
