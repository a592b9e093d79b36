/** Small datatypes and predicates used throughout. */
module Common {

  datatype Option<T> = None | Some(value: T)

  predicate Distinct<T(==)>(s: seq<T>) {
    forall i, j :: 0 <= i < j < |s| ==> s[i] != s[j]
  }
}

/** Arithmetic shared by the token buckets: float64 becomes real, and a
    conversion to int drops the fraction. */
module Arithmetic {

  /** Go's int(x): truncation toward zero. */
  function Trunc(x: real): int {
    if x >= 0.0 then x.Floor else -((-x).Floor)
  }

  function Min(a: real, b: real): real { if a <= b then a else b }

  function Max(a: real, b: real): real { if a <= b then b else a }

  lemma {:induction false} MulNonNegative(a: real, b: real)
    requires a >= 0.0 && b >= 0.0
    ensures a * b >= 0.0
  {
  }

  lemma {:induction false} MulSplit(rate: real, a: real, b: real, c: real)
    ensures rate * (c - a) == rate * (b - a) + rate * (c - b)
  {
    assert c - a == (b - a) + (c - b);
  }
}
