/** Multiplication and division facts, each small enough for the solver. */
module Arithmetic {
  lemma MulMonotone(a: int, b: int, size: nat)
    ensures a <= b ==> a * size <= b * size
    ensures (a + 1) * size == a * size + size
    ensures (a - 1) * size == a * size - size
  {
  }

  lemma DivisionBounds(n: nat, size: nat)
    requires size > 0
    ensures n / size * size <= n < n / size * size + size
    ensures n % size == n - n / size * size
  {
  }

  lemma QuotientUnique(n: nat, size: nat, q: nat)
    requires size > 0 && q * size <= n < q * size + size
    ensures n / size == q
  {
    DivisionBounds(n, size);
    var d := n / size;
    MulMonotone(d + 1, q, size);
    MulMonotone(q + 1, d, size);
    MulMonotone(d, q, size);
    MulMonotone(q, d, size);
  }

  lemma MultipleOfSize(q: nat, size: nat)
    requires size > 0
    ensures q * size % size == 0
  {
    QuotientUnique(q * size, size, q);
    DivisionBounds(q * size, size);
  }

  // ---- Digits ----

  function Quot(i: nat, e: nat): nat
    requires e > 0
  {
    i / e
  }

  function Rem(i: nat, e: nat): nat
    requires e > 0
  {
    i % e
  }

  /** Digit `d` after `q` in base `e`. */
  function Place(q: nat, e: nat, d: nat): nat {
    q * e + d
  }

  lemma PlaceDigits(q: nat, e: nat, d: nat)
    requires d < e
    ensures Quot(Place(q, e, d), e) == q && Rem(Place(q, e, d), e) == d
  {
    QuotientUnique(q * e + d, e, q);
    DivisionBounds(q * e + d, e);
  }

  lemma DigitsPlace(i: nat, e: nat)
    requires e > 0
    ensures Place(Quot(i, e), e, Rem(i, e)) == i && Rem(i, e) < e
  {
    DivisionBounds(i, e);
  }

  // ---- Sums ----

  /** Adding up the terms from the first to the last gives the total. */
  ghost predicate SumsTo(terms: seq<real>, total: real) {
    exists partial: seq<real> :: IsRunningSum(terms, partial) && partial[|terms|] == total
  }

  ghost predicate IsRunningSum(terms: seq<real>, partial: seq<real>) {
    |partial| == |terms| + 1 && partial[0] == 0.0 && forall i :: 0 <= i < |terms| ==> partial[i + 1] == partial[i] + terms[i]
  }

  /** Terms have only one total. */
  lemma SumUnique(terms: seq<real>, a: real, b: real)
    requires SumsTo(terms, a) && SumsTo(terms, b)
    ensures a == b
  {
    var p :| IsRunningSum(terms, p) && p[|terms|] == a;
    var q :| IsRunningSum(terms, q) && q[|terms|] == b;
    SameRunningSum(terms, p, q, |terms|);
  }

  lemma {:induction false} SameRunningSum(terms: seq<real>, p: seq<real>, q: seq<real>, n: nat)
    requires IsRunningSum(terms, p) && IsRunningSum(terms, q) && n <= |terms|
    ensures p[n] == q[n]
    decreases n
  {
    if n > 0 {
      SameRunningSum(terms, p, q, n - 1);
      assert p[n] == p[n - 1] + terms[n - 1] && q[n] == q[n - 1] + terms[n - 1];
    }
  }
}
