/** Sums of real-valued weights over a finite set of terms.

    The engine iterates over the keys of plain objects and adds up weights; the
    order in which keys are visited is irrelevant for exact (real) arithmetic.
    `Sum` picks an arbitrary element, and `SumPick` proves that any other choice
    gives the same total, which is what loops over keys rely on. */
module Sums {

  ghost function Sum(s: set<string>, f: string -> real): real
    decreases s
  {
    if s == {} then 0.0 else var k :| k in s; f(k) + Sum(s - {k}, f)
  }

  /** Any element may be taken out first. */
  lemma {:induction false} SumPick(s: set<string>, f: string -> real, y: string)
    requires y in s
    ensures Sum(s, f) == f(y) + Sum(s - {y}, f)
    decreases s
  {
    var k :| k in s && Sum(s, f) == f(k) + Sum(s - {k}, f);
    if k != y {
      SumPick(s - {k}, f, y);
      assert s - {k} - {y} == s - {y} - {k};
      SumPick(s - {y}, f, k);
    }
  }

  /** Adding one new element to the visited set adds its weight. */
  lemma SumAddOne(s: set<string>, f: string -> real, y: string)
    requires y !in s
    ensures Sum(s + {y}, f) == Sum(s, f) + f(y)
  {
    SumPick(s + {y}, f, y);
    assert s + {y} - {y} == s;
  }

  /** Sums of two weightings that agree on the set are equal. */
  lemma {:induction false} SumCongruent(s: set<string>, f: string -> real, g: string -> real)
    requires forall k :: k in s ==> f(k) == g(k)
    ensures Sum(s, f) == Sum(s, g)
    decreases s
  {
    if s != {} {
      var k :| k in s && Sum(s, f) == f(k) + Sum(s - {k}, f);
      SumPick(s, g, k);
      SumCongruent(s - {k}, f, g);
    }
  }

  /** A sum of zeros is zero. */
  lemma {:induction false} SumZero(s: set<string>, f: string -> real)
    requires forall k :: k in s ==> f(k) == 0.0
    ensures Sum(s, f) == 0.0
    decreases s
  {
    if s != {} {
      var k :| k in s && Sum(s, f) == f(k) + Sum(s - {k}, f);
      SumZero(s - {k}, f);
    }
  }

  /** A sum of non-negative weights is non-negative, and it is positive
      exactly when one of the weights is positive. */
  lemma {:induction false} SumNonNegative(s: set<string>, f: string -> real)
    requires forall k :: k in s ==> f(k) >= 0.0
    ensures Sum(s, f) >= 0.0
    ensures Sum(s, f) > 0.0 <==> exists k :: k in s && f(k) > 0.0
    decreases s
  {
    if s != {} {
      var k :| k in s && Sum(s, f) == f(k) + Sum(s - {k}, f);
      SumNonNegative(s - {k}, f);
    }
  }

  lemma DivAdd(a: real, b: real, n: real)
    requires n > 0.0
    ensures a / n + b / n == (a + b) / n
  {
  }

  /** Dividing every weight by the same positive number divides the sum. */
  lemma {:induction false} SumScale(s: set<string>, f: string -> real, g: string -> real, n: real)
    requires n > 0.0
    requires forall k :: k in s ==> g(k) == f(k) / n
    ensures Sum(s, g) == Sum(s, f) / n
    decreases s
  {
    if s != {} {
      var k :| k in s && Sum(s, g) == g(k) + Sum(s - {k}, g);
      var rf := Sum(s - {k}, f);
      calc {
        Sum(s, g);
        g(k) + Sum(s - {k}, g);
        { SumScale(s - {k}, f, g, n); }
        f(k) / n + rf / n;
        { DivAdd(f(k), rf, n); }
        (f(k) + rf) / n;
        { SumPick(s, f, k); }
        Sum(s, f) / n;
      }
    }
  }
}
