/** Finite sums over real numbers, the arithmetic under the attention
    normalisation and the policy-weighted mean. */
module Reals {

  /** Sum of a list of reals (`tensor.sum(dim=-1)` on one row). */
  function Sum(s: seq<real>): real
    decreases |s|
  {
    if |s| == 0 then 0.0 else s[0] + Sum(s[1..])
  }

  predicate Positive(s: seq<real>)
  {
    forall j :: 0 <= j < |s| ==> s[j] > 0.0
  }

  predicate NonNegative(s: seq<real>)
  {
    forall j :: 0 <= j < |s| ==> s[j] >= 0.0
  }

  /** Element-wise `(e[j] + c) / d`: add a constant, then divide by a common
      denominator. */
  function Affine(e: seq<real>, c: real, d: real): (r: seq<real>)
    requires d != 0.0
    ensures |r| == |e|
    ensures forall j :: 0 <= j < |e| ==> r[j] == (e[j] + c) / d
    decreases |e|
  {
    if |e| == 0 then [] else [(e[0] + c) / d] + Affine(e[1..], c, d)
  }

  /** Element-wise scaling by `c`. */
  function Scale(e: seq<real>, c: real): (r: seq<real>)
    ensures |r| == |e|
    ensures forall j :: 0 <= j < |e| ==> r[j] == c * e[j]
    decreases |e|
  {
    if |e| == 0 then [] else [c * e[0]] + Scale(e[1..], c)
  }

  lemma {:induction false} SumNonNegative(s: seq<real>)
    requires NonNegative(s)
    ensures Sum(s) >= 0.0
    decreases |s|
  {
    if |s| > 0 {
      SumNonNegative(s[1..]);
    }
  }

  /** A sum of non-negative reals is at least each of its terms. */
  lemma {:induction false} SumAtLeastTerm(s: seq<real>, k: nat)
    requires NonNegative(s)
    requires k < |s|
    ensures s[k] <= Sum(s)
    decreases |s|
  {
    if k == 0 {
      SumNonNegative(s[1..]);
    } else {
      SumAtLeastTerm(s[1..], k - 1);
    }
  }

  /** A sum of positive reals over a non-empty list is positive. */
  lemma SumPositive(s: seq<real>)
    requires Positive(s)
    requires |s| > 0
    ensures Sum(s) > 0.0
  {
    SumAtLeastTerm(s, 0);
  }

  lemma PositiveProduct(x: real, y: real)
    requires x > 0.0 && y > 0.0
    ensures x * y > 0.0
  {
  }

  lemma ProductZero(x: real, y: real)
    requires x != 0.0
    ensures x * y == 0.0 <==> y == 0.0
  {
  }

  lemma QuotientZero(x: real, d: real)
    requires d != 0.0
    ensures x / d == 0.0 <==> x == 0.0
  {
  }

  lemma DivStrictMono(x: real, y: real, d: real)
    requires x < y && d > 0.0
    ensures x / d < y / d
  {
  }

  lemma DivAdd(x: real, y: real, d: real)
    requires d != 0.0
    ensures x / d + y / d == (x + y) / d
  {
  }

  lemma DivSelf(x: real)
    requires x != 0.0
    ensures x / x == 1.0
  {
  }

  lemma MulDivCancel(n: real, x: real)
    requires n != 0.0
    ensures n * (x / n) == x
  {
  }

  lemma DivCommonFactor(c: real, x: real, d: real)
    requires c != 0.0 && d != 0.0
    ensures (c * x) / (c * d) == x / d
  {
    assert (c * x) == (x / d) * (c * d);
  }

  /** `(c x) / (c d) == x / d`, stated over named values so that it can be
      applied without the surrounding context. */
  lemma ScaledQuotient(c: real, x: real, d: real, sx: real, sd: real, l: real, r: real)
    requires c > 0.0 && d != 0.0
    requires sx == c * x && sd == c * d
    requires l == sx / sd && r == x / d
    ensures l == r
  {
    DivCommonFactor(c, x, d);
  }

  /** `(c x) k == c (x k)`, stated over named values so that it can be
      applied without the surrounding context. */
  lemma ScaledProduct(c: real, x: real, k: real, sx: real, p: real, l: real, r: real)
    requires sx == c * x && p == x * k
    requires l == sx * k && r == c * p
    ensures l == r
  {
    MulAssoc(c, x, k);
  }

  lemma MulAssoc(x: real, y: real, z: real)
    ensures (x * y) * z == x * (y * z)
  {
  }

  /** Summing `(e[j] + c) / d` adds `|e|` copies of `c` to the numerator
      of the sum. */
  lemma {:induction false} SumAffine(e: seq<real>, c: real, d: real)
    requires d != 0.0
    ensures Sum(Affine(e, c, d)) == (Sum(e) + Times(|e|, c)) / d
    decreases |e|
  {
    if |e| > 0 {
      var r := Affine(e, c, d);
      assert r[1..] == Affine(e[1..], c, d);
      SumAffine(e[1..], c, d);
      DivAdd(e[0] + c, Sum(e[1..]) + Times(|e| - 1, c), d);
    }
  }

  /** `n` copies of `c` added up. */
  function Times(n: nat, c: real): real
    decreases n
  {
    if n == 0 then 0.0 else c + Times(n - 1, c)
  }

  lemma {:induction false} TimesIsProduct(n: nat, c: real)
    ensures Times(n, c) == (n as real) * c
    decreases n
  {
    if n > 0 {
      TimesIsProduct(n - 1, c);
      MulSucc((n - 1) as real, n as real, c);
    }
  }

  /** `n` copies of `x / n` add up to `x`. */
  lemma TimesShare(n: nat, x: real)
    requires n > 0
    ensures Times(n, x / (n as real)) == x
  {
    TimesIsProduct(n, x / (n as real));
    MulDivCancel(n as real, x);
  }

  lemma MulSucc(n: real, m: real, c: real)
    requires m == n + 1.0
    ensures m * c == n * c + c
  {
  }

  /** Dividing every term divides the sum. */
  lemma {:induction false} SumDivide(e: seq<real>, d: real)
    requires d != 0.0
    ensures Sum(Divide(e, d)) == Sum(e) / d
    decreases |e|
  {
    if |e| > 0 {
      assert Divide(e, d)[1..] == Divide(e[1..], d);
      SumDivide(e[1..], d);
      DivAdd(e[0], Sum(e[1..]), d);
    }
  }

  /** Scaling every term scales the sum. */
  lemma {:induction false} SumScale(e: seq<real>, c: real)
    ensures Sum(Scale(e, c)) == c * Sum(e)
    decreases |e|
  {
    if |e| > 0 {
      assert Scale(e, c)[1..] == Scale(e[1..], c);
      SumScale(e[1..], c);
    }
  }

  /** Element-wise division by a common denominator. */
  function Divide(e: seq<real>, d: real): (r: seq<real>)
    requires d != 0.0
    ensures |r| == |e|
    ensures forall j :: 0 <= j < |e| ==> r[j] == e[j] / d
    decreases |e|
  {
    if |e| == 0 then [] else [e[0] / d] + Divide(e[1..], d)
  }

  /** Dividing by a common denominator ignores a common positive factor of
      the terms and the denominator (`cd` is the scaled denominator). */
  lemma DivideScale(e: seq<real>, c: real, d: real, cd: real)
    requires c > 0.0 && d != 0.0 && cd == c * d
    ensures Divide(Scale(e, c), cd) == Divide(e, d)
  {
    var l, r := Divide(Scale(e, c), cd), Divide(e, d);
    forall j | 0 <= j < |e| ensures l[j] == r[j] {
      QuotientAt(e, c, d, cd, j);
    }
  }

  /** Entry `j` of `DivideScale`. */
  lemma QuotientAt(e: seq<real>, c: real, d: real, cd: real, j: nat)
    requires c > 0.0 && d != 0.0 && cd == c * d && j < |e|
    ensures Divide(Scale(e, c), cd)[j] == Divide(e, d)[j]
  {
    var x := e[j];
    var sx := Scale(e, c)[j];
    ScaledQuotient(c, x, d, sx, cd, sx / cd, x / d);
  }

  /** Normalising a list by its sum ignores a common positive factor. */
  lemma NormaliseScale(e: seq<real>, c: real)
    requires c > 0.0 && Sum(e) != 0.0
    ensures Sum(Scale(e, c)) != 0.0
    ensures Divide(Scale(e, c), Sum(Scale(e, c))) == Divide(e, Sum(e))
  {
    SumScale(e, c);
    DivideScale(e, c, Sum(e), Sum(Scale(e, c)));
  }

  /** The sum of a concatenation is the sum of the sums. */
  lemma {:induction false} SumAppend(a: seq<real>, b: seq<real>)
    ensures Sum(a + b) == Sum(a) + Sum(b)
    decreases |a|
  {
    if |a| > 0 {
      assert (a + b)[1..] == a[1..] + b;
      SumAppend(a[1..], b);
    } else {
      assert a + b == b;
    }
  }
}
