/** The policy-aware attention softmax of one query row
    (`Attention.softmax_with_policy` and the branch in `Attention.forward`).

    The exponentials `exp(attn - max)` are floating-point library numerics;
    here they are an arbitrary list `a` of positive reals, one per key.  The
    policy entries are non-negative reals, one per key. */
module Attention {
  import opened Common
  import opened Reals

  /** The epsilon used in training mode (`1e-6`, pit.py:75). */
  const TrainEps: real := 0.000001

  /** Entry (i, j) of the effective key mask `p + (1 - p) * eye`: the policy
      of key `j`, except that every query keeps its own key. */
  function KeyMask(policy: seq<real>, i: nat, j: nat): (m: real)
    requires j < |policy|
    ensures i == j ==> m == 1.0
    ensures i != j ==> m == policy[j]
  {
    var eye := if i == j then 1.0 else 0.0;
    policy[j] + (1.0 - policy[j]) * eye
  }

  /** The masked exponentials of query `i`: `a[j] * mask(i, j)`. */
  function MaskedExp(a: seq<real>, policy: seq<real>, i: nat): seq<real>
    requires |policy| == |a|
  {
    seq(|a|, j requires 0 <= j < |a| => a[j] * KeyMask(policy, i, j))
  }

  /** The query's own exponential is kept whatever its policy entry; every
      other key's exponential is multiplied by that key's policy entry. */
  lemma MaskedExpEntries(a: seq<real>, policy: seq<real>, i: nat)
    requires |policy| == |a|
    ensures |MaskedExp(a, policy, i)| == |a|
    ensures forall j :: 0 <= j < |a| ==>
      MaskedExp(a, policy, i)[j] == if j == i then a[j] else a[j] * policy[j]
  {
  }

  /** The preconditions under which the row is built: positive exponentials,
      a non-negative policy of the same length, a query inside the row, and
      a non-negative epsilon. */
  predicate RowInputs(a: seq<real>, policy: seq<real>, i: nat, eps: real)
  {
    |policy| == |a| && i < |a| && Positive(a) && NonNegative(policy) && eps >= 0.0
  }

  lemma MaskedExpNonNegative(a: seq<real>, policy: seq<real>, i: nat)
    requires |policy| == |a| && Positive(a) && NonNegative(policy)
    ensures NonNegative(MaskedExp(a, policy, i))
  {
    var e := MaskedExp(a, policy, i);
    forall j | 0 <= j < |a| ensures e[j] >= 0.0 {
      var m := KeyMask(policy, i, j);
      assert m >= 0.0;
      assert a[j] * m >= 0.0;
    }
  }

  /** The row denominator `sum(a * mask) + eps`.  It is never zero: the
      query's own key is unmasked, so it is at least `a[i] + eps`. */
  function Denominator(a: seq<real>, policy: seq<real>, i: nat, eps: real): (d: real)
    requires RowInputs(a, policy, i, eps)
    ensures d >= a[i] + eps
    ensures d > 0.0
  {
    var e := MaskedExp(a, policy, i);
    MaskedExpNonNegative(a, policy, i);
    SumAtLeastTerm(e, i);
    Sum(e) + eps
  }

  /** The normalised weights of query `i` over all keys,
      `(a[j] * mask(i, j) + eps / N) / (sum(a * mask) + eps)`. */
  function Weights(a: seq<real>, policy: seq<real>, i: nat, eps: real): (w: seq<real>)
    requires RowInputs(a, policy, i, eps)
    ensures |w| == |a|
    ensures Sum(w) == 1.0
  {
    var e := MaskedExp(a, policy, i);
    var n := |a| as real;
    var d := Denominator(a, policy, i, eps);
    SumAffine(e, eps / n, d);
    TimesShare(|a|, eps);
    assert Sum(e) + Times(|a|, eps / n) == d;
    DivSelf(d);
    Affine(e, eps / n, d)
  }

  /** Without smoothing, the weights are the masked exponentials divided
      by their sum. */
  lemma UnsmoothedIsNormalised(a: seq<real>, policy: seq<real>, i: nat)
    requires RowInputs(a, policy, i, 0.0)
    ensures Sum(MaskedExp(a, policy, i)) > 0.0
    ensures Weights(a, policy, i, 0.0) == Divide(MaskedExp(a, policy, i), Sum(MaskedExp(a, policy, i)))
  {
    var n := |a| as real;
    assert 0.0 / n == 0.0;
    var e := MaskedExp(a, policy, i);
    assert Denominator(a, policy, i, 0.0) == Sum(e);
  }

  /** The plain softmax normalisation `a[j] / sum(a)` (pit.py:71). */
  function Softmax(a: seq<real>): (w: seq<real>)
    requires |a| > 0 && Positive(a)
    ensures |w| == |a|
    ensures Sum(w) == 1.0
  {
    SumPositive(a);
    SumDivide(a, Sum(a));
    DivSelf(Sum(a));
    Divide(a, Sum(a))
  }

  /** `Attention.forward`'s choice of normalisation for one query row: plain
      softmax without a policy, the masked form with `eps = 0` in evaluation
      and with `eps = 1e-6` in training.  Every branch yields a distribution. */
  function AttentionRow(a: seq<real>, policy: Option<seq<real>>, mode: Mode, i: nat): (w: seq<real>)
    requires i < |a| && Positive(a)
    requires policy.Some? ==> |policy.value| == |a| && NonNegative(policy.value)
    ensures |w| == |a|
    ensures Sum(w) == 1.0
  {
    match policy
    case None => Softmax(a)
    case Some(p) => if mode == Eval then Weights(a, p, i, 0.0) else Weights(a, p, i, TrainEps)
  }

  /** With `eps = 0`, a key gets weight exactly zero iff it is another
      token's key and its policy is zero. */
  lemma ZeroWeightIff(a: seq<real>, policy: seq<real>, i: nat, j: nat)
    requires RowInputs(a, policy, i, 0.0)
    requires j < |a|
    ensures Weights(a, policy, i, 0.0)[j] == 0.0 <==> (j != i && policy[j] == 0.0)
  {
    var e := MaskedExp(a, policy, i);
    var c := 0.0 / (|a| as real);
    assert c == 0.0;
    WeightAt(a, policy, i, 0.0, j);
    MaskedEntry(a, policy, i, j);
    QuotientZero(e[j] + c, Denominator(a, policy, i, 0.0));
  }

  /** With a positive epsilon no key ever gets weight zero. */
  lemma SmoothedWeightsPositive(a: seq<real>, policy: seq<real>, i: nat, eps: real)
    requires RowInputs(a, policy, i, eps)
    requires eps > 0.0
    ensures forall j :: 0 <= j < |a| ==> Weights(a, policy, i, eps)[j] > 0.0
  {
    var e := MaskedExp(a, policy, i);
    MaskedExpNonNegative(a, policy, i);
    var n := |a| as real;
    var d := Denominator(a, policy, i, eps);
    forall j | 0 <= j < |a| ensures Weights(a, policy, i, eps)[j] > 0.0 {
      assert eps / n > 0.0;
      assert e[j] + eps / n > 0.0;
    }
  }

  /** With or without smoothing, all dropped keys of a query get the same
      weight, and it is strictly below the weight of every key the query
      keeps (its own key included). */
  lemma DroppedBelowKept(a: seq<real>, policy: seq<real>, i: nat, eps: real, j: nat, k: nat)
    requires RowInputs(a, policy, i, eps)
    requires j < |a| && k < |a|
    requires j != i && policy[j] == 0.0
    requires k == i || policy[k] > 0.0
    ensures var w := Weights(a, policy, i, eps);
      && w[j] < w[k]
      && forall l :: 0 <= l < |a| && l != i && policy[l] == 0.0 ==> w[l] == w[j]
  {
    var e := MaskedExp(a, policy, i);
    var w := Weights(a, policy, i, eps);
    var c := eps / (|a| as real);
    var d := Denominator(a, policy, i, eps);
    WeightAt(a, policy, i, eps, j);
    WeightAt(a, policy, i, eps, k);
    MaskedEntry(a, policy, i, j);
    MaskedEntry(a, policy, i, k);
    DivStrictMono(e[j] + c, e[k] + c, d);
    forall l | 0 <= l < |a| && l != i && policy[l] == 0.0 ensures w[l] == w[j] {
      WeightAt(a, policy, i, eps, l);
      MaskedEntry(a, policy, i, l);
    }
  }

  /** A masked exponential is non-negative, and zero exactly for another
      token's key whose policy is zero. */
  lemma MaskedEntry(a: seq<real>, policy: seq<real>, i: nat, j: nat)
    requires |policy| == |a| && Positive(a) && NonNegative(policy) && j < |a|
    ensures MaskedExp(a, policy, i)[j] >= 0.0
    ensures MaskedExp(a, policy, i)[j] == 0.0 <==> (j != i && policy[j] == 0.0)
  {
    var m := KeyMask(policy, i, j);
    assert MaskedExp(a, policy, i)[j] == a[j] * m;
    ProductZero(a[j], m);
    if m > 0.0 {
      PositiveProduct(a[j], m);
    }
  }

  lemma WeightAt(a: seq<real>, policy: seq<real>, i: nat, eps: real, j: nat)
    requires RowInputs(a, policy, i, eps) && j < |a|
    ensures Weights(a, policy, i, eps)[j]
      == (MaskedExp(a, policy, i)[j] + eps / (|a| as real)) / Denominator(a, policy, i, eps)
  {
  }

  /** With the all-keep policy and `eps = 0` the masked normalisation is
      the plain softmax. */
  lemma AllKeepIsSoftmax(a: seq<real>, policy: seq<real>, i: nat)
    requires RowInputs(a, policy, i, 0.0)
    requires forall j :: 0 <= j < |policy| ==> policy[j] == 1.0
    ensures Weights(a, policy, i, 0.0) == Softmax(a)
  {
    var e := MaskedExp(a, policy, i);
    assert e == a;
    var w := Weights(a, policy, i, 0.0);
    var s := Softmax(a);
    forall j | 0 <= j < |a| ensures w[j] == s[j] {
    }
  }

  /** Masking commutes with scaling the exponentials. */
  lemma MaskedExpScale(a: seq<real>, policy: seq<real>, i: nat, c: real)
    requires |policy| == |a|
    ensures MaskedExp(Scale(a, c), policy, i) == Scale(MaskedExp(a, policy, i), c)
  {
    var l, r := MaskedExp(Scale(a, c), policy, i), Scale(MaskedExp(a, policy, i), c);
    forall j | 0 <= j < |a| ensures l[j] == r[j] {
      MaskedExpScaleAt(a, policy, i, c, j);
    }
  }

  /** Entry `j` of `MaskedExpScale`. */
  lemma MaskedExpScaleAt(a: seq<real>, policy: seq<real>, i: nat, c: real, j: nat)
    requires |policy| == |a| && j < |a|
    ensures MaskedExp(Scale(a, c), policy, i)[j] == Scale(MaskedExp(a, policy, i), c)[j]
  {
    var x, k := a[j], KeyMask(policy, i, j);
    var sx, p := Scale(a, c)[j], MaskedExp(a, policy, i)[j];
    var l, r := MaskedExp(Scale(a, c), policy, i)[j], Scale(MaskedExp(a, policy, i), c)[j];
    ScaledProduct(c, x, k, sx, p, l, r);
  }

  lemma ScalePositive(a: seq<real>, c: real)
    requires Positive(a) && c > 0.0
    ensures Positive(Scale(a, c))
  {
    var sa := Scale(a, c);
    forall j | 0 <= j < |a| ensures sa[j] > 0.0 {
      assert sa[j] == c * a[j];
    }
  }

  /** With `eps = 0` the weights do not change when every exponential is
      multiplied by the same positive factor; this is why subtracting the
      row maximum before `exp` (pit.py:56-57) leaves the result unchanged. */
  lemma ScaleInvariant(a: seq<real>, policy: seq<real>, i: nat, c: real)
    requires RowInputs(a, policy, i, 0.0)
    requires c > 0.0
    ensures RowInputs(Scale(a, c), policy, i, 0.0)
    ensures Weights(Scale(a, c), policy, i, 0.0) == Weights(a, policy, i, 0.0)
  {
    var sa := Scale(a, c);
    ScalePositive(a, c);
    var e := MaskedExp(a, policy, i);
    assert Sum(e) > 0.0 by {
      assert Sum(e) + 0.0 == Denominator(a, policy, i, 0.0);
    }
    MaskedExpScale(a, policy, i, c);
    NormaliseScale(e, c);
    UnsmoothedIsNormalised(a, policy, i);
    UnsmoothedIsNormalised(sa, policy, i);
  }
}
