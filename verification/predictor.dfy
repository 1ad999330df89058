/** The discrete parts of the head-wise gating predictor
    (`MultiheadPredictorLG.forward`): how the channels are split between
    heads, and the policy-weighted mean that summarises the kept tokens.
    The learned layers that turn these into scores are not modelled. */
module Predictor {
  import opened Common
  import opened Reals
  import opened Masks

  /** A half-open channel range `[lo, hi)`. */
  datatype Slice = Slice(lo: nat, hi: nat)

  predicate InSlice(s: Slice, c: nat)
  {
    s.lo <= c < s.hi
  }

  /** The channels read by head `i`:
      `x[:, :, embed_dim // num_heads * i : embed_dim // num_heads * (i + 1)]`.
      Every head reads the same number of channels, and a head with an index
      below the head count reads only existing channels. */
  function HeadSlice(embedDim: nat, heads: nat, i: nat): (s: Slice)
    requires heads > 0
    ensures s.lo <= s.hi && s.hi - s.lo == embedDim / heads
    ensures i < heads ==> s.hi <= embedDim
  {
    var d := embedDim / heads;
    if i < heads then
      MulMonotone(d, i + 1, heads);
      Slice(d * i, d * (i + 1))
    else
      Slice(d * i, d * (i + 1))
  }

  lemma MulMonotone(d: nat, a: nat, b: nat)
    requires a <= b
    ensures d * a <= d * b
  {
    assert d * b - d * a == d * (b - a);
  }

  /** Channel `c` is read by at least one head. */
  ghost predicate ReadBySomeHead(embedDim: nat, heads: nat, c: nat)
    requires heads > 0
  {
    exists i: nat :: i < heads && InSlice(HeadSlice(embedDim, heads, i), c)
  }

  /** Every channel below the embedding width is read by some head. */
  ghost predicate Covered(embedDim: nat, heads: nat)
    requires heads > 0
  {
    forall c: nat :: c < embedDim ==> ReadBySomeHead(embedDim, heads, c)
  }

  /** Two different heads never read the same channel. */
  lemma SlicesDisjoint(embedDim: nat, heads: nat, i: nat, j: nat, c: nat)
    requires heads > 0 && i != j
    ensures !(InSlice(HeadSlice(embedDim, heads, i), c) && InSlice(HeadSlice(embedDim, heads, j), c))
  {
    var d := embedDim / heads;
    if i < j {
      MulMonotone(d, i + 1, j);
    } else {
      MulMonotone(d, j + 1, i);
    }
  }

  /** When the head count divides the width, channel `c` is read by head
      `c / (embedDim / heads)`. */
  lemma HeadOfChannel(embedDim: nat, heads: nat, c: nat)
    requires heads > 0 && embedDim % heads == 0 && c < embedDim
    ensures embedDim / heads > 0
    ensures c / (embedDim / heads) < heads
    ensures InSlice(HeadSlice(embedDim, heads, c / (embedDim / heads)), c)
  {
    var d := embedDim / heads;
    assert embedDim == d * heads;
    assert d > 0;
    var i := c / d;
    assert c == d * i + c % d;
    if i >= heads {
      MulMonotone(d, heads, i);
      assert false;
    }
  }

  /** The head slices cover the whole width exactly when the head count
      divides it; otherwise the trailing `embedDim % heads` channels are read
      by no head. */
  lemma CoveredIffDivides(embedDim: nat, heads: nat)
    requires heads > 0
    ensures Covered(embedDim, heads) <==> embedDim % heads == 0
  {
    var d := embedDim / heads;
    assert embedDim == d * heads + embedDim % heads;
    if embedDim % heads == 0 {
      forall c: nat | c < embedDim
        ensures ReadBySomeHead(embedDim, heads, c)
      {
        HeadOfChannel(embedDim, heads, c);
        var i := c / d;
        assert i < heads && InSlice(HeadSlice(embedDim, heads, i), c);
      }
    } else {
      var c: nat := embedDim - 1;
      forall i: nat | i < heads
        ensures !InSlice(HeadSlice(embedDim, heads, i), c)
      {
        MulMonotone(d, i + 1, heads);
      }
      assert !ReadBySomeHead(embedDim, heads, c);
    }
  }

  /** The stage builds each predictor with `embed_dim = base_dim * heads`, so
      every head reads exactly `base_dim` channels and all channels are read. */
  lemma StagePredictorSlices(baseDim: nat, heads: nat)
    requires heads > 0
    ensures (baseDim * heads) / heads == baseDim
    ensures Covered(baseDim * heads, heads)
  {
    DivMulCancel(baseDim, heads);
    CoveredIffDivides(baseDim * heads, heads);
  }

  lemma DivMulCancel(b: nat, h: nat)
    requires h > 0
    ensures (b * h) / h == b && (b * h) % h == 0
  {
    var q := (b * h) / h;
    var r := (b * h) % h;
    assert b * h == h * q + r;
    if q < b {
      MulMonotone(h, q + 1, b);
      assert false;
    } else if q > b {
      MulMonotone(h, b + 1, q);
      assert false;
    }
  }

  /** `sum(f * policy)` over the token axis. */
  function Dot(f: seq<real>, p: Mask): real
    requires |f| == |p|
    decreases |f|
  {
    if |f| == 0 then 0.0 else f[0] * (p[0] as real) + Dot(f[1..], p[1..])
  }

  /** The values of the tokens whose policy entry is non-zero, in order. */
  function Kept(f: seq<real>, p: Mask): seq<real>
    requires |f| == |p|
    decreases |f|
  {
    if |f| == 0 then [] else (if p[0] != 0 then [f[0]] else []) + Kept(f[1..], p[1..])
  }

  function Mean(s: seq<real>): real
    requires |s| > 0
  {
    Sum(s) / (|s| as real)
  }

  /** The global-branch summary `sum(f * policy) / sum(policy)` of one
      channel (pit.py:224).  An all-zero policy makes the source divide zero
      by zero (NaN), which is `None` here. */
  function WeightedMean(f: seq<real>, p: Mask): (r: Option<real>)
    requires |f| == |p|
    ensures r.None? <==> forall t :: 0 <= t < |p| ==> p[t] == 0
  {
    PolicyTotalZero(p);
    var total := Sum(AsReal(p));
    if total == 0.0 then None else Some(Dot(f, p) / total)
  }

  /** `torch.sum(policy)` is zero exactly when every entry is. */
  lemma {:induction false} PolicyTotalZero(p: Mask)
    ensures Sum(AsReal(p)) == 0.0 <==> forall t :: 0 <= t < |p| ==> p[t] == 0
    decreases |p|
  {
    if |p| > 0 {
      PolicyTotalZero(p[1..]);
      var r := AsReal(p);
      assert r[1..] == AsReal(p[1..]);
      SumNonNegative(r[1..]);
      assert Sum(r) == r[0] + Sum(r[1..]);
      if forall t :: 0 <= t < |p| ==> p[t] == 0 {
        assert forall t :: 0 <= t < |p[1..]| ==> p[1..][t] == p[t + 1];
      } else {
        var t :| 0 <= t < |p| && p[t] != 0;
        if t > 0 {
          assert p[1..][t - 1] != 0;
        }
      }
    }
  }

  /** On a 0/1 policy the weighted sum is the sum of the kept values and
      the policy total is the number of kept tokens. */
  lemma {:induction false} DotKept(f: seq<real>, p: Mask)
    requires |f| == |p| && Binary(p)
    ensures Dot(f, p) == Sum(Kept(f, p))
    ensures Sum(AsReal(p)) == |Kept(f, p)| as real
    decreases |f|
  {
    if |f| > 0 {
      DotKept(f[1..], p[1..]);
      assert AsReal(p)[1..] == AsReal(p[1..]);
      var head := if p[0] != 0 then [f[0]] else [];
      SumAppend(head, Kept(f[1..], p[1..]));
      if p[0] == 0 {
        assert f[0] * (p[0] as real) == 0.0 == Sum(head);
      } else {
        assert f[0] * (p[0] as real) == f[0] == Sum(head);
      }
    }
  }

  /** With a 0/1 policy, the policy-weighted mean is the plain mean of the
      kept tokens, and it is undefined exactly when no token is kept. */
  lemma WeightedMeanOfKept(f: seq<real>, p: Mask)
    requires |f| == |p| && Binary(p)
    ensures WeightedMean(f, p).None? <==> |Kept(f, p)| == 0
    ensures |Kept(f, p)| > 0 ==> WeightedMean(f, p) == Some(Mean(Kept(f, p)))
  {
    DotKept(f, p);
  }
}
