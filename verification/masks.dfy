/** Token policies as 0/1 lists of naturals, one entry per token: 1 keeps
    the token, 0 drops it.  A full policy holds the class tokens first and
    the spatial tokens after them. */
module Masks {

  type Mask = seq<nat>

  /** Every entry is 0 or 1 (the forward value of a hard Gumbel sample). */
  predicate Binary(m: Mask)
  {
    forall k :: 0 <= k < |m| ==> m[k] <= 1
  }

  /** `torch.ones(n)`: the policy that keeps everything. */
  function Ones(n: nat): (m: Mask)
    ensures |m| == n
    ensures forall k :: 0 <= k < n ==> m[k] == 1
  {
    seq(n, _ => 1)
  }

  /** The 0/1 value of a keep bit. */
  function Bit(b: bool): nat
  {
    if b then 1 else 0
  }

  /** `p[t] <= q[t]` at every position from `from` on. */
  predicate BelowFrom(p: Mask, q: Mask, from: nat)
  {
    |p| == |q| && forall t :: from <= t < |p| ==> p[t] <= q[t]
  }

  lemma BelowFromTrans(p: Mask, q: Mask, r: Mask, from: nat)
    requires BelowFrom(p, q, from) && BelowFrom(q, r, from)
    ensures BelowFrom(p, r, from)
  {
  }

  /** The hard keep decision multiplied into the previous spatial decision
      (pit.py:149): token `t` survives iff it was kept before and its new
      keep bit is set.  `Bit(keep(t)) * prev[t]` is written as a case split
      so that the result stays a natural. */
  function Prune(keep: nat -> bool, prev: Mask): (m: Mask)
    ensures |m| == |prev|
    ensures forall t :: 0 <= t < |prev| ==> m[t] == Bit(keep(t)) * prev[t]
    ensures forall t :: 0 <= t < |prev| ==> m[t] <= prev[t]
    ensures forall t :: 0 <= t < |prev| ==> (m[t] == 0 <==> prev[t] == 0 || !keep(t))
    ensures Binary(prev) ==> Binary(m)
  {
    seq(|prev|, t requires 0 <= t < |prev| => if keep(t) then prev[t] else 0)
  }

  /** The same policy as real-valued weights. */
  function AsReal(m: Mask): (r: seq<real>)
    ensures |r| == |m|
    ensures forall k :: 0 <= k < |m| ==> r[k] == m[k] as real
  {
    seq(|m|, k requires 0 <= k < |m| => m[k] as real)
  }

  /** Number of entries equal to zero (`np.sum(matrix == 0)`). */
  function CountZeros(m: Mask): nat
    decreases |m|
  {
    if |m| == 0 then 0 else (if m[0] == 0 then 1 else 0) + CountZeros(m[1..])
  }

  /** Number of entries different from zero (`np.sum(matrix != 0)`). */
  function CountNonZeros(m: Mask): nat
    decreases |m|
  {
    if |m| == 0 then 0 else (if m[0] != 0 then 1 else 0) + CountNonZeros(m[1..])
  }

  /** The pair returned by the sparsity diagnostic. */
  datatype Counts = Counts(zeros: nat, nonZeros: nat)

  /** `test_irregular_sparsity`: the number of dropped and of kept entries
      of a policy.  The two counts split the policy between them. */
  function Sparsity(m: Mask): (c: Counts)
    ensures c.zeros + c.nonZeros == |m|
    ensures c.zeros == 0 <==> forall k :: 0 <= k < |m| ==> m[k] != 0
  {
    CountsPartition(m);
    ZerosAbsent(m);
    Counts(CountZeros(m), CountNonZeros(m))
  }

  /** Each entry is counted exactly once, as a zero or as a non-zero. */
  lemma {:induction false} CountsPartition(m: Mask)
    ensures CountZeros(m) + CountNonZeros(m) == |m|
    decreases |m|
  {
    if |m| > 0 {
      CountsPartition(m[1..]);
    }
  }

  /** There are no zeros exactly when no entry is zero. */
  lemma {:induction false} ZerosAbsent(m: Mask)
    ensures CountZeros(m) == 0 <==> forall k :: 0 <= k < |m| ==> m[k] != 0
    decreases |m|
  {
    if |m| > 0 {
      ZerosAbsent(m[1..]);
      if CountZeros(m) == 0 {
        forall k | 0 <= k < |m| ensures m[k] != 0 {
          if k > 0 {
            assert m[k] == m[1..][k - 1];
          }
        }
      }
    }
  }

  /** Zeros of a concatenation are the zeros of its parts. */
  lemma {:induction false} CountZerosAppend(a: Mask, b: Mask)
    ensures CountZeros(a + b) == CountZeros(a) + CountZeros(b)
    decreases |a|
  {
    if |a| == 0 {
      assert a + b == b;
    } else {
      assert (a + b)[1..] == a[1..] + b;
      CountZerosAppend(a[1..], b);
    }
  }
}
