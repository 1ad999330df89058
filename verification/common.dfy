/** Shared vocabulary of the model: optional values, results with an error
    side, the train/eval switch that every component of the network reads,
    and concatenation of a list of lists. */
module Common {

  /** A value that may be absent; `None` also stands for a NaN the
      numeric code would produce. */
  datatype Option<+T> = None | Some(value: T)

  /** Either a value or the error pit.py would raise. */
  datatype Result<+T, +E> = Success(value: T) | Failure(error: E)

  /** The module-wide `training` flag of the network. */
  datatype Mode = Train | Eval

  /** Concatenation of a list of lists, in order (Python's repeated `+`). */
  function Flatten<T>(xss: seq<seq<T>>): (r: seq<T>)
    decreases |xss|
  {
    if |xss| == 0 then [] else xss[0] + Flatten(xss[1..])
  }

  /** Total length of a list of lists. */
  function TotalLength<T>(xss: seq<seq<T>>): nat
    decreases |xss|
  {
    if |xss| == 0 then 0 else |xss[0]| + TotalLength(xss[1..])
  }

  /** Flattening keeps every element: its length is the sum of the lengths. */
  lemma {:induction false} FlattenLength<T>(xss: seq<seq<T>>)
    ensures |Flatten(xss)| == TotalLength(xss)
    decreases |xss|
  {
    if |xss| > 0 {
      FlattenLength(xss[1..]);
    }
  }

  /** Flattening a list with one more list appended appends that list. */
  lemma {:induction false} FlattenSnoc<T>(xss: seq<seq<T>>, xs: seq<T>)
    ensures Flatten(xss + [xs]) == Flatten(xss) + xs
    decreases |xss|
  {
    if |xss| == 0 {
      assert xss + [xs] == [xs];
    } else {
      assert (xss + [xs])[1..] == xss[1..] + [xs];
      FlattenSnoc(xss[1..], xs);
    }
  }

  /** Every element of a flattened list comes from one of the lists. */
  lemma {:induction false} FlattenMember<T>(xss: seq<seq<T>>, x: T)
    requires x in Flatten(xss)
    ensures exists k :: 0 <= k < |xss| && x in xss[k]
    decreases |xss|
  {
    if x in xss[0] {
    } else {
      FlattenMember(xss[1..], x);
      var k :| 0 <= k < |xss[1..]| && x in xss[1..][k];
      assert x in xss[k + 1];
    }
  }
}
