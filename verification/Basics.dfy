/** Definitions every part uses. */
module Basics {

  datatype Option<T> = None | Some(v: T)

  /** What a class denotes. */
  datatype Kind = Unknown | Thing | Stuff

  ghost predicate Distinct<T>(s: seq<T>) { forall i, j | 0 <= i < j < |s| :: s[i] != s[j] }

  lemma Positive(x: real, y: real)
    requires x > 0.0 && y > 0.0
    ensures x * y > 0.0
  {
  }

  lemma Shrink(k: real, x: real)
    requires k > 0.0
    ensures k * x >= 0.0 ==> x >= 0.0
    ensures k * x > 0.0 ==> x > 0.0
  {
    if x < 0.0 { Positive(k, -x); assert k * (-x) == -(k * x); }
  }
}
