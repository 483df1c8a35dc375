/** The option and result types shared by every module. */
module Wrappers {

  const U64_MAX := 0xFFFF_FFFF_FFFF_FFFF

  datatype Option<+T> = None | Some(value: T)

  datatype Result<+T, +E> = Ok(value: T) | Err(error: E)

  /** `n.div_ceil(d)`. */
  function CeilDiv(n: nat, d: nat): (q: nat)
    requires d > 0
    ensures d * q >= n
    ensures n > 0 ==> d * (q - 1) < n
    ensures n == 0 ==> q == 0
  {
    (n + d - 1) / d
  }

  function Elements<T(==)>(s: seq<T>): set<T> {
    set x | x in s
  }

  ghost predicate Distinct<T>(s: seq<T>) {
    forall i, j :: 0 <= i < j < |s| ==> s[i] != s[j]
  }

  /** A list without repetitions is no longer than a set it lies in, and just as long if it exhausts it. */
  lemma {:induction false} DistinctLength<T>(s: seq<T>, domain: set<T>)
    requires Distinct(s) && forall x :: x in s ==> x in domain
    ensures |s| <= |domain|
    ensures (forall x :: x in domain ==> x in s) ==> |s| == |domain|
    decreases s
  {
    if s == [] {
      if forall x :: x in domain ==> x in s { assert domain == {}; }
    } else {
      DistinctLength(s[1..], domain - {s[0]});
    }
  }
}
