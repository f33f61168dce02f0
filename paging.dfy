/** The JavaScript arithmetic the paging code relies on. */
module Paging {

  function Min(a: int, b: int): int {
    if a <= b then a else b
  }

  /** `Math.ceil(a / b)` for a non-negative `a` and a positive `b`. */
  function CeilDiv(a: nat, b: nat): (r: nat)
    requires b > 0
    ensures r * b >= a
    ensures r > 0 ==> (r - 1) * b < a
  {
    (a + b - 1) / b
  }

  /** `s.slice(start, end)` for non-negative bounds: out-of-range bounds are clamped. */
  function Slice<T>(s: seq<T>, start: nat, end: nat): (r: seq<T>)
    ensures |r| == if start < end && start < |s| then Min(end, |s|) - start else 0
    ensures forall k :: 0 <= k < |r| ==> r[k] == s[start + k]
  {
    if start >= |s| || end <= start then [] else s[start..Min(end, |s|)]
  }

  /** Dividing by one leaves a count unchanged (`Math.ceil(characters.length / 1)`). */
  lemma CeilDivByOne(a: nat)
    ensures CeilDiv(a, 1) == a
  {
  }
}
