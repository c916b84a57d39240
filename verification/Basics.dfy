/**
  Optional values, the lesser and the greater of two, and sequences without one of their elements.
 */
module Basics {

  datatype Option<T> = None | Some(value: T)

  function Min(a: int, b: int): int { if a < b then a else b }

  function Max(a: int, b: int): int { if a > b then a else b }

  /** `s` without its i-th element. */
  function Without<T>(s: seq<T>, i: nat): (t: seq<T>)
    requires i < |s|
    ensures |t| == |s| - 1
  {
    s[..i] + s[i + 1..]
  }

  /** `s` with its first `x`, if any, taken out. */
  function Less(s: seq<nat>, x: nat): seq<nat> {
    if s == [] then [] else if s[0] == x then s[1..] else [s[0]] + Less(s[1..], x)
  }

  function Count(s: seq<nat>, x: nat): nat {
    if s == [] then 0 else (if s[0] == x then 1 else 0) + Count(s[1..], x)
  }

  predicate Distinct(s: seq<nat>) { forall i, j | 0 <= i < j < |s| :: s[i] != s[j] }

  lemma {:induction false} LessOf(s: seq<nat>, x: nat)
    requires Distinct(s)
    ensures Distinct(Less(s, x)) && |Less(s, x)| == |s| - (if x in s then 1 else 0)
    ensures forall y :: y in Less(s, x) <==> y in s && y != x
    ensures x !in s ==> Less(s, x) == s
  {
    if s != [] && s[0] != x {
      LessOf(s[1..], x);
      var rest, r := Less(s[1..], x), Less(s, x);
      forall i, j | 0 <= i < j < |r| ensures r[i] != r[j] {
        assert r[j] == rest[j - 1] && rest[j - 1] in rest;
        assert i > 0 ==> r[i] == rest[i - 1];
      }
    }
  }
}
