// Small functions on numbers and sequences.
module Sequences {
  function Min(a: int, b: int): (m: int)
    ensures m <= a && m <= b && (m == a || m == b)
  {
    if a < b then a else b
  }

  function Max(a: int, b: int): (m: int)
    ensures m >= a && m >= b && (m == a || m == b)
  {
    if a > b then a else b
  }

  // Python's s[:k].
  function Take<T>(s: seq<T>, k: nat): (t: seq<T>)
    ensures |t| <= k && t <= s
  {
    if |s| <= k then s else s[..k]
  }

  lemma Assoc<T>(a: seq<T>, b: seq<T>, c: seq<T>)
    ensures a + (b + c) == (a + b) + c
  {
  }
}
