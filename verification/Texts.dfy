// Characters and stretches of text, as the regular expressions read them.
module Texts {
  function Lower(c: char): (d: char) { if 'A' <= c <= 'Z' then c - 'A' + 'a' else c }

  function Lowered(s: string): (t: string) { seq(|s|, i requires 0 <= i < |s| => Lower(s[i])) }

  // The end of the longest stretch from i whose characters satisfy p.
  function SpanEnd(s: string, i: nat, p: char -> bool): (e: nat)
    requires i <= |s|
    ensures i <= e <= |s|
    decreases |s| - i
  {
    if i < |s| && p(s[i]) then SpanEnd(s, i + 1, p) else i
  }

  // s[i..j] is a longest stretch of these characters.
  predicate Stretch(s: string, i: nat, j: nat, chars: string)
  {
    i <= j <= |s| && (forall k :: i <= k < j ==> s[k] in chars) && (j < |s| ==> s[j] !in chars)
  }

  ghost predicate Class(p: char -> bool, chars: string) { forall c :: p(c) <==> c in chars }

  lemma {:induction false} StretchIs(s: string, i: nat, j: nat, p: char -> bool, chars: string)
    requires i <= |s| && Class(p, chars)
    ensures Stretch(s, i, j, chars) <==> SpanEnd(s, i, p) == j
    decreases |s| - i
  {
    if i < |s| && p(s[i]) {
      StretchIs(s, i + 1, j, p, chars);
      assert Stretch(s, i, j, chars) ==> i < j;
    }
  }
}
