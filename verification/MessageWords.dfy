// What normalising a message comes to: its words in lower case behind one forward banner, with the
// banner told from its characters.
module MessageWords {
  import opened Texts
  import opened Options
  import opened MessageKeys

  // ----- Words -----

  const SPACES := " \t\n\U{B}\U{C}\r\U{1C}\U{1D}\U{1E}\U{1F}"

  lemma SpaceClass()
    ensures Class(IsSpace, SPACES)
  {
    forall c: char ensures IsSpace(c) <==> c in SPACES {
      if IsSpace(c) { SpaceListed(c); }
    }
  }

  lemma SpaceListed(c: char)
    requires IsSpace(c)
    ensures c in SPACES
  {
    assert c == SPACES[0] || c == SPACES[1] || c == SPACES[2] || c == SPACES[3] || c == SPACES[4] || c == SPACES[5] ||
           c == SPACES[6] || c == SPACES[7] || c == SPACES[8] || c == SPACES[9];
  }

  function Ended(word: string): (ws: seq<string>) { if word == [] then [] else [word] }

  // The words of a text, with the beginning of the first one.
  function WordsFrom(word: string, s: string): (ws: seq<string>)
    decreases |s|
  {
    if s == [] then Ended(word)
    else if s[0] in SPACES then Ended(word) + WordsFrom([], s[1..])
    else WordsFrom(word + [s[0]], s[1..])
  }

  function Words(s: string): (ws: seq<string>) { WordsFrom([], s) }

  function Spaced(ws: seq<string>): (s: string)
  {
    if ws == [] then [] else if |ws| == 1 then ws[0] else ws[0] + [' '] + Spaced(ws[1..])
  }

  function LowerEach(ws: seq<string>): (r: seq<string>)
    ensures |r| == |ws|
  {
    seq(|ws|, i requires 0 <= i < |ws| => Lowered(ws[i]))
  }

  lemma {:induction false} CollapseKeepsWords(word: string, s: string)
    ensures WordsFrom(word, Collapse(s)) == WordsFrom(word, s)
    decreases |s|
  {
    SpaceClass();
    if s != [] {
      if !IsSpace(s[0]) {
        CollapseKeepsWords(word + [s[0]], s[1..]);
      } else if |s| > 1 && IsSpace(s[1]) {
        CollapseKeepsWords(word, s[1..]);
        assert Ended([]) == [];
      } else {
        CollapseKeepsWords([], s[1..]);
        assert ' ' in SPACES by { assert SPACES[0] == ' '; }
      }
    }
  }

  lemma {:induction false} LastSpace(word: string, s: string)
    ensures WordsFrom(word, s + [' ']) == WordsFrom(word, s)
    decreases |s|
  {
    assert ' ' in SPACES by { assert SPACES[0] == ' '; }
    if s == [] {
      assert ([' '])[1..] == [] && Ended([]) == [];
    } else {
      assert (s + [' '])[1..] == s[1..] + [' '];
      if s[0] in SPACES { LastSpace([], s[1..]); } else { LastSpace(word + [s[0]], s[1..]); }
    }
  }

  lemma {:induction false} TrimKeepsWords(s: string)
    ensures Words(Trim(s)) == Words(s)
    decreases |s|
  {
    if s == [] {
    } else if s[0] == ' ' {
      TrimKeepsWords(s[1..]);
      assert ' ' in SPACES by { assert SPACES[0] == ' '; }
    } else if s[|s| - 1] == ' ' {
      TrimKeepsWords(s[..|s| - 1]);
      LastSpace([], s[..|s| - 1]);
      assert s == s[..|s| - 1] + [' '];
    }
  }

  lemma LowerKeepsSpace(c: char)
    ensures Lower(c) in SPACES <==> c in SPACES
  {
    SpaceClass();
    assert IsSpace(Lower(c)) <==> IsSpace(c);
  }

  lemma LoweredOneMore(word: string, c: char)
    ensures Lowered(word + [c]) == Lowered(word) + [Lower(c)]
  {
  }

  lemma LowerEachCons(w: string, ws: seq<string>)
    ensures LowerEach([w] + ws) == [Lowered(w)] + LowerEach(ws)
  {
  }

  lemma EndedLower(word: string, ws: seq<string>)
    ensures LowerEach(Ended(word) + ws) == Ended(Lowered(word)) + LowerEach(ws)
  {
    if word == [] {
      assert Lowered(word) == [] && Ended(word) + ws == ws;
    } else {
      LowerEachCons(word, ws);
    }
  }

  lemma {:induction false} LowerWords(word: string, s: string)
    ensures WordsFrom(Lowered(word), Lowered(s)) == LowerEach(WordsFrom(word, s))
    decreases |s|
  {
    if s == [] {
      EndedLower(word, []);
      assert Ended(word) + [] == Ended(word) && Ended(Lowered(word)) + LowerEach([]) == Ended(Lowered(word));
    } else {
      assert Lowered(s)[0] == Lower(s[0]) && Lowered(s)[1..] == Lowered(s[1..]);
      LowerKeepsSpace(s[0]);
      if s[0] in SPACES {
        LowerWords([], s[1..]);
        assert Lowered([]) == [];
        EndedLower(word, WordsFrom([], s[1..]));
      } else {
        LoweredOneMore(word, s[0]);
        LowerWords(word + [s[0]], s[1..]);
      }
    }
  }

  // A canonical text is its words with a space between any two.
  lemma {:induction false} CanonIsSpaced(word: string, x: string)
    requires (forall i :: 0 <= i < |x| ==> CanonChar(x[i])) && SingleSpaced(x)
    requires x != [] ==> x[|x| - 1] != ' ' && (word == [] ==> x[0] != ' ')
    ensures word + x == Spaced(WordsFrom(word, x))
    ensures x != [] && x[0] != ' ' ==> WordsFrom(word, x) != []
    decreases |x|
  {
    SpaceClass();
    if x == [] {
    } else {
      ApartWithin(x, 1, |x|);
      assert x[1..|x|] == x[1..];
      if x[0] == ' ' {
        assert Apart(x, 1);
        CanonIsSpaced([], x[1..]);
        assert [] + x[1..] == x[1..];
        SpaceThen(word, x);
      } else {
        CanonIsSpaced(word + [x[0]], x[1..]);
        assert word + x == (word + [x[0]]) + x[1..];
        if |x| == 1 || x[1] == ' ' { FirstWord(word + [x[0]], x[1..]); }
      }
    }
  }

  lemma SpaceThen(word: string, x: string)
    requires word != [] && x != [] && x[0] == ' ' && WordsFrom([], x[1..]) != [] &&
             x[1..] == Spaced(WordsFrom([], x[1..]))
    ensures word + x == Spaced(WordsFrom(word, x))
  {
    assert SPACES[0] == ' ';
    SpacedCons(word, WordsFrom([], x[1..]));
    assert word + x == word + [' '] + x[1..];
  }

  lemma SpacedCons(w: string, ws: seq<string>)
    requires w != [] && ws != []
    ensures Spaced(Ended(w) + ws) == w + [' '] + Spaced(ws)
  {
    assert ([w] + ws)[1..] == ws;
  }

  lemma FirstWord(word: string, x: string)
    requires word != [] && (x == [] || x[0] in SPACES)
    ensures WordsFrom(word, x) != []
  {
  }

  // The normal form is the words of the text behind its banner, in lower case and single spaced.
  lemma NormalIsWords(s: string)
    ensures Normal(s) == Spaced(LowerEach(Words(Unbannered(Visible(s)))))
    ensures Words(Normal(s)) == LowerEach(Words(Unbannered(Visible(s))))
  {
    var u := Unbannered(Visible(s));
    CollapseKeepsWords([], u);
    TrimKeepsWords(Collapse(u));
    LowerWords([], Trim(Collapse(u)));
    assert Lowered([]) == [];
    NormalIsCanon(s);
    CanonIsSpaced([], Normal(s));
    assert [] + Normal(s) == Normal(s);
  }

  // Zero-width characters are as if they were not there.
  lemma {:induction false} VisibleAppend(a: string, b: string)
    ensures Visible(a + b) == Visible(a) + Visible(b)
  {
    if a == [] {
      assert a + b == b;
    } else {
      assert (a + b)[1..] == a[1..] + b;
      VisibleAppend(a[1..], b);
    }
  }

  lemma ZeroWidthIsIgnored(a: string, z: char, b: string)
    requires 0x200B <= z as int <= 0x200F || z as int == 0x2060 || z as int == 0xFEFF
    ensures Normal(a + [z] + b) == Normal(a + b)
  {
    VisibleAppend(a + [z], b);
    VisibleAppend(a, [z]);
    VisibleAppend(a, b);
    ZeroWidthIsNone(z);
    assert Visible(a) + [] == Visible(a);
    assert Visible(a + [z] + b) == Visible(a + b);
  }

  lemma ZeroWidthIsNone(z: char)
    requires IsZeroWidth(z)
    ensures Visible([z]) == []
  {
    assert [z][1..] == [];
  }

  // Two texts of one author share a fingerprint exactly when they hold the same words behind their
  // banners, whatever the case and the white space; there is none without an author or such words.
  lemma FingerprintIsWords(author: string, s: string, t: string)
    ensures Fingerprint(author, s).None? <==> author == [] || Words(Unbannered(Visible(s))) == []
    ensures author != [] ==>
              (Fingerprint(author, s) == Fingerprint(author, t) <==>
               LowerEach(Words(Unbannered(Visible(s)))) == LowerEach(Words(Unbannered(Visible(t)))))
  {
    NormalIsWords(s);
    NormalIsWords(t);
    if Normal(s) == [] { assert Words(Normal(s)) == []; }
  }

  // ----- The banner -----

  predicate Letter(c: char, l: char) { c == l || ('a' <= l <= 'z' && c as int == l as int - 32) }

  predicate Spelled(s: string, i: nat, word: string)
  {
    i + |word| <= |s| && forall k :: 0 <= k < |word| ==> Letter(s[i + k], word[k])
  }

  lemma SpelledIs(s: string, i: nat, word: string)
    requires forall k :: 0 <= k < |word| ==> 'a' <= word[k] <= 'z'
    ensures Spelled(s, i, word) <==> WordAt(s, i, word)
  {
    if i + |word| <= |s| {
      forall k | 0 <= k < |word| ensures Letter(s[i + k], word[k]) <==> Lower(s[i + k]) == word[k] {
        LetterIs(s[i + k], word[k]);
      }
    }
  }

  lemma LetterIs(c: char, l: char)
    requires 'a' <= l <= 'z'
    ensures Letter(c, l) <==> Lower(c) == l
  {
  }

  // " many times" from e to w.
  predicate ManyTimes(s: string, e: nat, a: nat, b: nat, w: nat)
  {
    && e < a && Stretch(s, e, a, SPACES) && Spelled(s, a, "many")
    && a + 4 < b && Stretch(s, a + 4, b, SPACES) && Spelled(s, b, "times") && w == b + 5
  }

  ghost predicate ManyTimesFrom(s: string, e: nat) { exists a: nat, b: nat, w: nat :: ManyTimes(s, e, a, b, w) }

  ghost predicate ForwardedTo(s: string, e: nat, w: nat)
  {
    if ManyTimesFrom(s, e) then exists a: nat, b: nat :: ManyTimes(s, e, a, b, w) else w == e
  }

  // "forwarded", perhaps with " many times", or "fwd" or "fw", from j to w.
  ghost predicate ForwardWord(s: string, j: nat, w: nat)
  {
    if Spelled(s, j, "forwarded") then ForwardedTo(s, j + 9, w)
    else if Spelled(s, j, "fwd") then w == j + 3
    else Spelled(s, j, "fw") && w == j + 2
  }

  // White space, perhaps arrows and white space, one of the words, white space, perhaps a colon or a dash,
  // and white space: all of it as far as it goes.
  predicate BannerParts(s: string, i: nat, a: nat, j: nat, w: nat, p: nat, r: nat)
  {
    && Stretch(s, 0, i, SPACES) && Stretch(s, i, a, ">")
    && (if i < a then Stretch(s, a, j, SPACES) else j == a)
    && w <= |s| && Stretch(s, w, p, SPACES)
    && if p < |s| && s[p] in ":-\U{2013}" then Stretch(s, p + 1, r, SPACES) else r == p
  }

  ghost predicate BannerTo(s: string, r: nat)
  {
    exists i: nat, a: nat, j: nat, w: nat, p: nat :: BannerParts(s, i, a, j, w, p, r) && ForwardWord(s, j, w)
  }

  lemma ManyTimesIs(s: string, e: nat, a: nat, b: nat, w: nat)
    requires e <= |s|
    ensures ManyTimes(s, e, a, b, w) ==> ManyTimesEnd(s, e) == w
  {
    if ManyTimes(s, e, a, b, w) {
      SpaceClass();
      StretchIs(s, e, a, IsSpace, SPACES);
      StretchIs(s, a + 4, b, IsSpace, SPACES);
      SpelledIs(s, a, "many");
      SpelledIs(s, b, "times");
    }
  }

  lemma ManyTimesStands(s: string, e: nat)
    requires e <= |s| && ManyTimesEnd(s, e) != e
    ensures ManyTimesFrom(s, e)
  {
    var a := SpanEnd(s, e, IsSpace);
    var b := SpanEnd(s, a + 4, IsSpace);
    SpaceClass();
    StretchIs(s, e, a, IsSpace, SPACES);
    StretchIs(s, a + 4, b, IsSpace, SPACES);
    SpelledIs(s, a, "many");
    SpelledIs(s, b, "times");
    assert ManyTimes(s, e, a, b, b + 5);
  }

  lemma ManyTimesFound(s: string, e: nat)
    requires e <= |s|
    ensures ManyTimesEnd(s, e) != e ==> ManyTimesFrom(s, e)
    ensures ManyTimesFrom(s, e) ==> ManyTimesEnd(s, e) != e
  {
    if ManyTimesEnd(s, e) != e { ManyTimesStands(s, e); }
    if ManyTimesFrom(s, e) {
      var a: nat, b: nat, w: nat :| ManyTimes(s, e, a, b, w);
      ManyTimesIs(s, e, a, b, w);
    }
  }

  lemma ForwardWordIs(s: string, j: nat, w: nat)
    requires j <= |s|
    ensures ForwardWord(s, j, w) <==> BannerWordEnd(s, j) == Some(w)
  {
    SpelledIs(s, j, "forwarded");
    SpelledIs(s, j, "fwd");
    SpelledIs(s, j, "fw");
    if Spelled(s, j, "forwarded") { ForwardedIs(s, j + 9, w); }
  }

  lemma ForwardedIs(s: string, e: nat, w: nat)
    requires e <= |s|
    ensures ForwardedTo(s, e, w) <==> ManyTimesEnd(s, e) == w
  {
    ManyTimesFound(s, e);
    if ManyTimesFrom(s, e) {
      var a: nat, b: nat, v: nat :| ManyTimes(s, e, a, b, v);
      ManyTimesIs(s, e, a, b, v);
      forall x: nat, y: nat ensures ManyTimes(s, e, x, y, w) ==> ManyTimesEnd(s, e) == w { ManyTimesIs(s, e, x, y, w); }
    }
  }

  lemma ArrowClass()
    ensures Class(IsArrow, ">") && Class(IsDash, ":-\U{2013}")
  {
  }

  lemma PartsAre(s: string, i: nat, a: nat, j: nat, w: nat, p: nat, r: nat)
    requires w <= |s|
    ensures BannerParts(s, i, a, j, w, p, r) <==>
            && i == SpanEnd(s, 0, IsSpace) && a == SpanEnd(s, i, IsArrow) && j == ArrowsEnd(s, i)
            && p == SpanEnd(s, w, IsSpace) && r == SpanEnd(s, DashEnd(s, p), IsSpace)
  {
    SpaceClass();
    ArrowClass();
    StretchIs(s, 0, i, IsSpace, SPACES);
    if i <= |s| {
      StretchIs(s, i, a, IsArrow, ">");
      if a <= |s| { StretchIs(s, a, j, IsSpace, SPACES); }
    }
    StretchIs(s, w, p, IsSpace, SPACES);
    if Stretch(s, w, p, SPACES) { DashIs(s, p, r); }
  }

  lemma DashIs(s: string, p: nat, r: nat)
    requires p <= |s| && (p < |s| ==> s[p] !in SPACES)
    ensures (if p < |s| && s[p] in ":-\U{2013}" then Stretch(s, p + 1, r, SPACES) else r == p) <==>
            r == SpanEnd(s, DashEnd(s, p), IsSpace)
  {
    SpaceClass();
    ArrowClass();
    if p < |s| { StretchIs(s, p + 1, r, IsSpace, SPACES); }
  }

  // The banner that is taken off is the one that stands there.
  lemma BannerIff(s: string, r: nat)
    ensures BannerEnd(s) == Some(r) <==> BannerTo(s, r)
  {
    if BannerEnd(s) == Some(r) {
      var i := SpanEnd(s, 0, IsSpace);
      var j := ArrowsEnd(s, i);
      var w := BannerWordEnd(s, j).value;
      var p := SpanEnd(s, w, IsSpace);
      PartsAre(s, i, SpanEnd(s, i, IsArrow), j, w, p, r);
      ForwardWordIs(s, j, w);
    }
    if BannerTo(s, r) {
      var i: nat, a: nat, j: nat, w: nat, p: nat :| BannerParts(s, i, a, j, w, p, r) && ForwardWord(s, j, w);
      PartsAre(s, i, a, j, w, p, r);
      ForwardWordIs(s, j, w);
    }
  }
}
