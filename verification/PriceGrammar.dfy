// The price pattern and the decimal K as relations between stretches of a text and amounts, and the
// reading of a text told by them.
module PriceGrammar {
  import opened Texts
  import opened Options
  import opened PriceText

  // ----- What a text states, told from its characters -----

  const DIGITS := "0123456789"
  const SPACES := " \t\n\r"
  const SMALL := "abcdefghijklmnopqrstuvwxyz"
  const CAPITAL := "ABCDEFGHIJKLMNOPQRSTUVWXYZ"
  const WORD := SMALL + CAPITAL + DIGITS + "_"

  lemma DigitClass(c: char)
    ensures IsDigit(c) <==> c in DIGITS
    ensures IsRun(c) <==> c in DIGITS + ","
  {
    if IsDigit(c) {
      assert c == '0' || c == '1' || c == '2' || c == '3' || c == '4' || c == '5' || c == '6' || c == '7' ||
             c == '8' || c == '9';
      assert DIGITS[c as int - '0' as int] == c;
    }
    assert c in DIGITS + "," <==> c in DIGITS || c == ',';
  }

  lemma Classes()
    ensures Class(IsDigit, DIGITS) && Class(IsRun, DIGITS + ",") && Class(IsSpace, SPACES) && Class(IsJoin, ".-/")
    ensures Class(IsPoint, ".:'\U{2019}")
  {
    forall c: char ensures (IsDigit(c) <==> c in DIGITS) && (IsRun(c) <==> c in DIGITS + ",") { DigitClass(c); }
  }

  lemma SmallClass(c: char)
    ensures c in SMALL <==> 'a' <= c <= 'z'
  {
    if 'a' <= c <= 'z' { assert SMALL[c as int - 'a' as int] == c; }
  }

  lemma CapitalClass(c: char)
    ensures c in CAPITAL <==> 'A' <= c <= 'Z'
  {
    if 'A' <= c <= 'Z' { assert CAPITAL[c as int - 'A' as int] == c; }
  }

  lemma WordClass()
    ensures Class(IsWord, WORD)
  {
    forall c: char ensures IsWord(c) <==> c in WORD {
      SmallClass(c);
      CapitalClass(c);
      DigitClass(c);
    }
  }

  lemma WordIs(s: string, g: nat, w: nat)
    requires g <= |s|
    ensures Stretch(s, g, w, WORD) <==> w == SpanEnd(s, g, IsWord)
  {
    WordClass();
    StretchIs(s, g, w, IsWord, WORD);
  }

  // What a word multiplies by; 0 if it is none of the pattern's.
  function Factor(word: string): (m: int)
  {
    if word == "cr" || word == "crore" || word == "crores" then 10000000
    else if word == "l" || LakhSpelled(word) then 100000
    else if word == "k" || word == "thousand" || word == "thousands" then 1000
    else if word == "la" || word == "las" then 1
    else 0
  }

  predicate LakhSpelled(word: string) { word == "lac" || word == "lacs" || word == "lakh" || word == "lakhs" }

  lemma UnitIs(word: string)
    ensures Factor(word) == if UnitOf(word, 0).None? then 0 else Multiplier(UnitOf(word, 0).value)
    ensures UnitOf(word, 0) == Some(Lakh) && word != "l" <==> LakhSpelled(word)
  {
    assert WORDS[12] == ("las", Plain) && UnitOf(word, 12) == if word == "las" then Some(Plain) else UnitOf(word, 13);
    assert WORDS[11] == ("la", Plain) && UnitOf(word, 11) == if word == "la" then Some(Plain) else UnitOf(word, 12);
    assert WORDS[10] == ("thousands", Thousand) && UnitOf(word, 10) == if word == "thousands" then Some(Thousand)
           else UnitOf(word, 11);
    assert WORDS[9] == ("thousand", Thousand) && UnitOf(word, 9) == if word == "thousand" then Some(Thousand)
           else UnitOf(word, 10);
    assert WORDS[8] == ("l", Lakh) && UnitOf(word, 8) == if word == "l" then Some(Lakh) else UnitOf(word, 9);
    assert WORDS[7] == ("lakhs", Lakh) && UnitOf(word, 7) == if word == "lakhs" then Some(Lakh) else UnitOf(word, 8);
    assert WORDS[6] == ("lacs", Lakh) && UnitOf(word, 6) == if word == "lacs" then Some(Lakh) else UnitOf(word, 7);
    assert WORDS[5] == ("lac", Lakh) && UnitOf(word, 5) == if word == "lac" then Some(Lakh) else UnitOf(word, 6);
    assert WORDS[4] == ("crores", Crore) && UnitOf(word, 4) == if word == "crores" then Some(Crore)
           else UnitOf(word, 5);
    assert WORDS[3] == ("crore", Crore) && UnitOf(word, 3) == if word == "crore" then Some(Crore) else UnitOf(word, 4);
    assert WORDS[2] == ("k", Thousand) && UnitOf(word, 2) == if word == "k" then Some(Thousand) else UnitOf(word, 3);
    assert WORDS[1] == ("lakh", Lakh) && UnitOf(word, 1) == if word == "lakh" then Some(Lakh) else UnitOf(word, 2);
    assert WORDS[0] == ("cr", Crore) && UnitOf(word, 0) == if word == "cr" then Some(Crore) else UnitOf(word, 1);
  }

  // The numeral of a price: digits and commas from i to e, and perhaps a point and decimals up to f.
  predicate NumeralAt(s: string, i: nat, e: nat, f: nat)
  {
    && i < e && Stretch(s, i, e, DIGITS + ",")
    && if e + 1 < |s| && s[e] in ".:'\U{2019}" && s[e + 1] in DIGITS then Stretch(s, e + 1, f, DIGITS) else f == e
  }

  // A stated price: a numeral, a gap of spaces, of . - / and of spaces, from f over a and b to g, and one
  // of the words up to w.
  predicate PriceAt(s: string, i: nat, e: nat, f: nat, a: nat, b: nat, g: nat, w: nat)
  {
    PhraseAt(s, i, e, f, a, b, g, w) && Factor(Lowered(s[g..w])) != 0
  }

  predicate PhraseAt(s: string, i: nat, e: nat, f: nat, a: nat, b: nat, g: nat, w: nat)
  {
    && NumeralAt(s, i, e, f) && Stretch(s, f, a, SPACES) && Stretch(s, a, b, ".-/") && Stretch(s, b, g, SPACES)
    && Stretch(s, g, w, WORD)
  }

  lemma NumeralIs(s: string, i: nat, e: nat, f: nat)
    requires i < |s|
    ensures NumeralAt(s, i, e, f) <==> IsRun(s[i]) && SpanEnd(s, i, IsRun) == e && FracEnd(s, e) == f
  {
    Classes();
    StretchIs(s, i, e, IsRun, DIGITS + ",");
    if i < e <= |s| { FractionIs(s, e, f); }
  }

  lemma FractionIs(s: string, e: nat, f: nat)
    requires e <= |s|
    ensures FracEnd(s, e) == f <==>
            if e + 1 < |s| && s[e] in ".:'\U{2019}" && s[e + 1] in DIGITS then Stretch(s, e + 1, f, DIGITS) else f == e
  {
    Classes();
    if e + 1 < |s| && IsPoint(s[e]) && IsDigit(s[e + 1]) {
      StretchIs(s, e + 1, f, IsDigit, DIGITS);
      assert SpanEnd(s, e + 1, IsDigit) == SpanEnd(s, e + 2, IsDigit);
    }
  }

  lemma GapIs(s: string, f: nat, a: nat, b: nat, g: nat)
    requires f <= |s|
    ensures Stretch(s, f, a, SPACES) && Stretch(s, a, b, ".-/") && Stretch(s, b, g, SPACES) <==>
            a == SpanEnd(s, f, IsSpace) && b == SpanEnd(s, a, IsJoin) && g == GapEnd(s, f)
  {
    Classes();
    StretchIs(s, f, a, IsSpace, SPACES);
    if a <= |s| {
      StretchIs(s, a, b, IsJoin, ".-/");
      if b <= |s| { StretchIs(s, b, g, IsSpace, SPACES); }
    }
  }

  lemma PhraseIs(s: string, i: nat, e: nat, f: nat, a: nat, b: nat, g: nat, w: nat)
    requires PhraseAt(s, i, e, f, a, b, g, w)
    ensures i < |s| && IsRun(s[i]) && SpanEnd(s, i, IsRun) == e && FracEnd(s, e) == f && GapEnd(s, f) == g
    ensures WordAt(s, g) == Lowered(s[g..w]) && i < e <= f <= |s| && (f != e ==> f > e + 1) && g <= w <= |s|
  {
    NumeralIs(s, i, e, f);
    GapIs(s, f, a, b, g);
    WordIs(s, g, w);
  }

  predicate IsMatch(s: string, i: nat, e: nat, f: nat, m: Match, word: string)
  {
    && i < e <= f <= |s| && (f != e ==> f > e + 1) && m.whole == s[i..e] && m.frac == Decimals(s, e, f)
    && UnitOf(word, 0) == Some(m.unit) && m.spelledLong == (word != "l") && MatchAt(s, i) == Some(m)
  }

  lemma MatchFrom(s: string, i: nat, e: nat, f: nat, g: nat, unit: Unit)
    requires i < e <= f <= |s| && (f != e ==> f > e + 1)
    requires IsRun(s[i]) && SpanEnd(s, i, IsRun) == e && FracEnd(s, e) == f && GapEnd(s, f) == g
    requires UnitOf(WordAt(s, g), 0) == Some(unit)
    ensures var word := WordAt(s, g); IsMatch(s, i, e, f, Match(s[i..e], Decimals(s, e, f), unit, word != "l"), word)
  {
  }

  lemma PhraseReads(s: string, i: nat, e: nat, f: nat, a: nat, b: nat, g: nat, w: nat, unit: Unit) returns (m: Match)
    requires PhraseAt(s, i, e, f, a, b, g, w) && UnitOf(Lowered(s[g..w]), 0) == Some(unit)
    ensures g <= w <= |s| && IsMatch(s, i, e, f, m, Lowered(s[g..w]))
  {
    PhraseIs(s, i, e, f, a, b, g, w);
    MatchFrom(s, i, e, f, g, unit);
    m := Match(s[i..e], Decimals(s, e, f), unit, WordAt(s, g) != "l");
  }

  // What the pattern finds at a place is the price that stands there.
  lemma PriceAtReads(s: string, i: nat, e: nat, f: nat, a: nat, b: nat, g: nat, w: nat) returns (m: Match)
    requires PriceAt(s, i, e, f, a, b, g, w)
    ensures g <= w <= |s| && IsMatch(s, i, e, f, m, Lowered(s[g..w]))
  {
    UnitIs(Lowered(s[g..w]));
    m := PhraseReads(s, i, e, f, a, b, g, w, UnitOf(Lowered(s[g..w]), 0).value);
  }

  ghost predicate StatesAt(s: string, i: nat)
  {
    exists e: nat, f: nat, a: nat, b: nat, g: nat, w: nat :: PriceAt(s, i, e, f, a, b, g, w)
  }

  lemma MatchedPhrase(s: string, i: nat, e: nat, f: nat, a: nat, b: nat, g: nat, w: nat)
    requires i < |s| && MatchAt(s, i).Some?
    requires e == SpanEnd(s, i, IsRun) && f == FracEnd(s, e) && a == SpanEnd(s, f, IsSpace)
    requires b == SpanEnd(s, a, IsJoin) && g == SpanEnd(s, b, IsSpace) && w == SpanEnd(s, g, IsWord)
    ensures PhraseAt(s, i, e, f, a, b, g, w) && UnitOf(Lowered(s[g..w]), 0).Some?
  {
    NumeralIs(s, i, e, f);
    GapIs(s, f, a, b, g);
    WordIs(s, g, w);
  }

  lemma MatchIff(s: string, i: nat)
    requires i < |s|
    ensures MatchAt(s, i).Some? <==> StatesAt(s, i)
  {
    if MatchAt(s, i).Some? {
      var e := SpanEnd(s, i, IsRun);
      var f := FracEnd(s, e);
      var a := SpanEnd(s, f, IsSpace);
      var b := SpanEnd(s, a, IsJoin);
      var g := SpanEnd(s, b, IsSpace);
      var w := SpanEnd(s, g, IsWord);
      MatchedPhrase(s, i, e, f, a, b, g, w);
      UnitIs(Lowered(s[g..w]));
      assert PriceAt(s, i, e, f, a, b, g, w);
    } else if StatesAt(s, i) {
      var e: nat, f: nat, a: nat, b: nat, g: nat, w: nat :| PriceAt(s, i, e, f, a, b, g, w);
      var m := PriceAtReads(s, i, e, f, a, b, g, w);
    }
  }

  lemma {:induction false} SearchFinds(s: string, i: nat, n: nat)
    requires i <= n < |s| && MatchAt(s, n).Some? && forall k :: i <= k < n ==> MatchAt(s, k).None?
    ensures Search(s, i) == MatchAt(s, n)
    decreases n - i
  {
    if i < n { SearchFinds(s, i + 1, n); }
  }

  // The rupees of a stated price. A lakh spelled out is not multiplied when the numeral is grouped by
  // commas and comes to a lakh by itself.
  function Stated(numeral: string, frac: string, word: string): (r: real)
  {
    var amount := Number(NoCommas(numeral), frac);
    if LakhSpelled(word) && ',' in numeral && amount >= 100000.0 then amount else amount * Factor(word) as real
  }

  lemma RupeesAre(m: Match, word: string)
    requires UnitOf(word, 0) == Some(m.unit) && m.spelledLong == (word != "l")
    ensures var amount := Number(NoCommas(m.whole), m.frac);
            var p := if m.unit == Lakh && m.spelledLong && ',' in m.whole && amount >= 100000.0
                     then Price(amount, Plain) else Price(amount, m.unit);
            Rupees(p) == Stated(m.whole, m.frac, word)
  {
    UnitIs(word);
  }

  lemma MatchIsPriced(s: string, fallback: Option<real>, m: Match, word: string)
    requires Search(s, 0) == Some(m) && UnitOf(word, 0) == Some(m.unit) && m.spelledLong == (word != "l")
    ensures CanonicalPrice(s, fallback) ==
            if NoCommas(m.whole) == [] && m.frac == [] then fallback else Some(Stated(m.whole, m.frac, word))
  {
    RupeesAre(m, word);
  }

  lemma FirstMatch(s: string, i: nat)
    requires i < |s| && MatchAt(s, i).Some? && forall k: nat :: k < i ==> !StatesAt(s, k)
    ensures Search(s, 0) == MatchAt(s, i)
  {
    forall k | 0 <= k < i ensures MatchAt(s, k).None? { MatchIff(s, k); }
    SearchFinds(s, 0, i);
  }

  // A text is read by the first price it states, and by the value handed over if it states none, or if
  // that price has commas for a numeral and no decimals.
  lemma PriceIsTheFirst(s: string, fallback: Option<real>, i: nat, e: nat, f: nat, a: nat, b: nat, g: nat, w: nat)
    requires PriceAt(s, i, e, f, a, b, g, w) && forall k: nat :: k < i ==> !StatesAt(s, k)
    ensures CanonicalPrice(s, fallback) ==
            if f == e && forall k :: i <= k < e ==> s[k] == ',' then fallback
            else Some(Stated(s[i..e], Decimals(s, e, f), Lowered(s[g..w])))
  {
    var m := PriceAtReads(s, i, e, f, a, b, g, w);
    FirstMatch(s, i);
    StatedByMatch(s, fallback, i, e, f, m, Lowered(s[g..w]));
  }

  lemma StatedByMatch(s: string, fallback: Option<real>, i: nat, e: nat, f: nat, m: Match, word: string)
    requires IsMatch(s, i, e, f, m, word) && Search(s, 0) == Some(m)
    ensures CanonicalPrice(s, fallback) ==
            if f == e && forall k :: i <= k < e ==> s[k] == ',' then fallback
            else Some(Stated(s[i..e], Decimals(s, e, f), word))
  {
    MatchIsPriced(s, fallback, m, word);
    CommasFrom(s, i, e);
    assert f != e ==> |m.frac| > 0;
  }

  lemma CommasFrom(s: string, i: nat, e: nat)
    requires i <= e <= |s|
    ensures NoCommas(s[i..e]) == [] <==> forall k :: i <= k < e ==> s[k] == ','
  {
    OnlyCommas(s[i..e]);
    if NoCommas(s[i..e]) == [] {
      forall k | i <= k < e ensures s[k] == ',' { assert s[i..e][k - i] == ','; }
    }
  }

  lemma {:induction false} OnlyCommas(s: string)
    ensures NoCommas(s) == [] <==> forall k :: 0 <= k < |s| ==> s[k] == ','
  {
    if s != [] {
      OnlyCommas(s[1..]);
      assert forall k :: 0 < k < |s| ==> s[k] == s[1..][k - 1];
    }
  }

  lemma {:induction false} NoPrice(s: string, fallback: Option<real>)
    requires forall k: nat :: k < |s| ==> !StatesAt(s, k)
    ensures CanonicalPrice(s, fallback) == fallback
  {
    forall k | 0 <= k < |s| ensures MatchAt(s, k).None? { MatchIff(s, k); }
    NoMatch(s, 0);
  }

  // A comma in a numeral is as if it were not there.
  lemma {:induction false} CommasAreIgnored(a: string, b: string)
    ensures NoCommas(a + "," + b) == NoCommas(a + b)
  {
    if a == [] {
      assert ("" + "," + b)[1..] == b && "" + b == b;
    } else {
      assert (a + "," + b)[1..] == a[1..] + "," + b && (a + b)[1..] == a[1..] + b;
      CommasAreIgnored(a[1..], b);
    }
  }

  // A decimal K: digits, a point, digits, spaces and the word k, with neither a digit nor a point in front.
  predicate DecimalKAt(s: string, i: nat, e: nat, f: nat, g: nat, w: nat)
  {
    && i < e && Stretch(s, i, e, DIGITS) && (i > 0 ==> s[i - 1] !in DIGITS + ".")
    && e + 1 < f <= |s| && s[e] == '.' && Stretch(s, e + 1, f, DIGITS) && Stretch(s, f, g, SPACES)
    && Stretch(s, g, w, WORD) && Lowered(s[g..w]) == "k"
  }

  ghost predicate DecimalKFrom(s: string, i: nat)
  {
    exists e: nat, f: nat, g: nat, w: nat :: DecimalKAt(s, i, e, f, g, w)
  }

  lemma DecimalKReads(s: string, i: nat, e: nat, f: nat, g: nat, w: nat)
    requires DecimalKAt(s, i, e, f, g, w)
    ensures i < |s| && ShorthandAt(s, i) == Some(Number(s[i..e], s[e + 1..f]))
  {
    DecimalKSpans(s, i, e, f, g);
    WordIs(s, g, w);
    NoneInFront(s, i);
    ShorthandFrom(s, i, e, f, g);
  }

  lemma NoneInFront(s: string, i: nat)
    requires i <= |s|
    ensures (i > 0 ==> s[i - 1] !in DIGITS + ".") <==> !(i > 0 && (IsDigit(s[i - 1]) || s[i - 1] == '.'))
  {
    if i > 0 {
      DigitClass(s[i - 1]);
      assert s[i - 1] in DIGITS + "." <==> s[i - 1] in DIGITS || s[i - 1] == '.';
    }
  }

  lemma ShorthandFrom(s: string, i: nat, e: nat, f: nat, g: nat)
    requires i < e && e + 1 < f <= g <= |s| && s[e] == '.' && !(i > 0 && (IsDigit(s[i - 1]) || s[i - 1] == '.'))
    requires SpanEnd(s, i, IsDigit) == e && IsDigit(s[e + 1]) && SpanEnd(s, e + 2, IsDigit) == f
    requires SpanEnd(s, f, IsSpace) == g && WordAt(s, g) == "k"
    ensures ShorthandAt(s, i) == Some(Number(s[i..e], s[e + 1..f]))
  {
  }

  lemma DecimalKSpans(s: string, i: nat, e: nat, f: nat, g: nat)
    requires i < e && e + 1 < f && Stretch(s, i, e, DIGITS) && Stretch(s, e + 1, f, DIGITS) && Stretch(s, f, g, SPACES)
    ensures SpanEnd(s, i, IsDigit) == e && SpanEnd(s, e + 2, IsDigit) == f && SpanEnd(s, f, IsSpace) == g
    ensures IsDigit(s[e + 1])
  {
    Classes();
    StretchIs(s, i, e, IsDigit, DIGITS);
    StretchIs(s, e + 1, f, IsDigit, DIGITS);
    StretchIs(s, f, g, IsSpace, SPACES);
  }

  lemma ShorthandSpans(s: string, i: nat, e: nat, f: nat, g: nat)
    requires i <= |s| && i < e == SpanEnd(s, i, IsDigit) && e + 1 < |s| && IsDigit(s[e + 1])
    requires f == SpanEnd(s, e + 2, IsDigit) && g == SpanEnd(s, f, IsSpace)
    ensures Stretch(s, i, e, DIGITS) && Stretch(s, e + 1, f, DIGITS) && Stretch(s, f, g, SPACES)
  {
    Classes();
    assert SpanEnd(s, e + 1, IsDigit) == f;
    StretchIs(s, i, e, IsDigit, DIGITS);
    StretchIs(s, e + 1, f, IsDigit, DIGITS);
    StretchIs(s, f, g, IsSpace, SPACES);
  }

  lemma ShorthandFound(s: string, i: nat)
    requires i < |s| && ShorthandAt(s, i).Some?
    ensures DecimalKFrom(s, i)
  {
    var e := SpanEnd(s, i, IsDigit);
    var f := SpanEnd(s, e + 2, IsDigit);
    var g := SpanEnd(s, f, IsSpace);
    ShorthandSpans(s, i, e, f, g);
    NoneInFront(s, i);
    WordIs(s, g, SpanEnd(s, g, IsWord));
    assert DecimalKAt(s, i, e, f, g, SpanEnd(s, g, IsWord));
  }

  lemma ShorthandIff(s: string, i: nat)
    requires i < |s|
    ensures ShorthandAt(s, i).Some? <==> DecimalKFrom(s, i)
  {
    if ShorthandAt(s, i).Some? {
      ShorthandFound(s, i);
    } else if DecimalKFrom(s, i) {
      var e: nat, f: nat, g: nat, w: nat :| DecimalKAt(s, i, e, f, g, w);
      DecimalKReads(s, i, e, f, g, w);
    }
  }

  // A rent is read by its first decimal K, if that is below 5: as so many lakhs.
  lemma RentIsTheFirst(s: string, fallback: Option<real>, rentWord: bool, plainUnit: bool,
                       i: nat, e: nat, f: nat, g: nat, w: nat) returns (x: real)
    requires DecimalKAt(s, i, e, f, g, w) && forall k: nat :: k < i ==> !DecimalKFrom(s, k)
    ensures x == Number(s[i..e], s[e + 1..f])
    ensures RentalPrice(s, fallback, rentWord, plainUnit) ==
            if x < 5.0 then Some(x * 100000.0) else RentWithout(s, fallback, rentWord, plainUnit)
  {
    x := FirstDecimalK(s, i, e, f, g, w);
    RentBy(s, fallback, rentWord, plainUnit, x);
  }

  lemma RentBy(s: string, fallback: Option<real>, rentWord: bool, plainUnit: bool, x: real)
    requires Shorthand(s, 0) == Some(x)
    ensures RentalPrice(s, fallback, rentWord, plainUnit) ==
            if x < 5.0 then Some(x * 100000.0) else RentWithout(s, fallback, rentWord, plainUnit)
  {
  }

  lemma FirstDecimalK(s: string, i: nat, e: nat, f: nat, g: nat, w: nat) returns (x: real)
    requires DecimalKAt(s, i, e, f, g, w) && forall k: nat :: k < i ==> !DecimalKFrom(s, k)
    ensures Shorthand(s, 0) == Some(x) && x == Number(s[i..e], s[e + 1..f])
  {
    DecimalKReads(s, i, e, f, g, w);
    forall k | 0 <= k < i ensures ShorthandAt(s, k).None? { ShorthandIff(s, k); }
    ShorthandSkips(s, 0, i);
    x := Number(s[i..e], s[e + 1..f]);
  }

  lemma RentOtherwise(s: string, fallback: Option<real>, rentWord: bool, plainUnit: bool)
    requires forall k: nat :: k < |s| ==> !DecimalKFrom(s, k)
    ensures RentalPrice(s, fallback, rentWord, plainUnit) == RentWithout(s, fallback, rentWord, plainUnit)
  {
    forall k | 0 <= k < |s| ensures ShorthandAt(s, k).None? { ShorthandIff(s, k); }
    NoShorthand(s, 0);
  }

  // Without one a rent is read like any price, but a bare number below a thousand, handed over for a text
  // that speaks of rent and states no price, is taken for thousands.
  function RentWithout(s: string, fallback: Option<real>, rentWord: bool, plainUnit: bool): (r: Option<real>)
  {
    var price := CanonicalPrice(s, fallback);
    if price.Some? && 0.0 < price.value < 1000.0 && rentWord && plainUnit && ParseExplicitPrice(s) == None
    then Some(1000.0 * price.value) else price
  }
}
