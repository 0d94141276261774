// The JSON grammar as a relation between stretches of a text and values, and the decoder read
// against it: RFC 8259, sections 2 to 7, with the literals and the lone surrogates CPython admits.
module JsonGrammar {
  import opened Options
  import opened JsonText

  // ----- Stretches of text -----

  predicate WhiteChar(c: char) { c == ' ' || c == '\t' || c == '\n' || c == '\r' }

  predicate White(s: string, i: nat, j: nat)
  {
    i <= j <= |s| && forall k :: i <= k < j ==> WhiteChar(s[k])
  }

  predicate Digits(s: string, i: nat, j: nat)
  {
    i < j <= |s| && forall k :: i <= k < j ==> '0' <= s[k] <= '9'
  }

  predicate Signed(s: string, i: nat) { i < |s| && s[i] == '-' }

  // int: no leading zero.
  predicate IntegerAt(s: string, i: nat, j: nat)
  {
    i < j <= |s| && ((s[i] == '0' && j == i + 1) || (s[i] != '0' && Digits(s, i, j)))
  }

  predicate FractionAt(s: string, i: nat, j: nat)
  {
    i == j <= |s| || (i + 1 < j <= |s| && s[i] == '.' && Digits(s, i + 1, j))
  }

  predicate ExponentAt(s: string, i: nat, j: nat)
  {
    || i == j <= |s|
    || (i + 1 < j <= |s| && (s[i] == 'e' || s[i] == 'E') &&
        (Digits(s, i + 1, j) || ((s[i + 1] == '+' || s[i + 1] == '-') && Digits(s, i + 2, j))))
  }

  predicate NumberParts(s: string, i: nat, a: nat, b: nat, j: nat)
  {
    IntegerAt(s, if Signed(s, i) then i + 1 else i, a) && FractionAt(s, a, b) && ExponentAt(s, b, j)
  }

  ghost predicate NumberAt(s: string, i: nat, j: nat)
  {
    exists a: nat, b: nat :: NumberParts(s, i, a, b, j)
  }

  predicate WordAt(s: string, i: nat, j: nat, word: string)
  {
    j == i + |word| <= |s| && forall k :: 0 <= k < |word| ==> s[i + k] == word[k]
  }

  // ----- Strings -----

  predicate Hex(c: char, d: int)
  {
    || ('0' <= c <= '9' && d == c as int - '0' as int)
    || ('a' <= c <= 'f' && d == 10 + (c as int - 'a' as int))
    || ('A' <= c <= 'F' && d == 10 + (c as int - 'A' as int))
  }

  // \uXXXX stands at i, with these digits.
  predicate UnitDigits(s: string, i: nat, a: int, b: int, c: int, d: int)
  {
    && i + 6 <= |s| && s[i] == '\\' && s[i + 1] == 'u'
    && Hex(s[i + 2], a) && Hex(s[i + 3], b) && Hex(s[i + 4], c) && Hex(s[i + 5], d)
  }

  // It is the code unit n.
  ghost predicate UnitAt(s: string, i: nat, n: int)
  {
    exists a, b, c, d :: UnitDigits(s, i, a, b, c, d) && n == 4096 * a + 256 * b + 16 * c + d
  }

  predicate IsHigh(n: int) { 0xD800 <= n <= 0xDBFF }
  predicate IsLow(n: int) { 0xDC00 <= n <= 0xDFFF }

  ghost predicate LowUnitAt(s: string, i: nat) { exists n :: UnitAt(s, i, n) && IsLow(n) }

  predicate ShortEscape(c: char, n: int)
  {
    || (c == '"' && n == 0x22) || (c == '\\' && n == 0x5C) || (c == '/' && n == 0x2F) || (c == 'b' && n == 8)
    || (c == 'f' && n == 0xC) || (c == 'n' && n == 0xA) || (c == 'r' && n == 0xD) || (c == 't' && n == 9)
  }

  // A surrogate pair, written as two units, is the character it encodes.
  ghost predicate PairOf(s: string, i: nat, c: int)
  {
    exists h, l :: UnitAt(s, i, h) && UnitAt(s, i + 6, l) && IsHigh(h) && IsLow(l) &&
      c == 0x10000 + (h - 0xD800) * 0x400 + (l - 0xDC00)
  }

  // s[i..k] spells the character c: itself, a short escape, one unit, or a pair of them. A high
  // surrogate stands for itself only where no low one follows.
  ghost predicate CharAt(s: string, i: nat, k: nat, c: int)
  {
    && i < k <= |s|
    && (|| (k == i + 1 && s[i] != '"' && s[i] != '\\' && s[i] >= ' ' && c == s[i] as int)
        || (k == i + 2 && s[i] == '\\' && ShortEscape(s[i + 1], c))
        || (k == i + 6 && UnitAt(s, i, c) && (IsHigh(c) ==> !LowUnitAt(s, i + 6)))
        || (k == i + 12 && PairOf(s, i, c)))
  }

  ghost predicate TextAt(s: string, i: nat, j: nat, text: seq<CodePoint>)
    decreases |text|
  {
    if text == [] then i == j <= |s|
    else exists k: nat :: CharAt(s, i, k, text[0]) && TextAt(s, k, j, text[1..])
  }

  ghost predicate QuotedAt(s: string, i: nat, j: nat, text: seq<CodePoint>)
  {
    i + 2 <= j <= |s| && s[i] == '"' && s[j - 1] == '"' && TextAt(s, i + 1, j - 1, text)
  }

  // ----- Values -----

  // s[i..j] spells v.
  ghost predicate Spells(s: string, i: nat, j: nat, v: Json)
    decreases v, 2
  {
    && i < j <= |s|
    && match v
       case JNull => WordAt(s, i, j, "null")
       case JBool(b) => WordAt(s, i, j, if b then "true" else "false")
       case JNumber(lexeme) =>
         && lexeme == s[i..j]
         && (NumberAt(s, i, j) || WordAt(s, i, j, "NaN") || WordAt(s, i, j, "Infinity") || WordAt(s, i, j, "-Infinity"))
       case JString(text) => QuotedAt(s, i, j, text)
       case JArray(items) =>
         s[i] == '[' && exists k: nat :: White(s, i + 1, k) && ItemsAt(s, k, j, items)
       case JObject(members) =>
         s[i] == '{' && exists k: nat :: White(s, i + 1, k) && MembersAt(s, k, j, members)
  }

  // The closing bracket is at j - 1.
  predicate ClosesAt(s: string, i: nat, j: nat, close: char) { i < |s| && s[i] == close && j == i + 1 }

  // The items from i on, each with its white space, through the closing bracket.
  ghost predicate ItemsAt(s: string, i: nat, j: nat, items: seq<Json>)
    decreases items, 0
  {
    if items == [] then ClosesAt(s, i, j, ']')
    else exists a: nat, b: nat :: Spells(s, i, a, items[0]) && White(s, a, b) && MoreItemsAt(s, b, j, items[1..])
  }

  ghost predicate MoreItemsAt(s: string, b: nat, j: nat, items: seq<Json>)
    decreases items, 1
  {
    if items == [] then ClosesAt(s, b, j, ']')
    else b < |s| && s[b] == ',' && exists k: nat :: White(s, b + 1, k) && ItemsAt(s, k, j, items)
  }

  // A key, its colon and the white space around it, up to the value.
  ghost predicate KeySpells(s: string, i: nat, a: nat, key: seq<CodePoint>)
  {
    exists e: nat, c: nat :: QuotedAt(s, i, e, key) && White(s, e, c) && c < |s| && s[c] == ':' && White(s, c + 1, a)
  }

  ghost predicate MemberAt(s: string, i: nat, e: nat, m: (seq<CodePoint>, Json))
    decreases m, 0
  {
    exists a: nat :: KeySpells(s, i, a, m.0) && Spells(s, a, e, m.1)
  }

  ghost predicate MembersAt(s: string, i: nat, j: nat, members: seq<(seq<CodePoint>, Json)>)
    decreases members, 0
  {
    if members == [] then ClosesAt(s, i, j, '}')
    else exists e: nat, b: nat ::
          MemberAt(s, i, e, members[0]) && White(s, e, b) && MoreMembersAt(s, b, j, members[1..])
  }

  ghost predicate MoreMembersAt(s: string, b: nat, j: nat, members: seq<(seq<CodePoint>, Json)>)
    decreases members, 1
  {
    if members == [] then ClosesAt(s, b, j, '}')
    else b < |s| && s[b] == ',' && exists k: nat :: White(s, b + 1, k) && MembersAt(s, k, j, members)
  }

  // ----- Leaves: the decoder reads what the grammar spells, and nothing else -----

  // The decoder reads past the four characters and no others.
  lemma {:induction false} SpaceIs(s: string, i: nat, j: nat)
    requires i <= |s|
    ensures SkipSpace(s, i) == j <==> White(s, i, j) && (j < |s| ==> !WhiteChar(s[j]))
    decreases |s| - i
  {
    if i < |s| && WhiteChar(s[i]) {
      SpaceIs(s, i + 1, j);
      assert White(s, i, j) && (j < |s| ==> !WhiteChar(s[j])) ==> White(s, i + 1, j);
    }
  }

  lemma {:induction false} DigitsAre(s: string, i: nat)
    requires i <= |s|
    ensures var j := DigitsEnd(s, i);
            (forall k :: i <= k < j ==> '0' <= s[k] <= '9') && (j < |s| ==> !('0' <= s[j] <= '9'))
    decreases |s| - i
  {
    if i < |s| && Digit(s[i]) { DigitsAre(s, i + 1); }
  }

  // What may stand behind a number: nothing, or a character that does not go on with it.
  predicate Ends(s: string, j: nat)
  {
    j < |s| ==> WhiteChar(s[j]) || s[j] == ',' || s[j] == ']' || s[j] == '}'
  }

  lemma IntegerIs(s: string, i: nat)
    requires i <= |s|
    ensures var b := if Signed(s, i) then i + 1 else i;
            match IntegerEnd(s, i)
            case Some(a) => IntegerAt(s, b, a)
            case None => forall a: nat :: !IntegerAt(s, b, a)
  {
    var b := if Signed(s, i) then i + 1 else i;
    if b < |s| { DigitsAre(s, b); }
  }

  // The decoder takes the longest number; one that ends where nothing goes on with it is that.
  lemma LongestInteger(s: string, i: nat, a: nat)
    requires i <= |s| && IntegerAt(s, if Signed(s, i) then i + 1 else i, a) && (a < |s| ==> !('0' <= s[a] <= '9'))
    ensures IntegerEnd(s, i) == Some(a)
  {
    DigitsAre(s, if Signed(s, i) then i + 1 else i);
  }

  lemma FractionIs(s: string, a: nat)
    requires a <= |s|
    ensures FractionAt(s, a, FractionEnd(s, a))
  {
    if a + 1 < |s| { DigitsAre(s, a + 1); }
  }

  lemma ExponentIs(s: string, b: nat)
    requires b <= |s|
    ensures ExponentAt(s, b, ExponentEnd(s, b))
  {
    if b + 1 < |s| { DigitsAre(s, b + 1); }
    if b + 2 < |s| { DigitsAre(s, b + 2); }
  }

  lemma NumberIsSound(s: string, i: nat, j: nat)
    requires i <= |s| && NumberEnd(s, i) == Some(j)
    ensures NumberAt(s, i, j)
  {
    var a := IntegerEnd(s, i).value;
    var b := FractionEnd(s, a);
    IntegerIs(s, i);
    FractionIs(s, a);
    ExponentIs(s, b);
    assert NumberParts(s, i, a, b, j);
  }

  lemma FractionReads(s: string, a: nat, b: nat)
    requires FractionAt(s, a, b) && (b < |s| ==> !('0' <= s[b] <= '9')) && (a == b < |s| ==> s[b] != '.')
    ensures FractionEnd(s, a) == b
  {
    if a + 1 < |s| { DigitsAre(s, a + 1); }
  }

  lemma ExponentReads(s: string, b: nat, j: nat)
    requires ExponentAt(s, b, j) && Ends(s, j)
    ensures ExponentEnd(s, b) == j
  {
    if b + 1 < |s| { DigitsAre(s, b + 1); }
    if b + 2 <= |s| { DigitsAre(s, b + 2); }
  }

  lemma NumberIsComplete(s: string, i: nat, j: nat)
    requires i <= |s| && NumberAt(s, i, j) && Ends(s, j)
    ensures i < j <= |s| && NumberEnd(s, i) == Some(j)
  {
    var a: nat, b: nat :| NumberParts(s, i, a, b, j);
    ExponentReads(s, b, j);
    FractionReads(s, a, b);
    LongestInteger(s, i, a);
  }

  lemma UnitIs(s: string, i: nat, n: int)
    requires i + 2 <= |s| && s[i] == '\\' && s[i + 1] == 'u'
    ensures UnitAt(s, i, n) <==> HexFour(s, i + 2) == Some(n)
  {
    if i + 6 <= |s| { HexFourIs(s, i, n); }
  }

  lemma HexFourIs(s: string, i: nat, n: int)
    requires i + 6 <= |s| && s[i] == '\\' && s[i + 1] == 'u'
    ensures UnitAt(s, i, n) <==> HexFour(s, i + 2) == Some(n)
  {
    if UnitAt(s, i, n) {
      var a, b, c, d :| UnitDigits(s, i, a, b, c, d) && n == 4096 * a + 256 * b + 16 * c + d;
      HexIs(s[i + 2], a);
      HexIs(s[i + 3], b);
      HexIs(s[i + 4], c);
      HexIs(s[i + 5], d);
    } else if HexFour(s, i + 2) == Some(n) {
      var a, b := HexDigit(s[i + 2]).value, HexDigit(s[i + 3]).value;
      var c, d := HexDigit(s[i + 4]).value, HexDigit(s[i + 5]).value;
      assert UnitDigits(s, i, a, b, c, d);
    }
  }

  lemma HexIs(c: char, d: int)
    ensures Hex(c, d) <==> HexDigit(c) == Some(d)
  {
  }

  // What the decoder reads behind a backslash is what the grammar spells there.
  lemma EscapeIsSound(s: string, i: nat)
    requires i < |s| && s[i] == '\\' && Escape(s, i).At?
    ensures CharAt(s, i, Escape(s, i).end, Escape(s, i).value)
  {
    if s[i + 1] == 'u' {
      var n := HexFour(s, i + 2).value;
      UnitIs(s, i, n);
      NextUnitIs(s, i + 6);
      if Escape(s, i).end == i + 12 {
        assert PairOf(s, i, Escape(s, i).value) by { UnitIs(s, i + 6, HexFour(s, i + 8).value); }
      }
    }
  }

  lemma NextUnitIs(s: string, j: nat)
    ensures LowUnitAt(s, j) <==> j + 2 <= |s| && s[j] == '\\' && s[j + 1] == 'u' && HexFour(s, j + 2).Some? &&
                                 IsLow(HexFour(s, j + 2).value)
  {
    if LowUnitAt(s, j) {
      var n :| UnitAt(s, j, n) && IsLow(n);
      UnitIs(s, j, n);
    } else if j + 2 <= |s| && s[j] == '\\' && s[j + 1] == 'u' && HexFour(s, j + 2).Some? {
      UnitIs(s, j, HexFour(s, j + 2).value);
    }
  }

  // A unit that goes wrong behind a high surrogate spoils the string; elsewhere the grammar's reading
  // of a character is the decoder's.
  predicate SpoiltAt(s: string, j: nat)
  {
    j + 2 <= |s| && s[j] == '\\' && s[j + 1] == 'u' && HexFour(s, j + 2).None?
  }

  predicate UnitReads(s: string, i: nat, n: CodePoint)
  {
    i + 2 <= |s| && s[i] == '\\' && s[i + 1] == 'u' && HexFour(s, i + 2) == Some(n)
  }

  lemma UnitIsRead(s: string, i: nat, n: CodePoint)
    requires UnitAt(s, i, n)
    ensures UnitReads(s, i, n)
  {
    UnitIs(s, i, n);
  }

  lemma PairReads(s: string, i: nat, c: CodePoint)
    requires PairOf(s, i, c)
    ensures i + 12 <= |s| && s[i] == '\\' && Escape(s, i) == At(c, i + 12)
  {
    forall h: int, l: int | UnitAt(s, i, h) && UnitAt(s, i + 6, l) && IsHigh(h) && IsLow(l)
      ensures i + 12 <= |s| && s[i] == '\\' && Escape(s, i) == At(0x10000 + (h - 0xD800) * 0x400 + (l - 0xDC00), i + 12)
    {
      UnitIsRead(s, i, h);
      UnitIsRead(s, i + 6, l);
      UnitsPair(s, i, h, l);
    }
  }

  lemma UnitsPair(s: string, i: nat, h: CodePoint, l: CodePoint)
    requires UnitReads(s, i, h) && UnitReads(s, i + 6, l) && IsHigh(h) && IsLow(l)
    ensures i + 12 <= |s| && Escape(s, i) == At(0x10000 + (h - 0xD800) * 0x400 + (l - 0xDC00), i + 12)
  {
  }

  lemma SingleReads(s: string, i: nat, c: CodePoint)
    requires UnitAt(s, i, c) && (IsHigh(c) ==> !LowUnitAt(s, i + 6)) && !SpoiltAt(s, i + 6)
    ensures Escape(s, i) == At(c, i + 6)
  {
    UnitIs(s, i, c);
    NextUnitIs(s, i + 6);
  }

  lemma ShortReads(s: string, i: nat, c: CodePoint)
    requires i + 2 <= |s| && s[i] == '\\' && ShortEscape(s[i + 1], c)
    ensures Escape(s, i) == At(c, i + 2)
  {
  }

  lemma EscapeIsComplete(s: string, i: nat, k: nat, c: CodePoint)
    requires CharAt(s, i, k, c) && s[i] == '\\' && !SpoiltAt(s, k)
    ensures Escape(s, i) == At(c, k)
  {
    if k == i + 12 { PairReads(s, i, c); }
    else if k == i + 6 { SingleReads(s, i, c); }
    else { ShortReads(s, i, c); }
  }

  lemma {:induction false} TextIsSound(s: string, i: nat, text: seq<CodePoint>, e: nat)
    requires i <= |s| && StringBody(s, i) == At(text, e)
    ensures i < e && s[e - 1] == '"' && TextAt(s, i, e - 1, text)
    decreases |s| - i
  {
    if s[i] == '"' {
    } else if s[i] == '\\' {
      EscapeIsSound(s, i);
      TextIsSound(s, Escape(s, i).end, text[1..], e);
    } else {
      TextIsSound(s, i + 1, text[1..], e);
      assert CharAt(s, i, i + 1, text[0]);
    }
  }

  lemma NotSpoilt(s: string, k: nat, j: nat, text: seq<CodePoint>)
    requires TextAt(s, k, j, text) && j < |s| && s[j] == '"'
    ensures !SpoiltAt(s, k)
  {
    if text != [] {
      var m: nat :| CharAt(s, k, m, text[0]) && TextAt(s, m, j, text[1..]);
      UnitStarts(s, k, m, text[0]);
    }
  }

  lemma UnitStarts(s: string, k: nat, m: nat, c: int)
    requires CharAt(s, k, m, c)
    ensures !SpoiltAt(s, k)
  {
    if m == k + 12 {
      var h, l :| UnitAt(s, k, h) && UnitAt(s, k + 6, l) && IsHigh(h) && IsLow(l) &&
        c == 0x10000 + (h - 0xD800) * 0x400 + (l - 0xDC00);
      UnitIs(s, k, h);
    } else if m == k + 6 {
      UnitIs(s, k, c);
    }
  }

  lemma {:induction false} TextIsComplete(s: string, i: nat, j: nat, text: seq<CodePoint>)
    requires TextAt(s, i, j, text) && j < |s| && s[j] == '"'
    ensures i <= j && StringBody(s, i) == At(text, j + 1)
    decreases |text|
  {
    if text != [] {
      var k: nat :| CharAt(s, i, k, text[0]) && TextAt(s, k, j, text[1..]);
      TextIsComplete(s, k, j, text[1..]);
      NotSpoilt(s, k, j, text[1..]);
      CharReads(s, i, k, text[0]);
      assert text == [text[0]] + text[1..];
    }
  }

  lemma PairOpens(s: string, i: nat, c: int)
    ensures PairOf(s, i, c) ==> i < |s| && s[i] == '\\'
  {
    if PairOf(s, i, c) {
      var h, l :| UnitAt(s, i, h) && UnitAt(s, i + 6, l) && IsHigh(h) && IsLow(l) &&
        c == 0x10000 + (h - 0xD800) * 0x400 + (l - 0xDC00);
      assert s[i] == '\\';
    }
  }

  lemma CharReads(s: string, i: nat, k: nat, c: CodePoint)
    requires CharAt(s, i, k, c) && !SpoiltAt(s, k)
    ensures s[i] != '"'
    ensures if s[i] == '\\' then Escape(s, i) == At(c, k) else s[i] >= ' ' && k == i + 1 && c == s[i] as int
  {
    PairOpens(s, i, c);
    if s[i] == '\\' { EscapeIsComplete(s, i, k, c); }
  }

  lemma QuotedIs(s: string, i: nat, text: seq<CodePoint>, e: nat)
    requires i < |s| && s[i] == '"'
    ensures StringBody(s, i + 1) == At(text, e) <==> QuotedAt(s, i, e, text)
  {
    if StringBody(s, i + 1) == At(text, e) {
      TextIsSound(s, i + 1, text, e);
    } else if QuotedAt(s, i, e, text) {
      TextIsComplete(s, i + 1, e - 1, text);
    }
  }

  lemma WordIs(s: string, i: nat, e: nat, word: string)
    requires word != []
    ensures WordAt(s, i, e, word) <==> LiteralAt(s, i, word) && e == i + |word|
  {
    if WordAt(s, i, e, word) { assert s[i..e] == word; }
    if LiteralAt(s, i, word) {
      forall k | 0 <= k < |word| ensures s[i + k] == word[k] { assert s[i..i + |word|][k] == word[k]; }
    }
  }

  // A value that is neither a string nor a bracket.
  lemma ScalarIsSound(s: string, i: nat, v: Json, e: nat)
    requires i < |s| && Scalar(s, i) == At(v, e)
    ensures Spells(s, i, e, v)
  {
    WordIs(s, i, e, "null");
    WordIs(s, i, e, "true");
    WordIs(s, i, e, "false");
    if v.JNumber? { NumberScalarIsSound(s, i, v, e); }
  }

  lemma NumberScalarIsSound(s: string, i: nat, v: Json, e: nat)
    requires i < |s| && Scalar(s, i) == At(v, e) && v.JNumber?
    ensures Spells(s, i, e, v)
  {
    WordIs(s, i, e, "NaN");
    WordIs(s, i, e, "Infinity");
    WordIs(s, i, e, "-Infinity");
    if !OpensWord(s[i]) && NumberEnd(s, i).Some? {
      NumberIsSound(s, i, e);
    } else {
      assert s[i..e] == v.lexeme;
    }
  }

  // ----- Values -----

  // The decoder's value is spelled by the stretch it consumed.
  lemma {:induction false} ValueIsSound(s: string, i: nat, v: Json, e: nat)
    requires i <= |s| && Value(s, i) == At(v, e)
    ensures Spells(s, i, e, v)
    decreases |s| - i, 0
  {
    if s[i] == '"' {
      StringValue(s, i);
      QuotedIs(s, i, v.text, e);
    } else if s[i] == '{' {
      ObjectValue(s, i);
      SpaceIs(s, i + 1, SkipSpace(s, i + 1));
      ObjectIsSound(s, i + 1, v.members, e);
    } else if s[i] == '[' {
      ArrayValue(s, i);
      SpaceIs(s, i + 1, SkipSpace(s, i + 1));
      ArrayIsSound(s, i + 1, v.items, e);
    } else {
      ScalarValue(s, i);
      ScalarIsSound(s, i, v, e);
    }
  }

  lemma {:induction false} ArrayIsSound(s: string, i: nat, items: seq<Json>, e: nat)
    requires i <= |s| && ArrayBody(s, i) == At(items, e)
    ensures ItemsAt(s, SkipSpace(s, i), e, items)
    decreases |s| - i, 2
  {
    var j := SkipSpace(s, i);
    if !(j < |s| && s[j] == ']') { ElementsAreSound(s, j, items, e); }
  }

  lemma {:induction false} ElementsAreSound(s: string, i: nat, items: seq<Json>, e: nat)
    requires i <= |s| && Elements(s, i) == At(items, e)
    ensures items != [] && ItemsAt(s, i, e, items)
    decreases |s| - i, 1
  {
    SplitElements(s, i, items, e);
    var a := Value(s, i).end;
    ValueIsSound(s, i, items[0], a);
    MoreElementsAreSound(s, a, items[1..], e);
  }

  lemma {:induction false} MoreElementsAreSound(s: string, a: nat, items: seq<Json>, e: nat)
    requires a <= |s| && MoreElements(s, a) == At(items, e)
    ensures White(s, a, SkipSpace(s, a)) && MoreItemsAt(s, SkipSpace(s, a), e, items)
    decreases |s| - a, 1
  {
    SpaceIs(s, a, SkipSpace(s, a));
    match SeparatorAt(s, a, ']')
    case NoSeparator =>
    case Close(c) => ElementsClose(s, a, c);
    case Comma(next) =>
      ElementsAfterComma(s, a, next);
      ElementsAreSound(s, next, items, e);
      SpaceIs(s, SkipSpace(s, a) + 1, next);
  }

  lemma KeyIsSound(s: string, i: nat, key: seq<CodePoint>, a: nat)
    requires i <= |s| && KeyAt(s, i) == At(key, a)
    ensures KeySpells(s, i, a, key)
  {
    var e := StringBody(s, i + 1).end;
    var c := SkipSpace(s, e);
    QuotedIs(s, i, key, e);
    SpaceIs(s, e, c);
    SpaceIs(s, c + 1, a);
  }

  lemma {:induction false} ObjectIsSound(s: string, i: nat, members: seq<(seq<CodePoint>, Json)>, e: nat)
    requires i <= |s| && ObjectBody(s, i) == At(members, e)
    ensures MembersAt(s, SkipSpace(s, i), e, members)
    decreases |s| - i, 2
  {
    var j := SkipSpace(s, i);
    if !(j < |s| && s[j] == '}') { MembersAreSound(s, j, members, e); }
  }

  lemma {:induction false} MembersAreSound(s: string, i: nat, members: seq<(seq<CodePoint>, Json)>, e: nat)
    requires i <= |s| && Members(s, i) == At(members, e)
    ensures members != [] && MembersAt(s, i, e, members)
    decreases |s| - i, 1
  {
    SplitMembers(s, i, members, e);
    var a := KeyAt(s, i).end;
    var b := Value(s, a).end;
    KeyIsSound(s, i, members[0].0, a);
    ValueIsSound(s, a, members[0].1, b);
    assert MemberAt(s, i, b, members[0]);
    MoreMembersAreSound(s, b, members[1..], e);
  }

  lemma {:induction false} MoreMembersAreSound(s: string, b: nat, members: seq<(seq<CodePoint>, Json)>, e: nat)
    requires b <= |s| && MoreMembers(s, b) == At(members, e)
    ensures White(s, b, SkipSpace(s, b)) && MoreMembersAt(s, SkipSpace(s, b), e, members)
    decreases |s| - b, 1
  {
    SpaceIs(s, b, SkipSpace(s, b));
    match SeparatorAt(s, b, '}')
    case NoSeparator =>
    case Close(c) => MembersClose(s, b, c);
    case Comma(next) =>
      MembersAfterComma(s, b, next);
      MembersAreSound(s, next, members, e);
      SpaceIs(s, SkipSpace(s, b) + 1, next);
  }

  predicate Starts(s: string, i: nat)
  {
    i < |s| && !WhiteChar(s[i]) && s[i] != ']' && s[i] != '}' && s[i] != ','
  }

  lemma NumberStarts(s: string, i: nat, j: nat)
    requires NumberAt(s, i, j)
    ensures i < |s| && (s[i] == '-' || '0' <= s[i] <= '9')
  {
    var a: nat, b: nat :| NumberParts(s, i, a, b, j);
  }

  lemma WordStarts(s: string, i: nat, j: nat, word: string)
    requires WordAt(s, i, j, word) && word != []
    ensures i < |s| && s[i] == word[0]
  {
    assert s[i + 0] == word[0];
  }

  lemma SpellsStart(s: string, i: nat, j: nat, v: Json)
    requires Spells(s, i, j, v)
    ensures Starts(s, i)
  {
    match v
    case JNull => WordStarts(s, i, j, "null");
    case JBool(b) => WordStarts(s, i, j, if b then "true" else "false");
    case JNumber(_) => LexemeStarts(s, i, j);
    case _ =>
  }

  lemma LexemeStarts(s: string, i: nat, j: nat)
    requires NumberAt(s, i, j) || WordAt(s, i, j, "NaN") || WordAt(s, i, j, "Infinity") || WordAt(s, i, j, "-Infinity")
    ensures Starts(s, i) && s[i] != '"' && s[i] != '{' && s[i] != '['
  {
    if NumberAt(s, i, j) { NumberStarts(s, i, j); }
    else if WordAt(s, i, j, "NaN") { WordStarts(s, i, j, "NaN"); }
    else if WordAt(s, i, j, "Infinity") { WordStarts(s, i, j, "Infinity"); }
    else { WordStarts(s, i, j, "-Infinity"); }
  }

  lemma NumberReads(s: string, i: nat, j: nat)
    requires NumberAt(s, i, j) && Ends(s, j)
    ensures i < j <= |s| && Value(s, i) == At(JNumber(s[i..j]), j)
  {
    NumberStarts(s, i, j);
    NumberIsComplete(s, i, j);
    ScalarValue(s, i);
    NumberScalar(s, i, j);
  }

  lemma WordReads(s: string, i: nat, j: nat, word: string, v: Json)
    requires WordAt(s, i, j, word)
    requires || (word == "null" && v == JNull) || (word == "true" && v == JBool(true)) ||
             (word == "false" && v == JBool(false))
             || (word == "NaN" && v == JNumber(word)) || (word == "Infinity" && v == JNumber(word))
    ensures i < |s| && Value(s, i) == At(v, j)
  {
    WordStarts(s, i, j, word);
    WordIs(s, i, j, word);
    ScalarValue(s, i);
  }

  lemma MinusInfinityReads(s: string, i: nat, j: nat)
    requires WordAt(s, i, j, "-Infinity")
    ensures i < |s| && Value(s, i) == At(JNumber("-Infinity"), j)
  {
    var word := "-Infinity";
    WordStarts(s, i, j, word);
    WordIs(s, i, j, word);
    ScalarValue(s, i);
    assert s[i + 1] == word[1] == 'I';
  }

  lemma LexemeReads(s: string, i: nat, j: nat)
    requires i <= j <= |s| && Ends(s, j)
    requires NumberAt(s, i, j) || WordAt(s, i, j, "NaN") || WordAt(s, i, j, "Infinity") || WordAt(s, i, j, "-Infinity")
    ensures i < |s| && Value(s, i) == At(JNumber(s[i..j]), j)
  {
    if NumberAt(s, i, j) {
      NumberReads(s, i, j);
    } else if WordAt(s, i, j, "NaN") {
      WordReads(s, i, j, "NaN", JNumber("NaN"));
      assert s[i..j] == "NaN";
    } else if WordAt(s, i, j, "Infinity") {
      WordReads(s, i, j, "Infinity", JNumber("Infinity"));
      assert s[i..j] == "Infinity";
    } else {
      MinusInfinityReads(s, i, j);
      assert s[i..j] == "-Infinity";
    }
  }

  lemma SpaceTo(s: string, i: nat, k: nat)
    requires White(s, i, k) && (k < |s| ==> !WhiteChar(s[k]))
    ensures SkipSpace(s, i) == k
  {
    SpaceIs(s, i, k);
  }

  // A stretch that spells a value is read as that value, unless a number goes on behind it.
  lemma {:induction false} ValueIsComplete(s: string, i: nat, v: Json, e: nat)
    requires Spells(s, i, e, v) && (v.JNumber? ==> Ends(s, e))
    ensures Value(s, i) == At(v, e)
    decreases v, 2
  {
    match v
    case JNull => WordReads(s, i, e, "null", v);
    case JBool(b) => WordReads(s, i, e, if b then "true" else "false", v);
    case JNumber(_) => LexemeReads(s, i, e);
    case JString(text) =>
      QuotedIs(s, i, text, e);
      StringValue(s, i);
    case JArray(items) =>
      var k: nat :| White(s, i + 1, k) && ItemsAt(s, k, e, items);
      ArrayIsComplete(s, i + 1, k, items, e);
      ArrayValue(s, i);
    case JObject(members) =>
      var k: nat :| White(s, i + 1, k) && MembersAt(s, k, e, members);
      ObjectIsComplete(s, i + 1, k, members, e);
      ObjectValue(s, i);
  }

  lemma {:induction false} ArrayIsComplete(s: string, i: nat, k: nat, items: seq<Json>, e: nat)
    requires White(s, i, k) && ItemsAt(s, k, e, items)
    ensures ArrayBody(s, i) == At(items, e)
    decreases items, 1
  {
    if items == [] {
      SpaceTo(s, i, k);
    } else {
      ItemsAreComplete(s, k, items, e);
      ItemsStart(s, k, e, items);
      SpaceTo(s, i, k);
    }
  }

  lemma ItemsStart(s: string, k: nat, e: nat, items: seq<Json>)
    requires items != [] && ItemsAt(s, k, e, items)
    ensures Starts(s, k)
  {
    var a: nat, b: nat :| Spells(s, k, a, items[0]) && White(s, a, b) && MoreItemsAt(s, b, e, items[1..]);
    SpellsStart(s, k, a, items[0]);
  }

  lemma {:induction false} ItemsAreComplete(s: string, i: nat, items: seq<Json>, e: nat)
    requires items != [] && ItemsAt(s, i, e, items)
    ensures i <= |s| && Elements(s, i) == At(items, e)
    decreases items, 0
  {
    var a: nat, b: nat :| Spells(s, i, a, items[0]) && White(s, a, b) && MoreItemsAt(s, b, e, items[1..]);
    MoreItemsEnd(s, a, b, e, items[1..]);
    ValueIsComplete(s, i, items[0], a);
    MoreItemsAreComplete(s, a, b, items, e);
    JoinElements(s, i, items[0], a, items[1..], e);
    assert items == [items[0]] + items[1..];
  }

  lemma MoreItemsEnd(s: string, a: nat, b: nat, e: nat, items: seq<Json>)
    requires White(s, a, b) && MoreItemsAt(s, b, e, items)
    ensures Ends(s, a) && b < |s| && (s[b] == ']' || s[b] == ',')
  {
    if a < b { assert WhiteChar(s[a]); }
  }

  lemma CloseReads(s: string, a: nat, b: nat, e: nat, close: char)
    requires White(s, a, b) && ClosesAt(s, b, e, close) && (close == ']' || close == '}')
    ensures a <= |s| && SeparatorAt(s, a, close) == Close(e)
  {
    SpaceTo(s, a, b);
  }

  lemma CommaReads(s: string, a: nat, b: nat, k: nat, close: char)
    requires White(s, a, b) && b < |s| && s[b] == ',' && White(s, b + 1, k) && Starts(s, k)
    requires close == ']' || close == '}'
    ensures a <= |s| && SeparatorAt(s, a, close) == Comma(k)
  {
    SpaceTo(s, a, b);
    SpaceTo(s, b + 1, k);
  }

  lemma {:induction false} MoreItemsAreComplete(s: string, a: nat, b: nat, items: seq<Json>, e: nat)
    requires items != [] && White(s, a, b) && MoreItemsAt(s, b, e, items[1..])
    ensures a <= |s| && MoreElements(s, a) == At(items[1..], e)
    decreases items[1..], 1
  {
    var rest := items[1..];
    if rest == [] {
      CloseReads(s, a, b, e, ']');
      ElementsClose(s, a, e);
    } else {
      var k: nat :| White(s, b + 1, k) && ItemsAt(s, k, e, rest);
      ItemsStart(s, k, e, rest);
      CommaReads(s, a, b, k, ']');
      ItemsAreComplete(s, k, rest, e);
      ElementsAfterComma(s, a, k);
    }
  }

  lemma KeyIsComplete(s: string, i: nat, a: nat, key: seq<CodePoint>)
    requires KeySpells(s, i, a, key) && (a < |s| ==> !WhiteChar(s[a]))
    ensures i <= |s| && KeyAt(s, i) == At(key, a)
  {
    var e: nat, c: nat :| QuotedAt(s, i, e, key) && White(s, e, c) && c < |s| && s[c] == ':' && White(s, c + 1, a);
    QuotedIs(s, i, key, e);
    SpaceTo(s, e, c);
    SpaceTo(s, c + 1, a);
  }

  lemma {:induction false} ObjectIsComplete(s: string, i: nat, k: nat, members: seq<(seq<CodePoint>, Json)>, e: nat)
    requires White(s, i, k) && MembersAt(s, k, e, members)
    ensures ObjectBody(s, i) == At(members, e)
    decreases members, 1
  {
    if members == [] {
      SpaceTo(s, i, k);
    } else {
      MembersAreComplete(s, k, members, e);
      MembersStart(s, k, e, members);
      SpaceTo(s, i, k);
    }
  }

  lemma MembersStart(s: string, k: nat, e: nat, members: seq<(seq<CodePoint>, Json)>)
    requires members != [] && MembersAt(s, k, e, members)
    ensures k < |s| && s[k] == '"' && Starts(s, k)
  {
    var a: nat, b: nat :| MemberAt(s, k, a, members[0]) && White(s, a, b) && MoreMembersAt(s, b, e, members[1..]);
    var c: nat :| KeySpells(s, k, c, members[0].0) && Spells(s, c, a, members[0].1);
  }

  lemma {:induction false} MembersAreComplete(s: string, i: nat, members: seq<(seq<CodePoint>, Json)>, e: nat)
    requires members != [] && MembersAt(s, i, e, members)
    ensures i <= |s| && Members(s, i) == At(members, e)
    decreases members, 0
  {
    var m := members[0];
    var x: nat, b: nat :| MemberAt(s, i, x, m) && White(s, x, b) && MoreMembersAt(s, b, e, members[1..]);
    MoreMembersEnd(s, x, b, e, members[1..]);
    var a := MemberIsComplete(s, i, x, m);
    MoreMembersAreComplete(s, x, b, members, e);
    JoinMembers(s, i, m.0, a, m.1, x, members[1..], e);
    assert members == [(m.0, m.1)] + members[1..];
  }

  lemma {:induction false} MemberIsComplete(s: string, i: nat, x: nat, m: (seq<CodePoint>, Json)) returns (a: nat)
    requires MemberAt(s, i, x, m) && Ends(s, x)
    ensures i <= |s| && KeyAt(s, i) == At(m.0, a) && Value(s, a) == At(m.1, x)
    decreases m, 0
  {
    a :| KeySpells(s, i, a, m.0) && Spells(s, a, x, m.1);
    SpellsStart(s, a, x, m.1);
    KeyIsComplete(s, i, a, m.0);
    ValueIsComplete(s, a, m.1, x);
  }

  lemma MoreMembersEnd(s: string, a: nat, b: nat, e: nat, members: seq<(seq<CodePoint>, Json)>)
    requires White(s, a, b) && MoreMembersAt(s, b, e, members)
    ensures Ends(s, a) && b < |s| && (s[b] == '}' || s[b] == ',')
  {
    if a < b { assert WhiteChar(s[a]); }
  }

  lemma {:induction false} MoreMembersAreComplete(s: string, a: nat, b: nat, members: seq<(seq<CodePoint>, Json)>,
                                                  e: nat)
    requires members != [] && White(s, a, b) && MoreMembersAt(s, b, e, members[1..])
    ensures a <= |s| && MoreMembers(s, a) == At(members[1..], e)
    decreases members[1..], 1
  {
    var rest := members[1..];
    if rest == [] {
      CloseReads(s, a, b, e, '}');
      MembersClose(s, a, e);
    } else {
      var k: nat :| White(s, b + 1, k) && MembersAt(s, k, e, rest);
      MembersStart(s, k, e, rest);
      CommaReads(s, a, b, k, '}');
      MembersAreComplete(s, k, rest, e);
      MembersAfterComma(s, a, k);
    }
  }

  // json.loads answers v exactly for the texts that spell v, with any white space around it and
  // between any two of its tokens.
  ghost predicate DocumentOf(s: string, v: Json)
  {
    exists i: nat, e: nat :: White(s, 0, i) && Spells(s, i, e, v) && White(s, e, |s|)
  }

  lemma LoadsIff(s: string, v: Json)
    ensures Loads(s) == Some(v) <==> DocumentOf(s, v)
  {
    if Loads(s) == Some(v) {
      var i := SkipSpace(s, 0);
      var e := Value(s, i).end;
      SpaceIs(s, 0, i);
      SpaceIs(s, e, |s|);
      ValueIsSound(s, i, v, e);
    } else if DocumentOf(s, v) {
      var i: nat, e: nat :| White(s, 0, i) && Spells(s, i, e, v) && White(s, e, |s|);
      SpellsStart(s, i, e, v);
      SpaceTo(s, 0, i);
      SpaceTo(s, e, |s|);
      if e < |s| { assert WhiteChar(s[e]); }
      ValueIsComplete(s, i, v, e);
    }
  }
}
