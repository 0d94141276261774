// The decoder behind json.loads, over character positions (RFC 8259, sections 3 to 7,
// with the NaN and Infinity literals CPython also reads).
module JsonText {
  import opened Options

  type CodePoint = n: int | 0 <= n < 0x110000

  // A number is kept as its lexeme, so that no rounding enters the model. An object keeps its
  // members in the order of the text, as the decoder collects them before building the dict.
  datatype Json =
    | JNull
    | JBool(b: bool)
    | JNumber(lexeme: string)
    | JString(text: seq<CodePoint>)
    | JArray(items: seq<Json>)
    | JObject(members: seq<(seq<CodePoint>, Json)>)

  // The outcome of reading at a position: a value and the position after it.
  datatype Parsed<+T> = Fail | At(value: T, end: nat)

  predicate JsonSpace(c: char) { c == ' ' || c == '\t' || c == '\n' || c == '\r' }

  predicate Digit(c: char) { '0' <= c <= '9' }

  function SkipSpace(s: string, i: nat): (j: nat)
    requires i <= |s|
    ensures i <= j <= |s|
    ensures j < |s| ==> !JsonSpace(s[j])
    decreases |s| - i
  {
    if i < |s| && JsonSpace(s[i]) then SkipSpace(s, i + 1) else i
  }

  function DigitsEnd(s: string, i: nat): (j: nat)
    requires i <= |s|
    ensures i <= j <= |s|
    ensures j < |s| ==> !Digit(s[j])
    decreases |s| - i
  {
    if i < |s| && Digit(s[i]) then DigitsEnd(s, i + 1) else i
  }

  function FractionEnd(s: string, i: nat): (j: nat)
    requires i <= |s|
    ensures i <= j <= |s|
  {
    if i + 1 < |s| && s[i] == '.' && Digit(s[i + 1]) then DigitsEnd(s, i + 1) else i
  }

  function ExponentEnd(s: string, i: nat): (j: nat)
    requires i <= |s|
    ensures i <= j <= |s|
  {
    if i < |s| && (s[i] == 'e' || s[i] == 'E') then
      var d := if i + 1 < |s| && (s[i + 1] == '+' || s[i + 1] == '-') then i + 2 else i + 1;
      if d < |s| && Digit(s[d]) then DigitsEnd(s, d) else i
    else i
  }

  function IntegerEnd(s: string, i: nat): (r: Option<nat>)
    requires i <= |s|
    ensures r.Some? ==> i < r.value <= |s|
  {
    var a := if i < |s| && s[i] == '-' then i + 1 else i;
    if a < |s| && s[a] == '0' then Some(a + 1)
    else if a < |s| && Digit(s[a]) then Some(DigitsEnd(s, a))
    else None
  }

  function NumberEnd(s: string, i: nat): (r: Option<nat>)
    requires i <= |s|
    ensures r.Some? ==> i < r.value <= |s|
  {
    match IntegerEnd(s, i)
    case None => None
    case Some(a) => Some(ExponentEnd(s, FractionEnd(s, a)))
  }

  predicate LiteralAt(s: string, i: nat, word: string)
  {
    i + |word| <= |s| && s[i..i + |word|] == word
  }

  function HexDigit(c: char): (r: Option<int>)
    ensures r.Some? ==> 0 <= r.value < 16
  {
    if Digit(c) then Some(c as int - '0' as int)
    else if 'a' <= c <= 'f' then Some(c as int - 'a' as int + 10)
    else if 'A' <= c <= 'F' then Some(c as int - 'A' as int + 10)
    else None
  }

  function HexFour(s: string, i: nat): (r: Option<CodePoint>)
    ensures r.Some? ==> i + 4 <= |s| && r.value < 0x10000
  {
    if i + 4 > |s| then None else
    match (HexDigit(s[i]), HexDigit(s[i + 1]), HexDigit(s[i + 2]), HexDigit(s[i + 3]))
    case (Some(a), Some(b), Some(c), Some(d)) => Some(((a * 16 + b) * 16 + c) * 16 + d)
    case _ => None
  }

  predicate HighSurrogate(n: int) { 0xD800 <= n < 0xDC00 }

  predicate LowSurrogate(n: int) { 0xDC00 <= n < 0xE000 }

  // An escape whose backslash is at i. A high surrogate followed by a low one is one character.
  function Escape(s: string, i: nat): (r: Parsed<CodePoint>)
    requires i < |s| && s[i] == '\\'
    ensures r.At? ==> i + 2 <= r.end <= |s|
  {
    if i + 1 == |s| then Fail
    else if s[i + 1] == '"' || s[i + 1] == '\\' || s[i + 1] == '/' then At(s[i + 1] as int, i + 2)
    else if s[i + 1] == 'b' then At(8, i + 2)
    else if s[i + 1] == 'f' then At(12, i + 2)
    else if s[i + 1] == 'n' then At(10, i + 2)
    else if s[i + 1] == 'r' then At(13, i + 2)
    else if s[i + 1] == 't' then At(9, i + 2)
    else if s[i + 1] == 'u' then
      match HexFour(s, i + 2)
      case None => Fail
      case Some(n) =>
        if HighSurrogate(n) && i + 8 <= |s| && s[i + 6] == '\\' && s[i + 7] == 'u' then
          match HexFour(s, i + 8)
          case None => Fail
          case Some(m) =>
            if LowSurrogate(m) then At(0x10000 + (n - 0xD800) * 0x400 + (m - 0xDC00), i + 12)
            else At(n, i + 6)
        else At(n, i + 6)
    else Fail
  }

  // The body of a string from the position after its opening quote through its closing quote.
  function StringBody(s: string, i: nat): (r: Parsed<seq<CodePoint>>)
    requires i <= |s|
    ensures r.At? ==> i < r.end <= |s|
    decreases |s| - i
  {
    if i == |s| then Fail
    else if s[i] == '"' then At([], i + 1)
    else if s[i] == '\\' then
      match Escape(s, i)
      case Fail => Fail
      case At(c, j) =>
        (match StringBody(s, j)
         case Fail => Fail
         case At(rest, e) => At([c] + rest, e))
    else if s[i] < ' ' then Fail
    else
      match StringBody(s, i + 1)
      case Fail => Fail
      case At(rest, e) => At([s[i] as int] + rest, e)
  }

  // scan_once: one value starting exactly at i.
  function Value(s: string, i: nat): (r: Parsed<Json>)
    requires i <= |s|
    ensures r.At? ==> i < r.end <= |s|
    decreases |s| - i, 0
  {
    if i == |s| then Fail
    else if s[i] == '"' then
      match StringBody(s, i + 1)
      case Fail => Fail
      case At(t, e) => At(JString(t), e)
    else if s[i] == '{' then
      match ObjectBody(s, i + 1)
      case Fail => Fail
      case At(ms, e) => At(JObject(ms), e)
    else if s[i] == '[' then
      match ArrayBody(s, i + 1)
      case Fail => Fail
      case At(vs, e) => At(JArray(vs), e)
    else Scalar(s, i)
  }

  function Word(s: string, i: nat, word: string, v: Json): (r: Parsed<Json>)
    requires |word| > 0
    ensures r.At? ==> i < r.end <= |s|
  {
    if LiteralAt(s, i, word) then At(v, i + |word|) else Fail
  }

  function Scalar(s: string, i: nat): (r: Parsed<Json>)
    requires i < |s|
    ensures r.At? ==> i < r.end <= |s|
  {
    if s[i] == 'n' then Word(s, i, "null", JNull)
    else if s[i] == 't' then Word(s, i, "true", JBool(true))
    else if s[i] == 'f' then Word(s, i, "false", JBool(false))
    else if s[i] == 'N' then Word(s, i, "NaN", JNumber("NaN"))
    else if s[i] == 'I' then Word(s, i, "Infinity", JNumber("Infinity"))
    else
      match NumberEnd(s, i)
      case Some(e) => At(JNumber(s[i..e]), e)
      case None => if s[i] == '-' then Word(s, i, "-Infinity", JNumber("-Infinity")) else Fail
  }

  // What follows an element or a member: the closing bracket, or a comma and the next one.
  datatype Separator = NoSeparator | Close(end: nat) | Comma(next: nat)

  function SeparatorAt(s: string, e: nat, close: char): (r: Separator)
    requires e <= |s|
    ensures r.Close? ==> e < r.end <= |s|
    ensures r.Comma? ==> e < r.next <= |s|
  {
    var k := SkipSpace(s, e);
    if k < |s| && s[k] == close then Close(k + 1)
    else if k < |s| && s[k] == ',' then Comma(SkipSpace(s, k + 1))
    else NoSeparator
  }

  // An array from the position after its opening bracket through its closing one.
  function ArrayBody(s: string, i: nat): (r: Parsed<seq<Json>>)
    requires i <= |s|
    ensures r.At? ==> i < r.end <= |s|
    decreases |s| - i, 2
  {
    var j := SkipSpace(s, i);
    if j < |s| && s[j] == ']' then At([], j + 1) else Elements(s, j)
  }

  // The elements of an array from the first one through the closing bracket.
  function Elements(s: string, i: nat): (r: Parsed<seq<Json>>)
    requires i <= |s|
    ensures r.At? ==> i < r.end <= |s|
    decreases |s| - i, 1
  {
    match Value(s, i)
    case Fail => Fail
    case At(v, e) =>
      match MoreElements(s, e)
      case Fail => Fail
      case At(vs, end) => At([v] + vs, end)
  }

  function MoreElements(s: string, e: nat): (r: Parsed<seq<Json>>)
    requires e <= |s|
    ensures r.At? ==> e < r.end <= |s|
    decreases |s| - e, 1
  {
    match SeparatorAt(s, e, ']')
    case NoSeparator => Fail
    case Close(end) => At([], end)
    case Comma(next) => Elements(s, next)
  }

  // A key and its colon, through the white space before the value.
  function KeyAt(s: string, i: nat): (r: Parsed<seq<CodePoint>>)
    requires i <= |s|
    ensures r.At? ==> i < r.end <= |s|
  {
    if i == |s| || s[i] != '"' then Fail else
    match StringBody(s, i + 1)
    case Fail => Fail
    case At(key, e) =>
      var c := SkipSpace(s, e);
      if c < |s| && s[c] == ':' then At(key, SkipSpace(s, c + 1)) else Fail
  }

  // An object from the position after its opening brace through its closing one.
  function ObjectBody(s: string, i: nat): (r: Parsed<seq<(seq<CodePoint>, Json)>>)
    requires i <= |s|
    ensures r.At? ==> i < r.end <= |s|
    decreases |s| - i, 2
  {
    var j := SkipSpace(s, i);
    if j < |s| && s[j] == '}' then At([], j + 1) else Members(s, j)
  }

  // The members of an object from the first key's opening quote through the closing brace.
  function Members(s: string, i: nat): (r: Parsed<seq<(seq<CodePoint>, Json)>>)
    requires i <= |s|
    ensures r.At? ==> i < r.end <= |s|
    decreases |s| - i, 1
  {
    match KeyAt(s, i)
    case Fail => Fail
    case At(key, a) =>
      match Value(s, a)
      case Fail => Fail
      case At(v, e) =>
        match MoreMembers(s, e)
        case Fail => Fail
        case At(ms, end) => At([(key, v)] + ms, end)
  }

  function MoreMembers(s: string, e: nat): (r: Parsed<seq<(seq<CodePoint>, Json)>>)
    requires e <= |s|
    ensures r.At? ==> e < r.end <= |s|
    decreases |s| - e, 1
  {
    match SeparatorAt(s, e, '}')
    case NoSeparator => Fail
    case Close(end) => At([], end)
    case Comma(next) => Members(s, next)
  }

  // json.loads: one value with nothing but white space around it.
  function Loads(s: string): (r: Option<Json>)
  {
    match Value(s, SkipSpace(s, 0))
    case Fail => None
    case At(v, e) => if SkipSpace(s, e) == |s| then Some(v) else None
  }

  // ----- A reading depends on nothing outside the span it consumed -----

  // s[lo..hi] also stands in t, moved by d.
  predicate SameSpan(s: string, lo: nat, hi: nat, t: string, d: int)
  {
    lo <= hi <= |s| && 0 <= lo + d && hi + d <= |t| && forall k :: lo <= k < hi ==> t[k + d] == s[k]
  }

  lemma {:induction false} ShiftSpace(s: string, i: nat, lo: nat, hi: nat, t: string, d: int)
    requires SameSpan(s, lo, hi, t, d) && lo <= i <= |s| && SkipSpace(s, i) < hi
    ensures SkipSpace(t, i + d) == SkipSpace(s, i) + d
    decreases |s| - i
  {
    assert t[i + d] == s[i];
    if JsonSpace(s[i]) { ShiftSpace(s, i + 1, lo, hi, t, d); }
  }

  lemma {:induction false} ShiftDigits(s: string, i: nat, lo: nat, hi: nat, t: string, d: int)
    requires SameSpan(s, lo, hi, t, d) && lo <= i <= |s| && DigitsEnd(s, i) < hi
    ensures DigitsEnd(t, i + d) == DigitsEnd(s, i) + d
    decreases |s| - i
  {
    assert t[i + d] == s[i];
    if Digit(s[i]) { ShiftDigits(s, i + 1, lo, hi, t, d); }
  }

  // A character that no number can continue with.
  predicate Delimiter(c: char) { JsonSpace(c) || c == ',' || c == ']' || c == '}' }

  lemma ShiftInteger(s: string, i: nat, lo: nat, hi: nat, t: string, d: int)
    requires SameSpan(s, lo, hi, t, d) && lo <= i <= |s|
    requires IntegerEnd(s, i).Some? && IntegerEnd(s, i).value < hi
    ensures IntegerEnd(t, i + d) == Some(IntegerEnd(s, i).value + d)
  {
    var a := if s[i] == '-' then i + 1 else i;
    assert t[i + d] == s[i] && t[a + d] == s[a];
    if s[a] != '0' { ShiftDigits(s, a, lo, hi, t, d); }
  }

  lemma ShiftFraction(s: string, i: nat, lo: nat, hi: nat, t: string, d: int)
    requires SameSpan(s, lo, hi, t, d) && lo <= i <= |s| && FractionEnd(s, i) < hi
    requires s[i] == '.' ==> FractionEnd(s, i) != i
    ensures FractionEnd(t, i + d) == FractionEnd(s, i) + d
  {
    assert t[i + d] == s[i];
    if s[i] == '.' {
      assert t[i + 1 + d] == s[i + 1];
      ShiftDigits(s, i + 1, lo, hi, t, d);
    }
  }

  lemma ShiftExponent(s: string, i: nat, lo: nat, hi: nat, t: string, d: int)
    requires SameSpan(s, lo, hi, t, d) && lo <= i <= |s| && ExponentEnd(s, i) < hi
    requires s[i] == 'e' || s[i] == 'E' ==> ExponentEnd(s, i) != i
    ensures ExponentEnd(t, i + d) == ExponentEnd(s, i) + d
  {
    assert t[i + d] == s[i];
    if s[i] == 'e' || s[i] == 'E' {
      assert t[i + 1 + d] == s[i + 1];
      var x := if s[i + 1] == '+' || s[i + 1] == '-' then i + 2 else i + 1;
      assert t[x + d] == s[x];
      ShiftDigits(s, x, lo, hi, t, d);
    }
  }

  lemma ShiftNumber(s: string, i: nat, lo: nat, hi: nat, t: string, d: int)
    requires SameSpan(s, lo, hi, t, d) && lo <= i <= |s|
    requires NumberEnd(s, i).Some? && NumberEnd(s, i).value < hi && Delimiter(s[NumberEnd(s, i).value])
    ensures NumberEnd(t, i + d) == Some(NumberEnd(s, i).value + d)
  {
    var b := IntegerEnd(s, i).value;
    ShiftInteger(s, i, lo, hi, t, d);
    ShiftFraction(s, b, lo, hi, t, d);
    ShiftExponent(s, FractionEnd(s, b), lo, hi, t, d);
  }

  lemma ShiftWord(s: string, i: nat, lo: nat, hi: nat, t: string, d: int, word: string, v: Json)
    requires SameSpan(s, lo, hi, t, d) && lo <= i && i + |word| <= hi
    requires |word| > 0 && Word(s, i, word, v).At?
    ensures Word(t, i + d, word, v) == At(v, i + |word| + d)
  {
    assert s[i..i + |word|] == t[i + d..i + d + |word|];
  }

  lemma ShiftHexFour(s: string, i: nat, lo: nat, hi: nat, t: string, d: int)
    requires SameSpan(s, lo, hi, t, d) && lo <= i && i + 4 <= hi
    ensures HexFour(t, i + d) == HexFour(s, i)
  {
    assert t[i + d] == s[i] && t[i + 1 + d] == s[i + 1] && t[i + 2 + d] == s[i + 2] && t[i + 3 + d] == s[i + 3];
  }

  lemma ShiftUnicodeEscape(s: string, i: nat, lo: nat, hi: nat, t: string, d: int)
    requires SameSpan(s, lo, hi, t, d) && lo <= i && i + 6 < hi && s[i] == '\\' && s[i + 1] == 'u' && Escape(s, i).At?
    requires s[i + 6] == '\\' ==> i + 7 < hi && (s[i + 7] == 'u' ==> i + 12 <= hi)
    ensures t[i + d] == '\\' && Escape(t, i + d) == At(Escape(s, i).value, Escape(s, i).end + d)
  {
    assert t[i + d] == s[i] && t[i + 1 + d] == s[i + 1] && t[i + 6 + d] == s[i + 6];
    ShiftHexFour(s, i + 2, lo, hi, t, d);
    if s[i + 6] == '\\' {
      assert t[i + 7 + d] == s[i + 7];
      if s[i + 7] == 'u' { ShiftHexFour(s, i + 8, lo, hi, t, d); }
    }
  }

  lemma UnicodeEscapeEnds(s: string, i: nat)
    requires i < |s| && s[i] == '\\' && Escape(s, i).At? && s[i + 1] == 'u'
    ensures Escape(s, i).end == i + 6 || (Escape(s, i).end == i + 12 && s[i + 6] == '\\' && s[i + 7] == 'u')
  {
  }

  lemma ShiftEscape(s: string, i: nat, lo: nat, hi: nat, t: string, d: int)
    requires SameSpan(s, lo, hi, t, d) && lo <= i < |s| && s[i] == '\\'
    requires Escape(s, i).At? && Escape(s, i).end < hi
    requires s[Escape(s, i).end] == '\\' ==>
      Escape(s, i).end + 1 < hi && (s[Escape(s, i).end + 1] == 'u' ==> Escape(s, i).end + 6 <= hi)
    ensures t[i + d] == '\\' && Escape(t, i + d) == At(Escape(s, i).value, Escape(s, i).end + d)
  {
    assert t[i + d] == s[i] && t[i + 1 + d] == s[i + 1];
    if s[i + 1] == 'u' {
      UnicodeEscapeEnds(s, i);
      ShiftUnicodeEscape(s, i, lo, hi, t, d);
    }
  }

  // An escape inside a string that closes leaves room for all of its own characters.
  lemma EscapeRoom(s: string, i: nat)
    requires i < |s| && s[i] == '\\' && StringBody(s, i).At?
    ensures Escape(s, i).At? && i + 2 < StringBody(s, i).end
    ensures s[i + 1] == 'u' ==> i + 6 < StringBody(s, i).end
  {
    assert StringBody(s, Escape(s, i).end).At?;
  }

  lemma {:induction false} ShiftString(s: string, i: nat, lo: nat, hi: nat, t: string, d: int)
    requires SameSpan(s, lo, hi, t, d) && lo <= i <= |s|
    requires StringBody(s, i).At? && StringBody(s, i).end <= hi
    ensures StringBody(t, i + d) == At(StringBody(s, i).value, StringBody(s, i).end + d)
    decreases |s| - i
  {
    assert t[i + d] == s[i];
    if s[i] == '"' {
    } else if s[i] == '\\' {
      EscapeRoom(s, i);
      var e := Escape(s, i).end;
      if s[e] == '\\' { EscapeRoom(s, e); }
      ShiftEscape(s, i, lo, hi, t, d);
      ShiftString(s, e, lo, hi, t, d);
    } else {
      ShiftString(s, i + 1, lo, hi, t, d);
    }
  }

  // A number is complete only when a character follows it that it cannot continue with.
  predicate Closed(v: Json, s: string, e: nat, hi: nat)
  {
    v.JNumber? ==> e < hi <= |s| && Delimiter(s[e])
  }

  lemma ShiftNumberLexeme(s: string, i: nat, e: nat, lo: nat, hi: nat, t: string, d: int)
    requires SameSpan(s, lo, hi, t, d) && lo <= i < e < hi && Delimiter(s[e]) && NumberEnd(s, i) == Some(e)
    ensures NumberEnd(t, i + d) == Some(e + d) && t[i + d..e + d] == s[i..e]
  {
    ShiftNumber(s, i, lo, hi, t, d);
    forall k | 0 <= k < e - i ensures t[i + d..e + d][k] == s[i..e][k] { assert t[i + k + d] == s[i + k]; }
  }

  predicate OpensWord(c: char) { c == 'n' || c == 't' || c == 'f' || c == 'N' || c == 'I' }

  lemma NumberScalar(s: string, i: nat, e: nat)
    requires i < e <= |s| && !OpensWord(s[i]) && NumberEnd(s, i) == Some(e)
    ensures Scalar(s, i) == At(JNumber(s[i..e]), e)
  {
  }

  lemma ShiftWordScalar(s: string, i: nat, lo: nat, hi: nat, t: string, d: int)
    requires SameSpan(s, lo, hi, t, d) && lo <= i < |s| && OpensWord(s[i])
    requires Scalar(s, i).At? && Scalar(s, i).end <= hi
    ensures Scalar(t, i + d) == At(Scalar(s, i).value, Scalar(s, i).end + d)
  {
    assert t[i + d] == s[i];
    if s[i] == 'n' { ShiftWord(s, i, lo, hi, t, d, "null", JNull); }
    else if s[i] == 't' { ShiftWord(s, i, lo, hi, t, d, "true", JBool(true)); }
    else if s[i] == 'f' { ShiftWord(s, i, lo, hi, t, d, "false", JBool(false)); }
    else if s[i] == 'N' { ShiftWord(s, i, lo, hi, t, d, "NaN", JNumber("NaN")); }
    else { ShiftWord(s, i, lo, hi, t, d, "Infinity", JNumber("Infinity")); }
  }

  lemma ShiftScalar(s: string, i: nat, lo: nat, hi: nat, t: string, d: int)
    requires SameSpan(s, lo, hi, t, d) && lo <= i < |s|
    requires Scalar(s, i).At? && Scalar(s, i).end <= hi && Closed(Scalar(s, i).value, s, Scalar(s, i).end, hi)
    ensures Scalar(t, i + d) == At(Scalar(s, i).value, Scalar(s, i).end + d)
  {
    assert t[i + d] == s[i];
    if OpensWord(s[i]) {
      ShiftWordScalar(s, i, lo, hi, t, d);
    } else if NumberEnd(s, i).Some? {
      var e := NumberEnd(s, i).value;
      NumberScalar(s, i, e);
      ShiftNumberLexeme(s, i, e, lo, hi, t, d);
      NumberScalar(t, i + d, e + d);
    } else {
      ShiftMinusInfinity(s, i, lo, hi, t, d);
    }
  }

  lemma ShiftMinusInfinity(s: string, i: nat, lo: nat, hi: nat, t: string, d: int)
    requires SameSpan(s, lo, hi, t, d) && lo <= i < |s| && s[i] == '-' && NumberEnd(s, i).None?
    requires Scalar(s, i).At? && Scalar(s, i).end <= hi
    ensures Scalar(t, i + d) == At(Scalar(s, i).value, Scalar(s, i).end + d)
  {
    assert t[i + d] == s[i];
    ShiftWord(s, i, lo, hi, t, d, "-Infinity", JNumber("-Infinity"));
    assert "-Infinity"[1] == 'I' && s[i + 1] == s[i..i + 9][1] && t[i + 1 + d] == s[i + 1];
  }

  lemma ShiftValue(s: string, i: nat, lo: nat, hi: nat, t: string, d: int)
    requires SameSpan(s, lo, hi, t, d) && lo <= i <= |s|
    requires Value(s, i).At? && Value(s, i).end <= hi && Closed(Value(s, i).value, s, Value(s, i).end, hi)
    ensures Value(t, i + d) == At(Value(s, i).value, Value(s, i).end + d)
  {
    var At(v, end) := Value(s, i);
    MoveValue(s, i, v, end, lo, hi, t, i + d, end + d);
  }

  lemma StringValue(s: string, i: nat)
    requires i < |s| && s[i] == '"'
    ensures Value(s, i) == match StringBody(s, i + 1) case Fail => Fail case At(t, e) => At(JString(t), e)
  {
  }

  lemma ObjectValue(s: string, i: nat)
    requires i < |s| && s[i] == '{'
    ensures Value(s, i) == match ObjectBody(s, i + 1) case Fail => Fail case At(ms, e) => At(JObject(ms), e)
  {
  }

  lemma ArrayValue(s: string, i: nat)
    requires i < |s| && s[i] == '['
    ensures Value(s, i) == match ArrayBody(s, i + 1) case Fail => Fail case At(vs, e) => At(JArray(vs), e)
  {
  }

  lemma ScalarValue(s: string, i: nat)
    requires i < |s| && s[i] != '"' && s[i] != '{' && s[i] != '['
    ensures Value(s, i) == Scalar(s, i)
  {
  }

  lemma MoveString(s: string, i: nat, text: seq<CodePoint>, end: nat, lo: nat, hi: nat, t: string, i': nat, end': nat)
    requires SameSpan(s, lo, hi, t, i' - i) && lo <= i <= |s| && end <= hi && end' - end == i' - i
    requires StringBody(s, i) == At(text, end)
    ensures StringBody(t, i') == At(text, end')
  {
    ShiftString(s, i, lo, hi, t, i' - i);
  }

  lemma MoveScalar(s: string, i: nat, v: Json, end: nat, lo: nat, hi: nat, t: string, i': nat, end': nat)
    requires SameSpan(s, lo, hi, t, i' - i) && lo <= i < end <= hi && end' - end == i' - i
    requires Scalar(s, i) == At(v, end) && Closed(v, s, end, hi)
    ensures t[i'] == s[i] && Scalar(t, i') == At(v, end')
  {
    ShiftScalar(s, i, lo, hi, t, i' - i);
    assert t[i'] == s[i];
  }

  // The same with the positions in t by name: i' and end' are where i and end stand there.
  lemma {:induction false} MoveValue(s: string, i: nat, v: Json, end: nat, lo: nat, hi: nat,
                                     t: string, i': nat, end': nat)
    requires SameSpan(s, lo, hi, t, i' - i) && lo <= i <= |s| && end <= hi && end' - end == i' - i
    requires Value(s, i) == At(v, end) && Closed(v, s, end, hi)
    ensures Value(t, i') == At(v, end')
    decreases |s| - i, 0
  {
    assert t[i'] == s[i];
    if s[i] == '{' {
      ObjectValue(s, i);
      MoveObject(s, i + 1, v.members, end, lo, hi, t, i' + 1, end');
      ObjectValue(t, i');
    } else if s[i] == '[' {
      ArrayValue(s, i);
      MoveArray(s, i + 1, v.items, end, lo, hi, t, i' + 1, end');
      ArrayValue(t, i');
    } else if s[i] == '"' {
      StringValue(s, i);
      MoveString(s, i + 1, v.text, end, lo, hi, t, i' + 1, end');
      StringValue(t, i');
    } else {
      ScalarValue(s, i);
      MoveScalar(s, i, v, end, lo, hi, t, i', end');
      ScalarValue(t, i');
    }
  }

  lemma {:induction false} MoveObject(s: string, i: nat, ms: seq<(seq<CodePoint>, Json)>, end: nat, lo: nat, hi: nat,
                                     t: string, i': nat, end': nat)
    requires SameSpan(s, lo, hi, t, i' - i) && lo <= i <= |s| && end <= hi && end' - end == i' - i
    requires ObjectBody(s, i) == At(ms, end)
    ensures ObjectBody(t, i') == At(ms, end')
    decreases |s| - i, 2
  {
    var j := SkipSpace(s, i);
    var j' := j + (i' - i);
    ShiftSpace(s, i, lo, hi, t, i' - i);
    assert t[j'] == s[j];
    if s[j] != '}' { MoveMembers(s, j, ms, end, lo, hi, t, j', end'); }
  }

  lemma {:induction false} MoveArray(s: string, i: nat, vs: seq<Json>, end: nat, lo: nat, hi: nat,
                                     t: string, i': nat, end': nat)
    requires SameSpan(s, lo, hi, t, i' - i) && lo <= i <= |s| && end <= hi && end' - end == i' - i
    requires ArrayBody(s, i) == At(vs, end)
    ensures ArrayBody(t, i') == At(vs, end')
    decreases |s| - i, 2
  {
    var j := SkipSpace(s, i);
    var j' := j + (i' - i);
    ShiftSpace(s, i, lo, hi, t, i' - i);
    assert t[j'] == s[j];
    if s[j] != ']' { MoveElements(s, j, vs, end, lo, hi, t, j', end'); }
  }

  lemma MoveClose(s: string, e: nat, close: char, end: nat, lo: nat, hi: nat, t: string, e': nat, end': nat)
    requires SameSpan(s, lo, hi, t, e' - e) && lo <= e <= |s| && end <= hi && end' - end == e' - e
    requires SeparatorAt(s, e, close) == Close(end)
    ensures SeparatorAt(t, e', close) == Close(end')
  {
    ShiftSpace(s, e, lo, hi, t, e' - e);
    assert t[SkipSpace(s, e) + (e' - e)] == s[SkipSpace(s, e)];
  }

  lemma MoveComma(s: string, e: nat, close: char, next: nat, lo: nat, hi: nat, t: string, e': nat, next': nat)
    requires SameSpan(s, lo, hi, t, e' - e) && lo <= e <= |s| && next < hi && next' - next == e' - e
    requires SeparatorAt(s, e, close) == Comma(next)
    ensures SeparatorAt(t, e', close) == Comma(next')
  {
    var k := SkipSpace(s, e);
    ShiftSpace(s, e, lo, hi, t, e' - e);
    assert t[k + (e' - e)] == s[k];
    ShiftSpace(s, k + 1, lo, hi, t, e' - e);
  }

  // A value before a separator is closed, whatever it is.
  lemma SeparatorCloses(v: Json, s: string, e: nat, close: char, hi: nat)
    requires e < hi <= |s| && !SeparatorAt(s, e, close).NoSeparator? && (close == ']' || close == '}')
    ensures Closed(v, s, e, hi)
  {
  }

  lemma SplitElements(s: string, i: nat, vs: seq<Json>, end: nat)
    requires i <= |s| && Elements(s, i) == At(vs, end)
    ensures vs != [] && Value(s, i).At? && Value(s, i).value == vs[0]
    ensures MoreElements(s, Value(s, i).end) == At(vs[1..], end)
    ensures !SeparatorAt(s, Value(s, i).end, ']').NoSeparator?
  {
  }

  lemma JoinElements(s: string, i: nat, v: Json, e: nat, vs: seq<Json>, end: nat)
    requires i <= |s| && Value(s, i) == At(v, e) && MoreElements(s, e) == At(vs, end)
    ensures Elements(s, i) == At([v] + vs, end)
  {
  }

  lemma ElementsClose(s: string, e: nat, end: nat)
    requires e <= |s| && SeparatorAt(s, e, ']') == Close(end)
    ensures MoreElements(s, e) == At([], end)
  {
  }

  lemma ElementsAfterComma(s: string, e: nat, next: nat)
    requires e <= |s| && SeparatorAt(s, e, ']') == Comma(next)
    ensures MoreElements(s, e) == Elements(s, next)
  {
  }

  lemma {:induction false} MoveElements(s: string, i: nat, vs: seq<Json>, end: nat, lo: nat, hi: nat,
                                     t: string, i': nat, end': nat)
    requires SameSpan(s, lo, hi, t, i' - i) && lo <= i <= |s| && end <= hi && end' - end == i' - i
    requires Elements(s, i) == At(vs, end)
    ensures Elements(t, i') == At(vs, end')
    decreases |s| - i, 1
  {
    SplitElements(s, i, vs, end);
    var At(v, e) := Value(s, i);
    var e' := e + (i' - i);
    SeparatorCloses(v, s, e, ']', hi);
    MoveValue(s, i, v, e, lo, hi, t, i', e');
    MoveMoreElements(s, e, vs[1..], end, lo, hi, t, e', end');
    JoinElements(t, i', v, e', vs[1..], end');
  }

  lemma {:induction false} MoveMoreElements(s: string, e: nat, vs: seq<Json>, end: nat, lo: nat, hi: nat,
                                     t: string, e': nat, end': nat)
    requires SameSpan(s, lo, hi, t, e' - e) && lo <= e <= |s| && end <= hi && end' - end == e' - e
    requires MoreElements(s, e) == At(vs, end)
    ensures MoreElements(t, e') == At(vs, end')
    decreases |s| - e, 1
  {
    match SeparatorAt(s, e, ']')
    case NoSeparator =>
    case Close(c) =>
      ElementsClose(s, e, c);
      MoveClose(s, e, ']', c, lo, hi, t, e', end');
      ElementsClose(t, e', end');
    case Comma(next) =>
      var next' := next + (e' - e);
      ElementsAfterComma(s, e, next);
      MoveComma(s, e, ']', next, lo, hi, t, e', next');
      MoveElements(s, next, vs, end, lo, hi, t, next', end');
      ElementsAfterComma(t, e', next');
  }

  // The colon behind a key, from the key's end e.
  lemma MoveColon(s: string, e: nat, a: nat, lo: nat, hi: nat, t: string, e': nat, a': nat)
    requires SameSpan(s, lo, hi, t, e' - e) && lo <= e <= |s| && a < hi && a' - a == e' - e
    requires SkipSpace(s, e) < |s| && s[SkipSpace(s, e)] == ':' && SkipSpace(s, SkipSpace(s, e) + 1) == a
    ensures SkipSpace(t, e') < |t| && t[SkipSpace(t, e')] == ':' && SkipSpace(t, SkipSpace(t, e') + 1) == a'
  {
    var c := SkipSpace(s, e);
    ShiftSpace(s, e, lo, hi, t, e' - e);
    assert t[c + (e' - e)] == s[c];
    ShiftSpace(s, c + 1, lo, hi, t, e' - e);
  }

  lemma MoveKey(s: string, i: nat, key: seq<CodePoint>, a: nat, lo: nat, hi: nat, t: string, i': nat, a': nat)
    requires SameSpan(s, lo, hi, t, i' - i) && lo <= i <= |s| && a < hi && a' - a == i' - i && KeyAt(s, i) == At(key, a)
    ensures KeyAt(t, i') == At(key, a')
  {
    var e := StringBody(s, i + 1).end;
    var e' := e + (i' - i);
    assert t[i'] == s[i];
    MoveString(s, i + 1, key, e, lo, hi, t, i' + 1, e');
    MoveColon(s, e, a, lo, hi, t, e', a');
  }

  lemma SplitMembers(s: string, i: nat, ms: seq<(seq<CodePoint>, Json)>, end: nat)
    requires i <= |s| && Members(s, i) == At(ms, end)
    ensures KeyAt(s, i).At? && Value(s, KeyAt(s, i).end).At?
    ensures var e := Value(s, KeyAt(s, i).end).end;
            ms != [] && ms[0] == (KeyAt(s, i).value, Value(s, KeyAt(s, i).end).value)
            && MoreMembers(s, e) == At(ms[1..], end) && !SeparatorAt(s, e, '}').NoSeparator?
  {
  }

  lemma JoinMembers(s: string, i: nat, key: seq<CodePoint>, a: nat, v: Json, e: nat,
                    ms: seq<(seq<CodePoint>, Json)>, end: nat)
    requires i <= |s| && KeyAt(s, i) == At(key, a) && Value(s, a) == At(v, e) && MoreMembers(s, e) == At(ms, end)
    ensures Members(s, i) == At([(key, v)] + ms, end)
  {
  }

  lemma MembersClose(s: string, e: nat, end: nat)
    requires e <= |s| && SeparatorAt(s, e, '}') == Close(end)
    ensures MoreMembers(s, e) == At([], end)
  {
  }

  lemma MembersAfterComma(s: string, e: nat, next: nat)
    requires e <= |s| && SeparatorAt(s, e, '}') == Comma(next)
    ensures MoreMembers(s, e) == Members(s, next)
  {
  }

  lemma {:induction false} MoveMembers(s: string, i: nat, ms: seq<(seq<CodePoint>, Json)>, end: nat, lo: nat, hi: nat,
                                     t: string, i': nat, end': nat)
    requires SameSpan(s, lo, hi, t, i' - i) && lo <= i <= |s| && end <= hi && end' - end == i' - i
    requires Members(s, i) == At(ms, end)
    ensures Members(t, i') == At(ms, end')
    decreases |s| - i, 1
  {
    SplitMembers(s, i, ms, end);
    var At(key, a) := KeyAt(s, i);
    var At(v, e) := Value(s, a);
    MoveMember(s, i, key, a, v, e, ms[1..], end, lo, hi, t, i', a + (i' - i), e + (i' - i), end');
  }

  lemma {:induction false} MoveMember(s: string, i: nat, key: seq<CodePoint>, a: nat, v: Json, e: nat,
                                      ms: seq<(seq<CodePoint>, Json)>, end: nat, lo: nat, hi: nat,
                                      t: string, i': nat, a': nat, e': nat, end': nat)
    requires SameSpan(s, lo, hi, t, i' - i) && lo <= i < a < e < end <= hi
    requires a' - a == e' - e == end' - end == i' - i
    requires KeyAt(s, i) == At(key, a) && Value(s, a) == At(v, e)
    requires MoreMembers(s, e) == At(ms, end) && !SeparatorAt(s, e, '}').NoSeparator?
    ensures Members(t, i') == At([(key, v)] + ms, end')
    decreases |s| - i, 0
  {
    SeparatorCloses(v, s, e, '}', hi);
    MoveKey(s, i, key, a, lo, hi, t, i', a');
    MoveValue(s, a, v, e, lo, hi, t, a', e');
    MoveMoreMembers(s, e, ms, end, lo, hi, t, e', end');
    JoinMembers(t, i', key, a', v, e', ms, end');
  }

  lemma {:induction false} MoveMoreMembers(s: string, e: nat, ms: seq<(seq<CodePoint>, Json)>, end: nat, lo: nat,
                                           hi: nat, t: string, e': nat, end': nat)
    requires SameSpan(s, lo, hi, t, e' - e) && lo <= e <= |s| && end <= hi && end' - end == e' - e
    requires MoreMembers(s, e) == At(ms, end)
    ensures MoreMembers(t, e') == At(ms, end')
    decreases |s| - e, 1
  {
    match SeparatorAt(s, e, '}')
    case NoSeparator =>
    case Close(c) =>
      MembersClose(s, e, c);
      MoveClose(s, e, '}', c, lo, hi, t, e', end');
      MembersClose(t, e', end');
    case Comma(next) =>
      var next' := next + (e' - e);
      MembersAfterComma(s, e, next);
      MoveComma(s, e, '}', next, lo, hi, t, e', next');
      MoveMembers(s, next, ms, end, lo, hi, t, next', end');
      MembersAfterComma(t, e', next');
  }
}
