// _extract_json_object: recovering a JSON value from model output by a string-aware bracket scan.
module JsonSalvage {
  import opened Options
  import opened JsonText

  // The scan's inner loop from position i: the position of the closer that balances, if any.
  function BalancedEnd(s: string, i: nat, depth: int, inStr: bool, esc: bool, opener: char,
                       closer: char): (r: Option<nat>)
    requires i <= |s|
    ensures r.Some? ==> i <= r.value < |s| && s[r.value] == closer
    decreases |s| - i
  {
    if i == |s| then None
    else if esc then BalancedEnd(s, i + 1, depth, inStr, false, opener, closer)
    else if inStr then BalancedEnd(s, i + 1, depth, s[i] != '"', s[i] == '\\', opener, closer)
    else if s[i] == '"' then BalancedEnd(s, i + 1, depth, true, false, opener, closer)
    else if s[i] == opener then BalancedEnd(s, i + 1, depth + 1, false, false, opener, closer)
    else if s[i] == closer then
      if depth == 1 then Some(i) else BalancedEnd(s, i + 1, depth - 1, false, false, opener, closer)
    else BalancedEnd(s, i + 1, depth, false, false, opener, closer)
  }

  // The outer loop: the first opener at or after i whose balanced span decodes.
  function FirstSpan(s: string, i: nat, opener: char, closer: char): (r: Option<Json>)
    requires i <= |s|
    decreases |s| - i
  {
    if i == |s| then None
    else if s[i] != opener then FirstSpan(s, i + 1, opener, closer)
    else
      var span := match BalancedEnd(s, i, 0, false, false, opener, closer)
                  case None => None
                  case Some(end) => Loads(s[i..end + 1]);
      if span.Some? then span else FirstSpan(s, i + 1, opener, closer)
  }

  // The reference the scan is compared with: read one value at each opener in turn.
  function FirstValue(s: string, i: nat, opener: char): (r: Option<Json>)
    requires i <= |s|
    decreases |s| - i
  {
    if i == |s| then None
    else if s[i] == opener && Value(s, i).At? then Some(Value(s, i).value)
    else FirstValue(s, i + 1, opener)
  }

  predicate Brackets(opener: char, closer: char)
  {
    (opener == '{' && closer == '}') || (opener == '[' && closer == ']')
  }

  // ----- The scan follows the decoder through any value -----

  predicate Structural(c: char) { c == '"' || c == '{' || c == '}' || c == '[' || c == ']' }

  predicate QuietSpan(s: string, i: nat, j: nat)
  {
    i <= j <= |s| && forall k :: i <= k < j ==> !Structural(s[k])
  }

  lemma {:induction false} ScanQuiet(s: string, i: nat, j: nat, depth: int, o: char, c: char)
    requires QuietSpan(s, i, j) && Brackets(o, c)
    ensures BalancedEnd(s, i, depth, false, false, o, c) == BalancedEnd(s, j, depth, false, false, o, c)
    decreases j - i
  {
    if i < j { ScanQuiet(s, i + 1, j, depth, o, c); }
  }

  lemma {:induction false} SpaceIsQuiet(s: string, i: nat)
    requires i <= |s|
    ensures QuietSpan(s, i, SkipSpace(s, i))
    decreases |s| - i
  {
    if i < |s| && JsonSpace(s[i]) { SpaceIsQuiet(s, i + 1); }
  }

  lemma {:induction false} DigitsAreQuiet(s: string, i: nat)
    requires i <= |s|
    ensures QuietSpan(s, i, DigitsEnd(s, i))
    decreases |s| - i
  {
    if i < |s| && Digit(s[i]) { DigitsAreQuiet(s, i + 1); }
  }

  lemma NumberIsQuiet(s: string, i: nat)
    requires i <= |s| && NumberEnd(s, i).Some?
    ensures QuietSpan(s, i, NumberEnd(s, i).value)
  {
    var a := if s[i] == '-' then i + 1 else i;
    var b := IntegerEnd(s, i).value;
    var f := FractionEnd(s, b);
    assert QuietSpan(s, i, b) by { DigitsAreQuiet(s, a); }
    assert QuietSpan(s, b, f) by { if f != b { DigitsAreQuiet(s, b + 1); } }
    assert QuietSpan(s, f, ExponentEnd(s, f)) by { ExponentIsQuiet(s, f); }
  }

  lemma ExponentIsQuiet(s: string, i: nat)
    requires i <= |s|
    ensures QuietSpan(s, i, ExponentEnd(s, i))
  {
    if ExponentEnd(s, i) != i {
      var d := if s[i + 1] == '+' || s[i + 1] == '-' then i + 2 else i + 1;
      DigitsAreQuiet(s, d);
    }
  }

  lemma WordIsQuiet(s: string, i: nat, word: string, v: Json)
    requires |word| > 0 && Word(s, i, word, v).At? && QuietSpan(word, 0, |word|)
    ensures QuietSpan(s, i, i + |word|)
  {
    forall k | i <= k < i + |word| ensures !Structural(s[k]) {
      assert s[k] == s[i..i + |word|][k - i];
    }
  }

  lemma ScalarIsQuiet(s: string, i: nat)
    requires i < |s| && Scalar(s, i).At?
    ensures QuietSpan(s, i, Scalar(s, i).end)
  {
    if s[i] == 'n' { WordIsQuiet(s, i, "null", JNull); }
    else if s[i] == 't' { WordIsQuiet(s, i, "true", JBool(true)); }
    else if s[i] == 'f' { WordIsQuiet(s, i, "false", JBool(false)); }
    else if s[i] == 'N' { WordIsQuiet(s, i, "NaN", JNumber("NaN")); }
    else if s[i] == 'I' { WordIsQuiet(s, i, "Infinity", JNumber("Infinity")); }
    else if NumberEnd(s, i).Some? { NumberIsQuiet(s, i); }
    else { WordIsQuiet(s, i, "-Infinity", JNumber("-Infinity")); }
  }

  lemma ScanHexFour(s: string, i: nat, depth: int, o: char, c: char)
    requires HexFour(s, i).Some?
    ensures BalancedEnd(s, i, depth, true, false, o, c) == BalancedEnd(s, i + 4, depth, true, false, o, c)
  {
    assert HexDigit(s[i]).Some? && HexDigit(s[i + 1]).Some? && HexDigit(s[i + 2]).Some? && HexDigit(s[i + 3]).Some?;
    assert BalancedEnd(s, i + 2, depth, true, false, o, c) == BalancedEnd(s, i + 4, depth, true, false, o, c);
  }

  lemma ScanEscape(s: string, i: nat, depth: int, o: char, c: char)
    requires i < |s| && s[i] == '\\' && Escape(s, i).At?
    ensures BalancedEnd(s, i, depth, true, false, o, c) == BalancedEnd(s, Escape(s, i).end, depth, true, false, o, c)
  {
    assert BalancedEnd(s, i, depth, true, false, o, c) == BalancedEnd(s, i + 2, depth, true, false, o, c);
    if s[i + 1] == 'u' {
      ScanHexFour(s, i + 2, depth, o, c);
      if Escape(s, i).end == i + 12 {
        assert BalancedEnd(s, i + 6, depth, true, false, o, c) == BalancedEnd(s, i + 8, depth, true, false, o, c);
        ScanHexFour(s, i + 8, depth, o, c);
      }
    }
  }

  // A string's braces and brackets leave the depth alone, whatever its quotes and backslashes.
  lemma {:induction false} ScanString(s: string, i: nat, depth: int, o: char, c: char)
    requires i <= |s| && StringBody(s, i).At?
    ensures BalancedEnd(s, i, depth, true, false, o, c)
            == BalancedEnd(s, StringBody(s, i).end, depth, false, false, o, c)
    decreases |s| - i
  {
    if s[i] == '"' {
    } else if s[i] == '\\' {
      ScanEscape(s, i, depth, o, c);
      ScanString(s, Escape(s, i).end, depth, o, c);
    } else {
      ScanString(s, i + 1, depth, o, c);
    }
  }

  lemma {:induction false} ScanValue(s: string, i: nat, depth: int, o: char, c: char)
    requires i <= |s| && Value(s, i).At? && Brackets(o, c) && depth >= 1
    ensures BalancedEnd(s, i, depth, false, false, o, c) == BalancedEnd(s, Value(s, i).end, depth, false, false, o, c)
    decreases |s| - i, 0
  {
    if s[i] == '"' {
      ScanString(s, i + 1, depth, o, c);
    } else if s[i] == '{' {
      ScanObject(s, i + 1, if o == '{' then depth + 1 else depth, o, c);
    } else if s[i] == '[' {
      ScanArray(s, i + 1, if o == '[' then depth + 1 else depth, o, c);
    } else {
      ScalarIsQuiet(s, i);
      ScanQuiet(s, i, Value(s, i).end, depth, o, c);
    }
  }

  lemma {:induction false} ScanArray(s: string, i: nat, depth: int, o: char, c: char)
    requires i <= |s| && ArrayBody(s, i).At? && Brackets(o, c) && depth >= 1
    ensures s[ArrayBody(s, i).end - 1] == ']'
    ensures BalancedEnd(s, i, depth, false, false, o, c)
         == BalancedEnd(s, ArrayBody(s, i).end - 1, depth, false, false, o, c)
    decreases |s| - i, 2
  {
    var j := SkipSpace(s, i);
    SpaceIsQuiet(s, i);
    ScanQuiet(s, i, j, depth, o, c);
    if s[j] != ']' { ScanElements(s, j, depth, o, c); }
  }

  lemma {:induction false} ScanElements(s: string, i: nat, depth: int, o: char, c: char)
    requires i <= |s| && Elements(s, i).At? && Brackets(o, c) && depth >= 1
    ensures s[Elements(s, i).end - 1] == ']'
    ensures BalancedEnd(s, i, depth, false, false, o, c)
         == BalancedEnd(s, Elements(s, i).end - 1, depth, false, false, o, c)
    decreases |s| - i, 1
  {
    ScanValue(s, i, depth, o, c);
    ScanMoreElements(s, Value(s, i).end, depth, o, c);
  }

  lemma ScanSeparator(s: string, e: nat, close: char, depth: int, o: char, c: char)
    requires e <= |s| && Brackets(o, c)
    ensures match SeparatorAt(s, e, close)
            case NoSeparator => true
            case Close(end) =>
              s[end - 1] == close &&
              BalancedEnd(s, e, depth, false, false, o, c) == BalancedEnd(s, end - 1, depth, false, false, o, c)
            case Comma(next) =>
              close != ',' ==>
              BalancedEnd(s, e, depth, false, false, o, c) == BalancedEnd(s, next, depth, false, false, o, c)
  {
    var k := SkipSpace(s, e);
    SpaceIsQuiet(s, e);
    ScanQuiet(s, e, k, depth, o, c);
    if k < |s| && s[k] == ',' {
      SpaceIsQuiet(s, k + 1);
      ScanQuiet(s, k + 1, SkipSpace(s, k + 1), depth, o, c);
    }
  }

  lemma {:induction false} ScanMoreElements(s: string, e: nat, depth: int, o: char, c: char)
    requires e <= |s| && MoreElements(s, e).At? && Brackets(o, c) && depth >= 1
    ensures s[MoreElements(s, e).end - 1] == ']'
    ensures BalancedEnd(s, e, depth, false, false, o, c)
         == BalancedEnd(s, MoreElements(s, e).end - 1, depth, false, false, o, c)
    decreases |s| - e, 1
  {
    ScanSeparator(s, e, ']', depth, o, c);
    match SeparatorAt(s, e, ']')
    case Comma(next) =>
      assert MoreElements(s, e) == Elements(s, next);
      ScanElements(s, next, depth, o, c);
    case _ =>
  }

  lemma {:induction false} ScanObject(s: string, i: nat, depth: int, o: char, c: char)
    requires i <= |s| && ObjectBody(s, i).At? && Brackets(o, c) && depth >= 1
    ensures s[ObjectBody(s, i).end - 1] == '}'
    ensures BalancedEnd(s, i, depth, false, false, o, c)
         == BalancedEnd(s, ObjectBody(s, i).end - 1, depth, false, false, o, c)
    decreases |s| - i, 2
  {
    var j := SkipSpace(s, i);
    SpaceIsQuiet(s, i);
    ScanQuiet(s, i, j, depth, o, c);
    if s[j] != '}' { ScanMembers(s, j, depth, o, c); }
  }

  lemma ScanKey(s: string, i: nat, depth: int, o: char, c: char)
    requires i <= |s| && KeyAt(s, i).At? && Brackets(o, c)
    ensures BalancedEnd(s, i, depth, false, false, o, c) == BalancedEnd(s, KeyAt(s, i).end, depth, false, false, o, c)
  {
    var e := StringBody(s, i + 1).end;
    var k := SkipSpace(s, e);
    ScanString(s, i + 1, depth, o, c);
    SpaceIsQuiet(s, e);
    ScanQuiet(s, e, k, depth, o, c);
    SpaceIsQuiet(s, k + 1);
    ScanQuiet(s, k + 1, SkipSpace(s, k + 1), depth, o, c);
  }

  lemma {:induction false} ScanMembers(s: string, i: nat, depth: int, o: char, c: char)
    requires i <= |s| && Members(s, i).At? && Brackets(o, c) && depth >= 1
    ensures s[Members(s, i).end - 1] == '}'
    ensures BalancedEnd(s, i, depth, false, false, o, c)
         == BalancedEnd(s, Members(s, i).end - 1, depth, false, false, o, c)
    decreases |s| - i, 1
  {
    var a := KeyAt(s, i).end;
    ScanKey(s, i, depth, o, c);
    ScanValue(s, a, depth, o, c);
    ScanMoreMembers(s, Value(s, a).end, depth, o, c);
  }

  lemma {:induction false} ScanMoreMembers(s: string, e: nat, depth: int, o: char, c: char)
    requires e <= |s| && MoreMembers(s, e).At? && Brackets(o, c) && depth >= 1
    ensures s[MoreMembers(s, e).end - 1] == '}'
    ensures BalancedEnd(s, e, depth, false, false, o, c)
         == BalancedEnd(s, MoreMembers(s, e).end - 1, depth, false, false, o, c)
    decreases |s| - e, 1
  {
    ScanSeparator(s, e, '}', depth, o, c);
    match SeparatorAt(s, e, '}')
    case Comma(next) =>
      assert MoreMembers(s, e) == Members(s, next);
      ScanMembers(s, next, depth, o, c);
    case _ =>
  }

  // ----- The scan is a decoder run at every opener -----

  lemma {:induction false} SpaceToTheEnd(s: string, i: nat)
    requires i < |s| && SkipSpace(s, i) == |s|
    ensures JsonSpace(s[|s| - 1])
    decreases |s| - i
  {
    if i + 1 < |s| { SpaceToTheEnd(s, i + 1); }
  }

  // A document that opens with a bracket decodes exactly when the value there reaches its end.
  lemma BracketLoads(t: string)
    requires |t| > 0 && (t[0] == '{' || t[0] == '[') && !JsonSpace(t[|t| - 1])
    ensures Loads(t) == if Value(t, 0).At? && Value(t, 0).end == |t| then Some(Value(t, 0).value) else None
  {
    assert SkipSpace(t, 0) == 0;
    if Value(t, 0).At? && Value(t, 0).end < |t| && SkipSpace(t, Value(t, 0).end) == |t| {
      SpaceToTheEnd(t, Value(t, 0).end);
    }
  }

  lemma ValueBalances(s: string, i: nat, o: char, c: char)
    requires i < |s| && s[i] == o && Brackets(o, c) && Value(s, i).At?
    ensures BalancedEnd(s, i, 0, false, false, o, c) == Some(Value(s, i).end - 1)
  {
    if o == '{' { ScanObject(s, i + 1, 1, o, c); } else { ScanArray(s, i + 1, 1, o, c); }
  }

  // A balanced span decodes exactly when a value can be read at its opener, and to that value.
  lemma SpanIsValue(s: string, i: nat, end: nat, o: char, c: char)
    requires i < |s| && s[i] == o && Brackets(o, c)
    requires BalancedEnd(s, i, 0, false, false, o, c) == Some(end)
    ensures Loads(s[i..end + 1]) == if Value(s, i).At? then Some(Value(s, i).value) else None
  {
    var t := s[i..end + 1];
    BracketLoads(t);
    if Value(s, i).At? {
      ValueBalances(s, i, o, c);
      ShiftValue(s, i, i, end + 1, t, 0 - i);
    } else if Value(t, 0).At? && Value(t, 0).end == |t| {
      ShiftValue(t, 0, 0, |t|, s, i);
    }
  }

  lemma {:induction false} ScanIsDecoder(s: string, i: nat, o: char, c: char)
    requires i <= |s| && Brackets(o, c)
    ensures FirstSpan(s, i, o, c) == FirstValue(s, i, o)
    decreases |s| - i
  {
    if i < |s| {
      ScanIsDecoder(s, i + 1, o, c);
      if s[i] == o {
        match BalancedEnd(s, i, 0, false, false, o, c)
        case None => if Value(s, i).At? { ValueBalances(s, i, o, c); }
        case Some(end) => SpanIsValue(s, i, end, o, c);
      }
    }
  }

  // ----- The whole recovery -----

  // str.isspace, the characters that str.strip removes.
  predicate TextSpace(ch: char)
  {
    var n := ch as int;
    9 <= n <= 13 || 28 <= n <= 32 || n == 0x85 || n == 0xA0 || n == 0x1680 || 0x2000 <= n <= 0x200A ||
    n == 0x2028 || n == 0x2029 || n == 0x202F || n == 0x205F || n == 0x3000
  }

  function VisibleFrom(s: string, i: nat): (j: nat)
    requires i <= |s|
    ensures i <= j <= |s| && (j < |s| ==> !TextSpace(s[j]))
    decreases |s| - i
  {
    if i < |s| && TextSpace(s[i]) then VisibleFrom(s, i + 1) else i
  }

  function VisibleTo(s: string, j: nat): (i: nat)
    requires j <= |s|
    ensures i <= j && (i > 0 ==> !TextSpace(s[i - 1]))
  {
    if j > 0 && TextSpace(s[j - 1]) then VisibleTo(s, j - 1) else j
  }

  function LeftStrip(s: string): (r: string) { s[VisibleFrom(s, 0)..] }

  function RightStrip(s: string): (r: string)
    ensures r <= s
  {
    s[..VisibleTo(s, |s|)]
  }

  function Strip(s: string): (r: string) { RightStrip(LeftStrip(s)) }

  const FENCE := "```"

  predicate StartsWithFence(s: string) { |s| >= 3 && s[0] == '`' && s[1] == '`' && s[2] == '`' }

  predicate EndsWithFence(s: string)
  {
    |s| >= 3 && s[|s| - 3] == '`' && s[|s| - 2] == '`' && s[|s| - 1] == '`'
  }

  function IndexFrom(s: string, ch: char, i: nat): (j: nat)
    requires i <= |s|
    ensures i <= j <= |s| && (j < |s| ==> s[j] == ch)
    ensures forall k :: i <= k < j ==> s[k] != ch
    decreases |s| - i
  {
    if i < |s| && s[i] != ch then IndexFrom(s, ch, i + 1) else i
  }

  // What follows an opening fence: the lines after it, or the rest of its only line.
  function AfterFence(s: string): (r: string)
    requires StartsWithFence(s)
  {
    var k := IndexFrom(s, '\n', 0);
    if k < |s| then s[k + 1..] else s[3..]
  }

  function Unfence(s: string): (r: string)
  {
    if !StartsWithFence(s) then s else
    var rest := AfterFence(s);
    var trimmed := RightStrip(rest);
    Strip(if EndsWithFence(trimmed) then trimmed[..|trimmed| - 3] else rest)
  }

  // JNull stands for Python's None, which is both the decoded null and the absence of a result.
  function Recover(s: string): (r: Json)
  {
    if s == [] then JNull else
    match Loads(s)
    case Some(v) => v
    case None =>
      match FirstSpan(s, 0, '{', '}')
      case Some(v) => v
      case None =>
        match FirstSpan(s, 0, '[', ']')
        case Some(v) => v
        case None => JNull
  }

  function Whole(s: string): (r: Option<Json>) { if s == [] then None else Loads(s) }

  // The text both functions look at, out of any white space and fence.
  function Core(raw: string): (r: string) { Unfence(Strip(raw)) }

  function Extract(raw: string): (r: Json) { Recover(Core(raw)) }

  // _full_json_document_parses, with the value it decoded.
  function FullDocument(raw: string): (r: Option<Json>) { Whole(Core(raw)) }

  method FullJsonDocumentParses(raw: string) returns (closed: bool)
    ensures closed <==> FullDocument(raw).Some?
  {
    if raw == "" { return false; }
    var s := Strip(raw);
    if StartsWithFence(s) {
      var rest := AfterFence(s);
      if EndsWithFence(RightStrip(rest)) { rest := RightStrip(rest)[..|RightStrip(rest)| - 3]; }
      s := Strip(rest);
    }
    if s == "" { return false; }
    return Loads(s).Some?;
  }

  method BalancedSpan(s: string, idx: nat, opener: char, closer: char) returns (end: int)
    requires idx <= |s|
    ensures end == match BalancedEnd(s, idx, 0, false, false, opener, closer) case None => -1 case Some(e) => e
  {
    var depth, inStr, esc := 0, false, false;
    end := -1;
    var i := idx;
    while i < |s|
      invariant idx <= i <= |s| && end == -1
      invariant BalancedEnd(s, idx, 0, false, false, opener, closer)
             == BalancedEnd(s, i, depth, inStr, esc, opener, closer)
      invariant esc ==> inStr
    {
      var ch := s[i];
      if esc {
        esc := false;
      } else if inStr {
        if ch == '\\' { esc := true; } else if ch == '"' { inStr := false; }
      } else if ch == '"' {
        inStr := true;
      } else if ch == opener {
        depth := depth + 1;
      } else if ch == closer {
        depth := depth - 1;
        if depth == 0 {
          end := i;
          return;
        }
      }
      i := i + 1;
    }
  }

  method FirstDecodedSpan(s: string, opener: char, closer: char) returns (r: Option<Json>)
    ensures r == FirstSpan(s, 0, opener, closer)
  {
    var idx := 0;
    while idx < |s|
      invariant idx <= |s|
      invariant FirstSpan(s, 0, opener, closer) == FirstSpan(s, idx, opener, closer)
    {
      if s[idx] == opener {
        var end := BalancedSpan(s, idx, opener, closer);
        if end != -1 {
          r := Loads(s[idx..end + 1]);
          if r.Some? { return; }
        }
      }
      idx := idx + 1;
    }
    r := None;
  }

  method ExtractJsonObject(raw: string) returns (r: Json)
    ensures r == Extract(raw)
  {
    if raw == "" { return JNull; }
    var s := Strip(raw);
    if StartsWithFence(s) {
      var rest := AfterFence(s);
      if EndsWithFence(RightStrip(rest)) { rest := RightStrip(rest)[..|RightStrip(rest)| - 3]; }
      s := Strip(rest);
    }
    if s == "" { return JNull; }
    var whole := Loads(s);
    if whole.Some? { return whole.value; }
    var found := FirstDecodedSpan(s, '{', '}');
    if found.Some? { return found.value; }
    found := FirstDecodedSpan(s, '[', ']');
    if found.Some? { return found.value; }
    return JNull;
  }
}
