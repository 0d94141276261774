// A value printed with any white space between its tokens, and its way back through the decoder.
module JsonPrint {
  import opened Options
  import opened JsonText
  import opened JsonGrammar
  import opened JsonSalvage
  import opened JsonRecovery

  predicate Scalars(text: seq<CodePoint>)
  {
    forall k :: 0 <= k < |text| ==> !HighSurrogate(text[k]) && !LowSurrogate(text[k])
  }

  // A high surrogate with a low one behind it: what the decoder takes for one character.
  predicate PairAt(text: seq<CodePoint>, k: nat)
  {
    k + 1 < |text| && HighSurrogate(text[k]) && LowSurrogate(text[k + 1])
  }

  predicate NoPairs(text: seq<CodePoint>) { forall k: nat :: k < |text| ==> !PairAt(text, k) }

  // The raw form has no way to write a surrogate; the ASCII form writes any code point.
  predicate Writable(text: seq<CodePoint>, ascii: bool) { ascii || Scalars(text) }

  // Values that a print keeps: writable strings without a pair, numbers of RFC 8259, section 6. The
  // ASCII form is the one json.dumps writes unless it is told otherwise.
  ghost predicate Printable(v: Json, ascii: bool)
    decreases v, 1
  {
    match v
    case JString(t) => Writable(t, ascii) && NoPairs(t)
    case JNumber(lexeme) => NumberAt(lexeme, 0, |lexeme|)
    case JArray(items) => PrintableItems(items, ascii)
    case JObject(members) => PrintableMembers(members, ascii)
    case _ => true
  }

  ghost predicate PrintableItems(items: seq<Json>, ascii: bool)
    decreases items, 0
  {
    items == [] || (Printable(items[0], ascii) && PrintableItems(items[1..], ascii))
  }

  ghost predicate PrintableMembers(members: seq<(seq<CodePoint>, Json)>, ascii: bool)
    decreases members, 0
  {
    members == [] || (PrintableMember(members[0], ascii) && PrintableMembers(members[1..], ascii))
  }

  ghost predicate PrintableMember(m: (seq<CodePoint>, Json), ascii: bool)
    decreases m, 0
  {
    Writable(m.0, ascii) && NoPairs(m.0) && Printable(m.1, ascii)
  }

  function HexChar(d: int): (c: char)
    requires 0 <= d < 16
    ensures HexDigit(c) == Some(d)
  {
    if d < 10 then '0' + d as char else 'a' + (d - 10) as char
  }

  // One UTF-16 code unit, escaped.
  function Unit(n: int): (r: string)
    requires 0 <= n < 0x10000
    ensures |r| == 6 && r[0] == '\\' && r[1] == 'u'
  {
    ['\\', 'u', HexChar(n / 4096), HexChar(n / 256 % 16), HexChar(n / 16 % 16), HexChar(n % 16)]
  }

  function EscapeChar(c: CodePoint, ascii: bool): (r: string)
    requires Writable([c], ascii)
    ensures r != []
  {
    if c == '"' as int then "\\\""
    else if c == '\\' as int then "\\\\"
    else if c == 8 then "\\b"
    else if c == 9 then "\\t"
    else if c == 10 then "\\n"
    else if c == 12 then "\\f"
    else if c == 13 then "\\r"
    else if c < 0x20 then Unit(c)
    else if c < 0x7F || !ascii then assert [c][0] == c; [c as char]
    else if c < 0x10000 then Unit(c)
    else Unit(0xD800 + (c - 0x10000) / 0x400) + Unit(0xDC00 + (c - 0x10000) % 0x400)
  }

  function Escaped(text: seq<CodePoint>, ascii: bool): (r: string)
    requires Writable(text, ascii)
  {
    if text == [] then "" else EscapeChar(text[0], ascii) + Escaped(text[1..], ascii)
  }

  function Quoted(text: seq<CodePoint>, ascii: bool): (r: string)
    requires Writable(text, ascii)
  {
    "\"" + (Escaped(text, ascii) + "\"")
  }

  // How many tokens a value is printed as.
  function Tokens(v: Json): (n: nat)
    ensures n > 0
    decreases v, 1
  {
    match v
    case JArray(items) => 1 + ItemTokens(items)
    case JObject(members) => 1 + MemberTokens(members)
    case _ => 1
  }

  // Each item with the bracket or comma behind it; the closing bracket alone where there are none.
  function ItemTokens(items: seq<Json>): (n: nat)
    ensures n > 0
    decreases items, 0
  {
    if items == [] then 1 else Tokens(items[0]) + if |items| == 1 then 1 else 1 + ItemTokens(items[1..])
  }

  function MemberTokens(members: seq<(seq<CodePoint>, Json)>): (n: nat)
    ensures n > 0
    decreases members, 0
  {
    if members == [] then 1
    else 2 + PairTokens(members[0]) + if |members| == 1 then 1 else 1 + MemberTokens(members[1..])
  }

  function PairTokens(m: (seq<CodePoint>, Json)): (n: nat)
    ensures n > 0
    decreases m, 0
  {
    Tokens(m.1)
  }

  // The text of a value whose first token is number k of the whole text; gap(k) is printed behind the
  // token of that number.
  function Print(v: Json, ascii: bool, gap: nat -> string, k: nat): (r: string)
    requires Printable(v, ascii)
    decreases v, 1
  {
    match v
    case JNull => "null"
    case JBool(b) => if b then "true" else "false"
    case JNumber(lexeme) => lexeme
    case JString(t) => Quoted(t, ascii)
    case JArray(items) => "[" + (gap(k) + PrintItems(items, ascii, gap, k + 1))
    case JObject(members) => "{" + (gap(k) + PrintMembers(members, ascii, gap, k + 1))
  }

  // The items from the first one through the closing bracket.
  function PrintItems(items: seq<Json>, ascii: bool, gap: nat -> string, k: nat): (r: string)
    requires PrintableItems(items, ascii)
    decreases items, 0
  {
    if items == [] then "]" else
    Print(items[0], ascii, gap, k) +
        (gap(k + Tokens(items[0]) - 1) + PrintMoreItems(items[1..], ascii, gap, k + Tokens(items[0])))
  }

  function PrintMoreItems(items: seq<Json>, ascii: bool, gap: nat -> string, k: nat): (r: string)
    requires PrintableItems(items, ascii)
    decreases items, 1
  {
    if items == [] then "]" else "," + (gap(k) + PrintItems(items, ascii, gap, k + 1))
  }

  function PrintMember(m: (seq<CodePoint>, Json), ascii: bool, gap: nat -> string, k: nat): (r: string)
    requires PrintableMember(m, ascii)
    decreases m, 0
  {
    Quoted(m.0, ascii) + (gap(k) + (":" + (gap(k + 1) + Print(m.1, ascii, gap, k + 2))))
  }

  function PrintMembers(members: seq<(seq<CodePoint>, Json)>, ascii: bool, gap: nat -> string, k: nat): (r: string)
    requires PrintableMembers(members, ascii)
    decreases members, 0
  {
    if members == [] then "}" else
    var n := 2 + PairTokens(members[0]);
    PrintMember(members[0], ascii, gap, k) + (gap(k + n - 1) + PrintMoreMembers(members[1..], ascii, gap, k + n))
  }

  function PrintMoreMembers(members: seq<(seq<CodePoint>, Json)>, ascii: bool, gap: nat -> string, k: nat): (r: string)
    requires PrintableMembers(members, ascii)
    decreases members, 1
  {
    if members == [] then "}" else "," + (gap(k) + PrintMembers(members, ascii, gap, k + 1))
  }

  // ----- Reading printed text where it stands -----

  predicate Stands(s: string, i: nat, w: string)
  {
    i + |w| <= |s| && forall k :: 0 <= k < |w| ==> s[i + k] == w[k]
  }

  lemma StandsParts(s: string, i: nat, a: string, b: string)
    requires Stands(s, i, a + b)
    ensures Stands(s, i, a) && Stands(s, i + |a|, b)
  {
    forall k | 0 <= k < |a| ensures s[i + k] == a[k] { assert (a + b)[k] == a[k]; }
    forall k | 0 <= k < |b| ensures s[i + |a| + k] == b[k] { assert (a + b)[|a| + k] == b[k]; }
  }

  lemma JoinStands(s: string, i: nat, w: string, a: string, b: string)
    requires w == a + b && Stands(s, i, w)
    ensures |w| == |a| + |b| && Stands(s, i, a) && Stands(s, i + |a|, b)
  {
    StandsParts(s, i, a, b);
  }

  lemma StandsHead(s: string, i: nat, w: string)
    requires Stands(s, i, w) && w != []
    ensures i < |s| && s[i] == w[0]
  {
    assert s[i + 0] == w[0];
  }

  lemma StandsWhole(w: string)
    ensures Stands(w, 0, w)
  {
  }

  lemma UnitIsItsDigits(n: int)
    requires 0 <= n < 0x10000
    ensures ((n / 4096 * 16 + n / 256 % 16) * 16 + n / 16 % 16) * 16 + n % 16 == n
  {
  }

  lemma ReadHexFour(s: string, i: nat, a: int, b: int, c: int, d: int)
    requires i + 4 <= |s| && 0 <= a < 16 && 0 <= b < 16 && 0 <= c < 16 && 0 <= d < 16
    requires s[i] == HexChar(a) && s[i + 1] == HexChar(b) && s[i + 2] == HexChar(c) && s[i + 3] == HexChar(d)
    ensures HexFour(s, i) == Some(((a * 16 + b) * 16 + c) * 16 + d)
  {
  }

  lemma ReadUnit(s: string, i: nat, n: int)
    requires 0 <= n < 0x10000 && Stands(s, i, Unit(n))
    ensures i + 6 <= |s| && s[i] == '\\' && s[i + 1] == 'u' && HexFour(s, i + 2) == Some(n)
  {
    var w := Unit(n);
    assert s[i + 0] == w[0] && s[i + 1] == w[1] && s[i + 2] == w[2] && s[i + 3] == w[3] && s[i + 4] == w[4] &&
           s[i + 5] == w[5];
    UnitIsItsDigits(n);
    ReadHexFour(s, i + 2, n / 4096, n / 256 % 16, n / 16 % 16, n % 16);
  }

  // A character beyond the basic plane is written as a surrogate pair and read back from it.
  lemma ReadPair(s: string, i: nat, high: int, low: int)
    requires 0xD800 <= high < 0xDC00 && 0xDC00 <= low < 0xE000 && Stands(s, i, Unit(high) + Unit(low))
    ensures i + 12 <= |s| && s[i] == '\\'
    ensures Escape(s, i) == At(0x10000 + (high - 0xD800) * 0x400 + (low - 0xDC00), i + 12)
  {
    StandsParts(s, i, Unit(high), Unit(low));
    ReadUnit(s, i, high);
    ReadUnit(s, i + 6, low);
  }

  lemma ReadOneUnit(s: string, i: nat, n: int)
    requires 0 <= n < 0x10000 && !HighSurrogate(n) && Stands(s, i, Unit(n))
    ensures i < |s| && s[i] == '\\' && Escape(s, i) == At(n, i + 6)
  {
    ReadUnit(s, i, n);
  }

  // How a character is written: one unit, two, or plainly.
  lemma EscapeForms(c: CodePoint, ascii: bool)
    requires Writable([c], ascii)
    ensures var w := EscapeChar(c, ascii);
            || (c < 0x10000 && w == Unit(c))
            || (c >= 0x10000 && w == Unit(0xD800 + (c - 0x10000) / 0x400) + Unit(0xDC00 + (c - 0x10000) % 0x400))
            || (|w| == 2 && w[0] == '\\' && w[1] != 'u')
            || (|w| == 1 && w[0] != '\\' && w[0] != '"' && w[0] >= ' ' && w[0] as int == c)
    ensures HighSurrogate(c) || LowSurrogate(c) ==> EscapeChar(c, ascii) == Unit(c)
  {
    assert [c][0] == c;
  }

  lemma ReadShort(s: string, i: nat, c: CodePoint, ascii: bool)
    requires Writable([c], ascii) && |EscapeChar(c, ascii)| == 2 && Stands(s, i, EscapeChar(c, ascii))
    ensures i < |s| && s[i] == '\\' && Escape(s, i) == At(c, i + 2)
  {
    var w := EscapeChar(c, ascii);
    assert s[i + 0] == w[0] && s[i + 1] == w[1];
  }

  lemma PairSplits(c: CodePoint)
    requires c >= 0x10000
    ensures var high, low := 0xD800 + (c - 0x10000) / 0x400, 0xDC00 + (c - 0x10000) % 0x400;
            0xD800 <= high < 0xDC00 && 0xDC00 <= low < 0xE000 && 0x10000 + (high - 0xD800) * 0x400 + (low - 0xDC00) == c
  {
  }

  predicate ReadsAs(s: string, i: nat, c: CodePoint, j: nat)
  {
    i < |s| && s[i] != '"' && j <= |s|
    && if s[i] == '\\' then Escape(s, i) == At(c, j) else s[i] >= ' ' && s[i] as int == c && j == i + 1
  }

  lemma ReadEscape(s: string, i: nat, c: CodePoint, ascii: bool)
    requires Writable([c], ascii) && !HighSurrogate(c) && Stands(s, i, EscapeChar(c, ascii))
    ensures ReadsAs(s, i, c, i + |EscapeChar(c, ascii)|)
  {
    var w := EscapeChar(c, ascii);
    EscapeForms(c, ascii);
    StandsHead(s, i, w);
    if |w| == 6 {
      ReadOneUnit(s, i, c);
    } else if |w| == 12 {
      PairSplits(c);
      ReadPair(s, i, 0xD800 + (c - 0x10000) / 0x400, 0xDC00 + (c - 0x10000) % 0x400);
    } else if |w| == 2 {
      ReadShort(s, i, c, ascii);
    }
  }

  // No low surrogate is escaped here.
  predicate NoLowUnit(s: string, j: nat)
  {
    j + 1 < |s| && s[j] == '\\' && s[j + 1] == 'u' ==> HexFour(s, j + 2).Some? && !LowSurrogate(HexFour(s, j + 2).value)
  }

  lemma NotLow(s: string, j: nat, c: CodePoint, ascii: bool)
    requires Writable([c], ascii) && !LowSurrogate(c) && Stands(s, j, EscapeChar(c, ascii))
    ensures NoLowUnit(s, j)
  {
    var w := EscapeChar(c, ascii);
    EscapeForms(c, ascii);
    StandsHead(s, j, w);
    if |w| == 6 {
      ReadUnit(s, j, c);
    } else if |w| == 12 {
      PairSplits(c);
      var high, low := 0xD800 + (c - 0x10000) / 0x400, 0xDC00 + (c - 0x10000) % 0x400;
      StandsParts(s, j, Unit(high), Unit(low));
      ReadUnit(s, j, high);
    } else if |w| == 2 {
      assert s[j + 1] == w[1];
    }
  }

  // A high surrogate on its own is kept.
  lemma ReadHigh(s: string, i: nat, c: CodePoint)
    requires HighSurrogate(c) && Stands(s, i, Unit(c)) && NoLowUnit(s, i + 6)
    ensures ReadsAs(s, i, c, i + 6)
  {
    ReadUnit(s, i, c);
  }

  lemma StringStep(s: string, i: nat, c: CodePoint, j: nat, rest: seq<CodePoint>, e: nat)
    requires ReadsAs(s, i, c, j) && StringBody(s, j) == At(rest, e)
    ensures StringBody(s, i) == At([c] + rest, e)
  {
  }

  lemma EscapedParts(s: string, i: nat, text: seq<CodePoint>, ascii: bool)
    requires text != [] && Writable(text, ascii) && Stands(s, i, Escaped(text, ascii))
    ensures Writable([text[0]], ascii) && Writable(text[1..], ascii)
    ensures |Escaped(text, ascii)| == |EscapeChar(text[0], ascii)| + |Escaped(text[1..], ascii)|
    ensures Stands(s, i, EscapeChar(text[0], ascii))
    ensures Stands(s, i + |EscapeChar(text[0], ascii)|, Escaped(text[1..], ascii))
  {
    EscapedHead(text, ascii);
    JoinStands(s, i, Escaped(text, ascii), EscapeChar(text[0], ascii), Escaped(text[1..], ascii));
  }

  lemma EscapedHead(text: seq<CodePoint>, ascii: bool)
    requires text != [] && Writable(text, ascii)
    ensures Writable([text[0]], ascii) && Writable(text[1..], ascii)
    ensures Escaped(text, ascii) == EscapeChar(text[0], ascii) + Escaped(text[1..], ascii)
  {
  }

  // What is read of a printed text: a pair of surrogates becomes the character it encodes.
  function Paired(text: seq<CodePoint>): (r: seq<CodePoint>)
  {
    if text == [] then []
    else if PairAt(text, 0) then [0x10000 + (text[0] - 0xD800) * 0x400 + (text[1] - 0xDC00)] + Paired(text[2..])
    else [text[0]] + Paired(text[1..])
  }

  lemma {:induction false} PairedShortens(text: seq<CodePoint>)
    ensures |Paired(text)| <= |text|
  {
    if text != [] { PairedShortens(if PairAt(text, 0) then text[2..] else text[1..]); }
  }

  lemma {:induction false} PairedSameIff(text: seq<CodePoint>)
    ensures Paired(text) == text <==> NoPairs(text)
  {
    if text != [] {
      if PairAt(text, 0) {
        PairedShortens(text[2..]);
      } else {
        PairedSameIff(text[1..]);
        assert text == [text[0]] + text[1..];
        assert forall k: nat :: 0 < k < |text| ==> (PairAt(text, k) <==> PairAt(text[1..], k - 1));
        PairsBehind(text);
      }
    }
  }

  lemma PairsBehind(text: seq<CodePoint>)
    requires text != [] && !PairAt(text, 0)
    ensures NoPairs(text) <==> NoPairs(text[1..])
  {
    forall k: nat | k < |text| - 1 ensures PairAt(text[1..], k) <==> PairAt(text, k + 1) {}
    if !NoPairs(text) {
      var k: nat :| k < |text| && PairAt(text, k);
      assert PairAt(text[1..], k - 1);
    }
  }

  // A single character, and what stands behind it.
  lemma ReadSingle(s: string, i: nat, text: seq<CodePoint>, ascii: bool)
    requires text != [] && Writable(text, ascii) && !PairAt(text, 0) && Stands(s, i, Escaped(text, ascii))
    requires i + |Escaped(text, ascii)| < |s| && s[i + |Escaped(text, ascii)|] == '"'
    ensures Writable([text[0]], ascii) && ReadsAs(s, i, text[0], i + |EscapeChar(text[0], ascii)|)
  {
    EscapedParts(s, i, text, ascii);
    EscapeForms(text[0], ascii);
    if HighSurrogate(text[0]) {
      if |text| > 1 {
        EscapedParts(s, i + 6, text[1..], ascii);
        NotLow(s, i + 6, text[1], ascii);
      }
      ReadHigh(s, i, text[0]);
    } else {
      ReadEscape(s, i, text[0], ascii);
    }
  }

  lemma ReadDouble(s: string, i: nat, text: seq<CodePoint>, ascii: bool)
    requires Writable(text, ascii) && PairAt(text, 0) && Stands(s, i, Escaped(text, ascii))
    ensures Writable(text[2..], ascii) && Stands(s, i + 12, Escaped(text[2..], ascii))
    ensures |Escaped(text, ascii)| == 12 + |Escaped(text[2..], ascii)|
    ensures ReadsAs(s, i, 0x10000 + (text[0] - 0xD800) * 0x400 + (text[1] - 0xDC00), i + 12)
  {
    EscapedParts(s, i, text, ascii);
    EscapeForms(text[0], ascii);
    EscapedParts(s, i + 6, text[1..], ascii);
    EscapeForms(text[1], ascii);
    assert text[1..][1..] == text[2..];
    ReadUnit(s, i, text[0]);
    ReadUnit(s, i + 6, text[1]);
  }

  // The character that a text begins with once its pairs are joined, and the rest.
  function First(text: seq<CodePoint>): (c: CodePoint)
    requires text != []
  {
    if PairAt(text, 0) then 0x10000 + (text[0] - 0xD800) * 0x400 + (text[1] - 0xDC00) else text[0]
  }

  function Rest(text: seq<CodePoint>): (rest: seq<CodePoint>)
    requires text != []
    ensures |rest| < |text|
  {
    if PairAt(text, 0) then text[2..] else text[1..]
  }

  lemma ReadFirst(s: string, i: nat, text: seq<CodePoint>, ascii: bool) returns (j: nat)
    requires text != [] && Writable(text, ascii) && Stands(s, i, Escaped(text, ascii))
    requires i + |Escaped(text, ascii)| < |s| && s[i + |Escaped(text, ascii)|] == '"'
    ensures ReadsAs(s, i, First(text), j) && Writable(Rest(text), ascii)
    ensures Stands(s, j, Escaped(Rest(text), ascii)) && j + |Escaped(Rest(text), ascii)| == i + |Escaped(text, ascii)|
  {
    if PairAt(text, 0) {
      ReadDouble(s, i, text, ascii);
      j := i + 12;
    } else {
      EscapedParts(s, i, text, ascii);
      ReadSingle(s, i, text, ascii);
      j := i + |EscapeChar(text[0], ascii)|;
    }
  }

  lemma PairedStep(text: seq<CodePoint>)
    requires text != []
    ensures Paired(text) == [First(text)] + Paired(Rest(text))
  {
  }

  lemma {:induction false} ReadString(s: string, i: nat, text: seq<CodePoint>, ascii: bool)
    requires Writable(text, ascii) && Stands(s, i, Escaped(text, ascii))
    requires i + |Escaped(text, ascii)| < |s| && s[i + |Escaped(text, ascii)|] == '"'
    ensures StringBody(s, i) == At(Paired(text), i + |Escaped(text, ascii)| + 1)
    decreases |text|
  {
    if text != [] {
      var j := ReadFirst(s, i, text, ascii);
      ReadString(s, j, Rest(text), ascii);
      PairedStep(text);
      StringStep(s, i, First(text), j, Paired(Rest(text)), i + |Escaped(text, ascii)| + 1);
    }
  }

  lemma ReadQuoted(s: string, i: nat, text: seq<CodePoint>, ascii: bool)
    requires Writable(text, ascii) && Stands(s, i, Quoted(text, ascii))
    ensures i < |s| && s[i] == '"' && StringBody(s, i + 1) == At(Paired(text), i + |Quoted(text, ascii)|)
  {
    var body := Escaped(text, ascii);
    StandsParts(s, i, "\"", body + "\"");
    StandsHead(s, i, "\"");
    StandsParts(s, i + 1, body, "\"");
    StandsHead(s, i + 1 + |body|, "\"");
    ReadString(s, i + 1, text, ascii);
  }

  lemma ReadKept(s: string, i: nat, text: seq<CodePoint>, ascii: bool)
    requires Writable(text, ascii) && NoPairs(text) && Stands(s, i, Quoted(text, ascii))
    ensures i < |s| && s[i] == '"' && StringBody(s, i + 1) == At(text, i + |Quoted(text, ascii)|)
  {
    ReadQuoted(s, i, text, ascii);
    PairedSameIff(text);
  }

  lemma WholeString(s: string, text: seq<CodePoint>)
    requires s != [] && s[0] == '"' && StringBody(s, 1) == At(text, |s|)
    ensures Loads(s) == Some(JString(text))
  {
    StringValue(s, 0);
    assert SkipSpace(s, 0) == 0 && SkipSpace(s, |s|) == |s|;
  }

  lemma PrintedString(s: string, text: seq<CodePoint>, ascii: bool)
    requires Writable(text, ascii) && s == Quoted(text, ascii)
    ensures s != [] && s[0] == '"' && StringBody(s, 1) == At(Paired(text), |s|)
  {
    StandsWhole(s);
    ReadQuoted(s, 0, text, ascii);
  }

  // A printed string is read back with its surrogate pairs joined, so that it is kept exactly when it
  // has none.
  lemma PrintedStringIff(text: seq<CodePoint>, ascii: bool)
    requires Writable(text, ascii)
    ensures Loads(Quoted(text, ascii)) == Some(JString(Paired(text)))
    ensures Loads(Quoted(text, ascii)) == Some(JString(text)) <==> NoPairs(text)
  {
    var s := Quoted(text, ascii);
    PrintedString(s, text, ascii);
    WholeString(s, Paired(text));
    PairedSameIff(text);
  }

  // ----- A printed text spells its value -----

  predicate Blank(w: string) { forall k :: 0 <= k < |w| ==> WhiteChar(w[k]) }

  ghost predicate Gaps(gap: nat -> string) { forall k: nat :: Blank(gap(k)) }

  lemma GapIsWhite(s: string, i: nat, w: string)
    requires Blank(w) && Stands(s, i, w)
    ensures White(s, i, i + |w|)
  {
    forall k | i <= k < i + |w| ensures WhiteChar(s[k]) { assert s[i + (k - i)] == w[k - i]; }
  }

  // A text, a gap and what follows, where they stand.
  lemma GapParts(s: string, i: nat, a: string, g: string, b: string)
    requires Blank(g) && Stands(s, i, a + (g + b))
    ensures Stands(s, i, a) && White(s, i + |a|, i + |a| + |g|) && Stands(s, i + |a| + |g|, b)
  {
    StandsParts(s, i, a, g + b);
    StandsParts(s, i + |a|, g, b);
    GapIsWhite(s, i + |a|, g);
  }

  lemma DigitsStand(w: string, i: nat, j: nat, s: string, d: nat)
    requires Digits(w, i, j) && Stands(s, d, w)
    ensures Digits(s, d + i, d + j)
  {
    forall k | d + i <= k < d + j ensures '0' <= s[k] <= '9' { assert s[d + (k - d)] == w[k - d]; }
  }

  lemma IntegerStands(w: string, i: nat, a: nat, s: string, d: nat)
    requires IntegerAt(w, i, a) && Stands(s, d, w)
    ensures IntegerAt(s, d + i, d + a)
  {
    assert s[d + i] == w[i];
    if w[i] != '0' { DigitsStand(w, i, a, s, d); }
  }

  lemma FractionStands(w: string, a: nat, b: nat, s: string, d: nat)
    requires FractionAt(w, a, b) && Stands(s, d, w)
    ensures FractionAt(s, d + a, d + b)
  {
    if a < b {
      assert s[d + a] == w[a];
      DigitsStand(w, a + 1, b, s, d);
    }
  }

  lemma ExponentStands(w: string, b: nat, j: nat, s: string, d: nat)
    requires ExponentAt(w, b, j) && Stands(s, d, w)
    ensures ExponentAt(s, d + b, d + j)
  {
    if b < j {
      assert s[d + b] == w[b] && s[d + (b + 1)] == w[b + 1];
      if Digits(w, b + 1, j) { DigitsStand(w, b + 1, j, s, d); } else { DigitsStand(w, b + 2, j, s, d); }
    }
  }

  lemma NumberStands(w: string, s: string, d: nat)
    requires NumberAt(w, 0, |w|) && Stands(s, d, w)
    ensures NumberAt(s, d, d + |w|) && s[d..d + |w|] == w
  {
    var a: nat, b: nat :| NumberParts(w, 0, a, b, |w|);
    assert s[d + 0] == w[0];
    IntegerStands(w, if Signed(w, 0) then 1 else 0, a, s, d);
    FractionStands(w, a, b, s, d);
    ExponentStands(w, b, |w|, s, d);
    assert NumberParts(s, d, d + a, d + b, d + |w|);
  }

  lemma QuotedSpells(s: string, i: nat, text: seq<CodePoint>, ascii: bool)
    requires Writable(text, ascii) && NoPairs(text) && Stands(s, i, Quoted(text, ascii))
    ensures QuotedAt(s, i, i + |Quoted(text, ascii)|, text)
  {
    ReadKept(s, i, text, ascii);
    QuotedIs(s, i, text, i + |Quoted(text, ascii)|);
  }

  lemma {:induction false} PrintSpells(s: string, i: nat, v: Json, ascii: bool, gap: nat -> string, k: nat)
    requires Printable(v, ascii) && Gaps(gap) && Stands(s, i, Print(v, ascii, gap, k))
    ensures Spells(s, i, i + |Print(v, ascii, gap, k)|, v)
    decreases v, 1
  {
    match v
    case JNull =>
    case JBool(b) =>
    case JNumber(lexeme) => NumberStands(lexeme, s, i);
    case JString(t) => QuotedSpells(s, i, t, ascii);
    case JArray(items) => ArraySpells(s, i, v, items, ascii, gap, k);
    case JObject(members) => ObjectSpells(s, i, v, members, ascii, gap, k);
  }

  lemma {:induction false} ArraySpells(s: string, i: nat, v: Json, items: seq<Json>, ascii: bool, gap: nat -> string,
                                       k: nat)
    requires v == JArray(items) && Printable(v, ascii) && Gaps(gap) && Stands(s, i, Print(v, ascii, gap, k))
    ensures Spells(s, i, i + |Print(v, ascii, gap, k)|, v)
    decreases v, 0
  {
    GapParts(s, i, "[", gap(k), PrintItems(items, ascii, gap, k + 1));
    StandsHead(s, i, "[");
    ItemsSpell(s, i + 1 + |gap(k)|, items, ascii, gap, k + 1);
  }

  lemma {:induction false} ObjectSpells(s: string, i: nat, v: Json, members: seq<(seq<CodePoint>, Json)>, ascii: bool,
                                        gap: nat -> string, k: nat)
    requires v == JObject(members) && Printable(v, ascii) && Gaps(gap) && Stands(s, i, Print(v, ascii, gap, k))
    ensures Spells(s, i, i + |Print(v, ascii, gap, k)|, v)
    decreases v, 0
  {
    GapParts(s, i, "{", gap(k), PrintMembers(members, ascii, gap, k + 1));
    StandsHead(s, i, "{");
    MembersSpell(s, i + 1 + |gap(k)|, members, ascii, gap, k + 1);
  }

  lemma {:induction false} ItemsSpell(s: string, i: nat, items: seq<Json>, ascii: bool, gap: nat -> string, k: nat)
    requires PrintableItems(items, ascii) && Gaps(gap) && Stands(s, i, PrintItems(items, ascii, gap, k))
    ensures ItemsAt(s, i, i + |PrintItems(items, ascii, gap, k)|, items)
    decreases items, 0
  {
    if items == [] {
      StandsHead(s, i, "]");
    } else {
      var n := k + Tokens(items[0]);
      var w := Print(items[0], ascii, gap, k);
      GapParts(s, i, w, gap(n - 1), PrintMoreItems(items[1..], ascii, gap, n));
      PrintSpells(s, i, items[0], ascii, gap, k);
      MoreItemsSpell(s, i + |w| + |gap(n - 1)|, items[1..], ascii, gap, n);
    }
  }

  lemma {:induction false} MoreItemsSpell(s: string, i: nat, items: seq<Json>, ascii: bool, gap: nat -> string, k: nat)
    requires PrintableItems(items, ascii) && Gaps(gap) && Stands(s, i, PrintMoreItems(items, ascii, gap, k))
    ensures MoreItemsAt(s, i, i + |PrintMoreItems(items, ascii, gap, k)|, items)
    decreases items, 1
  {
    if items == [] {
      StandsHead(s, i, "]");
    } else {
      GapParts(s, i, ",", gap(k), PrintItems(items, ascii, gap, k + 1));
      StandsHead(s, i, ",");
      ItemsSpell(s, i + 1 + |gap(k)|, items, ascii, gap, k + 1);
    }
  }

  lemma KeySpelled(s: string, i: nat, key: seq<CodePoint>, g: string, h: string, w: string, ascii: bool)
    requires Writable(key, ascii) && NoPairs(key) && Blank(g) && Blank(h)
    requires Stands(s, i, Quoted(key, ascii) + (g + (":" + (h + w))))
    ensures var a := i + |Quoted(key, ascii)| + |g| + 1 + |h|; KeySpells(s, i, a, key) && Stands(s, a, w)
  {
    var q := Quoted(key, ascii);
    GapParts(s, i, q, g, ":" + (h + w));
    GapParts(s, i + |q| + |g|, ":", h, w);
    StandsHead(s, i + |q| + |g|, ":");
    QuotedSpells(s, i, key, ascii);
  }

  lemma {:induction false} MemberSpells(s: string, i: nat, m: (seq<CodePoint>, Json), ascii: bool, gap: nat -> string,
                                        k: nat)
    requires PrintableMember(m, ascii) && Gaps(gap) && Stands(s, i, PrintMember(m, ascii, gap, k))
    ensures MemberAt(s, i, i + |PrintMember(m, ascii, gap, k)|, m)
    decreases m, 0
  {
    var w := Print(m.1, ascii, gap, k + 2);
    KeySpelled(s, i, m.0, gap(k), gap(k + 1), w, ascii);
    PrintSpells(s, i + |Quoted(m.0, ascii)| + |gap(k)| + 1 + |gap(k + 1)|, m.1, ascii, gap, k + 2);
  }

  lemma {:induction false} MembersSpell(s: string, i: nat, members: seq<(seq<CodePoint>, Json)>, ascii: bool,
                                        gap: nat -> string, k: nat)
    requires PrintableMembers(members, ascii) && Gaps(gap) && Stands(s, i, PrintMembers(members, ascii, gap, k))
    ensures MembersAt(s, i, i + |PrintMembers(members, ascii, gap, k)|, members)
    decreases members, 1
  {
    if members == [] {
      StandsHead(s, i, "}");
    } else {
      MemberTextSpells(s, i, i + |PrintMembers(members, ascii, gap, k)|, members, ascii, gap, k,
                       k + 2 + PairTokens(members[0]), PrintMember(members[0], ascii, gap, k));
    }
  }

  lemma {:induction false} MemberTextSpells(s: string, i: nat, j: nat, members: seq<(seq<CodePoint>, Json)>,
                                            ascii: bool, gap: nat -> string, k: nat, n: nat, w: string)
    requires members != [] && PrintableMembers(members, ascii) && Gaps(gap)
    requires n == k + 2 + PairTokens(members[0]) && w == PrintMember(members[0], ascii, gap, k)
    requires Stands(s, i, PrintMembers(members, ascii, gap, k)) && j == i + |PrintMembers(members, ascii, gap, k)|
    ensures MembersAt(s, i, j, members)
    decreases members, 0
  {
    var e, b := i + |w|, i + |w| + |gap(n - 1)|;
    MembersParts(s, i, members, ascii, gap, k, n, w);
    MemberSpells(s, i, members[0], ascii, gap, k);
    MoreMembersSpell(s, b, members[1..], ascii, gap, n);
    MembersJoin(s, i, e, b, j, members);
  }

  // The first member, the gap behind it, and the rest.
  lemma MembersParts(s: string, i: nat, members: seq<(seq<CodePoint>, Json)>, ascii: bool, gap: nat -> string, k: nat,
                     n: nat, w: string)
    requires members != [] && PrintableMembers(members, ascii) && Gaps(gap)
    requires n == k + 2 + PairTokens(members[0]) && w == PrintMember(members[0], ascii, gap, k)
    requires Stands(s, i, PrintMembers(members, ascii, gap, k))
    ensures Stands(s, i, w) && White(s, i + |w|, i + |w| + |gap(n - 1)|)
    ensures Stands(s, i + |w| + |gap(n - 1)|, PrintMoreMembers(members[1..], ascii, gap, n))
    ensures |PrintMembers(members, ascii, gap, k)| ==
            |w| + |gap(n - 1)| + |PrintMoreMembers(members[1..], ascii, gap, n)|
  {
    GapParts(s, i, w, gap(n - 1), PrintMoreMembers(members[1..], ascii, gap, n));
  }

  lemma MembersJoin(s: string, i: nat, e: nat, b: nat, j: nat, members: seq<(seq<CodePoint>, Json)>)
    requires members != [] && MemberAt(s, i, e, members[0]) && White(s, e, b) && MoreMembersAt(s, b, j, members[1..])
    ensures MembersAt(s, i, j, members)
  {
  }

  lemma {:induction false} MoreMembersSpell(s: string, i: nat, members: seq<(seq<CodePoint>, Json)>, ascii: bool,
                                            gap: nat -> string, k: nat)
    requires PrintableMembers(members, ascii) && Gaps(gap) && Stands(s, i, PrintMoreMembers(members, ascii, gap, k))
    ensures MoreMembersAt(s, i, i + |PrintMoreMembers(members, ascii, gap, k)|, members)
    decreases members, 2
  {
    if members == [] {
      StandsHead(s, i, "}");
    } else {
      GapParts(s, i, ",", gap(k), PrintMembers(members, ascii, gap, k + 1));
      StandsHead(s, i, ",");
      MembersSpell(s, i + 1 + |gap(k)|, members, ascii, gap, k + 1);
    }
  }

  // ----- What the provider printed is what the caller gets -----

  // The four characters of RFC 8259, section 2.
  ghost predicate OnlyWhite(w: string)
  {
    forall c :: c in w ==> c as int == 0x20 || c as int == 0x09 || c as int == 0x0A || c as int == 0x0D
  }

  lemma BlankIs(w: string)
    requires OnlyWhite(w)
    ensures Blank(w)
  {
    forall k | 0 <= k < |w| ensures WhiteChar(w[k]) { assert w[k] in w; }
  }

  lemma GapsAre(gap: nat -> string)
    requires forall k: nat :: OnlyWhite(gap(k))
    ensures Gaps(gap)
  {
    forall k: nat ensures Blank(gap(k)) { BlankIs(gap(k)); }
  }

  // Whatever white space stands between any two tokens of an object or array, its text is a document.
  lemma PrintedIsDocument(v: Json, ascii: bool, gap: nat -> string)
    requires Printable(v, ascii) && (v.JObject? || v.JArray?) && (forall k: nat :: OnlyWhite(gap(k)))
    ensures Document(Print(v, ascii, gap, 0)) && Value(Print(v, ascii, gap, 0), 0).value == v
  {
    var s := Print(v, ascii, gap, 0);
    GapsAre(gap);
    StandsWhole(s);
    PrintSpells(s, 0, v, ascii, gap, 0);
    ValueIsComplete(s, 0, v, |s|);
  }

  lemma DocumentAround(s: string, i: nat, e: nat, v: Json)
    requires White(s, 0, i) && Spells(s, i, e, v) && White(s, e, |s|)
    ensures Loads(s) == Some(v)
  {
    LoadsIff(s, v);
  }

  // A value printed with any white space between its tokens and around it is decoded to itself.
  lemma PrintedRoundTrip(v: Json, ascii: bool, gap: nat -> string, before: string, behind: string)
    requires Printable(v, ascii) && OnlyWhite(before) && OnlyWhite(behind) && (forall k: nat :: OnlyWhite(gap(k)))
    ensures Loads(before + Print(v, ascii, gap, 0) + behind) == Some(v)
  {
    var w := Print(v, ascii, gap, 0);
    var s := before + w + behind;
    GapsAre(gap);
    BlankIs(before);
    BlankIs(behind);
    assert Stands(s, |before|, w);
    GapIsWhite(s, 0, before);
    GapIsWhite(s, |before| + |w|, behind);
    PrintSpells(s, |before|, v, ascii, gap, 0);
    DocumentAround(s, |before|, |before| + |w|, v);
  }

  lemma PrintedObjectInProse(pre: string, v: Json, suf: string, ascii: bool, gap: nat -> string)
    requires Printable(v, ascii) && v.JObject? && '{' !in pre && (forall k: nat :: OnlyWhite(gap(k)))
    requires var s := Strip(pre + Print(v, ascii, gap, 0) + suf); !StartsWithFence(s) && Loads(s).None?
    ensures Extract(pre + Print(v, ascii, gap, 0) + suf) == v
  {
    PrintedIsDocument(v, ascii, gap);
    ObjectInProse(pre, Print(v, ascii, gap, 0), suf);
  }
}
