// What the caller of a provider makes of its text: prose, fences, and the token ceiling.
module JsonRecovery {
  import opened Options
  import opened JsonText
  import opened JsonSalvage

  // ----- Recovery is a decoder run at each opener, braces before brackets -----

  lemma RecoverIsDecoder(s: string)
    ensures Recover(s) ==
            if s == [] then JNull
            else if Loads(s).Some? then Loads(s).value
            else if FirstValue(s, 0, '{').Some? then FirstValue(s, 0, '{').value
            else if FirstValue(s, 0, '[').Some? then FirstValue(s, 0, '[').value
            else JNull
  {
    ScanIsDecoder(s, 0, '{', '}');
    ScanIsDecoder(s, 0, '[', ']');
  }

  // The text of one object or array with nothing around it.
  predicate Document(d: string)
  {
    |d| > 0 && (d[0] == '{' || d[0] == '[') && Value(d, 0).At? && Value(d, 0).end == |d|
  }

  lemma DocumentCloses(d: string)
    requires Document(d)
    ensures d[|d| - 1] == (if d[0] == '{' then '}' else ']')
  {
    if d[0] == '{' { ScanObject(d, 1, 1, '{', '}'); } else { ScanArray(d, 1, 1, '{', '}'); }
  }

  lemma DocumentEnds(d: string)
    requires Document(d)
    ensures d[|d| - 1] == (if d[0] == '{' then '}' else ']')
    ensures Loads(d) == Some(Value(d, 0).value) && !Value(d, 0).value.JNull?
    ensures !TextSpace(d[0]) && !TextSpace(d[|d| - 1])
  {
    DocumentCloses(d);
    BracketLoads(d);
  }

  lemma {:induction false} FirstValueSkips(s: string, i: nat, j: nat, o: char)
    requires i <= j <= |s| && o !in s[i..j]
    ensures FirstValue(s, i, o) == FirstValue(s, j, o)
    decreases j - i
  {
    if i < j {
      assert s[i] == s[i..j][0] && s[i + 1..j] == s[i..j][1..];
      FirstValueSkips(s, i + 1, j, o);
    }
  }

  lemma {:induction false} VisibleFromPrefix(pre: string, d: string, i: nat)
    requires i <= |pre| && d != [] && !TextSpace(d[0])
    ensures VisibleFrom(pre + d, i) == VisibleFrom(pre, i)
    decreases |pre| - i
  {
    if i < |pre| && TextSpace(pre[i]) { VisibleFromPrefix(pre, d, i + 1); }
  }

  lemma {:induction false} VisibleToSuffix(d: string, suf: string, j: nat)
    requires j <= |suf| && d != [] && !TextSpace(d[|d| - 1])
    ensures VisibleTo(d + suf, |d| + j) == |d| + VisibleTo(suf, j)
  {
    if j > 0 && TextSpace(suf[j - 1]) { VisibleToSuffix(d, suf, j - 1); }
  }

  lemma LeftStripPrefix(pre: string, d: string)
    requires d != [] && !TextSpace(d[0])
    ensures LeftStrip(pre + d) == LeftStrip(pre) + d
  {
    VisibleFromPrefix(pre, d, 0);
  }

  lemma RightStripSuffix(d: string, suf: string)
    requires d != [] && !TextSpace(d[|d| - 1])
    ensures RightStrip(d + suf) == d + RightStrip(suf)
  {
    VisibleToSuffix(d, suf, |suf|);
  }

  lemma StripAround(pre: string, d: string, suf: string)
    requires d != [] && !TextSpace(d[0]) && !TextSpace(d[|d| - 1])
    ensures Strip(pre + d + suf) == LeftStrip(pre) + d + RightStrip(suf)
  {
    assert pre + d + suf == pre + (d + suf);
    LeftStripPrefix(pre, d + suf);
    assert LeftStrip(pre) + (d + suf) == (LeftStrip(pre) + d) + suf;
    RightStripSuffix(LeftStrip(pre) + d, suf);
  }

  // Reading a document inside a longer text.
  lemma DocumentWithin(p: string, d: string, q: string, k: nat)
    requires Document(d) && k < |d| && d[k] == '{' && Value(d, k).At?
    ensures Value(p + d + q, |p| + k) == At(Value(d, k).value, |p| + Value(d, k).end)
  {
    ShiftValue(d, k, 0, |d|, p + d + q, |p|);
  }

  lemma RecoverWithin(p: string, d: string, q: string, k: nat)
    requires Document(d) && k < |d| && d[k] == '{' && Value(d, k).At?
    requires '{' !in p && '{' !in d[..k]
    ensures Recover(p + d + q) == if Loads(p + d + q).Some? then Loads(p + d + q).value else Value(d, k).value
  {
    FirstBraceWithin(p, d, q, k);
    RecoverIsDecoder(p + d + q);
  }

  lemma FirstBraceWithin(p: string, d: string, q: string, k: nat)
    requires Document(d) && k < |d| && d[k] == '{' && Value(d, k).At?
    requires '{' !in p && '{' !in d[..k]
    ensures FirstValue(p + d + q, 0, '{') == Some(Value(d, k).value)
  {
    var s := p + d + q;
    DocumentWithin(p, d, q, k);
    assert s[0..|p| + k] == p + d[..k];
    FirstValueSkips(s, 0, |p| + k, '{');
  }

  lemma ExtractBare(raw: string)
    requires !StartsWithFence(Strip(raw))
    ensures Extract(raw) == Recover(Strip(raw))
    ensures FullDocument(raw) == if Strip(raw) == [] then None else Loads(Strip(raw))
  {
  }

  // Braces are tried before brackets, so a document in brace-free prose gives way to what its first
  // brace opens, unless the whole text is itself a JSON value.
  lemma FirstBraceInProse(pre: string, d: string, suf: string, k: nat)
    requires Document(d) && k < |d| && d[k] == '{' && Value(d, k).At?
    requires '{' !in pre && '{' !in d[..k]
    requires !StartsWithFence(Strip(pre + d + suf))
    ensures Extract(pre + d + suf) ==
            if Loads(Strip(pre + d + suf)).Some? then Loads(Strip(pre + d + suf)).value else Value(d, k).value
  {
    DocumentEnds(d);
    StripAround(pre, d, suf);
    ExtractBare(pre + d + suf);
    RecoverWithin(LeftStrip(pre), d, RightStrip(suf), k);
  }

  // An object comes back, whatever its strings hold and whatever follows it.
  lemma ObjectInProse(pre: string, d: string, suf: string)
    requires Document(d) && d[0] == '{' && '{' !in pre
    requires !StartsWithFence(Strip(pre + d + suf))
    ensures Extract(pre + d + suf) ==
            if Loads(Strip(pre + d + suf)).Some? then Loads(Strip(pre + d + suf)).value else Value(d, 0).value
  {
    FirstBraceInProse(pre, d, suf, 0);
  }

  // Where the element of index j begins, counted from the one that begins at i.
  function ElementAt(s: string, i: nat, j: nat): (k: Option<nat>)
    requires i <= |s|
    ensures k.Some? ==> i <= k.value <= |s|
    decreases j
  {
    if j == 0 then Some(i) else
    match Value(s, i)
    case Fail => None
    case At(_, e) =>
      match SeparatorAt(s, e, ']')
      case Comma(next) => ElementAt(s, next, j - 1)
      case _ => None
  }

  function ItemAt(a: string, j: nat): (k: Option<nat>)
    requires a != []
    ensures k.Some? ==> k.value <= |a|
  {
    ElementAt(a, SkipSpace(a, 1), j)
  }

  lemma ElementsGoOn(s: string, i: nat, vs: seq<Json>, end: nat)
    requires i <= |s| && Elements(s, i) == At(vs, end)
    ensures vs != [] && Value(s, i).At? && Value(s, i).value == vs[0] && Value(s, i).end < end
    ensures |vs| > 1 ==> SeparatorAt(s, Value(s, i).end, ']').Comma?
    ensures |vs| > 1 ==> Elements(s, SeparatorAt(s, Value(s, i).end, ']').next) == At(vs[1..], end)
  {
    var e := Value(s, i).end;
    assert MoreElements(s, e) == At(vs[1..], end);
  }

  lemma {:induction false} ElementAtReads(s: string, i: nat, j: nat, vs: seq<Json>, end: nat)
    requires i <= |s| && Elements(s, i) == At(vs, end) && j < |vs|
    ensures ElementAt(s, i, j).Some? &&
            var k := ElementAt(s, i, j).value;
            Value(s, k).At? && Value(s, k).value == vs[j] && Value(s, k).end < end
    decreases j
  {
    ElementsGoOn(s, i, vs, end);
    if j > 0 { ElementAtReads(s, SeparatorAt(s, Value(s, i).end, ']').next, j - 1, vs[1..], end); }
  }

  // Each item of an array is read where it begins.
  lemma ItemAtReads(a: string, j: nat)
    requires Document(a) && a[0] == '[' && j < |Value(a, 0).value.items|
    ensures ItemAt(a, j).Some? &&
            var k := ItemAt(a, j).value;
            Value(a, k).At? && Value(a, k).value == Value(a, 0).value.items[j] && Value(a, k).end < |a|
  {
    var vs := Value(a, 0).value.items;
    assert ArrayBody(a, 1) == At(vs, |a|);
    ElementAtReads(a, SkipSpace(a, 1), j, vs, |a|);
  }

  // An array gives way to its first object, when no brace stands before that.
  lemma ArrayInProse(pre: string, a: string, suf: string, j: nat, k: nat)
    requires Document(a) && a[0] == '[' && j < |Value(a, 0).value.items| && ItemAt(a, j) == Some(k)
    requires k < |a| && a[k] == '{' && '{' !in pre && '{' !in a[..k]
    requires !StartsWithFence(Strip(pre + a + suf))
    ensures Extract(pre + a + suf) ==
            if Loads(Strip(pre + a + suf)).Some? then Loads(Strip(pre + a + suf)).value else Value(a, 0).value.items[j]
  {
    ItemAtReads(a, j);
    FirstBraceInProse(pre, a, suf, k);
  }

  lemma RecoverPlain(p: string, a: string, q: string)
    requires Document(a) && a[0] == '[' && '[' !in p && '{' !in p && '{' !in a && '{' !in q
    ensures Recover(p + a + q) == if Loads(p + a + q).Some? then Loads(p + a + q).value else Value(a, 0).value
  {
    var s := p + a + q;
    assert s[0..|s|] == s && s[0..|p|] == p;
    FirstValueSkips(s, 0, |s|, '{');
    FirstValueSkips(s, 0, |p|, '[');
    ShiftValue(a, 0, 0, |a|, s, |p|);
    RecoverIsDecoder(s);
  }

  // Only where there is no brace at all does an array come back whole.
  lemma PlainArrayInProse(pre: string, a: string, suf: string)
    requires Document(a) && a[0] == '[' && '[' !in pre && '{' !in pre && '{' !in a && '{' !in suf
    requires !StartsWithFence(Strip(pre + a + suf))
    ensures Extract(pre + a + suf) ==
            if Loads(Strip(pre + a + suf)).Some? then Loads(Strip(pre + a + suf)).value else Value(a, 0).value
  {
    DocumentEnds(a);
    StripAround(pre, a, suf);
    ExtractBare(pre + a + suf);
    RecoverPlain(LeftStrip(pre), a, RightStrip(suf));
  }

  // ----- The token ceiling -----

  datatype Finish = Length | Error | Other

  datatype Reply = Nothing | ProviderFailed | Malformed | Truncated | Answer(v: Json)

  // The caller peels a fence off the stripped content before it asks for the object.
  function Peel(c: string): (r: string)
  {
    if StartsWithFence(c) then TrimFence(AfterFence(c)) else c
  }

  function TrimFence(w: string): (r: string)
  {
    if EndsWithFence(w) then Strip(w[..|w| - 3]) else w
  }

  function Cleaned(raw: string): (r: string) { Peel(Strip(raw)) }

  // The verdict on the final text, once the content is known not to be blank.
  function Judge(s: string, finish: Finish): (r: Reply)
  {
    if Recover(s).JNull? then Malformed
    else if finish.Length? && Whole(s).None? then Truncated
    else Answer(Recover(s))
  }

  // The part of _call_provider after the response arrived.
  function Interpret(raw: string, finish: Finish): (r: Reply)
  {
    if Strip(raw) == [] then (if finish.Error? then ProviderFailed else Nothing)
    else Parsed(Cleaned(raw), finish)
  }

  function Parsed(cleaned: string, finish: Finish): (r: Reply)
  {
    if Extract(cleaned).JNull? then Malformed
    else if finish.Length? && FullDocument(cleaned).None? then Truncated
    else Answer(Extract(cleaned))
  }

  lemma InterpretIsJudge(raw: string, finish: Finish)
    requires Strip(raw) != []
    ensures Interpret(raw, finish) == Judge(Core(Cleaned(raw)), finish)
  {
  }

  lemma RecoverWhole(s: string)
    requires Loads(s).Some? && s != []
    ensures Recover(s) == Loads(s).value
  {
  }

  lemma EmptyNeverDecodes()
    ensures Loads([]).None?
  {
  }

  lemma JudgeAtTheCeiling(s: string, v: Json)
    ensures Judge(s, Length) == Answer(v) <==> s != [] && Loads(s) == Some(v) && !v.JNull?
  {
    EmptyNeverDecodes();
    if Loads(s).Some? { RecoverWhole(s); }
  }

  // At the ceiling only a document that closed is an answer, and it is answered whole.
  lemma CeilingAnswersAreWhole(raw: string, v: Json)
    ensures Interpret(raw, Length) == Answer(v) <==>
            Strip(raw) != [] && FullDocument(Cleaned(raw)) == Some(v) && !v.JNull?
  {
    if Strip(raw) != [] {
      InterpretIsJudge(raw, Length);
      JudgeAtTheCeiling(Core(Cleaned(raw)), v);
    }
  }

  lemma PrefixNeverDecodes(d: string, p: string)
    requires Document(d) && p < d
    ensures Loads(p).None?
  {
    if p != [] {
      assert p[0] == d[0];
      if Value(p, 0).At? { ShiftValue(p, 0, 0, Value(p, 0).end, d, 0); }
    }
  }

  lemma StripPrefix(d: string, p: string)
    requires d != [] && !TextSpace(d[0]) && p <= d
    ensures Strip(p) == RightStrip(p) <= p
    ensures RightStrip(p) != [] ==> RightStrip(p)[0] == d[0] && Strip(RightStrip(p)) == RightStrip(p)
  {
    if p != [] { assert p[0] == d[0]; }
    var q := RightStrip(p);
    if q != [] { assert q[0] == p[0]; }
  }

  // The text that is finally judged, when what is left of it is stripped and carries no fence.
  lemma JudgedText(raw: string, x: string, finish: Finish)
    requires Strip(raw) != [] && Cleaned(raw) == x
    requires x == RightStrip(x) && (x != [] ==> !TextSpace(x[0])) && !StartsWithFence(x)
    ensures Interpret(raw, finish) == Judge(x, finish)
  {
    assert Strip(x) == x && Core(x) == x;
    InterpretIsJudge(raw, finish);
  }

  // Text that opens with a bracket is not fenced and is stripped on the right alone.
  lemma BarePrefix(d: string, p: string, finish: Finish)
    requires d != [] && (d[0] == '{' || d[0] == '[') && p <= d && RightStrip(p) != []
    ensures FullDocument(p) == Loads(RightStrip(p))
    ensures Interpret(p, finish) == Judge(RightStrip(p), finish)
  {
    StripPrefix(d, p);
    ExtractBare(p);
    JudgedText(p, RightStrip(p), finish);
  }

  predicate Refused(r: Reply) { r.Nothing? || r.Malformed? || r.Truncated? }

  lemma JudgeRefuses(x: string)
    requires Loads(x).None?
    ensures Refused(Judge(x, Length))
  {
  }

  lemma JudgeWhole(d: string, finish: Finish)
    requires Document(d)
    ensures Judge(d, finish) == Answer(Value(d, 0).value)
  {
    DocumentEnds(d);
    RecoverWhole(d);
  }

  // However the output is cut short, the gate refuses it: no first item is salvaged.
  lemma CutIsRefused(d: string, n: nat)
    requires Document(d) && n < |d|
    ensures FullDocument(d[..n]).None?
    ensures Refused(Interpret(d[..n], Length))
  {
    var p := d[..n];
    StripPrefix(d, p);
    if RightStrip(p) == [] {
      assert Strip(p) == [] && Core(p) == [];
    } else {
      BarePrefix(d, p, Length);
      PrefixNeverDecodes(d, RightStrip(p));
      JudgeRefuses(RightStrip(p));
    }
  }

  lemma ClosedIsAnswered(d: string, finish: Finish)
    requires Document(d)
    ensures Interpret(d, finish) == Answer(Value(d, 0).value)
  {
    DocumentEnds(d);
    assert RightStrip(d) == d;
    BarePrefix(d, d, finish);
    JudgeWhole(d, finish);
  }

  lemma FirstBraceSalvaged(d: string, p: string, k: nat)
    requires Document(d) && p < d && k < |d| && d[k] == '{' && '{' !in d[..k]
    requires Value(d, k).At? && Value(d, k).end <= |p|
    ensures Recover(p) == Value(d, k).value
  {
    PrefixNeverDecodes(d, p);
    assert p[0..k] == d[..k];
    ShiftValue(d, k, 0, |p|, p, 0);
    FirstValueSkips(p, 0, k, '{');
    RecoverIsDecoder(p);
  }

  lemma ObjectEnds(d: string, k: nat)
    requires k < |d| && d[k] == '{' && Value(d, k).At?
    ensures d[Value(d, k).end - 1] == '}' && Value(d, k).value.JObject?
  {
    ScanObject(d, k + 1, 1, '{', '}');
  }

  lemma CutKeepsTheElement(d: string, e: nat, n: nat)
    requires e <= n < |d| && e > 0 && !TextSpace(d[e - 1])
    ensures e <= |RightStrip(d[..n])|
  {
    assert d[..n] == d[..e] + d[e..n];
    RightStripSuffix(d[..e], d[e..n]);
  }

  lemma JudgeSalvage(p: string)
    requires Loads(p).None? && !Recover(p).JNull?
    ensures Judge(p, Other) == Answer(Recover(p)) && Judge(p, Length) == Truncated
  {
  }

  // What the gate is for: the same cut with another finish reason answers the first object alone.
  lemma UngatedCutSalvages(d: string, n: nat, k: nat)
    requires Document(d) && k < |d| && d[k] == '{' && '{' !in d[..k]
    requires Value(d, k).At? && Value(d, k).end <= n < |d|
    ensures Interpret(d[..n], Other) == Answer(Value(d, k).value)
    ensures Interpret(d[..n], Length) == Truncated
  {
    var e := Value(d, k).end;
    var p := RightStrip(d[..n]);
    ObjectEnds(d, k);
    CutKeepsTheElement(d, e, n);
    BarePrefix(d, d[..n], Other);
    BarePrefix(d, d[..n], Length);
    PrefixNeverDecodes(d, p);
    FirstBraceSalvaged(d, p, k);
    JudgeSalvage(p);
  }

  // ----- The same for output in a fence -----

  predicate Tag(tag: string) { tag == "" || tag == "json" }

  function Fenced(tag: string, d: string): (r: string) { FENCE + tag + "\n" + (d + "\n```") }

  // An opening line: a fence, visible text and the line feed.
  predicate Header(h: string)
  {
    |h| >= 4 && StartsWithFence(h) && h[|h| - 1] == '\n' && forall k :: 0 <= k < |h| - 1 ==> h[k] != '\n'
  }

  lemma AfterHeader(h: string, w: string)
    requires Header(h)
    ensures StartsWithFence(h + w) && AfterFence(h + w) == w
  {
    var c := h + w;
    assert c[|h| - 1] == '\n';
    assert forall k :: 0 <= k < |h| - 1 ==> c[k] != '\n';
    assert IndexFrom(c, '\n', 0) == |h| - 1;
  }

  lemma RightStripHead(h: string, u: string)
    requires u != [] && !TextSpace(u[0])
    ensures RightStrip(h + u) == h + RightStrip(u) && RightStrip(u) != [] && RightStrip(u)[0] == u[0]
  {
    assert u == [u[0]] + u[1..];
    assert h + u == (h + [u[0]]) + u[1..];
    RightStripSuffix(h + [u[0]], u[1..]);
    RightStripSuffix([u[0]], u[1..]);
    assert (h + [u[0]]) + RightStrip(u[1..]) == h + ([u[0]] + RightStrip(u[1..]));
  }

  lemma StripVisible(s: string)
    requires s != [] && !TextSpace(s[0])
    ensures Strip(s) == RightStrip(s)
  {
    assert LeftStrip(s) == s;
  }

  // Past the opening line, the fence is peeled off whatever has arrived.
  lemma FenceIsPeeled(h: string, u: string)
    requires Header(h) && u != [] && !TextSpace(u[0])
    ensures Strip(h + u) != [] && Cleaned(h + u) == TrimFence(RightStrip(u))
  {
    RightStripHead(h, u);
    assert (h + u)[0] == '`';
    StripVisible(h + u);
    AfterHeader(h, RightStrip(u));
  }

  lemma RightStripTwice(s: string)
    ensures RightStrip(RightStrip(s)) == RightStrip(s)
  {
  }

  lemma TrimmedPrefix(d: string, w: string)
    requires Document(d) && w <= d && w == RightStrip(w)
    ensures TrimFence(w) <= d && TrimFence(w) == RightStrip(TrimFence(w))
    ensures TrimFence(w) == d <==> w == d
  {
    DocumentEnds(d);
    if EndsWithFence(w) {
      var v := w[..|w| - 3];
      StripPrefix(d, v);
      RightStripTwice(v);
    }
  }

  // Whatever part of a document has arrived, peeled, is judged as it stands.
  lemma BodyIsJudged(raw: string, d: string, x: string)
    requires Document(d) && x <= d && x == RightStrip(x)
    requires Strip(raw) != [] && Cleaned(raw) == x
    ensures Interpret(raw, Length) == Judge(x, Length)
    ensures if x == d then Judge(x, Length) == Answer(Value(d, 0).value) else Refused(Judge(x, Length))
  {
    if x != [] { assert x[0] == d[0]; }
    JudgedText(raw, x, Length);
    if x == d {
      JudgeWhole(d, Length);
    } else {
      PrefixNeverDecodes(d, x);
      JudgeRefuses(x);
    }
  }

  lemma CutInTheBody(h: string, d: string, u: string)
    requires Header(h) && Document(d) && u <= d && u != []
    ensures Refused(Interpret(h + u, Length)) || Interpret(h + u, Length) == Answer(Value(d, 0).value)
  {
    assert u[0] == d[0];
    FenceIsPeeled(h, u);
    RightStripTwice(u);
    TrimmedPrefix(d, RightStrip(u));
    BodyIsJudged(h + u, d, TrimFence(RightStrip(u)));
  }

  lemma RightStripNewline(d: string)
    requires Document(d)
    ensures Strip(d + "\n") == d && RightStrip(d + "\n") == d && RightStrip(d) == d
  {
    DocumentEnds(d);
    RightStripSuffix(d, "\n");
    assert RightStrip("\n") == "";
    assert d + "" == d && (d + "\n")[0] == d[0];
    StripVisible(d + "\n");
  }

  lemma CutAfterTheBody(h: string, d: string)
    requires Header(h) && Document(d)
    ensures Interpret(h + (d + "\n"), Length) == Answer(Value(d, 0).value)
  {
    assert (d + "\n")[0] == d[0];
    FenceIsPeeled(h, d + "\n");
    RightStripNewline(d);
    TrimmedPrefix(d, d);
    BodyIsJudged(h + (d + "\n"), d, d);
  }

  lemma LoadsWithTicks(d: string, ticks: string)
    requires Document(d) && ticks != [] && ticks[|ticks| - 1] == '`'
    ensures Loads(d + ticks).None?
  {
    var w := d + ticks;
    assert w[0] == d[0] && w[|w| - 1] == '`';
    BracketLoads(w);
    ShiftValue(d, 0, 0, |d|, w, 0);
  }

  lemma TrimWholeFence(d: string, u: string)
    requires Document(d) && u == d + "\n```"
    ensures RightStrip(u) == u && TrimFence(u) == d
  {
    assert u[|d| + 1] == u[|d| + 2] == u[|d| + 3] == '`' && u[..|u| - 3] == d + "\n";
    RightStripNewline(d);
  }

  lemma WholeFence(h: string, d: string)
    requires Header(h) && Document(d)
    ensures Interpret(h + (d + "\n```"), Length) == Answer(Value(d, 0).value)
  {
    var u := d + "\n```";
    DocumentEnds(d);
    assert u[0] == d[0];
    FenceIsPeeled(h, u);
    TrimWholeFence(d, u);
    RightStripNewline(d);
    BodyIsJudged(h + u, d, d);
  }

  lemma PartialFence(h: string, d: string, ticks: string)
    requires Header(h) && Document(d) && (ticks == "\n`" || ticks == "\n``")
    ensures Refused(Interpret(h + (d + ticks), Length))
  {
    var u := d + ticks;
    DocumentEnds(d);
    assert u[0] == d[0] && u[|u| - 1] == '`' && u[|d|] == '\n';
    assert RightStrip(u) == u && !EndsWithFence(u);
    FenceIsPeeled(h, u);
    LoadsWithTicks(d, ticks);
    JudgedText(h + u, u, Length);
    JudgeRefuses(u);
  }

  // ----- Cut inside the opening line -----

  lemma {:induction false} NothingToRecover(s: string)
    requires s != [] ==> s[0] == '`' || s[0] == 'j'
    requires '{' !in s && '[' !in s
    ensures Recover(s) == JNull
  {
    if s != [] {
      assert s[0..|s|] == s;
      FirstValueSkips(s, 0, |s|, '{');
      FirstValueSkips(s, 0, |s|, '[');
      RecoverIsDecoder(s);
    }
  }

  // The part of an opening line that can stand before its line feed.
  predicate OpeningPart(p: string)
  {
    p != [] && forall k :: 0 <= k < |p| ==> p[k] == (if k < 3 then '`' else if k == 3 then 'j' else if k == 4 then 's'
                                                     else if k == 5 then 'o' else 'n')
  }

  lemma PeelOpeningLine(p: string)
    requires OpeningPart(p)
    ensures Strip(p) == p && Peel(p) == if |p| < 3 then p else p[3..]
  {
    StripVisible(p);
    assert RightStrip(p) == p;
    if |p| >= 3 {
      assert IndexFrom(p, '\n', 0) == |p|;
      var w := p[3..];
      assert w != [] ==> w[|w| - 1] == p[|p| - 1] && w[0] == p[3];
      assert AfterFence(p) == w;
    }
  }

  // The rest of an opening line behind its ticks, or fewer than three ticks.
  lemma PeeledOpening(p: string, c: string)
    requires OpeningPart(p) && c == if |p| < 3 then p else p[3..]
    ensures RightStrip(c) == c && !StartsWithFence(c) && '{' !in c && '[' !in c
    ensures c != [] ==> c[0] == '`' || c[0] == 'j'
  {
    assert forall k :: 0 <= k < |c| ==> c[k] == p[|p| - |c| + k];
  }

  lemma CutInTheOpeningLine(p: string)
    requires OpeningPart(p)
    ensures Interpret(p, Length) == Malformed
  {
    PeelOpeningLine(p);
    var c := Peel(p);
    PeeledOpening(p, c);
    JudgedText(p, c, Length);
    NothingToRecover(c);
  }

  lemma SameStrip(p: string, q: string, finish: Finish)
    requires Strip(p) == Strip(q)
    ensures Interpret(p, finish) == Interpret(q, finish)
  {
  }

  // The opening line with its line feed strips to the opening line without it.
  lemma CutAfterTheOpeningLine(q: string)
    requires OpeningPart(q)
    ensures Interpret(q + "\n", Length) == Malformed
  {
    RightStripSuffix(q, "\n");
    assert RightStrip("\n") == "";
    assert q + "" == q && (q + "\n")[0] == q[0];
    StripVisible(q + "\n");
    PeelOpeningLine(q);
    SameStrip(q + "\n", q, Length);
    CutInTheOpeningLine(q);
  }

  // Fenced output cut anywhere is refused or is the whole document.
  lemma FencedCutIsWhole(tag: string, d: string, n: nat)
    requires Tag(tag) && Document(d) && n <= |Fenced(tag, d)|
    ensures var r := Interpret(Fenced(tag, d)[..n], Length);
            Refused(r) || r == Answer(Value(d, 0).value)
  {
    var q := FENCE + tag;
    var h := q + "\n";
    var p := Fenced(tag, d)[..n];
    if n < |h| {
      assert p == q[..n];
      if n > 0 { CutInTheOpeningLine(p); }
    } else if n == |h| {
      assert p == h;
      CutAfterTheOpeningLine(q);
    } else if n <= |h| + |d| {
      assert p == h + d[..n - |h|];
      CutInTheBody(h, d, d[..n - |h|]);
    } else if n == |h| + |d| + 1 {
      assert p == h + (d + "\n");
      CutAfterTheBody(h, d);
    } else {
      var ticks := "\n```"[..n - |h| - |d|];
      assert p == h + (d + ticks);
      if ticks == "\n```" { WholeFence(h, d); } else { PartialFence(h, d, ticks); }
    }
  }

  // ----- The whole of it -----

  lemma ReadWithin(d: string, q: string)
    requires Document(d) && d[0] == '{'
    ensures Recover(d + q) == Value(d, 0).value
  {
    assert "" + d + q == d + q;
    RecoverWithin("", d, q, 0);
    LoadsWithin(d, q);
  }

  lemma LoadsWithin(d: string, q: string)
    requires Document(d) && d[0] == '{'
    ensures Loads(d + q).Some? ==> Loads(d + q).value == Value(d, 0).value
  {
    var s := d + q;
    ShiftValue(d, 0, 0, |d|, s, 0);
    assert s[0] == d[0] && SkipSpace(s, 0) == 0;
  }

  // A text that begins with a document, without a closing fence at its end.
  lemma TrimBehind(d: string, r: string)
    requires Document(d) && r == RightStrip(r)
    ensures RightStrip(d + r) == d + r
    ensures EndsWithFence(d + r) ==> |r| >= 3 && (d + r)[..|d + r| - 3] == d + r[..|r| - 3]
  {
    DocumentEnds(d);
    RightStripSuffix(d, r);
    var w := d + r;
    assert w[|d| - 1] == d[|d| - 1] && (|d| > 1 ==> w[|d| - 2] == d[|d| - 2]);
  }

  lemma StripBehind(d: string, q: string)
    requires Document(d)
    ensures Strip(d + q) == d + RightStrip(q)
  {
    DocumentEnds(d);
    assert (d + q)[0] == d[0];
    StripVisible(d + q);
    RightStripSuffix(d, q);
  }

  lemma UnfenceBehind(h: string, d: string, r: string) returns (q: string)
    requires Header(h) && Document(d) && r == RightStrip(r)
    ensures Unfence(h + (d + r)) == d + q
  {
    AfterHeader(h, d + r);
    q := UnfencedRest(d, r);
    UnfenceIs(h, d + r, d + q);
    StripBehind(d, q);
    q := RightStrip(q);
  }

  // What is stripped behind the opening line: the rest without a closing fence at its end.
  lemma UnfencedRest(d: string, r: string) returns (q: string)
    requires Document(d) && r == RightStrip(r)
    ensures d + q == if EndsWithFence(RightStrip(d + r)) then RightStrip(d + r)[..|RightStrip(d + r)| - 3] else d + r
  {
    TrimBehind(d, r);
    q := if EndsWithFence(d + r) then r[..|r| - 3] else r;
  }

  lemma UnfenceIs(h: string, rest: string, body: string)
    requires StartsWithFence(h + rest) && AfterFence(h + rest) == rest
    requires body == if EndsWithFence(RightStrip(rest)) then RightStrip(rest)[..|RightStrip(rest)| - 3] else rest
    ensures Unfence(h + rest) == Strip(body)
  {
  }

  // Behind an opening line an object comes back, whatever follows it.
  lemma FencedObjectInProse(h: string, d: string, suf: string)
    requires Header(h) && Document(d) && d[0] == '{'
    ensures Extract(h + (d + suf)) == Value(d, 0).value
  {
    var raw := h + (d + suf);
    DocumentEnds(d);
    assert raw[0] == h[0] == '`';
    StripVisible(raw);
    assert raw == (h + d) + suf && (h + d)[|h + d| - 1] == d[|d| - 1];
    RightStripSuffix(h + d, suf);
    assert (h + d) + RightStrip(suf) == h + (d + RightStrip(suf));
    RightStripTwice(suf);
    var q := UnfenceBehind(h, d, RightStrip(suf));
    ReadWithin(d, q);
  }

  lemma AnsweredAtTheCeiling(raw: string, v: Json, finish: Finish)
    requires Interpret(raw, Length) == Answer(v)
    ensures Interpret(raw, finish) == Answer(v)
  {
  }

  lemma FencedEnds(tag: string, d: string)
    requires Tag(tag)
    ensures var f := Fenced(tag, d); f != [] && f[0] == '`' && f[|f| - 1] == '`' && Strip(f) == f
  {
    var f := Fenced(tag, d);
    assert f[0] == FENCE[0] == '`';
    assert f[|f| - 1] == (d + "\n```")[|d| + 3] == '`';
    StripVisible(f);
  }

  // A document in a fence, with white space around that, is answered whole for every finish reason.
  lemma FencedIsAnswered(before: string, tag: string, d: string, behind: string, finish: Finish)
    requires Tag(tag) && Document(d) && forall c :: c in before || c in behind ==> c in STRIPPED
    ensures Interpret(before + Fenced(tag, d) + behind, finish) == Answer(Value(d, 0).value)
  {
    var f := Fenced(tag, d);
    FencedEnds(tag, d);
    BlankStrips(before);
    BlankStrips(behind);
    StripInSpace(before, f, behind);
    SameStrip(before + f + behind, f, finish);
    BareFence(tag, d, finish);
  }

  lemma StripInSpace(before: string, f: string, behind: string)
    requires f != [] && !TextSpace(f[0]) && !TextSpace(f[|f| - 1])
    requires LeftStrip(before) == "" && RightStrip(behind) == ""
    ensures Strip(before + f + behind) == f
  {
    StripAround(before, f, behind);
    assert "" + f + "" == f;
  }

  lemma BareFence(tag: string, d: string, finish: Finish)
    requires Tag(tag) && Document(d)
    ensures Interpret(Fenced(tag, d), finish) == Answer(Value(d, 0).value)
  {
    var h := FENCE + tag + "\n";
    WholeFence(h, d);
    assert Fenced(tag, d) == h + (d + "\n```");
    AnsweredAtTheCeiling(h + (d + "\n```"), Value(d, 0).value, finish);
  }

  // The characters that str.strip takes off.
  const STRIPPED := "\U{9}\U{A}\U{B}\U{C}\U{D}\U{1C}\U{1D}\U{1E}\U{1F}\U{20}\U{85}\U{A0}" +
                    "\U{1680}\U{2000}\U{2001}\U{2002}\U{2003}\U{2004}\U{2005}\U{2006}" +
                    "\U{2007}\U{2008}\U{2009}\U{200A}\U{2028}\U{2029}\U{202F}\U{205F}\U{3000}"

  lemma StrippedIs(c: char)
    ensures TextSpace(c) <==> c in STRIPPED
  {
    if TextSpace(c) {
      var k := PlaceOf(c as int);
      assert STRIPPED[k] == c;
    }
  }

  // Where a character of that kind stands in the list.
  function PlaceOf(n: int): (k: nat)
    requires 0 <= n < 0x110000
  {
    if 9 <= n <= 13 then n - 9 else if 28 <= n <= 32 then n - 23 else if n == 0x85 then 10 else if n == 0xA0 then 11
    else if n == 0x1680 then 12 else if 0x2000 <= n <= 0x200A then n - 0x2000 + 13 else if n == 0x2028 then 24
    else if n == 0x2029 then 25 else if n == 0x202F then 26 else if n == 0x205F then 27 else 28
  }

  lemma BlankStrips(w: string)
    requires forall c :: c in w ==> c in STRIPPED
    ensures LeftStrip(w) == "" && RightStrip(w) == ""
  {
    forall k | 0 <= k < |w| ensures TextSpace(w[k]) {
      assert w[k] in w;
      StrippedIs(w[k]);
    }
  }

  // The recovery on a fenced document, whichever its bracket.
  lemma FencedIsExtracted(before: string, tag: string, d: string, behind: string)
    requires Tag(tag) && Document(d) && forall c :: c in before || c in behind ==> c in STRIPPED
    ensures Extract(before + Fenced(tag, d) + behind) == Value(d, 0).value
    ensures FullDocument(before + Fenced(tag, d) + behind) == Some(Value(d, 0).value)
  {
    var f := Fenced(tag, d);
    FencedEnds(tag, d);
    BlankStrips(before);
    BlankStrips(behind);
    StripInSpace(before, f, behind);
    UnfenceWhole(tag, d);
    DocumentEnds(d);
    RecoverWhole(d);
  }

  lemma UnfenceWhole(tag: string, d: string)
    requires Tag(tag) && Document(d)
    ensures Unfence(Fenced(tag, d)) == d
  {
    var h, u := FENCE + tag + "\n", d + "\n```";
    AfterHeader(h, u);
    assert Fenced(tag, d) == h + u;
    TrimWholeFence(d, u);
    FenceAtTheEnd(d, u);
    UnfenceIs(h, u, d + "\n");
    RightStripNewline(d);
  }

  lemma FenceAtTheEnd(d: string, u: string)
    requires u == d + "\n```"
    ensures EndsWithFence(u) && u[..|u| - 3] == d + "\n"
  {
    assert u[|d| + 1] == u[|d| + 2] == u[|d| + 3] == '`';
  }

  lemma BlankIff(raw: string)
    ensures Strip(raw) == [] <==> forall c :: c in raw ==> c in STRIPPED
  {
    if forall c :: c in raw ==> c in STRIPPED {
      BlankStrips(raw);
    } else {
      var c :| c in raw && c !in STRIPPED;
      StrippedIs(c);
      var k :| 0 <= k < |raw| && raw[k] == c;
      KeepsVisible(raw, k);
    }
  }

  lemma {:induction false} VisibleBefore(s: string, i: nat, k: nat)
    requires i <= k < |s| && !TextSpace(s[k])
    ensures VisibleFrom(s, i) <= k
    decreases k - i
  {
    if TextSpace(s[i]) { VisibleBefore(s, i + 1, k); }
  }

  lemma {:induction false} VisibleBehind(s: string, j: nat, k: nat)
    requires k < j <= |s| && !TextSpace(s[k])
    ensures VisibleTo(s, j) > k
    decreases j
  {
    if TextSpace(s[j - 1]) { VisibleBehind(s, j - 1, k); }
  }

  lemma KeepsVisible(raw: string, k: nat)
    requires k < |raw| && !TextSpace(raw[k])
    ensures Strip(raw) != []
  {
    var i := VisibleFrom(raw, 0);
    VisibleBefore(raw, 0, k);
    var s := LeftStrip(raw);
    assert s[k - i] == raw[k];
    VisibleBehind(s, |s|, k - i);
  }

  // A blank reply marks the provider as failed when it finished with an error, and is nothing otherwise;
  // no other reply is either.
  lemma BlankReplies(raw: string, finish: Finish)
    ensures Interpret(raw, finish) == ProviderFailed <==> finish == Error && forall c :: c in raw ==> c in STRIPPED
    ensures Interpret(raw, finish) == Nothing <==> finish != Error && forall c :: c in raw ==> c in STRIPPED
  {
    BlankIff(raw);
  }
}
