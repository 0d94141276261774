// The two splitters that move headings between chunks, and the choice among all the splitters.
module HeadingRepairs {
  import opened Options
  import opened LineSplitters
  import opened InlineSplitters

  // ----- Bare BHK headers: a trailing section heading is carried to the next chunk -----

  predicate IsStart(l: Line) { IsBhk(l) || IsExplicit(l) }

  function LastField(c: Chunk, n: nat): (k: int)
    requires n <= |c|
    ensures -1 <= k < n && (k >= 0 ==> IsField(c[k])) && forall j :: k < j < n ==> !IsField(c[j])
  {
    if n == 0 then -1 else if IsField(c[n - 1]) then n - 1 else LastField(c, n - 1)
  }

  // Where a chunk is cut: at the first section heading after its last field line.
  function CutAt(c: Chunk): (k: nat)
    ensures k <= |c| && (c != [] ==> k > 0)
  {
    if LastField(c, |c|) < 0 then |c| else Next(c, IsHeading, LastField(c, |c|) + 1)
  }

  function Keep(c: Chunk): (kept: Chunk) { c[..CutAt(c)] }
  function Carry(c: Chunk): (carried: Chunk) { c[CutAt(c)..] }

  method FindCut(c: Chunk) returns (cut: nat)
    ensures cut == CutAt(c)
  {
    var last, headings: seq<nat> := -1, [];
    var i := 0;
    while i < |c|
      invariant i <= |c| && last == LastField(c, i)
      invariant forall j :: 0 <= j < |headings| ==> headings[j] < i && IsHeading(c[headings[j]])
      invariant forall j, k :: 0 <= j < k < |headings| ==> headings[j] < headings[k]
      invariant forall k: nat :: k < i && IsHeading(c[k]) ==> k in headings
    {
      if IsHeading(c[i]) { headings := headings + [i]; }
      if IsField(c[i]) { last := i; }
      i := i + 1;
    }
    cut := FirstAfter(c, last, headings);
  }

  // The first heading behind the last field line, if there is a field line and such a heading.
  method FirstAfter(c: Chunk, last: int, headings: seq<nat>) returns (cut: nat)
    requires last == LastField(c, |c|)
    requires forall j :: 0 <= j < |headings| ==> headings[j] < |c| && IsHeading(c[headings[j]])
    requires forall j, k :: 0 <= j < k < |headings| ==> headings[j] < headings[k]
    requires forall k: nat :: k < |c| && IsHeading(c[k]) ==> k in headings
    ensures cut == CutAt(c)
  {
    cut := |c|;
    if last >= 0 && last < |c| - 1 {
      var i := 0;
      while i < |headings| && headings[i] <= last
        invariant i <= |headings| && forall j :: 0 <= j < i ==> headings[j] <= last
      {
        i := i + 1;
      }
      if i < |headings| {
        cut := headings[i];
        assert forall k :: last < k < cut ==> !IsHeading(c[k]);
      } else {
        assert forall k :: last < k < |c| ==> !IsHeading(c[k]);
      }
    }
    if last >= 0 { NextIs(c, IsHeading, last + 1, cut); }
  }

  function Prefix(raw: seq<Chunk>, i: nat): (carried: Chunk)
    requires i <= |raw|
  {
    if i == 0 then [] else Carry(raw[i - 1])
  }

  function Middle(raw: seq<Chunk>, i: nat): (c: Chunk)
    requires i < |raw|
  {
    Trim(Prefix(raw, i) + Keep(raw[i]))
  }

  // The closed form of the carrying loop: every chunk is what the one before it carried and what
  // it keeps itself; the last one gets its own carried lines back.
  function Middles(raw: seq<Chunk>, n: nat): (chunks: seq<Chunk>)
    requires n <= |raw|
    ensures |chunks| == n
  {
    if n == 0 then [] else Middles(raw, n - 1) + [Middle(raw, n - 1)]
  }

  lemma {:induction false} MiddlesAt(raw: seq<Chunk>, n: nat, i: nat)
    requires i < n <= |raw|
    ensures Middles(raw, n)[i] == Middle(raw, i)
  {
    if i < n - 1 { MiddlesAt(raw, n - 1, i); }
  }

  function Last(raw: seq<Chunk>): (c: Chunk)
    requires raw != []
  {
    var n := |raw| - 1;
    if Carry(raw[n]) == [] then Middle(raw, n) else Trim(Middle(raw, n) + Carry(raw[n]))
  }

  function Carried(raw: seq<Chunk>): (chunks: seq<Chunk>)
    ensures |chunks| == |raw|
  {
    if raw == [] then [] else Middles(raw, |raw| - 1) + [Last(raw)]
  }

  predicate OpensWithText(raw: seq<Chunk>)
  {
    forall i :: 0 <= i < |raw| ==> raw[i] != [] && raw[i][0].Text?
  }

  lemma CarryHasNoField(c: Chunk)
    ensures forall k :: 0 <= k < |Carry(c)| ==> !IsField(Carry(c)[k])
    ensures Carry(c) != [] ==> IsHeading(Carry(c)[0])
    ensures c == Keep(c) + Carry(c)
  {
  }

  lemma {:induction false} LastFieldShift(pre: Chunk, c: Chunk, n: nat)
    requires n <= |c| && forall k :: 0 <= k < |pre| ==> !IsField(pre[k])
    ensures LastField(pre + c, |pre| + n) == if LastField(c, n) < 0 then -1 else |pre| + LastField(c, n)
  {
    if n > 0 {
      LastFieldShift(pre, c, n - 1);
    } else {
      assert forall k :: 0 <= k < |pre| ==> (pre + c)[k] == pre[k];
    }
  }

  // Carried lines hold no field, so they do not move the cut of the chunk they are put before:
  // no line is carried twice.
  lemma CutShift(pre: Chunk, c: Chunk)
    requires forall k :: 0 <= k < |pre| ==> !IsField(pre[k])
    ensures CutAt(pre + c) == |pre| + CutAt(c)
    ensures Keep(pre + c) == pre + Keep(c) && Carry(pre + c) == Carry(c)
  {
    LastFieldShift(pre, c, |c|);
    var last := LastField(c, |c|);
    if last >= 0 {
      var n := Next(c, IsHeading, last + 1);
      forall k | |pre| + last + 1 <= k < |pre| + n ensures !IsHeading((pre + c)[k]) {
        assert (pre + c)[k] == c[k - |pre|];
      }
      NextIs(pre + c, IsHeading, |pre| + last + 1, |pre| + n);
    }
  }

  lemma MiddleNotEmpty(raw: seq<Chunk>, i: nat)
    requires OpensWithText(raw) && i < |raw|
    ensures Middle(raw, i) != []
  {
    if i > 0 { CarryHasNoField(raw[i - 1]); }
    var c := Prefix(raw, i) + Keep(raw[i]);
    assert c[0].Text?;
    TrimOfText(c);
  }

  // The chunks after one more chunk c has been met with the lines pending.
  function Carrying(chunks: seq<Chunk>, pending: Chunk, c: Chunk): (chunks': seq<Chunk>)
  {
    if Trim(Keep(pending + c)) == [] then chunks else chunks + [Trim(Keep(pending + c))]
  }

  lemma CarryStep(raw: seq<Chunk>, i: nat)
    requires OpensWithText(raw) && i < |raw|
    ensures Carry(Prefix(raw, i) + raw[i]) == Prefix(raw, i + 1)
    ensures Carrying(Middles(raw, i), Prefix(raw, i), raw[i]) == Middles(raw, i + 1)
  {
    if i > 0 { CarryHasNoField(raw[i - 1]); }
    CutShift(Prefix(raw, i), raw[i]);
    MiddleNotEmpty(raw, i);
  }

  method CarryNext(c: Chunk, pending: Chunk, chunks: seq<Chunk>) returns (pending': Chunk, chunks': seq<Chunk>)
    ensures pending' == Carry(pending + c) && chunks' == Carrying(chunks, pending, c)
  {
    var lines := pending + c;
    var cut := FindCut(lines);
    pending', chunks' := lines[cut..], chunks;
    var chunk := Trim(lines[..cut]);
    if chunk != [] { chunks' := chunks + [chunk]; }
  }

  method CarryHeadings(raw: seq<Chunk>) returns (chunks: seq<Chunk>)
    requires OpensWithText(raw)
    ensures chunks == Carried(raw)
  {
    chunks := [];
    var pending: Chunk := [];
    var i := 0;
    while i < |raw|
      invariant i <= |raw| && pending == Prefix(raw, i) && chunks == Middles(raw, i)
    {
      CarryStep(raw, i);
      pending, chunks := CarryNext(raw[i], pending, chunks);
      i := i + 1;
    }
    LastCarried(raw);
    if pending != [] && chunks != [] {
      chunks := chunks[|chunks| - 1 := Trim(chunks[|chunks| - 1] + pending)];
    }
  }

  // What is still carried at the end goes back to the last chunk.
  lemma LastCarried(raw: seq<Chunk>)
    ensures var chunks, pending := Middles(raw, |raw|), Prefix(raw, |raw|);
            Carried(raw) == if pending != [] && chunks != []
                            then chunks[|chunks| - 1 := Trim(chunks[|chunks| - 1] + pending)] else chunks
  {
    if raw != [] { ReplaceLast(Middles(raw, |raw| - 1), Middle(raw, |raw| - 1), Last(raw)); }
  }

  lemma ReplaceLast(m: seq<Chunk>, x: Chunk, y: Chunk)
    ensures (m + [x])[|m|] == x && (m + [x])[|m| := y] == m + [y]
  {
  }

  // ----- What carrying does and does not change -----

  lemma LinesOfOneMore(chunks: seq<Chunk>, c: Chunk)
    ensures NonBlank(Flatten(chunks + [c])) == NonBlank(Flatten(chunks)) + NonBlank(c)
  {
    FlattenAppend(chunks, [c]);
    assert Flatten([c]) == c by { assert [c][1..] == []; }
    NonBlankAppend(Flatten(chunks), c);
  }

  lemma LinesOfTrimmed(a: Chunk, b: Chunk)
    ensures NonBlank(Trim(a + b)) == NonBlank(a) + NonBlank(b)
  {
    TrimKeepsLines(a + b);
    NonBlankAppend(a, b);
  }

  // A middle chunk and the lines pending after it hold those pending before it and its raw chunk.
  predicate Links(before: Chunk, c: Chunk, middle: Chunk, after: Chunk)
  {
    NonBlank(middle) + NonBlank(after) == NonBlank(before) + NonBlank(c)
  }

  predicate AllLink(raw: seq<Chunk>, middles: seq<Chunk>, pending: seq<Chunk>)
  {
    && |middles| == |raw| && |pending| == |raw| + 1 && pending[0] == []
    && forall i: nat :: i < |raw| ==> LinkAt(raw, middles, pending, i)
  }

  predicate LinkAt(raw: seq<Chunk>, middles: seq<Chunk>, pending: seq<Chunk>, i: nat)
    requires |middles| == |raw| && |pending| == |raw| + 1 && i < |raw|
  {
    Links(pending[i], raw[i], middles[i], pending[i + 1])
  }

  lemma LinkedLines(done: seq<Line>, before: seq<Line>, c: seq<Line>, middle: seq<Line>, after: seq<Line>,
                    all: seq<Line>)
    requires done + before == all && middle + after == before + c
    ensures (done + middle) + after == all + c
  {
    assert (done + middle) + after == done + (middle + after);
    assert done + (before + c) == (done + before) + c;
  }

  lemma {:induction false} LinksAddUp(raw: seq<Chunk>, middles: seq<Chunk>, pending: seq<Chunk>, n: nat)
    requires AllLink(raw, middles, pending) && n <= |raw|
    ensures NonBlank(Flatten(middles[..n])) + NonBlank(pending[n]) == NonBlank(Flatten(raw[..n]))
  {
    if n > 0 {
      LinksAddUp(raw, middles, pending, n - 1);
      assert middles[..n] == middles[..n - 1] + [middles[n - 1]] && raw[..n] == raw[..n - 1] + [raw[n - 1]];
      assert LinkAt(raw, middles, pending, n - 1);
      OneMoreLink(middles[..n - 1], raw[..n - 1], pending[n - 1], raw[n - 1], middles[n - 1], pending[n]);
    }
  }

  lemma OneMoreLink(done: seq<Chunk>, raw: seq<Chunk>, before: Chunk, c: Chunk, middle: Chunk, after: Chunk)
    requires NonBlank(Flatten(done)) + NonBlank(before) == NonBlank(Flatten(raw)) && Links(before, c, middle, after)
    ensures NonBlank(Flatten(done + [middle])) + NonBlank(after) == NonBlank(Flatten(raw + [c]))
  {
    LinesOfOneMore(done, middle);
    LinesOfOneMore(raw, c);
    LinkedLines(NonBlank(Flatten(done)), NonBlank(before), NonBlank(c), NonBlank(middle), NonBlank(after),
                NonBlank(Flatten(raw)));
  }

  lemma CutLinks(before: Chunk, c: Chunk)
    ensures Links(before, c, Trim(before + Keep(c)), Carry(c))
  {
    LinesOfTrimmed(before, Keep(c));
    CarryHasNoField(c);
    NonBlankAppend(Keep(c), Carry(c));
  }

  lemma MiddleLinks(raw: seq<Chunk>, i: nat)
    requires i < |raw|
    ensures Links(Prefix(raw, i), raw[i], Middle(raw, i), Prefix(raw, i + 1))
  {
    CutLinks(Prefix(raw, i), raw[i]);
  }

  // The lines pending before each chunk, and at the end.
  function Pending(raw: seq<Chunk>): (pending: seq<Chunk>)
    ensures |pending| == |raw| + 1 && pending[0] == [] && pending[|raw|] == Prefix(raw, |raw|)
  {
    seq(|raw| + 1, i requires 0 <= i <= |raw| => Prefix(raw, i))
  }

  lemma LinkFrom(raw: seq<Chunk>, middles: seq<Chunk>, pending: seq<Chunk>, i: nat, before: Chunk, middle: Chunk,
                 after: Chunk)
    requires |middles| == |raw| && |pending| == |raw| + 1 && i < |raw|
    requires pending[i] == before && middles[i] == middle && pending[i + 1] == after &&
             Links(before, raw[i], middle, after)
    ensures LinkAt(raw, middles, pending, i)
  {
  }

  lemma MiddleLinked(raw: seq<Chunk>, i: nat)
    requires i < |raw|
    ensures LinkAt(raw, Middles(raw, |raw|), Pending(raw), i)
  {
    MiddlesAt(raw, |raw|, i);
    MiddleLinks(raw, i);
    LinkFrom(raw, Middles(raw, |raw|), Pending(raw), i, Prefix(raw, i), Middle(raw, i), Prefix(raw, i + 1));
  }

  lemma MiddlesLink(raw: seq<Chunk>)
    ensures AllLink(raw, Middles(raw, |raw|), Pending(raw))
  {
    var middles, pending := Middles(raw, |raw|), Pending(raw);
    forall i: nat | i < |raw| ensures LinkAt(raw, middles, pending, i) { MiddleLinked(raw, i); }
  }

  lemma LinkedConserve(raw: seq<Chunk>, middles: seq<Chunk>, pending: seq<Chunk>)
    requires AllLink(raw, middles, pending)
    ensures NonBlank(Flatten(middles)) + NonBlank(pending[|raw|]) == NonBlank(Flatten(raw))
  {
    LinksAddUp(raw, middles, pending, |raw|);
    assert middles[..|raw|] == middles && raw[..|raw|] == raw;
  }

  lemma MiddlesConserve(raw: seq<Chunk>)
    ensures NonBlank(Flatten(Middles(raw, |raw|))) + NonBlank(Prefix(raw, |raw|)) == NonBlank(Flatten(raw))
  {
    MiddlesLink(raw);
    LinkedConserve(raw, Middles(raw, |raw|), Pending(raw));
  }

  lemma Regroup(a: seq<Line>, b: seq<Line>, c: seq<Line>, d: seq<Line>)
    ensures a + (b + c) + d == (a + b) + (c + d)
  {
  }

  lemma LastJoins(done: seq<Chunk>, without: seq<Chunk>, with: seq<Chunk>, middle: Chunk, carried: Chunk, last: Chunk)
    requires last == if carried == [] then middle else Trim(middle + carried)
    requires without == done + [middle] && with == done + [last]
    ensures NonBlank(Flatten(with)) == NonBlank(Flatten(without)) + NonBlank(carried)
  {
    LinesOfOneMore(done, last);
    LinesOfOneMore(done, middle);
    if carried != [] { LinesOfTrimmed(middle, carried); }
    Regroup(NonBlank(Flatten(done)), NonBlank(middle), NonBlank(carried), []);
  }

  // No line is lost, repeated or moved past another one.
  lemma CarriedConserves(raw: seq<Chunk>)
    ensures NonBlank(Flatten(Carried(raw))) == NonBlank(Flatten(raw))
  {
    MiddlesConserve(raw);
    if raw != [] { LastConserves(raw, |raw| - 1); }
  }

  lemma LastConserves(raw: seq<Chunk>, n: nat)
    requires |raw| == n + 1
    ensures NonBlank(Flatten(Carried(raw))) == NonBlank(Flatten(Middles(raw, |raw|))) + NonBlank(Prefix(raw, |raw|))
  {
    LastJoins(Middles(raw, n), Middles(raw, n + 1), Carried(raw), Middle(raw, n), Carry(raw[n]), Last(raw));
  }

  lemma CarriedAt(raw: seq<Chunk>, i: nat, c: Chunk)
    requires i < |raw| && c == if i < |raw| - 1 then Middle(raw, i) else Last(raw)
    ensures Carried(raw)[i] == c
  {
    if i < |raw| - 1 { MiddlesAt(raw, |raw| - 1, i); }
  }

  lemma FieldsOfMiddle(raw: seq<Chunk>, i: nat)
    requires i < |raw|
    ensures Having(Middle(raw, i), IsField) == Having(raw[i], IsField)
    ensures Having(Carry(raw[i]), IsField) == []
  {
    if i > 0 { CarryHasNoField(raw[i - 1]); }
    CarryHasNoField(raw[i]);
    NoneHaving(Prefix(raw, i), IsField);
    NoneHaving(Carry(raw[i]), IsField);
    HavingAppend(Keep(raw[i]), Carry(raw[i]), IsField);
    HavingAppend(Prefix(raw, i), Keep(raw[i]), IsField);
    TrimKeeps(Prefix(raw, i) + Keep(raw[i]), IsField);
  }

  // The field lines of a property stay with it, all of them and no others.
  lemma FieldsStay(raw: seq<Chunk>, i: nat)
    requires i < |raw|
    ensures |Carried(raw)| == |raw| && Having(Carried(raw)[i], IsField) == Having(raw[i], IsField)
  {
    CarriedAt(raw, i, if i < |raw| - 1 then Middle(raw, i) else Last(raw));
    FieldsOfMiddle(raw, i);
    HavingAppend(Middle(raw, i), Carry(raw[i]), IsField);
    TrimKeeps(Middle(raw, i) + Carry(raw[i]), IsField);
  }

  predicate TrailingHeading(c: Chunk)
  {
    exists k :: LastField(c, |c|) < k < |c| && IsHeading(c[k])
  }

  predicate HasField(c: Chunk) { exists k :: 0 <= k < |c| && IsField(c[k]) }
  predicate HasHeading(c: Chunk) { exists k :: 0 <= k < |c| && IsHeading(c[k]) }

  lemma TrailingIff(c: Chunk)
    ensures HasField(c) ==> (TrailingHeading(c) <==> CutAt(c) < |c|)
    ensures !HasField(c) ==> (TrailingHeading(c) <==> HasHeading(c))
    ensures HasField(c) <==> LastField(c, |c|) >= 0
  {
  }

  lemma {:induction false} LastFieldLocal(a: Chunk, b: Chunk, n: nat)
    requires n <= |a| <= |b| && forall k :: 0 <= k < n ==> a[k] == b[k]
    ensures LastField(a, n) == LastField(b, n)
  {
    if n > 0 { LastFieldLocal(a, b, n - 1); }
  }

  lemma TrimmedSame(c: Chunk)
    requires c != [] && c[0].Text?
    ensures TrailingHeading(Trim(c)) <==> TrailingHeading(c)
  {
    var t := Trim(c);
    TrimOfText(c);
    LastFieldLocal(t, c, |t|);
    LastFieldBlanks(c, |t|, |c|);
    assert forall k :: 0 <= k < |t| ==> t[k] == c[k];
  }

  lemma {:induction false} LastFieldBlanks(c: Chunk, n: nat, m: nat)
    requires n <= m <= |c| && forall k :: n <= k < m ==> c[k].Blank?
    ensures LastField(c, m) == LastField(c, n)
  {
    if n < m { LastFieldBlanks(c, n, m - 1); }
  }

  // Every chunk but the last ends up without a section heading behind its last field line, unless
  // it has no field line at all: then it keeps its own headings, and those carried to it, although
  // they stand at its end.
  lemma HeadingsSettleIff(raw: seq<Chunk>, i: nat)
    requires OpensWithText(raw) && i < |raw| - 1
    ensures |Carried(raw)| == |raw|
    ensures TrailingHeading(Carried(raw)[i])
        <==> !HasField(raw[i]) && (HasHeading(raw[i]) || Prefix(raw, i) != [])
  {
    CarriedAt(raw, i, Middle(raw, i));
    if i > 0 { CarryHasNoField(raw[i - 1]); }
    CarryHasNoField(raw[i]);
    var c := Prefix(raw, i) + Keep(raw[i]);
    assert c[0].Text?;
    TrimmedSame(c);
    Settles(Prefix(raw, i), raw[i]);
  }

  lemma Settles(pre: Chunk, c: Chunk)
    requires pre != [] ==> IsHeading(pre[0])
    requires forall k :: 0 <= k < |pre| ==> !IsField(pre[k])
    ensures TrailingHeading(pre + Keep(c)) <==> !HasField(c) && (HasHeading(c) || pre != [])
  {
    var kept := Keep(c);
    LastFieldShift(pre, kept, |kept|);
    LastFieldLocal(kept, c, |kept|);
    TrailingIff(c);
    if LastField(c, |c|) >= 0 {
      LastFieldDown(c, |kept|);
      SettlesBehindAField(pre, c);
    } else {
      if k :| 0 <= k < |c| && IsHeading(c[k]) { assert IsHeading((pre + kept)[|pre| + k]); }
      if pre != [] { assert IsHeading((pre + kept)[0]); }
      assert forall k :: |pre| <= k < |pre + kept| ==> (pre + kept)[k] == c[k - |pre|];
    }
  }

  lemma SettlesBehindAField(pre: Chunk, c: Chunk)
    requires LastField(c, |c|) >= 0 && LastField(pre + Keep(c), |pre + Keep(c)|) == |pre| + LastField(c, |c|)
    ensures !TrailingHeading(pre + Keep(c))
  {
    var kept := Keep(c);
    assert forall k :: |pre| <= k < |pre + kept| ==> (pre + kept)[k] == c[k - |pre|];
    assert forall k :: LastField(c, |c|) < k < |kept| ==> !IsHeading(c[k]);
  }

  lemma LastFieldDown(c: Chunk, n: nat)
    requires LastField(c, |c|) < n <= |c|
    ensures LastField(c, n) == LastField(c, |c|)
  {
  }

  // ----- The whole bare-BHK splitter -----

  function RawChunks(lines: seq<Line>): (raw: seq<Chunk>)
  {
    if |Having(lines, IsStart)| < 2 then [] else Cleaned(Pieces(lines, IsStart, Next(lines, IsStart, 0)))
  }

  // More than one location, number or pin in a chunk: two listings that were not told apart.
  predicate Crowded(c: Chunk) { |Having(c, IsCounted)| > 1 }

  function BareChunks(lines: seq<Line>, ev: Chunk -> bool): (accepted: seq<Chunk>)
  {
    var chunks := Shown(Carried(RawChunks(lines)), ev);
    if exists c :: c in chunks && Crowded(c) then [] else chunks
  }

  function Starts(lines: seq<Line>, p: Line -> bool, i: nat): (starts: seq<nat>)
    requires i <= |lines|
    decreases |lines| - i
  {
    if i == |lines| then [] else if p(lines[i]) then [i] + Starts(lines, p, i + 1) else Starts(lines, p, i + 1)
  }

  lemma {:induction false} StartsAre(lines: seq<Line>, p: Line -> bool, i: nat)
    requires i <= |lines|
    ensures var starts, n := Starts(lines, p, i), Next(lines, p, i);
            && |starts| == |Having(lines[i..], p)|
            && (starts == [] ==> n == |lines|)
            && (starts != [] ==> n < |lines| && starts[0] == n && starts[1..] == Starts(lines, p, n + 1))
    decreases |lines| - i
  {
    if i < |lines| {
      StartsAre(lines, p, i + 1);
      assert lines[i..][1..] == lines[i + 1..];
      if p(lines[i]) { assert Starts(lines, p, i) == [i] + Starts(lines, p, i + 1); }
    }
  }

  method StartIndices(lines: seq<Line>, p: Line -> bool) returns (starts: seq<nat>)
    ensures starts == Starts(lines, p, 0)
  {
    starts := [];
    var i := 0;
    while i < |lines|
      invariant i <= |lines| && starts + Starts(lines, p, i) == Starts(lines, p, 0)
    {
      if p(lines[i]) { starts := starts + [i]; }
      i := i + 1;
    }
  }

  function Start(lines: seq<Line>, starts: seq<nat>, pos: nat): (n: nat)
    requires pos <= |starts|
  {
    if pos < |starts| then starts[pos] else |lines|
  }

  predicate IsNextStart(lines: seq<Line>, p: Line -> bool, starts: seq<nat>, j: nat)
    requires j < |starts|
  {
    starts[j] < |lines| && Next(lines, p, starts[j] + 1) == Start(lines, starts, j + 1)
  }

  lemma {:induction false} StartsNext(lines: seq<Line>, p: Line -> bool, i: nat, j: nat)
    requires i <= |lines| && j < |Starts(lines, p, i)|
    ensures IsNextStart(lines, p, Starts(lines, p, i), j)
    decreases |lines| - i
  {
    if p(lines[i]) && j == 0 {
      StartsAre(lines, p, i + 1);
    } else {
      StartsNext(lines, p, i + 1, if p(lines[i]) then j - 1 else j);
    }
  }

  // The chunks lines[start:end] between consecutive starts.
  method CutAtStarts(lines: seq<Line>, p: Line -> bool, starts: seq<nat>) returns (raw: seq<Chunk>)
    requires starts != [] && starts[0] == Next(lines, p, 0)
    requires forall j :: 0 <= j < |starts| ==> IsNextStart(lines, p, starts, j)
    ensures raw == Cleaned(Pieces(lines, p, Next(lines, p, 0)))
  {
    assert IsNextStart(lines, p, starts, 0);
    var pieces: seq<Chunk> := [];
    var pos := 0;
    while pos < |starts|
      invariant pos <= |starts| && Start(lines, starts, pos) <= |lines|
      invariant pieces + Pieces(lines, p, Start(lines, starts, pos)) == Pieces(lines, p, starts[0])
    {
      assert IsNextStart(lines, p, starts, pos);
      pieces := pieces + [lines[starts[pos]..Start(lines, starts, pos + 1)]];
      pos := pos + 1;
    }
    assert pieces == Pieces(lines, p, starts[0]);
    raw := CleanChunks(pieces);
  }

  method SplitBareBhk(lines: seq<Line>, ev: Chunk -> bool) returns (accepted: seq<Chunk>)
    ensures accepted == BareChunks(lines, ev)
  {
    var starts := StartIndices(lines, IsStart);
    StartsAre(lines, IsStart, 0);
    assert lines[0..] == lines;
    if |starts| < 2 { return []; }
    forall j | 0 <= j < |starts| ensures IsNextStart(lines, IsStart, starts, j) {
      StartsNext(lines, IsStart, 0, j);
    }
    var raw := CutAtStarts(lines, IsStart, starts);
    RawOpens(lines);
    var chunks := CarryHeadings(raw);
    chunks := Shown(chunks, ev);
    accepted := if exists c :: c in chunks && Crowded(c) then [] else chunks;
  }

  lemma RawOpens(lines: seq<Line>)
    ensures OpensWithText(RawChunks(lines))
  {
    var first := Next(lines, IsStart, 0);
    PiecesArePieces(lines, IsStart, first);
    CleanedPieces(Pieces(lines, IsStart, first), IsStart);
  }

  lemma RawConserves(lines: seq<Line>)
    requires |Having(lines, IsStart)| >= 2
    ensures |RawChunks(lines)| == |Having(lines, IsStart)|
    ensures NonBlank(Flatten(RawChunks(lines))) == NonBlank(lines[Next(lines, IsStart, 0)..])
  {
    var first := Next(lines, IsStart, 0);
    var pieces := Pieces(lines, IsStart, first);
    PiecesArePieces(lines, IsStart, first);
    CleanedPieces(pieces, IsStart);
    CountFrom(lines, IsStart);
    PiecesConserve(lines, IsStart, first);
    CleanedConserves(pieces);
  }

  lemma CountFrom(lines: seq<Line>, p: Line -> bool)
    ensures |Pieces(lines, p, Next(lines, p, 0))| == |Having(lines, p)|
  {
    var first := Next(lines, p, 0);
    CountPieces(lines, p, first);
    assert lines == lines[..first] + lines[first..];
    HavingAppend(lines[..first], lines[first..], p);
    NoneHaving(lines[..first], p);
  }

  // A raw chunk opens with its one header line.
  predicate HeadedBy(c: Chunk, header: Line)
  {
    c != [] && c[0] == header && IsStart(header) && forall k :: 1 <= k < |c| ==> !IsStart(c[k])
  }

  lemma HeadOfPiece(c: Chunk)
    requires IsPiece(c, IsStart, false)
    ensures Having(c, IsStart) == [c[0]]
  {
    assert c == [c[0]] + c[1..];
    NoneHaving(c[1..], IsStart);
  }

  // The header lines, in order, are the heads of the pieces.
  lemma {:induction false} PieceHeads(lines: seq<Line>, i: nat, j: nat)
    requires i <= |lines| && (i < |lines| ==> IsStart(lines[i])) && j < |Pieces(lines, IsStart, i)|
    ensures j < |Having(lines[i..], IsStart)| && HeadedBy(Pieces(lines, IsStart, i)[j], Having(lines[i..], IsStart)[j])
    decreases |lines| - i
  {
    var n := Next(lines, IsStart, i + 1);
    var piece := lines[i..n];
    assert lines[i..] == piece + lines[n..];
    HavingAppend(piece, lines[n..], IsStart);
    HeadOfPiece(piece);
    if j > 0 { PieceHeads(lines, n, j - 1); }
  }

  lemma TrimmedHead(c: Chunk, header: Line)
    requires HeadedBy(c, header)
    ensures HeadedBy(Trim(c), header)
  {
    TrimOfText(c);
  }

  lemma StartsFromFirst(lines: seq<Line>)
    ensures Having(lines[Next(lines, IsStart, 0)..], IsStart) == Having(lines, IsStart)
  {
    var first := Next(lines, IsStart, 0);
    assert lines == lines[..first] + lines[first..];
    HavingAppend(lines[..first], lines[first..], IsStart);
    NoneHaving(lines[..first], IsStart);
  }

  lemma RawIsTrimmed(lines: seq<Line>)
    requires |Having(lines, IsStart)| >= 2
    ensures RawChunks(lines) == TrimEach(Pieces(lines, IsStart, Next(lines, IsStart, 0)))
  {
    PiecesArePieces(lines, IsStart, Next(lines, IsStart, 0));
    CleanedPieces(Pieces(lines, IsStart, Next(lines, IsStart, 0)), IsStart);
  }

  lemma RawHead(lines: seq<Line>, i: nat)
    requires |Having(lines, IsStart)| >= 2 && i < |Having(lines, IsStart)|
    ensures |RawChunks(lines)| == |Having(lines, IsStart)| && HeadedBy(RawChunks(lines)[i], Having(lines, IsStart)[i])
  {
    RawConserves(lines);
    RawIsTrimmed(lines);
    StartsFromFirst(lines);
    PieceHeads(lines, Next(lines, IsStart, 0), i);
    TrimmedHead(Pieces(lines, IsStart, Next(lines, IsStart, 0))[i], Having(lines, IsStart)[i]);
  }

  lemma HeaderIsKept(c: Chunk, header: Line)
    requires HeadedBy(c, header)
    ensures Having(Keep(c), IsStart) == [header] && Having(Carry(c), IsStart) == []
  {
    NoneHaving(Carry(c), IsStart);
    HeadOfPiece(Keep(c));
  }

  lemma HeaderOfMiddle(raw: seq<Chunk>, i: nat, header: Line)
    requires i < |raw| && HeadedBy(raw[i], header) && Having(Prefix(raw, i), IsStart) == []
    ensures Having(Middle(raw, i), IsStart) == [header]
  {
    HeaderIsKept(raw[i], header);
    HavingAppend(Prefix(raw, i), Keep(raw[i]), IsStart);
    TrimKeeps(Prefix(raw, i) + Keep(raw[i]), IsStart);
  }

  lemma HeaderOfChunk(c: Chunk, middle: Chunk, carried: Chunk, header: Line)
    requires Having(middle, IsStart) == [header] && Having(carried, IsStart) == []
    requires c == middle || c == Trim(middle + carried)
    ensures Having(c, IsStart) == [header]
  {
    HavingAppend(middle, carried, IsStart);
    TrimKeeps(middle + carried, IsStart);
  }

  lemma CarriedIs(raw: seq<Chunk>, i: nat, middle: Chunk)
    requires i < |raw| && middle == Middle(raw, i)
    ensures Carried(raw)[i] == middle || Carried(raw)[i] == Trim(middle + Carry(raw[i]))
  {
    CarriedAt(raw, i, if i < |raw| - 1 then middle else Last(raw));
  }

  lemma HeaderOfCarried(raw: seq<Chunk>, i: nat, header: Line)
    requires i < |raw| && HeadedBy(raw[i], header) && Having(Prefix(raw, i), IsStart) == []
    ensures Having(Carried(raw)[i], IsStart) == [header]
  {
    HeaderOfMiddle(raw, i, header);
    HeaderIsKept(raw[i], header);
    CarriedIs(raw, i, Middle(raw, i));
    HeaderOfChunk(Carried(raw)[i], Middle(raw, i), Carry(raw[i]), header);
  }

  // Each header line stands in its own chunk, and no other header does.
  lemma HeadersStay(lines: seq<Line>, i: nat)
    requires |Having(lines, IsStart)| >= 2 && i < |Having(lines, IsStart)|
    ensures var chunks := Carried(RawChunks(lines));
            |chunks| == |Having(lines, IsStart)| && Having(chunks[i], IsStart) == [Having(lines, IsStart)[i]]
  {
    RawHead(lines, i);
    if i > 0 {
      RawHead(lines, i - 1);
      HeaderIsKept(RawChunks(lines)[i - 1], Having(lines, IsStart)[i - 1]);
    }
    HeaderOfCarried(RawChunks(lines), i, Having(lines, IsStart)[i]);
  }

  // Before the evidence filter: one chunk for every header line, with every line from the first
  // header on exactly once and in order; each header stands in its own chunk.
  lemma BareConserves(lines: seq<Line>)
    requires |Having(lines, IsStart)| >= 2
    ensures var chunks, headers := Carried(RawChunks(lines)), Having(lines, IsStart);
            && |chunks| == |headers|
            && NonBlank(Flatten(chunks)) == NonBlank(lines[Next(lines, IsStart, 0)..])
            && forall i :: 0 <= i < |headers| ==> Having(chunks[i], IsStart) == [headers[i]]
  {
    RawConserves(lines);
    CarriedConserves(RawChunks(lines));
    forall i | 0 <= i < |Having(lines, IsStart)|
      ensures Having(Carried(RawChunks(lines))[i], IsStart) == [Having(lines, IsStart)[i]]
    {
      HeadersStay(lines, i);
    }
  }

  // ----- Emoji bullets: a heading without evidence joins the chunk after it -----

  predicate HeadingOnly(c: Chunk, ev: Chunk -> bool)
  {
    !ev(c) && c != [] && IsAnchor(c[0])
  }

  predicate Joins(chunks: seq<Chunk>, ev: Chunk -> bool, i: nat)
    requires i < |chunks|
  {
    i + 1 < |chunks| && HeadingOnly(chunks[i], ev)
  }

  function RepairedAt(chunks: seq<Chunk>, ev: Chunk -> bool, i: nat): (c: Chunk)
    requires i < |chunks|
  {
    if Joins(chunks, ev, i) then Trim(chunks[i] + chunks[i + 1]) else chunks[i]
  }

  function Repaired(chunks: seq<Chunk>, ev: Chunk -> bool, i: nat): (repaired: seq<Chunk>)
    requires i <= |chunks|
    decreases |chunks| - i
  {
    if i == |chunks| then []
    else [RepairedAt(chunks, ev, i)] + Repaired(chunks, ev, if Joins(chunks, ev, i) then i + 2 else i + 1)
  }

  lemma RepairStep(chunks: seq<Chunk>, ev: Chunk -> bool, i: nat, done: seq<Chunk>, all: seq<Chunk>)
    requires i < |chunks| && done + Repaired(chunks, ev, i) == all
    ensures (done + [RepairedAt(chunks, ev, i)]) + Repaired(chunks, ev, if Joins(chunks, ev, i) then i + 2 else i + 1)
         == all
  {
    var rest := Repaired(chunks, ev, if Joins(chunks, ev, i) then i + 2 else i + 1);
    assert done + ([RepairedAt(chunks, ev, i)] + rest) == (done + [RepairedAt(chunks, ev, i)]) + rest;
  }

  method RepairHeadings(chunks: seq<Chunk>, ev: Chunk -> bool) returns (repaired: seq<Chunk>)
    ensures repaired == Repaired(chunks, ev, 0)
  {
    ghost var all := Repaired(chunks, ev, 0);
    repaired := [];
    var index := 0;
    while index < |chunks|
      invariant index <= |chunks| && repaired + Repaired(chunks, ev, index) == all
    {
      RepairStep(chunks, ev, index, repaired, all);
      if index + 1 < |chunks| && HeadingOnly(chunks[index], ev) {
        repaired := repaired + [Trim(chunks[index] + chunks[index + 1])];
        index := index + 2;
      } else {
        repaired := repaired + [chunks[index]];
        index := index + 1;
      }
    }
  }

  lemma {:induction false} RepairConserves(chunks: seq<Chunk>, ev: Chunk -> bool, i: nat)
    requires i <= |chunks|
    ensures NonBlank(Flatten(Repaired(chunks, ev, i))) == NonBlank(Flatten(chunks[i..]))
    decreases |chunks| - i
  {
    if i < |chunks| {
      var c := chunks[i];
      assert chunks[i..] == [c] + chunks[i + 1..];
      if i + 1 < |chunks| && HeadingOnly(c, ev) {
        var d := chunks[i + 1];
        RepairConserves(chunks, ev, i + 2);
        assert chunks[i + 1..] == [d] + chunks[i + 2..];
        LinesOfFirst(Trim(c + d), Repaired(chunks, ev, i + 2));
        LinesOfTrimmed(c, d);
        LinesOfFirst(d, chunks[i + 2..]);
      } else {
        RepairConserves(chunks, ev, i + 1);
        LinesOfFirst(c, Repaired(chunks, ev, i + 1));
      }
      LinesOfFirst(c, chunks[i + 1..]);
    }
  }

  lemma LinesOfFirst(c: Chunk, chunks: seq<Chunk>)
    ensures NonBlank(Flatten([c] + chunks)) == NonBlank(c) + NonBlank(Flatten(chunks))
  {
    NonBlankAppend(c, Flatten(chunks));
  }

  // The property at p, with the heading before it if an odd number of them stands from i on.
  function WithHeading(chunks: seq<Chunk>, i: nat, p: nat): (c: Chunk)
    requires i <= p < |chunks|
  {
    if (p - i) % 2 == 1 then Trim(chunks[p - 1] + chunks[p]) else chunks[p]
  }

  lemma SameParity(chunks: seq<Chunk>, i: nat, p: nat)
    requires i + 2 <= p < |chunks|
    ensures WithHeading(chunks, i + 2, p) == WithHeading(chunks, i, p)
  {
  }

  // What the repair does to k headings in a row followed by a property: headings are joined in
  // pairs, so the property receives its heading exactly when k is odd, and every pair is dropped by
  // the evidence filter.
  lemma {:induction false} RunOfHeadings(chunks: seq<Chunk>, ev: Chunk -> bool, i: nat, p: nat)
    requires i <= p < |chunks| && ev(chunks[p])
    requires forall j :: i <= j < p ==> Joins(chunks, ev, j)
    requires forall j :: i <= j < p - 1 ==> !ev(RepairedAt(chunks, ev, j))
    requires p > i ==> ev(RepairedAt(chunks, ev, p - 1))
    ensures Shown(Repaired(chunks, ev, i), ev)
         == [WithHeading(chunks, i, p)] + Shown(Repaired(chunks, ev, p + 1), ev)
    decreases p - i
  {
    if i == p {
      PropertyShown(chunks, ev, p);
    } else {
      assert Joins(chunks, ev, i);
      PairShown(chunks, ev, i);
      if i + 1 < p {
        RunOfHeadings(chunks, ev, i + 2, p);
        SameParity(chunks, i, p);
      }
    }
  }

  lemma PropertyShown(chunks: seq<Chunk>, ev: Chunk -> bool, p: nat)
    requires p < |chunks| && ev(chunks[p])
    ensures Shown(Repaired(chunks, ev, p), ev) == [chunks[p]] + Shown(Repaired(chunks, ev, p + 1), ev)
  {
    assert !Joins(chunks, ev, p);
    ShownStep(chunks, ev, p);
  }

  lemma PairShown(chunks: seq<Chunk>, ev: Chunk -> bool, i: nat)
    requires i < |chunks| && Joins(chunks, ev, i)
    ensures var pair, rest := RepairedAt(chunks, ev, i), Shown(Repaired(chunks, ev, i + 2), ev);
            Shown(Repaired(chunks, ev, i), ev) == if ev(pair) then [pair] + rest else rest
  {
    ShownStep(chunks, ev, i);
  }

  lemma ShownStep(chunks: seq<Chunk>, ev: Chunk -> bool, i: nat)
    requires i < |chunks|
    ensures var rest := Shown(Repaired(chunks, ev, if Joins(chunks, ev, i) then i + 2 else i + 1), ev);
            Shown(Repaired(chunks, ev, i), ev)
            == if ev(RepairedAt(chunks, ev, i)) then [RepairedAt(chunks, ev, i)] + rest else rest
  {
    ShownFirst(RepairedAt(chunks, ev, i), Repaired(chunks, ev, if Joins(chunks, ev, i) then i + 2 else i + 1), ev);
  }

  lemma ShownFirst(c: Chunk, chunks: seq<Chunk>, ev: Chunk -> bool)
    ensures Shown([c] + chunks, ev) == if ev(c) then [c] + Shown(chunks, ev) else Shown(chunks, ev)
  {
    assert ([c] + chunks)[1..] == chunks;
  }

  const GLYPHS: nat := 7

  function GlyphMark(g: nat): (p: Line -> bool) { (l: Line) => HasGlyph(l, g) }

  function EmojiBoundary(g: nat): (p: Line -> bool)
  {
    (l: Line) => HasGlyph(l, g) || (l.Text? && l.listing) || IsAnchor(l)
  }

  function EmojiRaw(lines: seq<Line>, g: nat, ev: Chunk -> bool): (chunks: seq<Chunk>)
  {
    Repaired(Cleaned(Pieces(lines[Next(lines, GlyphMark(g), 0)..], EmojiBoundary(g), 0)), ev, 0)
  }

  // The preamble is put before every chunk if it carries a BHK or an intent.
  function Inherit(chunks: seq<Chunk>, preamble: Chunk): (prefixed: seq<Chunk>)
  {
    seq(|chunks|, i requires 0 <= i < |chunks| => preamble + chunks[i])
  }

  function EmojiFor(lines: seq<Line>, g: nat, ev: Chunk -> bool, context: Chunk -> bool): (accepted: seq<Chunk>)
  {
    var preamble := Trim(lines[..Next(lines, GlyphMark(g), 0)]);
    var chunks := Shown(EmojiRaw(lines, g, ev), ev);
    if |Having(lines, GlyphMark(g))| < 2 || |chunks| < 2 then []
    else if preamble != [] && context(preamble) then Inherit(chunks, preamble) else chunks
  }

  function EmojiAt(lines: seq<Line>, ev: Chunk -> bool, context: Chunk -> bool): (chunksFor: nat -> seq<Chunk>)
  {
    (g: nat) => EmojiFor(lines, g, ev, context)
  }

  // The answer for the first of n glyphs that has one.
  function FoundTo(chunksFor: nat -> seq<Chunk>, n: nat): (accepted: seq<Chunk>)
  {
    if n == 0 then [] else if FoundTo(chunksFor, n - 1) != [] then FoundTo(chunksFor, n - 1) else chunksFor(n - 1)
  }

  lemma {:induction false} FoundStays(chunksFor: nat -> seq<Chunk>, n: nat, more: nat)
    requires FoundTo(chunksFor, n) != []
    ensures FoundTo(chunksFor, n + more) == FoundTo(chunksFor, n)
  {
    if more > 0 { FoundStays(chunksFor, n, more - 1); }
  }

  lemma FoundNow(chunksFor: nat -> seq<Chunk>, g: nat, accepted: seq<Chunk>)
    requires g < GLYPHS && FoundTo(chunksFor, g) == [] && accepted == chunksFor(g) != []
    ensures FoundTo(chunksFor, GLYPHS) == accepted
  {
    FoundStays(chunksFor, g + 1, GLYPHS - g - 1);
  }

  function EmojiChunks(lines: seq<Line>, ev: Chunk -> bool, context: Chunk -> bool): (accepted: seq<Chunk>)
  {
    FoundTo(EmojiAt(lines, ev, context), GLYPHS)
  }

  method SplitAtGlyph(lines: seq<Line>, g: nat, ev: Chunk -> bool, context: Chunk -> bool)
    returns (accepted: seq<Chunk>)
    ensures accepted == EmojiAt(lines, ev, context)(g)
  {
    if |Having(lines, GlyphMark(g))| < 2 { return []; }
    var first := Next(lines, GlyphMark(g), 0);
    var preamble := Trim(lines[..first]);
    var chunks := SplitOnPredicate(lines[first..], EmojiBoundary(g));
    chunks := RepairHeadings(chunks, ev);
    chunks := Shown(chunks, ev);
    if |chunks| < 2 { return []; }
    accepted := if preamble != [] && context(preamble) then Inherit(chunks, preamble) else chunks;
  }

  method SplitEmojiBullet(lines: seq<Line>, ev: Chunk -> bool, context: Chunk -> bool) returns (accepted: seq<Chunk>)
    ensures accepted == EmojiChunks(lines, ev, context)
  {
    ghost var chunksFor := EmojiAt(lines, ev, context);
    for g := 0 to GLYPHS
      invariant FoundTo(chunksFor, g) == []
    {
      accepted := SplitAtGlyph(lines, g, ev, context);
      if accepted != [] {
        FoundNow(chunksFor, g, accepted);
        return;
      }
    }
    accepted := [];
  }

  // Before the evidence filter every line from the first glyph on is in exactly one chunk, in order.
  lemma EmojiConserves(lines: seq<Line>, g: nat, ev: Chunk -> bool)
    ensures NonBlank(Flatten(EmojiRaw(lines, g, ev))) == NonBlank(lines[Next(lines, GlyphMark(g), 0)..])
  {
    var body := lines[Next(lines, GlyphMark(g), 0)..];
    var pieces := Pieces(body, EmojiBoundary(g), 0);
    RepairConserves(Cleaned(pieces), ev, 0);
    assert Cleaned(pieces)[0..] == Cleaned(pieces);
    CleanedConserves(pieces);
    PiecesConserve(body, EmojiBoundary(g), 0);
    assert body[0..] == body;
  }

  // Putting lines around a chunk hides none of its evidence: the searches are not anchored.
  ghost predicate Unanchored(ev: Chunk -> bool)
  {
    forall a: Chunk, c: Chunk :: ev(c) ==> ev(a + c) && ev(c + a)
  }

  predicate AllShow(chunks: seq<Chunk>, ev: Chunk -> bool) { forall c :: c in chunks ==> ev(c) }

  predicate Presentable(chunks: seq<Chunk>, ev: Chunk -> bool)
  {
    chunks == [] || (|chunks| >= 2 && AllShow(chunks, ev))
  }

  lemma EmojiForShows(lines: seq<Line>, g: nat, ev: Chunk -> bool, context: Chunk -> bool)
    requires Unanchored(ev)
    ensures Presentable(EmojiFor(lines, g, ev, context), ev)
  {
    ShownAll(EmojiRaw(lines, g, ev), ev);
  }

  lemma {:induction false} FoundShows(chunksFor: nat -> seq<Chunk>, ev: Chunk -> bool, n: nat)
    requires forall k :: Presentable(chunksFor(k), ev)
    ensures Presentable(FoundTo(chunksFor, n), ev)
  {
    if n > 0 { FoundShows(chunksFor, ev, n - 1); }
  }

  lemma EmojiShows(lines: seq<Line>, ev: Chunk -> bool, context: Chunk -> bool)
    requires Unanchored(ev)
    ensures Presentable(EmojiChunks(lines, ev, context), ev)
  {
    forall g ensures Presentable(EmojiAt(lines, ev, context)(g), ev) { EmojiForShows(lines, g, ev, context); }
    FoundShows(EmojiAt(lines, ev, context), ev, GLYPHS);
  }

  // ----- What the two splitters answer -----

  predicate TwoCounted(c: Chunk)
  {
    exists i, j :: 0 <= i < j < |c| && IsCounted(c[i]) && IsCounted(c[j])
  }

  lemma CrowdedIff(c: Chunk)
    ensures Crowded(c) <==> TwoCounted(c)
  {
    assert c[..|c|] == c;
    HavingCounts(c, IsCounted, |c|);
    var places := PlacesHaving(c, IsCounted, |c|);
    if TwoCounted(c) {
      var i: nat, j: nat :| i < j < |c| && IsCounted(c[i]) && IsCounted(c[j]);
      TwoMembers(places, i, j);
    }
    if |places| > 1 {
      var i, j := TwoOf(places);
      assert IsCounted(c[i]) && IsCounted(c[j]);
    }
  }

  lemma TwoMembers(places: set<nat>, i: nat, j: nat)
    requires i in places && j in places && i != j
    ensures |places| > 1
  {
    assert |places - {i}| == |places| - 1 && j in places - {i};
  }

  lemma TwoOf(places: set<nat>) returns (i: nat, j: nat)
    requires |places| > 1
    ensures i in places && j in places && i < j
  {
    i :| i in places;
    assert |places - {i}| > 0;
    j :| j in places - {i};
    if j < i { i, j := j, i; }
  }

  // The places of the chunks that show evidence; the filter keeps these, in order.
  lemma {:induction false} ShownPlaces(chunks: seq<Chunk>, ev: Chunk -> bool) returns (places: seq<nat>)
    ensures Rising(places, |chunks|) && |Shown(chunks, ev)| == |places|
    ensures forall i: nat :: i in places <==> i < |chunks| && ev(chunks[i])
    ensures forall k :: 0 <= k < |places| ==> Shown(chunks, ev)[k] == chunks[places[k]]
  {
    places := [];
    if chunks != [] {
      var rest := ShownPlaces(chunks[1..], ev);
      places := Onward(rest, ev(chunks[0]));
      forall i: nat ensures i in places <==> i < |chunks| && ev(chunks[i]) {
        OnwardHas(rest, ev(chunks[0]), i);
        if 0 < i < |chunks| { assert chunks[1..][i - 1] == chunks[i]; }
      }
      ShownOnward(chunks, ev, rest);
    }
  }

  lemma ShownOnward(chunks: seq<Chunk>, ev: Chunk -> bool, rest: seq<nat>)
    requires chunks != [] && Rising(rest, |chunks| - 1) && |Shown(chunks[1..], ev)| == |rest|
    requires forall k :: 0 <= k < |rest| ==> Shown(chunks[1..], ev)[k] == chunks[1..][rest[k]]
    ensures var places := Onward(rest, ev(chunks[0]));
            && |Shown(chunks, ev)| == |places| && Rising(places, |chunks|)
            && forall k :: 0 <= k < |places| ==> Shown(chunks, ev)[k] == chunks[places[k]]
  {
    OnwardRises(rest, ev(chunks[0]), |chunks| - 1);
    var places, shown := Onward(rest, ev(chunks[0])), Shown(chunks[1..], ev);
    assert Shown(chunks, ev) == if ev(chunks[0]) then [chunks[0]] + shown else shown;
    forall k | 0 <= k < |places| ensures Shown(chunks, ev)[k] == chunks[places[k]] {
      var j := if ev(chunks[0]) then k - 1 else k;
      if j >= 0 { assert Shown(chunks, ev)[k] == shown[j] == chunks[1..][rest[j]] == chunks[rest[j] + 1]; }
    }
  }

  // A bare-BHK split: of the carried chunks exactly those that show evidence, in order; none of them when
  // one that does holds two counted lines, or when fewer than two lines start a listing.
  lemma BareSplits(lines: seq<Line>, ev: Chunk -> bool) returns (places: seq<nat>)
    ensures var raw, chunks := Carried(RawChunks(lines)), BareChunks(lines, ev);
            && Rising(places, |raw|) && (forall i: nat :: i in places <==> i < |raw| && ev(raw[i]))
            && (Count(lines, IsStart) < 2 ==> chunks == [])
            && (if exists i: nat :: i in places && TwoCounted(raw[i]) then chunks == []
                else |chunks| == |places| && forall k :: 0 <= k < |places| ==> chunks[k] == raw[places[k]])
  {
    var raw := Carried(RawChunks(lines));
    places := ShownPlaces(raw, ev);
    assert lines[..|lines|] == lines;
    HavingCounts(lines, IsStart, |lines|);
    CrowdedAmong(raw, places, Shown(raw, ev));
  }

  lemma CrowdedAmong(raw: seq<Chunk>, places: seq<nat>, kept: seq<Chunk>)
    requires Rising(places, |raw|) && |kept| == |places|
    requires forall k :: 0 <= k < |places| ==> kept[k] == raw[places[k]]
    ensures (exists c :: c in kept && Crowded(c)) <==> exists i: nat :: i in places && TwoCounted(raw[i])
  {
    if c :| c in kept && Crowded(c) {
      var k :| 0 <= k < |kept| && kept[k] == c;
      CrowdedIff(c);
      assert places[k] in places;
    }
    if i: nat :| i in places && TwoCounted(raw[i]) {
      var k :| 0 <= k < |places| && places[k] == i;
      CrowdedIff(kept[k]);
      assert kept[k] in kept;
    }
  }

  // The pieces that the emoji split of a glyph begins with: from the first line with the glyph on, each up
  // to the next line with it, listing header or anchor line, as far as they hold text.
  lemma EmojiPieces(lines: seq<Line>, g: nat) returns (first: nat, spans: seq<Span>, pieces: seq<Chunk>)
    ensures first <= |lines| && (first < |lines| ==> lines[first].Text? && g in lines[first].glyphs)
    ensures forall k :: 0 <= k < first ==> !(lines[k].Text? && g in lines[k].glyphs)
    ensures Answered(lines, spans, pieces)
    ensures forall s: Span :: s in spans <==>
              EmojiPieceAt(lines, g, first, s) && exists k :: s.0 <= k < s.1 && lines[k].Text?
    ensures forall ev: Chunk -> bool :: EmojiRaw(lines, g, ev) == Repaired(pieces, ev, 0)
  {
    first := Next(lines, GlyphMark(g), 0);
    var all := (c: Chunk) => true;
    pieces := Cleaned(Pieces(lines[first..], EmojiBoundary(g), 0));
    spans := PiecesKept(lines, EmojiBoundary(g), first, all);
    AllKept(pieces, all);
    EmojiSpans(lines, g, first, spans, all);
  }

  lemma EmojiSpans(lines: seq<Line>, g: nat, first: nat, spans: seq<Span>, all: Chunk -> bool)
    requires forall c :: all(c)
    requires forall s: Span :: s in spans <==>
               PieceAt(lines, EmojiBoundary(g), first, s) && ShowsAt(lines, s, Filled(all))
    ensures forall s: Span :: s in spans <==>
              EmojiPieceAt(lines, g, first, s) && exists k :: s.0 <= k < s.1 && lines[k].Text?
  {
    forall s: Span
      ensures s in spans <==> EmojiPieceAt(lines, g, first, s) && exists k :: s.0 <= k < s.1 && lines[k].Text?
    {
      EmojiPieceIff(lines, g, first, s);
      if s.0 <= s.1 <= |lines| { HoldsText(lines, s, all); }
    }
  }

  lemma EmojiPieceIff(lines: seq<Line>, g: nat, first: nat, s: Span)
    ensures EmojiPieceAt(lines, g, first, s) <==> PieceAt(lines, EmojiBoundary(g), first, s)
  {
  }

  predicate EmojiPieceAt(lines: seq<Line>, g: nat, first: nat, s: Span)
  {
    && first <= s.0 < s.1 <= |lines| && (s.0 == first || OpensPiece(lines[s.0], g))
    && (forall k :: s.0 < k < s.1 ==> !OpensPiece(lines[k], g)) && (s.1 == |lines| || OpensPiece(lines[s.1], g))
  }

  predicate OpensPiece(l: Line, g: nat) { l.Text? && (g in l.glyphs || l.listing || l.anchor) }

  lemma {:induction false} AllKept(chunks: seq<Chunk>, all: Chunk -> bool)
    requires forall c :: all(c)
    ensures Shown(chunks, all) == chunks
  {
    if chunks != [] { AllKept(chunks[1..], all); }
  }

  lemma HoldsText(lines: seq<Line>, s: Span, all: Chunk -> bool)
    requires s.0 <= s.1 <= |lines| && forall c :: all(c)
    ensures ShowsAt(lines, s, Filled(all)) <==> exists k :: s.0 <= k < s.1 && lines[k].Text?
  {
    TrimIsTrimmed(lines, s.0, s.1);
    var c := Trim(lines[s.0..s.1]);
    var x: nat, y: nat :| TrimmedTo(lines, s.0, s.1, c, x, y);
    TrimmedEmptyIff(lines, s.0, s.1, c, x, y);
    LineSplitters.ShowsIff(lines, s, Filled(all));
  }

  // An emoji split by one glyph: there is one when two lines or more carry the glyph and two of the
  // repaired chunks or more show evidence; then these are its chunks, in order, each behind the lines
  // before the first glyph, if those carry context.
  lemma EmojiForSplits(lines: seq<Line>, g: nat, ev: Chunk -> bool, context: Chunk -> bool)
    returns (places: seq<nat>, preamble: Chunk)
    ensures var raw, chunks := EmojiRaw(lines, g, ev), EmojiFor(lines, g, ev, context);
            && Rising(places, |raw|) && (forall i: nat :: i in places <==> i < |raw| && ev(raw[i]))
            && Trimmed(lines, 0, Next(lines, GlyphMark(g), 0), preamble)
            && (chunks != [] <==> Count(lines, GlyphMark(g)) >= 2 && |places| >= 2)
            && (chunks != [] ==> |chunks| == |places| && forall k :: 0 <= k < |places| ==>
                  chunks[k] == if preamble != [] && context(preamble) then preamble + raw[places[k]]
                      else raw[places[k]])
  {
    var first := Next(lines, GlyphMark(g), 0);
    places := ShownPlaces(EmojiRaw(lines, g, ev), ev);
    preamble := Trim(lines[..first]);
    assert lines[0..first] == lines[..first] && lines[..|lines|] == lines;
    TrimIsTrimmed(lines, 0, first);
    HavingCounts(lines, GlyphMark(g), |lines|);
  }

  // The emoji split is that of the first of the seven glyphs that has one; g is 7 if none has.
  lemma EmojiIsFirst(lines: seq<Line>, ev: Chunk -> bool, context: Chunk -> bool) returns (g: nat)
    ensures g <= 7 && forall h: nat :: h < g ==> EmojiFor(lines, h, ev, context) == []
    ensures if g == 7 then EmojiChunks(lines, ev, context) == []
            else EmojiChunks(lines, ev, context) == EmojiFor(lines, g, ev, context) != []
  {
    g := FoundFirst(EmojiAt(lines, ev, context), GLYPHS);
    forall h: nat | h < g ensures EmojiFor(lines, h, ev, context) == [] {
      assert EmojiAt(lines, ev, context)(h) == [];
    }
  }

  lemma {:induction false} FoundFirst(chunksFor: nat -> seq<Chunk>, n: nat) returns (g: nat)
    ensures g <= n && forall h: nat :: h < g ==> chunksFor(h) == []
    ensures if g == n then FoundTo(chunksFor, n) == [] else FoundTo(chunksFor, n) == chunksFor(g) != []
  {
    g := 0;
    if n > 0 {
      g := FoundFirst(chunksFor, n - 1);
      if g == n - 1 && chunksFor(n - 1) == [] { g := n; }
    }
  }

  // ----- The choice of a splitter -----

  datatype Pattern = EmojiBullet | DashSeparator | Numbered | BareBhk | RunOn | InlineBold

  const ORDER := [EmojiBullet, DashSeparator, Numbered, BareBhk, RunOn, InlineBold]

  function Rank(p: Pattern): (k: nat)
    ensures k < 6
  {
    match p
    case EmojiBullet => 0
    case DashSeparator => 1
    case Numbered => 2
    case BareBhk => 3
    case RunOn => 4
    case InlineBold => 5
  }

  function Tried(preferred: Option<Pattern>): (order: seq<Pattern>)
  {
    if preferred.None? then ORDER
    else [preferred.value] + ORDER[..Rank(preferred.value)] + ORDER[Rank(preferred.value) + 1..]
  }

  // Whatever the preference, every pattern is tried exactly once, the preferred one first.
  lemma TriedOnce(preferred: Option<Pattern>)
    ensures |Tried(preferred)| == 6 && forall p :: p in Tried(preferred)
    ensures preferred.Some? ==> Tried(preferred)[0] == preferred.value
  {
    forall p ensures p in Tried(preferred) {
      assert ORDER[Rank(p)] == p;
      if preferred.Some? && p != preferred.value {
        var k := Rank(p) + if Rank(p) < Rank(preferred.value) then 1 else 0;
        assert Tried(preferred)[k] == p;
      }
    }
  }

  // How the regexes read: whether lines show a BHK, a price or an area, whether a preamble shows a
  // BHK or an intent, whether a text shows a price, and the lines of a text.
  datatype Reading = Reading(ev: Chunk -> bool, context: Chunk -> bool, price: string -> bool, lines: string -> Chunk)
  {
    function Shows(): (shows: string -> bool) { s => ev(lines(s)) }

    // A price is evidence, and lines around others hide none of theirs: the searches are not anchored.
    ghost predicate Searches()
    {
      && Unanchored(ev)
      && (forall s :: price(s) ==> ev(lines(s)))
      && (forall s, t :: lines(s + "\n" + t) == lines(s) + lines(t))
    }
  }

  // A text with its lines; its compacted form with the listing starts in it; its bold spans, the
  // bold header at its head, and the number of its prices.
  datatype Message = Message(text: string, lines: seq<Line>, short: bool, compact: string, starts: seq<nat>,
                             bolds: seq<Bold>, header: Option<string>, prices: nat)
  {
    predicate Valid() { Rising(starts, |compact|) && Spans(text, bolds) }
  }

  function ReadEach(texts: seq<string>, lines: string -> Chunk): (chunks: seq<Chunk>)
  {
    seq(|texts|, i requires 0 <= i < |texts| => lines(texts[i]))
  }

  function Chunks(m: Message, p: Pattern, r: Reading): (chunks: seq<Chunk>)
    requires m.Valid()
  {
    match p
    case EmojiBullet => EmojiChunks(m.lines, r.ev, r.context)
    case DashSeparator =>
      if |Having(m.lines, IsDash)| == 0 then [] else Shown(TrimEach(Between(m.lines, IsDash, 0)), r.ev)
    case Numbered => Shown(NumberedRaw(m.lines), r.ev)
    case BareBhk => BareChunks(m.lines, r.ev)
    case RunOn => ReadEach(RunOnChunks(m.text, m.compact, m.starts, r.price), r.lines)
    case InlineBold => ReadEach(BoldChunks(m.text, m.bolds, m.prices, m.header, r.price, r.Shows()), r.lines)
  }

  function Headers(m: Message): (n: nat) { |Having(m.lines, IsBhk)| }

  predicate Accepts(m: Message, p: Pattern, chunks: seq<Chunk>, ev: Chunk -> bool)
  {
    if p.InlineBold? then |chunks| >= 2 && |chunks| == m.prices
    else
      var headers, explicits := Headers(m), |Having(m.lines, IsExplicit)|;
      && |chunks| >= 2
      && (|| headers == 0
          || |chunks| == headers
          || (p.Numbered? && |chunks| == |Having(m.lines, NumberedBoundary)|)
          || (p.DashSeparator? && AllShow(chunks, ev))
          || (p.EmojiBullet? && (exists l :: l in m.lines && IsAnchor(l)) && |chunks| == headers + 1)
          || (p.BareBhk? && explicits > 0 && |chunks| == headers + explicits))
      && (p.BareBhk? ==> forall c :: c in chunks ==> !Crowded(c))
  }

  method SplitWith(m: Message, p: Pattern, r: Reading) returns (chunks: seq<Chunk>)
    requires m.Valid()
    ensures chunks == Chunks(m, p, r)
  {
    match p
    case EmojiBullet => chunks := SplitEmojiBullet(m.lines, r.ev, r.context);
    case DashSeparator => chunks := SplitDashSeparator(m.lines, r.ev); HavingNone(m.lines, IsDash);
    case Numbered => chunks := SplitNumbered(m.lines, r.ev);
    case BareBhk => chunks := SplitBareBhk(m.lines, r.ev);
    case RunOn =>
      var texts := SplitRunOn(m.text, m.compact, m.starts, r.price);
      chunks := ReadEach(texts, r.lines);
    case InlineBold =>
      var texts := SplitInlineBold(m.text, m.bolds, m.prices, m.header, r.price, r.Shows());
      chunks := ReadEach(texts, r.lines);
  }

  predicate Accepted(m: Message, p: Pattern, r: Reading)
    requires m.Valid()
  {
    Accepts(m, p, Chunks(m, p, r), r.ev)
  }

  function AcceptedBy(m: Message, r: Reading): (ok: Pattern -> bool)
    requires m.Valid()
  {
    p => Accepted(m, p, r)
  }

  // The first of the first n patterns that is accepted.
  function ChooseTo(order: seq<Pattern>, n: nat, ok: Pattern -> bool): (p: Option<Pattern>)
    requires n <= |order|
  {
    if n == 0 then None
    else if ChooseTo(order, n - 1, ok).Some? then ChooseTo(order, n - 1, ok)
    else if ok(order[n - 1]) then Some(order[n - 1]) else None
  }

  function Choose(order: seq<Pattern>, ok: Pattern -> bool): (p: Option<Pattern>) { ChooseTo(order, |order|, ok) }

  lemma {:induction false} ChoiceStays(order: seq<Pattern>, n: nat, more: nat, ok: Pattern -> bool)
    requires n + more <= |order| && ChooseTo(order, n, ok).Some?
    ensures ChooseTo(order, n + more, ok) == ChooseTo(order, n, ok)
  {
    if more > 0 { ChoiceStays(order, n, more - 1, ok); }
  }

  lemma ChoiceNow(order: seq<Pattern>, k: nat, ok: Pattern -> bool)
    requires k < |order| && ChooseTo(order, k, ok).None? && ok(order[k])
    ensures Choose(order, ok) == Some(order[k])
  {
    ChoiceStays(order, k + 1, |order| - k - 1, ok);
  }

  function AnswersBy(m: Message, r: Reading): (answer: Pattern -> seq<Chunk>)
    requires m.Valid()
  {
    p => Chunks(m, p, r)
  }

  method TryPattern(m: Message, p: Pattern, r: Reading) returns (chunks: seq<Chunk>, accepted: bool)
    requires m.Valid()
    ensures chunks == AnswersBy(m, r)(p) && accepted == AcceptedBy(m, r)(p)
  {
    chunks := SplitWith(m, p, r);
    accepted := Accepts(m, p, chunks, r.ev);
  }

  // split_message_into_chunks answers with the first pattern, in the order tried, that is accepted.
  method SplitMessage(m: Message, preferred: Option<Pattern>, r: Reading)
    returns (pattern: Option<Pattern>, chunks: seq<Chunk>)
    requires m.Valid()
    ensures pattern == if m.short then None else Choose(Tried(preferred), AcceptedBy(m, r))
    ensures chunks == if pattern.None? then [] else Chunks(m, pattern.value, r)
  {
    pattern, chunks := None, [];
    if !m.short { pattern, chunks := TryInOrder(m, Tried(preferred), r); }
  }

  method TryInOrder(m: Message, order: seq<Pattern>, r: Reading) returns (pattern: Option<Pattern>, chunks: seq<Chunk>)
    requires m.Valid()
    ensures pattern == Choose(order, AcceptedBy(m, r))
    ensures chunks == if pattern.None? then [] else Chunks(m, pattern.value, r)
  {
    pattern, chunks := None, [];
    ghost var ok := AcceptedBy(m, r);
    for k := 0 to |order|
      invariant ChooseTo(order, k, ok).None?
    {
      var found, accepted := TryPattern(m, order[k], r);
      if accepted {
        ChoiceNow(order, k, ok);
        return Some(order[k]), found;
      }
    }
  }

  lemma {:induction false} ChosenIff(order: seq<Pattern>, n: nat, ok: Pattern -> bool)
    requires n <= |order|
    ensures ChooseTo(order, n, ok).None? <==> forall j :: 0 <= j < n ==> !ok(order[j])
    ensures ChooseTo(order, n, ok).Some? ==> ok(ChooseTo(order, n, ok).value)
  {
    if n > 0 { ChosenIff(order, n - 1, ok); }
  }

  // A preference changes which accepted pattern is chosen, never whether one is; a preferred
  // pattern that is accepted wins.
  lemma PreferenceOnlyOrders(preferred: Option<Pattern>, ok: Pattern -> bool)
    ensures Choose(Tried(preferred), ok).None? <==> forall p :: !ok(p)
    ensures Choose(Tried(preferred), ok).Some? ==> ok(Choose(Tried(preferred), ok).value)
    ensures preferred.Some? && ok(preferred.value) ==> Choose(Tried(preferred), ok) == preferred
  {
    var order := Tried(preferred);
    TriedOnce(preferred);
    ChosenIff(order, |order|, ok);
    if p :| ok(p) { assert p in order; }
    if preferred.Some? && ok(preferred.value) {
      assert ChooseTo(order, 1, ok) == Some(order[0]);
      ChoiceStays(order, 1, |order| - 1, ok);
    }
  }

  lemma RunOnShows(m: Message, r: Reading)
    requires m.Valid() && r.Searches()
    ensures AllShow(Chunks(m, RunOn, r), r.ev)
  {
    var texts := RunOnChunks(m.text, m.compact, m.starts, r.price);
    if texts != [] { RunOnConserves(m.text, m.compact, m.starts, r.price); }
    forall k | 0 <= k < |texts| ensures r.ev(r.lines(texts[k])) { assert r.price(texts[k]); }
  }

  lemma InlineBoldShows(m: Message, r: Reading)
    requires m.Valid() && r.Searches()
    ensures AllShow(Chunks(m, InlineBold, r), r.ev)
  {
    var texts := BoldChunks(m.text, m.bolds, m.prices, m.header, r.price, r.Shows());
    if texts != [] { BoldShows(m.text, m.bolds, m.prices, m.header, r.price, r.Shows()); }
    forall k | 0 <= k < |texts| ensures r.ev(r.lines(texts[k])) {
      assert texts[k] in texts;
      var d :| r.Shows()(d) && texts[k] == if m.header.Some? then d + "\n" + m.header.value else d;
      if m.header.Some? { assert r.lines(d + "\n" + m.header.value) == r.lines(d) + r.lines(m.header.value); }
    }
  }

  // Whatever pattern is accepted, there are at least two chunks and each holds a BHK, a price or an
  // area.
  lemma AcceptedShows(m: Message, p: Pattern, r: Reading)
    requires m.Valid() && r.Searches() && Accepted(m, p, r)
    ensures |Chunks(m, p, r)| >= 2 && AllShow(Chunks(m, p, r), r.ev)
  {
    match p
    case EmojiBullet => EmojiShows(m.lines, r.ev, r.context);
    case DashSeparator => ShownAll(TrimEach(Between(m.lines, IsDash, 0)), r.ev);
    case Numbered => ShownAll(NumberedRaw(m.lines), r.ev);
    case BareBhk => ShownAll(Carried(RawChunks(m.lines)), r.ev);
    case RunOn => RunOnShows(m, r);
    case InlineBold => InlineBoldShows(m, r);
  }

  lemma HeadersAre(m: Message)
    ensures Headers(m) == Count(m.lines, IsBhk)
    ensures |Having(m.lines, IsExplicit)| == Count(m.lines, IsExplicit)
    ensures |Having(m.lines, NumberedBoundary)| == Count(m.lines, NumberedBoundary)
  {
    assert m.lines[..|m.lines|] == m.lines;
    HavingCounts(m.lines, IsBhk, |m.lines|);
    HavingCounts(m.lines, IsExplicit, |m.lines|);
    HavingCounts(m.lines, NumberedBoundary, |m.lines|);
  }

  // Which chunk counts each pattern is accepted with: two at least, and then, counting the lines that are
  // BHK headers, section headers, and numbers or section headers:
  lemma AcceptedIff(m: Message, p: Pattern, r: Reading)
    requires m.Valid()
    ensures var n, bhks := |Chunks(m, p, r)|, Count(m.lines, IsBhk);
            Accepted(m, p, r) <==>
            n >= 2 &&
            match p
            case DashSeparator => true
            case InlineBold => n == m.prices
            case RunOn => bhks == 0 || n == bhks
            case Numbered => bhks == 0 || n == bhks || n == Count(m.lines, NumberedBoundary)
            case EmojiBullet =>
              bhks == 0 || n == bhks || (n == bhks + 1 && exists i :: 0 <= i < |m.lines| && IsAnchor(m.lines[i]))
            case BareBhk =>
              && (forall k :: 0 <= k < n ==> !TwoCounted(Chunks(m, p, r)[k]))
              && (bhks == 0 || n == bhks ||
                  (Count(m.lines, IsExplicit) > 0 && n == bhks + Count(m.lines, IsExplicit)))
  {
    HeadersAre(m);
    DashIgnoresHeaders(m, r);
    forall c: Chunk ensures Crowded(c) <==> TwoCounted(c) { CrowdedIff(c); }
  }

  // A dash split of two chunks or more is always accepted, whatever the number of BHK headers.
  lemma DashIgnoresHeaders(m: Message, r: Reading)
    requires m.Valid()
    ensures Accepted(m, DashSeparator, r) <==> |Chunks(m, DashSeparator, r)| >= 2
  {
    ShownAll(TrimEach(Between(m.lines, IsDash, 0)), r.ev);
  }

  // Three lines, of which one is a BHK header: the dash split has two chunks and is accepted.
  lemma DashSplitsOneHeader(m: Message, r: Reading, header: Line, dash: Line, other: Line)
    requires m.Valid() && m.lines == [header, dash, other] && r.ev([header]) && r.ev([other])
    requires header.Text? && header.bhk && !header.dash && IsDash(dash) && !dash.bhk && other.Text? && !other.bhk &&
             !other.dash
    ensures Headers(m) == 1 && |Chunks(m, DashSeparator, r)| == 2 && Accepted(m, DashSeparator, r)
  {
    var lines := m.lines;
    assert lines == [header] + [dash, other];
    HavingAppend([header], [dash, other], IsBhk);
    NoneHaving([dash, other], IsBhk);
    assert lines[1] in lines;
    HavingNone(lines, IsDash);
    NextIs(lines, IsDash, 1, 1);
    NextIs(lines, IsDash, 3, 3);
    assert lines[0..1] == [header] && lines[2..3] == [other];
    assert Between(lines, IsDash, 3) == [] && Between(lines, IsDash, 2) == [[other]];
    assert Between(lines, IsDash, 1) == [[other]] && Between(lines, IsDash, 0) == [[header], [other]];
    assert Trim([header]) == [header] && Trim([other]) == [other];
    var chunks := TrimEach(Between(lines, IsDash, 0));
    assert chunks == [[header], [other]];
    AllShown(chunks, r.ev);
    DashIgnoresHeaders(m, r);
  }

  // ----- Clean broadcasts are split -----

  lemma {:induction false} StartsAddUp(lines: seq<Line>)
    requires forall l :: l in lines ==> !(IsBhk(l) && IsExplicit(l))
    ensures |Having(lines, IsStart)| == |Having(lines, IsBhk)| + |Having(lines, IsExplicit)|
  {
    if lines != [] { StartsAddUp(lines[1..]); }
  }

  lemma {:induction false} AllShown(chunks: seq<Chunk>, ev: Chunk -> bool)
    requires AllShow(chunks, ev)
    ensures Shown(chunks, ev) == chunks
  {
    if chunks != [] { AllShown(chunks[1..], ev); }
  }

  // A bare-BHK broadcast is accepted, with one chunk for every header of either kind, when every
  // chunk shows evidence, none is crowded, and no header is of both kinds.
  lemma CleanBareIsAccepted(m: Message, r: Reading)
    requires m.Valid() && |Having(m.lines, IsStart)| >= 2 && forall l :: l in m.lines ==> !(IsBhk(l) && IsExplicit(l))
    requires forall c :: c in Carried(RawChunks(m.lines)) ==> r.ev(c) && !Crowded(c)
    ensures Accepted(m, BareBhk, r)
    ensures |Chunks(m, BareBhk, r)| == |Having(m.lines, IsBhk)| + |Having(m.lines, IsExplicit)|
  {
    StartsAddUp(m.lines);
    BareConserves(m.lines);
    AllShown(Carried(RawChunks(m.lines)), r.ev);
  }

  // A numbered broadcast is accepted, with one chunk for every boundary, when every item shows
  // evidence and no section header stands above the first number.
  lemma CleanNumberedIsAccepted(m: Message, r: Reading)
    requires m.Valid() && |Having(m.lines, NumberedBoundary)| >= 2 && AllShow(NumberedRaw(m.lines), r.ev)
    requires forall l :: l in m.lines[..Next(m.lines, IsNumbered, 0)] ==> !IsExplicit(l)
    ensures Accepted(m, Numbered, r)
    ensures |Chunks(m, Numbered, r)| == |Having(m.lines, NumberedBoundary)|
  {
    NumberedCountIff(m.lines, r.ev);
  }
}
