// The line splitters of a broker broadcast: which lines end up in which chunk. A line carries the
// booleans its regexes would answer; whether a whole chunk shows a BHK, a price or an area is a
// function of the chunk, since those searches may cross line ends.
module LineSplitters {

  datatype Line =
    | Blank
    | Text(id: int, dash: bool, numbered: bool, explicitSection: bool, bhk: bool, listing: bool, anchor: bool,
           glyphs: set<nat>, sectionWord: bool, fieldWord: bool, counted: bool)

  type Chunk = seq<Line>

  predicate IsText(l: Line) { l.Text? }
  predicate IsDash(l: Line) { l.Text? && l.dash }
  predicate IsNotDash(l: Line) { !IsDash(l) }
  predicate IsNumbered(l: Line) { l.Text? && l.numbered }
  predicate IsBhk(l: Line) { l.Text? && l.bhk }
  predicate IsExplicit(l: Line) { l.Text? && l.explicitSection }
  predicate IsAnchor(l: Line) { l.Text? && l.anchor }
  predicate IsHeading(l: Line) { l.Text? && l.sectionWord }
  predicate IsField(l: Line) { l.Text? && l.fieldWord && !l.sectionWord }
  predicate IsCounted(l: Line) { l.Text? && l.counted }
  predicate HasGlyph(l: Line, g: nat) { l.Text? && g in l.glyphs }

  // ----- Lines and chunks -----

  function Flatten(chunks: seq<Chunk>): (lines: seq<Line>)
  {
    if chunks == [] then [] else chunks[0] + Flatten(chunks[1..])
  }

  function NonBlank(lines: seq<Line>): (kept: seq<Line>)
  {
    if lines == [] then [] else if lines[0].Blank? then NonBlank(lines[1..]) else [lines[0]] + NonBlank(lines[1..])
  }

  function Having(lines: seq<Line>, p: Line -> bool): (kept: seq<Line>)
  {
    if lines == [] then [] else if p(lines[0]) then [lines[0]] + Having(lines[1..], p) else Having(lines[1..], p)
  }

  // The first line from i on that is not blank, and the end of the last one.
  function Lower(c: Chunk, i: nat): (n: nat)
    requires i <= |c|
    ensures i <= n <= |c|
    decreases |c| - i
  {
    if i < |c| && c[i].Blank? then Lower(c, i + 1) else i
  }

  function Upper(c: Chunk, lo: nat, i: nat): (n: nat)
    requires lo <= i <= |c|
    ensures lo <= n <= i
    decreases i
  {
    if i > lo && c[i - 1].Blank? then Upper(c, lo, i - 1) else i
  }

  // "\n".join(lines).strip()
  function Trim(c: Chunk): (t: Chunk)
  {
    c[Lower(c, 0)..Upper(c, Lower(c, 0), |c|)]
  }

  lemma {:induction false} HavingAppend(a: seq<Line>, b: seq<Line>, p: Line -> bool)
    ensures Having(a + b, p) == Having(a, p) + Having(b, p)
  {
    if a == [] {
      assert a + b == b;
    } else {
      assert (a + b)[1..] == a[1..] + b;
      HavingAppend(a[1..], b, p);
    }
  }

  lemma {:induction false} NonBlankIsHaving(a: seq<Line>)
    ensures NonBlank(a) == Having(a, IsText)
  {
    if a != [] { NonBlankIsHaving(a[1..]); }
  }

  lemma NonBlankAppend(a: seq<Line>, b: seq<Line>)
    ensures NonBlank(a + b) == NonBlank(a) + NonBlank(b)
  {
    var p := IsText;
    HavingAppend(a, b, p);
    NonBlankIsHaving(a + b); NonBlankIsHaving(a); NonBlankIsHaving(b);
  }

  lemma {:induction false} FlattenAppend(a: seq<Chunk>, b: seq<Chunk>)
    ensures Flatten(a + b) == Flatten(a) + Flatten(b)
  {
    if a == [] {
      assert a + b == b;
    } else {
      assert (a + b)[1..] == a[1..] + b;
      FlattenAppend(a[1..], b);
    }
  }

  lemma {:induction false} LowerIs(c: Chunk, i: nat)
    requires i <= |c|
    ensures Lower(c, i) < |c| ==> c[Lower(c, i)].Text?
    ensures forall k :: i <= k < Lower(c, i) ==> c[k].Blank?
    decreases |c| - i
  {
    if i < |c| && c[i].Blank? { LowerIs(c, i + 1); }
  }

  lemma {:induction false} UpperIs(c: Chunk, lo: nat, i: nat)
    requires lo <= i <= |c|
    ensures Upper(c, lo, i) > lo ==> c[Upper(c, lo, i) - 1].Text?
    ensures forall k :: Upper(c, lo, i) <= k < i ==> c[k].Blank?
    decreases i
  {
    if i > lo && c[i - 1].Blank? { UpperIs(c, lo, i - 1); }
  }

  lemma MiddleHaving(a: Chunk, b: Chunk, c: Chunk, p: Line -> bool)
    requires (forall k :: 0 <= k < |a| ==> !p(a[k])) && forall k :: 0 <= k < |c| ==> !p(c[k])
    ensures Having(a + (b + c), p) == Having(b, p)
  {
    HavingAppend(a, b + c, p);
    HavingAppend(b, c, p);
    NoneHaving(a, p);
    NoneHaving(c, p);
  }

  lemma TrimKeeps(c: Chunk, p: Line -> bool)
    requires !p(Blank)
    ensures Having(Trim(c), p) == Having(c, p)
  {
    var lo := Lower(c, 0);
    var hi := Upper(c, lo, |c|);
    LowerIs(c, 0);
    UpperIs(c, lo, |c|);
    assert c == c[..lo] + (c[lo..hi] + c[hi..]);
    MiddleHaving(c[..lo], c[lo..hi], c[hi..], p);
  }

  lemma TrimKeepsLines(c: Chunk)
    ensures NonBlank(Trim(c)) == NonBlank(c)
  {
    TrimKeeps(c, IsText);
    NonBlankIsHaving(c); NonBlankIsHaving(Trim(c));
  }

  lemma TrimOfText(c: Chunk)
    requires c != [] && c[0].Text?
    ensures Trim(c) <= c && Trim(c) != []
    ensures forall k :: |Trim(c)| <= k < |c| ==> c[k].Blank?
  {
    UpperIs(c, 0, |c|);
  }

  // ----- Splitting at the lines that satisfy a predicate -----

  function Next(lines: seq<Line>, p: Line -> bool, i: nat): (n: nat)
    requires i <= |lines|
    ensures i <= n <= |lines| && (n < |lines| ==> p(lines[n])) && forall k :: i <= k < n ==> !p(lines[k])
    decreases |lines| - i
  {
    if i == |lines| || p(lines[i]) then i else Next(lines, p, i + 1)
  }

  // The pieces of lines[i..]: each runs up to the next line that satisfies p.
  function Pieces(lines: seq<Line>, p: Line -> bool, i: nat): (pieces: seq<Chunk>)
    requires i <= |lines|
    decreases |lines| - i
  {
    if i == |lines| then []
    else var n := Next(lines, p, i + 1); [lines[i..n]] + Pieces(lines, p, n)
  }

  lemma {:induction false} PiecesConserve(lines: seq<Line>, p: Line -> bool, i: nat)
    requires i <= |lines|
    ensures Flatten(Pieces(lines, p, i)) == lines[i..]
    decreases |lines| - i
  {
    if i < |lines| {
      var n := Next(lines, p, i + 1);
      PiecesConserve(lines, p, n);
      assert lines[i..] == lines[i..n] + lines[n..];
    }
  }

  // A piece: it opens with a line satisfying p (the first of all may not), and no other line of it does.
  predicate IsPiece(c: Chunk, p: Line -> bool, first: bool)
  {
    c != [] && (first || p(c[0])) && forall k :: 1 <= k < |c| ==> !p(c[k])
  }

  predicate AreaPieces(chunks: seq<Chunk>, p: Line -> bool, first: bool)
  {
    forall j :: 0 <= j < |chunks| ==> IsPiece(chunks[j], p, first && j == 0)
  }

  lemma {:induction false} PiecesArePieces(lines: seq<Line>, p: Line -> bool, i: nat)
    requires i <= |lines|
    ensures AreaPieces(Pieces(lines, p, i), p, i < |lines| && !p(lines[i]))
    decreases |lines| - i
  {
    if i < |lines| {
      var n := Next(lines, p, i + 1);
      PiecesArePieces(lines, p, n);
    }
  }

  lemma {:induction false} CountPieces(lines: seq<Line>, p: Line -> bool, i: nat)
    requires i < |lines| ==> p(lines[i])
    requires i <= |lines|
    ensures |Pieces(lines, p, i)| == |Having(lines[i..], p)|
    decreases |lines| - i
  {
    if i < |lines| {
      var n := Next(lines, p, i + 1);
      CountPieces(lines, p, n);
      assert lines[i..] == [lines[i]] + lines[i + 1..n] + lines[n..];
      HavingAppend([lines[i]] + lines[i + 1..n], lines[n..], p);
      HavingAppend([lines[i]], lines[i + 1..n], p);
      NoneHaving(lines[i + 1..n], p);
    }
  }

  lemma {:induction false} NoneHaving(lines: seq<Line>, p: Line -> bool)
    requires forall k :: 0 <= k < |lines| ==> !p(lines[k])
    ensures Having(lines, p) == []
  {
    if lines != [] { NoneHaving(lines[1..], p); }
  }

  // "\n".join(chunk).strip() for chunk in chunks if it is not empty
  function Cleaned(chunks: seq<Chunk>): (cleaned: seq<Chunk>)
  {
    if chunks == [] then []
    else if Trim(chunks[0]) == [] then Cleaned(chunks[1..])
    else [Trim(chunks[0])] + Cleaned(chunks[1..])
  }

  lemma {:induction false} CleanedConserves(chunks: seq<Chunk>)
    ensures NonBlank(Flatten(Cleaned(chunks))) == NonBlank(Flatten(chunks))
  {
    if chunks != [] {
      var first := Trim(chunks[0]);
      CleanedConserves(chunks[1..]);
      TrimKeepsLines(chunks[0]);
      NonBlankAppend(chunks[0], Flatten(chunks[1..]));
      NonBlankAppend(first, Flatten(Cleaned(chunks[1..])));
      assert Flatten(Cleaned(chunks)) == first + Flatten(Cleaned(chunks[1..])) by {
        FlattenAppend(if first == [] then [] else [first], Cleaned(chunks[1..]));
        assert [first][1..] == [];
      }
    }
  }

  // lines[start..i] is the part read so far of the piece that starts at start, and chunks are those
  // before it.
  ghost predicate Reading(lines: seq<Line>, p: Line -> bool, start: nat, i: nat, chunks: seq<Chunk>)
  {
    && start <= i <= |lines| && (start == i ==> i == 0) && (forall k :: start < k < i ==> !p(lines[k]))
    && chunks + Pieces(lines, p, start) == Pieces(lines, p, 0)
  }

  lemma PieceStarts(lines: seq<Line>, p: Line -> bool, start: nat, i: nat, chunks: seq<Chunk>)
    requires Reading(lines, p, start, i, chunks) && start < i < |lines| && p(lines[i])
    ensures Reading(lines, p, i, i + 1, chunks + [lines[start..i]]) && lines[i..i + 1] == [lines[i]]
  {
    NextIs(lines, p, start + 1, i);
    var rest := Pieces(lines, p, i);
    assert chunks + ([lines[start..i]] + rest) == (chunks + [lines[start..i]]) + rest;
  }

  lemma PieceGrows(lines: seq<Line>, p: Line -> bool, start: nat, i: nat, chunks: seq<Chunk>)
    requires Reading(lines, p, start, i, chunks) && i < |lines| && (start < i ==> !p(lines[i]))
    ensures Reading(lines, p, start, i + 1, chunks) && lines[start..i + 1] == lines[start..i] + [lines[i]]
  {
  }

  lemma PiecesEnd(lines: seq<Line>, p: Line -> bool, start: nat, chunks: seq<Chunk>)
    requires Reading(lines, p, start, |lines|, chunks)
    ensures (if start < |lines| then chunks + [lines[start..|lines|]] else chunks) == Pieces(lines, p, 0)
  {
    if start < |lines| { NextIs(lines, p, start + 1, |lines|); }
    assert Pieces(lines, p, |lines|) == [] && chunks + [] == chunks;
  }

  // _split_on_predicate: the running chunk is closed when a line satisfies p.
  method SplitOnPredicate(lines: seq<Line>, p: Line -> bool) returns (cleaned: seq<Chunk>)
    ensures cleaned == Cleaned(Pieces(lines, p, 0))
  {
    var chunks: seq<Chunk>, current: Chunk := [], [];
    ghost var start := 0;
    for i := 0 to |lines|
      invariant Reading(lines, p, start, i, chunks) && current == lines[start..i]
    {
      if p(lines[i]) && current != [] {
        PieceStarts(lines, p, start, i, chunks);
        chunks, current := chunks + [current], [lines[i]];
        start := i;
      } else {
        PieceGrows(lines, p, start, i, chunks);
        current := current + [lines[i]];
      }
    }
    PiecesEnd(lines, p, start, chunks);
    if current != [] { chunks := chunks + [current]; }
    cleaned := CleanChunks(chunks);
  }

  method CleanChunks(chunks: seq<Chunk>) returns (cleaned: seq<Chunk>)
    ensures cleaned == Cleaned(chunks)
  {
    cleaned := [];
    var i := 0;
    while i < |chunks|
      invariant i <= |chunks| && cleaned + Cleaned(chunks[i..]) == Cleaned(chunks)
    {
      var chunk := Trim(chunks[i]);
      if chunk != [] { cleaned := cleaned + [chunk]; }
      i := i + 1;
    }
  }

  lemma {:induction false} NextIs(lines: seq<Line>, p: Line -> bool, i: nat, n: nat)
    requires i <= n <= |lines| && (n < |lines| ==> p(lines[n])) && forall k :: i <= k < n ==> !p(lines[k])
    ensures Next(lines, p, i) == n
    decreases n - i
  {
    if i < n { NextIs(lines, p, i + 1, n); }
  }

  // ----- The evidence filter -----

  function Shown(chunks: seq<Chunk>, ev: Chunk -> bool): (kept: seq<Chunk>)
  {
    if chunks == [] then [] else if ev(chunks[0]) then [chunks[0]] + Shown(chunks[1..], ev) else Shown(chunks[1..], ev)
  }

  lemma {:induction false} ShownAll(chunks: seq<Chunk>, ev: Chunk -> bool)
    ensures forall c :: c in Shown(chunks, ev) <==> c in chunks && ev(c)
    ensures |Shown(chunks, ev)| <= |chunks|
    ensures |Shown(chunks, ev)| == |chunks| <==> forall c :: c in chunks ==> ev(c)
  {
    if chunks != [] {
      ShownAll(chunks[1..], ev);
      assert forall c :: c in chunks <==> c == chunks[0] || c in chunks[1..];
    }
  }

  // ----- Dash separators -----

  // The chunks of lines[i..] between the separators.
  function Between(lines: seq<Line>, sep: Line -> bool, i: nat): (chunks: seq<Chunk>)
    requires i <= |lines|
    decreases |lines| - i
  {
    if i == |lines| then []
    else if sep(lines[i]) then Between(lines, sep, i + 1)
    else var n := Next(lines, sep, i + 1); [lines[i..n]] + Between(lines, sep, n)
  }

  function TrimEach(chunks: seq<Chunk>): (trimmed: seq<Chunk>)
  {
    seq(|chunks|, i requires 0 <= i < |chunks| => Trim(chunks[i]))
  }

  // A separator at i ends what has been read since start.
  lemma SeparatorEnds(lines: seq<Line>, sep: Line -> bool, start: nat, i: nat)
    requires start <= i < |lines| && sep(lines[i]) && forall k :: start <= k < i ==> !sep(lines[k])
    ensures Between(lines, sep, start)
         == (if start < i then [lines[start..i]] else []) + Between(lines, sep, i + 1)
  {
    if start < i { NextIs(lines, sep, start + 1, i); }
  }

  // The chunks before start, and those from there on, make all; so do the ones before i + 1.
  lemma AwayStep(lines: seq<Line>, sep: Line -> bool, start: nat, i: nat, raw: seq<Chunk>, all: seq<Chunk>)
    requires start <= i < |lines| && sep(lines[i]) && forall k :: start <= k < i ==> !sep(lines[k])
    requires raw + Between(lines, sep, start) == all
    ensures var raw' := if start < i then raw + [lines[start..i]] else raw;
            && raw' + Between(lines, sep, i + 1) == all
            && TrimEach(raw') == if start < i then TrimEach(raw) + [Trim(lines[start..i])] else TrimEach(raw)
  {
    if start < i { TrimOneMore(raw, lines[start..i]); }
    SeparatorEnds(lines, sep, start, i);
    var rest := Between(lines, sep, i + 1);
    if start < i { assert raw + ([lines[start..i]] + rest) == (raw + [lines[start..i]]) + rest; }
  }

  lemma LastBetween(lines: seq<Line>, sep: Line -> bool, start: nat)
    requires start <= |lines| && forall k :: start <= k < |lines| ==> !sep(lines[k])
    ensures Between(lines, sep, start) == if start < |lines| then [lines[start..]] else []
  {
    assert lines[start..|lines|] == lines[start..];
    if start < |lines| { NextIs(lines, sep, start + 1, |lines|); }
  }

  lemma TrimOneMore(chunks: seq<Chunk>, c: Chunk)
    ensures TrimEach(chunks + [c]) == TrimEach(chunks) + [Trim(c)]
  {
  }

  method SplitAway(lines: seq<Line>, sep: Line -> bool) returns (chunks: seq<Chunk>)
    ensures chunks == TrimEach(Between(lines, sep, 0))
  {
    var current: Chunk := [];
    ghost var raw: seq<Chunk>, start, all := [], 0, Between(lines, sep, 0);
    chunks := [];
    for i := 0 to |lines|
      invariant start <= i && current == lines[start..i] && forall k :: start <= k < i ==> !sep(lines[k])
      invariant raw + Between(lines, sep, start) == all && chunks == TrimEach(raw)
    {
      assert current == [] <==> start == i;
      if sep(lines[i]) {
        AwayStep(lines, sep, start, i, raw, all);
        if current != [] {
          raw, chunks := raw + [current], chunks + [Trim(current)];
          current := [];
        }
        start := i + 1;
      } else {
        assert lines[start..i + 1] == current + [lines[i]];
        current := current + [lines[i]];
      }
    }
    LastBetween(lines, sep, start);
    if current != [] {
      TrimOneMore(raw, current);
      chunks := chunks + [Trim(current)];
    }
  }

  method SplitDashSeparator(lines: seq<Line>, ev: Chunk -> bool) returns (accepted: seq<Chunk>)
    ensures accepted == if forall l :: l in lines ==> !IsDash(l) then []
                        else Shown(TrimEach(Between(lines, IsDash, 0)), ev)
  {
    var k := Next(lines, IsDash, 0);
    if k == |lines| { return []; }
    assert lines[k] in lines;
    var chunks := SplitAway(lines, IsDash);
    accepted := Shown(chunks, ev);
  }

  lemma {:induction false} BetweenConserves(lines: seq<Line>, sep: Line -> bool, kept: Line -> bool, i: nat)
    requires i <= |lines| && forall k :: 0 <= k < |lines| ==> (kept(lines[k]) <==> !sep(lines[k]))
    ensures Flatten(Between(lines, sep, i)) == Having(lines[i..], kept)
    decreases |lines| - i
  {
    if i < |lines| {
      var n := if sep(lines[i]) then i + 1 else Next(lines, sep, i + 1);
      BetweenConserves(lines, sep, kept, n);
      var piece, rest := lines[i..n], lines[n..];
      assert lines[i..] == piece + rest;
      HavingAppend(piece, rest, kept);
      if sep(lines[i]) { NoneHaving(piece, kept); } else { AllHaving(piece, kept); }
    }
  }

  lemma {:induction false} AllHaving(lines: seq<Line>, p: Line -> bool)
    requires forall l :: l in lines ==> p(l)
    ensures Having(lines, p) == lines
  {
    if lines != [] { AllHaving(lines[1..], p); }
  }

  lemma {:induction false} TrimEachConserves(chunks: seq<Chunk>)
    ensures NonBlank(Flatten(TrimEach(chunks))) == NonBlank(Flatten(chunks))
  {
    if chunks != [] {
      TrimEachConserves(chunks[1..]);
      assert TrimEach(chunks)[1..] == TrimEach(chunks[1..]);
      TrimKeepsLines(chunks[0]);
      NonBlankAppend(chunks[0], Flatten(chunks[1..]));
      NonBlankAppend(Trim(chunks[0]), Flatten(TrimEach(chunks[1..])));
    }
  }

  // Every line but the separators and the blanks is in exactly one chunk, in order.
  lemma DashConserves(lines: seq<Line>)
    ensures NonBlank(Flatten(TrimEach(Between(lines, IsDash, 0)))) == NonBlank(Having(lines, IsNotDash))
  {
    BetweenConserves(lines, IsDash, IsNotDash, 0);
    TrimEachConserves(Between(lines, IsDash, 0));
    assert lines[0..] == lines;
  }

  // ----- Numbered items -----

  predicate NumberedBoundary(l: Line) { IsNumbered(l) || IsExplicit(l) }

  function NumberedRaw(lines: seq<Line>): (chunks: seq<Chunk>)
  {
    Cleaned(Pieces(lines[Next(lines, IsNumbered, 0)..], NumberedBoundary, 0))
  }

  method SplitNumbered(lines: seq<Line>, ev: Chunk -> bool) returns (accepted: seq<Chunk>)
    ensures accepted == Shown(NumberedRaw(lines), ev)
  {
    var first := Next(lines, IsNumbered, 0);
    if first == |lines| { return []; }
    var chunks := SplitOnPredicate(lines[first..], NumberedBoundary);
    accepted := Shown(chunks, ev);
  }

  // Every line from the first number on is in exactly one chunk, in order.
  lemma NumberedConserves(lines: seq<Line>)
    ensures NonBlank(Flatten(NumberedRaw(lines))) == NonBlank(lines[Next(lines, IsNumbered, 0)..])
  {
    var body := lines[Next(lines, IsNumbered, 0)..];
    PiecesConserve(body, NumberedBoundary, 0);
    CleanedConserves(Pieces(body, NumberedBoundary, 0));
    assert body[0..] == body;
  }

  // Pieces that open with a text line are trimmed at their end only, and none is dropped.
  lemma {:induction false} CleanedPieces(chunks: seq<Chunk>, p: Line -> bool)
    requires AreaPieces(chunks, p, false) && !p(Blank)
    ensures Cleaned(chunks) == TrimEach(chunks) && AreaPieces(Cleaned(chunks), p, false)
  {
    if chunks != [] {
      CleanedPieces(chunks[1..], p);
      assert IsPiece(chunks[0], p, false);
      TrimOfText(chunks[0]);
      assert TrimEach(chunks) == [Trim(chunks[0])] + TrimEach(chunks[1..]);
    }
  }

  // The rule that accepts a numbered split by its number of boundaries does so exactly when no item
  // lacks evidence and no section header stands above the first number.
  lemma NumberedCountIff(lines: seq<Line>, ev: Chunk -> bool)
    ensures |Shown(NumberedRaw(lines), ev)| == |Having(lines, NumberedBoundary)|
        <==> (forall c :: c in NumberedRaw(lines) ==> ev(c))
             && (forall l :: l in lines[..Next(lines, IsNumbered, 0)] ==> !IsExplicit(l))
  {
    var first := Next(lines, IsNumbered, 0);
    var head, body := lines[..first], lines[first..];
    assert lines == head + body && body[0..] == body;
    HavingAppend(head, body, NumberedBoundary);
    PiecesArePieces(body, NumberedBoundary, 0);
    assert body != [] ==> IsNumbered(body[0]);
    CleanedPieces(Pieces(body, NumberedBoundary, 0), NumberedBoundary);
    CountPieces(body, NumberedBoundary, 0);
    ShownAll(NumberedRaw(lines), ev);
    HavingNone(head, NumberedBoundary);
    assert forall l :: l in head ==> !IsNumbered(l);
  }

  lemma {:induction false} HavingNone(lines: seq<Line>, p: Line -> bool)
    ensures Having(lines, p) == [] <==> forall l :: l in lines ==> !p(l)
  {
    if lines != [] { HavingNone(lines[1..], p); }
  }

  // How many lines satisfy p.
  function Count(lines: seq<Line>, p: Line -> bool): (n: nat) { |PlacesHaving(lines, p, |lines|)| }

  function PlacesHaving(lines: seq<Line>, p: Line -> bool, n: nat): (places: set<nat>)
    requires n <= |lines|
  {
    set i: nat | i < n && p(lines[i])
  }

  lemma {:induction false} HavingCounts(lines: seq<Line>, p: Line -> bool, n: nat)
    requires n <= |lines|
    ensures |Having(lines[..n], p)| == |PlacesHaving(lines, p, n)|
  {
    if n == 0 {
      assert PlacesHaving(lines, p, n) == {};
    } else {
      HavingCounts(lines, p, n - 1);
      assert lines[..n] == lines[..n - 1] + [lines[n - 1]];
      HavingAppend(lines[..n - 1], [lines[n - 1]], p);
      HavingOne(lines[n - 1], p);
      assert PlacesHaving(lines, p, n) == PlacesHaving(lines, p, n - 1) + (if p(lines[n - 1]) then {n - 1} else {});
    }
  }

  lemma HavingOne(l: Line, p: Line -> bool)
    ensures |Having([l], p)| == if p(l) then 1 else 0
  {
    assert [l][1..] == [];
  }

  // ----- The chunks told from the places of the lines -----

  // c is lines[a..b] without the blank lines at its ends.
  predicate TrimmedTo(lines: seq<Line>, a: nat, b: nat, c: Chunk, x: nat, y: nat)
  {
    && a <= x <= y <= b <= |lines| && c == lines[x..y]
    && (forall k :: a <= k < x ==> lines[k].Blank?) && (forall k :: y <= k < b ==> lines[k].Blank?)
    && (c != [] ==> c[0].Text? && c[|c| - 1].Text?)
  }

  ghost predicate Trimmed(lines: seq<Line>, a: nat, b: nat, c: Chunk)
  {
    exists x: nat, y: nat :: TrimmedTo(lines, a, b, c, x, y)
  }

  lemma TrimIsTrimmed(lines: seq<Line>, a: nat, b: nat)
    requires a <= b <= |lines|
    ensures Trimmed(lines, a, b, Trim(lines[a..b]))
  {
    var c := lines[a..b];
    var lo := Lower(c, 0);
    var hi := Upper(c, lo, |c|);
    LowerIs(c, 0);
    UpperIs(c, lo, |c|);
    assert forall k :: a <= k < b ==> lines[k] == c[k - a];
    assert c[lo..hi] == lines[a + lo..a + hi];
    assert TrimmedTo(lines, a, b, c[lo..hi], a + lo, a + hi);
  }

  lemma TrimmedEmptyIff(lines: seq<Line>, a: nat, b: nat, c: Chunk, x: nat, y: nat)
    requires TrimmedTo(lines, a, b, c, x, y)
    ensures c == [] <==> forall k :: a <= k < b ==> lines[k].Blank?
  {
    if c != [] { assert lines[x].Text?; }
  }

  lemma TrimmedIsOne(lines: seq<Line>, a: nat, b: nat, c: Chunk, d: Chunk)
    requires Trimmed(lines, a, b, c) && Trimmed(lines, a, b, d)
    ensures c == d
  {
    var x: nat, y: nat :| TrimmedTo(lines, a, b, c, x, y);
    var u: nat, v: nat :| TrimmedTo(lines, a, b, d, u, v);
    TrimmedEmptyIff(lines, a, b, c, x, y);
    TrimmedEmptyIff(lines, a, b, d, u, v);
    if c != [] && d != [] { TrimmedEnds(lines, a, b, c, d, x, y, u, v); }
  }

  lemma TrimmedEnds(lines: seq<Line>, a: nat, b: nat, c: Chunk, d: Chunk, x: nat, y: nat, u: nat, v: nat)
    requires TrimmedTo(lines, a, b, c, x, y) && TrimmedTo(lines, a, b, d, u, v) && c != [] && d != []
    ensures x == u && y == v
  {
    assert lines[x].Text? && lines[y - 1].Text? && lines[u].Text? && lines[v - 1].Text?;
  }

  type Span = (nat, nat)

  // A longest run of lines without a separator.
  predicate RunAt(lines: seq<Line>, sep: Line -> bool, s: Span)
  {
    && s.0 < s.1 <= |lines| && (forall k :: s.0 <= k < s.1 ==> !sep(lines[k]))
    && (s.0 == 0 || sep(lines[s.0 - 1])) && (s.1 == |lines| || sep(lines[s.1]))
  }

  // Lines from a marker, or from the first line, up to the next marker.
  predicate PieceAt(lines: seq<Line>, p: Line -> bool, first: nat, s: Span)
  {
    && first <= s.0 < s.1 <= |lines| && (s.0 == first || p(lines[s.0]))
    && (forall k :: s.0 < k < s.1 ==> !p(lines[k])) && (s.1 == |lines| || p(lines[s.1]))
  }

  predicate InOrder(spans: seq<Span>)
  {
    forall j, k :: 0 <= j < k < |spans| ==> spans[j].1 <= spans[k].0
  }

  // The chunks are these spans of the lines.
  predicate Cut(lines: seq<Line>, spans: seq<Span>, chunks: seq<Chunk>)
  {
    && |spans| == |chunks| && InOrder(spans)
    && forall k :: 0 <= k < |spans| ==> spans[k].0 < spans[k].1 <= |lines| && chunks[k] == lines[spans[k].0..spans[k].1]
  }

  lemma CutMore(lines: seq<Line>, s: Span, spans: seq<Span>, chunks: seq<Chunk>)
    requires Cut(lines, spans, chunks) && s.0 < s.1 <= |lines| && forall t :: t in spans ==> s.1 <= t.0
    ensures Cut(lines, [s] + spans, [lines[s.0..s.1]] + chunks)
  {
    assert forall k :: 0 <= k < |spans| ==> spans[k] in spans;
  }

  lemma {:induction false} BetweenRuns(lines: seq<Line>, sep: Line -> bool, i: nat) returns (spans: seq<Span>)
    requires i <= |lines| && (i == 0 || i == |lines| || sep(lines[i - 1]) || sep(lines[i]))
    ensures Cut(lines, spans, Between(lines, sep, i))
    ensures forall s: Span :: s in spans <==> RunAt(lines, sep, s) && s.0 >= i
    decreases |lines| - i
  {
    if i == |lines| {
      spans := [];
    } else if sep(lines[i]) {
      spans := BetweenRuns(lines, sep, i + 1);
      forall s: Span | RunAt(lines, sep, s) ensures s.0 != i { assert !sep(lines[s.0]); }
    } else {
      var n := Next(lines, sep, i + 1);
      var rest := BetweenRuns(lines, sep, n);
      spans := [(i, n)] + rest;
      OneMoreRun(lines, sep, i, n, rest, Between(lines, sep, n));
    }
  }

  lemma FirstRun(lines: seq<Line>, sep: Line -> bool, i: nat, n: nat, s: Span)
    requires i < n <= |lines| && (n < |lines| ==> sep(lines[n])) && forall k :: i <= k < n ==> !sep(lines[k])
    requires RunAt(lines, sep, s) && s.0 >= i
    ensures s == (i, n) || s.0 >= n
  {
    assert i < s.0 <= n ==> 0 <= s.0 - 1 < |lines|;
  }

  lemma OneMoreRun(lines: seq<Line>, sep: Line -> bool, i: nat, n: nat, rest: seq<Span>, chunks: seq<Chunk>)
    requires i < n <= |lines| && (n < |lines| ==> sep(lines[n])) && forall k :: i <= k < n ==> !sep(lines[k])
    requires i == 0 || sep(lines[i - 1])
    requires Cut(lines, rest, chunks) && forall s: Span :: s in rest <==> RunAt(lines, sep, s) && s.0 >= n
    ensures Cut(lines, [(i, n)] + rest, [lines[i..n]] + chunks)
    ensures forall s: Span :: s in [(i, n)] + rest <==> RunAt(lines, sep, s) && s.0 >= i
  {
    CutMore(lines, (i, n), rest, chunks);
    forall s: Span ensures s in [(i, n)] + rest <==> RunAt(lines, sep, s) && s.0 >= i {
      if RunAt(lines, sep, s) && s.0 >= i { FirstRun(lines, sep, i, n, s); }
    }
  }

  lemma {:induction false} PieceSpans(lines: seq<Line>, p: Line -> bool, first: nat, i: nat) returns (spans: seq<Span>)
    requires first <= i <= |lines| && (i == first || i == |lines| || p(lines[i]))
    ensures Cut(lines, spans, Pieces(lines, p, i))
    ensures forall s: Span :: s in spans <==> PieceAt(lines, p, first, s) && s.0 >= i
    decreases |lines| - i
  {
    if i == |lines| {
      spans := [];
    } else {
      var n := Next(lines, p, i + 1);
      var rest := PieceSpans(lines, p, first, n);
      spans := [(i, n)] + rest;
      OneMorePiece(lines, p, first, i, n, rest, Pieces(lines, p, n));
    }
  }

  lemma OneMorePiece(lines: seq<Line>, p: Line -> bool, first: nat, i: nat, n: nat, rest: seq<Span>, chunks: seq<Chunk>)
    requires first <= i < n <= |lines| && (n < |lines| ==> p(lines[n])) && forall k :: i < k < n ==> !p(lines[k])
    requires i == first || p(lines[i])
    requires Cut(lines, rest, chunks) && forall s: Span :: s in rest <==> PieceAt(lines, p, first, s) && s.0 >= n
    ensures Cut(lines, [(i, n)] + rest, [lines[i..n]] + chunks)
    ensures forall s: Span :: s in [(i, n)] + rest <==> PieceAt(lines, p, first, s) && s.0 >= i
  {
    CutMore(lines, (i, n), rest, chunks);
    forall s: Span ensures s in [(i, n)] + rest <==> PieceAt(lines, p, first, s) && s.0 >= i {
      if PieceAt(lines, p, first, s) && s.0 >= i { FirstPiece(lines, p, first, i, n, s); }
    }
  }

  lemma FirstPiece(lines: seq<Line>, p: Line -> bool, first: nat, i: nat, n: nat, s: Span)
    requires first <= i < n <= |lines| && (n < |lines| ==> p(lines[n])) && forall k :: i < k < n ==> !p(lines[k])
    requires PieceAt(lines, p, first, s) && s.0 >= i
    ensures s == (i, n) || s.0 >= n
  {
  }

  // What stands there, trimmed, shows evidence.
  ghost predicate ShowsAt(lines: seq<Line>, s: Span, ev: Chunk -> bool)
  {
    exists c :: Trimmed(lines, s.0, s.1, c) && ev(c)
  }

  // The chunks are these spans of the lines, trimmed.
  ghost predicate Answered(lines: seq<Line>, spans: seq<Span>, chunks: seq<Chunk>)
  {
    && |spans| == |chunks| && InOrder(spans)
    && forall k :: 0 <= k < |spans| ==> Trimmed(lines, spans[k].0, spans[k].1, chunks[k])
  }

  lemma ShowsIff(lines: seq<Line>, s: Span, ev: Chunk -> bool)
    requires s.0 <= s.1 <= |lines|
    ensures ShowsAt(lines, s, ev) <==> ev(Trim(lines[s.0..s.1]))
  {
    TrimIsTrimmed(lines, s.0, s.1);
    if ShowsAt(lines, s, ev) {
      var c :| Trimmed(lines, s.0, s.1, c) && ev(c);
      TrimmedIsOne(lines, s.0, s.1, c, Trim(lines[s.0..s.1]));
    }
  }

  lemma AnsweredMore(lines: seq<Line>, s: Span, spans: seq<Span>, chunks: seq<Chunk>)
    requires Answered(lines, spans, chunks) && s.0 <= s.1 <= |lines| && forall t :: t in spans ==> s.1 <= t.0
    ensures Answered(lines, [s] + spans, [Trim(lines[s.0..s.1])] + chunks)
  {
    TrimIsTrimmed(lines, s.0, s.1);
    OrderMore(s, spans);
    var all, cs := [s] + spans, [Trim(lines[s.0..s.1])] + chunks;
    forall k | 0 <= k < |all| ensures Trimmed(lines, all[k].0, all[k].1, cs[k]) {
      if k > 0 { assert all[k] == spans[k - 1] && cs[k] == chunks[k - 1]; }
    }
  }

  lemma OrderMore(s: Span, spans: seq<Span>)
    requires InOrder(spans) && forall t :: t in spans ==> s.1 <= t.0
    ensures InOrder([s] + spans)
  {
    assert forall k :: 0 <= k < |spans| ==> spans[k] in spans;
  }

  lemma CutTail(lines: seq<Line>, spans: seq<Span>, chunks: seq<Chunk>)
    requires Cut(lines, spans, chunks) && chunks != []
    ensures spans != [] && Cut(lines, spans[1..], chunks[1..]) && chunks[0] == lines[spans[0].0..spans[0].1]
    ensures spans[0].0 < spans[0].1 <= |lines| && forall t :: t in spans[1..] ==> spans[0].1 <= t.0
  {
  }

  // The filter keeps the spans that show evidence, in order.
  lemma {:induction false} KeptSpans(lines: seq<Line>, spans: seq<Span>, raw: seq<Chunk>, ev: Chunk -> bool)
    returns (kept: seq<Span>)
    requires Cut(lines, spans, raw)
    ensures Answered(lines, kept, Shown(TrimEach(raw), ev))
    ensures forall s :: s in kept <==> s in spans && ShowsAt(lines, s, ev)
    decreases |raw|
  {
    if raw == [] {
      kept := [];
    } else {
      CutTail(lines, spans, raw);
      kept := KeptSpans(lines, spans[1..], raw[1..], ev);
      ShowsIff(lines, spans[0], ev);
      assert TrimEach(raw)[1..] == TrimEach(raw[1..]);
      if ev(Trim(raw[0])) {
        AnsweredMore(lines, spans[0], kept, Shown(TrimEach(raw[1..]), ev));
        kept := [spans[0]] + kept;
      }
    }
  }

  // A dash split: of the longest runs of lines between separators those that show evidence, trimmed, in
  // order.
  lemma DashSplits(lines: seq<Line>, ev: Chunk -> bool) returns (spans: seq<Span>)
    ensures Answered(lines, spans, Shown(TrimEach(Between(lines, IsDash, 0)), ev))
    ensures forall s: Span :: s in spans <==> RunAt(lines, IsDash, s) && ShowsAt(lines, s, ev)
  {
    var runs := BetweenRuns(lines, IsDash, 0);
    spans := KeptSpans(lines, runs, Between(lines, IsDash, 0), ev);
  }

  // Blank chunks are dropped before the filter.
  function Filled(ev: Chunk -> bool): (f: Chunk -> bool) { c => c != [] && ev(c) }

  lemma {:induction false} CleanedShown(raw: seq<Chunk>, ev: Chunk -> bool)
    ensures Shown(Cleaned(raw), ev) == Shown(TrimEach(raw), Filled(ev))
  {
    if raw != [] {
      CleanedShown(raw[1..], ev);
      assert TrimEach(raw)[1..] == TrimEach(raw[1..]);
      assert Trim(raw[0]) != [] ==> ([Trim(raw[0])] + Cleaned(raw[1..]))[1..] == Cleaned(raw[1..]);
    }
  }

  lemma {:induction false} ShiftedPieces(lines: seq<Line>, p: Line -> bool, first: nat, i: nat)
    requires first + i <= |lines|
    ensures Pieces(lines[first..], p, i) == Pieces(lines, p, first + i)
    decreases |lines| - i
  {
    var body := lines[first..];
    if i < |body| {
      var n := Next(body, p, i + 1);
      NextIs(lines, p, first + i + 1, first + n);
      assert body[i..n] == lines[first + i..first + n];
      ShiftedPieces(lines, p, first, n);
    }
  }

  // The pieces of the lines from first on, cleaned and filtered: those that hold text and show evidence.
  lemma PiecesKept(lines: seq<Line>, p: Line -> bool, first: nat, ev: Chunk -> bool) returns (spans: seq<Span>)
    requires first <= |lines|
    ensures Answered(lines, spans, Shown(Cleaned(Pieces(lines[first..], p, 0)), ev))
    ensures forall s: Span :: s in spans <==> PieceAt(lines, p, first, s) && ShowsAt(lines, s, Filled(ev))
  {
    var raw := Pieces(lines, p, first);
    ShiftedPieces(lines, p, first, 0);
    CleanedShown(raw, ev);
    var pieces := PieceSpans(lines, p, first, first);
    spans := KeptSpans(lines, pieces, raw, Filled(ev));
  }

  // A numbered split: the pieces from the first number on, each up to the next number or section header,
  // that hold text and show evidence, trimmed, in order.
  lemma NumberedSplits(lines: seq<Line>, ev: Chunk -> bool) returns (first: nat, spans: seq<Span>)
    ensures first <= |lines| && (first < |lines| ==> lines[first].Text? && lines[first].numbered)
    ensures forall k :: 0 <= k < first ==> !(lines[k].Text? && lines[k].numbered)
    ensures Answered(lines, spans, Shown(NumberedRaw(lines), ev))
    ensures forall s: Span :: s in spans <==>
              PieceAt(lines, NumberedBoundary, first, s) && ShowsAt(lines, s, Filled(ev))
  {
    first := Next(lines, IsNumbered, 0);
    spans := PiecesKept(lines, NumberedBoundary, first, ev);
  }
}
