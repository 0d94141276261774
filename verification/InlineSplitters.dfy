// The two splitters of broadcasts without line breaks: compact inventories, and bold listing names
// inside running text. The regexes answer with positions; a text search is a function of the text.
module InlineSplitters {
  import opened Options
  import opened JsonSalvage

  // ----- Slices between given starts -----

  predicate Rising(starts: seq<nat>, n: nat)
  {
    (forall i :: 0 <= i < |starts| ==> starts[i] < n) && forall i, j :: 0 <= i < j < |starts| ==> starts[i] < starts[j]
  }

  function SliceEnd(value: string, starts: seq<nat>, i: nat): (end: nat)
  {
    if i < |starts| then starts[i] else |value|
  }

  // Each slice runs from its start to the next one.
  function Slices(value: string, starts: seq<nat>, i: nat): (slices: seq<string>)
    requires Rising(starts, |value|) && i <= |starts|
    ensures |slices| == |starts| - i
    decreases |starts| - i
  {
    if i == |starts| then [] else [value[starts[i]..SliceEnd(value, starts, i + 1)]] + Slices(value, starts, i + 1)
  }

  // ----- s.strip(marks) -----

  function FirstKept(s: string, mark: char -> bool, i: nat): (j: nat)
    requires i <= |s|
    ensures i <= j <= |s|
    decreases |s| - i
  {
    if i < |s| && mark(s[i]) then FirstKept(s, mark, i + 1) else i
  }

  function LastKept(s: string, mark: char -> bool, lo: nat, j: nat): (hi: nat)
    requires lo <= j <= |s|
    ensures lo <= hi <= j
    decreases j
  {
    if j > lo && mark(s[j - 1]) then LastKept(s, mark, lo, j - 1) else j
  }

  function StripOf(s: string, mark: char -> bool): (r: string)
  {
    var lo := FirstKept(s, mark, 0);
    s[lo..LastKept(s, mark, lo, |s|)]
  }

  lemma {:induction false} FirstKeptIs(s: string, mark: char -> bool, i: nat)
    requires i <= |s|
    ensures var j := FirstKept(s, mark, i); (forall k :: i <= k < j ==> mark(s[k])) && (j < |s| ==> !mark(s[j]))
    decreases |s| - i
  {
    if i < |s| && mark(s[i]) { FirstKeptIs(s, mark, i + 1); }
  }

  lemma {:induction false} LastKeptIs(s: string, mark: char -> bool, lo: nat, j: nat)
    requires lo <= j <= |s|
    ensures var hi := LastKept(s, mark, lo, j);
            (forall k :: hi <= k < j ==> mark(s[k])) && (hi > lo ==> !mark(s[hi - 1]))
    decreases j
  {
    if j > lo && mark(s[j - 1]) { LastKeptIs(s, mark, lo, j - 1); }
  }

  // chunk is value[a..b], with nothing but marks around it in value[lo..hi] and none at its own ends.
  predicate StretchAt(value: string, lo: nat, hi: nat, chunk: string, mark: char -> bool, a: nat, b: nat)
  {
    && lo <= a <= b <= hi <= |value| && chunk == value[a..b]
    && (forall k :: lo <= k < a ==> mark(value[k])) && (forall k :: b <= k < hi ==> mark(value[k]))
    && (chunk != [] ==> !mark(chunk[0]) && !mark(chunk[|chunk| - 1]))
  }

  ghost predicate Stretch(value: string, lo: nat, hi: nat, chunk: string, mark: char -> bool)
  {
    exists a: nat, b: nat :: StretchAt(value, lo, hi, chunk, mark, a, b)
  }

  lemma StripIsStretch(value: string, lo: nat, hi: nat, mark: char -> bool)
    requires lo <= hi <= |value|
    ensures Stretch(value, lo, hi, StripOf(value[lo..hi], mark), mark)
  {
    var s := value[lo..hi];
    var a := FirstKept(s, mark, 0);
    var b := LastKept(s, mark, a, |s|);
    FirstKeptIs(s, mark, 0);
    LastKeptIs(s, mark, a, |s|);
    assert forall k :: lo <= k < hi ==> value[k] == s[k - lo];
    assert s[a..b] == value[lo + a..lo + b];
    assert StretchAt(value, lo, hi, s[a..b], mark, lo + a, lo + b);
  }

  function StripEach(parts: seq<string>, mark: char -> bool): (r: seq<string>)
    ensures |r| == |parts|
  {
    seq(|parts|, i requires 0 <= i < |parts| => StripOf(parts[i], mark))
  }

  // Every stripped slice is a stretch of the text from its start to the next.
  lemma SlicesAreStretches(value: string, starts: seq<nat>, mark: char -> bool, k: nat)
    requires Rising(starts, |value|) && k < |starts|
    ensures Stretch(value, starts[k], SliceEnd(value, starts, k + 1), StripEach(Slices(value, starts, 0), mark)[k],
                    mark)
  {
    SliceAt(value, starts, 0, k);
    assert Slices(value, starts, 0)[k] == value[starts[k]..SliceEnd(value, starts, k + 1)];
    StripIsStretch(value, starts[k], SliceEnd(value, starts, k + 1), mark);
  }

  // ----- Run-on inventories -----

  predicate RunOnMark(c: char)
  {
    c == ' ' || c == '-' || c == '\U{2013}' || c == '\U{2014}' || c == ',' || c == ';' || c == ':' || c == '|'
  }

  // value is the compacted text, starts are the matches of the listing start in it.
  function RunOnChunks(text: string, value: string, starts: seq<nat>, price: string -> bool): (chunks: seq<string>)
    requires Rising(starts, |value|)
  {
    var chunks := StripEach(Slices(value, starts, 0), RunOnMark);
    if '\n' in text || |starts| < 2 || exists c :: c in chunks && (c == [] || !price(c)) then [] else chunks
  }

  lemma {:induction false} SliceAt(value: string, starts: seq<nat>, i: nat, k: nat)
    requires Rising(starts, |value|) && i <= k < |starts|
    ensures Slices(value, starts, i)[k - i] == value[starts[k]..SliceEnd(value, starts, k + 1)]
    decreases |starts| - i
  {
    if i < k { SliceAt(value, starts, i + 1, k); }
  }

  // The first k stripped slices.
  function RunOnTo(value: string, starts: seq<nat>, k: nat): (chunks: seq<string>)
    requires Rising(starts, |value|) && k <= |starts|
    ensures |chunks| == k
  {
    StripEach(Slices(value, starts, 0), RunOnMark)[..k]
  }

  lemma RunOnNext(value: string, starts: seq<nat>, k: nat)
    requires Rising(starts, |value|) && k < |starts|
    ensures var chunk := StripOf(value[starts[k]..SliceEnd(value, starts, k + 1)], RunOnMark);
            && RunOnTo(value, starts, k + 1) == RunOnTo(value, starts, k) + [chunk]
            && chunk in StripEach(Slices(value, starts, 0), RunOnMark)
  {
    SliceAt(value, starts, 0, k);
    var all := StripEach(Slices(value, starts, 0), RunOnMark);
    assert all[k] == StripOf(Slices(value, starts, 0)[k], RunOnMark);
    assert all[..k + 1] == all[..k] + [all[k]];
  }

  method SplitRunOn(text: string, value: string, starts: seq<nat>, price: string -> bool) returns (chunks: seq<string>)
    requires Rising(starts, |value|)
    ensures chunks == RunOnChunks(text, value, starts, price)
  {
    chunks := [];
    if '\n' in text || |starts| < 2 { return; }
    var k := 0;
    while k < |starts|
      invariant k <= |starts| && chunks == RunOnTo(value, starts, k)
      invariant forall c :: c in chunks ==> c != [] && price(c)
    {
      RunOnNext(value, starts, k);
      var chunk := StripOf(value[starts[k]..SliceEnd(value, starts, k + 1)], RunOnMark);
      if chunk == [] || !price(chunk) { return []; }
      chunks := chunks + [chunk];
      k := k + 1;
    }
    assert chunks == StripEach(Slices(value, starts, 0), RunOnMark);
  }

  // A run-on split gives every start its own priced chunk: the text from there to the next start, but
  // for the separators around it.
  lemma RunOnConserves(text: string, value: string, starts: seq<nat>, price: string -> bool)
    requires Rising(starts, |value|) && RunOnChunks(text, value, starts, price) != []
    ensures var chunks := RunOnChunks(text, value, starts, price);
            && |chunks| == |starts| >= 2
            && (forall c :: c in chunks ==> price(c))
            && forall k: nat :: k < |starts| ==>
                 Stretch(value, starts[k], SliceEnd(value, starts, k + 1), chunks[k], RunOnMark)
  {
    forall k: nat | k < |starts|
      ensures Stretch(value, starts[k], SliceEnd(value, starts, k + 1),
                      RunOnChunks(text, value, starts, price)[k], RunOnMark)
    {
      SlicesAreStretches(value, starts, RunOnMark, k);
    }
  }

  // The characters that a run-on chunk is stripped of.
  predicate Separator(c: char) { c in " -\U{2013}\U{2014},;:|" }

  lemma MarkIsSeparator(c: char)
    ensures RunOnMark(c) <==> Separator(c)
  {
  }

  lemma SameMarks(value: string, lo: nat, hi: nat, chunk: string, a: nat, b: nat)
    ensures StretchAt(value, lo, hi, chunk, RunOnMark, a, b) <==> StretchAt(value, lo, hi, chunk, Separator, a, b)
  {
    forall c: char ensures RunOnMark(c) <==> Separator(c) { MarkIsSeparator(c); }
  }

  // What is left of a piece of text without the marks around it, if anything.
  lemma StretchIsOne(value: string, lo: nat, hi: nat, c: string, d: string, mark: char -> bool)
    requires Stretch(value, lo, hi, c, mark) && Stretch(value, lo, hi, d, mark)
    ensures c == d
  {
    var a: nat, b: nat :| StretchAt(value, lo, hi, c, mark, a, b);
    var x: nat, y: nat :| StretchAt(value, lo, hi, d, mark, x, y);
    EmptyIff(value, lo, hi, c, mark, a, b);
    EmptyIff(value, lo, hi, d, mark, x, y);
    if c != [] && d != [] { assert !mark(value[a]) && !mark(value[b - 1]) && !mark(value[x]) && !mark(value[y - 1]); }
  }

  lemma EmptyIff(value: string, lo: nat, hi: nat, c: string, mark: char -> bool, a: nat, b: nat)
    requires StretchAt(value, lo, hi, c, mark, a, b)
    ensures c == [] <==> forall k :: lo <= k < hi ==> mark(value[k])
  {
    if c != [] { assert !mark(value[a]); }
  }

  // From lo to hi stands text with a price, once the separators around it are taken off.
  ghost predicate Priced(value: string, lo: nat, hi: nat, price: string -> bool)
  {
    exists c: string, a: nat, b: nat :: StretchAt(value, lo, hi, c, Separator, a, b) && c != [] && price(c)
  }

  lemma PricedIff(value: string, lo: nat, hi: nat, price: string -> bool)
    requires lo <= hi <= |value|
    ensures Priced(value, lo, hi, price) <==>
            StripOf(value[lo..hi], RunOnMark) != [] && price(StripOf(value[lo..hi], RunOnMark))
  {
    var chunk := StripOf(value[lo..hi], RunOnMark);
    StripIsStretch(value, lo, hi, RunOnMark);
    var x: nat, y: nat :| StretchAt(value, lo, hi, chunk, RunOnMark, x, y);
    SameMarks(value, lo, hi, chunk, x, y);
    if Priced(value, lo, hi, price) {
      var c: string, a: nat, b: nat :| StretchAt(value, lo, hi, c, Separator, a, b) && c != [] && price(c);
      SameMarks(value, lo, hi, c, a, b);
      StretchIsOne(value, lo, hi, c, chunk, RunOnMark);
    }
  }

  // A run-on inventory is split exactly when it is one line with two starts or more, and text with a price
  // stands between each start and the next and behind the last.
  lemma RunOnSplitsIff(text: string, value: string, starts: seq<nat>, price: string -> bool)
    requires Rising(starts, |value|)
    ensures RunOnChunks(text, value, starts, price) != [] <==>
            && '\n' !in text && |starts| >= 2
            && forall k: nat :: k < |starts| ==>
                 Priced(value, starts[k], if k + 1 < |starts| then starts[k + 1] else |value|, price)
  {
    var all := StripEach(Slices(value, starts, 0), RunOnMark);
    forall k: nat | k < |starts|
      ensures Priced(value, starts[k], SliceEnd(value, starts, k + 1), price) <==> all[k] != [] && price(all[k])
    {
      SliceAt(value, starts, 0, k);
      PricedIff(value, starts[k], SliceEnd(value, starts, k + 1), price);
    }
    KeptIff(text, value, starts, all, price);
  }

  lemma KeptIff(text: string, value: string, starts: seq<nat>, all: seq<string>, price: string -> bool)
    requires Rising(starts, |value|) && all == StripEach(Slices(value, starts, 0), RunOnMark)
    ensures RunOnChunks(text, value, starts, price) != [] <==>
            '\n' !in text && |starts| >= 2 && forall k: nat :: k < |starts| ==> all[k] != [] && price(all[k])
  {
    NoneRefused(all, price);
  }

  lemma NoneRefused(all: seq<string>, price: string -> bool)
    ensures (exists c :: c in all && (c == [] || !price(c))) <==>
            !(forall k: nat :: k < |all| ==> all[k] != [] && price(all[k]))
  {
    if k: nat :| k < |all| && !(all[k] != [] && price(all[k])) { assert all[k] in all; }
  }

  // ----- Inline bold names -----

  // A bold span: its place, whether its label names a configuration, whether it is decoration, and
  // the number of its words.
  datatype Bold = Bold(start: nat, end: nat, config: bool, decorative: bool, words: nat)

  // Matches come in order and do not overlap.
  predicate Spans(value: string, bolds: seq<Bold>)
  {
    && (forall i :: 0 <= i < |bolds| ==> bolds[i].start < bolds[i].end <= |value|)
    && (forall i, j :: 0 <= i < j < |bolds| ==> bolds[i].end <= bolds[j].start)
  }

  predicate IsName(b: Bold) { (b.config || !b.decorative) && b.words <= 6 }

  function Names(bolds: seq<Bold>): (names: seq<Bold>)
  {
    if bolds == [] then [] else if IsName(bolds[0]) then [bolds[0]] + Names(bolds[1..]) else Names(bolds[1..])
  }

  // A name right after a configuration, with no price between them, belongs to that listing.
  predicate Belongs(value: string, previous: Bold, b: Bold, price: string -> bool)
    requires previous.end <= b.start <= |value|
  {
    previous.config && !price(value[previous.end..b.start])
  }

  // The first n names that open a listing.
  function BoundsTo(value: string, names: seq<Bold>, n: nat, price: string -> bool): (bounds: seq<Bold>)
    requires Spans(value, names) && n <= |names|
    ensures n > 0 ==> bounds != [] && bounds[0] == names[0] && bounds[|bounds| - 1].end <= names[n - 1].end
    ensures n == 0 ==> bounds == []
  {
    if n == 0 then [] else
    var before := BoundsTo(value, names, n - 1, price);
    if before != [] && Belongs(value, before[|before| - 1], names[n - 1], price) then before
    else before + [names[n - 1]]
  }

  function Boundaries(value: string, names: seq<Bold>, price: string -> bool): (bounds: seq<Bold>)
    requires Spans(value, names)
    ensures names != [] ==> bounds != [] && bounds[0] == names[0]
  {
    BoundsTo(value, names, |names|, price)
  }

  function StartsOf(bounds: seq<Bold>): (starts: seq<nat>)
    ensures |starts| == |bounds|
  {
    seq(|bounds|, i requires 0 <= i < |bounds| => bounds[i].start)
  }

  lemma {:induction false} NamesAre(bolds: seq<Bold>)
    ensures forall b :: b in Names(bolds) <==> b in bolds && IsName(b)
  {
    if bolds != [] {
      NamesAre(bolds[1..]);
      assert forall b :: b in bolds <==> b == bolds[0] || b in bolds[1..];
    }
  }

  lemma FirstSpan(value: string, first: Bold, rest: seq<Bold>)
    requires Spans(value, rest) && first.start < first.end <= |value| && forall b :: b in rest ==> first.end <= b.start
    ensures Spans(value, [first] + rest)
  {
    var all := [first] + rest;
    assert forall k :: 0 < k < |all| ==> all[k] == rest[k - 1] && all[k] in rest;
  }

  lemma {:induction false} NamesAreSpans(value: string, bolds: seq<Bold>)
    requires Spans(value, bolds)
    ensures Spans(value, Names(bolds))
  {
    if bolds != [] {
      NamesAreSpans(value, bolds[1..]);
      NamesAre(bolds[1..]);
      FirstSpan(value, bolds[0], Names(bolds[1..]));
    }
  }

  // Two boundaries in a row are not of one listing.
  predicate Apart(value: string, bounds: seq<Bold>, price: string -> bool)
    requires Spans(value, bounds)
  {
    forall i, j :: 0 <= i < j == i + 1 < |bounds| ==> !Belongs(value, bounds[i], bounds[j], price)
  }

  predicate BelongsToOne(value: string, bounds: seq<Bold>, b: Bold, price: string -> bool)
  {
    exists a :: a in bounds && a.end <= b.start <= |value| && Belongs(value, a, b, price)
  }

  lemma LastSpan(value: string, bounds: seq<Bold>, last: Bold)
    requires Spans(value, bounds) && last.start < last.end <= |value|
    requires bounds != [] ==> bounds[|bounds| - 1].end <= last.start
    ensures Spans(value, bounds + [last])
  {
    assert forall i :: 0 <= i < |bounds| - 1 ==> bounds[i].end <= bounds[|bounds| - 1].start;
  }

  lemma LastIsApart(value: string, bounds: seq<Bold>, last: Bold, price: string -> bool)
    requires Spans(value, bounds + [last]) && Spans(value, bounds) && Apart(value, bounds, price) &&
             last.start <= |value|
    requires bounds != [] ==>
               bounds[|bounds| - 1].end <= last.start && !Belongs(value, bounds[|bounds| - 1], last, price)
    ensures Apart(value, bounds + [last], price)
  {
  }

  predicate Covered(value: string, bounds: seq<Bold>, b: Bold, price: string -> bool)
  {
    b in bounds || BelongsToOne(value, bounds, b, price)
  }

  lemma BoundIsApart(value: string, bounds: seq<Bold>, last: Bold, price: string -> bool)
    requires Spans(value, bounds) && Apart(value, bounds, price) && last.start < last.end <= |value|
    requires bounds != [] ==>
               bounds[|bounds| - 1].end <= last.start && !Belongs(value, bounds[|bounds| - 1], last, price)
    ensures Spans(value, bounds + [last]) && Apart(value, bounds + [last], price)
  {
    LastSpan(value, bounds, last);
    LastIsApart(value, bounds, last, price);
  }

  lemma {:induction false} BoundsToAreApart(value: string, names: seq<Bold>, n: nat, price: string -> bool)
    requires Spans(value, names) && n <= |names|
    ensures Spans(value, BoundsTo(value, names, n, price)) && Apart(value, BoundsTo(value, names, n, price), price)
  {
    if n > 0 {
      BoundsToAreApart(value, names, n - 1, price);
      var before := BoundsTo(value, names, n - 1, price);
      if before == [] || !Belongs(value, before[|before| - 1], names[n - 1], price) {
        BoundIsApart(value, before, names[n - 1], price);
      }
    }
  }

  lemma {:induction false} BoundsToCover(value: string, names: seq<Bold>, n: nat, price: string -> bool, k: nat)
    requires Spans(value, names) && k < n <= |names|
    ensures Covered(value, BoundsTo(value, names, n, price), names[k], price)
  {
    var before, name := BoundsTo(value, names, n - 1, price), names[n - 1];
    if k < n - 1 {
      BoundsToCover(value, names, n - 1, price, k);
      StillCovered(value, before, name, names[k], price);
    } else if BoundsTo(value, names, n, price) == before {
      assert before[|before| - 1] in before;
    } else {
      assert name in before + [name];
    }
  }

  lemma StillCovered(value: string, bounds: seq<Bold>, last: Bold, b: Bold, price: string -> bool)
    requires Covered(value, bounds, b, price)
    ensures Covered(value, bounds + [last], b, price)
  {
    assert forall a :: a in bounds ==> a in bounds + [last];
  }

  // A name is a boundary or belongs to one: between the two stands no price, and the boundary names
  // a configuration. Between a configured boundary and the next boundary there is a price.
  lemma BoundariesAre(value: string, names: seq<Bold>, price: string -> bool)
    requires Spans(value, names)
    ensures var bounds := Boundaries(value, names, price);
            && Spans(value, bounds) && Apart(value, bounds, price)
            && (forall k :: 0 <= k < |names| ==> Covered(value, bounds, names[k], price))
  {
    BoundsToAreApart(value, names, |names|, price);
    forall k | 0 <= k < |names| ensures Covered(value, Boundaries(value, names, price), names[k], price) {
      BoundsToCover(value, names, |names|, price, k);
    }
  }

  // The spans at which the text is cut.
  function BoldBounds(value: string, bolds: seq<Bold>, price: string -> bool): (bounds: seq<Bold>)
    requires Spans(value, bolds)
    ensures Spans(value, bounds)
  {
    NamesAreSpans(value, bolds);
    BoundariesAre(value, Names(bolds), price);
    Boundaries(value, Names(bolds), price)
  }

  function BoldRaw(value: string, bolds: seq<Bold>, price: string -> bool): (chunks: seq<string>)
    requires Spans(value, bolds)
  {
    StripEach(Slices(value, StartsOf(BoldBounds(value, bolds, price)), 0), TextSpace)
  }

  function Showing(chunks: seq<string>, ev: string -> bool): (kept: seq<string>)
  {
    if chunks == [] then []
    else if chunks[0] != [] && ev(chunks[0]) then [chunks[0]] + Showing(chunks[1..], ev) else Showing(chunks[1..], ev)
  }

  function WithContext(chunks: seq<string>, context: string): (r: seq<string>)
  {
    seq(|chunks|, i requires 0 <= i < |chunks| => chunks[i] + "\n" + context)
  }

  // prices is the number of prices in the text, header its leading bold context if there is one.
  function BoldChunks(value: string, bolds: seq<Bold>, prices: nat, header: Option<string>,
                      price: string -> bool, ev: string -> bool): (chunks: seq<string>)
    requires Spans(value, bolds)
  {
    var raw := BoldRaw(value, bolds, price);
    var chunks := Showing(raw, ev);
    if prices < 2 || |raw| < 2 || |chunks| != prices then []
    else if header.Some? then WithContext(chunks, header.value) else chunks
  }

  method FindNames(bolds: seq<Bold>) returns (names: seq<Bold>)
    ensures names == Names(bolds)
  {
    names := [];
    var i := 0;
    while i < |bolds|
      invariant i <= |bolds| && names + Names(bolds[i..]) == Names(bolds)
    {
      if IsName(bolds[i]) { names := names + [bolds[i]]; }
      i := i + 1;
    }
  }

  method FindBoundaries(value: string, names: seq<Bold>, price: string -> bool) returns (bounds: seq<Bold>)
    requires Spans(value, names)
    ensures bounds == Boundaries(value, names, price)
  {
    bounds := [];
    var i := 0;
    while i < |names|
      invariant i <= |names| && bounds == BoundsTo(value, names, i, price)
    {
      if bounds == [] || !Belongs(value, bounds[|bounds| - 1], names[i], price) { bounds := bounds + [names[i]]; }
      i := i + 1;
    }
  }

  method CutSlices(value: string, starts: seq<nat>) returns (chunks: seq<string>)
    requires Rising(starts, |value|)
    ensures chunks == StripEach(Slices(value, starts, 0), TextSpace)
  {
    ghost var all := StripEach(Slices(value, starts, 0), TextSpace);
    chunks := [];
    var k := 0;
    while k < |starts|
      invariant k <= |starts| && chunks == all[..k]
    {
      SliceAt(value, starts, 0, k);
      chunks := chunks + [StripOf(value[starts[k]..SliceEnd(value, starts, k + 1)], TextSpace)];
      assert all[..k + 1] == all[..k] + [all[k]];
      k := k + 1;
    }
    assert all[..k] == all;
  }

  method SplitInlineBold(value: string, bolds: seq<Bold>, prices: nat, header: Option<string>,
                         price: string -> bool, ev: string -> bool) returns (chunks: seq<string>)
    requires Spans(value, bolds)
    ensures chunks == BoldChunks(value, bolds, prices, header, price, ev)
  {
    chunks := [];
    if prices < 2 { return; }
    var names := FindNames(bolds);
    NamesAreSpans(value, bolds);
    BoundariesAre(value, names, price);
    if |names| < 2 { return; }
    var bounds := FindBoundaries(value, names, price);
    if |bounds| < 2 { return; }
    var found := CutSlices(value, StartsOf(bounds));
    found := Showing(found, ev);
    if |found| < 2 || |found| != prices { return; }
    chunks := if header.Some? then WithContext(found, header.value) else found;
  }

  // Before the evidence filter every boundary has its own chunk: the text from there to the next
  // boundary, but for the white space around it.
  lemma BoldConserves(value: string, bolds: seq<Bold>, price: string -> bool)
    requires Spans(value, bolds)
    ensures var bounds, raw := BoldBounds(value, bolds, price), BoldRaw(value, bolds, price);
            && |raw| == |bounds|
            && forall k: nat :: k < |bounds| ==>
                 Stretch(value, bounds[k].start, SliceEnd(value, StartsOf(bounds), k + 1), raw[k], TextSpace)
  {
    var bounds, raw := BoldBounds(value, bolds, price), BoldRaw(value, bolds, price);
    forall k: nat | k < |bounds|
      ensures Stretch(value, bounds[k].start, SliceEnd(value, StartsOf(bounds), k + 1), raw[k], TextSpace)
    {
      SlicesAreStretches(value, StartsOf(bounds), TextSpace, k);
    }
  }

  lemma {:induction false} ShowingAll(chunks: seq<string>, ev: string -> bool)
    ensures forall c :: c in Showing(chunks, ev) <==> c in chunks && c != [] && ev(c)
    ensures |Showing(chunks, ev)| <= |chunks|
  {
    if chunks != [] {
      ShowingAll(chunks[1..], ev);
      assert forall c :: c in chunks <==> c == chunks[0] || c in chunks[1..];
    }
  }

  // An accepted inline-bold split has as many chunks as the text has prices, and each shows evidence
  // before the shared context is put behind it.
  lemma BoldShows(value: string, bolds: seq<Bold>, prices: nat, header: Option<string>,
                  price: string -> bool, ev: string -> bool)
    requires Spans(value, bolds) && BoldChunks(value, bolds, prices, header, price, ev) != []
    ensures var chunks := BoldChunks(value, bolds, prices, header, price, ev);
            && |chunks| == prices >= 2
            && (forall c :: c in chunks ==> exists d ::
                  ev(d) && c == if header.Some? then d + "\n" + header.value else d)
  {
    ShowingAll(BoldRaw(value, bolds, price), ev);
    var found := Showing(BoldRaw(value, bolds, price), ev);
    var chunks := BoldChunks(value, bolds, prices, header, price, ev);
    forall c | c in chunks ensures exists d :: ev(d) && c == if header.Some? then d + "\n" + header.value else d {
      var k :| 0 <= k < |chunks| && chunks[k] == c;
      assert found[k] in found && ev(found[k]);
    }
  }

  // A bold span that may name a listing: a configuration or no decoration, of six words at most.
  predicate MayName(b: Bold) { b.words <= 6 && (b.decorative ==> b.config) }

  lemma {:induction false} BoundsToAreNames(value: string, names: seq<Bold>, n: nat, price: string -> bool)
    requires Spans(value, names) && n <= |names|
    ensures forall b :: b in BoundsTo(value, names, n, price) ==> b in names
  {
    if n > 0 { BoundsToAreNames(value, names, n - 1, price); }
  }

  // The text is cut at bold spans that may name a listing; each of the others belongs to one of these.
  lemma BoundsAreNames(value: string, bolds: seq<Bold>, price: string -> bool)
    requires Spans(value, bolds)
    ensures var bounds := BoldBounds(value, bolds, price);
            && (forall b :: b in bounds ==> b in bolds && MayName(b))
            && (forall b :: b in bolds && MayName(b) ==> b in bounds || BelongsToOne(value, bounds, b, price))
  {
    NamesAre(bolds);
    NamesAreSpans(value, bolds);
    var names := Names(bolds);
    BoundariesAre(value, names, price);
    BoundsToAreNames(value, names, |names|, price);
    forall b | b in names ensures Covered(value, BoldBounds(value, bolds, price), b, price) {
      var k :| 0 <= k < |names| && names[k] == b;
    }
  }

  lemma {:induction false} ShowingPlaces(chunks: seq<string>, ev: string -> bool) returns (places: seq<nat>)
    ensures Rising(places, |chunks|) && |Showing(chunks, ev)| == |places|
    ensures forall i: nat :: i in places <==> i < |chunks| && chunks[i] != [] && ev(chunks[i])
    ensures forall k :: 0 <= k < |places| ==> Showing(chunks, ev)[k] == chunks[places[k]]
  {
    places := [];
    if chunks != [] {
      var first := chunks[0] != [] && ev(chunks[0]);
      var rest := ShowingPlaces(chunks[1..], ev);
      places := Onward(rest, first);
      OnwardRises(rest, first, |chunks| - 1);
      forall i: nat ensures i in places <==> i < |chunks| && chunks[i] != [] && ev(chunks[i]) {
        OnwardHas(rest, first, i);
        if 0 < i < |chunks| { assert chunks[1..][i - 1] == chunks[i]; }
      }
      ShowingOnward(chunks, ev, rest, first);
    }
  }

  lemma ShowingOnward(chunks: seq<string>, ev: string -> bool, rest: seq<nat>, first: bool)
    requires chunks != [] && first == (chunks[0] != [] && ev(chunks[0])) && Rising(rest, |chunks| - 1)
    requires |Showing(chunks[1..], ev)| == |rest|
    requires forall k :: 0 <= k < |rest| ==> Showing(chunks[1..], ev)[k] == chunks[1..][rest[k]]
    ensures var places := Onward(rest, first);
            && |Showing(chunks, ev)| == |places| && Rising(places, |chunks|)
            && forall k :: 0 <= k < |places| ==> Showing(chunks, ev)[k] == chunks[places[k]]
  {
    OnwardRises(rest, first, |chunks| - 1);
  }

  function Onward(rest: seq<nat>, first: bool): (places: seq<nat>)
    ensures |places| == |rest| + if first then 1 else 0
    ensures forall k :: 0 <= k < |places| ==>
              places[k] == if !first then rest[k] + 1 else if k == 0 then 0 else rest[k - 1] + 1
  {
    var moved: seq<nat> := seq(|rest|, k requires 0 <= k < |rest| => rest[k] + 1);
    if first then [0] + moved else moved
  }

  lemma OnwardRises(rest: seq<nat>, first: bool, n: nat)
    requires Rising(rest, n)
    ensures Rising(Onward(rest, first), n + 1)
  {
  }

  lemma OnwardHas(rest: seq<nat>, first: bool, i: nat)
    ensures i in Onward(rest, first) <==> (i == 0 && first) || (i > 0 && i - 1 in rest)
  {
    var places := Onward(rest, first);
    if i == 0 && first { assert places[0] == 0; }
    if i > 0 && i - 1 in rest {
      var k :| 0 <= k < |rest| && rest[k] == i - 1;
      assert places[if first then k + 1 else k] == i;
    }
  }

  // From lo to hi stands text with evidence, once the white space around it is taken off.
  ghost predicate ShowsIn(value: string, lo: nat, hi: nat, ev: string -> bool)
  {
    exists c :: Stretch(value, lo, hi, c, TextSpace) && c != [] && ev(c)
  }

  // An inline-bold split: of the stretches between the boundaries those that show evidence are the chunks,
  // in order, each with the shared context behind it; and the text is split exactly when it has two prices
  // or more and as many such stretches.
  lemma BoldSplits(value: string, bolds: seq<Bold>, prices: nat, header: Option<string>,
                   price: string -> bool, ev: string -> bool) returns (places: seq<nat>)
    requires Spans(value, bolds)
    ensures var bounds := BoldBounds(value, bolds, price);
            var chunks := BoldChunks(value, bolds, prices, header, price, ev);
            && Rising(places, |bounds|)
            && (forall i: nat :: i in places <==>
                  i < |bounds| &&
                  ShowsIn(value, bounds[i].start, if i + 1 < |bounds| then bounds[i + 1].start else |value|, ev))
            && (chunks != [] <==> prices >= 2 && |places| == prices)
            && (chunks != [] ==> |chunks| == |places| && forall k: nat :: k < |chunks| ==>
                  ChunkOf(value, bounds[places[k]].start,
                          if places[k] + 1 < |bounds| then bounds[places[k] + 1].start else |value|, header, chunks[k]))
  {
    var bounds, raw := BoldBounds(value, bolds, price), BoldRaw(value, bolds, price);
    BoldConserves(value, bolds, price);
    places := ShowingPlaces(raw, ev);
    forall i: nat | i < |bounds|
      ensures raw[i] != [] && ev(raw[i]) <==>
              ShowsIn(value, bounds[i].start, SliceEnd(value, StartsOf(bounds), i + 1), ev)
    {
      ShowsIff(value, bounds[i].start, SliceEnd(value, StartsOf(bounds), i + 1), raw[i], ev);
    }
    FewRaw(places, |raw|);
  }

  lemma FewRaw(places: seq<nat>, n: nat)
    requires Rising(places, n)
    ensures |places| <= n
  {
    RisingFrom(places, n, |places|);
  }

  lemma {:induction false} RisingFrom(places: seq<nat>, n: nat, k: nat)
    requires Rising(places, n) && k <= |places|
    ensures k > 0 ==> places[k - 1] >= k - 1
  {
    if k > 1 { RisingFrom(places, n, k - 1); }
  }

  // The chunk of a stretch, with the context.
  ghost predicate ChunkOf(value: string, lo: nat, hi: nat, header: Option<string>, chunk: string)
  {
    exists c :: Stretch(value, lo, hi, c, TextSpace) && chunk == if header.Some? then c + "\n" + header.value else c
  }

  lemma ShowsIff(value: string, lo: nat, hi: nat, c: string, ev: string -> bool)
    requires Stretch(value, lo, hi, c, TextSpace)
    ensures c != [] && ev(c) <==> ShowsIn(value, lo, hi, ev)
  {
    if ShowsIn(value, lo, hi, ev) {
      var d :| Stretch(value, lo, hi, d, TextSpace) && d != [] && ev(d);
      StretchIsOne(value, lo, hi, c, d, TextSpace);
    }
  }
}
