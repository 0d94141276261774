// Backfilling localities page by page: which rows a run visits when its own writes shrink the view
// it pages through, what it counts and what it may change.
module BackfillPaging {
  import opened Sequences
  import opened Options
  import opened ShrinkingView

  // A text column: null or empty, only white space, or a text.
  datatype Cell = Missing | Spaces | Text(v: int)

  // What the resolver says about the row's message and building. No message, and no decision, are
  // one case: both are counted as skipped_existing.
  datatype Verdict = NoDecision | LowConfidence(market: int) | Decided(market: int, span: Cell)

  datatype Row = Row(id: int, market: Cell, location: Cell, verdict: Verdict, writeRaises: bool)

  // parsed: the run works on the parsed projection, whose view only shows rows that lack a market
  // or a location, and it also fills the location. Otherwise it works on all listings.
  datatype Mode = Mode(parsed: bool, overwrite: bool, dryRun: bool)

  datatype Fate = SkippedExisting | SkippedLow | Updated | Errored

  predicate InView(row: Row, mode: Mode) { mode.parsed ==> row.market == Missing || row.location == Missing }

  function FateOf(row: Row, mode: Mode): (fate: Fate)
  {
    if row.verdict == NoDecision then SkippedExisting
    else if row.market != Missing && !mode.overwrite then SkippedExisting
    else if row.verdict.LowConfidence? then SkippedLow
    else if !mode.dryRun && row.writeRaises then Errored
    else Updated
  }

  // The row after its turn.
  function After(row: Row, mode: Mode): (row': Row)
    ensures row'.id == row.id
  {
    if FateOf(row, mode) != Updated || mode.dryRun then row
    else if !mode.parsed || row.location.Text? || row.verdict.span == Missing
    then row.(market := Text(row.verdict.market))
    else row.(market := Text(row.verdict.market), location := row.verdict.span)
  }

  function Seen(row: Row, shown: Row -> bool): (v: seq<Row>) { if shown(row) then [row] else [] }

  // The rows of the view among the first n, in id order.
  function View(rows: seq<Row>, n: nat, shown: Row -> bool): (v: seq<Row>)
    requires n <= |rows|
    ensures |v| <= n
  {
    if n == 0 then [] else View(rows, n - 1, shown) + Seen(rows[n - 1], shown)
  }

  function Whole(rows: seq<Row>, shown: Row -> bool): (v: seq<Row>) { View(rows, |rows|, shown) }

  // ----- The table -----

  predicate DistinctIds(rows: seq<Row>) { forall i, j :: 0 <= i < j < |rows| ==> rows[i].id != rows[j].id }

  // update(...).eq("id", row.id)
  function Write(rows: seq<Row>, row: Row): (rows': seq<Row>)
    ensures |rows'| == |rows| && forall i :: 0 <= i < |rows| ==>
              rows'[i] == if rows[i].id == row.id then row else rows[i]
  {
    seq(|rows|, i requires 0 <= i < |rows| => if rows[i].id == row.id then row else rows[i])
  }

  lemma {:induction false} ViewIds(rows: seq<Row>, n: nat, shown: Row -> bool)
    requires DistinctIds(rows) && n <= |rows|
    ensures DistinctIds(View(rows, n, shown))
    ensures forall j :: 0 <= j < |View(rows, n, shown)| ==>
              View(rows, n, shown)[j] in rows[..n] && shown(View(rows, n, shown)[j])
  {
    if n > 0 {
      ViewIds(rows, n - 1, shown);
      var v := View(rows, n - 1, shown);
      forall j | 0 <= j < |v| ensures v[j].id != rows[n - 1].id && v[j] in rows[..n] { assert v[j] in rows[..n - 1]; }
    }
  }

  // Writing a row of the view changes the view at its place only.
  lemma {:induction false} ViewOfWrite(rows: seq<Row>, row: Row, n: nat, j: nat, shown: Row -> bool)
    requires DistinctIds(rows) && n <= |rows| && j < |View(rows, n, shown)| && View(rows, n, shown)[j].id == row.id
    ensures View(Write(rows, row), n, shown)
            == View(rows, n, shown)[..j] + Seen(row, shown) + View(rows, n, shown)[j + 1..]
  {
    var v := View(rows, n - 1, shown);
    if j < |v| {
      ViewIds(rows, n - 1, shown);
      assert v[j] in rows[..n - 1];
      ViewOfWrite(rows, row, n - 1, j, shown);
      Append(v, j, Seen(row, shown), Seen(rows[n - 1], shown));
    } else {
      ViewElsewhere(rows, row, n - 1, shown);
    }
  }

  lemma Append(v: seq<Row>, j: nat, mid: seq<Row>, last: seq<Row>)
    requires j < |v|
    ensures (v[..j] + mid + v[j + 1..]) + last == (v + last)[..j] + mid + (v + last)[j + 1..]
  {
  }

  lemma {:induction false} ViewElsewhere(rows: seq<Row>, row: Row, n: nat, shown: Row -> bool)
    requires n <= |rows| && forall i :: 0 <= i < n ==> rows[i].id != row.id
    ensures View(Write(rows, row), n, shown) == View(rows, n, shown)
  {
    if n > 0 { ViewElsewhere(rows, row, n - 1, shown); }
  }

  // ----- What a turn does, as functions of the row -----

  datatype Counters = Counters(scanned: nat, eligible: nat, updated: nat, skippedExisting: nat, skippedLow: nat,
                               errors: nat)

  const NONE := Counters(0, 0, 0, 0, 0, 0)

  function Counted(c: Counters, fate: Fate): (c': Counters)
  {
    var c1 := c.(scanned := c.scanned + 1);
    match fate
    case SkippedExisting => c1.(skippedExisting := c.skippedExisting + 1)
    case SkippedLow => c1.(skippedLow := c.skippedLow + 1)
    case Updated => c1.(eligible := c.eligible + 1, updated := c.updated + 1)
    case Errored => c1.(eligible := c.eligible + 1, errors := c.errors + 1)
  }

  // shown: is the row in the view. after: the row after its turn. stay: that row if it is still in
  // the view. count: the counters after its turn.
  datatype Turn = Turn(shown: Row -> bool, after: Row -> Row, stay: Row -> Option<Row>,
                       count: (Counters, Row) -> Counters)

  function TurnOf(mode: Mode): (t: Turn)
  {
    Turn((row: Row) => InView(row, mode),
         (row: Row) => After(row, mode),
         (row: Row) => if InView(After(row, mode), mode) then Some(After(row, mode)) else None,
         (c: Counters, row: Row) => Counted(c, FateOf(row, mode)))
  }

  predicate Does(t: Turn, row: Row, mode: Mode)
  {
    && t.shown(row) == InView(row, mode)
    && t.after(row) == After(row, mode)
    && t.stay(row) == if t.shown(t.after(row)) then Some(t.after(row)) else None
  }

  predicate Counts(t: Turn, c: Counters, row: Row, mode: Mode) { t.count(c, row) == Counted(c, FateOf(row, mode)) }

  ghost predicate IsTurn(t: Turn, mode: Mode)
  {
    && (forall row :: Does(t, row, mode))
    && (forall c, row :: Counts(t, c, row, mode))
  }

  // The resolver decided on a market, and the row has none or is to be overwritten.
  predicate Wanted(row: Row, mode: Mode) { row.verdict.Decided? && (row.market == Missing || mode.overwrite) }

  // What a turn does to a row: where a market is wanted, no dry run is on and the write does not raise,
  // the market becomes the resolver's, and in a parsed run a location without text becomes the span, if
  // there is one. Nothing else changes.
  lemma TurnIs(row: Row, mode: Mode)
    ensures var row' := TurnOf(mode).after(row);
            var writes := Wanted(row, mode) && !mode.dryRun && !row.writeRaises;
            && row'.id == row.id && row'.verdict == row.verdict && row'.writeRaises == row.writeRaises
            && row'.market == (if writes then Text(row.verdict.market) else row.market)
            && row'.location ==
               if writes && mode.parsed && (row.location == Missing || row.location == Spaces) &&
                   row.verdict.span != Missing
               then row.verdict.span else row.location
  {
  }

  // Listings, and any dry run: every row of the view is visited exactly once.
  lemma QuietModes(v: seq<Row>, size: nat, mode: Mode)
    requires size > 0 && (!mode.parsed || mode.dryRun) && forall j :: 0 <= j < |v| ==> InView(v[j], mode)
    ensures Walk(v, 0, size, TurnOf(mode).stay) == v
  {
    QuietRunVisitsAll(v, size, TurnOf(mode).stay);
  }

  // The smallest loss: pages of one row, two rows, the first one filled. The second is not visited.
  lemma FilledRowHidesTheNext(a: Row, b: Row, mode: Mode)
    requires mode.parsed && !mode.dryRun && FateOf(a, mode) == Updated && a.market == Missing && a.location.Text?
    ensures Walk([a, b], 0, 1, TurnOf(mode).stay) == [a]
  {
    var v, stay := [a, b], TurnOf(mode).stay;
    assert PageOf(v, 0, 1) == [a];
    assert Survivors([a], 0, stay) == [] && Survivors([a], 1, stay) == [];
    assert NextFrom(v, 0, [a], stay) == 2;
    assert Walk(v, 2, 1, stay) == [];
  }

  // What leaves the view: a row that was written and has a location then.
  lemma RemovedIff(row: Row, mode: Mode)
    requires InView(row, mode)
    ensures !InView(After(row, mode), mode)
        <==> mode.parsed && !mode.dryRun && FateOf(row, mode) == Updated && After(row, mode).location != Missing
  {
  }

  // ----- The run itself -----

  // The counters after the first n rows of a page.
  function Tally(c: Counters, page: seq<Row>, n: nat, count: (Counters, Row) -> Counters): (c': Counters)
    requires n <= |page|
  {
    if n == 0 then c else count(Tally(c, page, n - 1, count), page[n - 1])
  }

  lemma {:induction false} CountersAddUp(visited: seq<Row>, n: nat, mode: Mode)
    requires n <= |visited|
    ensures var c := Tally(NONE, visited, n, TurnOf(mode).count);
            && c.scanned == n
            && c.scanned == c.eligible + c.skippedExisting + c.skippedLow
            && c.eligible == c.updated + c.errors
            && (mode.dryRun ==> c.errors == 0)
  {
    if n > 0 { CountersAddUp(visited, n - 1, mode); }
  }

  // The places of the first n rows that a counter counts: skipped for a decision that is missing or not
  // wanted, skipped for a low confidence, failed to write, and updated.
  function Places(visited: seq<Row>, n: nat, counts: Row -> bool): (s: set<nat>)
    requires n <= |visited|
  {
    set i: nat | i < n && counts(visited[i])
  }

  lemma PlacesOneMore(visited: seq<Row>, n: nat, counts: Row -> bool)
    requires 0 < n <= |visited|
    ensures |Places(visited, n, counts)| == |Places(visited, n - 1, counts)| + if counts(visited[n - 1]) then 1 else 0
  {
    assert Places(visited, n, counts)
           == Places(visited, n - 1, counts) + (if counts(visited[n - 1]) then {n - 1} else {});
  }

  predicate SkipsLow(row: Row, mode: Mode) { row.verdict.LowConfidence? && (row.market == Missing || mode.overwrite) }

  predicate Fails(row: Row, mode: Mode) { Wanted(row, mode) && !mode.dryRun && row.writeRaises }

  function Wanting(mode: Mode): (f: Row -> bool) { (row: Row) => Wanted(row, mode) }

  function SkippingLow(mode: Mode): (f: Row -> bool) { (row: Row) => SkipsLow(row, mode) }

  function Failing(mode: Mode): (f: Row -> bool) { (row: Row) => Fails(row, mode) }

  lemma CountedIs(c: Counters, row: Row, mode: Mode)
    ensures var c' := TurnOf(mode).count(c, row);
            && c'.scanned == c.scanned + 1
            && c'.eligible == c.eligible + (if Wanting(mode)(row) then 1 else 0)
            && c'.skippedLow == c.skippedLow + (if SkippingLow(mode)(row) then 1 else 0)
            && c'.errors == c.errors + (if Failing(mode)(row) then 1 else 0)
            && c'.updated == c.updated + (if Wanting(mode)(row) && !Failing(mode)(row) then 1 else 0)
            && c'.skippedExisting ==
               c.skippedExisting + (if Wanting(mode)(row) || SkippingLow(mode)(row) then 0 else 1)
  {
  }

  predicate CountsFor(c: Counters, visited: seq<Row>, n: nat, mode: Mode)
    requires n <= |visited|
  {
    && c.scanned == n
    && c.eligible == |Places(visited, n, Wanting(mode))|
    && c.skippedLow == |Places(visited, n, SkippingLow(mode))|
    && c.errors == |Places(visited, n, Failing(mode))|
    && c.updated == c.eligible - c.errors && c.skippedExisting == n - c.eligible - c.skippedLow
  }

  lemma CountsOneMore(c: Counters, visited: seq<Row>, n: nat, mode: Mode)
    requires 0 < n <= |visited| && CountsFor(c, visited, n - 1, mode)
    ensures CountsFor(TurnOf(mode).count(c, visited[n - 1]), visited, n, mode)
  {
    CountedIs(c, visited[n - 1], mode);
    PlacesOneMore(visited, n, Wanting(mode));
    PlacesOneMore(visited, n, SkippingLow(mode));
    PlacesOneMore(visited, n, Failing(mode));
  }

  // The counters of a run are the numbers of the visited rows that wanted a market, were passed over for
  // a low confidence, and failed to be written; the rest was updated or skipped as it was.
  lemma {:induction false} CountersAre(visited: seq<Row>, n: nat, mode: Mode)
    requires n <= |visited|
    ensures CountsFor(Tally(NONE, visited, n, TurnOf(mode).count), visited, n, mode)
  {
    if n == 0 {
      assert Places(visited, 0, Wanting(mode)) == {};
      assert Places(visited, 0, SkippingLow(mode)) == {};
      assert Places(visited, 0, Failing(mode)) == {};
    } else {
      CountersAre(visited, n - 1, mode);
      CountsOneMore(Tally(NONE, visited, n - 1, TurnOf(mode).count), visited, n, mode);
    }
  }

  lemma {:induction false} TallyJoin(c: Counters, a: seq<Row>, b: seq<Row>, n: nat, count: (Counters, Row) -> Counters)
    requires n <= |b|
    ensures Tally(c, a + b, |a| + n, count) == Tally(Tally(c, a, |a|, count), b, n, count)
    decreases n
  {
    if n > 0 {
      TallyJoin(c, a, b, n - 1, count);
      assert (a + b)[|a| + n - 1] == b[n - 1];
    } else {
      TallyLocal(c, a, a + b, |a|, count);
    }
  }

  lemma TallyAll(c: Counters, a: seq<Row>, b: seq<Row>, count: (Counters, Row) -> Counters)
    ensures Tally(c, a + b, |a + b|, count) == Tally(Tally(c, a, |a|, count), b, |b|, count)
  {
    TallyJoin(c, a, b, |b|, count);
  }

  lemma {:induction false} TallyLocal(c: Counters, a: seq<Row>, b: seq<Row>, n: nat, count: (Counters, Row) -> Counters)
    requires n <= |a| <= |b| && forall k :: 0 <= k < n ==> a[k] == b[k]
    ensures Tally(c, a, n, count) == Tally(c, b, n, count)
  {
    if n > 0 { TallyLocal(c, a, b, n - 1, count); }
  }

  // What a row may become: a market is replaced only when overwriting, a location with text never,
  // and a dry run changes nothing.
  predicate Kept(row: Row, row': Row, mode: Mode)
  {
    && row'.id == row.id && row'.verdict == row.verdict && row'.writeRaises == row.writeRaises
    && (row.market != Missing && !mode.overwrite ==> row'.market == row.market)
    && (row'.market != row.market ==> row.verdict.Decided? && row'.market == Text(row.verdict.market))
    && (row'.location != row.location ==>
          mode.parsed && !row.location.Text? && row.verdict.Decided? && row'.location == row.verdict.span)
    && (mode.dryRun ==> row' == row)
  }

  lemma AfterKeeps(row: Row, mode: Mode)
    ensures Kept(row, After(row, mode), mode)
  {
  }

  // The table after the turns of the rows with these ids.
  function Rewritten(rows0: seq<Row>, ids: set<int>, after: Row -> Row): (rows: seq<Row>)
  {
    seq(|rows0|, i requires 0 <= i < |rows0| => if rows0[i].id in ids then after(rows0[i]) else rows0[i])
  }

  // However many turns a run took, no row changed in any other way.
  lemma RunKeeps(rows0: seq<Row>, ids: set<int>, mode: Mode)
    ensures var rows := Rewritten(rows0, ids, TurnOf(mode).after);
            |rows| == |rows0| && forall i :: 0 <= i < |rows0| ==> Kept(rows0[i], rows[i], mode)
  {
    forall i | 0 <= i < |rows0| ensures Kept(rows0[i], Rewritten(rows0, ids, TurnOf(mode).after)[i], mode) {
      AfterKeeps(rows0[i], mode);
    }
  }

  function Ids(page: seq<Row>, n: nat): (ids: set<int>)
    requires n <= |page|
  {
    if n == 0 then {} else Ids(page, n - 1) + {page[n - 1].id}
  }

  // None of these ids stands in the view from the offset on.
  predicate Ahead(v: seq<Row>, offset: nat, ids: set<int>)
    decreases |v| - offset
  {
    offset >= |v| || (v[offset].id !in ids && Ahead(v, offset + 1, ids))
  }

  lemma {:induction false} AheadIff(v: seq<Row>, offset: nat, ids: set<int>)
    ensures Ahead(v, offset, ids) <==> forall j :: offset <= j < |v| ==> v[j].id !in ids
    decreases |v| - offset
  {
    if offset < |v| { AheadIff(v, offset + 1, ids); }
  }

  predicate IsPage(page: seq<Row>, v: seq<Row>, offset: nat)
  {
    offset + |page| <= |v| && forall k :: 0 <= k < |page| ==> page[k] == v[offset + k]
  }

  // A run that has visited these rows and stands at this offset. v is the view before the run and
  // all what the run will have visited; more says that it goes on, with the rows of v from from on.
  ghost predicate Running(rows0: seq<Row>, rows: seq<Row>, c: Counters, visited: seq<Row>, offset: nat, size: nat,
                          v: seq<Row>, all: seq<Row>, from: nat, more: bool, t: Turn)
    requires size > 0
  {
    && Sofar(rows0, rows, c, visited, offset, t)
    && SameAhead(Whole(rows, t.shown), offset, v, from)
    && all == visited + if more then Walk(v, from, size, t.stay) else []
  }

  ghost predicate Sofar(rows0: seq<Row>, rows: seq<Row>, c: Counters, visited: seq<Row>, offset: nat, t: Turn)
  {
    && c == Tally(NONE, visited, |visited|, t.count)
    && rows == Rewritten(rows0, Ids(visited, |visited|), t.after)
    && Ahead(Whole(rows, t.shown), offset, Ids(visited, |visited|))
  }

  // A page with its first j rows behind it.
  ghost predicate Midpage(rows0: seq<Row>, rows: seq<Row>, c0: Counters, c: Counters, page: seq<Row>, j: nat,
                          v: seq<Row>, offset: nat, t: Turn)
    requires j <= |page| && IsPage(page, v, offset)
  {
    && c == Tally(c0, page, j, t.count)
    && Whole(rows, t.shown) == v[..offset] + Survivors(page, j, t.stay) + v[offset + j..]
    && rows == Rewritten(rows0, Ids(page, j), t.after)
  }

  class Database {
    var rows: seq<Row>

    constructor (rows: seq<Row>)
      ensures this.rows == rows
    {
      this.rows := rows;
    }

    // One row of a page, given its position in the current view.
    method HandleRow(row: Row, c: Counters, mode: Mode, ghost t: Turn, ghost place: nat) returns (c': Counters)
      requires IsTurn(t, mode)
      requires DistinctIds(rows) && place < |Whole(rows, t.shown)| && Whole(rows, t.shown)[place] == row
      modifies this
      ensures c' == t.count(c, row)
      ensures t.after(row).id == row.id && rows == Write(old(rows), t.after(row))
    {
      assert Does(t, row, mode) && Counts(t, c, row, mode);
      ViewIds(rows, |rows|, t.shown);
      Unwritten(rows, row);
      c' := c.(scanned := c.scanned + 1);
      if row.verdict == NoDecision || (row.market != Missing && !mode.overwrite) {
        c' := c'.(skippedExisting := c.skippedExisting + 1);
      } else if row.verdict.LowConfidence? {
        c' := c'.(skippedLow := c.skippedLow + 1);
      } else {
        c' := c'.(eligible := c.eligible + 1);
        if mode.dryRun {
          c' := c'.(updated := c.updated + 1);
        } else if row.writeRaises {
          c' := c'.(errors := c.errors + 1);
        } else {
          var location := if mode.parsed && !row.location.Text? && row.verdict.span != Missing then row.verdict.span
                          else row.location;
          rows := Write(rows, row.(market := Text(row.verdict.market), location := location));
          c' := c'.(updated := c.updated + 1);
        }
      }
    }

    // One page: its rows as they were fetched.
    method HandlePage(page: seq<Row>, c: Counters, mode: Mode, ghost t: Turn, ghost v: seq<Row>, ghost offset: nat)
      returns (c': Counters)
      requires IsTurn(t, mode)
      requires DistinctIds(rows) && v == Whole(rows, t.shown) && IsPage(page, v, offset)
      modifies this
      ensures c' == Tally(c, page, |page|, t.count)
      ensures Whole(rows, t.shown) == Swept(v, offset, page, t.stay)
      ensures rows == Rewritten(old(rows), Ids(page, |page|), t.after)
    {
      c' := c;
      PageStarts(rows, c, page, v, offset, t);
      ViewIds(rows, |rows|, t.shown);
      var j := 0;
      while j < |page|
        invariant j <= |page| && Midpage(old(rows), rows, c, c', page, j, v, offset, t)
      {
        c' := HandleNext(page, j, c, c', mode, t, old(rows), v, offset);
        j := j + 1;
      }
    }

    method HandleNext(page: seq<Row>, j: nat, ghost c0: Counters, c: Counters, mode: Mode, ghost t: Turn,
                      ghost rows0: seq<Row>, ghost v: seq<Row>, ghost offset: nat) returns (c': Counters)
      requires IsTurn(t, mode) && DistinctIds(rows0) && DistinctIds(v) && IsPage(page, v, offset) && j < |page|
      requires Midpage(rows0, rows, c0, c, page, j, v, offset, t)
      modifies this
      ensures Midpage(rows0, rows, c0, c', page, j + 1, v, offset, t)
    {
      ghost var place, before := offset + |Survivors(page, j, t.stay)|, rows;
      BeforeRow(rows0, rows, c0, c, page, j, v, offset, place, mode, t);
      c' := HandleRow(page[j], c, mode, t, place);
      AfterRow(rows0, before, rows, c0, c, page, j, v, offset, place, mode, t);
    }

    // The whole run: page after page, until one is short.
    method Run(size: nat, mode: Mode) returns (c: Counters, ghost visited: seq<Row>)
      requires size > 0 && DistinctIds(rows)
      modifies this
      ensures visited == Walk(Whole(old(rows), TurnOf(mode).shown), 0, size, TurnOf(mode).stay)
      ensures c == Tally(NONE, visited, |visited|, TurnOf(mode).count)
      ensures rows == Rewritten(old(rows), Ids(visited, |visited|), TurnOf(mode).after)
    {
      c, visited := RunAs(size, mode, TurnOf(mode));
    }

    method RunAs(size: nat, mode: Mode, ghost t: Turn) returns (c: Counters, ghost visited: seq<Row>)
      requires size > 0 && DistinctIds(rows) && IsTurn(t, mode)
      modifies this
      ensures visited == Walk(Whole(old(rows), t.shown), 0, size, t.stay)
      ensures c == Tally(NONE, visited, |visited|, t.count)
      ensures rows == Rewritten(old(rows), Ids(visited, |visited|), t.after)
    {
      ghost var v := Whole(rows, t.shown);
      ghost var all := Walk(v, 0, size, t.stay);
      ghost var offset, from;
      RunStarts(rows, size, v, all, t);
      c, visited, offset, from := Pages(size, mode, v, all, t);
      RunEnds(old(rows), rows, c, visited, offset, size, v, all, from, t);
    }

    method Pages(size: nat, mode: Mode, ghost v: seq<Row>, ghost all: seq<Row>, ghost t: Turn)
      returns (c: Counters, ghost visited: seq<Row>, offset: nat, ghost from: nat)
      requires size > 0 && DistinctIds(rows) && IsTurn(t, mode)
      requires Running(rows, rows, NONE, [], 0, size, v, all, 0, true, t)
      modifies this
      ensures Running(old(rows), rows, c, visited, offset, size, v, all, from, false, t)
    {
      c, visited, offset, from := NONE, [], 0, 0;
      var more := true;
      ghost var rows0, total := rows, |rows|;
      while more
        invariant Running(rows0, rows, c, visited, offset, size, v, all, from, more, t)
        invariant |rows| == total && (more ==> offset <= total)
        decreases if more then total + size - offset else 0
      {
        c, visited, from, more := NextPage(c, mode, t, rows0, v, all, visited, from, offset, size);
        offset := offset + size;
      }
    }

    // The page at the offset of the view as it is now.
    method FetchPage(offset: nat, size: nat, mode: Mode, ghost t: Turn) returns (page: seq<Row>)
      requires IsTurn(t, mode)
      ensures page == PageOf(Whole(rows, t.shown), offset, size)
    {
      page := PageOf(Whole(rows, (row: Row) => InView(row, mode)), offset, size);
      SameView(rows, |rows|, (row: Row) => InView(row, mode), t, mode);
    }

    // Fetches the page at the offset and handles it; says whether there may be another one.
    method NextPage(c: Counters, mode: Mode, ghost t: Turn, ghost rows0: seq<Row>, ghost v: seq<Row>,
                    ghost all: seq<Row>, ghost visited: seq<Row>, ghost from: nat, offset: nat, size: nat)
      returns (c': Counters, ghost visited': seq<Row>, ghost from': nat, more: bool)
      requires size > 0 && IsTurn(t, mode) && DistinctIds(rows0)
      requires Running(rows0, rows, c, visited, offset, size, v, all, from, true, t)
      modifies this
      ensures Running(rows0, rows, c', visited', offset + size, size, v, all, from', more, t)
      ensures |rows| == |old(rows)| && (more ==> offset + size <= |rows|)
    {
      var page := FetchPage(offset, size, mode, t);
      more := |page| == size;
      if page == [] {
        from' := NothingMore(rows0, rows, c, visited, offset, size, v, all, from, t);
        return c, visited, from', false;
      }
      c' := DoPage(page, c, mode, t, rows0, visited, offset, size);
      visited' := visited + page;
      from' := OnePageMore(rows0, old(rows), rows, c', visited, page, offset, size, v, all, from, t);
    }

    method DoPage(page: seq<Row>, c: Counters, mode: Mode, ghost t: Turn, ghost rows0: seq<Row>,
                  ghost visited: seq<Row>, ghost offset: nat, ghost size: nat) returns (c': Counters)
      requires size > 0 && IsTurn(t, mode) && DistinctIds(rows0) && Sofar(rows0, rows, c, visited, offset, t)
      requires page == PageOf(Whole(rows, t.shown), offset, size) && page != []
      modifies this
      ensures Sofar(rows0, rows, c', visited + page, offset + size, t) && |rows| == |old(rows)|
      ensures offset + |page| <= |Whole(old(rows), t.shown)|
      ensures Whole(rows, t.shown) == Swept(Whole(old(rows), t.shown), offset, page, t.stay)
    {
      ghost var v := Whole(rows, t.shown);
      StillDistinct(rows0, rows, Ids(visited, |visited|), mode, t);
      ViewIds(rows, |rows|, t.shown);
      c' := HandlePage(page, c, mode, t, v, offset);
      TallyAll(NONE, visited, page, t.count);
      AfterPage(rows0, old(rows), rows, v, visited, page, offset, size, mode, t);
    }
  }

  lemma PageStarts(rows: seq<Row>, c: Counters, page: seq<Row>, v: seq<Row>, offset: nat, t: Turn)
    requires v == Whole(rows, t.shown) && IsPage(page, v, offset)
    ensures Midpage(rows, rows, c, c, page, 0, v, offset, t)
  {
    assert v == v[..offset] + [] + v[offset..];
  }

  lemma RunStarts(rows: seq<Row>, size: nat, v: seq<Row>, all: seq<Row>, t: Turn)
    requires size > 0 && v == Whole(rows, t.shown) && all == Walk(v, 0, size, t.stay)
    ensures Running(rows, rows, NONE, [], 0, size, v, all, 0, true, t)
  {
    AheadIff(v, 0, {});
    Nothing(all, v);
  }

  lemma RunEnds(rows0: seq<Row>, rows: seq<Row>, c: Counters, visited: seq<Row>, offset: nat, size: nat, v: seq<Row>,
                all: seq<Row>, from: nat, t: Turn)
    requires size > 0 && Running(rows0, rows, c, visited, offset, size, v, all, from, false, t)
    ensures visited == all
    ensures c == Tally(NONE, visited, |visited|, t.count) && rows == Rewritten(rows0, Ids(visited, |visited|), t.after)
  {
    Nothing(visited, []);
  }

  lemma NothingMore(rows0: seq<Row>, rows: seq<Row>, c: Counters, visited: seq<Row>, offset: nat, size: nat,
                    v: seq<Row>, all: seq<Row>, from: nat, t: Turn) returns (from': nat)
    requires size > 0 && Running(rows0, rows, c, visited, offset, size, v, all, from, true, t)
    requires PageOf(Whole(rows, t.shown), offset, size) == []
    ensures Running(rows0, rows, c, visited, offset + size, size, v, all, from', false, t)
  {
    from' := |v|;
    FurtherOn(rows0, rows, c, visited, offset, size, t);
    SamePage(Whole(rows, t.shown), offset, v, from, size);
    WalkStep(v, from, size, t.stay);
    Nothing(visited, []);
  }

  lemma FurtherOn(rows0: seq<Row>, rows: seq<Row>, c: Counters, visited: seq<Row>, offset: nat, size: nat, t: Turn)
    requires Sofar(rows0, rows, c, visited, offset, t)
    ensures Sofar(rows0, rows, c, visited, offset + size, t)
  {
    AheadIff(Whole(rows, t.shown), offset, Ids(visited, |visited|));
    AheadIff(Whole(rows, t.shown), offset + size, Ids(visited, |visited|));
  }

  lemma OnePageMore(rows0: seq<Row>, before: seq<Row>, rows: seq<Row>, c: Counters, visited: seq<Row>, page: seq<Row>,
                    offset: nat, size: nat, v: seq<Row>, all: seq<Row>, from: nat, t: Turn) returns (from': nat)
    requires size > 0 && page == PageOf(Whole(before, t.shown), offset, size) && page != []
    requires SameAhead(Whole(before, t.shown), offset, v, from) && all == visited + Walk(v, from, size, t.stay)
    requires Sofar(rows0, rows, c, visited + page, offset + size, t)
    requires Whole(rows, t.shown) == Swept(Whole(before, t.shown), offset, page, t.stay)
    ensures Running(rows0, rows, c, visited + page, offset + size, size, v, all, from', |page| == size, t)
  {
    var now := Whole(before, t.shown);
    from' := NextFrom(v, from, page, t.stay);
    SamePage(now, offset, v, from, size);
    WalkStep(v, from, size, t.stay);
    LastOrNext(now, offset, v, from, page, size, t.stay);
    Assoc(visited, page, if |page| == size then Walk(v, from', size, t.stay) else []);
  }

  lemma {:induction false} SameView(rows: seq<Row>, n: nat, shown: Row -> bool, t: Turn, mode: Mode)
    requires n <= |rows| && IsTurn(t, mode) && forall row :: shown(row) == InView(row, mode)
    ensures View(rows, n, shown) == View(rows, n, t.shown)
  {
    if n > 0 {
      assert Does(t, rows[n - 1], mode);
      SameView(rows, n - 1, shown, t, mode);
    }
  }

  lemma AfterWrite(before: seq<Row>, rows: seq<Row>, page: seq<Row>, j: nat, v: seq<Row>, offset: nat, place: nat,
                   shown: seq<Row>, mode: Mode, t: Turn)
    requires IsTurn(t, mode) && DistinctIds(before) && DistinctIds(v) && IsPage(page, v, offset) && j < |page|
    requires shown == View(before, |before|, t.shown) && place < |shown| && shown[place] == page[j]
    requires t.after(page[j]).id == page[j].id && rows == Write(before, t.after(page[j]))
    ensures DistinctIds(rows) && page[j].id !in Ids(page, j)
    ensures Whole(rows, t.shown) == shown[..place] + Seen(t.after(page[j]), t.shown) + shown[place + 1..]
    ensures Survivors(page, j + 1, t.stay) == Survivors(page, j, t.stay) + Seen(t.after(page[j]), t.shown)
  {
    assert Does(t, page[j], mode);
    NotYet(page, v, offset, j);
    ViewOfWrite(before, t.after(page[j]), |before|, place, t.shown);
  }

  // The next row of a page stands in the current view behind the survivors of those before it.
  lemma BeforeRow(rows0: seq<Row>, rows: seq<Row>, c0: Counters, c: Counters, page: seq<Row>, j: nat, v: seq<Row>,
                  offset: nat, place: nat, mode: Mode, t: Turn)
    requires IsTurn(t, mode) && DistinctIds(rows0) && IsPage(page, v, offset) && j < |page|
    requires Midpage(rows0, rows, c0, c, page, j, v, offset, t) && place == offset + |Survivors(page, j, t.stay)|
    ensures DistinctIds(rows) && place < |Whole(rows, t.shown)| && Whole(rows, t.shown)[place] == page[j]
  {
    StillDistinct(rows0, rows, Ids(page, j), mode, t);
    Replaced(v[..offset], Survivors(page, j, t.stay), [], v[offset + j..], Whole(rows, t.shown));
  }

  lemma AfterRow(rows0: seq<Row>, before: seq<Row>, rows: seq<Row>, c0: Counters, c: Counters, page: seq<Row>, j: nat,
                 v: seq<Row>, offset: nat, place: nat, mode: Mode, t: Turn)
    requires IsTurn(t, mode) && DistinctIds(before) && DistinctIds(v) && IsPage(page, v, offset) && j < |page|
    requires Midpage(rows0, before, c0, c, page, j, v, offset, t) && place == offset + |Survivors(page, j, t.stay)|
    requires place < |Whole(before, t.shown)| && Whole(before, t.shown)[place] == page[j]
    requires t.after(page[j]).id == page[j].id && rows == Write(before, t.after(page[j]))
    ensures Midpage(rows0, rows, c0, t.count(c, page[j]), page, j + 1, v, offset, t)
  {
    var shown := Whole(before, t.shown);
    AfterWrite(before, rows, page, j, v, offset, place, shown, mode, t);
    ViewIds(before, |before|, t.shown);
    RewrittenStep(rows0, before, rows, Ids(page, j), page[j], mode, t);
    ViewAfterRow(shown, Whole(rows, t.shown), v, offset, Survivors(page, j, t.stay), Seen(t.after(page[j]), t.shown),
                 j, place);
  }

  lemma ViewAfterRow(shown: seq<Row>, now: seq<Row>, v: seq<Row>, offset: nat, survivors: seq<Row>, seen: seq<Row>,
                     j: nat, place: nat)
    requires offset + j < |v| && shown == v[..offset] + survivors + v[offset + j..] && place == offset + |survivors|
    requires now == shown[..place] + seen + shown[place + 1..]
    ensures now == v[..offset] + (survivors + seen) + v[offset + (j + 1)..]
  {
    Replaced(v[..offset], survivors, seen, v[offset + j..], shown);
    assert v[offset + j..][1..] == v[offset + (j + 1)..];
  }

  lemma Nothing(a: seq<Row>, v: seq<Row>)
    ensures [] + a == a == a + [] && v == v[0..]
  {
  }

  lemma LastOrNext(now: seq<Row>, offset: nat, v: seq<Row>, from: nat, page: seq<Row>, size: nat,
                   stay: Row -> Option<Row>)
    requires SameAhead(now, offset, v, from) && page == PageOf(now, offset, size) && page != []
    ensures SameAhead(Swept(now, offset, page, stay), offset + size, v, NextFrom(v, from, page, stay))
  {
    SweepSkipsWhatItRemoves(now, offset, v, from, page, stay);
  }

  lemma StillDistinct(rows0: seq<Row>, rows: seq<Row>, ids: set<int>, mode: Mode, t: Turn)
    requires DistinctIds(rows0) && rows == Rewritten(rows0, ids, t.after) && IsTurn(t, mode)
    ensures DistinctIds(rows)
  {
    forall i | 0 <= i < |rows| ensures rows[i].id == rows0[i].id { assert Does(t, rows0[i], mode); }
  }

  lemma AfterPage(rows0: seq<Row>, before: seq<Row>, rows: seq<Row>, v: seq<Row>, visited: seq<Row>, page: seq<Row>,
                  offset: nat, size: nat, mode: Mode, t: Turn)
    requires DistinctIds(v) && page == PageOf(v, offset, size) && page != [] && IsTurn(t, mode)
    requires before == Rewritten(rows0, Ids(visited, |visited|), t.after) && Ahead(v, offset, Ids(visited, |visited|))
    requires rows == Rewritten(before, Ids(page, |page|), t.after)
    ensures rows == Rewritten(rows0, Ids(visited + page, |visited + page|), t.after)
    ensures Ahead(Swept(v, offset, page, t.stay), offset + size, Ids(visited + page, |visited + page|))
  {
    IdsJoin(visited, page, |page|);
    RewrittenJoin(rows0, before, rows, Ids(visited, |visited|), page, v, offset, mode, t);
    StillAhead(v, page, Ids(visited, |visited|), offset, size, t.stay);
  }

  // Replacing the first row of b in the middle of the view.
  lemma Replaced(a: seq<Row>, s: seq<Row>, seen: seq<Row>, b: seq<Row>, v: seq<Row>)
    requires b != [] && v == a + s + b
    ensures var place := |a| + |s|;
            v[place] == b[0] && v[..place] + seen + v[place + 1..] == a + (s + seen) + b[1..]
  {
    var place := |a| + |s|;
    assert v[..place] == a + s && v[place + 1..] == b[1..];
  }

  lemma {:induction false} IdsAre(page: seq<Row>, n: nat)
    requires n <= |page|
    ensures forall k :: 0 <= k < n ==> page[k].id in Ids(page, n)
    ensures forall x :: x in Ids(page, n) ==> exists k :: 0 <= k < n && page[k].id == x
  {
    if n > 0 { IdsAre(page, n - 1); }
  }

  lemma {:induction false} IdsJoin(a: seq<Row>, b: seq<Row>, n: nat)
    requires n <= |b|
    ensures Ids(a + b, |a| + n) == Ids(a, |a|) + Ids(b, n)
    decreases n
  {
    if n > 0 {
      IdsJoin(a, b, n - 1);
      assert (a + b)[|a| + n - 1] == b[n - 1];
    } else {
      IdsLocal(a, a + b, |a|);
    }
  }

  lemma {:induction false} IdsLocal(a: seq<Row>, b: seq<Row>, n: nat)
    requires n <= |a| <= |b| && forall k :: 0 <= k < n ==> a[k] == b[k]
    ensures Ids(a, n) == Ids(b, n)
  {
    if n > 0 { IdsLocal(a, b, n - 1); }
  }

  lemma NotYet(page: seq<Row>, v: seq<Row>, offset: nat, j: nat)
    requires DistinctIds(v) && IsPage(page, v, offset) && j < |page|
    ensures page[j].id !in Ids(page, j)
  {
    IdsAre(page, j);
    assert forall k :: 0 <= k < j ==> page[k].id != page[j].id;
  }

  lemma Unwritten(rows: seq<Row>, row: Row)
    requires DistinctIds(rows) && row in rows
    ensures Write(rows, row) == rows
  {
    var i :| 0 <= i < |rows| && rows[i] == row;
  }

  lemma RewrittenStep(rows0: seq<Row>, before: seq<Row>, rows: seq<Row>, ids: set<int>, row: Row, mode: Mode, t: Turn)
    requires IsTurn(t, mode) && DistinctIds(before) && before == Rewritten(rows0, ids, t.after) &&
             rows == Write(before, t.after(row))
    requires row in before && row.id !in ids
    ensures rows == Rewritten(rows0, ids + {row.id}, t.after)
  {
    var n :| 0 <= n < |before| && before[n] == row;
    assert Does(t, row, mode) && Does(t, rows0[n], mode);
    assert rows0[n] == row;
    forall i | 0 <= i < |rows0|
      ensures rows[i] == if rows0[i].id in ids + {row.id} then t.after(rows0[i]) else rows0[i]
    {
      assert Does(t, rows0[i], mode);
      assert before[i].id == rows0[i].id;
      if i != n { assert before[i].id != before[n].id; }
    }
  }

  lemma RewrittenJoin(rows0: seq<Row>, before: seq<Row>, rows: seq<Row>, ids: set<int>, page: seq<Row>, v: seq<Row>,
                      offset: nat, mode: Mode, t: Turn)
    requires IsTurn(t, mode) && before == Rewritten(rows0, ids, t.after) &&
             rows == Rewritten(before, Ids(page, |page|), t.after)
    requires IsPage(page, v, offset) && Ahead(v, offset, ids)
    ensures rows == Rewritten(rows0, ids + Ids(page, |page|), t.after)
  {
    IdsAre(page, |page|);
    AheadIff(v, offset, ids);
    forall x | x in Ids(page, |page|) ensures x !in ids {
      var k :| 0 <= k < |page| && page[k].id == x;
      assert v[offset + k].id !in ids;
    }
    forall i | 0 <= i < |rows0|
      ensures rows[i] == if rows0[i].id in ids + Ids(page, |page|) then t.after(rows0[i]) else rows0[i]
    {
      assert Does(t, rows0[i], mode);
      assert before[i].id == rows0[i].id;
    }
  }

  lemma StillAhead(v: seq<Row>, page: seq<Row>, ids: set<int>, offset: nat, size: nat, stay: Row -> Option<Row>)
    requires DistinctIds(v) && IsPage(page, v, offset) && Ahead(v, offset, ids) &&
             (|page| == size || offset + |page| == |v|)
    requires |page| <= size
    ensures Ahead(Swept(v, offset, page, stay), offset + size, ids + Ids(page, |page|))
  {
    var kept := Survivors(page, |page|, stay);
    var v' := Swept(v, offset, page, stay);
    AheadIff(v, offset, ids);
    AheadIff(v', offset + size, ids + Ids(page, |page|));
    forall j | offset + size <= j < |v'| ensures v'[j].id !in ids + Ids(page, |page|) {
      var k := j - |kept| + |page|;
      assert v'[j] == v[offset + |page|..][j - offset - |kept|] == v[k];
      IdsAre(page, |page|);
      assert forall m :: 0 <= m < |page| ==> page[m].id != v[k].id;
    }
  }
}
