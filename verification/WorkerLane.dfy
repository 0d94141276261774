// _process_lane over many cycles: what a lane counts, and how often a row can reach the extractor.
module WorkerLane {
  import opened Options

  // A fetched row: the reason to skip it before any model call, if there is one, and its own count
  // of begun attempts if the store keeps one on the row.
  datatype Fetched = Fetched(id: int, skipReason: Option<string>, attempts: Option<nat>)

  // What happens to a row in a cycle, as far as the code cannot decide it: whether the bookkeeping
  // write (skip mark or dead letter) raises, and how its handler ends.
  datatype Ending =
    | StaleClaim(ended: bool) // the claim is refused, because another has ended the row or while it stays open
    | BeginRaised             // the claim fails for another reason
    | LateStale               // claimed, and the extraction then reports the row as no longer available
    | Raised                  // claimed, and the extraction raises or does not store
    | Stored                  // claimed and stored
  datatype Event = Event(writeRaises: bool, ending: Ending)

  // The store's view of a row. reached counts calls of the extractor.
  datatype RowState = RowState(begun: nat, terminal: bool, reached: nat)

  // How a row leaves the lane.
  datatype Fate = Skipped | SkipRaised | Dead | DeadRaised | Stale | Ended | Relinquished | Unclaimed | Failed | Done

  datatype Stats = Stats(fetched: nat, attempted: nat, processed: nat, failed: nat, deadLettered: nat, skipped: nat)

  // attempts = int(row_value(row, "extraction_attempts", retry_counts.get(id, 0)) or 0)
  function Attempts(f: Fetched, retry: map<int, nat>): (n: nat)
  {
    if f.attempts.Some? then f.attempts.value else if f.id in retry then retry[f.id] else 0
  }

  predicate Extractable(f: Fetched, retry: map<int, nat>, maxRetries: nat)
  {
    f.skipReason.None? && Attempts(f, retry) < maxRetries
  }

  function FateOf(f: Fetched, e: Event, retry: map<int, nat>, maxRetries: nat): (fate: Fate)
  {
    if f.skipReason.Some? then (if e.writeRaises then SkipRaised else Skipped)
    else if Attempts(f, retry) >= maxRetries then (if e.writeRaises then DeadRaised else Dead)
    else match e.ending
      case StaleClaim(ended) => if ended then Ended else Stale
      case BeginRaised => Unclaimed
      case LateStale => Relinquished
      case Raised => Failed
      case Stored => Done
  }

  // What becomes of the row itself, and of its in-memory failure count: dropped on success and on a
  // stale claim, one more on failure.
  function Handled(r: RowState, fate: Fate): (r': RowState)
  {
    match fate
    case Skipped => r.(terminal := true)
    case Dead => r.(terminal := true)
    case Ended => r.(terminal := true)
    case Relinquished => r.(begun := r.begun + 1, reached := r.reached + 1)
    case Failed => r.(begun := r.begun + 1, reached := r.reached + 1)
    case Done => RowState(r.begun + 1, true, r.reached + 1)
    case _ => r
  }

  function Recounted(retry: map<int, nat>, f: Fetched, fate: Fate): (retry': map<int, nat>)
  {
    match fate
    case Unclaimed => retry[f.id := Attempts(f, retry) + 1]
    case Failed => retry[f.id := Attempts(f, retry) + 1]
    case Stale => retry - {f.id}
    case Ended => retry - {f.id}
    case Relinquished => retry - {f.id}
    case Done => retry - {f.id}
    case _ => retry
  }

  predicate DistinctIds(rows: seq<Fetched>) { forall i, j :: 0 <= i < j < |rows| ==> rows[i].id != rows[j].id }

  // ----- The lane's counters as counts over the rows, in whatever order they are handled -----

  function Fates(rows: seq<Fetched>, events: seq<Event>, retry: map<int, nat>, maxRetries: nat): (fates: seq<Fate>)
    requires |rows| == |events|
  {
    seq(|rows|, i requires 0 <= i < |rows| => FateOf(rows[i], events[i], retry, maxRetries))
  }

  function Tally(fetched: nat, m: multiset<Fate>): (s: Stats)
  {
    Stats(fetched, m[Relinquished] + m[Failed] + m[Done], m[Done], m[SkipRaised] + m[Unclaimed] + m[Failed],
          m[Dead], m[Skipped] + m[Stale] + m[Ended] + m[Relinquished])
  }

  function LaneStats(fates: seq<Fate>): (s: Stats) { Tally(|fates|, multiset(fates)) }

  // The fates met at the first n places that are among the given ones.
  ghost function Met(fates: seq<Fate>, among: set<nat>, n: nat): (m: multiset<Fate>)
    requires n <= |fates|
  {
    if n == 0 then multiset{}
    else Met(fates, among, n - 1) + if n - 1 in among then multiset{fates[n - 1]} else multiset{}
  }

  lemma {:induction false} MetOneMore(fates: seq<Fate>, among: set<nat>, i: nat, n: nat)
    requires n <= |fates| && i < |fates| && i !in among
    ensures Met(fates, among + {i}, n) == Met(fates, among, n) + if i < n then multiset{fates[i]} else multiset{}
  {
    if n > 0 {
      MetOneMore(fates, among, i, n - 1);
      var all := among + {i};
      assert n - 1 in all <==> n - 1 == i || n - 1 in among;
      assert Met(fates, all, n) == Met(fates, all, n - 1) + if n - 1 in all then multiset{fates[n - 1]} else multiset{};
    }
  }

  lemma {:induction false} MetNone(fates: seq<Fate>, n: nat)
    requires n <= |fates|
    ensures Met(fates, {}, n) == multiset{}
  {
    if n > 0 { MetNone(fates, n - 1); }
  }

  lemma {:induction false} MetAll(fates: seq<Fate>, n: nat)
    requires n <= |fates|
    ensures Met(fates, Places(|fates|), n) == multiset(fates[..n])
  {
    if n > 0 {
      MetAll(fates, n - 1);
      assert fates[..n] == fates[..n - 1] + [fates[n - 1]];
    }
  }

  function Places(n: nat): (places: set<nat>)
    ensures forall i: nat :: i in places <==> i < n
  {
    if n == 0 then {} else Places(n - 1) + {n - 1}
  }

  // The places among the first n whose rows the screening ends.
  function Rejected(fetched: seq<Fetched>, n: nat, retry: map<int, nat>, maxRetries: nat): (places: set<nat>)
    requires n <= |fetched|
    ensures forall i: nat :: i in places <==> i < n && !Extractable(fetched[i], retry, maxRetries)
  {
    if n == 0 then {}
    else if Extractable(fetched[n - 1], retry, maxRetries) then Rejected(fetched, n - 1, retry, maxRetries)
    else Rejected(fetched, n - 1, retry, maxRetries) + {n - 1}
  }

  // The places of the others, in order.
  function Passed(fetched: seq<Fetched>, n: nat, retry: map<int, nat>, maxRetries: nat): (places: seq<nat>)
    requires n <= |fetched|
    ensures forall i: nat :: i in places <==> i < n && Extractable(fetched[i], retry, maxRetries)
  {
    if n == 0 then []
    else if Extractable(fetched[n - 1], retry, maxRetries) then Passed(fetched, n - 1, retry, maxRetries) + [n - 1]
    else Passed(fetched, n - 1, retry, maxRetries)
  }

  predicate SameAt(id: int, m: map<int, nat>, m': map<int, nat>)
  {
    (id in m <==> id in m') && (id in m ==> m[id] == m'[id])
  }

  // A fetched row and its count, before or after its handling.
  predicate Stands(f: Fetched, fate: Fate, handled: bool, retry0: map<int, nat>, retry: map<int, nat>,
                   rows0: map<int, RowState>, rows: map<int, RowState>)
  {
    && f.id in rows0 && f.id in rows
    && rows[f.id] == (if handled then Handled(rows0[f.id], fate) else rows0[f.id])
    && SameAt(f.id, retry, if handled then Recounted(retry0, f, fate) else retry0)
  }

  predicate Untouched(id: int, retry0: map<int, nat>, retry: map<int, nat>, rows0: map<int, RowState>,
                      rows: map<int, RowState>)
  {
    SameAt(id, retry, retry0) && (id in rows <==> id in rows0) && (id in rows ==> rows[id] == rows0[id])
  }

  predicate Fetches(fetched: seq<Fetched>, id: int) { exists i :: 0 <= i < |fetched| && fetched[i].id == id }

  // The handled rows have their fate behind them; the others are untouched.
  ghost predicate Midway(fetched: seq<Fetched>, fates: seq<Fate>, among: set<nat>, retry0: map<int, nat>,
                         retry: map<int, nat>, rows0: map<int, RowState>, rows: map<int, RowState>)
    requires |fates| == |fetched|
  {
    && rows.Keys == rows0.Keys
    && (forall i: nat :: i < |fetched| ==> Stands(fetched[i], fates[i], i in among, retry0, retry, rows0, rows))
    && (forall id :: !Fetches(fetched, id) ==> Untouched(id, retry0, retry, rows0, rows))
  }

  // Handling a row leaves every other one as it stood.
  lemma OtherStands(f: Fetched, fate: Fate, handled: bool, g: Fetched, gate: Fate, retry0: map<int, nat>,
                    retry: map<int, nat>, rows0: map<int, RowState>, rows: map<int, RowState>)
    requires g.id != f.id && g.id in rows && Stands(f, fate, handled, retry0, retry, rows0, rows)
    ensures Stands(f, fate, handled, retry0, Recounted(retry, g, gate), rows0, rows[g.id := Handled(rows[g.id], gate)])
  {
  }

  lemma NowStands(f: Fetched, fate: Fate, retry0: map<int, nat>, retry: map<int, nat>,
                  rows0: map<int, RowState>, rows: map<int, RowState>)
    requires Stands(f, fate, false, retry0, retry, rows0, rows)
    ensures Stands(f, fate, true, retry0, Recounted(retry, f, fate), rows0, rows[f.id := Handled(rows[f.id], fate)])
  {
  }

  lemma MidwayStep(fetched: seq<Fetched>, fates: seq<Fate>, among: set<nat>, i: nat, retry0: map<int, nat>,
                   retry: map<int, nat>, retry': map<int, nat>, rows0: map<int, RowState>, rows: map<int, RowState>)
    requires |fates| == |fetched| && DistinctIds(fetched) && i < |fetched| && i !in among
    requires Midway(fetched, fates, among, retry0, retry, rows0, rows)
    requires retry' == Recounted(retry, fetched[i], fates[i])
    ensures Midway(fetched, fates, among + {i}, retry0, retry', rows0,
                   rows[fetched[i].id := Handled(rows[fetched[i].id], fates[i])])
  {
    var f, fate := fetched[i], fates[i];
    var rows' := rows[f.id := Handled(rows[f.id], fate)];
    forall j: nat | j < |fetched|
      ensures Stands(fetched[j], fates[j], j in among + {i}, retry0, retry', rows0, rows')
    {
      if j == i {
        NowStands(f, fate, retry0, retry, rows0, rows);
      } else {
        OtherStands(fetched[j], fates[j], j in among, f, fate, retry0, retry, rows0, rows);
      }
    }
    assert forall id :: !Fetches(fetched, id) ==> id != f.id && Untouched(id, retry0, retry, rows0, rows);
  }

  // The lane with some of its rows behind it.
  ghost predicate Reached(fetched: seq<Fetched>, fates: seq<Fate>, among: set<nat>, stats: Stats, retry0: map<int, nat>,
                          retry: map<int, nat>, rows0: map<int, RowState>, rows: map<int, RowState>)
    requires |fates| == |fetched|
  {
    stats == Tally(|fates|, Met(fates, among, |fates|)) && Midway(fetched, fates, among, retry0, retry, rows0, rows)
  }

  lemma NoneReached(fetched: seq<Fetched>, fates: seq<Fate>, retry: map<int, nat>, rows: map<int, RowState>)
    requires |fates| == |fetched| && forall i :: 0 <= i < |fetched| ==> fetched[i].id in rows
    ensures Reached(fetched, fates, {}, Stats(|fates|, 0, 0, 0, 0, 0), retry, retry, rows, rows)
  {
    MetNone(fates, |fates|);
  }

  // The worker: its store of rows, its in-memory failure counts, and the retry limit.
  class Worker {
    const maxRetries: nat
    var rows: map<int, RowState>
    var retry: map<int, nat>

    constructor (maxRetries: nat, rows: map<int, RowState>)
      ensures this.maxRetries == maxRetries && this.rows == rows && retry == map[]
    {
      this.maxRetries := maxRetries;
      this.rows := rows;
      retry := map[];
    }

    // The screening of one row: either it is done with, or it goes to the handlers.
    method ScreenRow(row: Fetched, event: Event, stats: Stats) returns (stats': Stats, extract: bool)
      requires row.id in rows
      modifies this
      ensures extract == Extractable(row, old(retry), maxRetries) && retry == old(retry)
      ensures extract ==> stats' == stats && rows == old(rows)
      ensures var fate := FateOf(row, event, retry, maxRetries);
              !extract ==>
                && rows == old(rows)[row.id := Handled(old(rows)[row.id], fate)]
                && forall m :: stats == Tally(stats.fetched, m) ==> stats' == Tally(stats.fetched, m + multiset{fate})
    {
      stats', extract := stats, false;
      if row.skipReason.Some? {
        if event.writeRaises {
          stats' := stats.(failed := stats.failed + 1);
        } else {
          rows := rows[row.id := rows[row.id].(terminal := true)];
          stats' := stats.(skipped := stats.skipped + 1);
        }
      } else if Attempts(row, retry) >= maxRetries {
        if !event.writeRaises {
          rows := rows[row.id := rows[row.id].(terminal := true)];
          stats' := stats.(deadLettered := stats.deadLettered + 1);
        }
      } else {
        extract := true;
      }
      assert rows == old(rows)[row.id := rows[row.id]];
    }

    // The handler of one row.
    method HandleRow(row: Fetched, event: Event, stats: Stats) returns (stats': Stats)
      requires row.id in rows && Extractable(row, retry, maxRetries)
      modifies this
      ensures var fate := FateOf(row, event, old(retry), maxRetries);
              && rows == old(rows)[row.id := Handled(old(rows)[row.id], fate)]
              && retry == Recounted(old(retry), row, fate)
              && forall m :: stats == Tally(stats.fetched, m) ==> stats' == Tally(stats.fetched, m + multiset{fate})
    {
      stats' := stats;
      var attempts := Attempts(row, retry);
      if event.ending.LateStale? || event.ending.Raised? || event.ending.Stored? {
        rows := rows[row.id := rows[row.id].(begun := rows[row.id].begun + 1, reached := rows[row.id].reached + 1)];
        stats' := stats'.(attempted := stats'.attempted + 1);
      }
      if event.ending.Stored? {
        rows := rows[row.id := rows[row.id].(terminal := true)];
        stats' := stats'.(processed := stats'.processed + 1);
        retry := retry - {row.id};
      } else if event.ending.StaleClaim? || event.ending.LateStale? {
        // The other one's mark shows in the store from here on.
        if event.ending.StaleClaim? && event.ending.ended { rows := rows[row.id := rows[row.id].(terminal := true)]; }
        stats' := stats'.(skipped := stats'.skipped + 1);
        retry := retry - {row.id};
      } else {
        retry := retry[row.id := attempts + 1];
        stats' := stats'.(failed := stats'.failed + 1);
      }
      assert rows == old(rows)[row.id := rows[row.id]];
    }

    // Both of them as steps of the lane.
    method ScreenNext(fetched: seq<Fetched>, events: seq<Event>, n: nat, stats: Stats, ghost fates: seq<Fate>,
                      ghost rows0: map<int, RowState>) returns (stats': Stats, extract: bool)
      requires |events| == |fetched| && DistinctIds(fetched) && n < |fetched|
      requires fates == Fates(fetched, events, retry, maxRetries)
      requires Reached(fetched, fates, Rejected(fetched, n, retry, maxRetries), stats, retry, retry, rows0, rows)
      modifies this
      ensures retry == old(retry) && extract == Extractable(fetched[n], retry, maxRetries)
      ensures Reached(fetched, fates, Rejected(fetched, n + 1, retry, maxRetries), stats', retry, retry, rows0, rows)
    {
      ghost var was := rows;
      ghost var done := Rejected(fetched, n, retry, maxRetries);
      stats', extract := ScreenRow(fetched[n], events[n], stats);
      if !extract {
        MetOneMore(fates, done, n, |fates|);
        MidwayStep(fetched, fates, done, n, retry, retry, retry, rows0, was);
      }
    }

    method HandleNext(fetched: seq<Fetched>, events: seq<Event>, i: nat, stats: Stats, ghost fates: seq<Fate>,
                      ghost done: set<nat>, ghost retry0: map<int, nat>, ghost rows0: map<int, RowState>)
      returns (stats': Stats)
      requires |events| == |fetched| && DistinctIds(fetched) && i < |fetched| && i !in done
      requires fates == Fates(fetched, events, retry0, maxRetries) && Extractable(fetched[i], retry0, maxRetries)
      requires Reached(fetched, fates, done, stats, retry0, retry, rows0, rows)
      modifies this
      ensures Reached(fetched, fates, done + {i}, stats', retry0, retry, rows0, rows)
    {
      ghost var was, before := rows, retry;
      stats' := HandleRow(fetched[i], events[i], stats);
      MetOneMore(fates, done, i, |fates|);
      MidwayStep(fetched, fates, done, i, retry0, before, retry, rows0, was);
    }

    method ScreenRows(fetched: seq<Fetched>, events: seq<Event>) returns (stats: Stats, extractable: seq<nat>)
      requires |events| == |fetched| && DistinctIds(fetched)
      requires forall i :: 0 <= i < |fetched| ==> fetched[i].id in rows
      modifies this
      ensures retry == old(retry) && extractable == Passed(fetched, |fetched|, retry, maxRetries)
      ensures Reached(fetched, Fates(fetched, events, retry, maxRetries),
                      Rejected(fetched, |fetched|, retry, maxRetries),
                      stats, retry, retry, old(rows), rows)
    {
      ghost var fates := Fates(fetched, events, retry, maxRetries);
      stats, extractable := Stats(|fetched|, 0, 0, 0, 0, 0), [];
      NoneReached(fetched, fates, retry, rows);
      var n := 0;
      while n < |fetched|
        invariant n <= |fetched| && retry == old(retry) && extractable == Passed(fetched, n, retry, maxRetries)
        invariant Reached(fetched, fates, Rejected(fetched, n, retry, maxRetries), stats, retry, retry, old(rows), rows)
      {
        var extract;
        stats, extract := ScreenNext(fetched, events, n, stats, fates, old(rows));
        if extract { extractable := extractable + [n]; }
        n := n + 1;
      }
    }

    // The pool may finish the handlers in any order.
    method HandleRows(fetched: seq<Fetched>, events: seq<Event>, order: seq<nat>, stats0: Stats,
                      ghost fates: seq<Fate>, ghost done: set<nat>, ghost rows0: map<int, RowState>)
      returns (stats: Stats)
      requires |events| == |fetched| && DistinctIds(fetched)
      requires fates == Fates(fetched, events, retry, maxRetries)
      requires Reached(fetched, fates, done, stats0, retry, retry, rows0, rows)
      requires forall j, k :: 0 <= j < k < |order| ==> order[j] != order[k]
      requires forall i: nat :: i in order ==> i < |fetched| && Extractable(fetched[i], retry, maxRetries) && i !in done
      modifies this
      ensures Reached(fetched, fates, done + (set i | i in order), stats, old(retry), retry, rows0, rows)
    {
      stats := stats0;
      var n := 0;
      ghost var among := done;
      while n < |order|
        invariant n <= |order|
        invariant among == done + set i | i in order[..n]
        invariant Reached(fetched, fates, among, stats, old(retry), retry, rows0, rows)
      {
        assert order[n] in order && order[n] !in among;
        assert order[..n + 1] == order[..n] + [order[n]];
        stats := HandleNext(fetched, events, order[n], stats, fates, among, old(retry), rows0);
        among := among + {order[n]};
        n := n + 1;
      }
      assert order[..n] == order;
    }

    // The lane: screen every row in turn, then hand the rest to the handlers, batch by batch.
    // schedule is the order in which the pool gets through them: any arrangement of the rows.
    method ProcessLane(fetched: seq<Fetched>, events: seq<Event>, schedule: seq<nat>) returns (stats: Stats)
      requires |events| == |fetched| && DistinctIds(fetched)
      requires forall i :: 0 <= i < |fetched| ==> fetched[i].id in rows
      requires forall j, k :: 0 <= j < k < |schedule| ==> schedule[j] != schedule[k]
      requires forall i: nat :: i in schedule <==> i < |fetched| && Extractable(fetched[i], retry, maxRetries)
      modifies this
      ensures var fates := Fates(fetched, events, old(retry), maxRetries);
              && stats == LaneStats(fates)
              && Snapshot(rows, retry) == HandledTo(Snapshot(old(rows), old(retry)), fetched, fates, |fetched|)
    {
      ghost var fates, done := Fates(fetched, events, retry, maxRetries),
          Rejected(fetched, |fetched|, retry, maxRetries);
      ghost var rows0, retry0 := rows, retry;
      var extractable;
      stats, extractable := ScreenRows(fetched, events);
      stats := HandleRows(fetched, events, schedule, stats, fates, done, rows0);
      assert done + (set i | i in schedule) == Places(|fetched|);
      MetAll(fates, |fates|);
      assert fates[..|fates|] == fates;
      var was := Snapshot(rows0, retry0);
      HandledToIsMidway(was, fetched, fates, |fetched|);
      MidwayIsOne(fetched, fates, Places(|fetched|), was, Snapshot(rows, retry),
                  HandledTo(was, fetched, fates, |fetched|));
    }

    // The lane over rows that the store's fetch handed out, whatever the pool's order.
    method LaneTurn(fetched: seq<Fetched>, events: seq<Event>, schedule: seq<nat>, ghost counted: bool)
      returns (stats: Stats)
      requires |events| == |fetched| && Fetchable(Snapshot(rows, retry), fetched, counted)
      requires forall j, k :: 0 <= j < k < |schedule| ==> schedule[j] != schedule[k]
      requires forall i: nat :: i in schedule <==> i < |fetched| && Extractable(fetched[i], retry, maxRetries)
      modifies this
      ensures Snapshot(rows, retry)
           == Turned(Snapshot(old(rows), old(retry)), LaneRun(fetched, events), counted, maxRetries)
      ensures stats == LaneStats(Fates(fetched, events, old(retry), maxRetries))
    {
      stats := ProcessLane(fetched, events, schedule);
    }
  }

  // ----- Accounting -----

  lemma {:induction false} KindsSplit(fates: seq<Fate>, n: nat)
    requires n <= |fates|
    ensures var m := multiset(fates[..n]);
            && m[Skipped] + m[SkipRaised] + m[Dead] + m[DeadRaised] + m[Stale] + m[Ended] + m[Relinquished] +
               m[Unclaimed]
               + m[Failed] + m[Done] == n
  {
    if n > 0 {
      KindsSplit(fates, n - 1);
      assert fates[..n] == fates[..n - 1] + [fates[n - 1]];
      match fates[n - 1] case Skipped => case SkipRaised => case Dead => case DeadRaised => case Stale => case Ended =>
        case Relinquished => case Unclaimed => case Failed => case Done =>
    }
  }

  // The cycle's counters add up to what was fetched exactly when no dead-letter write raised: that
  // exception is swallowed and the row is counted nowhere.
  lemma LaneAddsUpIff(fates: seq<Fate>)
    ensures var s := LaneStats(fates);
            && s.processed <= s.attempted <= s.processed + s.failed + s.skipped
            && (s.fetched == s.processed + s.failed + s.skipped + s.deadLettered <==> DeadRaised !in fates)
  {
    KindsSplit(fates, |fates|);
    assert fates[..|fates|] == fates;
  }

  // ----- Any sequence of cycles and restarts -----

  // What stays between lanes: the store's rows and the worker's in-memory counts.
  datatype Snapshot = Snapshot(rows: map<int, RowState>, retry: map<int, nat>)

  function Handling(s: Snapshot, f: Fetched, fate: Fate): (s': Snapshot)
    requires f.id in s.rows
  {
    Snapshot(s.rows[f.id := Handled(s.rows[f.id], fate)], Recounted(s.retry, f, fate))
  }

  // The first n fetched rows meet their fates in turn.
  function HandledTo(s: Snapshot, fetched: seq<Fetched>, fates: seq<Fate>, n: nat): (s': Snapshot)
    requires n <= |fates| == |fetched| && forall i :: 0 <= i < |fetched| ==> fetched[i].id in s.rows
    ensures s'.rows.Keys == s.rows.Keys
  {
    if n == 0 then s else Handling(HandledTo(s, fetched, fates, n - 1), fetched[n - 1], fates[n - 1])
  }

  lemma {:induction false} HandledToIsMidway(s: Snapshot, fetched: seq<Fetched>, fates: seq<Fate>, n: nat)
    requires n <= |fates| == |fetched| && DistinctIds(fetched)
    requires forall i :: 0 <= i < |fetched| ==> fetched[i].id in s.rows
    ensures var s' := HandledTo(s, fetched, fates, n);
            Midway(fetched, fates, Places(n), s.retry, s'.retry, s.rows, s'.rows)
  {
    if n > 0 {
      HandledToIsMidway(s, fetched, fates, n - 1);
      var before := HandledTo(s, fetched, fates, n - 1);
      MidwayStep(fetched, fates, Places(n - 1), n - 1, s.retry, before.retry,
                 HandledTo(s, fetched, fates, n).retry, s.rows, before.rows);
    }
  }

  lemma SameRetry(a: map<int, nat>, b: map<int, nat>)
    requires forall id :: SameAt(id, a, b)
    ensures a == b
  {
    forall id: int ensures (id in a <==> id in b) && (id in a ==> a[id] == b[id]) {
      assert SameAt(id, a, b);
    }
  }

  lemma MidwayAt(fetched: seq<Fetched>, fates: seq<Fate>, among: set<nat>, s: Snapshot, a: Snapshot, b: Snapshot,
                 id: int)
    requires |fates| == |fetched|
    requires Midway(fetched, fates, among, s.retry, a.retry, s.rows, a.rows)
    requires Midway(fetched, fates, among, s.retry, b.retry, s.rows, b.rows)
    ensures SameAt(id, a.retry, b.retry) && (id in s.rows ==> a.rows[id] == b.rows[id])
  {
    if Fetches(fetched, id) {
      var i: nat :| i < |fetched| && fetched[i].id == id;
      assert Stands(fetched[i], fates[i], i in among, s.retry, a.retry, s.rows, a.rows);
      assert Stands(fetched[i], fates[i], i in among, s.retry, b.retry, s.rows, b.rows);
    } else {
      assert Untouched(id, s.retry, a.retry, s.rows, a.rows) && Untouched(id, s.retry, b.retry, s.rows, b.rows);
    }
  }

  // What is midway is settled by the rows that are handled.
  lemma MidwayIsOne(fetched: seq<Fetched>, fates: seq<Fate>, among: set<nat>, s: Snapshot, a: Snapshot, b: Snapshot)
    requires |fates| == |fetched|
    requires Midway(fetched, fates, among, s.retry, a.retry, s.rows, a.rows)
    requires Midway(fetched, fates, among, s.retry, b.retry, s.rows, b.rows)
    ensures a == b
  {
    forall id ensures SameAt(id, a.retry, b.retry) { MidwayAt(fetched, fates, among, s, a, b, id); }
    SameRetry(a.retry, b.retry);
    forall id | id in s.rows ensures a.rows[id] == b.rows[id] { MidwayAt(fetched, fates, among, s, a, b, id); }
    assert a.rows == b.rows;
  }

  // One lane's run over the rows fetched for it, or a restart, which clears the memory.
  datatype Turn = LaneRun(fetched: seq<Fetched>, events: seq<Event>) | Restart

  // The store's fetch hands out its rows that are not terminal, each once. counted says that they
  // carry the number of their begun attempts; the rows of the typed store do not.
  predicate Fetchable(s: Snapshot, fetched: seq<Fetched>, counted: bool)
  {
    && DistinctIds(fetched)
    && forall i :: 0 <= i < |fetched| ==>
         && fetched[i].id in s.rows && !s.rows[fetched[i].id].terminal
         && fetched[i].attempts == if counted then Some(s.rows[fetched[i].id].begun) else None
  }

  predicate Possible(s: Snapshot, turn: Turn, counted: bool)
  {
    turn.LaneRun? ==> |turn.events| == |turn.fetched| && Fetchable(s, turn.fetched, counted)
  }

  function Turned(s: Snapshot, turn: Turn, counted: bool, maxRetries: nat): (s': Snapshot)
    requires Possible(s, turn, counted)
    ensures s'.rows.Keys == s.rows.Keys
  {
    match turn
    case Restart => s.(retry := map[])
    case LaneRun(fetched, events) =>
      HandledTo(s, fetched, Fates(fetched, events, s.retry, maxRetries), |fetched|)
  }

  predicate Run(s: Snapshot, turns: seq<Turn>, counted: bool, maxRetries: nat)
    decreases |turns|
  {
    turns == [] ||
    (Possible(s, turns[0], counted) && Run(Turned(s, turns[0], counted, maxRetries), turns[1..], counted, maxRetries))
  }

  function EndOf(s: Snapshot, turns: seq<Turn>, counted: bool, maxRetries: nat): (s': Snapshot)
    requires Run(s, turns, counted, maxRetries)
    ensures s'.rows.Keys == s.rows.Keys
    decreases |turns|
  {
    if turns == [] then s else EndOf(Turned(s, turns[0], counted, maxRetries), turns[1..], counted, maxRetries)
  }

  lemma RowHandled(s: Snapshot, fetched: seq<Fetched>, events: seq<Event>, counted: bool, maxRetries: nat, i: nat)
    requires Possible(s, LaneRun(fetched, events), counted) && i < |fetched|
    ensures var s', f := Turned(s, LaneRun(fetched, events), counted, maxRetries), fetched[i];
            var fate := FateOf(f, events[i], s.retry, maxRetries);
            s'.rows[f.id] == Handled(s.rows[f.id], fate) && SameAt(f.id, s'.retry, Recounted(s.retry, f, fate))
  {
    var fates := Fates(fetched, events, s.retry, maxRetries);
    var s' := HandledTo(s, fetched, fates, |fetched|);
    HandledToIsMidway(s, fetched, fates, |fetched|);
    assert Stands(fetched[i], fates[i], i in Places(|fetched|), s.retry, s'.retry, s.rows, s'.rows);
  }

  lemma RowLeft(s: Snapshot, fetched: seq<Fetched>, events: seq<Event>, counted: bool, maxRetries: nat, id: int)
    requires Possible(s, LaneRun(fetched, events), counted) && id in s.rows && !Fetches(fetched, id)
    ensures var s' := Turned(s, LaneRun(fetched, events), counted, maxRetries);
            s'.rows[id] == s.rows[id] && SameAt(id, s'.retry, s.retry)
  {
    var fates := Fates(fetched, events, s.retry, maxRetries);
    var s' := HandledTo(s, fetched, fates, |fetched|);
    HandledToIsMidway(s, fetched, fates, |fetched|);
    assert Untouched(id, s.retry, s'.retry, s.rows, s'.rows);
  }

  lemma TerminalIsLeft(s: Snapshot, turn: Turn, counted: bool, maxRetries: nat, id: int)
    requires Possible(s, turn, counted) && id in s.rows && s.rows[id].terminal
    ensures Turned(s, turn, counted, maxRetries).rows[id] == s.rows[id]
  {
    if turn.LaneRun? { RowLeft(s, turn.fetched, turn.events, counted, maxRetries, id); }
  }

  // A row that was skipped, dead-lettered or stored keeps its state for good: the fetch never hands
  // it to a lane again.
  lemma {:induction false} TerminalRowsStay(s: Snapshot, turns: seq<Turn>, counted: bool, maxRetries: nat, id: int)
    requires Run(s, turns, counted, maxRetries) && id in s.rows && s.rows[id].terminal
    ensures EndOf(s, turns, counted, maxRetries).rows[id] == s.rows[id]
    decreases |turns|
  {
    if turns != [] {
      TerminalIsLeft(s, turns[0], counted, maxRetries, id);
      TerminalRowsStay(Turned(s, turns[0], counted, maxRetries), turns[1..], counted, maxRetries, id);
    }
  }

  // ----- What a lane does to a row, and what it counts, told from the row and its event -----

  // A row goes to the extractor unless it has a reason to be skipped or has used up its attempts, by its
  // own count or else by the worker's.
  predicate Admitted(s: Snapshot, f: Fetched, counted: bool, maxRetries: nat)
    requires f.id in s.rows
  {
    f.skipReason.None? && Used(s, f.id, counted) < maxRetries
  }

  function Used(s: Snapshot, id: int, counted: bool): (n: nat)
    requires id in s.rows
  {
    if counted then s.rows[id].begun else if id in s.retry then s.retry[id] else 0
  }

  predicate Extracts(e: Ending) { e == LateStale || e == Raised || e == Stored }

  // The row ends here: a screened one by the write that marks it, another by being stored or by the
  // claim finding it ended.
  predicate EndsHere(s: Snapshot, f: Fetched, e: Event, counted: bool, maxRetries: nat)
    requires f.id in s.rows
  {
    if Admitted(s, f, counted, maxRetries) then e.ending == Stored || e.ending == StaleClaim(true) else !e.writeRaises
  }

  // What a lane leaves of a fetched row.
  lemma RowTurned(s: Snapshot, fetched: seq<Fetched>, events: seq<Event>, counted: bool, maxRetries: nat, i: nat)
    requires Possible(s, LaneRun(fetched, events), counted) && i < |fetched|
    ensures var f, e := fetched[i], events[i];
            var s' := Turned(s, LaneRun(fetched, events), counted, maxRetries);
            var r, r' := s.rows[f.id], s'.rows[f.id];
            var open := Admitted(s, f, counted, maxRetries);
            var more := if open && Extracts(e.ending) then 1 else 0;
            && !r.terminal && (r'.terminal <==> EndsHere(s, f, e, counted, maxRetries))
            && r'.reached == r.reached + more && r'.begun == r.begun + more
            && (if !open then SameAt(f.id, s'.retry, s.retry)
                else if e.ending == Raised || e.ending == BeginRaised then
                  f.id in s'.retry && s'.retry[f.id] == Used(s, f.id, counted) + 1
                else f.id !in s'.retry)
  {
    RowHandled(s, fetched, events, counted, maxRetries, i);
  }

  // The row with this id is skipped, dead-lettered, stored or found ended in this turn.
  predicate EndsIn(s: Snapshot, turn: Turn, id: int, counted: bool, maxRetries: nat)
    requires Possible(s, turn, counted)
  {
    turn.LaneRun? &&
    exists i :: 0 <= i < |turn.fetched| && turn.fetched[i].id == id &&
                EndsHere(s, turn.fetched[i], turn.events[i], counted, maxRetries)
  }

  // In how many turns it is.
  function EndingTurns(s: Snapshot, turns: seq<Turn>, id: int, counted: bool, maxRetries: nat): (n: nat)
    requires Run(s, turns, counted, maxRetries)
    decreases |turns|
  {
    if turns == [] then 0 else
    (if EndsIn(s, turns[0], id, counted, maxRetries) then 1 else 0)
    + EndingTurns(Turned(s, turns[0], counted, maxRetries), turns[1..], id, counted, maxRetries)
  }

  lemma TurnEndsIff(s: Snapshot, turn: Turn, id: int, counted: bool, maxRetries: nat)
    requires Possible(s, turn, counted) && id in s.rows
    ensures var before, after := s.rows[id].terminal, Turned(s, turn, counted, maxRetries).rows[id].terminal;
            (EndsIn(s, turn, id, counted, maxRetries) <==> !before && after) && (before ==> after)
  {
    if turn.LaneRun? {
      if Fetches(turn.fetched, id) {
        var i: nat :| i < |turn.fetched| && turn.fetched[i].id == id;
        RowTurned(s, turn.fetched, turn.events, counted, maxRetries, i);
        assert forall j :: 0 <= j < |turn.fetched| && turn.fetched[j].id == id ==> j == i;
      } else {
        RowLeft(s, turn.fetched, turn.events, counted, maxRetries, id);
      }
    }
  }

  // Over any run a row is skipped, dead-lettered or stored at most once in all, and a row that was open
  // exactly once if it is terminal in the end.
  lemma {:induction false} RowsEndOnce(s: Snapshot, turns: seq<Turn>, id: int, counted: bool, maxRetries: nat)
    requires Run(s, turns, counted, maxRetries) && id in s.rows
    ensures EndingTurns(s, turns, id, counted, maxRetries) ==
            if !s.rows[id].terminal && EndOf(s, turns, counted, maxRetries).rows[id].terminal then 1 else 0
    decreases |turns|
  {
    if turns != [] {
      var next := Turned(s, turns[0], counted, maxRetries);
      TurnEndsIff(s, turns[0], id, counted, maxRetries);
      RowsEndOnce(next, turns[1..], id, counted, maxRetries);
      if next.rows[id].terminal { TerminalRowsStay(next, turns[1..], counted, maxRetries, id); }
    }
  }

  function PlacesOf(fates: seq<Fate>, x: Fate, n: nat): (places: set<nat>)
    requires n <= |fates|
  {
    set i: nat | i < n && fates[i] == x
  }

  lemma {:induction false} PlacesCount(fates: seq<Fate>, x: Fate, n: nat)
    requires n <= |fates|
    ensures |PlacesOf(fates, x, n)| == multiset(fates[..n])[x]
  {
    if n == 0 {
      assert PlacesOf(fates, x, n) == {};
    } else {
      PlacesCount(fates, x, n - 1);
      assert fates[..n] == fates[..n - 1] + [fates[n - 1]];
      assert PlacesOf(fates, x, n) == PlacesOf(fates, x, n - 1) + (if fates[n - 1] == x then {n - 1} else {});
    }
  }

  // The places of one more fate.
  lemma MoreKinds(fates: seq<Fate>, x: Fate, rest: set<nat>, all: set<nat>)
    requires rest !! PlacesOf(fates, x, |fates|) && all == rest + PlacesOf(fates, x, |fates|)
    ensures |all| == |rest| + multiset(fates)[x]
  {
    PlacesCount(fates, x, |fates|);
    assert fates[..|fates|] == fates;
  }

  datatype Counter = Attempted | Processed | Failing | DeadLettered | Skipping

  // Whether a counter is meant to count a row, told from the row and its event.
  predicate Counts(c: Counter, f: Fetched, e: Event, retry: map<int, nat>, maxRetries: nat)
  {
    var left := Attempts(f, retry) < maxRetries;
    match c
    case Attempted => f.skipReason.None? && left && Extracts(e.ending)
    case Processed => f.skipReason.None? && left && e.ending.Stored?
    case Failing =>
      if f.skipReason.Some? then e.writeRaises else left && (e.ending.BeginRaised? || e.ending.Raised?)
    case DeadLettered => f.skipReason.None? && !left && !e.writeRaises
    case Skipping =>
      if f.skipReason.Some? then !e.writeRaises else left && (e.ending.StaleClaim? || e.ending.LateStale?)
  }

  // The places of the rows that are counted.
  function Counted(c: Counter, fetched: seq<Fetched>, events: seq<Event>, retry: map<int, nat>, maxRetries: nat)
    : (s: set<nat>)
    requires |events| == |fetched|
  {
    set i: nat | i < |fetched| && Counts(c, fetched[i], events[i], retry, maxRetries)
  }

  function KindsOf(c: Counter): (kinds: set<Fate>)
  {
    match c
    case Attempted => {Relinquished, Failed, Done}
    case Processed => {Done}
    case Failing => {SkipRaised, Unclaimed, Failed}
    case DeadLettered => {Dead}
    case Skipping => {Skipped, Stale, Ended, Relinquished}
  }

  lemma CountsIsKind(c: Counter, f: Fetched, e: Event, retry: map<int, nat>, maxRetries: nat)
    ensures Counts(c, f, e, retry, maxRetries) <==> FateOf(f, e, retry, maxRetries) in KindsOf(c)
  {
  }

  function PlacesIn(fates: seq<Fate>, kinds: set<Fate>): (places: set<nat>)
  {
    set i: nat | i < |fates| && fates[i] in kinds
  }

  lemma CountedIsPlaces(c: Counter, fetched: seq<Fetched>, events: seq<Event>, retry: map<int, nat>, maxRetries: nat)
    requires |events| == |fetched|
    ensures Counted(c, fetched, events, retry, maxRetries) ==
            PlacesIn(Fates(fetched, events, retry, maxRetries), KindsOf(c))
  {
    var fates := Fates(fetched, events, retry, maxRetries);
    forall i: nat ensures i in Counted(c, fetched, events, retry, maxRetries) <==> i in PlacesIn(fates, KindsOf(c)) {
      if i < |fetched| { CountsIsKind(c, fetched[i], events[i], retry, maxRetries); }
    }
  }

  lemma MorePlaces(fates: seq<Fate>, kinds: set<Fate>, x: Fate)
    requires x !in kinds
    ensures |PlacesIn(fates, kinds + {x})| == |PlacesIn(fates, kinds)| + multiset(fates)[x]
  {
    assert PlacesIn(fates, kinds + {x}) == PlacesIn(fates, kinds) + PlacesOf(fates, x, |fates|);
    MoreKinds(fates, x, PlacesIn(fates, kinds), PlacesIn(fates, kinds + {x}));
  }

  lemma OneKind(fates: seq<Fate>, x: Fate)
    ensures |PlacesIn(fates, {x})| == multiset(fates)[x]
  {
    assert PlacesIn(fates, {}) == {} && {} + {x} == {x};
    MorePlaces(fates, {}, x);
  }

  lemma ThreeKinds(fates: seq<Fate>, x: Fate, y: Fate, z: Fate)
    requires x != y && x != z && y != z
    ensures |PlacesIn(fates, {x, y, z})| == multiset(fates)[x] + multiset(fates)[y] + multiset(fates)[z]
  {
    OneKind(fates, x);
    MorePlaces(fates, {x}, y);
    MorePlaces(fates, {x} + {y}, z);
    assert {x} + {y} + {z} == {x, y, z};
  }

  lemma FourKinds(fates: seq<Fate>, x: Fate, y: Fate, z: Fate, u: Fate)
    requires x != y && x != z && y != z && u != x && u != y && u != z
    ensures |PlacesIn(fates, {x, y, z, u})| ==
            multiset(fates)[x] + multiset(fates)[y] + multiset(fates)[z] + multiset(fates)[u]
  {
    ThreeKinds(fates, x, y, z);
    MorePlaces(fates, {x, y, z}, u);
    assert {x, y, z} + {u} == {x, y, z, u};
  }

  // Each counter of a lane is the number of rows it is meant to count.
  lemma CountersAre(fetched: seq<Fetched>, events: seq<Event>, retry: map<int, nat>, maxRetries: nat)
    requires |events| == |fetched|
    ensures LaneStats(Fates(fetched, events, retry, maxRetries)) ==
            Stats(|fetched|, |Counted(Attempted, fetched, events, retry, maxRetries)|,
                  |Counted(Processed, fetched, events, retry, maxRetries)|,
                  |Counted(Failing, fetched, events, retry, maxRetries)|,
                  |Counted(DeadLettered, fetched, events, retry, maxRetries)|,
                  |Counted(Skipping, fetched, events, retry, maxRetries)|)
  {
    var fates := Fates(fetched, events, retry, maxRetries);
    forall c: Counter
      ensures Counted(c, fetched, events, retry, maxRetries) == PlacesIn(fates, KindsOf(c))
    {
      CountedIsPlaces(c, fetched, events, retry, maxRetries);
    }
    ThreeKinds(fates, Relinquished, Failed, Done);
    OneKind(fates, Done);
    ThreeKinds(fates, SkipRaised, Unclaimed, Failed);
    OneKind(fates, Dead);
    FourKinds(fates, Skipped, Stale, Ended, Relinquished);
  }

  // ----- How often a row reaches the extractor -----

  predicate Bounded(r: RowState, maxRetries: nat) { r.reached == r.begun <= maxRetries }

  lemma CountedTurnKeeps(s: Snapshot, turn: Turn, maxRetries: nat, id: int)
    requires Possible(s, turn, true) && id in s.rows && Bounded(s.rows[id], maxRetries)
    ensures Bounded(Turned(s, turn, true, maxRetries).rows[id], maxRetries)
  {
    if turn.LaneRun? {
      if Fetches(turn.fetched, id) {
        var i: nat :| i < |turn.fetched| && turn.fetched[i].id == id;
        RowHandled(s, turn.fetched, turn.events, true, maxRetries, i);
      } else {
        RowLeft(s, turn.fetched, turn.events, true, maxRetries, id);
      }
    }
  }

  // Where the fetched rows carry the store's count of begun attempts, every row reaches the extractor
  // at most maxRetries times, over any lane runs, failures, stale claims and restarts.
  lemma {:induction false} RetriesAreBounded(s: Snapshot, turns: seq<Turn>, maxRetries: nat)
    requires Run(s, turns, true, maxRetries) && forall id :: id in s.rows ==> Bounded(s.rows[id], maxRetries)
    ensures forall id :: id in s.rows ==> EndOf(s, turns, true, maxRetries).rows[id].reached <= maxRetries
    decreases |turns|
  {
    if turns != [] {
      var next := Turned(s, turns[0], true, maxRetries);
      forall id | id in s.rows ensures Bounded(next.rows[id], maxRetries) {
        CountedTurnKeeps(s, turns[0], maxRetries, id);
      }
      RetriesAreBounded(next, turns[1..], maxRetries);
    }
  }

  // What may disturb the in-memory counts: a restart of the process, an extraction that reports its
  // row as no longer available, and a claim refused although the row stays open.
  datatype Disturbance = Disturbance(restarts: bool, lateRefusals: bool, openRefusals: bool)

  predicate TurnWithin(turn: Turn, d: Disturbance)
  {
    match turn
    case Restart => d.restarts
    case LaneRun(_, events) =>
      forall i :: 0 <= i < |events| ==>
        && (events[i].ending.LateStale? ==> d.lateRefusals)
        && (events[i].ending == StaleClaim(false) ==> d.openRefusals)
  }

  predicate Within(turns: seq<Turn>, d: Disturbance) { forall t :: 0 <= t < |turns| ==> TurnWithin(turns[t], d) }

  // A row nobody has looked at yet, in a process that has just started.
  predicate Unseen(s: Snapshot)
  {
    s.retry == map[] && forall id :: id in s.rows ==> s.rows[id] == RowState(0, false, 0)
  }

  function Remembered(s: Snapshot, id: int): (n: nat) { if id in s.retry then s.retry[id] else 0 }

  // What one turn does to a row fetched without a count.
  lemma UncountedTurn(s: Snapshot, turn: Turn, maxRetries: nat, id: int) returns (fate: Option<Fate>)
    requires Possible(s, turn, false) && turn.LaneRun? && id in s.rows
    ensures var s' := Turned(s, turn, false, maxRetries);
            match fate
            case None => s'.rows[id] == s.rows[id] && Remembered(s', id) == Remembered(s, id)
            case Some(x) =>
              && s'.rows[id] == Handled(s.rows[id], x) && !s.rows[id].terminal
              && Remembered(s', id) == (match x
                 case Unclaimed => Remembered(s, id) + 1
                 case Failed => Remembered(s, id) + 1
                 case Stale => 0
                 case Ended => 0
                 case Relinquished => 0
                 case Done => 0
                 case _ => Remembered(s, id))
    ensures forall d :: TurnWithin(turn, d) && fate.Some? ==>
              (fate.value.Relinquished? ==> d.lateRefusals) && (fate.value.Stale? ==> d.openRefusals)
    ensures fate.Some? && Remembered(s, id) >= maxRetries ==>
              fate.value.Skipped? || fate.value.SkipRaised? || fate.value.Dead? || fate.value.DeadRaised?
  {
    if Fetches(turn.fetched, id) {
      var i: nat :| i < |turn.fetched| && turn.fetched[i].id == id;
      RowHandled(s, turn.fetched, turn.events, false, maxRetries, i);
      fate := Some(FateOf(turn.fetched[i], turn.events[i], s.retry, maxRetries));
    } else {
      RowLeft(s, turn.fetched, turn.events, false, maxRetries, id);
      fate := None;
    }
  }

  function Restarts(turns: seq<Turn>): (n: nat)
  {
    if turns == [] then 0 else (if turns[0].Restart? then 1 else 0) + Restarts(turns[1..])
  }

  // A row that has spent tries before the last restart, and since then those remembered.
  predicate Budgeted(s: Snapshot, id: int, spent: nat, maxRetries: nat)
    requires id in s.rows
  {
    && s.rows[id].reached <= spent + maxRetries
    && (!s.rows[id].terminal ==> s.rows[id].reached <= spent + Remembered(s, id) && Remembered(s, id) <= maxRetries)
  }

  lemma TurnIsBudgeted(s: Snapshot, turn: Turn, maxRetries: nat, id: int, spent: nat)
    requires Possible(s, turn, false) && TurnWithin(turn, Disturbance(true, false, false)) && id in s.rows
    requires Budgeted(s, id, spent, maxRetries)
    ensures Budgeted(Turned(s, turn, false, maxRetries), id,
                     if turn.Restart? then spent + maxRetries else spent, maxRetries)
  {
    if turn.LaneRun? { var fate := UncountedTurn(s, turn, maxRetries, id); }
  }

  lemma {:induction false} BudgetHolds(s: Snapshot, turns: seq<Turn>, maxRetries: nat, id: int, spent: nat)
    requires Run(s, turns, false, maxRetries) && Within(turns, Disturbance(true, false, false)) && id in s.rows
    requires Budgeted(s, id, spent, maxRetries)
    ensures EndOf(s, turns, false, maxRetries).rows[id].reached <= spent + Restarts(turns) * maxRetries + maxRetries
    decreases |turns|
  {
    if turns != [] {
      assert TurnWithin(turns[0], Disturbance(true, false, false)) &&
             Within(turns[1..], Disturbance(true, false, false));
      TurnIsBudgeted(s, turns[0], maxRetries, id, spent);
      var spent' := if turns[0].Restart? then spent + maxRetries else spent;
      BudgetHolds(Turned(s, turns[0], false, maxRetries), turns[1..], maxRetries, id, spent');
      OneMoreTimes(Restarts(turns[1..]), maxRetries);
    }
  }

  lemma OneMoreTimes(k: nat, m: nat)
    ensures (1 + k) * m == k * m + m && (0 + k) * m == k * m
  {
  }

  // Without counts on the fetched rows a restart reopens the retries: a row reaches the extractor at
  // most maxRetries times for every life of the process, when a claim is refused only for rows that
  // another has ended.
  lemma RetriesPerRestart(s: Snapshot, turns: seq<Turn>, maxRetries: nat, id: int)
    requires Unseen(s) && Run(s, turns, false, maxRetries) && id in s.rows
    requires Within(turns, Disturbance(true, false, false))
    ensures EndOf(s, turns, false, maxRetries).rows[id].reached <= (Restarts(turns) + 1) * maxRetries
  {
    BudgetHolds(s, turns, maxRetries, id, 0);
    OneMoreTimes(Restarts(turns), maxRetries);
  }

  function Alone(id: int, ending: Ending): (turn: Turn)
  {
    LaneRun([Fetched(id, None, None)], [Event(false, ending)])
  }

  lemma AloneTurn(s: Snapshot, id: int, ending: Ending, maxRetries: nat)
    requires id in s.rows && !s.rows[id].terminal
    ensures var f := Fetched(id, None, None);
            Possible(s, Alone(id, ending), false) &&
            Turned(s, Alone(id, ending), false, maxRetries)
              == Handling(s, f, FateOf(f, Event(false, ending), s.retry, maxRetries))
  {
    var turn := Alone(id, ending);
    var fates := Fates(turn.fetched, turn.events, s.retry, maxRetries);
    assert HandledTo(s, turn.fetched, fates, 0) == s;
  }

  // n failures in a row, of a row that may still fail that often.
  function Failures(id: int, n: nat): (turns: seq<Turn>)
    ensures Within(turns, Disturbance(false, false, false))
  {
    if n == 0 then [] else [Alone(id, Raised)] + Failures(id, n - 1)
  }

  // The row is open and has been sent to the extractor so often.
  predicate Open(s: Snapshot, id: int, reached: nat)
  {
    id in s.rows && !s.rows[id].terminal && s.rows[id].reached == reached
  }

  lemma {:induction false} FailuresReach(s: Snapshot, id: int, n: nat, maxRetries: nat, reached: nat)
    requires Open(s, id, reached) && Remembered(s, id) + n <= maxRetries
    ensures Run(s, Failures(id, n), false, maxRetries) &&
            Open(EndOf(s, Failures(id, n), false, maxRetries), id, reached + n)
    decreases n
  {
    if n > 0 {
      assert Failures(id, n)[1..] == Failures(id, n - 1);
      AloneTurn(s, id, Raised, maxRetries);
      FailuresReach(Turned(s, Alone(id, Raised), false, maxRetries), id, n - 1, maxRetries, reached + 1);
    }
  }

  lemma {:induction false} RunConcat(s: Snapshot, a: seq<Turn>, b: seq<Turn>, counted: bool, maxRetries: nat)
    requires Run(s, a, counted, maxRetries) && Run(EndOf(s, a, counted, maxRetries), b, counted, maxRetries)
    ensures Run(s, a + b, counted, maxRetries)
    ensures EndOf(s, a + b, counted, maxRetries) == EndOf(EndOf(s, a, counted, maxRetries), b, counted, maxRetries)
    decreases |a|
  {
    if a == [] {
      assert a + b == b;
    } else {
      assert (a + b)[1..] == a[1..] + b;
      RunConcat(Turned(s, a[0], counted, maxRetries), a[1..], b, counted, maxRetries);
    }
  }

  lemma {:induction false} RestartsConcat(a: seq<Turn>, b: seq<Turn>)
    ensures Restarts(a + b) == Restarts(a) + Restarts(b)
  {
    if a == [] {
      assert a + b == b;
    } else {
      assert (a + b)[1..] == a[1..] + b;
      RestartsConcat(a[1..], b);
    }
  }

  function OneLife(id: int, maxRetries: nat): (turns: seq<Turn>) { Failures(id, maxRetries) + [Restart] }

  // k restarts, with all the failures that each life of the process allows.
  function Lives(id: int, k: nat, maxRetries: nat): (turns: seq<Turn>)
    ensures Within(turns, Disturbance(true, false, false))
  {
    if k == 0 then Failures(id, maxRetries) else OneLife(id, maxRetries) + Lives(id, k - 1, maxRetries)
  }

  lemma {:induction false} FailuresNeverRestart(id: int, n: nat)
    ensures Restarts(Failures(id, n)) == 0
  {
    if n > 0 {
      assert Failures(id, n)[1..] == Failures(id, n - 1);
      FailuresNeverRestart(id, n - 1);
    }
  }

  // All the failures that one life of the process allows, and its end.
  lemma OneLifeReaches(s: Snapshot, id: int, maxRetries: nat, reached: nat)
    requires Open(s, id, reached) && Remembered(s, id) == 0
    ensures var turns := OneLife(id, maxRetries);
            && Run(s, turns, false, maxRetries) && Restarts(turns) == 1
            && var s' := EndOf(s, turns, false, maxRetries);
               Open(s', id, reached + maxRetries) && Remembered(s', id) == 0
  {
    var first := Failures(id, maxRetries);
    FailuresReach(s, id, maxRetries, maxRetries, reached);
    FailuresNeverRestart(id, maxRetries);
    var s1 := EndOf(s, first, false, maxRetries);
    assert [Restart][1..] == [] && Turned(s1, Restart, false, maxRetries) == s1.(retry := map[]);
    RunConcat(s, first, [Restart], false, maxRetries);
    RestartsConcat(first, [Restart]);
  }

  lemma LifeAndRest(s: Snapshot, id: int, life: seq<Turn>, rest: seq<Turn>, k: nat, maxRetries: nat, reached: nat)
    requires Run(s, life, false, maxRetries) && Run(EndOf(s, life, false, maxRetries), rest, false, maxRetries)
    requires Restarts(life) == 1 && Restarts(rest) == k
    requires Open(EndOf(EndOf(s, life, false, maxRetries), rest, false, maxRetries), id, reached)
    ensures Run(s, life + rest, false, maxRetries) && Restarts(life + rest) == k + 1
    ensures Open(EndOf(s, life + rest, false, maxRetries), id, reached)
  {
    RunConcat(s, life, rest, false, maxRetries);
    RestartsConcat(life, rest);
  }

  // The tries of k + 1 lives.
  function Tries(k: nat, maxRetries: nat): (n: nat)
  {
    if k == 0 then maxRetries else maxRetries + Tries(k - 1, maxRetries)
  }

  lemma {:induction false} TriesAre(k: nat, maxRetries: nat)
    ensures Tries(k, maxRetries) == (k + 1) * maxRetries
  {
    if k > 0 {
      TriesAre(k - 1, maxRetries);
      OneMoreTimes(k, maxRetries);
    }
  }

  lemma {:induction false} LivesReach(s: Snapshot, id: int, k: nat, maxRetries: nat, reached: nat)
    requires Open(s, id, reached) && Remembered(s, id) == 0
    ensures var turns := Lives(id, k, maxRetries);
            && Run(s, turns, false, maxRetries) && Restarts(turns) == k
            && Open(EndOf(s, turns, false, maxRetries), id, reached + Tries(k, maxRetries))
    decreases k
  {
    if k == 0 {
      FailuresReach(s, id, maxRetries, maxRetries, reached);
      FailuresNeverRestart(id, maxRetries);
    } else {
      OneLifeReaches(s, id, maxRetries, reached);
      var s' := EndOf(s, OneLife(id, maxRetries), false, maxRetries);
      LivesReach(s', id, k - 1, maxRetries, reached + maxRetries);
      LifeAndRest(s, id, OneLife(id, maxRetries), Lives(id, k - 1, maxRetries), k - 1, maxRetries,
                  reached + Tries(k, maxRetries));
    }
  }

  // The bound is attained, for every number of restarts and every limit.
  lemma RetriesPerRestartAttained(s: Snapshot, id: int, k: nat, maxRetries: nat)
    requires id in s.rows && !s.rows[id].terminal && id !in s.retry
    ensures var turns := Lives(id, k, maxRetries);
            && Run(s, turns, false, maxRetries) && Restarts(turns) == k &&
               Within(turns, Disturbance(true, false, false))
            && EndOf(s, turns, false, maxRetries).rows[id].reached == s.rows[id].reached + (k + 1) * maxRetries
  {
    LivesReach(s, id, k, maxRetries, s.rows[id].reached);
    TriesAre(k, maxRetries);
  }

  // A failure and then a claim refused while the row stays open, over and over.
  function FailThenStale(id: int, n: nat): (turns: seq<Turn>)
    ensures Within(turns, Disturbance(false, false, true))
  {
    if n == 0 then [] else [Alone(id, Raised), Alone(id, StaleClaim(false))] + FailThenStale(id, n - 1)
  }

  // In any store that keeps no count, any row can be sent to the extractor any number of times.
  lemma {:induction false} StaleClaimsForgive(s: Snapshot, id: int, n: nat, maxRetries: nat)
    requires maxRetries >= 2 && id in s.rows && !s.rows[id].terminal && id !in s.retry
    ensures var turns := FailThenStale(id, n);
            Run(s, turns, false, maxRetries) &&
            var s' := EndOf(s, turns, false, maxRetries);
            s'.rows[id].reached == s.rows[id].reached + n && !s'.rows[id].terminal && id !in s'.retry
    decreases n
  {
    if n > 0 {
      var turns := FailThenStale(id, n);
      assert turns[0] == Alone(id, Raised) && turns[1..][0] == Alone(id, StaleClaim(false));
      assert turns[1..][1..] == FailThenStale(id, n - 1);
      AloneTurn(s, id, Raised, maxRetries);
      var s1 := Turned(s, Alone(id, Raised), false, maxRetries);
      AloneTurn(s1, id, StaleClaim(false), maxRetries);
      StaleClaimsForgive(Turned(s1, Alone(id, StaleClaim(false)), false, maxRetries), id, n - 1, maxRetries);
    }
  }

  function Relinquishings(id: int, n: nat): (turns: seq<Turn>)
    ensures Within(turns, Disturbance(false, true, false))
  {
    if n == 0 then [] else [Alone(id, LateStale)] + Relinquishings(id, n - 1)
  }

  lemma {:induction false} LateRefusalsForgive(s: Snapshot, id: int, n: nat, maxRetries: nat, reached: nat)
    requires maxRetries >= 1 && Open(s, id, reached) && id !in s.retry
    ensures var turns := Relinquishings(id, n);
            Run(s, turns, false, maxRetries) && Open(EndOf(s, turns, false, maxRetries), id, reached + n)
    decreases n
  {
    if n > 0 {
      assert Relinquishings(id, n)[1..] == Relinquishings(id, n - 1);
      AloneTurn(s, id, LateStale, maxRetries);
      LateRefusalsForgive(Turned(s, Alone(id, LateStale), false, maxRetries), id, n - 1, maxRetries, reached + 1);
    }
  }

  // The in-memory counts keep every row within the limit, whatever else happens.
  ghost predicate MemoryBounds(maxRetries: nat, d: Disturbance)
  {
    forall s: Snapshot, turns: seq<Turn>, id: int ::
      Unseen(s) && Run(s, turns, false, maxRetries) && Within(turns, d) && id in s.rows ==>
        EndOf(s, turns, false, maxRetries).rows[id].reached <= maxRetries
  }

  predicate Harmless(maxRetries: nat, d: Disturbance)
  {
    maxRetries == 0 || (!d.restarts && !d.lateRefusals && (!d.openRefusals || maxRetries == 1))
  }

  // A row that has had its one try, if it is allowed one, is remembered until it is terminal.
  predicate OneTry(s: Snapshot, id: int, maxRetries: nat)
    requires id in s.rows
  {
    s.rows[id].reached <= maxRetries && (s.rows[id].reached == 1 && !s.rows[id].terminal ==> Remembered(s, id) >= 1)
  }

  lemma TurnKeepsOneTry(s: Snapshot, turn: Turn, maxRetries: nat, id: int, d: Disturbance)
    requires maxRetries <= 1 && Harmless(maxRetries, d) && Possible(s, turn, false) && TurnWithin(turn, d)
    requires id in s.rows && OneTry(s, id, maxRetries)
    ensures OneTry(Turned(s, turn, false, maxRetries), id, maxRetries)
  {
    if turn.LaneRun? { var fate := UncountedTurn(s, turn, maxRetries, id); }
  }

  lemma {:induction false} SingleTry(s: Snapshot, turns: seq<Turn>, maxRetries: nat, id: int, d: Disturbance)
    requires maxRetries <= 1 && Harmless(maxRetries, d) && Run(s, turns, false, maxRetries) && Within(turns, d)
    requires id in s.rows && OneTry(s, id, maxRetries)
    ensures EndOf(s, turns, false, maxRetries).rows[id].reached <= maxRetries
    decreases |turns|
  {
    if turns != [] {
      assert TurnWithin(turns[0], d) && Within(turns[1..], d);
      TurnKeepsOneTry(s, turns[0], maxRetries, id, d);
      SingleTry(Turned(s, turns[0], false, maxRetries), turns[1..], maxRetries, id, d);
    }
  }

  lemma {:induction false} NeverRestarts(turns: seq<Turn>, d: Disturbance)
    requires Within(turns, d) && !d.restarts
    ensures Restarts(turns) == 0
  {
    if turns != [] {
      assert TurnWithin(turns[0], d) && Within(turns[1..], d);
      NeverRestarts(turns[1..], d);
    }
  }

  lemma HarmlessIsBounded(s: Snapshot, turns: seq<Turn>, maxRetries: nat, id: int, d: Disturbance)
    requires Harmless(maxRetries, d) && Unseen(s) && Run(s, turns, false, maxRetries) && Within(turns, d)
    requires id in s.rows
    ensures EndOf(s, turns, false, maxRetries).rows[id].reached <= maxRetries
  {
    if maxRetries <= 1 {
      SingleTry(s, turns, maxRetries, id, d);
    } else {
      NeverRestarts(turns, d);
      WithinMore(turns, d, Disturbance(true, false, false));
      RetriesPerRestart(s, turns, maxRetries, id);
    }
  }

  lemma WithinMore(turns: seq<Turn>, d: Disturbance, e: Disturbance)
    requires Within(turns, d) && (d.restarts ==> e.restarts)
    requires (d.lateRefusals ==> e.lateRefusals) && (d.openRefusals ==> e.openRefusals)
    ensures Within(turns, e)
  {
    forall t | 0 <= t < |turns| ensures TurnWithin(turns[t], e) { assert TurnWithin(turns[t], d); }
  }

  // A run within d that takes a row beyond the limit.
  lemma HarmfulRun(maxRetries: nat, d: Disturbance) returns (turns: seq<Turn>)
    requires !Harmless(maxRetries, d)
    ensures var s := Snapshot(map[0 := RowState(0, false, 0)], map[]);
            && Within(turns, d) && Run(s, turns, false, maxRetries)
            && EndOf(s, turns, false, maxRetries).rows[0].reached > maxRetries
  {
    var s := Snapshot(map[0 := RowState(0, false, 0)], map[]);
    if d.restarts {
      turns := Lives(0, 1, maxRetries);
      RetriesPerRestartAttained(s, 0, 1, maxRetries);
      WithinMore(turns, Disturbance(true, false, false), d);
    } else if d.lateRefusals {
      turns := Relinquishings(0, maxRetries + 1);
      LateRefusalsForgive(s, 0, maxRetries + 1, maxRetries, 0);
      WithinMore(turns, Disturbance(false, true, false), d);
    } else {
      turns := FailThenStale(0, maxRetries + 1);
      StaleClaimsForgive(s, 0, maxRetries + 1, maxRetries);
      WithinMore(turns, Disturbance(false, false, true), d);
    }
  }

  // The in-memory counts alone bound the retries exactly when the process does not restart, no
  // extraction reports its row away and no claim is refused on a row that stays open, but for two
  // limits: of no try at all, which nothing exceeds, and of one, which a refused claim respects.
  lemma MemoryBoundsIff(maxRetries: nat, d: Disturbance)
    ensures MemoryBounds(maxRetries, d) <==> Harmless(maxRetries, d)
  {
    if Harmless(maxRetries, d) {
      forall s: Snapshot, turns: seq<Turn>, id: int
        | Unseen(s) && Run(s, turns, false, maxRetries) && Within(turns, d) && id in s.rows
        ensures EndOf(s, turns, false, maxRetries).rows[id].reached <= maxRetries
      {
        HarmlessIsBounded(s, turns, maxRetries, id, d);
      }
    } else {
      var turns := HarmfulRun(maxRetries, d);
      assert Unseen(Snapshot(map[0 := RowState(0, false, 0)], map[]));
    }
  }
}
