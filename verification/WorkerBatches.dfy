// group_pre_llm_rows and the lane-slot arithmetic of the extraction worker.
module WorkerBatches {
  import opened Sequences
  import opened Options

  // An eligible raw row: its cache key is the batch key, and group its WhatsApp group.
  datatype Row = Row(id: int, timestamp: string, key: string, group: string)

  // ----- The order within a batch: timestamp text, then id -----

  // Lexicographic order of texts.
  predicate TextLeq(a: string, b: string)
  {
    a == [] || (b != [] && (a[0] < b[0] || (a[0] == b[0] && TextLeq(a[1..], b[1..]))))
  }

  lemma {:induction false} TextTotal(a: string, b: string)
    ensures TextLeq(a, b) || TextLeq(b, a)
    ensures TextLeq(a, b) && TextLeq(b, a) ==> a == b
  {
    if a != [] && b != [] && a[0] == b[0] {
      TextTotal(a[1..], b[1..]);
      assert a == [a[0]] + a[1..] && b == [b[0]] + b[1..];
    }
  }

  lemma {:induction false} TextTransitive(a: string, b: string, c: string)
    requires TextLeq(a, b) && TextLeq(b, c)
    ensures TextLeq(a, c)
  {
    if a != [] && a[0] == b[0] == c[0] { TextTransitive(a[1..], b[1..], c[1..]); }
  }

  predicate Leq(a: Row, b: Row)
  {
    TextLeq(a.timestamp, b.timestamp) && (a.timestamp == b.timestamp ==> a.id <= b.id)
  }

  lemma LeqTotal(a: Row, b: Row)
    ensures Leq(a, b) || Leq(b, a)
  {
    TextTotal(a.timestamp, b.timestamp);
  }

  lemma LeqTransitive(a: Row, b: Row, c: Row)
    requires Leq(a, b) && Leq(b, c)
    ensures Leq(a, c)
  {
    TextTransitive(a.timestamp, b.timestamp, c.timestamp);
    TextTotal(a.timestamp, b.timestamp);
    TextTotal(b.timestamp, c.timestamp);
  }

  predicate InOrder(batch: seq<Row>) { forall i, j :: 0 <= i < j < |batch| ==> Leq(batch[i], batch[j]) }

  method InsertRow(sorted: seq<Row>, row: Row) returns (r: seq<Row>)
    requires InOrder(sorted)
    ensures InOrder(r) && multiset(r) == multiset(sorted) + multiset{row}
  {
    var i: nat := |sorted|;
    while i > 0 && !Leq(sorted[i - 1], row)
      invariant i <= |sorted|
      invariant forall j :: i <= j < |sorted| ==> !Leq(sorted[j], row)
    {
      i := i - 1;
    }
    InsertKeepsOrder(sorted, i, row);
    assert sorted == sorted[..i] + sorted[i..];
    r := sorted[..i] + [row] + sorted[i..];
  }

  // list.sort on the batch.
  method SortBatch(batch: seq<Row>) returns (sorted: seq<Row>)
    ensures InOrder(sorted) && multiset(sorted) == multiset(batch)
  {
    sorted := [];
    var n := 0;
    while n < |batch|
      invariant n <= |batch| && InOrder(sorted) && multiset(sorted) == multiset(batch[..n])
    {
      assert batch[..n + 1] == batch[..n] + [batch[n]];
      sorted := InsertRow(sorted, batch[n]);
      n := n + 1;
    }
    assert batch[..n] == batch;
  }

  lemma InsertKeepsOrder(sorted: seq<Row>, i: nat, row: Row)
    requires InOrder(sorted) && i <= |sorted|
    requires i > 0 ==> Leq(sorted[i - 1], row)
    requires forall j :: i <= j < |sorted| ==> !Leq(sorted[j], row)
    ensures InOrder(sorted[..i] + [row] + sorted[i..])
  {
    forall j | 0 <= j < i ensures Leq(sorted[j], row) {
      if j < i - 1 { LeqTransitive(sorted[j], sorted[i - 1], row); }
    }
    forall j | i <= j < |sorted| ensures Leq(row, sorted[j]) { LeqTotal(row, sorted[j]); }
  }

  // ----- The partition -----

  function Flatten(batches: seq<seq<Row>>): (rows: seq<Row>)
  {
    if batches == [] then [] else batches[0] + Flatten(batches[1..])
  }

  predicate SameKey(batch: seq<Row>)
  {
    forall i, j :: 0 <= i < |batch| && 0 <= j < |batch| ==> batch[i].key == batch[j].key
  }

  // No key occurs in two batches.
  predicate KeyDisjoint(batches: seq<seq<Row>>)
  {
    forall a, b, i, j :: 0 <= a < b < |batches| && 0 <= i < |batches[a]| && 0 <= j < |batches[b]| ==>
      batches[a][i].key != batches[b][j].key
  }

  lemma {:induction false} FlattenAt(batches: seq<seq<Row>>, b: nat, batch: seq<Row>, x: Row)
    requires b < |batches|
    ensures multiset(Flatten(batches[b := batch]))[x] + multiset(batches[b])[x]
         == multiset(Flatten(batches))[x] + multiset(batch)[x]
    decreases |batches|
  {
    if b == 0 {
      assert batches[b := batch][1..] == batches[1..];
    } else {
      assert batches[b := batch][1..] == batches[1..][b - 1 := batch];
      FlattenAt(batches[1..], b - 1, batch, x);
    }
  }

  lemma FlattenGrown(batches: seq<seq<Row>>, b: nat, row: Row)
    requires b < |batches|
    ensures multiset(Flatten(batches[b := batches[b] + [row]])) == multiset(Flatten(batches)) + multiset{row}
  {
    forall x: Row
      ensures multiset(Flatten(batches[b := batches[b] + [row]]))[x] == (multiset(Flatten(batches)) + multiset{row})[x]
    {
      FlattenAt(batches, b, batches[b] + [row], x);
    }
  }

  lemma FlattenPermuted(batches: seq<seq<Row>>, b: nat, batch: seq<Row>)
    requires b < |batches| && multiset(batch) == multiset(batches[b])
    ensures multiset(Flatten(batches[b := batch])) == multiset(Flatten(batches))
  {
    forall x: Row ensures multiset(Flatten(batches[b := batch]))[x] == multiset(Flatten(batches))[x] {
      FlattenAt(batches, b, batch, x);
    }
  }

  lemma {:induction false} FlattenLast(batches: seq<seq<Row>>, batch: seq<Row>)
    ensures multiset(Flatten(batches + [batch])) == multiset(Flatten(batches)) + multiset(batch)
    decreases |batches|
  {
    if batches == [] {
      assert batches + [batch] == [batch] && [batch][1..] == [] && batch + [] == batch;
    } else {
      assert (batches + [batch])[1..] == batches[1..] + [batch];
      FlattenLast(batches[1..], batch);
    }
  }

  predicate Batch(batch: seq<Row>, key: string)
  {
    batch != [] && forall i :: 0 <= i < |batch| ==> batch[i].key == key
  }

  // The b-th batch holds the rows of the b-th key, and the keys differ.
  predicate Indexed(batches: seq<seq<Row>>, keys: seq<string>)
  {
    && |batches| == |keys|
    && (forall b :: 0 <= b < |batches| ==> Batch(batches[b], keys[b]))
    && (forall a, b :: 0 <= a < b < |keys| ==> keys[a] != keys[b])
  }

  lemma IndexedIsDisjoint(batches: seq<seq<Row>>, keys: seq<string>)
    requires Indexed(batches, keys)
    ensures KeyDisjoint(batches) && forall b :: 0 <= b < |batches| ==> batches[b] != [] && SameKey(batches[b])
  {
    forall a, b, i, j | 0 <= a < b < |batches| && 0 <= i < |batches[a]| && 0 <= j < |batches[b]|
      ensures batches[a][i].key != batches[b][j].key
    {
      assert keys[a] != keys[b] && Batch(batches[a], keys[a]) && Batch(batches[b], keys[b]);
    }
  }

  // setdefault(key, []).append(row): the key's batch, or a new last one.
  method AddRow(batches: seq<seq<Row>>, keys: seq<string>, row: Row)
    returns (batches': seq<seq<Row>>, keys': seq<string>)
    requires Indexed(batches, keys)
    ensures Indexed(batches', keys') && multiset(Flatten(batches')) == multiset(Flatten(batches)) + multiset{row}
  {
    var b := 0;
    while b < |keys| && keys[b] != row.key
      invariant b <= |keys| && forall a :: 0 <= a < b ==> keys[a] != row.key
    {
      b := b + 1;
    }
    if b < |keys| {
      FlattenGrown(batches, b, row);
      batches', keys' := batches[b := batches[b] + [row]], keys;
    } else {
      FlattenLast(batches, [row]);
      batches', keys' := batches + [[row]], keys + [row.key];
    }
  }

  // The rows are partitioned by key: every row is in exactly one batch as often as it was given,
  // a batch holds one key in (timestamp, id) order, and no other batch holds that key.
  method GroupPreLlmRows(rows: seq<Row>) returns (batches: seq<seq<Row>>)
    ensures multiset(Flatten(batches)) == multiset(rows)
    ensures forall b :: 0 <= b < |batches| ==> batches[b] != [] && SameKey(batches[b]) && InOrder(batches[b])
    ensures KeyDisjoint(batches)
  {
    var keys: seq<string>;
    batches, keys := [], [];
    var n := 0;
    while n < |rows|
      invariant n <= |rows| && Indexed(batches, keys) && multiset(Flatten(batches)) == multiset(rows[..n])
    {
      assert rows[..n + 1] == rows[..n] + [rows[n]];
      batches, keys := AddRow(batches, keys, rows[n]);
      n := n + 1;
    }
    assert rows[..n] == rows;
    batches := SortBatches(batches, keys);
    IndexedIsDisjoint(batches, keys);
  }

  method SortBatches(batches: seq<seq<Row>>, ghost keys: seq<string>) returns (sorted: seq<seq<Row>>)
    requires Indexed(batches, keys)
    ensures Indexed(sorted, keys) && multiset(Flatten(sorted)) == multiset(Flatten(batches))
    ensures forall b :: 0 <= b < |sorted| ==> InOrder(sorted[b])
  {
    sorted := batches;
    var b := 0;
    while b < |sorted|
      invariant b <= |sorted| && Indexed(sorted, keys) && multiset(Flatten(sorted)) == multiset(Flatten(batches))
      invariant forall c :: 0 <= c < b ==> InOrder(sorted[c])
    {
      var batch := SortBatch(sorted[b]);
      SortedKeepsKey(sorted[b], batch, keys[b]);
      FlattenPermuted(sorted, b, batch);
      sorted := sorted[b := batch];
      b := b + 1;
    }
  }

  lemma SortedKeepsKey(batch: seq<Row>, sorted: seq<Row>, key: string)
    requires Batch(batch, key) && multiset(sorted) == multiset(batch)
    ensures Batch(sorted, key)
  {
    assert |sorted| == |multiset(sorted)| == |multiset(batch)| == |batch|;
    forall i | 0 <= i < |sorted| ensures sorted[i].key == key {
      assert sorted[i] in multiset(sorted);
      assert sorted[i] in batch;
    }
  }

  // ----- Lane slots -----

  datatype Slots = Slots(concurrency: int, fast: int, backlog: int)

  // The settings as the module reads them at start-up; None stands for an unset variable.
  method ConfigureSlots(configured: int, fastSetting: Option<int>, backlogSetting: Option<int>) returns (s: Slots)
    ensures s == SlotPlan(configured, fastSetting, backlogSetting)
  {
    var concurrency := Max(1, Min(100, configured));
    var defaultFast := if concurrency > 1 then Max(1, concurrency / 2) else 1;
    var requestedFast := if fastSetting.Some? then fastSetting.value else defaultFast;
    var fast, backlog;
    if backlogSetting.Some? {
      var requestedBacklog := Max(0, backlogSetting.value);
      concurrency := Max(concurrency, Min(100, requestedFast + requestedBacklog));
      backlog := Max(0, Min(concurrency, requestedBacklog));
      fast := Max(0, Min(concurrency - backlog, requestedFast));
    } else {
      if concurrency > 1 {
        fast := Max(0, Min(concurrency - 1, requestedFast));
      } else {
        fast := Max(0, Min(concurrency, requestedFast));
      }
      backlog := Max(0, concurrency - fast);
    }
    s := Slots(concurrency, fast, backlog);
  }

  function RequestedFast(configured: int, fastSetting: Option<int>): (f: int)
  {
    var concurrency := Max(1, Min(100, configured));
    if fastSetting.Some? then fastSetting.value else if concurrency > 1 then Max(1, concurrency / 2) else 1
  }

  function SlotPlan(configured: int, fastSetting: Option<int>, backlogSetting: Option<int>): (s: Slots)
  {
    var base := Max(1, Min(100, configured));
    var f := RequestedFast(configured, fastSetting);
    if backlogSetting.Some? then
      var b := Max(0, backlogSetting.value);
      var c := Max(base, Min(100, f + b));
      var backlog := Min(c, b);
      Slots(c, Max(0, Min(c - backlog, f)), backlog)
    else
      var fast := Max(0, Min(if base > 1 then base - 1 else base, f));
      Slots(base, fast, base - fast)
  }

  // Whatever the settings, the two lanes together stay within a pool of at most 100.
  lemma SlotsAreBounded(configured: int, fastSetting: Option<int>, backlogSetting: Option<int>)
    ensures var s := SlotPlan(configured, fastSetting, backlogSetting);
            && 0 <= s.fast && 0 <= s.backlog && s.fast + s.backlog <= s.concurrency <= 100 && 1 <= s.concurrency
            && (backlogSetting.None? ==> s.fast + s.backlog == s.concurrency)
  {
  }

  // Explicit settings for both lanes are honoured exactly when they are not negative and fit in 100.
  lemma SettingsHonouredIff(configured: int, fast: int, backlog: int)
    ensures var s := SlotPlan(configured, Some(fast), Some(backlog));
            s.fast == fast && s.backlog == backlog <==> 0 <= fast && 0 <= backlog && fast + backlog <= 100
  {
  }

  // Without a backlog setting the backlog lane has a slot unless the only slot goes to the fast lane.
  lemma BacklogHasASlotIff(configured: int, fastSetting: Option<int>)
    ensures SlotPlan(configured, fastSetting, None).backlog >= 1
        <==> configured > 1 || RequestedFast(configured, fastSetting) <= 0
  {
  }

  // The split without any lane setting: half of the pool each, the odd slot to the backlog, and the only
  // slot to the fast lane.
  lemma DefaultSplit(configured: int)
    ensures SlotPlan(configured, None, None) ==
            if configured <= 1 then Slots(1, 1, 0)
            else if configured >= 100 then Slots(100, 50, 50)
            else Slots(configured, configured / 2, configured - configured / 2)
  {
  }

  // A fast setting alone takes what it asks for, but for one slot that stays with the backlog.
  lemma FastSettingSplit(configured: int, fast: int)
    requires 1 < configured <= 100
    ensures SlotPlan(configured, Some(fast), None) ==
            if fast <= 0 then Slots(configured, 0, configured)
            else if fast < configured then Slots(configured, fast, configured - fast)
            else Slots(configured, configured - 1, 1)
    ensures SlotPlan(1, Some(fast), None) == if fast <= 0 then Slots(1, 0, 1) else Slots(1, 1, 0)
  {
  }

  // With a backlog setting the pool grows to what both lanes ask for, up to 100; the backlog is served
  // first and the fast lane gets what it asks for of the rest.
  lemma BacklogSettingSplit(configured: int, fast: int, backlog: int)
    requires 1 <= configured <= 100
    ensures var s, wanted := SlotPlan(configured, Some(fast), Some(backlog)), if backlog < 0 then 0 else backlog;
            && (fast + wanted <= configured ==> s.concurrency == configured)
            && (configured < fast + wanted <= 100 ==> s.concurrency == fast + wanted)
            && (100 < fast + wanted ==> s.concurrency == 100)
            && s.backlog == (if wanted <= s.concurrency then wanted else s.concurrency)
            && s.fast == (if fast < 0 then 0 else if fast <= s.concurrency - s.backlog then fast
                          else s.concurrency - s.backlog)
    ensures SlotPlan(configured, None, Some(backlog)) ==
            SlotPlan(configured, Some(if configured < 4 then 1 else configured / 2), Some(backlog))
  {
  }
}
