// The AI correction pass: what one write may change, and what a run counts and calls.
module CorrectionRun {
  import opened Options

  type Field = nat
  type Key = (int, int)

  // A column: null, only white space, or a value.
  datatype Value = Missing | Blank | Present(v: int)

  type Values = map<Field, Value>

  function Get(values: Values, f: Field): (v: Value) { if f in values then values[f] else Missing }

  datatype Suggestion = Suggestion(field: Field, value: Value, confidence: real, grounded: bool)

  // A checked correction: the proposed values, the fields flagged as corrected, the model's
  // confidence, and the fields the source-authority pass grounded.
  datatype Payload = Payload(values: Values, corrected: seq<Field>, confidence: real, grounded: set<Field>)

  // A stored row. mark is the correction's hash, the fields it applied and its confidence, once the
  // row has been corrected.
  datatype Mark = Mark(hash: int, applied: seq<Field>, confidence: real)
  datatype Row = Row(values: Values, index: int, modelConfidence: Option<real>, suggestions: seq<Suggestion>,
                     mark: Option<Mark>)

  predicate Distinct<T(==)>(s: seq<T>) { forall i, j :: 0 <= i < j < |s| ==> s[i] != s[j] }

  // ----- One write -----

  const MARGIN: real := 0.15

  predicate Outscores(p: Payload, row: Row)
  {
    row.modelConfidence.Some? && p.confidence > row.modelConfidence.value + MARGIN
  }

  predicate CanApply(p: Payload, row: Row, f: Field)
  {
    f in p.grounded && (!Get(row.values, f).Present? || Outscores(p, row))
  }

  function Applied(p: Payload, row: Row, n: nat): (fields: seq<Field>)
    requires n <= |p.corrected|
  {
    if n == 0 then []
    else if CanApply(p, row, p.corrected[n - 1]) then Applied(p, row, n - 1) + [p.corrected[n - 1]]
    else Applied(p, row, n - 1)
  }

  function Suggest(p: Payload, f: Field): (s: Suggestion)
  {
    Suggestion(f, Get(p.values, f), p.confidence, f in p.grounded)
  }

  function Suggested(p: Payload, row: Row, n: nat): (s: seq<Suggestion>)
    requires n <= |p.corrected|
  {
    if n == 0 then []
    else if CanApply(p, row, p.corrected[n - 1]) then Suggested(p, row, n - 1)
    else Suggested(p, row, n - 1) + [Suggest(p, p.corrected[n - 1])]
  }

  function Overwritten(values: Values, p: Payload, fields: seq<Field>): (values': Values)
  {
    if fields == [] then values
    else Overwritten(values, p, fields[..|fields| - 1])[fields[|fields| - 1] := Get(p.values, fields[|fields| - 1])]
  }

  function Written(row: Row, p: Payload, hash: int): (row': Row)
  {
    var n := |p.corrected|;
    row.(values := Overwritten(row.values, p, Applied(p, row, n)),
         suggestions := row.suggestions + Suggested(p, row, n),
         mark := Some(Mark(hash, Applied(p, row, n), p.confidence)))
  }

  function FieldsOf(s: seq<Suggestion>): (fields: seq<Field>)
  {
    seq(|s|, i requires 0 <= i < |s| => s[i].field)
  }

  lemma {:induction false} ByTheRule(p: Payload, row: Row, n: nat)
    requires n <= |p.corrected|
    ensures forall f :: f in Applied(p, row, n) ==> CanApply(p, row, f)
    ensures forall s :: s in Suggested(p, row, n) ==> s == Suggest(p, s.field) && !CanApply(p, row, s.field)
  {
    if n > 0 { ByTheRule(p, row, n - 1); }
  }

  lemma {:induction false} EachOnOneSide(p: Payload, row: Row, n: nat)
    requires n <= |p.corrected|
    ensures multiset(Applied(p, row, n)) + multiset(FieldsOf(Suggested(p, row, n))) == multiset(p.corrected[..n])
  {
    if n > 0 {
      EachOnOneSide(p, row, n - 1);
      assert p.corrected[..n] == p.corrected[..n - 1] + [p.corrected[n - 1]];
      var one := Suggest(p, p.corrected[n - 1]);
      OneMoreField(Applied(p, row, n - 1), Suggested(p, row, n - 1), p.corrected[..n - 1], one);
    }
  }

  // Every flagged field is either applied or suggested, by the rule, and none twice.
  lemma NoneIsLost(p: Payload, row: Row, n: nat)
    requires n <= |p.corrected|
    ensures multiset(Applied(p, row, n)) + multiset(FieldsOf(Suggested(p, row, n))) == multiset(p.corrected[..n])
    ensures forall f :: f in Applied(p, row, n) ==> CanApply(p, row, f)
    ensures forall s :: s in Suggested(p, row, n) ==> s == Suggest(p, s.field) && !CanApply(p, row, s.field)
  {
    ByTheRule(p, row, n);
    EachOnOneSide(p, row, n);
  }

  lemma FieldsOneMore(s: seq<Suggestion>, one: Suggestion)
    ensures FieldsOf(s + [one]) == FieldsOf(s) + [one.field]
  {
  }

  // One more flagged field, on either side.
  lemma OneMoreField(applied: seq<Field>, suggested: seq<Suggestion>, flagged: seq<Field>, one: Suggestion)
    requires multiset(applied) + multiset(FieldsOf(suggested)) == multiset(flagged)
    ensures multiset(applied + [one.field]) + multiset(FieldsOf(suggested)) == multiset(flagged + [one.field])
    ensures multiset(applied) + multiset(FieldsOf(suggested + [one])) == multiset(flagged + [one.field])
  {
    FieldsOneMore(suggested, one);
  }

  lemma {:induction false} OverwrittenIs(values: Values, p: Payload, fields: seq<Field>)
    ensures forall f ::
              Get(Overwritten(values, p, fields), f) == if f in fields then Get(p.values, f) else Get(values, f)
  {
    if fields != [] {
      var n := |fields| - 1;
      OverwrittenIs(values, p, fields[..n]);
      assert fields == fields[..n] + [fields[n]];
    }
  }

  // What a write may do to a column: nothing unless the field was flagged and grounded, and to one
  // that held a value only if the correction outscores the model by more than the margin. The
  // suggestions there were are kept in front.
  lemma WriteIsCautious(row: Row, p: Payload, hash: int, f: Field)
    ensures var row' := Written(row, p, hash);
            && (Get(row'.values, f) != Get(row.values, f) ==>
                  f in p.corrected && f in p.grounded && Get(row'.values, f) == Get(p.values, f))
            && (Get(row.values, f).Present? && Get(row'.values, f) != Get(row.values, f) ==> Outscores(p, row))
            && row.suggestions <= row'.suggestions
            && (f in p.corrected && !CanApply(p, row, f) ==>
                  Get(row'.values, f) == Get(row.values, f) && Suggest(p, f) in row'.suggestions)
            && (f in p.corrected && CanApply(p, row, f) ==>
                  Get(row'.values, f) == Get(p.values, f) && f in row'.mark.value.applied)
  {
    var n := |p.corrected|;
    NoneIsLost(p, row, n);
    assert p.corrected[..n] == p.corrected;
    OverwrittenIs(row.values, p, Applied(p, row, n));
    var fields := FieldsOf(Suggested(p, row, n));
    if f in p.corrected {
      assert multiset(p.corrected)[f] > 0;
      assert f in Applied(p, row, n) || f in fields;
      if f in fields {
        var i :| 0 <= i < |fields| && fields[i] == f;
        assert Suggested(p, row, n)[i] == Suggest(p, f);
      }
    } else {
      assert multiset(p.corrected)[f] == 0;
    }
  }

  // The correction may take this column: it was flagged, the source grounds it, and it is empty or the
  // correction outscores the model by more than 0.15.
  predicate Takes(row: Row, p: Payload, f: Field)
  {
    && f in p.corrected && f in p.grounded
    && (|| f !in row.values || row.values[f] == Missing || row.values[f] == Blank
        || (row.modelConfidence.Some? && p.confidence - row.modelConfidence.value > 0.15))
  }

  // part is whole with some places left out.
  predicate Within<T(==)>(part: seq<T>, whole: seq<T>)
    decreases |whole|
  {
    if part == [] then true
    else if whole == [] then false
    else
      var p, w := |part| - 1, |whole| - 1;
      (part[p] == whole[w] && Within(part[..p], whole[..w])) || Within(part, whole[..w])
  }

  lemma {:induction false} SplitInOrder(p: Payload, row: Row, n: nat)
    requires n <= |p.corrected|
    ensures Within(Applied(p, row, n), p.corrected[..n]) && Within(FieldsOf(Suggested(p, row, n)), p.corrected[..n])
  {
    if n > 0 {
      SplitInOrder(p, row, n - 1);
      SplitStep(p, row, n, p.corrected[..n - 1], p.corrected[..n]);
    }
  }

  lemma SplitStep(p: Payload, row: Row, n: nat, flagged: seq<Field>, flagged': seq<Field>)
    requires 0 < n <= |p.corrected| && flagged' == flagged + [p.corrected[n - 1]]
    requires Within(Applied(p, row, n - 1), flagged) && Within(FieldsOf(Suggested(p, row, n - 1)), flagged)
    ensures Within(Applied(p, row, n), flagged') && Within(FieldsOf(Suggested(p, row, n)), flagged')
  {
    OneMoreInOrder(Applied(p, row, n - 1), Suggested(p, row, n - 1), flagged, Suggest(p, p.corrected[n - 1]));
  }

  lemma OneMoreInOrder(applied: seq<Field>, suggested: seq<Suggestion>, flagged: seq<Field>, one: Suggestion)
    requires Within(applied, flagged) && Within(FieldsOf(suggested), flagged)
    ensures Within(applied + [one.field], flagged + [one.field]) && Within(applied, flagged + [one.field])
    ensures Within(FieldsOf(suggested), flagged + [one.field])
    ensures Within(FieldsOf(suggested + [one]), flagged + [one.field])
  {
    FieldsOneMore(suggested, one);
    WithinMore(applied, flagged, one.field);
    WithinMore(FieldsOf(suggested), flagged, one.field);
  }

  lemma WithinMore<T>(part: seq<T>, whole: seq<T>, x: T)
    requires Within(part, whole)
    ensures Within(part, whole + [x]) && Within(part + [x], whole + [x])
  {
    assert (whole + [x])[..|whole|] == whole && (part + [x])[..|part|] == part;
  }

  // All of what a write does. A column becomes the proposed value exactly when the correction may take it,
  // and stays otherwise. The fields taken are those the mark names, in order; the other flagged ones
  // become new suggestions, in order, behind the old ones.
  lemma WriteIs(row: Row, p: Payload, hash: int)
    ensures var row' := Written(row, p, hash);
            && (forall f :: Get(row'.values, f) == if Takes(row, p, f) then Get(p.values, f) else Get(row.values, f))
            && row'.index == row.index && row'.modelConfidence == row.modelConfidence
            && row'.mark.Some? && row'.mark.value.hash == hash && row'.mark.value.confidence == p.confidence
            && (forall f :: f in row'.mark.value.applied <==> Takes(row, p, f))
            && Within(row'.mark.value.applied, p.corrected) && row.suggestions <= row'.suggestions
            && var added := row'.suggestions[|row.suggestions|..];
               && Within(FieldsOf(added), p.corrected)
               && multiset(row'.mark.value.applied) + multiset(FieldsOf(added)) == multiset(p.corrected)
               && forall s :: s in added ==>
                    s.value == Get(p.values, s.field) && s.confidence == p.confidence && !Takes(row, p, s.field) &&
                    (s.grounded <==> s.field in p.grounded)
  {
    var n := |p.corrected|;
    assert p.corrected[..n] == p.corrected;
    NoneIsLost(p, row, n);
    SplitInOrder(p, row, n);
    forall f ensures f in Applied(p, row, n) <==> Takes(row, p, f) {
      AppliedIff(p, row, n, f);
      TakesIff(row, p, f);
    }
    OverwrittenIs(row.values, p, Applied(p, row, n));
    assert Written(row, p, hash).suggestions[|row.suggestions|..] == Suggested(p, row, n);
    forall s | s in Suggested(p, row, n) ensures !Takes(row, p, s.field) { TakesIff(row, p, s.field); }
  }

  lemma TakesIff(row: Row, p: Payload, f: Field)
    ensures Takes(row, p, f) <==> f in p.corrected && CanApply(p, row, f)
  {
  }

  // ----- Reuse of a stored correction -----

  function Differing(fields: seq<Field>, values: Values, draft: Values): (kept: seq<Field>)
  {
    if fields == [] then []
    else
      var n := |fields| - 1;
      if Get(values, fields[n]) != Get(draft, fields[n]) then Differing(fields[..n], values, draft) + [fields[n]]
      else Differing(fields[..n], values, draft)
  }

  // The payload read back from a row that was corrected before, for another copy of its text.
  function Reused(row: Row, draft: Values): (p: Payload)
    requires row.mark.Some?
  {
    Payload(row.values, Differing(row.mark.value.applied, row.values, draft), row.mark.value.confidence, {})
  }

  lemma {:induction false} DifferingIs(fields: seq<Field>, values: Values, draft: Values)
    ensures forall f :: f in Differing(fields, values, draft) <==> f in fields && Get(values, f) != Get(draft, f)
  {
    if fields != [] {
      var n := |fields| - 1;
      DifferingIs(fields[..n], values, draft);
      assert fields == fields[..n] + [fields[n]];
    }
  }

  lemma {:induction false} DifferingInOrder(fields: seq<Field>, values: Values, draft: Values)
    ensures Within(Differing(fields, values, draft), fields)
  {
    if fields != [] {
      var n := |fields| - 1;
      DifferingInOrder(fields[..n], values, draft);
      WithinMore(Differing(fields[..n], values, draft), fields[..n], fields[n]);
      assert fields == fields[..n] + [fields[n]];
    }
  }

  // A reused correction, from the store or from this run, flags what it had applied or flagged as far as
  // it differs from the new draft. Grounds are not reused: unless the guards ground a field again,
  // writing it changes no column and suggests all of it.
  lemma ReuseOnlySuggests(p: Payload, from: seq<Field>, values: Values, draft: Values, row: Row, hash: int)
    requires p == Payload(values, Differing(from, values, draft), p.confidence, {})
    ensures (forall f :: f in p.corrected <==> f in from && Get(values, f) != Get(draft, f)) &&
            Within(p.corrected, from)
    ensures forall f :: Get(Written(row, p, hash).values, f) == Get(row.values, f)
    ensures forall f :: f !in Written(row, p, hash).mark.value.applied
  {
    DifferingIs(from, values, draft);
    DifferingInOrder(from, values, draft);
    WriteIs(row, p, hash);
  }

  lemma ReusedOnlySuggests(row: Row, draft: Values, row2: Row, hash: int, f: Field)
    requires row.mark.Some?
    ensures var p := Reused(row, draft);
            && p.values == row.values && p.confidence == row.mark.value.confidence
            && (f in p.corrected <==> f in row.mark.value.applied && Get(row.values, f) != Get(draft, f))
            && Within(p.corrected, row.mark.value.applied)
            && Get(Written(row2, p, hash).values, f) == Get(row2.values, f)
  {
    ReuseOnlySuggests(Reused(row, draft), row.mark.value.applied, row.values, draft, row2, hash);
  }

  lemma AgainOnlySuggests(p: Payload, draft: Values, row: Row, hash: int, f: Field)
    ensures var p' := Again(p, draft);
            && p'.values == p.values && p'.confidence == p.confidence
            && (f in p'.corrected <==> f in p.corrected && Get(p.values, f) != Get(draft, f))
            && Within(p'.corrected, p.corrected)
            && Get(Written(row, p', hash).values, f) == Get(row.values, f)
  {
    ReuseOnlySuggests(Again(p, draft), p.corrected, p.values, draft, row, hash);
  }

  // A later copy with the same draft gets from the store exactly the fields that were applied and
  // changed something: what was only suggested for the first copy is not suggested again.
  lemma SuggestionsAreNotReused(row: Row, p: Payload, hash: int, f: Field)
    ensures f in Reused(Written(row, p, hash), row.values).corrected
        <==> f in p.corrected && CanApply(p, row, f) && Get(p.values, f) != Get(row.values, f)
  {
    var n := |p.corrected|;
    NoneIsLost(p, row, n);
    assert p.corrected[..n] == p.corrected;
    OverwrittenIs(row.values, p, Applied(p, row, n));
    DifferingIs(Applied(p, row, n), Written(row, p, hash).values, row.values);
    AppliedIff(p, row, n, f);
  }

  lemma {:induction false} AppliedIff(p: Payload, row: Row, n: nat, f: Field)
    requires n <= |p.corrected|
    ensures f in Applied(p, row, n) <==> f in p.corrected[..n] && CanApply(p, row, f)
  {
    if n > 0 {
      AppliedIff(p, row, n - 1, f);
      assert p.corrected[..n] == p.corrected[..n - 1] + [p.corrected[n - 1]];
    }
  }

  // ----- A run -----

  // What goes wrong with a candidate, if anything: it has no text, the model call raises, or the
  // checks or the write raise.
  datatype Trouble = Smooth | NoText | CallRaises | LaterRaises

  // answer is what the model would say, guarded what the shared guards make of a payload. The row
  // at id is the one to be corrected.
  datatype Candidate = Candidate(id: int, hash: int, index: int, answer: Payload, guard: Payload -> Payload,
                                 trouble: Trouble)

  function KeyOf(c: Candidate): (k: Key) { (c.hash, c.index) }

  datatype Summary = Summary(selected: nat, processed: nat, corrected: nat, reused: nat, skipped: nat, apiCalls: nat,
                             complete: bool)

  predicate IsMarked(row: Row, k: Key) { row.mark.Some? && row.mark.value.hash == k.0 && row.index == k.1 }

  // Some row has been corrected for this key.
  ghost predicate Stored(rows: map<int, Row>, k: Key) { exists id :: id in rows && IsMarked(rows[id], k) }

  // The candidates of a run: rows that were not corrected yet, each once.
  ghost predicate Candidates(cs: seq<Candidate>, from: nat, rows: map<int, Row>)
  {
    && (forall i, j :: 0 <= i < j < |cs| ==> cs[i].id != cs[j].id)
    && (forall i :: from <= i < |cs| ==>
          cs[i].id in rows && rows[cs[i].id].index == cs[i].index && rows[cs[i].id].mark.None?)
  }

  // What a candidate's write is made from: the model's answer, the answer to an earlier copy in the
  // same run, or what a stored row of the same key was corrected to.
  ghost predicate BaseOf(base: Payload, c: Candidate, cache: map<Key, Payload>, rows: map<int, Row>, calledNow: bool)
    requires c.id in rows
  {
    if calledNow then base == c.answer
    else if KeyOf(c) in cache then base == Again(cache[KeyOf(c)], rows[c.id].values)
    else FromStore(base, KeyOf(c), rows[c.id].values, rows)
  }

  // The fields that a candidate counts as corrected: those the write applied, in a dry run all flagged.
  function Taken(c: Candidate, base: Payload, row: Row, dryRun: bool): (fields: seq<Field>)
  {
    var p := c.guard(base);
    if dryRun then p.corrected else Applied(p, row, |p.corrected|)
  }

  // In a run that writes these are the fields the correction may take, in a dry run all it flags.
  lemma TakenIs(c: Candidate, base: Payload, row: Row, dryRun: bool, f: Field)
    ensures var p := c.guard(base);
            && (f in Taken(c, base, row, dryRun) <==> if dryRun then f in p.corrected else Takes(row, p, f))
            && Within(Taken(c, base, row, dryRun), p.corrected)
  {
    var p := c.guard(base);
    assert p.corrected[..|p.corrected|] == p.corrected;
    if dryRun {
      WithinSelf(p.corrected);
    } else {
      AppliedIff(p, row, |p.corrected|, f);
      TakesIff(row, p, f);
      SplitInOrder(p, row, |p.corrected|);
    }
  }

  lemma {:induction false} WithinSelf<T>(s: seq<T>)
    ensures Within(s, s)
  {
    if s != [] { WithinSelf(s[..|s| - 1]); }
  }

  // The candidates that are counted as corrected.
  ghost function Corrected(cs: seq<Candidate>, bases: seq<Payload>, rows0: map<int, Row>, dryRun: bool): (s: set<nat>)
    requires |bases| <= |cs|
  {
    set i: nat | i < |bases| && cs[i].id in rows0 && Taken(cs[i], bases[i], rows0[cs[i].id], dryRun) != []
  }

  lemma CorrectedOneMore(cs: seq<Candidate>, bases: seq<Payload>, base: Payload, rows0: map<int, Row>, dryRun: bool)
    requires |bases| < |cs| && cs[|bases|].id in rows0
    ensures |Corrected(cs, bases + [base], rows0, dryRun)| ==
            |Corrected(cs, bases, rows0, dryRun)| +
            if Taken(cs[|bases|], base, rows0[cs[|bases|].id], dryRun) != [] then 1 else 0
  {
    var n := |bases|;
    var one := if Taken(cs[n], base, rows0[cs[n].id], dryRun) != [] then {n} else {};
    assert Corrected(cs, bases + [base], rows0, dryRun) == Corrected(cs, bases, rows0, dryRun) + one;
  }

  ghost predicate FromStore(base: Payload, k: Key, draft: Values, rows: map<int, Row>)
  {
    exists id :: id in rows && IsMarked(rows[id], k) && base == Reused(rows[id], draft)
  }

  class CorrectionLayer {
    var rows: map<int, Row>
    // The keys the model was called for by completed runs that wrote, in order.
    ghost var called: seq<Key>

    // No key was called for twice, and whatever was called for is in the store.
    ghost predicate Valid()
      reads this
    {
      Distinct(called) && forall i :: 0 <= i < |called| ==> Stored(rows, called[i])
    }

    constructor (rows: map<int, Row>)
      ensures Valid() && this.rows == rows && called == []
    {
      this.rows := rows;
      called := [];
    }

    // Some row corrected for this key, if there is one.
    method Existing(k: Key) returns (found: Option<Row>)
      ensures found.Some? <==> Stored(rows, k)
      ensures found.Some? ==> exists id :: id in rows && IsMarked(rows[id], k) && found.value == rows[id]
    {
      if id :| id in rows && IsMarked(rows[id], k) { found := Some(rows[id]); } else { found := None; }
    }

    method WriteCorrection(id: int, p: Payload, hash: int) returns (applied: seq<Field>)
      requires id in rows
      modifies this`rows
      ensures rows == old(rows)[id := Written(old(rows[id]), p, hash)]
      ensures applied == Applied(p, old(rows[id]), |p.corrected|)
    {
      var row := rows[id];
      var suggestions: seq<Suggestion>, values := [], row.values;
      applied := [];
      for n := 0 to |p.corrected|
        invariant applied == Applied(p, row, n) && suggestions == Suggested(p, row, n)
        invariant values == Overwritten(row.values, p, applied)
      {
        var f := p.corrected[n];
        if f in p.grounded && (!Get(row.values, f).Present? || Outscores(p, row)) {
          assert (applied + [f])[..|applied|] == applied;
          values := values[f := Get(p.values, f)];
          applied := applied + [f];
        } else {
          suggestions := suggestions + [Suggest(p, f)];
        }
      }
      var kept := if suggestions != [] then row.suggestions + suggestions else row.suggestions;
      assert row.suggestions + [] == row.suggestions;
      rows := rows[id := row.(values := values, suggestions := kept, mark := Some(Mark(hash, applied, p.confidence)))];
    }

    // One candidate: reuse, or call, or stop at the cap.
    method Correct(c: Candidate, dryRun: bool, cap: nat, cache: map<Key, Payload>, s: Summary)
      returns (cache': map<Key, Payload>, s': Summary, stop: bool, raised: bool, ghost calledNow: bool,
               ghost base: Payload)
      requires c.id in rows && rows[c.id].index == c.index && rows[c.id].mark.None?
      modifies this`rows
      ensures calledNow ==> KeyOf(c) !in cache && !Stored(old(rows), KeyOf(c)) && s.apiCalls < cap
      ensures s'.apiCalls == s.apiCalls + if calledNow then 1 else 0
      ensures s'.selected == s.selected && s'.complete == s.complete && cache.Keys <= cache'.Keys
      ensures dryRun || stop || raised ==> rows == old(rows)
      ensures c.id in rows && rows == old(rows)[c.id := rows[c.id]]
      ensures forall k :: Stored(old(rows), k) ==> Stored(rows, k)
      ensures stop ==>
                s' == s && cache' == cache && !raised && s.apiCalls >= cap && KeyOf(c) !in cache &&
                !Stored(old(rows), KeyOf(c))
      ensures !stop && !raised ==>
        && cache' == (if calledNow then cache[KeyOf(c) := c.answer] else cache)
        && s'.processed == s.processed + 1
        && s'.apiCalls + s'.reused == s.apiCalls + s.reused + 1
        && s'.corrected + s'.skipped == s.corrected + s.skipped + 1
        && (calledNow <==> KeyOf(c) !in cache && !Stored(old(rows), KeyOf(c)))
        && (!dryRun ==> Stored(rows, KeyOf(c)))
        && BaseOf(base, c, cache, old(rows), calledNow)
        && (!dryRun ==> rows[c.id] == Written(old(rows[c.id]), c.guard(base), c.hash))
        && s'.corrected == s.corrected + (if Taken(c, base, old(rows[c.id]), dryRun) != [] then 1 else 0)
      ensures raised ==> c.trouble != Smooth && s'.processed == s.processed
    {
      cache', s', stop, raised, calledNow, base := cache, s, false, false, false, c.answer;
      if c.trouble == NoText { raised := true; return; }
      var draft := rows[c.id].values;
      var payload: Payload;
      var existing := Existing(KeyOf(c));
      if KeyOf(c) in cache || existing.Some? {
        payload := if KeyOf(c) in cache then Again(cache[KeyOf(c)], draft) else Reused(existing.value, draft);
        s' := s'.(reused := s'.reused + 1);
      } else if s.apiCalls >= cap {
        stop := true;
        return;
      } else {
        calledNow := true;
        s' := s'.(apiCalls := s'.apiCalls + 1);
        if c.trouble == CallRaises { raised := true; return; }
        payload := c.answer;
        cache' := cache[KeyOf(c) := payload];
      }
      if c.trouble == LaterRaises { raised := true; return; }
      base := payload;
      payload := c.guard(payload);
      var applied := payload.corrected;
      if !dryRun {
        ghost var before := rows;
        applied := WriteCorrection(c.id, payload, c.hash);
        StillStored(before, rows, c.id);
        assert IsMarked(rows[c.id], KeyOf(c));
      }
      s' := s'.(processed := s'.processed + 1);
      s' := if applied != [] then s'.(corrected := s'.corrected + 1) else s'.(skipped := s'.skipped + 1);
    }

    // The next candidate of a run.
    method CorrectNext(cs: seq<Candidate>, n: nat, dryRun: bool, cap: nat, cache: map<Key, Payload>, s: Summary,
                       ghost calls: seq<Key>, ghost bases: seq<Payload>, ghost rows0: map<int, Row>)
      returns (cache': map<Key, Payload>, s': Summary, stop: bool, raised: bool,
               ghost calls': seq<Key>, ghost bases': seq<Payload>)
      requires n < |cs| && Underway(cs, n, calls, bases, cache, rows0, rows, dryRun) && s.apiCalls == |calls| <= cap
      requires s.corrected == |Corrected(cs, bases, rows0, dryRun)|
      modifies this`rows
      ensures s'.apiCalls == |calls'| <= cap && s'.selected == s.selected && s'.complete == s.complete
      ensures !stop && !raised ==>
        && Underway(cs, n + 1, calls', bases', cache', rows0, rows, dryRun) && s'.processed == s.processed + 1
        && s'.apiCalls + s'.reused == s.apiCalls + s.reused + 1 &&
           s'.corrected + s'.skipped == s.corrected + s.skipped + 1
        && s'.corrected == |Corrected(cs, bases', rows0, dryRun)|
      ensures stop ==>
                !raised && s' == s && s.apiCalls >= cap && Underway(cs, n, calls', bases', cache', rows0, rows, dryRun)
      ensures stop ==> bases' == bases
      ensures raised ==>
        && cs[n].trouble != Smooth && s'.processed == s.processed &&
           RunKeeps(cs, n, calls', bases', rows0, rows, dryRun)
    {
      ghost var before, calledNow, base := rows, false, cs[n].answer;
      CandidateFits(cs, n, rows);
      cache', s', stop, raised, calledNow, base := Correct(cs[n], dryRun, cap, cache, s);
      calls', bases' := calls, bases;
      if calledNow { calls' := calls + [KeyOf(cs[n])]; }
      if raised {
        RaisedKeeps(cs, n, calls, bases, cache, rows0, rows, dryRun, calledNow);
      } else if !stop {
        UnderwayStep(cs, n, calls, bases, base, cache, cache', rows0, before, rows, dryRun, calledNow);
        CorrectedOneMore(cs, bases, base, rows0, dryRun);
        bases' := bases + [base];
      }
    }

    // A run. Its calls are the keys the model was called for, in order; bases are the payloads it
    // made its writes from, candidate by candidate.
    method Run(cs: seq<Candidate>, dryRun: bool, cap: nat)
      returns (s: Summary, ghost calls: seq<Key>, ghost bases: seq<Payload>)
      requires Valid() && Candidates(cs, 0, rows)
      modifies this
      ensures s.selected == |cs| && s.apiCalls == |calls| <= cap
      ensures s.complete ==>
        && s.corrected + s.skipped == s.selected
        && s.apiCalls + s.reused == s.processed <= s.selected
        && (s.processed < s.selected ==> s.apiCalls == cap)
        && s.processed == |bases| && s.corrected == |Corrected(cs, bases, old(rows), dryRun)|
      ensures Valid() && called == if dryRun || !s.complete then old(called) else old(called) + calls
      ensures !s.complete ==> exists i :: 0 <= i < |cs| && cs[i].trouble != Smooth
      ensures RunKeeps(cs, s.processed, calls, bases, old(rows), rows, dryRun)
    {
      s, calls, bases := Summary(|cs|, 0, 0, 0, 0, 0, false), [], [];
      var cache: map<Key, Payload> := map[];
      var n, stop := 0, false;
      ghost var rows0 := rows;
      UnderwayStarts(cs, rows, dryRun);
      while n < |cs| && !stop
        invariant n <= |cs| && called == old(called) && Underway(cs, n, calls, bases, cache, rows0, rows, dryRun)
        invariant s.selected == |cs| && s.processed == n && !s.complete && s.apiCalls == |calls| <= cap
        invariant s.apiCalls + s.reused == n && s.corrected + s.skipped == n
        invariant stop ==> s.apiCalls >= cap && n < |cs|
        invariant s.corrected == |Corrected(cs, bases, rows0, dryRun)|
        decreases |cs| - n, !stop
      {
        var raised;
        cache, s, stop, raised, calls, bases := CorrectNext(cs, n, dryRun, cap, cache, s, calls, bases, rows0);
        if raised {
          KeptValid(cs, n, calls, bases, called, rows0, rows, dryRun);
          return;
        }
        if !stop { n := n + 1; }
      }
      UnderwayEnds(cs, n, calls, bases, cache, rows0, rows, dryRun);
      KeptValid(cs, n, calls, bases, called, rows0, rows, dryRun);
      if stop { s := s.(skipped := s.skipped + (|cs| - s.processed)); }
      s := s.(complete := true);
      if !dryRun { called := called + calls; }
    }
  }

  // What a run keeps, wherever it ends: no key called for twice or for what was stored, every payload
  // traced, and the rows written from the payloads and from nothing else.
  ghost predicate RunKeeps(cs: seq<Candidate>, n: nat, calls: seq<Key>, bases: seq<Payload>,
                           rows0: map<int, Row>, rows: map<int, Row>, dryRun: bool)
  {
    && Distinct(calls) && (forall i :: 0 <= i < |calls| ==> !Stored(rows0, calls[i]))
    && |bases| == n && Origins(cs, bases, rows0, rows)
    && (if dryRun then rows == rows0 else Rewrites(cs, bases, rows0, rows))
    && (forall k :: Stored(rows0, k) ==> Stored(rows, k))
  }

  // A run before candidate n.
  ghost predicate Underway(cs: seq<Candidate>, n: nat, calls: seq<Key>, bases: seq<Payload>, cache: map<Key, Payload>,
                           rows0: map<int, Row>, rows: map<int, Row>, dryRun: bool)
  {
    && n <= |cs| && |bases| == n && Candidates(cs, n, rows)
    && Called(calls, cache, rows0, rows, dryRun) && Traced(cs, bases, cache, rows0, rows, dryRun)
  }

  lemma UnderwayStarts(cs: seq<Candidate>, rows: map<int, Row>, dryRun: bool)
    requires Candidates(cs, 0, rows)
    ensures Underway(cs, 0, [], [], map[], rows, rows, dryRun)
  {
  }

  lemma CandidateFits(cs: seq<Candidate>, n: nat, rows: map<int, Row>)
    requires n < |cs| && Candidates(cs, n, rows)
    ensures cs[n].id in rows && rows[cs[n].id].index == cs[n].index && rows[cs[n].id].mark.None?
  {
  }

  // Whoever calls for a key that is neither cached nor stored calls for it the first time.
  lemma RaisedKeeps(cs: seq<Candidate>, n: nat, calls: seq<Key>, bases: seq<Payload>, cache: map<Key, Payload>,
                    rows0: map<int, Row>, rows: map<int, Row>, dryRun: bool, calledNow: bool)
    requires n < |cs| && Underway(cs, n, calls, bases, cache, rows0, rows, dryRun)
    requires calledNow ==> KeyOf(cs[n]) !in cache && !Stored(rows, KeyOf(cs[n]))
    ensures RunKeeps(cs, n, if calledNow then calls + [KeyOf(cs[n])] else calls, bases, rows0, rows, dryRun)
  {
    UnderwayEnds(cs, n, calls, bases, cache, rows0, rows, dryRun);
  }

  lemma UnderwayEnds(cs: seq<Candidate>, n: nat, calls: seq<Key>, bases: seq<Payload>, cache: map<Key, Payload>,
                     rows0: map<int, Row>, rows: map<int, Row>, dryRun: bool)
    requires Underway(cs, n, calls, bases, cache, rows0, rows, dryRun)
    ensures RunKeeps(cs, n, calls, bases, rows0, rows, dryRun)
    ensures !dryRun ==> forall i :: 0 <= i < |calls| ==> Stored(rows, calls[i])
  {
  }

  lemma KeptValid(cs: seq<Candidate>, n: nat, calls: seq<Key>, bases: seq<Payload>, called: seq<Key>,
                  rows0: map<int, Row>, rows: map<int, Row>, dryRun: bool)
    requires RunKeeps(cs, n, calls, bases, rows0, rows, dryRun)
    requires Distinct(called) && forall i :: 0 <= i < |called| ==> Stored(rows0, called[i])
    ensures forall i :: 0 <= i < |called| ==> Stored(rows, called[i])
    ensures (forall i :: 0 <= i < |calls| ==> Stored(rows, calls[i])) ==>
              Distinct(called + calls) && forall i :: 0 <= i < |called + calls| ==> Stored(rows, (called + calls)[i])
  {
  }

  lemma CandidatesStep(cs: seq<Candidate>, n: nat, before: map<int, Row>, rows: map<int, Row>)
    requires n < |cs| && Candidates(cs, n, before) && cs[n].id in rows && rows == before[cs[n].id := rows[cs[n].id]]
    ensures Candidates(cs, n + 1, rows)
  {
    assert forall i :: n < i < |cs| ==> cs[i].id != cs[n].id;
  }

  lemma CalledStep(calls: seq<Key>, k: Key, cache: map<Key, Payload>, cache': map<Key, Payload>, rows0: map<int, Row>,
                   before: map<int, Row>, rows: map<int, Row>, dryRun: bool, calledNow: bool)
    requires Called(calls, cache, rows0, before, dryRun) && cache.Keys <= cache'.Keys && (calledNow ==> k in cache')
    requires forall x :: Stored(before, x) ==> Stored(rows, x)
    requires calledNow ==> k !in cache && !Stored(before, k) && (!dryRun ==> Stored(rows, k))
    requires dryRun ==> rows == before
    ensures Called(if calledNow then calls + [k] else calls, cache', rows0, rows, dryRun)
  {
  }

  lemma UnderwayStep(cs: seq<Candidate>, n: nat, calls: seq<Key>, bases: seq<Payload>, base: Payload,
                     cache: map<Key, Payload>, cache': map<Key, Payload>, rows0: map<int, Row>, before: map<int, Row>,
                     rows: map<int, Row>, dryRun: bool, calledNow: bool)
    requires n < |cs| && Underway(cs, n, calls, bases, cache, rows0, before, dryRun) && cs[n].id in before
    requires BaseOf(base, cs[n], cache, before, calledNow)
    requires cache' == if calledNow then cache[KeyOf(cs[n]) := cs[n].answer] else cache
    requires calledNow ==> KeyOf(cs[n]) !in cache && !Stored(before, KeyOf(cs[n]))
    requires cs[n].id in rows && rows == before[cs[n].id := rows[cs[n].id]] && (dryRun ==> rows == before)
    requires !dryRun ==>
               Stored(rows, KeyOf(cs[n])) && rows[cs[n].id] == Written(before[cs[n].id], cs[n].guard(base), cs[n].hash)
    requires forall k :: Stored(before, k) ==> Stored(rows, k)
    ensures Underway(cs, n + 1, if calledNow then calls + [KeyOf(cs[n])] else calls,
                     bases + [base], cache', rows0, rows, dryRun)
  {
    CandidatesStep(cs, n, before, rows);
    CalledStep(calls, KeyOf(cs[n]), cache, cache', rows0, before, rows, dryRun, calledNow);
    TracedStep(cs, bases, base, cache, cache', rows0, before, rows, dryRun, calledNow);
  }

  // The rows of the first candidates as written from these payloads, and no other row changed.
  ghost predicate Rewrites(cs: seq<Candidate>, bases: seq<Payload>, rows0: map<int, Row>, rows: map<int, Row>)
  {
    && |bases| <= |cs| && rows.Keys == rows0.Keys
    && (forall i :: 0 <= i < |bases| ==> cs[i].id in rows0 && WrittenFrom(cs[i], bases[i], rows0, rows))
    && (forall id :: id in rows0 && (forall i :: 0 <= i < |bases| ==> cs[i].id != id) ==> rows[id] == rows0[id])
  }

  predicate WrittenFrom(c: Candidate, base: Payload, rows0: map<int, Row>, rows: map<int, Row>)
    requires c.id in rows0
  {
    c.id in rows && rows[c.id] == Written(rows0[c.id], c.guard(base), c.hash)
  }

  ghost predicate Origin(cs: seq<Candidate>, i: nat, base: Payload, rows0: map<int, Row>, rows: map<int, Row>)
    requires i < |cs|
  {
    cs[i].id in rows0 &&
    (|| base == cs[i].answer
     || (exists j :: 0 <= j < i && KeyOf(cs[j]) == KeyOf(cs[i]) && base == Again(cs[j].answer, rows0[cs[i].id].values))
     || FromStore(base, KeyOf(cs[i]), rows0[cs[i].id].values, rows))
  }

  ghost predicate Origins(cs: seq<Candidate>, bases: seq<Payload>, rows0: map<int, Row>, rows: map<int, Row>)
  {
    |bases| <= |cs| && forall i: nat :: i < |bases| ==> Origin(cs, i, bases[i], rows0, rows)
  }

  // Every cached payload is the answer to an earlier candidate of its key.
  ghost predicate Answers(cs: seq<Candidate>, n: nat, cache: map<Key, Payload>)
    requires n <= |cs|
  {
    forall k :: k in cache ==> exists j :: 0 <= j < n && KeyOf(cs[j]) == k && cache[k] == cs[j].answer
  }

  ghost predicate Traced(cs: seq<Candidate>, bases: seq<Payload>, cache: map<Key, Payload>, rows0: map<int, Row>,
                         rows: map<int, Row>, dryRun: bool)
  {
    && Origins(cs, bases, rows0, rows) && Answers(cs, |bases|, cache)
    && if dryRun then rows == rows0 else Rewrites(cs, bases, rows0, rows)
  }

  // A marked row is written no more, so what came from it still does.
  lemma StillFromStore(base: Payload, k: Key, draft: Values, before: map<int, Row>, rows: map<int, Row>, id: int)
    requires FromStore(base, k, draft, before)
    requires id in before && before[id].mark.None? && id in rows && rows == before[id := rows[id]]
    ensures FromStore(base, k, draft, rows)
  {
    var at :| at in before && IsMarked(before[at], k) && base == Reused(before[at], draft);
    assert at in rows && rows[at] == before[at];
  }

  lemma StillOrigins(cs: seq<Candidate>, bases: seq<Payload>, rows0: map<int, Row>, before: map<int, Row>,
                     rows: map<int, Row>, id: int)
    requires Origins(cs, bases, rows0, before)
    requires id in before && before[id].mark.None? && id in rows && rows == before[id := rows[id]]
    ensures Origins(cs, bases, rows0, rows)
  {
    forall i: nat | i < |bases| ensures Origin(cs, i, bases[i], rows0, rows) {
      assert Origin(cs, i, bases[i], rows0, before);
      var draft := rows0[cs[i].id].values;
      if FromStore(bases[i], KeyOf(cs[i]), draft, before) {
        StillFromStore(bases[i], KeyOf(cs[i]), draft, before, rows, id);
      }
    }
  }

  lemma BaseIsOrigin(cs: seq<Candidate>, n: nat, base: Payload, cache: map<Key, Payload>, rows0: map<int, Row>,
                     before: map<int, Row>, rows: map<int, Row>, calledNow: bool)
    requires n < |cs| && cs[n].id in rows0 && cs[n].id in before && before[cs[n].id] == rows0[cs[n].id]
    requires BaseOf(base, cs[n], cache, before, calledNow) && Answers(cs, n, cache)
    requires before[cs[n].id].mark.None? && cs[n].id in rows && rows == before[cs[n].id := rows[cs[n].id]]
    ensures Origin(cs, n, base, rows0, rows)
  {
    if !calledNow && KeyOf(cs[n]) !in cache {
      StillFromStore(base, KeyOf(cs[n]), rows0[cs[n].id].values, before, rows, cs[n].id);
    }
  }

  lemma RewritesStep(cs: seq<Candidate>, bases: seq<Payload>, base: Payload, rows0: map<int, Row>,
                     before: map<int, Row>, rows: map<int, Row>)
    requires |bases| < |cs| && Rewrites(cs, bases, rows0, before) && Candidates(cs, |bases|, before)
    requires var c := cs[|bases|];
             c.id in rows && rows == before[c.id := rows[c.id]] &&
                 rows[c.id] == Written(before[c.id], c.guard(base), c.hash)
    ensures before[cs[|bases|].id] == rows0[cs[|bases|].id] && Rewrites(cs, bases + [base], rows0, rows)
  {
    var n := |bases|;
    assert forall i :: 0 <= i < n ==> cs[i].id != cs[n].id;
    assert before[cs[n].id] == rows0[cs[n].id];
    forall i | 0 <= i < n + 1 ensures cs[i].id in rows0 && WrittenFrom(cs[i], (bases + [base])[i], rows0, rows) {
      if i < n { assert WrittenFrom(cs[i], bases[i], rows0, before); }
    }
    forall id | id in rows0 && (forall i :: 0 <= i < n + 1 ==> cs[i].id != id) ensures rows[id] == rows0[id] {
      assert cs[n].id != id;
    }
  }

  lemma AnswersStep(cs: seq<Candidate>, n: nat, cache: map<Key, Payload>, cache': map<Key, Payload>, calledNow: bool)
    requires n < |cs| && Answers(cs, n, cache)
    requires cache' == if calledNow then cache[KeyOf(cs[n]) := cs[n].answer] else cache
    ensures Answers(cs, n + 1, cache')
  {
    forall k | k in cache' ensures exists j :: 0 <= j < n + 1 && KeyOf(cs[j]) == k && cache'[k] == cs[j].answer {
      if calledNow && k == KeyOf(cs[n]) {
        assert cache'[k] == cs[n].answer;
      } else {
        var j :| 0 <= j < n && KeyOf(cs[j]) == k && cache[k] == cs[j].answer;
      }
    }
  }

  lemma TracedStep(cs: seq<Candidate>, bases: seq<Payload>, base: Payload, cache: map<Key, Payload>,
                   cache': map<Key, Payload>, rows0: map<int, Row>, before: map<int, Row>, rows: map<int, Row>,
                   dryRun: bool, calledNow: bool)
    requires |bases| < |cs| && Traced(cs, bases, cache, rows0, before, dryRun) && Candidates(cs, |bases|, before)
    requires BaseOf(base, cs[|bases|], cache, before, calledNow)
    requires cache' == if calledNow then cache[KeyOf(cs[|bases|]) := cs[|bases|].answer] else cache
    requires var c := cs[|bases|];
             && c.id in rows && rows == before[c.id := rows[c.id]]
             && if dryRun then rows == before else rows[c.id] == Written(before[c.id], c.guard(base), c.hash)
    ensures Traced(cs, bases + [base], cache', rows0, rows, dryRun)
  {
    var n := |bases|;
    if !dryRun { RewritesStep(cs, bases, base, rows0, before, rows); }
    StillOrigins(cs, bases, rows0, before, rows, cs[n].id);
    BaseIsOrigin(cs, n, base, cache, rows0, before, rows, calledNow);
    AnswersStep(cs, n, cache, cache', calledNow);
    forall i: nat | i < n + 1 ensures Origin(cs, i, (bases + [base])[i], rows0, rows) {
      if i < n { assert Origin(cs, i, bases[i], rows0, rows); }
    }
  }

  // Over a whole run: a column changes only in the row of a candidate, to what its guarded payload
  // proposes, if that flags and grounds it, and over a value only if it outscores the model.
  lemma RunIsCautious(cs: seq<Candidate>, bases: seq<Payload>, rows0: map<int, Row>, rows: map<int, Row>, id: int,
                      f: Field)
    returns (i: nat)
    requires Rewrites(cs, bases, rows0, rows) && id in rows0 && Get(rows[id].values, f) != Get(rows0[id].values, f)
    ensures i < |bases| <= |cs| && cs[i].id == id
    ensures var p := cs[i].guard(bases[i]);
            && f in p.corrected && f in p.grounded && Get(rows[id].values, f) == Get(p.values, f)
            && (Get(rows0[id].values, f).Present? ==> Outscores(p, rows0[id]))
  {
    i :| 0 <= i < |bases| && cs[i].id == id;
    assert WrittenFrom(cs[i], bases[i], rows0, rows);
    WriteIsCautious(rows0[id], cs[i].guard(bases[i]), cs[i].hash, f);
  }

  // The calls of a run so far: each key once, none that was stored before; what was called for is
  // in the run's cache, and in the store if the run writes.
  ghost predicate Called(calls: seq<Key>, cache: map<Key, Payload>, rows0: map<int, Row>, rows: map<int, Row>,
                         dryRun: bool)
  {
    && Distinct(calls)
    && (forall i :: 0 <= i < |calls| ==>
          calls[i] in cache && !Stored(rows0, calls[i]) && (!dryRun ==> Stored(rows, calls[i])))
    && (forall k :: Stored(rows0, k) ==> Stored(rows, k))
    && (dryRun ==> rows == rows0)
  }

  lemma StillStored(before: map<int, Row>, rows: map<int, Row>, id: int)
    requires id in before && before[id].mark.None? && id in rows && rows == before[id := rows[id]]
    ensures forall k :: Stored(before, k) ==> Stored(rows, k)
  {
    forall k | Stored(before, k) ensures Stored(rows, k) {
      var at :| at in before && IsMarked(before[at], k);
      assert at in rows && IsMarked(rows[at], k);
    }
  }

  // A payload of this run, for another copy of the text: only what differs from its draft.
  function Again(p: Payload, draft: Values): (p': Payload)
  {
    p.(corrected := Differing(p.corrected, p.values, draft), grounded := {})
  }
}
