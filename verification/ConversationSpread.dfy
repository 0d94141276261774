// Choosing messages so that they come from as many conversations as possible.
module ConversationSpread {
  import opened Sequences

  // A ranked message: its id, and the conversation it belongs to.
  datatype Row = Row(id: int, conversation: int)

  predicate DistinctIds(rows: seq<Row>) { forall i, j :: 0 <= i < j < |rows| ==> rows[i].id != rows[j].id }

  // The conversations of the first n rows.
  function Conversations(rows: seq<Row>, n: nat): (c: set<int>)
    requires n <= |rows|
    ensures |c| <= n
  {
    if n == 0 then {} else Conversations(rows, n - 1) + {rows[n - 1].conversation}
  }

  function All(rows: seq<Row>): (c: set<int>) { Conversations(rows, |rows|) }

  // The rows that open a conversation, in rank order, until the limit is reached.
  function Openers(rows: seq<Row>, n: nat, limit: nat): (openers: seq<Row>)
    requires n <= |rows|
  {
    if n == 0 then []
    else
      var before := Openers(rows, n - 1, limit);
      if |before| < limit && rows[n - 1].conversation !in All(before) then before + [rows[n - 1]] else before
  }

  // The rows not chosen yet, in rank order.
  function Others(rows: seq<Row>, n: nat, chosen: seq<Row>): (rest: seq<Row>)
    requires n <= |rows|
    ensures |rest| <= n
  {
    if n == 0 then []
    else if exists k :: 0 <= k < |chosen| && chosen[k].id == rows[n - 1].id then Others(rows, n - 1, chosen)
    else Others(rows, n - 1, chosen) + [rows[n - 1]]
  }


  function Spread(rows: seq<Row>, limit: nat): (selected: seq<Row>)
  {
    var openers := Openers(rows, |rows|, limit);
    Take(openers + Others(rows, |rows|, openers), limit)
  }

  method SelectRows(rows: seq<Row>, limit: nat) returns (selected: seq<Row>)
    requires limit >= 1
    ensures selected == Spread(rows, limit)
  {
    selected := [];
    var groups: set<int> := {};
    var n := 0;
    while n < |rows| && |selected| < limit
      invariant n <= |rows| && selected == Openers(rows, n, limit) && groups == All(selected)
    {
      if rows[n].conversation !in groups {
        ConversationsOneMore(selected, rows[n]);
        selected, groups := selected + [rows[n]], groups + {rows[n].conversation};
      }
      n := n + 1;
    }
    FullIsFinal(rows, n, limit);
    if |selected| < limit {
      var chosen, m := selected, 0;
      while m < |rows|
        invariant m <= |rows| && selected == chosen + Others(rows, m, chosen)
      {
        if !exists k :: 0 <= k < |chosen| && chosen[k].id == rows[m].id { selected := selected + [rows[m]]; }
        m := m + 1;
      }
      selected := Take(selected, limit);
    } else {
      OpenersAre(rows, |rows|, limit);
      assert (selected + Others(rows, |rows|, selected))[..limit] == selected;
    }
  }

  lemma ConversationsOneMore(s: seq<Row>, row: Row)
    ensures All(s + [row]) == All(s) + {row.conversation}
  {
    SameStart(s, s + [row], |s|);
  }

  lemma {:induction false} SameStart(a: seq<Row>, b: seq<Row>, n: nat)
    requires n <= |a| <= |b| && forall i :: 0 <= i < n ==> a[i] == b[i]
    ensures Conversations(a, n) == Conversations(b, n)
  {
    if n > 0 { SameStart(a, b, n - 1); }
  }

  // Once the limit is reached, later rows change nothing.
  lemma {:induction false} FullIsFinal(rows: seq<Row>, n: nat, limit: nat)
    requires n <= |rows| && (n < |rows| ==> |Openers(rows, n, limit)| >= limit)
    ensures Openers(rows, |rows|, limit) == Openers(rows, n, limit)
    decreases |rows| - n
  {
    if n < |rows| { FullIsFinal(rows, n + 1, limit); }
  }

  predicate Below(s: seq<Row>, t: seq<Row>) { forall r :: r in s ==> r in t }

  lemma {:induction false} ConversationsOf(rows: seq<Row>, n: nat)
    requires n <= |rows|
    ensures forall i :: 0 <= i < n ==> rows[i].conversation in Conversations(rows, n)
    ensures forall c :: c in Conversations(rows, n) ==> exists i :: 0 <= i < n && rows[i].conversation == c
  {
    if n > 0 { ConversationsOf(rows, n - 1); }
  }

  lemma SubsetOf(s: seq<Row>, t: seq<Row>)
    requires Below(s, t)
    ensures All(s) <= All(t) && |All(s)| <= |All(t)|
  {
    ConversationsOf(s, |s|);
    ConversationsOf(t, |t|);
    forall c | c in All(s) ensures c in All(t) {
      var i :| 0 <= i < |s| && s[i].conversation == c;
      assert s[i] in t;
    }
    assert All(t) == All(s) + (All(t) - All(s));
  }

  // One opener for each conversation met, until the limit.
  lemma {:induction false} OpenersAre(rows: seq<Row>, n: nat, limit: nat)
    requires n <= |rows|
    ensures var o := Openers(rows, n, limit); |o| <= limit && |All(o)| == |o| && Below(o, rows[..n])
    ensures |Openers(rows, n, limit)| < limit ==> All(Openers(rows, n, limit)) == Conversations(rows, n)
  {
    if n > 0 {
      OpenersAre(rows, n - 1, limit);
      ConversationsOneMore(Openers(rows, n - 1, limit), rows[n - 1]);
      assert rows[..n] == rows[..n - 1] + [rows[n - 1]];
    }
  }

  // r is the best-ranked row of its conversation.
  predicate IsBest(rows: seq<Row>, n: nat, r: Row)
    requires n <= |rows|
  {
    exists j :: 0 <= j < n && rows[j] == r && forall i :: 0 <= i < j ==> rows[i].conversation != r.conversation
  }

  lemma BestStays(rows: seq<Row>, n: nat, r: Row)
    requires 0 < n <= |rows| && IsBest(rows, n - 1, r)
    ensures IsBest(rows, n, r)
  {
  }

  lemma NewIsBest(rows: seq<Row>, n: nat)
    requires 0 < n <= |rows| && rows[n - 1].conversation !in Conversations(rows, n - 1)
    ensures IsBest(rows, n, rows[n - 1])
  {
    ConversationsOf(rows, n - 1);
  }

  lemma {:induction false} OpenersAreBest(rows: seq<Row>, n: nat, limit: nat)
    requires n <= |rows|
    ensures forall r :: r in Openers(rows, n, limit) ==> IsBest(rows, n, r)
  {
    if n > 0 {
      OpenersAreBest(rows, n - 1, limit);
      OpenersAre(rows, n - 1, limit);
      forall r | r in Openers(rows, n, limit) ensures IsBest(rows, n, r) {
        if r in Openers(rows, n - 1, limit) { BestStays(rows, n, r); } else { NewIsBest(rows, n); }
      }
    }
  }

  lemma {:induction false} OthersAre(rows: seq<Row>, n: nat, chosen: seq<Row>)
    requires n <= |rows| && DistinctIds(rows)
    ensures var rest := Others(rows, n, chosen);
            && Below(rest, rows[..n]) && DistinctIds(rest)
            && (forall i, k :: 0 <= i < |rest| && 0 <= k < |chosen| ==> rest[i].id != chosen[k].id)
            && (forall i :: 0 <= i < n ==> rows[i] in rest || exists k ::
                  0 <= k < |chosen| && chosen[k].id == rows[i].id)
  {
    if n > 0 {
      OthersAre(rows, n - 1, chosen);
      var before := Others(rows, n - 1, chosen);
      assert rows[..n] == rows[..n - 1] + [rows[n - 1]];
      forall i | 0 <= i < |before| ensures before[i].id != rows[n - 1].id {
        assert before[i] in rows[..n - 1];
        var j :| 0 <= j < n - 1 && rows[j] == before[i];
      }
    }
  }

  // The selection covers as many conversations as there are, up to the limit.
  lemma SpreadCovers(rows: seq<Row>, limit: nat)
    requires DistinctIds(rows)
    ensures |Spread(rows, limit)| <= limit && Below(Spread(rows, limit), rows)
    ensures |All(Spread(rows, limit))| == if |All(rows)| < limit then |All(rows)| else limit
  {
    var o := Openers(rows, |rows|, limit);
    var rest := Others(rows, |rows|, o);
    OpenersAre(rows, |rows|, limit);
    OthersAre(rows, |rows|, o);
    assert rows[..|rows|] == rows;
    var selected := Spread(rows, limit);
    assert Below(o, selected) by { assert forall k :: 0 <= k < |o| ==> selected[k] == o[k]; }
    SubsetOf(o, selected);
    SubsetOf(selected, rows);
    SubsetOf(o, rows);
  }

  // No choice of as many rows covers more conversations.
  lemma NoChoiceSpreadsFurther(rows: seq<Row>, limit: nat, choice: seq<Row>)
    requires DistinctIds(rows) && |choice| <= limit && Below(choice, rows)
    ensures |All(choice)| <= |All(Spread(rows, limit))|
  {
    SpreadCovers(rows, limit);
    SubsetOf(choice, rows);
  }

  // Of a conversation that is covered the best-ranked row is selected.
  lemma BestOfEach(rows: seq<Row>, limit: nat, i: nat)
    requires DistinctIds(rows) && i < |rows| && rows[i].conversation in All(Spread(rows, limit))
    requires forall j :: 0 <= j < i ==> rows[j].conversation != rows[i].conversation
    ensures rows[i] in Spread(rows, limit)
  {
    var o, selected := Openers(rows, |rows|, limit), Spread(rows, limit);
    OpenersAre(rows, |rows|, limit);
    CoveredIsOpened(rows, limit, rows[i].conversation);
    ConversationsOf(o, |o|);
    var k :| 0 <= k < |o| && o[k].conversation == rows[i].conversation;
    OpenersAreBest(rows, |rows|, limit);
    assert o[k] in o && selected[k] == o[k];
    OneBest(rows, i, o[k]);
  }

  lemma OneBest(rows: seq<Row>, i: nat, r: Row)
    requires i < |rows| && IsBest(rows, |rows|, r) && rows[i].conversation == r.conversation
    requires forall j :: 0 <= j < i ==> rows[j].conversation != rows[i].conversation
    ensures rows[i] == r
  {
  }

  lemma CoveredIsOpened(rows: seq<Row>, limit: nat, c: int)
    requires DistinctIds(rows) && c in All(Spread(rows, limit))
    ensures c in All(Openers(rows, |rows|, limit))
  {
    var o, selected := Openers(rows, |rows|, limit), Spread(rows, limit);
    OpenersAre(rows, |rows|, limit);
    SpreadCovers(rows, limit);
    if |o| < limit {
      SubsetOf(selected, rows);
    } else {
      assert (o + Others(rows, |rows|, o))[..limit] == o;
      assert selected == o;
    }
  }

  // Nothing is wasted: every place is filled while rows are left, and none twice.
  lemma SpreadFills(rows: seq<Row>, limit: nat)
    requires DistinctIds(rows)
    ensures |Spread(rows, limit)| == if |rows| < limit then |rows| else limit
    ensures DistinctIds(Spread(rows, limit))
  {
    var o := Openers(rows, |rows|, limit);
    var rest := Others(rows, |rows|, o);
    OpenersAre(rows, |rows|, limit);
    OthersAre(rows, |rows|, o);
    OpenersDistinct(rows, |rows|, limit);
    OthersCount(rows, |rows|, limit);
    assert DistinctIds(o + rest);
  }

  lemma {:induction false} OpenersDistinct(rows: seq<Row>, n: nat, limit: nat)
    requires n <= |rows| && DistinctIds(rows)
    ensures DistinctIds(Openers(rows, n, limit))
  {
    if n > 0 {
      OpenersDistinct(rows, n - 1, limit);
      OpenersAre(rows, n - 1, limit);
      var before := Openers(rows, n - 1, limit);
      forall k | 0 <= k < |before| ensures before[k].id != rows[n - 1].id {
        assert before[k] in rows[..n - 1];
        var j :| 0 <= j < n - 1 && rows[j] == before[k];
      }
    }
  }

  // How many of the chosen rows stand among the first n.
  function Met(rows: seq<Row>, n: nat, chosen: seq<Row>): (k: nat)
    requires n <= |rows|
    ensures k + |Others(rows, n, chosen)| == n
  {
    if n == 0 then 0
    else Met(rows, n - 1, chosen) + if exists k :: 0 <= k < |chosen| && chosen[k].id == rows[n - 1].id then 1 else 0
  }

  lemma OthersCount(rows: seq<Row>, n: nat, limit: nat)
    requires n == |rows| && DistinctIds(rows)
    ensures |Openers(rows, n, limit)| + |Others(rows, n, Openers(rows, n, limit))| == n
  {
    var o := Openers(rows, n, limit);
    OpenersAre(rows, n, limit);
    OpenersDistinct(rows, n, limit);
    assert rows[..n] == rows;
    MetAll(rows, n, o);
  }

  function IdsOf(s: seq<Row>, n: nat): (ids: set<int>)
    requires n <= |s|
  {
    if n == 0 then {} else IdsOf(s, n - 1) + {s[n - 1].id}
  }

  lemma {:induction false} IdsAre(s: seq<Row>, n: nat)
    requires n <= |s|
    ensures forall x :: x in IdsOf(s, n) <==> exists i :: 0 <= i < n && s[i].id == x
    ensures DistinctIds(s) ==> |IdsOf(s, n)| == n
  {
    if n > 0 {
      IdsAre(s, n - 1);
      assert forall x :: x in IdsOf(s, n) <==> x in IdsOf(s, n - 1) || x == s[n - 1].id;
      assert DistinctIds(s) ==> forall i :: 0 <= i < n - 1 ==> s[i].id != s[n - 1].id;
    }
  }

  lemma OneMoreMet(before: set<int>, x: int, ids: set<int>)
    requires x !in before
    ensures |(before + {x}) * ids| == |before * ids| + if x in ids then 1 else 0
  {
    assert (before + {x}) * ids == if x in ids then before * ids + {x} else before * ids;
  }

  lemma NextId(rows: seq<Row>, n: nat, chosen: seq<Row>)
    requires n < |rows| && DistinctIds(rows)
    ensures rows[n].id !in IdsOf(rows, n)
    ensures rows[n].id in IdsOf(chosen, |chosen|) <==> exists k :: 0 <= k < |chosen| && chosen[k].id == rows[n].id
  {
    IdsAre(rows, n);
    IdsAre(chosen, |chosen|);
  }

  lemma {:induction false} MetIs(rows: seq<Row>, n: nat, chosen: seq<Row>)
    requires n <= |rows| && DistinctIds(rows)
    ensures Met(rows, n, chosen) == |IdsOf(rows, n) * IdsOf(chosen, |chosen|)|
  {
    if n > 0 {
      MetIs(rows, n - 1, chosen);
      NextId(rows, n - 1, chosen);
      OneMoreMet(IdsOf(rows, n - 1), rows[n - 1].id, IdsOf(chosen, |chosen|));
    }
  }

  lemma MetAll(rows: seq<Row>, n: nat, chosen: seq<Row>)
    requires n == |rows| && DistinctIds(rows) && DistinctIds(chosen) && Below(chosen, rows)
    ensures Met(rows, n, chosen) == |chosen|
  {
    MetIs(rows, n, chosen);
    IdsAre(rows, n);
    IdsAre(chosen, |chosen|);
    forall x | x in IdsOf(chosen, |chosen|) ensures x in IdsOf(rows, n) {
      var i :| 0 <= i < |chosen| && chosen[i].id == x;
      assert chosen[i] in rows;
    }
    assert IdsOf(rows, n) * IdsOf(chosen, |chosen|) == IdsOf(chosen, |chosen|);
  }

  // ----- The selection told from the places of the rows -----

  // The row at i is the best-ranked one of its conversation.
  predicate Opens(rows: seq<Row>, i: nat)
  {
    i < |rows| && forall j :: 0 <= j < i ==> rows[j].conversation != rows[i].conversation
  }

  predicate Rising(places: seq<nat>) { forall j, k :: 0 <= j < k < |places| ==> places[j] < places[k] }

  predicate At(rows: seq<Row>, places: seq<nat>, chosen: seq<Row>)
  {
    |chosen| == |places| && forall k :: 0 <= k < |places| ==> places[k] < |rows| && chosen[k] == rows[places[k]]
  }

  // places are the first ones, up to the limit, that are wanted among the first n.
  predicate FirstPlaces(places: seq<nat>, n: nat, limit: nat, wanted: nat -> bool)
  {
    && Rising(places) && |places| <= limit && (forall k :: 0 <= k < |places| ==> places[k] < n && wanted(places[k]))
    && forall i: nat :: i < n && wanted(i) && i !in places ==>
         |places| == limit && forall k :: 0 <= k < |places| ==> places[k] < i
  }

  function Opening(rows: seq<Row>): (f: nat -> bool) { (i: nat) => Opens(rows, i) }

  function Later(rows: seq<Row>): (f: nat -> bool) { (i: nat) => !Opens(rows, i) }

  lemma FirstPlacesGrow(before: seq<nat>, places: seq<nat>, n: nat, limit: nat, wanted: nat -> bool)
    requires n > 0 && FirstPlaces(before, n - 1, limit, wanted)
    requires places == if |before| < limit && wanted(n - 1) then before + [n - 1] else before
    ensures FirstPlaces(places, n, limit, wanted)
  {
    assert forall i: nat :: i in places <==> i in before || (|before| < limit && wanted(n - 1) && i == n - 1);
  }

  lemma OpensIff(rows: seq<Row>, n: nat)
    requires n < |rows|
    ensures Opens(rows, n) <==> rows[n].conversation !in Conversations(rows, n)
  {
    ConversationsOf(rows, n);
  }

  lemma {:induction false} OpenersAt(rows: seq<Row>, n: nat, limit: nat) returns (places: seq<nat>)
    requires n <= |rows|
    ensures At(rows, places, Openers(rows, n, limit)) && FirstPlaces(places, n, limit, Opening(rows))
  {
    places := [];
    if n > 0 {
      var before := OpenersAt(rows, n - 1, limit);
      places := OpenersStep(rows, n, limit, before, Openers(rows, n - 1, limit));
      FirstPlacesGrow(before, places, n, limit, Opening(rows));
    }
  }

  lemma OpenersStep(rows: seq<Row>, n: nat, limit: nat, before: seq<nat>, chosen: seq<Row>) returns (places: seq<nat>)
    requires 0 < n <= |rows| && chosen == Openers(rows, n - 1, limit) && At(rows, before, chosen)
    ensures places == if |before| < limit && Opening(rows)(n - 1) then before + [n - 1] else before
    ensures At(rows, places, Openers(rows, n, limit))
  {
    OpenersNext(rows, n, limit, chosen);
    places := before;
    if |before| < limit && Opens(rows, n - 1) {
      places := before + [n - 1];
      OneMoreAt(rows, before, chosen, n - 1);
    }
  }

  lemma OpenersNext(rows: seq<Row>, n: nat, limit: nat, chosen: seq<Row>)
    requires 0 < n <= |rows| && chosen == Openers(rows, n - 1, limit)
    ensures Openers(rows, n, limit) ==
            if |chosen| < limit && Opens(rows, n - 1) then chosen + [rows[n - 1]] else chosen
  {
    OpensIff(rows, n - 1);
    OpenersAre(rows, n - 1, limit);
  }

  lemma OneMoreAt(rows: seq<Row>, places: seq<nat>, chosen: seq<Row>, i: nat)
    requires At(rows, places, chosen) && i < |rows|
    ensures At(rows, places + [i], chosen + [rows[i]])
  {
  }

  // A row is among the openers exactly when it opens a conversation, if these are all of them.
  lemma ChosenIff(rows: seq<Row>, limit: nat, places: seq<nat>, chosen: seq<Row>, i: nat)
    requires DistinctIds(rows) && i < |rows| && At(rows, places, chosen) && |places| < limit
    requires FirstPlaces(places, |rows|, limit, Opening(rows))
    ensures (exists k :: 0 <= k < |chosen| && chosen[k].id == rows[i].id) <==> Opens(rows, i)
  {
    if Opens(rows, i) {
      assert Opening(rows)(i);
      var k :| 0 <= k < |places| && places[k] == i;
      assert chosen[k].id == rows[i].id;
    }
    if k :| 0 <= k < |chosen| && chosen[k].id == rows[i].id { assert places[k] == i && Opening(rows)(places[k]); }
  }

  lemma {:induction false} OthersAt(rows: seq<Row>, n: nat, limit: nat, places: seq<nat>, chosen: seq<Row>)
    returns (rest: seq<nat>)
    requires DistinctIds(rows) && n <= |rows| && At(rows, places, chosen) && |places| < limit
    requires FirstPlaces(places, |rows|, limit, Opening(rows))
    ensures At(rows, rest, Others(rows, n, chosen)) && Rising(rest)
    ensures forall i: nat :: i in rest <==> i < n && !Opens(rows, i)
  {
    rest := [];
    if n > 0 {
      rest := OthersAt(rows, n - 1, limit, places, chosen);
      ChosenIff(rows, limit, places, chosen, n - 1);
      assert forall k :: 0 <= k < |rest| ==> rest[k] in rest;
      if !Opens(rows, n - 1) { rest := rest + [n - 1]; }
    }
  }

  lemma FirstOf(rest: seq<nat>, n: nat, room: nat, wanted: nat -> bool)
    requires Rising(rest) && forall i: nat :: i in rest <==> i < n && wanted(i)
    ensures FirstPlaces(Take(rest, room), n, room, wanted)
  {
    var first := Take(rest, room);
    assert forall k :: 0 <= k < |first| ==> rest[k] == first[k] && rest[k] in first;
    forall k | 0 <= k < |first| ensures first[k] < n && wanted(first[k]) { assert first[k] in rest; }
    forall i: nat | i < n && wanted(i) && i !in first
      ensures |first| == room && forall k :: 0 <= k < |first| ==> first[k] < i
    {
      var k :| 0 <= k < |rest| && rest[k] == i;
    }
  }

  // The selection: first the best-ranked row of each conversation, in rank order, and then, in the places
  // that are left, the other rows in rank order; of both the best-ranked ones, as far as the limit goes.
  lemma SpreadIs(rows: seq<Row>, limit: nat) returns (openers: seq<nat>, others: seq<nat>)
    requires DistinctIds(rows)
    ensures At(rows, openers + others, Spread(rows, limit))
    ensures FirstPlaces(openers, |rows|, limit, Opening(rows))
    ensures FirstPlaces(others, |rows|, limit - |openers|, Later(rows))
  {
    openers := OpenersAt(rows, |rows|, limit);
    var o := Openers(rows, |rows|, limit);
    var room := limit - |openers|;
    TakeBehind(o, Others(rows, |rows|, o), limit);
    others := [];
    if room > 0 {
      var rest := OthersAt(rows, |rows|, limit, openers, o);
      FirstOf(rest, |rows|, room, Later(rows));
      others := Take(rest, room);
      TakenAt(rows, rest, Others(rows, |rows|, o), room);
    }
    JoinAt(rows, openers, others, o, Take(Others(rows, |rows|, o), room));
  }

  lemma TakenAt(rows: seq<Row>, places: seq<nat>, chosen: seq<Row>, room: nat)
    requires At(rows, places, chosen)
    ensures At(rows, Take(places, room), Take(chosen, room))
  {
  }

  lemma JoinAt(rows: seq<Row>, p: seq<nat>, q: seq<nat>, a: seq<Row>, b: seq<Row>)
    requires At(rows, p, a) && At(rows, q, b)
    ensures At(rows, p + q, a + b)
  {
  }

  lemma TakeBehind(o: seq<Row>, rest: seq<Row>, limit: nat)
    requires |o| <= limit
    ensures Take(o + rest, limit) == o + Take(rest, limit - |o|)
  {
  }
}
