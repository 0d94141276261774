// What the chat agent learns from a broker's turns: a bounded list of markets with the newest in
// front, scalar constraints where the newest value wins, and the last few snapshots.
module PreferenceMemory {
  import opened Sequences
  import opened Options

  type Market = string

  const MAX_MARKETS: nat := 5
  const MAX_SNAPSHOTS: nat := 5

  // A snapshot keeps everything it was learned from, so a merged batch nests the snapshots of its
  // turns.
  datatype Prefs = Prefs(markets: seq<Market>, scalars: map<string, string>, recent: seq<Prefs>)

  const NOTHING := Prefs([], map[], [])

  // list.remove: the first occurrence only.
  function Remove(m: seq<Market>, x: Market): (r: seq<Market>)
  {
    if m == [] then [] else if m[0] == x then m[1..] else [m[0]] + Remove(m[1..], x)
  }

  function Touch(m: seq<Market>, x: Market): (r: seq<Market>) { [x] + Remove(m, x) }

  function TouchAll(m: seq<Market>, xs: seq<Market>): (r: seq<Market>)
  {
    if xs == [] then m else Touch(TouchAll(m, xs[..|xs| - 1]), xs[|xs| - 1])
  }

  function Merge(m: seq<Market>, xs: seq<Market>): (r: seq<Market>) { Take(TouchAll(m, xs), MAX_MARKETS) }

  method MergeMarkets(existing: seq<Market>, learned: seq<Market>) returns (markets: seq<Market>)
    ensures markets == Merge(existing, learned)
  {
    markets := existing;
    var i := 0;
    while i < |learned|
      invariant i <= |learned| && markets == TouchAll(existing, learned[..i])
    {
      assert learned[..i + 1][..i] == learned[..i];
      if learned[i] in markets {
        markets := Remove(markets, learned[i]);
      } else {
        RemoveAbsent(markets, learned[i]);
      }
      markets := [learned[i]] + markets;
      i := i + 1;
    }
    assert learned[..i] == learned;
    markets := Take(markets, MAX_MARKETS);
  }

  // ----- The list without a bound -----

  predicate Distinct(m: seq<Market>) { forall i, j :: 0 <= i < j < |m| ==> m[i] != m[j] }

  lemma {:induction false} RemoveAbsent(m: seq<Market>, x: Market)
    requires x !in m
    ensures Remove(m, x) == m
  {
    if m != [] { RemoveAbsent(m[1..], x); }
  }

  function Minus(m: seq<Market>, xs: seq<Market>): (r: seq<Market>)
  {
    if m == [] then [] else if m[0] in xs then Minus(m[1..], xs) else [m[0]] + Minus(m[1..], xs)
  }

  // The distinct entries of xs, the last mentioned first.
  function Recent(xs: seq<Market>): (r: seq<Market>)
  {
    if xs == [] then [] else Touch(Recent(xs[..|xs| - 1]), xs[|xs| - 1])
  }

  lemma {:induction false} RemoveKeeps(m: seq<Market>, x: Market)
    requires Distinct(m)
    ensures Distinct(Remove(m, x))
    ensures forall y :: y in Remove(m, x) <==> y in m && y != x
  {
    if m != [] {
      RemoveKeeps(m[1..], x);
      assert forall y :: y in m <==> y == m[0] || y in m[1..];
      assert m[0] !in m[1..];
    }
  }

  lemma DistinctJoin(a: seq<Market>, b: seq<Market>)
    requires Distinct(a) && Distinct(b) && forall x :: x in a ==> x !in b
    ensures Distinct(a + b)
  {
    forall i, j | 0 <= i < j < |a + b| ensures (a + b)[i] != (a + b)[j] {
      if i < |a| <= j { assert a[i] in a && b[j - |a|] in b; }
    }
  }

  lemma {:induction false} RecentIs(xs: seq<Market>)
    ensures Distinct(Recent(xs)) && forall x :: x in Recent(xs) <==> x in xs
  {
    if xs != [] {
      var n := |xs| - 1;
      RecentIs(xs[..n]);
      RemoveKeeps(Recent(xs[..n]), xs[n]);
      DistinctJoin([xs[n]], Remove(Recent(xs[..n]), xs[n]));
      assert xs == xs[..n] + [xs[n]];
    }
  }

  lemma {:induction false} MinusIs(m: seq<Market>, xs: seq<Market>)
    requires Distinct(m)
    ensures Distinct(Minus(m, xs)) && forall x :: x in Minus(m, xs) <==> x in m && x !in xs
  {
    if m != [] {
      MinusIs(m[1..], xs);
      assert forall y :: y in m <==> y == m[0] || y in m[1..];
      assert m[0] !in m[1..];
    }
  }

  lemma {:induction false} RemoveInFront(a: seq<Market>, b: seq<Market>, x: Market)
    requires x in a
    ensures Remove(a + b, x) == Remove(a, x) + b
  {
    assert (a + b)[1..] == a[1..] + b;
    if a[0] != x {
      RemoveInFront(a[1..], b, x);
      Assoc([a[0]], Remove(a[1..], x), b);
    }
  }

  lemma {:induction false} RemoveBehind(a: seq<Market>, b: seq<Market>, x: Market)
    requires x !in a
    ensures Remove(a + b, x) == a + Remove(b, x)
  {
    if a == [] {
      assert a + b == b;
    } else {
      assert (a + b)[1..] == a[1..] + b;
      RemoveBehind(a[1..], b, x);
      Assoc([a[0]], a[1..], Remove(b, x));
    }
  }

  lemma RemoveFromJoin(a: seq<Market>, b: seq<Market>, x: Market)
    ensures Remove(a + b, x) == if x in a then Remove(a, x) + b else a + Remove(b, x)
  {
    if x in a { RemoveInFront(a, b, x); } else { RemoveBehind(a, b, x); }
  }

  lemma {:induction false} MinusOneMore(m: seq<Market>, xs: seq<Market>, x: Market)
    requires Distinct(m)
    ensures Minus(m, xs + [x]) == Remove(Minus(m, xs), x)
  {
    if m != [] {
      MinusOneMore(m[1..], xs, x);
      MinusIs(m[1..], xs);
      if m[0] == x { RemoveAbsent(Minus(m[1..], xs), x); }
    }
  }

  lemma {:induction false} MinusNothing(m: seq<Market>)
    ensures Minus(m, []) == m
  {
    if m != [] { MinusNothing(m[1..]); }
  }

  // What is learned stands in front, newest first; what was known before follows, in its old order.
  lemma {:induction false} TouchedIs(m: seq<Market>, xs: seq<Market>)
    requires Distinct(m)
    ensures TouchAll(m, xs) == Recent(xs) + Minus(m, xs)
  {
    if xs == [] {
      MinusNothing(m);
    } else {
      var before, x := xs[..|xs| - 1], xs[|xs| - 1];
      assert xs == before + [x];
      TouchedIs(m, before);
      RecentIs(before);
      MinusIs(m, before);
      MinusOneMore(m, before, x);
      TouchJoin(Recent(before), Minus(m, before), x);
    }
  }

  lemma TouchJoin(front: seq<Market>, back: seq<Market>, x: Market)
    requires Distinct(front) && (x in front ==> x !in back)
    ensures Touch(front + back, x) == Touch(front, x) + Remove(back, x)
  {
    RemoveFromJoin(front, back, x);
    if x in front { RemoveAbsent(back, x); } else { RemoveAbsent(front, x); }
    Assoc([x], Remove(front, x), Remove(back, x));
  }

  // ----- The bound: a truncated list is as good as the whole one -----

  lemma {:induction false} RemoveTake(m: seq<Market>, x: Market, k: nat)
    ensures Take(Remove(Take(m, k + 1), x), k) == Take(Remove(m, x), k)
  {
    if m != [] && m[0] != x && k > 0 {
      RemoveTake(m[1..], x, k - 1);
      assert Take(m, k + 1)[1..] == Take(m[1..], k);
    }
  }

  lemma TouchTake(m: seq<Market>, x: Market, k: nat)
    requires k > 0
    ensures Take(Touch(Take(m, k), x), k) == Take(Touch(m, x), k)
  {
    RemoveTake(m, x, k - 1);
    TakeFirst(x, Remove(Take(m, k), x), k);
    TakeFirst(x, Remove(m, x), k);
  }

  lemma TakeFirst(x: Market, m: seq<Market>, k: nat)
    requires k > 0
    ensures Take([x] + m, k) == [x] + Take(m, k - 1)
  {
  }

  lemma {:induction false} TouchAllTake(m: seq<Market>, xs: seq<Market>, k: nat)
    requires k > 0
    ensures Take(TouchAll(Take(m, k), xs), k) == Take(TouchAll(m, xs), k)
  {
    if xs != [] {
      var n := |xs| - 1;
      TouchAllTake(m, xs[..n], k);
      TouchTake(TouchAll(m, xs[..n]), xs[n], k);
      TouchTake(TouchAll(Take(m, k), xs[..n]), xs[n], k);
    }
  }

  lemma {:induction false} TouchAllAppend(m: seq<Market>, xs: seq<Market>, ys: seq<Market>)
    ensures TouchAll(m, xs + ys) == TouchAll(TouchAll(m, xs), ys)
  {
    if ys == [] {
      assert xs + ys == xs;
    } else {
      var n := |ys| - 1;
      assert (xs + ys)[..|xs| + n] == xs + ys[..n];
      TouchAllAppend(m, xs, ys[..n]);
    }
  }

  // ----- Turn by turn, and in one batch -----

  function All(turns: seq<Prefs>): (xs: seq<Market>)
  {
    if turns == [] then [] else All(turns[..|turns| - 1]) + turns[|turns| - 1].markets
  }

  function MergePrefs(prior: Prefs, learned: Prefs): (merged: Prefs)
  {
    Prefs(Merge(prior.markets, learned.markets), prior.scalars + learned.scalars,
          Take([learned] + prior.recent, MAX_SNAPSHOTS))
  }

  function TurnByTurn(p: Prefs, turns: seq<Prefs>): (p': Prefs)
  {
    if turns == [] then p else MergePrefs(TurnByTurn(p, turns[..|turns| - 1]), turns[|turns| - 1])
  }

  function Batch(p: Prefs, turns: seq<Prefs>): (p': Prefs)
  {
    if turns == [] then p else MergePrefs(p, TurnByTurn(NOTHING, turns))
  }

  // The stack property: truncating after every turn loses nothing that truncating once would keep.
  lemma {:induction false} StackProperty(p: Prefs, turns: seq<Prefs>)
    requires |p.markets| <= MAX_MARKETS
    ensures TurnByTurn(p, turns).markets == Take(TouchAll(p.markets, All(turns)), MAX_MARKETS)
  {
    if turns != [] {
      var n := |turns| - 1;
      var xs := All(turns[..n]);
      StackProperty(p, turns[..n]);
      TouchAllTake(TouchAll(p.markets, xs), turns[n].markets, MAX_MARKETS);
      TouchAllAppend(p.markets, xs, turns[n].markets);
    }
  }

  predicate Bounded(p: Prefs)
  {
    Distinct(p.markets) && |p.markets| <= MAX_MARKETS && |p.recent| <= MAX_SNAPSHOTS
  }

  lemma MergeBounded(p: Prefs, learned: Prefs)
    requires Bounded(p)
    ensures Bounded(MergePrefs(p, learned))
  {
    TouchedIs(p.markets, learned.markets);
    RecentIs(learned.markets);
    MinusIs(p.markets, learned.markets);
    DistinctJoin(Recent(learned.markets), Minus(p.markets, learned.markets));
  }

  lemma {:induction false} TurnsBounded(p: Prefs, turns: seq<Prefs>)
    requires Bounded(p)
    ensures Bounded(TurnByTurn(p, turns))
  {
    if turns != [] {
      TurnsBounded(p, turns[..|turns| - 1]);
      MergeBounded(TurnByTurn(p, turns[..|turns| - 1]), turns[|turns| - 1]);
    }
  }

  function Reverse(s: seq<Market>): (r: seq<Market>)
  {
    if s == [] then [] else [s[|s| - 1]] + Reverse(s[..|s| - 1])
  }

  lemma {:induction false} ReverseAt(s: seq<Market>)
    ensures |Reverse(s)| == |s| && forall i :: 0 <= i < |s| ==> Reverse(s)[i] == s[|s| - 1 - i]
  {
    if s != [] { ReverseAt(s[..|s| - 1]); }
  }

  // Touching a list of distinct markets one after the other turns it round.
  lemma {:induction false} RecentOfDistinct(s: seq<Market>)
    requires Distinct(s)
    ensures Recent(s) == Reverse(s)
  {
    if s != [] {
      var n := |s| - 1;
      RecentOfDistinct(s[..n]);
      RecentIs(s[..n]);
      RemoveAbsent(Recent(s[..n]), s[n]);
    }
  }

  lemma {:induction false} MinusSame(m: seq<Market>, xs: seq<Market>, ys: seq<Market>)
    requires forall x :: x in xs <==> x in ys
    ensures Minus(m, xs) == Minus(m, ys)
  {
    if m != [] { MinusSame(m[1..], xs, ys); }
  }

  // The markets a batch keeps: the last five mentioned, newest first.
  function Block(turns: seq<Prefs>): (b: seq<Market>) { Take(Recent(All(turns)), MAX_MARKETS) }

  lemma BlockIsLearned(turns: seq<Prefs>)
    ensures Distinct(Block(turns)) && TurnByTurn(NOTHING, turns).markets == Block(turns)
  {
    RecentIs(All(turns));
    StackProperty(NOTHING, turns);
    TouchedIs([], All(turns));
    assert Minus([], All(turns)) == [];
  }

  // Learning a batch keeps the same markets as learning its turns one by one, but the learned block
  // stands the other way round: the oldest market of the batch comes first.
  lemma BatchIsReversed(p: Prefs, turns: seq<Prefs>)
    requires Bounded(p) && turns != []
    ensures var block, rest := Block(turns), Minus(p.markets, Block(turns));
            && TurnByTurn(p, turns).markets == Take(block + rest, MAX_MARKETS)
            && Batch(p, turns).markets == Take(Reverse(block) + rest, MAX_MARKETS)
  {
    var m, xs, block := p.markets, All(turns), Block(turns);
    RecentIs(xs);
    StackProperty(p, turns);
    TouchedIs(m, xs);
    if |Recent(xs)| < MAX_MARKETS {
      MinusSame(m, xs, block);
    } else {
      assert Take(Recent(xs) + Minus(m, xs), MAX_MARKETS) == block == Take(block + Minus(m, block), MAX_MARKETS);
    }
    BlockIsLearned(turns);
    TouchedIs(m, block);
    RecentOfDistinct(block);
  }

  lemma BatchKeepsTheSame(p: Prefs, turns: seq<Prefs>)
    requires Bounded(p) && turns != []
    ensures forall x :: x in Batch(p, turns).markets <==> x in TurnByTurn(p, turns).markets
    ensures Batch(p, turns).scalars == TurnByTurn(p, turns).scalars
  {
    BatchIsReversed(p, turns);
    var block, rest := Block(turns), Minus(p.markets, Block(turns));
    ReverseAt(block);
    var k := MAX_MARKETS - |block|;
    assert Take(block + rest, MAX_MARKETS) == block + Take(rest, k);
    assert Take(Reverse(block) + rest, MAX_MARKETS) == Reverse(block) + Take(rest, k);
    forall x ensures x in Reverse(block) <==> x in block {
      if i :| 0 <= i < |block| && block[i] == x { assert Reverse(block)[|block| - 1 - i] == x; }
    }
    ScalarsAgree(p, turns);
  }

  lemma {:induction false} ScalarsAgree(p: Prefs, turns: seq<Prefs>)
    ensures TurnByTurn(p, turns).scalars == p.scalars + TurnByTurn(NOTHING, turns).scalars
  {
    if turns != [] { ScalarsAgree(p, turns[..|turns| - 1]); }
  }

  // The two orders are equal exactly when the batch names at most one market.
  lemma OrdersEqualIff(p: Prefs, turns: seq<Prefs>)
    requires Bounded(p) && turns != []
    ensures Batch(p, turns).markets == TurnByTurn(p, turns).markets <==> |Recent(All(turns))| <= 1
  {
    BatchIsReversed(p, turns);
    BlockIsLearned(turns);
    ReversedIsSameIff(Block(turns), Minus(p.markets, Block(turns)));
  }

  lemma ReversedIsSameIff(block: seq<Market>, rest: seq<Market>)
    requires Distinct(block) && |block| <= MAX_MARKETS
    ensures Take(Reverse(block) + rest, MAX_MARKETS) == Take(block + rest, MAX_MARKETS) <==> |block| <= 1
  {
    ReverseAt(block);
    if |block| <= 1 {
      assert Reverse(block) == block;
    } else {
      FirstOfTake(Reverse(block), rest);
      FirstOfTake(block, rest);
    }
  }

  lemma FirstOfTake(block: seq<Market>, rest: seq<Market>)
    requires block != []
    ensures var taken := Take(block + rest, MAX_MARKETS); taken != [] && taken[0] == block[0]
  {
  }

  // After a batch of five markets the next new market pushes out the one mentioned last.
  lemma BatchForgetsTheNewest(p: Prefs, turns: seq<Prefs>, x: Market)
    requires Bounded(p) && turns != [] && |Recent(All(turns))| >= MAX_MARKETS && x !in Recent(All(turns))
    ensures Recent(All(turns))[0] !in Merge(Batch(p, turns).markets, [x])
    ensures Recent(All(turns))[0] in Merge(TurnByTurn(p, turns).markets, [x])
  {
    BatchIsReversed(p, turns);
    BlockIsLearned(turns);
    var block := Block(turns);
    FullBlock(block, Minus(p.markets, block));
    ReverseAt(block);
    FullBlock(Reverse(block), Minus(p.markets, block));
    forall i | 0 <= i < |block| ensures block[i] != x { assert Recent(All(turns))[i] == block[i]; }
    FirstStays(block, x);
    ReversedDropsFirst(block, x);
  }

  lemma FirstStays(block: seq<Market>, x: Market)
    requires |block| == MAX_MARKETS && x !in block
    ensures block[0] in Merge(block, [x])
  {
    OneMore(block, x);
    assert Merge(block, [x])[1] == block[0];
  }

  lemma ReversedDropsFirst(block: seq<Market>, x: Market)
    requires |block| == MAX_MARKETS && Distinct(block) && x !in block
    ensures block[0] !in Merge(Reverse(block), [x])
  {
    ReverseAt(block);
    OneMore(Reverse(block), x);
    forall i | 1 <= i < MAX_MARKETS ensures Merge(Reverse(block), [x])[i] != block[0] {
      assert Merge(Reverse(block), [x])[i] == Reverse(block)[i - 1] == block[MAX_MARKETS - i];
    }
  }

  lemma FullBlock(block: seq<Market>, rest: seq<Market>)
    requires |block| == MAX_MARKETS
    ensures Take(block + rest, MAX_MARKETS) == block
  {
  }

  lemma OneMore(m: seq<Market>, x: Market)
    requires x !in m && |m| == MAX_MARKETS
    ensures Merge(m, [x]) == [x] + m[..MAX_MARKETS - 1]
  {
    assert [x][..0] == [];
    assert TouchAll(m, [x]) == Touch(m, x);
    RemoveAbsent(m, x);
  }

  // The snapshots of a merge: what was learned, and then those there were, five in all.
  lemma SnapshotsAre(p: Prefs, learned: Prefs)
    ensures var r := MergePrefs(p, learned).recent;
            && |r| == (if |p.recent| < 5 then |p.recent| + 1 else 5) && r[0] == learned
            && forall i :: 0 < i < |r| ==> r[i] == p.recent[i - 1]
  {
  }

  // A scalar is what the last turn that sets it says.
  lemma {:induction false} ScalarIsTheLast(p: Prefs, turns: seq<Prefs>, key: string, i: nat)
    requires i < |turns| && key in turns[i].scalars
    requires forall j :: i < j < |turns| ==> key !in turns[j].scalars
    ensures var s := TurnByTurn(p, turns).scalars; key in s && s[key] == turns[i].scalars[key]
    decreases |turns|
  {
    var n := |turns| - 1;
    if i < n {
      assert key !in turns[n].scalars && turns[..n][i] == turns[i];
      ScalarIsTheLast(p, turns[..n], key, i);
    }
  }

  // One that no turn sets is what it was.
  lemma {:induction false} ScalarStays(p: Prefs, turns: seq<Prefs>, key: string)
    requires forall i :: 0 <= i < |turns| ==> key !in turns[i].scalars
    ensures var s := TurnByTurn(p, turns).scalars;
            (key in s <==> key in p.scalars) && (key in s ==> s[key] == p.scalars[key])
    decreases |turns|
  {
    if turns != [] { ScalarStays(p, turns[..|turns| - 1], key); }
  }

  // ----- The stored row -----

  // A snapshot is either one turn, or a batch holding the snapshots of its turns.
  predicate Shallow(p: Prefs)
  {
    |p.recent| <= MAX_SNAPSHOTS && forall i :: 0 <= i < |p.recent| ==> p.recent[i].recent == []
  }

  predicate Tidy(p: Prefs)
  {
    Bounded(p) && forall i :: 0 <= i < |p.recent| ==> Shallow(p.recent[i])
  }

  function Spoken(turns: seq<Option<Prefs>>): (spoken: seq<Prefs>)
  {
    if turns == [] then []
    else if turns[|turns| - 1].None? then Spoken(turns[..|turns| - 1])
    else Spoken(turns[..|turns| - 1]) + [turns[|turns| - 1].value]
  }

  // The turns that are texts, in order.
  lemma {:induction false} SpokenJoins(a: seq<Option<Prefs>>, b: seq<Option<Prefs>>)
    ensures Spoken(a + b) == Spoken(a) + Spoken(b)
  {
    if b == [] {
      assert a + b == a;
    } else {
      assert (a + b)[..|a + b| - 1] == a + b[..|b| - 1];
      SpokenJoins(a, b[..|b| - 1]);
    }
  }

  lemma {:induction false} SpokenIs(turns: seq<Option<Prefs>>)
    ensures Spoken(turns) == [] <==> forall i :: 0 <= i < |turns| ==> turns[i].None?
    ensures forall p: Prefs :: Spoken([Some(p)]) == [p]
    decreases |turns|
  {
    forall p: Prefs ensures Spoken([Some(p)]) == [p] { assert [Some(p)][..0] == []; }
    if turns != [] { SpokenIs(turns[..|turns| - 1]); }
  }

  lemma {:induction false} LearnedIsShallow(turns: seq<Prefs>)
    requires forall i :: 0 <= i < |turns| ==> turns[i].recent == []
    ensures Shallow(TurnByTurn(NOTHING, turns))
  {
    if turns != [] { LearnedIsShallow(turns[..|turns| - 1]); }
  }

  // A row never outgrows five markets and five snapshots of at most five snapshots each.
  lemma BatchTidy(p: Prefs, turns: seq<Prefs>)
    requires Tidy(p) && forall i :: 0 <= i < |turns| ==> turns[i].recent == []
    ensures Tidy(Batch(p, turns))
  {
    if turns != [] {
      LearnedIsShallow(turns);
      MergeBounded(p, TurnByTurn(NOTHING, turns));
    }
  }

  class PreferenceStore {
    var saved: map<string, Prefs>

    ghost predicate Valid()
      reads this
    {
      forall t :: t in saved ==> Tidy(saved[t])
    }

    constructor ()
      ensures Valid() && saved == map[]
    {
      saved := map[];
    }

    function Load(tenant: string): (p: Prefs)
      reads this
    {
      if tenant in saved then saved[tenant] else NOTHING
    }

    // update_workspace_ai_preferences: a turn that is no text is None.
    method Update(tenant: string, turns: seq<Option<Prefs>>)
      requires Valid()
      requires forall i :: 0 <= i < |turns| && turns[i].Some? ==> turns[i].value.recent == []
      modifies this
      ensures Valid()
      ensures saved == if tenant == "" || Spoken(turns) == [] then old(saved)
                       else old(saved)[tenant := Batch(old(Load(tenant)), Spoken(turns))]
    {
      if tenant == "" { return; }
      var learned := NOTHING;
      var spoke := false;
      var i := 0;
      while i < |turns|
        invariant saved == old(saved) && i <= |turns| && spoke == (Spoken(turns[..i]) != [])
        invariant learned == TurnByTurn(NOTHING, Spoken(turns[..i]))
        invariant forall j :: 0 <= j < |Spoken(turns[..i])| ==> Spoken(turns[..i])[j].recent == []
      {
        assert turns[..i + 1][..i] == turns[..i];
        if turns[i].Some? {
          ghost var spoken := Spoken(turns[..i + 1]);
          assert spoken[..|spoken| - 1] == Spoken(turns[..i]);
          learned := MergeTurn(learned, turns[i].value);
          spoke := true;
        }
        i := i + 1;
      }
      assert turns[..i] == turns;
      if !spoke { return; }
      BatchTidy(Load(tenant), Spoken(turns));
      var merged := MergeTurn(Load(tenant), learned);
      saved := saved[tenant := merged];
    }

    method MergeTurn(p: Prefs, learned: Prefs) returns (merged: Prefs)
      ensures merged == MergePrefs(p, learned)
    {
      var markets := MergeMarkets(p.markets, learned.markets);
      merged := Prefs(markets, p.scalars + learned.scalars, Take([learned] + p.recent, MAX_SNAPSHOTS));
    }
  }
}
