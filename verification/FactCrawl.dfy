// Crawling the sources of a project: facts are saved by any(...) over a generator, which stops at
// the first fact that changed.
module FactCrawl {

  // A fact as a source states it: name and normalised value.
  datatype Fact = Fact(name: int, value: int)

  // The facts of one source are a dictionary: each name once, in order.
  predicate IsSource(s: seq<Fact>) { forall i, j :: 0 <= i < j < |s| ==> s[i].name != s[j].name }

  type Facts = map<int, int>

  predicate Stale(store: Facts, f: Fact) { f.name !in store || store[f.name] != f.value }

  function Saved(store: Facts, f: Fact): (store': Facts) { store[f.name := f.value] }

  // ----- One source -----

  // The first stale fact from i on, or |s|.
  function FirstStale(store: Facts, s: seq<Fact>, i: nat): (k: nat)
    requires i <= |s|
    ensures i <= k <= |s| && (k < |s| ==> Stale(store, s[k])) && forall j :: i <= j < k ==> !Stale(store, s[j])
    decreases |s| - i
  {
    if i == |s| || Stale(store, s[i]) then i else FirstStale(store, s, i + 1)
  }

  predicate Changes(store: Facts, s: seq<Fact>) { FirstStale(store, s, 0) < |s| }

  function Crawled(store: Facts, s: seq<Fact>): (store': Facts)
  {
    if Changes(store, s) then Saved(store, s[FirstStale(store, s, 0)]) else store
  }

  function StaleCount(store: Facts, s: seq<Fact>, n: nat): (k: nat)
    requires n <= |s|
    ensures k <= n
  {
    if n == 0 then 0 else StaleCount(store, s, n - 1) + if Stale(store, s[n - 1]) then 1 else 0
  }

  function Crawls(store: Facts, s: seq<Fact>, times: nat): (store': Facts)
  {
    if times == 0 then store else Crawled(Crawls(store, s, times - 1), s)
  }

  lemma {:induction false} SavingCounts(store: Facts, s: seq<Fact>, k: nat, n: nat)
    requires IsSource(s) && k < |s| && n <= |s| && Stale(store, s[k])
    ensures StaleCount(store, s, n) == StaleCount(Saved(store, s[k]), s, n) + if k < n then 1 else 0
  {
    if n > 0 {
      SavingCounts(store, s, k, n - 1);
      if n - 1 != k { assert s[n - 1].name != s[k].name; }
    }
  }

  lemma {:induction false} NoneStale(store: Facts, s: seq<Fact>, n: nat)
    requires n <= |s|
    ensures StaleCount(store, s, n) == 0 <==> forall i :: 0 <= i < n ==> !Stale(store, s[i])
  {
    if n > 0 { NoneStale(store, s, n - 1); }
  }

  // A crawl lowers the number of stale facts by exactly one, until there are none.
  lemma CrawlSavesOne(store: Facts, s: seq<Fact>)
    requires IsSource(s)
    ensures Changes(store, s) <==> StaleCount(store, s, |s|) > 0
    ensures StaleCount(Crawled(store, s), s, |s|)
         == if Changes(store, s) then StaleCount(store, s, |s|) - 1 else StaleCount(store, s, |s|)
  {
    var k := FirstStale(store, s, 0);
    NoneStale(store, s, |s|);
    if k < |s| { SavingCounts(store, s, k, |s|); }
  }

  // So n stale facts need exactly n crawls: the next one is the first that reports no change, and
  // the store then says what the source says.
  lemma {:induction false} CrawlsNeeded(store: Facts, s: seq<Fact>, times: nat)
    requires IsSource(s)
    ensures var n := StaleCount(store, s, |s|);
            && StaleCount(Crawls(store, s, times), s, |s|) == (if times < n then n - times else 0)
            && (Changes(Crawls(store, s, times), s) <==> times < n)
            && ((forall i :: 0 <= i < |s| ==> !Stale(Crawls(store, s, times), s[i])) <==> times >= n)
  {
    if times > 0 {
      CrawlsNeeded(store, s, times - 1);
      CrawlSavesOne(Crawls(store, s, times - 1), s);
    }
    CrawlSavesOne(Crawls(store, s, times), s);
    NoneStale(Crawls(store, s, times), s, |s|);
  }

  // ----- The store -----

  class ProjectStore {
    var facts: Facts

    constructor ()
      ensures facts == map[]
    {
      facts := map[];
    }

    method SaveFact(f: Fact) returns (changed: bool)
      modifies this
      ensures changed == Stale(old(facts), f) && facts == Saved(old(facts), f)
    {
      changed := f.name !in facts || facts[f.name] != f.value;
      facts := facts[f.name := f.value];
    }

    // any(save_fact(...) for ... in facts.items())
    method SaveFacts(s: seq<Fact>) returns (changed: bool)
      modifies this
      ensures changed == Changes(old(facts), s) && facts == Crawled(old(facts), s)
    {
      changed := false;
      var i := 0;
      while i < |s| && !changed
        invariant i <= |s|
        invariant if changed then i > 0 && FirstStale(old(facts), s, 0) == i - 1 && facts == Saved(old(facts), s[i - 1])
                  else facts == old(facts) && FirstStale(old(facts), s, 0) == FirstStale(old(facts), s, i)
      {
        changed := SaveFact(s[i]);
        i := i + 1;
      }
    }

    // All sources of a project, in order of priority.
    method Crawl(sources: seq<seq<Fact>>) returns (changed: bool)
      modifies this
      ensures facts == CrawledAll(old(facts), sources, |sources|)
      ensures changed == ChangesAny(old(facts), sources, |sources|)
    {
      changed := false;
      for i := 0 to |sources|
        invariant facts == CrawledAll(old(facts), sources, i) && changed == ChangesAny(old(facts), sources, i)
      {
        var sourceChanged := SaveFacts(sources[i]);
        changed := changed || sourceChanged;
      }
    }
  }

  // ----- Several sources -----

  function CrawledAll(store: Facts, sources: seq<seq<Fact>>, n: nat): (store': Facts)
    requires n <= |sources|
  {
    if n == 0 then store else Crawled(CrawledAll(store, sources, n - 1), sources[n - 1])
  }

  predicate ChangesAny(store: Facts, sources: seq<seq<Fact>>, n: nat)
    requires n <= |sources|
  {
    n > 0 && (ChangesAny(store, sources, n - 1) || Changes(CrawledAll(store, sources, n - 1), sources[n - 1]))
  }

  function Cycles(store: Facts, sources: seq<seq<Fact>>, times: nat): (store': Facts)
  {
    if times == 0 then store else CrawledAll(Cycles(store, sources, times - 1), sources, |sources|)
  }

  predicate SameWhereShared(s: seq<Fact>, t: seq<Fact>)
  {
    forall p, q :: 0 <= p < |s| && 0 <= q < |t| && s[p].name == t[q].name ==> s[p].value == t[q].value
  }

  // No two sources state different values of a fact.
  predicate Agree(sources: seq<seq<Fact>>)
  {
    forall i, j :: 0 <= i < |sources| && 0 <= j < |sources| ==> SameWhereShared(sources[i], sources[j])
  }

  predicate AllSources(sources: seq<seq<Fact>>) { forall i :: 0 <= i < |sources| ==> IsSource(sources[i]) }

  predicate Says(store: Facts, s: seq<Fact>) { forall p :: 0 <= p < |s| ==> !Stale(store, s[p]) }

  // A crawl that reports no change finds every fact of every source as stored, and stores nothing.
  lemma {:induction false} QuietSays(store: Facts, sources: seq<seq<Fact>>, n: nat)
    requires n <= |sources|
    ensures !ChangesAny(store, sources, n) <==> forall i :: 0 <= i < n ==> Says(store, sources[i])
    ensures !ChangesAny(store, sources, n) ==> CrawledAll(store, sources, n) == store
  {
    if n > 0 {
      QuietSays(store, sources, n - 1);
      if CrawledAll(store, sources, n - 1) == store {
        assert Changes(store, sources[n - 1]) <==> !Says(store, sources[n - 1]);
      }
    }
  }

  // Sources that disagree are never quiet: every crawl, from every store, reports a change.
  lemma DisputedIsNeverQuiet(store: Facts, sources: seq<seq<Fact>>)
    requires !Agree(sources)
    ensures ChangesAny(store, sources, |sources|)
  {
    QuietSays(store, sources, |sources|);
    var i, j :| 0 <= i < |sources| && 0 <= j < |sources| && !SameWhereShared(sources[i], sources[j]);
    var p, q :| 0 <= p < |sources[i]| && 0 <= q < |sources[j]| && sources[i][p].name == sources[j][q].name
             && sources[i][p].value != sources[j][q].value;
    assert Stale(store, sources[i][p]) || Stale(store, sources[j][q]);
  }

  function TotalStale(store: Facts, sources: seq<seq<Fact>>, n: nat): (k: nat)
    requires n <= |sources|
  {
    if n == 0 then 0 else TotalStale(store, sources, n - 1) + StaleCount(store, sources[n - 1], |sources[n - 1]|)
  }

  // Saving a fact that no source disputes makes nothing stale.
  lemma {:induction false} SavingHelps(store: Facts, s: seq<Fact>, f: Fact, n: nat)
    requires n <= |s| && SameWhereShared([f], s)
    ensures StaleCount(Saved(store, f), s, n) <= StaleCount(store, s, n)
  {
    if n > 0 {
      SavingHelps(store, s, f, n - 1);
      assert [f][0] == f;
    }
  }

  lemma {:induction false} SavingHelpsAll(store: Facts, sources: seq<seq<Fact>>, k: nat, p: nat, n: nat)
    requires AllSources(sources) && Agree(sources) && n <= |sources| && k < |sources| && p < |sources[k]|
    requires Stale(store, sources[k][p])
    ensures TotalStale(Saved(store, sources[k][p]), sources, n) + (if k < n then 1 else 0)
         <= TotalStale(store, sources, n)
  {
    if n > 0 {
      SavingHelpsAll(store, sources, k, p, n - 1);
      if n - 1 == k {
        SavingCounts(store, sources[k], p, |sources[k]|);
      } else {
        assert SameWhereShared(sources[k], sources[n - 1]);
        assert SameWhereShared([sources[k][p]], sources[n - 1]);
        SavingHelps(store, sources[n - 1], sources[k][p], |sources[n - 1]|);
      }
    }
  }

  lemma {:induction false} CrawlLowersTotal(store: Facts, sources: seq<seq<Fact>>, n: nat)
    requires AllSources(sources) && Agree(sources) && n <= |sources|
    ensures TotalStale(CrawledAll(store, sources, n), sources, |sources|) +
            (if ChangesAny(store, sources, n) then 1 else 0)
         <= TotalStale(store, sources, |sources|)
  {
    if n > 0 {
      CrawlLowersTotal(store, sources, n - 1);
      var before := CrawledAll(store, sources, n - 1);
      if Changes(before, sources[n - 1]) {
        SavingHelpsAll(before, sources, n - 1, FirstStale(before, sources[n - 1], 0), |sources|);
      }
    }
  }

  // Sources that agree are quiet at the latest after as many crawls as there are stale facts, and
  // stay quiet.
  lemma {:induction false} AgreedBecomesQuiet(store: Facts, sources: seq<seq<Fact>>, times: nat)
    requires AllSources(sources) && Agree(sources)
    ensures TotalStale(Cycles(store, sources, times), sources, |sources|) + times
         <= TotalStale(store, sources, |sources|)
         || !ChangesAny(Cycles(store, sources, times), sources, |sources|)
  {
    if times > 0 {
      AgreedBecomesQuiet(store, sources, times - 1);
      var before := Cycles(store, sources, times - 1);
      CrawlLowersTotal(before, sources, |sources|);
      QuietSays(before, sources, |sources|);
    }
  }

  // The stale facts of the first n sources, by source and place.
  function StalePlaces(store: Facts, sources: seq<seq<Fact>>, n: nat): (s: set<(nat, nat)>)
    requires n <= |sources|
  {
    set i: nat, j: nat | i < n && j < |sources[i]| && Stale(store, sources[i][j]) :: (i, j)
  }

  function StaleIn(store: Facts, sources: seq<seq<Fact>>, i: nat, m: nat): (s: set<(nat, nat)>)
    requires i < |sources| && m <= |sources[i]|
  {
    set j: nat | j < m && Stale(store, sources[i][j]) :: (i, j)
  }

  lemma {:induction false} StaleInCounts(store: Facts, sources: seq<seq<Fact>>, i: nat, m: nat)
    requires i < |sources| && m <= |sources[i]|
    ensures StaleCount(store, sources[i], m) == |StaleIn(store, sources, i, m)|
  {
    if m == 0 {
      assert StaleIn(store, sources, i, 0) == {};
    } else {
      StaleInCounts(store, sources, i, m - 1);
      StaleInMore(store, sources, i, m);
    }
  }

  lemma StaleInMore(store: Facts, sources: seq<seq<Fact>>, i: nat, m: nat)
    requires i < |sources| && 0 < m <= |sources[i]|
    ensures |StaleIn(store, sources, i, m)| ==
            |StaleIn(store, sources, i, m - 1)| + if Stale(store, sources[i][m - 1]) then 1 else 0
  {
    var one: set<(nat, nat)> := if Stale(store, sources[i][m - 1]) then {(i, m - 1)} else {};
    assert StaleIn(store, sources, i, m) == StaleIn(store, sources, i, m - 1) + one;
  }

  lemma {:induction false} TotalStaleIs(store: Facts, sources: seq<seq<Fact>>, n: nat)
    requires n <= |sources|
    ensures TotalStale(store, sources, n) == |StalePlaces(store, sources, n)|
  {
    if n == 0 {
      assert StalePlaces(store, sources, 0) == {};
    } else {
      TotalStaleIs(store, sources, n - 1);
      StaleInCounts(store, sources, n - 1, |sources[n - 1]|);
      PlacesSplit(store, sources, n);
    }
  }

  lemma PlacesSplit(store: Facts, sources: seq<seq<Fact>>, n: nat)
    requires 0 < n <= |sources|
    ensures |StalePlaces(store, sources, n)| ==
            |StalePlaces(store, sources, n - 1)| + |StaleIn(store, sources, n - 1, |sources[n - 1]|)|
  {
    var last := StaleIn(store, sources, n - 1, |sources[n - 1]|);
    assert StalePlaces(store, sources, n) == StalePlaces(store, sources, n - 1) + last;
    assert StalePlaces(store, sources, n - 1) !! last;
  }

  lemma {:induction false} NothingStale(store: Facts, sources: seq<seq<Fact>>, n: nat)
    requires n <= |sources| && StalePlaces(store, sources, |sources|) == {}
    ensures !ChangesAny(store, sources, n)
  {
    QuietSays(store, sources, n);
    forall i, j | 0 <= i < n && 0 <= j < |sources[i]| ensures !Stale(store, sources[i][j]) {
      assert (i, j) !in StalePlaces(store, sources, |sources|);
    }
  }

  // So no crawl changes anything once there have been as many as there were stale facts.
  lemma QuietInTime(store: Facts, sources: seq<seq<Fact>>, times: nat)
    requires AllSources(sources) && Agree(sources) && times >= |StalePlaces(store, sources, |sources|)|
    ensures !ChangesAny(Cycles(store, sources, times), sources, |sources|)
  {
    var last := Cycles(store, sources, times);
    AgreedBecomesQuiet(store, sources, times);
    TotalStaleIs(store, sources, |sources|);
    TotalStaleIs(last, sources, |sources|);
    if StalePlaces(last, sources, |sources|) == {} { NothingStale(last, sources, |sources|); }
  }

  // From any store the crawls of fixed sources come to rest exactly when the sources agree.
  lemma ComesToRestIff(store: Facts, sources: seq<seq<Fact>>)
    requires AllSources(sources)
    ensures Agree(sources) <==> exists times: nat :: !ChangesAny(Cycles(store, sources, times), sources, |sources|)
  {
    if Agree(sources) {
      var times := TotalStale(store, sources, |sources|) + 1;
      AgreedBecomesQuiet(store, sources, times);
      assert !ChangesAny(Cycles(store, sources, times), sources, |sources|);
    } else {
      forall times: nat ensures ChangesAny(Cycles(store, sources, times), sources, |sources|) {
        DisputedIsNeverQuiet(Cycles(store, sources, times), sources);
      }
    }
  }

  // The smallest dispute: two sources that open with different values of one fact. Each reverts the
  // other, and the facts behind are never saved.
  lemma {:induction false} DisputeStarves(store: Facts, first: seq<Fact>, second: seq<Fact>, times: nat)
    requires first != [] && second != [] && first[0].name == second[0].name && first[0].value != second[0].value
    requires store == Saved(store, second[0])
    ensures Cycles(store, [first, second], times) == store
    ensures ChangesAny(Cycles(store, [first, second], times), [first, second], 2)
  {
    var sources := [first, second];
    if times > 0 { DisputeStarves(store, first, second, times - 1); }
    assert FirstStale(store, first, 0) == 0;
    var between := Saved(store, first[0]);
    assert FirstStale(between, second, 0) == 0;
    assert CrawledAll(store, sources, 0) == store;
    assert CrawledAll(store, sources, 1) == between;
    assert CrawledAll(store, sources, 2) == Saved(between, second[0]) == store;
    assert ChangesAny(store, sources, 1);
  }
}
