// Paging over the balanced listing window of _listing_query.
module ListingPages {
  import opened Sequences
  import opened BrokerBalance

  // A table row with its age key; the tables come newest first.
  datatype Listing = Listing(row: Row, createdAt: int)

  predicate NewestFirst(t: seq<Listing>)
  {
    forall i, j :: 0 <= i < j < |t| ==> t[i].createdAt >= t[j].createdAt
  }

  // The stable newest-first sort of two sorted tables, rent before sale on equal keys.
  function Merge(a: seq<Listing>, b: seq<Listing>): (m: seq<Listing>)
    ensures |m| == |a| + |b|
  {
    if a == [] then b
    else if b == [] then a
    else if a[0].createdAt >= b[0].createdAt then [a[0]] + Merge(a[1..], b)
    else [b[0]] + Merge(a, b[1..])
  }

  // The first n rows of the merge, read off without finishing it.
  function Newest(a: seq<Listing>, b: seq<Listing>, n: nat): (m: seq<Listing>)
  {
    if n == 0 || (a == [] && b == []) then []
    else if b == [] || (a != [] && a[0].createdAt >= b[0].createdAt) then [a[0]] + Newest(a[1..], b, n - 1)
    else [b[0]] + Newest(a, b[1..], n - 1)
  }

  lemma {:induction false} NewestOfOne(a: seq<Listing>, n: nat)
    ensures Newest(a, [], n) == Take(a, n) && Newest([], a, n) == Take(a, n)
    decreases n
  {
    if n > 0 && a != [] {
      NewestOfOne(a[1..], n - 1);
      assert Take(a, n) == [a[0]] + Take(a[1..], n - 1);
    }
  }

  lemma {:induction false} NewestIsPrefix(a: seq<Listing>, b: seq<Listing>, n: nat)
    ensures Newest(a, b, n) == Take(Merge(a, b), n)
    decreases n
  {
    if n == 0 {
      assert Take(Merge(a, b), 0) == [];
    } else if a == [] {
      NewestOfOne(b, n);
    } else if b == [] {
      NewestOfOne(a, n);
    } else {
      var a', b' := if a[0].createdAt >= b[0].createdAt then a[1..] else a,
                    if a[0].createdAt >= b[0].createdAt then b else b[1..];
      NewestIsPrefix(a', b', n - 1);
      TakeCons(Merge(a, b)[0], Merge(a', b'), n);
    }
  }

  lemma TakeCons<T>(x: T, s: seq<T>, n: nat)
    requires n > 0
    ensures Take([x] + s, n) == [x] + Take(s, n - 1)
  {
  }

  lemma TakeTail<T>(s: seq<T>, n: nat)
    requires s != [] && n > 0
    ensures Take(s, n)[0] == s[0] && Take(s, n)[1..] == Take(s[1..], n - 1)
  {
  }

  lemma {:induction false} NewestNeedsOnlyHeads(a: seq<Listing>, b: seq<Listing>, n: nat, p: nat, q: nat)
    requires n <= p && n <= q
    ensures Newest(Take(a, p), Take(b, q), n) == Newest(a, b, n)
    decreases n
  {
    if n > 0 {
      if a != [] { TakeTail(a, p); }
      if b != [] { TakeTail(b, q); }
      if a == [] && b == [] {
      } else if b == [] || (a != [] && a[0].createdAt >= b[0].createdAt) {
        NewestNeedsOnlyHeads(a[1..], b, n - 1, p - 1, q);
      } else {
        NewestNeedsOnlyHeads(a, b[1..], n - 1, p, q - 1);
      }
    }
  }

  // Truncating each table to the fetch limit before the sort loses nothing of the window.
  lemma TruncatedMerge(a: seq<Listing>, b: seq<Listing>, n: nat)
    ensures Take(Merge(Take(a, n), Take(b, n)), n) == Take(Merge(a, b), n)
  {
    NewestIsPrefix(Take(a, n), Take(b, n), n);
    NewestNeedsOnlyHeads(a, b, n, n, n);
    NewestIsPrefix(a, b, n);
  }

  // ----- The merge is the stable sort, newest first, of both tables -----

  // The listings of one age, in order.
  function Aged(s: seq<Listing>, age: int): (r: seq<Listing>)
  {
    if s == [] then [] else (if s[0].createdAt == age then [s[0]] else []) + Aged(s[1..], age)
  }

  lemma {:induction false} NoneAged(s: seq<Listing>, age: int)
    requires forall x :: x in s ==> x.createdAt != age
    ensures Aged(s, age) == []
  {
    if s != [] { NoneAged(s[1..], age); }
  }

  lemma {:induction false} SomeAged(s: seq<Listing>, x: Listing)
    requires x in s
    ensures Aged(s, x.createdAt) != []
  {
    if s[0].createdAt != x.createdAt { SomeAged(s[1..], x); }
  }

  lemma {:induction false} AgedIsIn(s: seq<Listing>, age: int)
    requires Aged(s, age) != []
    ensures exists x :: x in s && x.createdAt == age
  {
    if s[0].createdAt != age {
      AgedIsIn(s[1..], age);
      var x :| x in s[1..] && x.createdAt == age;
      assert x in s;
    }
  }

  lemma {:induction false} AgedConcat(a: seq<Listing>, b: seq<Listing>, age: int)
    ensures Aged(a + b, age) == Aged(a, age) + Aged(b, age)
  {
    if a == [] {
      assert a + b == b;
    } else {
      assert (a + b)[1..] == a[1..] + b;
      AgedConcat(a[1..], b, age);
      Assoc(if a[0].createdAt == age then [a[0]] else [], Aged(a[1..], age), Aged(b, age));
    }
  }

  lemma HeadIsNewest(s: seq<Listing>, x: Listing)
    requires NewestFirst(s) && x in s
    ensures x.createdAt <= s[0].createdAt
  {
  }

  lemma {:induction false} MergedFrom(a: seq<Listing>, b: seq<Listing>, x: Listing)
    requires x in Merge(a, b)
    ensures x in a || x in b
    decreases |a| + |b|
  {
    if a != [] && b != [] {
      var fromA := a[0].createdAt >= b[0].createdAt;
      if x != Merge(a, b)[0] { MergedFrom(if fromA then a[1..] else a, if fromA then b else b[1..], x); }
    }
  }

  lemma NewestCons(x: Listing, s: seq<Listing>)
    requires NewestFirst(s) && forall y :: y in s ==> y.createdAt <= x.createdAt
    ensures NewestFirst([x] + s)
  {
  }

  lemma {:induction false} MergeIsSorted(a: seq<Listing>, b: seq<Listing>)
    requires NewestFirst(a) && NewestFirst(b)
    ensures NewestFirst(Merge(a, b))
    decreases |a| + |b|
  {
    if a != [] && b != [] {
      var fromA := a[0].createdAt >= b[0].createdAt;
      var a', b' := if fromA then a[1..] else a, if fromA then b else b[1..];
      var x := if fromA then a[0] else b[0];
      MergeIsSorted(a', b');
      forall y | y in Merge(a', b') ensures y.createdAt <= x.createdAt {
        MergedFrom(a', b', y);
        if y in a { HeadIsNewest(a, y); } else { HeadIsNewest(b, y); }
      }
      NewestCons(x, Merge(a', b'));
    }
  }

  lemma {:induction false} MergeIsStable(a: seq<Listing>, b: seq<Listing>, age: int)
    requires NewestFirst(a) && NewestFirst(b)
    ensures Aged(Merge(a, b), age) == Aged(a, age) + Aged(b, age)
    decreases |a| + |b|
  {
    if a != [] && b != [] {
      if a[0].createdAt >= b[0].createdAt {
        MergeIsStable(a[1..], b, age);
      } else {
        MergeIsStable(a, b[1..], age);
        if b[0].createdAt == age {
          forall x | x in a ensures x.createdAt != age { HeadIsNewest(a, x); }
          NoneAged(a, age);
        }
      }
    }
  }

  lemma SameHeadAge(s: seq<Listing>, t: seq<Listing>)
    requires NewestFirst(s) && NewestFirst(t) && s != []
    requires forall age :: Aged(s, age) == Aged(t, age)
    ensures t != [] && t[0].createdAt >= s[0].createdAt
  {
    SomeAged(s, s[0]);
    AgedIsIn(t, s[0].createdAt);
    var x :| x in t && x.createdAt == s[0].createdAt;
    HeadIsNewest(t, x);
  }

  lemma {:induction false} SortedByAge(s: seq<Listing>, t: seq<Listing>)
    requires NewestFirst(s) && NewestFirst(t) && forall age :: Aged(s, age) == Aged(t, age)
    ensures s == t
    decreases |s|
  {
    if s != [] {
      SameHeadAge(s, t);
      SameHeadAge(t, s);
      assert Aged(s, s[0].createdAt)[0] == s[0] && Aged(t, s[0].createdAt)[0] == t[0];
      forall age ensures Aged(s[1..], age) == Aged(t[1..], age) {
        assert Aged(s, age) == Aged(t, age);
        TailAged(s, age);
        TailAged(t, age);
      }
      SortedByAge(s[1..], t[1..]);
    } else if t != [] {
      SameHeadAge(t, s);
    }
  }

  lemma TailAged(s: seq<Listing>, age: int)
    requires s != []
    ensures Aged(s[1..], age) == if s[0].createdAt == age then Aged(s, age)[1..] else Aged(s, age)
  {
  }

  // Newest first, and among listings of one age in the order of s.
  ghost predicate SortedStably(s: seq<Listing>, out: seq<Listing>)
  {
    NewestFirst(out) && forall age :: Aged(out, age) == Aged(s, age)
  }

  lemma MergeSorts(rent: seq<Listing>, sale: seq<Listing>)
    requires NewestFirst(rent) && NewestFirst(sale)
    ensures SortedStably(rent + sale, Merge(rent, sale))
  {
    MergeIsSorted(rent, sale);
    forall age ensures Aged(Merge(rent, sale), age) == Aged(rent + sale, age) {
      MergeIsStable(rent, sale, age);
      AgedConcat(rent, sale, age);
    }
  }

  lemma SortIsOne(s: seq<Listing>, out: seq<Listing>, out': seq<Listing>)
    requires SortedStably(s, out) && SortedStably(s, out')
    ensures out == out'
  {
    SortedByAge(out, out');
  }

  // The merge is the one list that stands newest first and keeps, among listings of one age, the rents
  // before the sales and each table's order: what sorting both tables newest first stably gives.
  lemma MergeIsTheSort(rent: seq<Listing>, sale: seq<Listing>, out: seq<Listing>)
    requires NewestFirst(rent) && NewestFirst(sale)
    ensures out == Merge(rent, sale) <==> SortedStably(rent + sale, out)
    ensures multiset(Merge(rent, sale)) == multiset(rent) + multiset(sale)
  {
    MergeSorts(rent, sale);
    if SortedStably(rent + sale, out) { SortIsOne(rent + sale, out, Merge(rent, sale)); }
    MergeKeeps(rent, sale);
  }

  lemma {:induction false} MergeKeeps(a: seq<Listing>, b: seq<Listing>)
    ensures multiset(Merge(a, b)) == multiset(a) + multiset(b)
    decreases |a| + |b|
  {
    if a != [] && b != [] {
      if a[0].createdAt >= b[0].createdAt {
        MergeKeeps(a[1..], b);
        assert a == [a[0]] + a[1..];
      } else {
        MergeKeeps(a, b[1..]);
        assert b == [b[0]] + b[1..];
      }
    }
  }

  // ----- Pages -----

  function PageLimit(limit: int): (n: nat)
    ensures 1 <= n <= 50
  {
    if limit == 0 then 10 else if limit < 1 then 1 else if limit > 50 then 50 else limit
  }

  function PageOffset(offset: int): (n: nat) { if offset < 0 then 0 else offset }

  // fetch_limit, as a function of where the page ends.
  function Window(end: nat): (w: nat)
    ensures 50 <= w <= 1000
  {
    if end < 50 then 50 else if end > 1000 then 1000 else end
  }

  // Python's slice.
  function Slice<T>(s: seq<T>, lo: nat, hi: nat): (r: seq<T>)
    requires lo <= hi
  {
    if lo >= |s| then [] else if hi > |s| then s[lo..] else s[lo..hi]
  }

  // A page of a database given newest first.
  function Page(db: seq<Row>, offset: nat, limit: nat): (page: seq<Row>)
  {
    Slice(Balanced(Take(db, Window(offset + limit))), offset, offset + limit)
  }

  function Rows(t: seq<Listing>): (rows: seq<Row>)
    ensures |rows| == |t|
  {
    if t == [] then [] else [t[0].row] + Rows(t[1..])
  }

  lemma FetchedRows(rent: seq<Listing>, sale: seq<Listing>, n: nat)
    ensures Rows(Take(Merge(Take(rent, n), Take(sale, n)), n)) == Take(Rows(Merge(rent, sale)), n)
  {
    TruncatedMerge(rent, sale, n);
    RowsOfTake(Merge(rent, sale), n);
  }

  // The newest rows of both tables, each fetched up to the limit.
  method FetchWindow(rent: seq<Listing>, sale: seq<Listing>, n: nat) returns (rows: seq<Row>)
    requires NewestFirst(rent) && NewestFirst(sale)
    ensures rows == Take(Rows(Merge(rent, sale)), n)
  {
    var rents, sales := Take(rent, n), Take(sale, n);
    rows := Rows(Take(Merge(rents, sales), n));
    FetchedRows(rent, sale, n);
  }

  // What the caller's arguments come to.
  function Query(rent: seq<Listing>, sale: seq<Listing>, limit: int, offset: int): (page: seq<Row>)
  {
    Page(Rows(Merge(rent, sale)), PageOffset(offset), PageLimit(limit))
  }

  // _listing_query on the rent and sale tables, with its clamping of the arguments.
  method ListingQuery(rent: seq<Listing>, sale: seq<Listing>, limit: int, offset: int) returns (page: seq<Row>)
    requires NewestFirst(rent) && NewestFirst(sale)
    ensures page == Query(rent, sale, limit, offset)
  {
    page := CutPage(rent, sale, PageOffset(offset), PageLimit(limit));
  }

  method CutPage(rent: seq<Listing>, sale: seq<Listing>, lo: nat, size: nat) returns (page: seq<Row>)
    requires NewestFirst(rent) && NewestFirst(sale)
    ensures page == Page(Rows(Merge(rent, sale)), lo, size)
  {
    var rows := FetchWindow(rent, sale, Window(lo + size));
    var balanced := Balance(rows);
    page := Slice(balanced, lo, lo + size);
    PageIs(Rows(Merge(rent, sale)), rows, balanced, lo, size);
  }

  lemma PageIs(db: seq<Row>, rows: seq<Row>, balanced: seq<Row>, lo: nat, size: nat)
    requires rows == Take(db, Window(lo + size)) && balanced == Balanced(rows)
    ensures Page(db, lo, size) == Slice(balanced, lo, lo + size)
  {
  }

  lemma {:induction false} RowsOfTake(t: seq<Listing>, n: nat)
    ensures Rows(Take(t, n)) == Take(Rows(t), n)
    decreases n
  {
    if n > 0 && t != [] {
      RowsOfTake(t[1..], n - 1);
      assert Take(t, n) == [t[0]] + Take(t[1..], n - 1);
      assert Take(t, n)[1..] == Take(t[1..], n - 1);
      TakeCons(t[0].row, Rows(t[1..]), n);
    } else {
      assert Take(t, n) == [] && Take(Rows(t), n) == [];
    }
  }

  // ----- Told from the caller's arguments -----

  // The newest rows that a query looks at: as many as it takes to reach the page's end, at least 50 and
  // at most 1000.
  function Looked(db: seq<Row>, end: int): (rows: seq<Row>)
  {
    var w := if end <= 50 then 50 else if end >= 1000 then 1000 else end;
    if |db| <= w then db else db[..w]
  }

  lemma RowsAt(t: seq<Listing>)
    ensures |Rows(t)| == |t| && forall i :: 0 <= i < |t| ==> Rows(t)[i] == t[i].row
  {
  }

  // Row i of the answer is row offset + i of the balanced rows, limit of them while they last.
  lemma QueryRows(rent: seq<Listing>, sale: seq<Listing>, limit: int, offset: int)
    requires 0 <= offset && 1 <= limit <= 50
    ensures var page := Query(rent, sale, limit, offset);
            var balanced := Balanced(Looked(Rows(Merge(rent, sale)), offset + limit));
            && |page| == (if |balanced| <= offset then 0 else if |balanced| < offset + limit then |balanced| - offset
                          else limit)
            && forall i :: 0 <= i < |page| ==> page[i] == balanced[offset + i]
    ensures var m := Merge(rent, sale); |Rows(m)| == |m| && forall i :: 0 <= i < |m| ==> Rows(m)[i] == m[i].row
  {
    RowsAt(Merge(rent, sale));
    var db := Rows(Merge(rent, sale));
    LookedIs(db, offset + limit);
    PageIs(db, Looked(db, offset + limit), Balanced(Looked(db, offset + limit)), offset, limit);
    SliceRows(Balanced(Looked(db, offset + limit)), offset, limit);
  }

  lemma LookedIs(db: seq<Row>, end: nat)
    ensures Looked(db, end) == Take(db, Window(end))
  {
  }

  lemma SliceRows<T>(s: seq<T>, lo: nat, size: nat)
    ensures var r := Slice(s, lo, lo + size);
            && |r| == (if |s| <= lo then 0 else if |s| < lo + size then |s| - lo else size)
            && forall i :: 0 <= i < |r| ==> r[i] == s[lo + i]
  {
  }

  // Any other argument answers as the nearest one that is allowed, a limit of 0 as 10.
  lemma QueryClamps(rent: seq<Listing>, sale: seq<Listing>, limit: int, offset: int)
    ensures offset < 0 ==> Query(rent, sale, limit, offset) == Query(rent, sale, limit, 0)
    ensures limit == 0 ==> Query(rent, sale, limit, offset) == Query(rent, sale, 10, offset)
    ensures limit < 0 ==> Query(rent, sale, limit, offset) == Query(rent, sale, 1, offset)
    ensures limit > 50 ==> Query(rent, sale, limit, offset) == Query(rent, sale, 50, offset)
  {
  }

  // Within the first 50 rows one query's page and the next one's are the page of both.
  lemma QueriesTile(rent: seq<Listing>, sale: seq<Listing>, limit: int, next: int, offset: int)
    requires 0 <= offset && 1 <= limit && 1 <= next && offset + limit + next <= 50
    ensures Query(rent, sale, limit, offset) + Query(rent, sale, next, offset + limit)
         == Query(rent, sale, limit + next, offset)
  {
    var db := Rows(Merge(rent, sale));
    QueryIsPage(rent, sale, db, limit, offset);
    QueryIsPage(rent, sale, db, next, offset + limit);
    QueryIsPage(rent, sale, db, limit + next, offset);
    EarlyQueriesTile(db, limit, next, offset, Query(rent, sale, limit, offset),
                     Query(rent, sale, next, offset + limit), Query(rent, sale, limit + next, offset));
  }

  lemma EarlyQueriesTile(db: seq<Row>, limit: nat, next: nat, offset: nat, first: seq<Row>, second: seq<Row>,
                         both: seq<Row>)
    requires offset + limit + next <= 50 && first == Page(db, offset, limit)
    requires second == Page(db, offset + limit, next) && both == Page(db, offset, limit + next)
    ensures first + second == both
  {
    EarlyPagesTile(db, offset, limit, next);
    EarlyPage(db, offset, limit + next);
  }

  lemma QueryIsPage(rent: seq<Listing>, sale: seq<Listing>, db: seq<Row>, limit: nat, offset: nat)
    requires 1 <= limit <= 50 && db == Rows(Merge(rent, sale))
    ensures Query(rent, sale, limit, offset) == Page(db, offset, limit)
  {
    assert PageLimit(limit) == limit && PageOffset(offset) == offset;
  }

  predicate Disjoint(a: seq<Row>, b: seq<Row>)
  {
    forall i, j :: 0 <= i < |a| && 0 <= j < |b| ==> a[i] != b[j]
  }

  predicate NoRepeats(db: seq<Row>) { forall i, j :: 0 <= i < j < |db| ==> db[i] != db[j] }

  // A page that ends within 50 rows is a slice of the one balanced list, whatever its offset.
  lemma EarlyPage(db: seq<Row>, offset: nat, limit: nat)
    requires offset + limit <= 50
    ensures Page(db, offset, limit) == Slice(Balanced(Take(db, 50)), offset, offset + limit)
  {
  }

  // So such pages tile that list.
  lemma EarlyPagesTile(db: seq<Row>, offset: nat, limit: nat, next: nat)
    requires offset + limit + next <= 50
    ensures Page(db, offset, limit) + Page(db, offset + limit, next)
         == Slice(Balanced(Take(db, 50)), offset, offset + limit + next)
  {
    var balanced := Balanced(Take(db, 50));
    PageIs(db, Take(db, 50), balanced, offset, limit);
    PageIs(db, Take(db, 50), balanced, offset + limit, next);
    SliceTile(balanced, offset, offset + limit, offset + limit + next);
  }

  lemma SliceTile<T>(s: seq<T>, lo: nat, mid: nat, hi: nat)
    requires lo <= mid <= hi
    ensures Slice(s, lo, mid) + Slice(s, mid, hi) == Slice(s, lo, hi)
  {
  }

  lemma {:induction false} MultisetNoRepeats(a: seq<Row>, b: seq<Row>)
    requires multiset(a) == multiset(b) && NoRepeats(a)
    ensures NoRepeats(b)
  {
    forall i, j | 0 <= i < j < |b| ensures b[i] != b[j] {
      if b[i] == b[j] {
        Twice(b, i, j);
        assert multiset(a)[b[i]] >= 2;
        AtMostOnce(a, b[i]);
      }
    }
  }

  lemma Twice(s: seq<Row>, i: nat, j: nat)
    requires i < j < |s| && s[i] == s[j]
    ensures multiset(s)[s[i]] >= 2
  {
    assert s == s[..i] + [s[i]] + s[i + 1..j] + [s[j]] + s[j + 1..];
  }

  lemma {:induction false} AtMostOnce(s: seq<Row>, x: Row)
    requires NoRepeats(s)
    ensures multiset(s)[x] <= 1
    decreases |s|
  {
    if s != [] {
      AtMostOnce(s[1..], x);
      assert s == [s[0]] + s[1..];
      if x == s[0] && x in s[1..] { assert false; }
    }
  }

  // Within one window, pages do not overlap.
  lemma SameWindowDisjoint(db: seq<Row>, offset: nat, limit: nat, next: nat)
    requires NoRepeats(db) && Window(offset + limit) == Window(offset + limit + next)
    ensures Disjoint(Page(db, offset, limit), Page(db, offset + limit, next))
  {
    var window := Take(db, Window(offset + limit));
    BalancedPermutes(window);
    MultisetNoRepeats(window, Balanced(window));
  }

  // ----- The sharp limit -----

  const A: Key := 0
  const B: Key := 1

  // A database of n rows, all of one broker but the one at position w.
  function Lonely(w: nat, n: nat): (db: seq<Row>)
    ensures |db| == n
  {
    seq(n, i => Row(i, if i == w then B else A))
  }

  lemma LonelyNoRepeats(w: nat, n: nat)
    ensures NoRepeats(Lonely(w, n))
  {
    var db := Lonely(w, n);
    assert forall i :: 0 <= i < n ==> db[i].id == i;
  }

  // Rows of one broker are balanced as they are.
  lemma OneBroker(db: seq<Row>)
    requires forall i :: 0 <= i < |db| ==> db[i].broker == A
    ensures Balanced(db) == db
  {
    forall i | 0 <= i < |db| ensures Rank(db, i) == i { AllOne(db, i); }
    forall i, j | 0 <= i < j < |db| ensures Before(FirstSeen(db), db, i, j) {}
    BalancedIsTheSort(db, db);
  }

  lemma {:induction false} AllOne(db: seq<Row>, n: nat)
    requires n <= |db| && forall i :: 0 <= i < n ==> db[i].broker == A
    ensures OfFirst(db, n, A) == db[..n]
    decreases n
  {
    if n > 0 {
      AllOne(db, n - 1);
      assert db[..n] == db[..n - 1] + [db[n - 1]];
    }
  }

  // The same rows with the lonely one moved to the second place.
  function LonelySecond(w: nat, n: nat): (out: seq<Row>)
    requires 1 <= w < n
    ensures |out| == n
  {
    seq(n, p => if p == 0 then Row(0, A) else if p == 1 then Row(w, B)
                else if p <= w then Row(p - 1, A) else Row(p, A))
  }

  // The rows of broker A with ids below m.
  function ARows(w: nat, m: nat): (rows: seq<Row>)
    ensures |rows| == if m <= w then m else m - 1
  {
    if m == 0 then [] else if m - 1 == w then ARows(w, m - 1) else ARows(w, m - 1) + [Row(m - 1, A)]
  }

  lemma {:induction false} LonelyOf(w: nat, n: nat, m: nat)
    requires w < n && m <= n
    ensures OfFirst(Lonely(w, n), m, A) == ARows(w, m)
    ensures OfFirst(Lonely(w, n), m, B) == if m <= w then [] else [Row(w, B)]
    decreases m
  {
    if m > 0 { LonelyOf(w, n, m - 1); }
  }

  lemma {:induction false} SecondOf(w: nat, n: nat, m: nat)
    requires 1 <= w < n && m <= n
    ensures OfFirst(LonelySecond(w, n), m, A) == ARows(w, if m <= 1 then m else if m <= w + 1 then m - 1 else m)
    ensures OfFirst(LonelySecond(w, n), m, B) == if m <= 1 then [] else [Row(w, B)]
    decreases m
  {
    if m > 0 {
      SecondOf(w, n, m - 1);
      assert m == w + 2 ==> ARows(w, w + 1) == ARows(w, w);
    }
  }

  lemma {:induction false} LonelySeen(w: nat, n: nat, m: nat)
    requires 1 <= w < n && 1 <= m <= n
    ensures SeenIn(Lonely(w, n), m) == if m <= w then [A] else [A, B]
    decreases m
  {
    if m == 1 { assert SeenIn(Lonely(w, n), 0) == []; } else { LonelySeen(w, n, m - 1); }
  }

  lemma LonelyKeeps(w: nat, n: nat, key: Key)
    requires 1 <= w < n
    ensures Of(LonelySecond(w, n), key) == Of(Lonely(w, n), key)
  {
    if key == A || key == B {
      LonelyOf(w, n, n);
      SecondOf(w, n, n);
    } else {
      OfNone(LonelySecond(w, n), n, key);
      OfNone(Lonely(w, n), n, key);
    }
  }

  lemma LonelyRank(w: nat, n: nat, p: nat)
    requires 1 <= w < n && p < n
    ensures Rank(LonelySecond(w, n), p) == if p <= 1 then 0 else p - 1
  {
    SecondOf(w, n, p);
  }

  lemma LonelySorted(w: nat, n: nat, i: nat, j: nat)
    requires 1 <= w < n && i < j < n
    ensures Before([A, B], LonelySecond(w, n), i, j)
  {
    IndexAt([A, B], 0);
    IndexAt([A, B], 1);
    LonelyRank(w, n, i);
    LonelyRank(w, n, j);
  }

  // What the merge makes of a lonely row: it comes second, whatever its age.
  lemma LonelyBalanced(w: nat, n: nat)
    requires 1 <= w < n
    ensures Balanced(Lonely(w, n)) == LonelySecond(w, n)
  {
    var db, out := Lonely(w, n), LonelySecond(w, n);
    LonelySeen(w, n, n);
    forall key ensures Of(out, key) == Of(db, key) { LonelyKeeps(w, n, key); }
    forall i, j | 0 <= i < j < n ensures Before(FirstSeen(db), out, i, j) { LonelySorted(w, n, i, j); }
    BalancedIsTheSort(db, out);
  }

  lemma PageBeforeTheLonelyRow(offset: nat, limit: nat, w: nat, n: nat)
    requires 1 <= limit && w == Window(offset + limit) < n <= 1000
    ensures var a := Page(Lonely(w, n), offset, limit);
            |a| == limit && a[limit - 1] == Row(offset + limit - 1, A)
  {
    var window := Take(Lonely(w, n), w);
    OneBroker(window);
  }

  lemma PageAfterTheLonelyRow(end: nat, next: nat, w: nat, n: nat)
    requires 1 <= next && w == Window(end) < n == Window(end + next) && end >= 2
    ensures var b := Page(Lonely(w, n), end, next);
            |b| > 0 && b[0] == Row(end - 1, A)
  {
    LonelyBalanced(w, n);
    assert Take(Lonely(w, n), n) == Lonely(w, n);
    var out := LonelySecond(w, n);
    assert Page(Lonely(w, n), end, next) == Slice(out, end, end + next);
    assert out[end] == Row(end - 1, A);
  }

  // Once the windows differ, some database repeats a row on the next page.
  lemma GrownWindowRepeats(offset: nat, limit: nat, next: nat)
    requires 1 <= limit && 1 <= next && offset + limit >= 2
    requires Window(offset + limit) < Window(offset + limit + next)
    ensures var db := Lonely(Window(offset + limit), Window(offset + limit + next));
            NoRepeats(db) && !Disjoint(Page(db, offset, limit), Page(db, offset + limit, next))
  {
    var w, n := Window(offset + limit), Window(offset + limit + next);
    LonelyNoRepeats(w, n);
    PageBeforeTheLonelyRow(offset, limit, w, n);
    PageAfterTheLonelyRow(offset + limit, next, w, n);
  }

  lemma FirstStays(rows: seq<Row>)
    requires rows != []
    ensures Balanced(rows) != [] && Balanced(rows)[0] == rows[0]
  {
    BalancedPermutes(rows);
    BalancedIsTheSort(rows, Balanced(rows));
    SeenFirst(rows, |rows|);
    var out := Balanced(rows);
    FirstRowCounts(rows, |rows|, rows[0].broker);
    NextIsLeast(rows, out, 0, rows[0].broker);
    var k := out[0].broker;
    assert Index(FirstSeen(rows), k) == 0;
    RowInPlace(rows, out, 0);
    OfMonotone(rows, 1, |rows|, k);
    assert OfFirst(rows, 1, k) == [rows[0]] by { assert OfFirst(rows, 0, k) == []; }
  }

  lemma {:induction false} SeenFirst(rows: seq<Row>, n: nat)
    requires 1 <= n <= |rows|
    ensures SeenIn(rows, n) != [] && SeenIn(rows, n)[0] == rows[0].broker
    ensures Index(SeenIn(rows, n), rows[0].broker) == 0
    decreases n
  {
    if n == 1 { assert SeenIn(rows, 0) == []; } else { SeenFirst(rows, n - 1); }
  }

  // A first page of one row is the newest row, which every window puts first.
  lemma OneRowPageDisjoint(db: seq<Row>, next: nat)
    requires NoRepeats(db)
    ensures Disjoint(Page(db, 0, 1), Page(db, 1, next))
  {
    if db != [] {
      NewestFirstPage(db);
      NewestIsNotLater(db, next);
    }
  }

  lemma NewestFirstPage(db: seq<Row>)
    requires db != []
    ensures Page(db, 0, 1) == [db[0]]
  {
    FirstStays(Take(db, Window(1)));
  }

  lemma NewestIsNotLater(db: seq<Row>, next: nat)
    requires NoRepeats(db) && db != []
    ensures db[0] !in Page(db, 1, next)
  {
    var w := Take(db, Window(1 + next));
    FirstStays(w);
    BalancedPermutes(w);
    MultisetNoRepeats(w, Balanced(w));
  }

  ghost predicate AlwaysDisjoint(offset: nat, limit: nat, next: nat)
  {
    forall db: seq<Row> :: NoRepeats(db) ==> Disjoint(Page(db, offset, limit), Page(db, offset + limit, next))
  }

  lemma SameWindowAlwaysDisjoint(offset: nat, limit: nat, next: nat)
    requires Window(offset + limit) == Window(offset + limit + next) || (offset == 0 && limit == 1)
    ensures AlwaysDisjoint(offset, limit, next)
  {
    forall db: seq<Row> | NoRepeats(db) ensures Disjoint(Page(db, offset, limit), Page(db, offset + limit, next)) {
      if Window(offset + limit) == Window(offset + limit + next) { SameWindowDisjoint(db, offset, limit, next); }
      else { OneRowPageDisjoint(db, next); }
    }
  }

  // Consecutive pages are disjoint on every database exactly when they are cut from one window,
  // or the first of them is the single newest row.
  lemma PagesDisjointIff(offset: nat, limit: nat, next: nat)
    requires 1 <= limit && 1 <= next
    ensures AlwaysDisjoint(offset, limit, next)
        <==> Window(offset + limit) == Window(offset + limit + next) || offset + limit <= 1
  {
    if Window(offset + limit) == Window(offset + limit + next) || offset + limit <= 1 {
      SameWindowAlwaysDisjoint(offset, limit, next);
    } else {
      GrownWindowRepeats(offset, limit, next);
    }
  }

  // A row just past the first window that no page shows: it is always due second.
  lemma HiddenRow(n: nat, offset: nat, limit: nat)
    requires n > 50 && (offset >= 2 || offset + limit <= 50)
    ensures Row(50, B) in Lonely(50, n) && Row(50, B) !in Page(Lonely(50, n), offset, limit)
  {
    var db := Lonely(50, n);
    assert db[50] == Row(50, B);
    var w := Window(offset + limit);
    if w == 50 { HiddenBeforeTheWindow(n, offset, limit); } else { HiddenAfterIt(n, offset, limit); }
  }

  lemma HiddenBeforeTheWindow(n: nat, offset: nat, limit: nat)
    requires n > 50 && Window(offset + limit) == 50
    ensures Row(50, B) !in Page(Lonely(50, n), offset, limit)
  {
    OneBroker(Take(Lonely(50, n), 50));
  }

  lemma HiddenAfterIt(n: nat, offset: nat, limit: nat)
    requires n > 50 && offset >= 2 && Window(offset + limit) > 50
    ensures Row(50, B) !in Page(Lonely(50, n), offset, limit)
  {
    var window := Take(Lonely(50, n), Window(offset + limit));
    assert window == Lonely(50, |window|);
    LonelyBalanced(50, |window|);
  }

  // ----- Whether following the pages shows everything -----

  function NthPage(db: seq<Row>, limit: nat, k: nat): (page: seq<Row>) { Page(db, k * limit, limit) }

  predicate ShownOn(db: seq<Row>, limit: nat, k: nat, row: Row) { row in NthPage(db, limit, k) }

  ghost predicate ShowsAll(db: seq<Row>, limit: nat)
  {
    forall row :: row in db ==> exists k: nat :: ShownOn(db, limit, k, row)
  }

  ghost predicate AlwaysShowsAll(n: nat, limit: nat)
  {
    forall db: seq<Row> :: |db| == n && NoRepeats(db) ==> ShowsAll(db, limit)
  }

  lemma PageOfPlace(p: nat, limit: nat) returns (k: nat)
    requires limit >= 1
    ensures k * limit <= p < k * limit + limit
  {
    k := p / limit;
  }

  lemma SlicedAt(s: seq<Row>, p: nat, lo: nat, hi: nat)
    requires lo <= p < hi && p < |s|
    ensures s[p] in Slice(s, lo, hi)
  {
    assert Slice(s, lo, hi)[p - lo] == s[p];
  }

  lemma PlaceOf(db: seq<Row>, balanced: seq<Row>, row: Row) returns (p: nat)
    requires balanced == Balanced(db) && row in db
    ensures p < |balanced| && balanced[p] == row
  {
    BalancedPermutes(db);
    assert row in multiset(balanced);
    p :| p < |balanced| && balanced[p] == row;
  }

  lemma OnPage(db: seq<Row>, balanced: seq<Row>, p: nat, lo: nat, limit: nat)
    requires |db| <= 50 && balanced == Balanced(db) && lo <= p < lo + limit && p < |balanced|
    ensures balanced[p] in Page(db, lo, limit)
  {
    PageIs(db, db, balanced, lo, limit);
    SlicedAt(balanced, p, lo, lo + limit);
  }

  // While the smallest window holds all rows, a row is shown on the page that holds its place.
  lemma SmallShowsAll(db: seq<Row>, limit: nat, row: Row) returns (k: nat)
    requires limit >= 1 && |db| <= 50 && row in db
    ensures ShownOn(db, limit, k, row)
  {
    var p := PlaceOf(db, Balanced(db), row);
    k := PageOfPlace(p, limit);
    OnPage(db, Balanced(db), p, k * limit, limit);
  }

  lemma NotOnPage(n: nat, limit: nat, k: nat)
    requires n > 50 && 1 <= limit <= 50
    ensures !ShownOn(Lonely(50, n), limit, k, Row(50, B))
  {
    if k >= 2 { assert k * limit >= 2; }
    HiddenRow(n, k * limit, limit);
  }

  // Following the pages of one size shows every row of every database of n rows exactly when the
  // smallest window holds them all.
  lemma PagesShowAllIff(n: nat, limit: nat)
    requires 1 <= limit <= 50
    ensures AlwaysShowsAll(n, limit) <==> n <= 50
  {
    if n <= 50 {
      forall db: seq<Row>, row | |db| == n && NoRepeats(db) && row in db
        ensures exists k: nat :: ShownOn(db, limit, k, row)
      {
        var k := SmallShowsAll(db, limit, row);
      }
    } else {
      var db := Lonely(50, n);
      LonelyNoRepeats(50, n);
      HiddenRow(n, 0, limit);
      forall k: nat ensures !ShownOn(db, limit, k, Row(50, B)) { NotOnPage(n, limit, k); }
      assert !ShowsAll(db, limit);
    }
  }
}
