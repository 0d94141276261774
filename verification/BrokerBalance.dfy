// The broker-balanced merge of _listing_query: no broker's burst may fill a page.
module BrokerBalance {
  import opened Sequences

  // The broker key: an id, a phone or a name in the source; here one number for each.
  type Key = int

  datatype Row = Row(id: int, broker: Key)

  // ----- Specification -----

  // The rows of one broker among the first n, in order.
  function OfFirst(rows: seq<Row>, n: nat, key: Key): (r: seq<Row>)
    requires n <= |rows|
    ensures |r| <= n
  {
    if n == 0 then []
    else if rows[n - 1].broker == key then OfFirst(rows, n - 1, key) + [rows[n - 1]]
    else OfFirst(rows, n - 1, key)
  }

  function Of(rows: seq<Row>, key: Key): (r: seq<Row>) { OfFirst(rows, |rows|, key) }

  predicate Differ(keys: seq<Key>, i: nat, j: nat)
    requires i < |keys| && j < |keys|
  {
    keys[i] != keys[j]
  }

  predicate Distinct(keys: seq<Key>) { forall i, j :: 0 <= i < j < |keys| ==> Differ(keys, i, j) }

  lemma DistinctAppend(keys: seq<Key>, key: Key)
    requires Distinct(keys) && key !in keys
    ensures Distinct(keys + [key])
  {
    forall i, j | 0 <= i < j <= |keys| ensures Differ(keys + [key], i, j) {
      if j < |keys| { assert Differ(keys, i, j); }
    }
  }

  // The brokers of the first n rows in the order in which they are first seen.
  function SeenIn(rows: seq<Row>, n: nat): (keys: seq<Key>)
    requires n <= |rows|
    ensures Distinct(keys) && forall i :: 0 <= i < n ==> rows[i].broker in keys
  {
    if n == 0 then [] else
    var before := SeenIn(rows, n - 1);
    if rows[n - 1].broker in before then before
    else DistinctAppend(before, rows[n - 1].broker); before + [rows[n - 1].broker]
  }

  function FirstSeen(rows: seq<Row>): (keys: seq<Key>)
    ensures Distinct(keys) && forall i :: 0 <= i < |rows| ==> rows[i].broker in keys
  {
    SeenIn(rows, |rows|)
  }

  // The row of rank r, if there is one, and the rows of lower rank.
  function Ranked(s: seq<Row>, r: nat): (one: seq<Row>) { if r < |s| then [s[r]] else [] }

  function Taken(s: seq<Row>, r: nat): (head: seq<Row>) { if r < |s| then s[..r] else s }

  // One round over the first c brokers: the row of rank r of each one that has such a row.
  function Column(keys: seq<Key>, c: nat, rows: seq<Row>, r: nat): (out: seq<Row>)
    requires c <= |keys|
  {
    if c == 0 then [] else Column(keys, c - 1, rows, r) + Ranked(Of(rows, keys[c - 1]), r)
  }

  function Rounds(keys: seq<Key>, rows: seq<Row>, r: nat): (out: seq<Row>)
  {
    if r == 0 then [] else Rounds(keys, rows, r - 1) + Column(keys, |keys|, rows, r - 1)
  }

  // The whole merge: every rank, and within a rank every broker, in turn.
  function Balanced(rows: seq<Row>): (out: seq<Row>) { Rounds(FirstSeen(rows), rows, |rows|) }

  // ----- Of and Column -----

  lemma {:induction false} OfAgrees(a: seq<Row>, b: seq<Row>, n: nat, key: Key)
    requires n <= |a| && n <= |b| && a[..n] == b[..n]
    ensures OfFirst(a, n, key) == OfFirst(b, n, key)
    decreases n
  {
    if n > 0 {
      assert a[n - 1] == a[..n][n - 1] == b[..n][n - 1] == b[n - 1];
      assert a[..n - 1] == a[..n][..n - 1] == b[..n][..n - 1] == b[..n - 1];
      OfAgrees(a, b, n - 1, key);
    }
  }

  lemma {:induction false} OfConcatFirst(a: seq<Row>, b: seq<Row>, n: nat, key: Key)
    requires n <= |b|
    ensures OfFirst(a + b, |a| + n, key) == Of(a, key) + OfFirst(b, n, key)
    decreases n
  {
    if n == 0 {
      assert (a + b)[..|a|] == a[..|a|];
      OfAgrees(a + b, a, |a|, key);
    } else {
      OfConcatFirst(a, b, n - 1, key);
    }
  }

  lemma OfConcat(a: seq<Row>, b: seq<Row>, key: Key)
    ensures Of(a + b, key) == Of(a, key) + Of(b, key)
  {
    OfConcatFirst(a, b, |b|, key);
  }

  lemma OfPrefix(rows: seq<Row>, n: nat, key: Key)
    requires n <= |rows|
    ensures Of(rows[..n], key) == OfFirst(rows, n, key)
  {
    assert rows[..n][..n] == rows[..n];
    OfAgrees(rows[..n], rows, n, key);
  }

  lemma {:induction false} OfNone(rows: seq<Row>, n: nat, key: Key)
    requires n <= |rows| && forall i :: 0 <= i < n ==> rows[i].broker != key
    ensures OfFirst(rows, n, key) == []
    decreases n
  {
    if n > 0 { OfNone(rows, n - 1, key); }
  }

  lemma {:induction false} OfBroker(rows: seq<Row>, n: nat, key: Key, i: nat)
    requires n <= |rows| && i < |OfFirst(rows, n, key)|
    ensures OfFirst(rows, n, key)[i].broker == key
    decreases n
  {
    if i < |OfFirst(rows, n - 1, key)| { OfBroker(rows, n - 1, key, i); }
  }

  lemma OfRanked(rows: seq<Row>, k: Key, r: nat, key: Key)
    ensures Of(Ranked(Of(rows, k), r), key) == if k == key then Ranked(Of(rows, k), r) else []
  {
    var one := Ranked(Of(rows, k), r);
    if one != [] {
      OfBroker(rows, |rows|, k, r);
      assert OfFirst(one, 0, key) == [];
    }
  }

  lemma OfAppend(a: seq<Row>, b: seq<Row>, key: Key, x: seq<Row>, y: seq<Row>)
    requires Of(a, key) == x && Of(b, key) == y
    ensures Of(a + b, key) == x + y
  {
    OfConcat(a, b, key);
  }

  lemma {:induction false} OfColumn(keys: seq<Key>, c: nat, rows: seq<Row>, r: nat, b: nat)
    requires Distinct(keys) && c <= |keys| && b < |keys|
    ensures Of(Column(keys, c, rows, r), keys[b]) == if b < c then Ranked(Of(rows, keys[b]), r) else []
    decreases c
  {
    if c > 0 {
      var before, one := Column(keys, c - 1, rows, r), Ranked(Of(rows, keys[c - 1]), r);
      OfColumn(keys, c - 1, rows, r, b);
      OfRanked(rows, keys[c - 1], r, keys[b]);
      assert b < c - 1 ==> Differ(keys, b, c - 1);
      assert b > c - 1 ==> Differ(keys, c - 1, b);
      if b == c - 1 { OfAppend(before, one, keys[b], [], one); }
      else { OfAppend(before, one, keys[b], Of(before, keys[b]), []); }
    }
  }

  lemma {:induction false} OfOtherColumn(keys: seq<Key>, c: nat, rows: seq<Row>, r: nat, key: Key)
    requires c <= |keys| && key !in keys
    ensures Of(Column(keys, c, rows, r), key) == []
    decreases c
  {
    if c > 0 {
      OfOtherColumn(keys, c - 1, rows, r, key);
      OfConcat(Column(keys, c - 1, rows, r), Ranked(Of(rows, keys[c - 1]), r), key);
      OfRanked(rows, keys[c - 1], r, key);
    }
  }

  lemma TakeOneMore(s: seq<Row>, r: nat)
    requires r > 0
    ensures Taken(s, r - 1) + Ranked(s, r - 1) == Taken(s, r)
  {
  }

  lemma OfRound(keys: seq<Key>, rows: seq<Row>, r: nat, b: nat)
    requires Distinct(keys) && b < |keys| && r > 0
    ensures Of(Rounds(keys, rows, r), keys[b])
            == Of(Rounds(keys, rows, r - 1), keys[b]) + Ranked(Of(rows, keys[b]), r - 1)
  {
    OfConcat(Rounds(keys, rows, r - 1), Column(keys, |keys|, rows, r - 1), keys[b]);
    OfColumn(keys, |keys|, rows, r - 1, b);
  }

  lemma TakenStep(before: seq<Row>, after: seq<Row>, s: seq<Row>, r: nat)
    requires r > 0 && before == Taken(s, r - 1) && after == before + Ranked(s, r - 1)
    ensures after == Taken(s, r)
  {
    TakeOneMore(s, r);
  }

  // Rounds of a key that add its rows rank by rank.
  lemma {:induction false} TakenRankByRank(f: nat -> seq<Row>, s: seq<Row>, r: nat)
    requires f(0) == [] && forall q: nat :: 0 < q <= r ==> f(q) == f(q - 1) + Ranked(s, q - 1)
    ensures f(r) == Taken(s, r)
  {
    if r > 0 {
      TakenRankByRank(f, s, r - 1);
      TakenStep(f(r - 1), f(r), s, r);
    }
  }

  lemma OfRounds(keys: seq<Key>, rows: seq<Row>, r: nat, b: nat)
    requires Distinct(keys) && b < |keys|
    ensures Of(Rounds(keys, rows, r), keys[b]) == Taken(Of(rows, keys[b]), r)
  {
    var f := (q: nat) => Of(Rounds(keys, rows, q), keys[b]);
    forall q: nat | 0 < q <= r ensures f(q) == f(q - 1) + Ranked(Of(rows, keys[b]), q - 1) {
      OfRound(keys, rows, q, b);
    }
    TakenRankByRank(f, Of(rows, keys[b]), r);
  }

  lemma {:induction false} OfOtherRounds(keys: seq<Key>, rows: seq<Row>, r: nat, key: Key)
    requires key !in keys
    ensures Of(Rounds(keys, rows, r), key) == []
  {
    if r > 0 {
      OfOtherRounds(keys, rows, r - 1, key);
      OfConcat(Rounds(keys, rows, r - 1), Column(keys, |keys|, rows, r - 1), key);
      OfOtherColumn(keys, |keys|, rows, r - 1, key);
    }
  }

  // Every broker keeps all of its rows, in their own order.
  lemma BalancedKeepsBrokers(rows: seq<Row>, key: Key)
    ensures Of(Balanced(rows), key) == Of(rows, key)
  {
    var keys := FirstSeen(rows);
    if key in keys {
      var b :| 0 <= b < |keys| && keys[b] == key;
      OfRounds(keys, rows, |rows|, b);
    } else {
      OfOtherRounds(keys, rows, |rows|, key);
      OfNone(rows, |rows|, key);
    }
  }

  lemma {:induction false} CountInOf(a: seq<Row>, n: nat, row: Row)
    requires n <= |a|
    ensures multiset(a[..n])[row] == multiset(OfFirst(a, n, row.broker))[row]
    decreases n
  {
    if n > 0 {
      assert a[..n] == a[..n - 1] + [a[n - 1]];
      CountInOf(a, n - 1, row);
    }
  }

  // Agreeing on every broker's subsequence is being a permutation.
  lemma SameBrokersPermute(a: seq<Row>, b: seq<Row>)
    requires forall key :: Of(a, key) == Of(b, key)
    ensures multiset(a) == multiset(b) && |a| == |b|
  {
    assert a[..|a|] == a && b[..|b|] == b;
    forall row: Row ensures multiset(a)[row] == multiset(b)[row] {
      CountInOf(a, |a|, row);
      CountInOf(b, |b|, row);
      assert Of(a, row.broker) == Of(b, row.broker);
    }
    assert |a| == |multiset(a)| && |b| == |multiset(b)|;
  }

  lemma BalancedPermutes(rows: seq<Row>)
    ensures multiset(Balanced(rows)) == multiset(rows) && |Balanced(rows)| == |rows|
  {
    forall key ensures Of(Balanced(rows), key) == Of(rows, key) { BalancedKeepsBrokers(rows, key); }
    SameBrokersPermute(Balanced(rows), rows);
  }

  // ----- Every prefix is level -----

  // The output after r whole rounds and c brokers of the next one.
  function Upto(keys: seq<Key>, rows: seq<Row>, r: nat, c: nat): (out: seq<Row>)
    requires c <= |keys|
  {
    Rounds(keys, rows, r) + Column(keys, c, rows, r)
  }

  // Of broker b of the order, such a prefix holds its first r rows, or r + 1.
  lemma OfUpto(keys: seq<Key>, rows: seq<Row>, r: nat, c: nat, b: nat)
    requires Distinct(keys) && c <= |keys| && b < |keys|
    ensures Of(Upto(keys, rows, r, c), keys[b]) == Taken(Of(rows, keys[b]), if b < c then r + 1 else r)
  {
    OfConcat(Rounds(keys, rows, r), Column(keys, c, rows, r), keys[b]);
    OfRounds(keys, rows, r, b);
    OfColumn(keys, c, rows, r, b);
    TakeOneMore(Of(rows, keys[b]), r + 1);
  }

  // m elements in, it is the turn of broker c in round r.
  predicate TurnAt(keys: seq<Key>, rows: seq<Row>, out: seq<Row>, m: nat, r: nat, c: nat)
  {
    m < |out| && c < |keys| && r < |Of(rows, keys[c])| &&
    out[..m] == Upto(keys, rows, r, c) && out[m] == Of(rows, keys[c])[r]
  }

  lemma {:induction false} TurnInRound(keys: seq<Key>, rows: seq<Row>, r: nat, upto: nat, m: nat) returns (c: nat)
    requires upto <= |keys| && |Rounds(keys, rows, r)| <= m < |Upto(keys, rows, r, upto)|
    ensures TurnAt(keys, rows, Upto(keys, rows, r, upto), m, r, c)
    decreases upto
  {
    c := upto - 1;
    var before := Upto(keys, rows, r, c);
    assert Upto(keys, rows, r, upto) == before + Ranked(Of(rows, keys[c]), r);
    if m < |before| {
      c := TurnInRound(keys, rows, r, c, m);
      assert Upto(keys, rows, r, upto)[..m] == before[..m];
    }
  }

  lemma {:induction false} TurnInRounds(keys: seq<Key>, rows: seq<Row>, rounds: nat, m: nat) returns (r: nat, c: nat)
    requires m < |Rounds(keys, rows, rounds)|
    ensures TurnAt(keys, rows, Rounds(keys, rows, rounds), m, r, c)
  {
    var done := Rounds(keys, rows, rounds - 1);
    if m < |done| {
      r, c := TurnInRounds(keys, rows, rounds - 1, m);
      assert Rounds(keys, rows, rounds)[..m] == done[..m];
    } else {
      r := rounds - 1;
      c := TurnInRound(keys, rows, r, |keys|, m);
    }
  }

  // In every prefix a broker leads another by at most one row, unless the other is exhausted;
  // one seen earlier is never behind, unless it is exhausted itself.
  lemma PrefixIsFair(rows: seq<Row>, m: nat, a: nat, b: nat)
    requires m <= |Balanced(rows)| && a < |FirstSeen(rows)| && b < |FirstSeen(rows)|
    ensures var p := Balanced(rows)[..m];
            var ka, kb := FirstSeen(rows)[a], FirstSeen(rows)[b];
            && (|Of(p, ka)| <= |Of(p, kb)| + 1 || |Of(p, kb)| == |Of(rows, kb)|)
            && (a < b ==> |Of(p, kb)| <= |Of(p, ka)| || |Of(p, ka)| == |Of(rows, ka)|)
  {
    var keys := FirstSeen(rows);
    if m == |Balanced(rows)| {
      assert Balanced(rows)[..m] == Balanced(rows);
      BalancedKeepsBrokers(rows, keys[a]);
      BalancedKeepsBrokers(rows, keys[b]);
    } else {
      var r, c := TurnInRounds(keys, rows, |rows|, m);
      OfUpto(keys, rows, r, c, a);
      OfUpto(keys, rows, r, c, b);
    }
  }

  // ----- The closed form: sorted by rank within the broker, then by first-seen order -----

  function Index(keys: seq<Key>, key: Key): (i: nat)
    requires key in keys
    ensures i < |keys| && keys[i] == key
  {
    if keys[0] == key then 0 else 1 + Index(keys[1..], key)
  }

  lemma IndexAt(keys: seq<Key>, c: nat)
    requires Distinct(keys) && c < |keys|
    ensures Index(keys, keys[c]) == c
  {
    var i := Index(keys, keys[c]);
    assert keys[i] == keys[c];
    assert i < c ==> Differ(keys, i, c);
    assert c < i ==> Differ(keys, c, i);
  }

  // How many rows of its own broker precede the i-th one.
  function Rank(out: seq<Row>, i: nat): (r: nat)
    requires i < |out|
  {
    |OfFirst(out, i, out[i].broker)|
  }

  predicate Before(keys: seq<Key>, out: seq<Row>, i: nat, j: nat)
    requires i < |out| && j < |out| && out[i].broker in keys && out[j].broker in keys
  {
    Rank(out, i) < Rank(out, j) ||
    (Rank(out, i) == Rank(out, j) && Index(keys, out[i].broker) < Index(keys, out[j].broker))
  }

  ghost predicate RankSorted(rows: seq<Row>, out: seq<Row>)
  {
    && (forall key :: Of(out, key) == Of(rows, key))
    && (forall i :: 0 <= i < |out| ==> out[i].broker in FirstSeen(rows))
    && (forall i, j :: 0 <= i < j < |out| ==> Before(FirstSeen(rows), out, i, j))
  }

  lemma {:induction false} OfMonotone(rows: seq<Row>, m: nat, n: nat, key: Key)
    requires m <= n <= |rows|
    ensures OfFirst(rows, m, key) <= OfFirst(rows, n, key)
    decreases n - m
  {
    if m < n { OfMonotone(rows, m, n - 1, key); }
  }

  lemma RowInPlace(rows: seq<Row>, out: seq<Row>, m: nat)
    requires m < |out| && forall key :: Of(out, key) == Of(rows, key)
    ensures Rank(out, m) < |Of(rows, out[m].broker)|
    ensures out[m] == Of(rows, out[m].broker)[Rank(out, m)]
  {
    var key := out[m].broker;
    OfMonotone(out, m + 1, |out|, key);
    assert OfFirst(out, m + 1, key) == OfFirst(out, m, key) + [out[m]];
    assert Of(out, key) == Of(rows, key);
  }

  lemma CountAtTurn(rows: seq<Row>, m: nat, r: nat, c: nat, b: nat)
    requires TurnAt(FirstSeen(rows), rows, Balanced(rows), m, r, c) && b < |FirstSeen(rows)|
    ensures var key := FirstSeen(rows)[b];
            |OfFirst(Balanced(rows), m, key)| == Min(|Of(rows, key)|, if b < c then r + 1 else r)
  {
    OfUpto(FirstSeen(rows), rows, r, c, b);
    OfPrefix(Balanced(rows), m, FirstSeen(rows)[b]);
  }

  lemma TurnTag(rows: seq<Row>, m: nat, r: nat, c: nat)
    requires TurnAt(FirstSeen(rows), rows, Balanced(rows), m, r, c)
    ensures Balanced(rows)[m].broker == FirstSeen(rows)[c] && Rank(Balanced(rows), m) == r
    ensures Index(FirstSeen(rows), FirstSeen(rows)[c]) == c
  {
    OfBroker(rows, |rows|, FirstSeen(rows)[c], r);
    CountAtTurn(rows, m, r, c, c);
    IndexAt(FirstSeen(rows), c);
  }

  lemma BalancedBefore(rows: seq<Row>, i: nat, j: nat)
    requires i < j < |Balanced(rows)|
    ensures Balanced(rows)[i].broker in FirstSeen(rows) && Balanced(rows)[j].broker in FirstSeen(rows)
    ensures Before(FirstSeen(rows), Balanced(rows), i, j)
  {
    var keys, out := FirstSeen(rows), Balanced(rows);
    var r, c := TurnInRounds(keys, rows, |rows|, i);
    var r', c' := TurnInRounds(keys, rows, |rows|, j);
    TurnTag(rows, i, r, c);
    TurnTag(rows, j, r', c');
    TurnsInOrder(rows, i, j, r, c, r', c');
  }

  lemma TurnsInOrder(rows: seq<Row>, i: nat, j: nat, r: nat, c: nat, r': nat, c': nat)
    requires i < j < |Balanced(rows)| && TurnAt(FirstSeen(rows), rows, Balanced(rows), j, r', c')
    requires c < |FirstSeen(rows)| && Balanced(rows)[i].broker == FirstSeen(rows)[c] && Rank(Balanced(rows), i) == r
    ensures r < if c < c' then r' + 1 else r'
  {
    var keys, out := FirstSeen(rows), Balanced(rows);
    OfMonotone(out, i + 1, j, keys[c]);
    CountAtTurn(rows, j, r', c', c);
    assert OfFirst(out, i + 1, keys[c]) == OfFirst(out, i, keys[c]) + [out[i]];
  }

  lemma BalancedIsRankSorted(rows: seq<Row>)
    ensures RankSorted(rows, Balanced(rows))
  {
    var out := Balanced(rows);
    forall key ensures Of(out, key) == Of(rows, key) { BalancedKeepsBrokers(rows, key); }
    forall i | 0 <= i < |out| ensures out[i].broker in FirstSeen(rows) {
      var r, c := TurnInRounds(FirstSeen(rows), rows, |rows|, i);
      TurnTag(rows, i, r, c);
    }
    forall i, j | 0 <= i < j < |out| ensures Before(FirstSeen(rows), out, i, j) { BalancedBefore(rows, i, j); }
  }

  lemma {:induction false} NextOccurrence(out: seq<Row>, m: nat, n: nat, key: Key) returns (q: nat)
    requires m <= n <= |out| && |OfFirst(out, m, key)| < |OfFirst(out, n, key)|
    ensures m <= q < n && out[q].broker == key && OfFirst(out, q, key) == OfFirst(out, m, key)
    decreases n
  {
    if |OfFirst(out, m, key)| < |OfFirst(out, n - 1, key)| {
      q := NextOccurrence(out, m, n - 1, key);
    } else {
      OfMonotone(out, m, n - 1, key);
      q := n - 1;
    }
  }

  // The next row of a sorted output belongs to the least of the live brokers.
  lemma NextIsLeast(rows: seq<Row>, out: seq<Row>, m: nat, key: Key)
    requires RankSorted(rows, out) && m < |out| && key in FirstSeen(rows)
    requires |OfFirst(out, m, key)| < |Of(rows, key)|
    ensures var keys := FirstSeen(rows);
            Rank(out, m) < |OfFirst(out, m, key)| ||
            (Rank(out, m) == |OfFirst(out, m, key)| && Index(keys, out[m].broker) <= Index(keys, key))
  {
    assert Of(out, key) == Of(rows, key);
    var q := NextOccurrence(out, m, |out|, key);
    if q > m { assert Before(FirstSeen(rows), out, m, q); }
  }

  lemma {:induction false} SortedAgree(rows: seq<Row>, a: seq<Row>, b: seq<Row>, m: nat)
    requires RankSorted(rows, a) && RankSorted(rows, b) && m <= |a| == |b|
    ensures a[..m] == b[..m]
    decreases m
  {
    if m > 0 {
      var n := m - 1;
      SortedAgree(rows, a, b, n);
      var ka, kb := a[n].broker, b[n].broker;
      OfAgrees(a, b, n, ka);
      OfAgrees(a, b, n, kb);
      RowInPlace(rows, a, n);
      RowInPlace(rows, b, n);
      NextIsLeast(rows, a, n, kb);
      NextIsLeast(rows, b, n, ka);
      assert FirstSeen(rows)[Index(FirstSeen(rows), ka)] == FirstSeen(rows)[Index(FirstSeen(rows), kb)];
      assert a[..m] == a[..n] + [a[n]] && b[..m] == b[..n] + [b[n]];
    }
  }

  // The merge is the one output that keeps every broker's order and is sorted by (rank, order).
  lemma BalancedIsTheSort(rows: seq<Row>, out: seq<Row>)
    ensures RankSorted(rows, out) <==> out == Balanced(rows)
  {
    BalancedIsRankSorted(rows);
    if RankSorted(rows, out) {
      SameBrokersPermute(out, rows);
      BalancedPermutes(rows);
      SortedAgree(rows, out, Balanced(rows), |out|);
      assert out[..|out|] == out && Balanced(rows)[..|out|] == Balanced(rows);
    }
  }

  // ----- The loops of the source -----

  // The brokers among the first c that still have a row of rank r.
  function Live(keys: seq<Key>, c: nat, rows: seq<Row>, r: nat): (live: seq<Key>)
    requires c <= |keys|
    ensures |live| <= c
  {
    if c == 0 then []
    else if r < |Of(rows, keys[c - 1])| then Live(keys, c - 1, rows, r) + [keys[c - 1]]
    else Live(keys, c - 1, rows, r)
  }

  lemma {:induction false} LiveMember(keys: seq<Key>, c: nat, rows: seq<Row>, r: nat, i: nat) returns (j: nat)
    requires c <= |keys| && i < |Live(keys, c, rows, r)|
    ensures j < c && Live(keys, c, rows, r)[i] == keys[j] && r < |Of(rows, keys[j])|
    decreases c
  {
    j := c - 1;
    if i < |Live(keys, c - 1, rows, r)| { j := LiveMember(keys, c - 1, rows, r, i); }
  }

  lemma {:induction false} LiveDistinct(keys: seq<Key>, c: nat, rows: seq<Row>, r: nat)
    requires c <= |keys| && Distinct(keys)
    ensures Distinct(Live(keys, c, rows, r))
    decreases c
  {
    if c > 0 {
      LiveDistinct(keys, c - 1, rows, r);
      var before := Live(keys, c - 1, rows, r);
      forall i | 0 <= i < |before| ensures before[i] != keys[c - 1] {
        var j := LiveMember(keys, c - 1, rows, r, i);
        assert Differ(keys, j, c - 1);
      }
      DistinctAppend(before, keys[c - 1]);
    }
  }

  lemma {:induction false} NoneLive(keys: seq<Key>, c: nat, rows: seq<Row>, r: nat, s: nat)
    requires c <= |keys| && r <= s && Live(keys, c, rows, r) == []
    ensures Column(keys, c, rows, s) == []
    decreases c
  {
    if c > 0 { NoneLive(keys, c - 1, rows, r, s); }
  }

  lemma {:induction false} ColumnExtends(a: seq<Key>, k: Key, c: nat, rows: seq<Row>, r: nat)
    requires c <= |a|
    ensures Column(a + [k], c, rows, r) == Column(a, c, rows, r)
    decreases c
  {
    if c > 0 { ColumnExtends(a, k, c - 1, rows, r); }
  }

  lemma {:induction false} LiveExtends(a: seq<Key>, k: Key, c: nat, rows: seq<Row>, r: nat)
    requires c <= |a|
    ensures Live(a + [k], c, rows, r) == Live(a, c, rows, r)
    decreases c
  {
    if c > 0 { LiveExtends(a, k, c - 1, rows, r); }
  }

  lemma ColumnOfMore(a: seq<Key>, k: Key, rows: seq<Row>, r: nat)
    ensures Column(a + [k], |a + [k]|, rows, r) == Column(a, |a|, rows, r) + Ranked(Of(rows, k), r)
  {
    ColumnExtends(a, k, |a|, rows, r);
  }

  // A round over the live brokers alone is the round over all of them.
  lemma {:induction false} ColumnOfLive(keys: seq<Key>, c: nat, rows: seq<Row>, r: nat)
    requires c <= |keys|
    ensures Column(Live(keys, c, rows, r), |Live(keys, c, rows, r)|, rows, r) == Column(keys, c, rows, r)
    decreases c
  {
    if c > 0 {
      var before, k := Live(keys, c - 1, rows, r), keys[c - 1];
      ColumnOfLive(keys, c - 1, rows, r);
      ColumnOfMore(before, k, rows, r);
    }
  }

  lemma {:induction false} LiveOfLive(keys: seq<Key>, c: nat, rows: seq<Row>, r: nat)
    requires c <= |keys|
    ensures Live(Live(keys, c, rows, r), |Live(keys, c, rows, r)|, rows, r + 1) == Live(keys, c, rows, r + 1)
    decreases c
  {
    if c > 0 {
      var before, k := Live(keys, c - 1, rows, r), keys[c - 1];
      LiveOfLive(keys, c - 1, rows, r);
      LiveExtends(before, k, |before|, rows, r + 1);
    }
  }

  lemma RoundOfLive(keys: seq<Key>, rows: seq<Row>, r: nat)
    requires Distinct(keys)
    ensures var live := Live(keys, |keys|, rows, r);
            && Distinct(live) && Column(live, |live|, rows, r) == Column(keys, |keys|, rows, r)
            && Live(live, |live|, rows, r + 1) == Live(keys, |keys|, rows, r + 1)
  {
    LiveDistinct(keys, |keys|, rows, r);
    ColumnOfLive(keys, |keys|, rows, r);
    LiveOfLive(keys, |keys|, rows, r);
  }

  // setdefault(key, []).append(row) for every row: an insertion-ordered dict of queues.
  method FillBuckets(rows: seq<Row>) returns (keys: seq<Key>, buckets: map<Key, seq<Row>>)
    ensures keys == FirstSeen(rows)
    ensures forall k :: k in buckets <==> k in keys
    ensures forall k :: k in keys ==> buckets[k] == Of(rows, k)
  {
    keys, buckets := [], map[];
    var n := 0;
    while n < |rows|
      invariant n <= |rows| && keys == SeenIn(rows, n)
      invariant forall k :: k in buckets <==> k in keys
      invariant forall k :: k in keys ==> buckets[k] == OfFirst(rows, n, k)
    {
      var key := rows[n].broker;
      if key !in buckets {
        OfUnseen(rows, n, key);
        keys, buckets := keys + [key], buckets[key := []];
      }
      buckets := buckets[key := buckets[key] + [rows[n]]];
      n := n + 1;
    }
  }

  lemma OfUnseen(rows: seq<Row>, n: nat, key: Key)
    requires n <= |rows| && key !in SeenIn(rows, n)
    ensures OfFirst(rows, n, key) == []
  {
    OfNone(rows, n, key);
  }

  // Every queue of a live broker holds its rows from rank r on.
  ghost predicate Queued(keys: seq<Key>, buckets: map<Key, seq<Row>>, rows: seq<Row>, r: nat)
  {
    forall i :: 0 <= i < |keys| ==>
      keys[i] in buckets && r < |Of(rows, keys[i])| && buckets[keys[i]] == Of(rows, keys[i])[r..]
  }

  // One pass over a snapshot of the keys. A queue that runs empty is deleted, and what stays of
  // the dict keeps its order.
  method DrainRound(rows: seq<Row>, ghost r: nat, keys: seq<Key>, buckets: map<Key, seq<Row>>)
    returns (column: seq<Row>, kept: seq<Key>, buckets': map<Key, seq<Row>>)
    requires Distinct(keys) && Queued(keys, buckets, rows, r)
    ensures column == Column(keys, |keys|, rows, r)
    ensures kept == Live(keys, |keys|, rows, r + 1) && Queued(kept, buckets', rows, r + 1)
  {
    column, kept, buckets' := [], [], buckets;
    var i := 0;
    while i < |keys|
      invariant i <= |keys| && column == Column(keys, i, rows, r)
      invariant kept == Live(keys, i, rows, r + 1)
      invariant forall l :: i <= l < |keys| ==> keys[l] in buckets' && buckets'[keys[l]] == buckets[keys[l]]
      invariant Queued(kept, buckets', rows, r + 1)
      invariant forall j, l :: 0 <= j < |kept| && i <= l < |keys| ==> kept[j] != keys[l]
    {
      var key := keys[i];
      forall l | i < l < |keys| ensures keys[l] != key { assert Differ(keys, i, l); }
      var bucket := buckets'[key];
      RestOfQueue(Of(rows, key), r);
      column := column + [bucket[0]];
      if bucket[1..] == [] {
        buckets' := buckets' - {key};
      } else {
        kept, buckets' := kept + [key], buckets'[key := bucket[1..]];
      }
      i := i + 1;
    }
  }

  lemma RestOfQueue(s: seq<Row>, r: nat)
    requires r < |s|
    ensures s[r..][0] == s[r] && s[r..][1..] == s[r + 1..]
    ensures s[r..][1..] == [] <==> r + 1 == |s|
    ensures Ranked(s, r) == [s[r..][0]]
  {
  }

  // The merge after r rounds.
  ghost predicate Draining(all: seq<Key>, rows: seq<Row>, r: nat, keys: seq<Key>, buckets: map<Key, seq<Row>>,
                           balanced: seq<Row>)
  {
    && r <= |rows| && Distinct(keys) && keys == Live(all, |all|, rows, r) && balanced == Rounds(all, rows, r)
    && Queued(keys, buckets, rows, r)
  }

  lemma RoundFits(all: seq<Key>, rows: seq<Row>, r: nat, keys: seq<Key>, column: seq<Row>, kept: seq<Key>)
    requires Distinct(all) && keys == Live(all, |all|, rows, r)
    requires column == Column(keys, |keys|, rows, r) && kept == Live(keys, |keys|, rows, r + 1)
    ensures Distinct(kept) && kept == Live(all, |all|, rows, r + 1)
    ensures Rounds(all, rows, r) + column == Rounds(all, rows, r + 1)
  {
    RoundOfLive(all, rows, r);
    LiveDistinct(all, |all|, rows, r + 1);
  }

  lemma RowLeft(keys: seq<Key>, buckets: map<Key, seq<Row>>, rows: seq<Row>, r: nat)
    requires keys != [] && Queued(keys, buckets, rows, r)
    ensures r < |rows|
  {
    assert r < |Of(rows, keys[0])|;
  }

  lemma NextRound(all: seq<Key>, rows: seq<Row>, r: nat, keys: seq<Key>, buckets: map<Key, seq<Row>>,
                  balanced: seq<Row>, column: seq<Row>, kept: seq<Key>, buckets': map<Key, seq<Row>>)
    requires Distinct(all) && Draining(all, rows, r, keys, buckets, balanced) && keys != []
    requires column == Column(keys, |keys|, rows, r)
    requires kept == Live(keys, |keys|, rows, r + 1) && Queued(kept, buckets', rows, r + 1)
    ensures Draining(all, rows, r + 1, kept, buckets', balanced + column)
  {
    RowLeft(keys, buckets, rows, r);
    RoundFits(all, rows, r, keys, column, kept);
  }

  lemma DrainingStarts(rows: seq<Row>, buckets: map<Key, seq<Row>>)
    requires forall k :: k in FirstSeen(rows) ==> k in buckets && buckets[k] == Of(rows, k)
    ensures Draining(FirstSeen(rows), rows, 0, FirstSeen(rows), buckets, [])
  {
    AllLive(rows);
  }

  method Balance(rows: seq<Row>) returns (balanced: seq<Row>)
    ensures balanced == Balanced(rows)
  {
    var keys, buckets := FillBuckets(rows);
    ghost var r, all := 0, keys;
    balanced := [];
    DrainingStarts(rows, buckets);
    while keys != []
      invariant Distinct(all) && Draining(all, rows, r, keys, buckets, balanced)
      decreases |rows| - r
    {
      var column, kept, left := DrainRound(rows, r, keys, buckets);
      NextRound(all, rows, r, keys, buckets, balanced, column, kept, left);
      keys, buckets, balanced, r := kept, left, balanced + column, r + 1;
    }
    NothingLeft(all, rows, r, |rows|);
  }

  lemma {:induction false} FirstRowCounts(rows: seq<Row>, n: nat, key: Key)
    requires n <= |rows| && key in SeenIn(rows, n)
    ensures |OfFirst(rows, n, key)| > 0
    decreases n
  {
    if key in SeenIn(rows, n - 1) { FirstRowCounts(rows, n - 1, key); }
  }

  lemma {:induction false} LiveAtFirst(keys: seq<Key>, c: nat, rows: seq<Row>)
    requires c <= |keys| && forall i :: 0 <= i < |keys| ==> |Of(rows, keys[i])| > 0
    ensures Live(keys, c, rows, 0) == keys[..c]
    decreases c
  {
    if c > 0 {
      LiveAtFirst(keys, c - 1, rows);
      assert keys[..c] == keys[..c - 1] + [keys[c - 1]];
    }
  }

  lemma AllLive(rows: seq<Row>)
    ensures var keys := FirstSeen(rows);
            Live(keys, |keys|, rows, 0) == keys && forall i :: 0 <= i < |keys| ==> |Of(rows, keys[i])| > 0
  {
    var keys := FirstSeen(rows);
    forall i | 0 <= i < |keys| ensures |Of(rows, keys[i])| > 0 { FirstRowCounts(rows, |rows|, keys[i]); }
    LiveAtFirst(keys, |keys|, rows);
    assert keys[..|keys|] == keys;
  }

  lemma EmptyRound(keys: seq<Key>, rows: seq<Row>, m: nat)
    requires Column(keys, |keys|, rows, m) == []
    ensures Rounds(keys, rows, m + 1) == Rounds(keys, rows, m)
  {
    var done := Rounds(keys, rows, m);
    assert done + [] == done;
  }

  lemma {:induction false} Constant(f: nat -> seq<Row>, r: nat, n: nat)
    requires r <= n && forall m: nat :: r <= m < n ==> f(m + 1) == f(m)
    ensures f(n) == f(r)
    decreases n
  {
    if r < n {
      Constant(f, r, n - 1);
      assert f(n - 1 + 1) == f(n - 1);
    }
  }

  // Once no broker is live the further rounds add nothing.
  lemma NothingLeft(keys: seq<Key>, rows: seq<Row>, r: nat, n: nat)
    requires r <= n && Live(keys, |keys|, rows, r) == []
    ensures Rounds(keys, rows, n) == Rounds(keys, rows, r)
  {
    forall m: nat | r <= m < n ensures Rounds(keys, rows, m + 1) == Rounds(keys, rows, m) {
      NoneLive(keys, |keys|, rows, r, m);
      EmptyRound(keys, rows, m);
    }
    Constant((m: nat) => Rounds(keys, rows, m), r, n);
  }
}
