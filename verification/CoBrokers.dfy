// Collapsing the rows that advertise the same unit into one card that names every broker holding it.
module CoBrokers {
  import opened Sequences
  import opened Options

  // A broker is known by the digits of the phone, else by the folded name, else not at all.
  datatype Ident = Nobody | Known(id: int)

  datatype CoBroking = CoBroking(count: nat, others: seq<Ident>)

  // key identifies the unit; a row without an anchored building has none.
  datatype Row = Row(id: int, key: Option<int>, ident: Ident, co: Option<CoBroking>)

  // ----- One group -----

  function Add(bs: seq<Ident>, b: Ident): (bs': seq<Ident>)
  {
    if b == Nobody || b in bs then bs else bs + [b]
  }

  // The distinct named brokers of a group, in order of first mention.
  function Brokers(g: seq<Row>): (bs: seq<Ident>)
  {
    if g == [] then [] else Add(Brokers(g[..|g| - 1]), g[|g| - 1].ident)
  }

  function Others(bs: seq<Ident>, primary: Ident): (os: seq<Ident>)
  {
    if bs == [] then []
    else
      var n := |bs| - 1;
      if bs[n] == primary then Others(bs[..n], primary) else Others(bs[..n], primary) + [bs[n]]
  }

  function Card(g: seq<Row>): (row: Row)
    requires g != []
    ensures row.key == g[0].key && row.ident == g[0].ident
  {
    var bs := Brokers(g);
    var others := Others(bs, g[0].ident);
    if others == [] then g[0] else g[0].(co := Some(CoBroking(|bs|, others)))
  }

  predicate Distinct(bs: seq<Ident>) { forall i, j :: 0 <= i < j < |bs| ==> bs[i] != bs[j] }

  predicate Names(g: seq<Row>, b: Ident) { b != Nobody && exists i :: 0 <= i < |g| && g[i].ident == b }

  lemma {:induction false} BrokersAre(g: seq<Row>)
    ensures Distinct(Brokers(g)) && forall b :: b in Brokers(g) <==> Names(g, b)
  {
    if g != [] {
      var n := |g| - 1;
      BrokersAre(g[..n]);
      forall b ensures b in Brokers(g) <==> Names(g, b) {
        assert Names(g, b) <==> Names(g[..n], b) || (b != Nobody && g[n].ident == b) by {
          if i :| 0 <= i < n && g[..n][i].ident == b { assert g[i].ident == b; }
          if i :| 0 <= i < |g| && g[i].ident == b { assert i < n ==> g[..n][i].ident == b; }
        }
      }
    }
  }

  lemma {:induction false} OthersAre(bs: seq<Ident>, primary: Ident)
    requires Distinct(bs)
    ensures Distinct(Others(bs, primary)) && forall b :: b in Others(bs, primary) <==> b in bs && b != primary
    ensures |Others(bs, primary)| == |bs| - if primary in bs then 1 else 0
  {
    if bs != [] {
      var n := |bs| - 1;
      OthersAre(bs[..n], primary);
      assert bs == bs[..n] + [bs[n]] && bs[n] !in bs[..n];
    }
  }

  // A card of fresh rows: every broker named in the group is the primary or exactly one of the
  // co-brokers, nobody else is, and the count is the number of distinct brokers named.
  lemma CardNamesEveryBroker(g: seq<Row>)
    requires g != [] && g[0].co.None?
    ensures var card := Card(g);
            && (card.co.None? <==> forall b :: Names(g, b) ==> b == card.ident)
            && (card.co.Some? ==>
                 && Distinct(card.co.value.others)
                 && (forall b :: b in card.co.value.others <==> Names(g, b) && b != card.ident)
                 && card.co.value.count == |card.co.value.others| + if card.ident == Nobody then 0 else 1)
  {
    var others := Others(Brokers(g), g[0].ident);
    BrokersAre(g);
    OthersAre(Brokers(g), g[0].ident);
    CardIsDressed(g);
    assert forall b :: b in others <==> Names(g, b) && b != g[0].ident;
    if others != [] { assert others[0] in others; }
  }

  function Dressed(row: Row, others: seq<Ident>): (card: Row)
  {
    if others == [] then row
    else row.(co := Some(CoBroking(|others| + if row.ident == Nobody then 0 else 1, others)))
  }

  lemma CardIsDressed(g: seq<Row>)
    requires g != []
    ensures Card(g) == Dressed(g[0], Others(Brokers(g), g[0].ident))
  {
    BrokersAre(g);
    OthersAre(Brokers(g), g[0].ident);
    assert g[0].ident != Nobody ==> Names(g, g[0].ident);
  }

  // ----- All rows -----

  function Group(rows: seq<Row>, key: int): (g: seq<Row>)
  {
    if rows == [] then []
    else
      var n := |rows| - 1;
      if rows[n].key == Some(key) then Group(rows[..n], key) + [rows[n]] else Group(rows[..n], key)
  }

  predicate Seen(rows: seq<Row>, n: nat, key: int)
    requires n <= |rows|
  {
    exists j :: 0 <= j < n && rows[j].key == Some(key)
  }

  // A row puts a card in the output if it has no key or is the first of its key.
  predicate Emits(rows: seq<Row>, i: nat)
    requires i < |rows|
  {
    rows[i].key.None? || !Seen(rows, i, rows[i].key.value)
  }

  function Firsts(rows: seq<Row>, n: nat): (places: seq<nat>)
    requires n <= |rows|
  {
    if n == 0 then []
    else if Emits(rows, n - 1) then Firsts(rows, n - 1) + [n - 1] else Firsts(rows, n - 1)
  }

  function CardOf(row: Row, all: seq<Row>): (card: Row)
  {
    if row.key.None? then row
    else var g := Group(all, row.key.value); if g == [] then row else Card(g)
  }

  function Cards(rows: seq<Row>, places: seq<nat>, all: seq<Row>): (out: seq<Row>)
    requires Below(places, |rows|)
  {
    seq(|places|, p requires 0 <= p < |places| => CardOf(rows[places[p]], all))
  }

  predicate Below(places: seq<nat>, n: nat) { forall p :: 0 <= p < |places| ==> places[p] < n }

  lemma {:induction false} FirstsAre(rows: seq<Row>, n: nat)
    requires n <= |rows|
    ensures Below(Firsts(rows, n), n)
    ensures forall p, q :: 0 <= p < q < |Firsts(rows, n)| ==> Firsts(rows, n)[p] < Firsts(rows, n)[q]
    ensures forall i: nat :: i < n ==> (i in Firsts(rows, n) <==> Emits(rows, i))
  {
    if n > 0 { FirstsAre(rows, n - 1); }
  }

  function Link(rows: seq<Row>): (out: seq<Row>)
  {
    FirstsAre(rows, |rows|);
    Cards(rows, Firsts(rows, |rows|), rows)
  }

  lemma {:induction false} GroupIs(rows: seq<Row>, key: int)
    ensures forall r :: r in Group(rows, key) <==> r in rows && r.key == Some(key)
    ensures Group(rows, key) == [] <==> !Seen(rows, |rows|, key)
    ensures Group(rows, key) != [] ==> Group(rows, key)[0].key == Some(key)
  {
    if rows != [] {
      var n := |rows| - 1;
      GroupIs(rows[..n], key);
      assert rows == rows[..n] + [rows[n]];
      assert Seen(rows, |rows|, key) <==> Seen(rows[..n], n, key) || rows[n].key == Some(key);
    }
  }

  lemma {:induction false} GroupJoin(a: seq<Row>, b: seq<Row>, key: int)
    ensures Group(a + b, key) == Group(a, key) + Group(b, key)
  {
    if b == [] {
      assert a + b == a;
    } else {
      var n := |b| - 1;
      assert (a + b)[..|a| + n] == a + b[..n];
      GroupJoin(a, b[..n], key);
    }
  }

  method LinkInventory(rows: seq<Row>) returns (out: seq<Row>)
    ensures out == Link(rows)
  {
    var groups := FillGroups(rows);
    out := [];
    var emitted: set<int> := {};
    ghost var places: seq<nat> := [];
    var n := 0;
    while n < |rows|
      invariant n <= |rows| && places == Firsts(rows, n)
      invariant Below(places, |rows|)
      invariant out == Cards(rows, places, rows)
      invariant forall key :: key in emitted <==> Seen(rows, n, key)
    {
      var row := rows[n];
      if row.key.None? || row.key.value !in emitted {
        var card := row;
        if row.key.Some? {
          emitted := emitted + {row.key.value};
          assert Seen(rows, |rows|, row.key.value);
          FirstOfGroup(rows, n);
          card := MakeCard(groups[row.key.value]);
        }
        assert card == CardOf(row, rows);
        places, out := places + [n], out + [card];
      }
      n := n + 1;
    }
  }

  method MakeCard(g: seq<Row>) returns (card: Row)
    requires g != []
    ensures card == Card(g)
  {
    var brokers := DistinctBrokers(g);
    var others := Others(brokers, g[0].ident);
    card := if others == [] then g[0] else g[0].(co := Some(CoBroking(|brokers|, others)));
  }

  method FillGroups(rows: seq<Row>) returns (groups: map<int, seq<Row>>)
    ensures forall key :: key in groups <==> Seen(rows, |rows|, key)
    ensures forall key :: key in groups ==> groups[key] == Group(rows, key)
  {
    groups := map[];
    var n := 0;
    while n < |rows|
      invariant n <= |rows|
      invariant forall key :: key in groups <==> Group(rows[..n], key) != []
      invariant forall key :: key in groups ==> groups[key] == Group(rows[..n], key)
    {
      assert rows[..n + 1][..n] == rows[..n];
      if rows[n].key.Some? {
        var key := rows[n].key.value;
        groups := groups[key := (if key in groups then groups[key] else []) + [rows[n]]];
      }
      n := n + 1;
    }
    assert rows[..n] == rows;
    forall key ensures Group(rows, key) == [] <==> !Seen(rows, |rows|, key) { GroupIs(rows, key); }
  }

  method DistinctBrokers(g: seq<Row>) returns (brokers: seq<Ident>)
    ensures brokers == Brokers(g)
  {
    brokers := [];
    var seen: set<Ident> := {};
    var n := 0;
    while n < |g|
      invariant n <= |g| && brokers == Brokers(g[..n]) && forall b :: b in seen <==> b in brokers
    {
      assert g[..n + 1][..n] == g[..n];
      var ident := g[n].ident;
      if ident != Nobody && ident !in seen {
        seen := seen + {ident};
        brokers := brokers + [ident];
      }
      n := n + 1;
    }
    assert g[..n] == g;
  }

  lemma FirstOfGroup(rows: seq<Row>, n: nat)
    requires n < |rows| && rows[n].key.Some? && !Seen(rows, n, rows[n].key.value)
    ensures var g := Group(rows, rows[n].key.value); g != [] && g[0] == rows[n]
  {
    var key := rows[n].key.value;
    assert rows == rows[..n] + ([rows[n]] + rows[n + 1..]);
    GroupJoin(rows[..n], [rows[n]] + rows[n + 1..], key);
    GroupJoin([rows[n]], rows[n + 1..], key);
    GroupIs(rows[..n], key);
    assert [rows[n]][..0] == [];
  }

  // ----- What is emitted -----

  // The cards come from increasing places of rows, so in first-seen order, and rows without a key
  // pass through.
  lemma CardsInOrder(rows: seq<Row>)
    ensures var places, out := Firsts(rows, |rows|), Link(rows);
            && |places| == |out|
            && (forall p, q :: 0 <= p < q < |places| ==> places[p] < places[q])
            && (forall p :: 0 <= p < |out| ==> places[p] < |rows| && out[p].key == rows[places[p]].key)
            && (forall p :: 0 <= p < |out| && out[p].key.None? ==> out[p] == rows[places[p]])
  {
    var places, out := Firsts(rows, |rows|), Link(rows);
    FirstsAre(rows, |rows|);
    forall p | 0 <= p < |out| ensures out[p].key == rows[places[p]].key {
      var row := rows[places[p]];
      if row.key.Some? { GroupIs(rows, row.key.value); }
    }
  }

  // No key stands on two cards.
  lemma CardsDiffer(rows: seq<Row>, p: nat, q: nat)
    requires p < q < |Link(rows)| && Link(rows)[p].key.Some?
    ensures Link(rows)[p].key != Link(rows)[q].key
  {
    var places, out := Firsts(rows, |rows|), Link(rows);
    CardsInOrder(rows);
    FirstsAre(rows, |rows|);
    assert places[q] in places && Emits(rows, places[q]);
    if out[p].key == out[q].key { assert Seen(rows, places[q], rows[places[q]].key.value); }
  }

  // Every row has its card: that of its key, or itself.
  lemma RowHasCard(rows: seq<Row>, i: nat)
    requires i < |rows|
    ensures exists p ::
              0 <= p < |Link(rows)| && Link(rows)[p].key == rows[i].key &&
              (rows[i].key.None? ==> Link(rows)[p] == rows[i])
  {
    var places := Firsts(rows, |rows|);
    CardsInOrder(rows);
    FirstsAre(rows, |rows|);
    var f := FirstLike(rows, i);
    assert f in places;
    var p :| 0 <= p < |places| && places[p] == f;
    assert Link(rows)[p].key == rows[i].key;
  }

  // ----- What a card says, told from the rows -----

  predicate KeyedAt(rows: seq<Row>, i: int, key: int)
  {
    0 <= i < |rows| && rows[i].key == Some(key)
  }

  // The named brokers of the rows with this key.
  function NamedFor(rows: seq<Row>, key: int): (bs: set<Ident>)
  {
    set i | 0 <= i < |rows| && KeyedAt(rows, i, key) && rows[i].ident != Nobody :: rows[i].ident
  }

  predicate FirstOf(rows: seq<Row>, key: int, row: Row)
  {
    exists i :: 0 <= i < |rows| && KeyedAt(rows, i, key) && rows[i] == row &&
                forall j :: 0 <= j < i ==> !KeyedAt(rows, j, key)
  }

  // Broker b is named for this key before broker c is.
  predicate NamedBefore(rows: seq<Row>, key: int, b: Ident, c: Ident)
  {
    exists i :: 0 <= i < |rows| && KeyedAt(rows, i, key) && rows[i].ident == b &&
                forall j :: 0 <= j <= i && KeyedAt(rows, j, key) ==> rows[j].ident != c
  }

  predicate Earlier(g: seq<Row>, b: Ident, c: Ident)
  {
    exists i :: 0 <= i < |g| && g[i].ident == b && forall j :: 0 <= j <= i ==> g[j].ident != c
  }

  predicate InOrder(g: seq<Row>, bs: seq<Ident>)
  {
    forall x, y :: 0 <= x < y < |bs| ==> Earlier(g, bs[x], bs[y])
  }

  lemma EarlierOnward(g: seq<Row>, n: nat, b: Ident, c: Ident)
    requires n <= |g| && Earlier(g[..n], b, c)
    ensures Earlier(g, b, c)
  {
    var i :| 0 <= i < n && g[..n][i].ident == b && forall j :: 0 <= j <= i ==> g[..n][j].ident != c;
    forall j | 0 <= j <= i ensures g[j].ident != c { assert g[..n][j].ident != c; }
    assert g[i].ident == b;
  }

  lemma {:induction false} BrokersInOrder(g: seq<Row>)
    ensures InOrder(g, Brokers(g))
  {
    if g != [] {
      var n := |g| - 1;
      var bs, c := Brokers(g[..n]), g[n].ident;
      BrokersInOrder(g[..n]);
      BrokersAre(g[..n]);
      forall x, y | 0 <= x < y < |Brokers(g)| ensures Earlier(g, Brokers(g)[x], Brokers(g)[y]) {
        if y < |bs| {
          EarlierOnward(g, n, bs[x], bs[y]);
        } else {
          NewIsLater(g, n, bs[x], c);
        }
      }
    }
  }

  lemma NewIsLater(g: seq<Row>, n: nat, b: Ident, c: Ident)
    requires n < |g| && Names(g[..n], b) && !Names(g[..n], c) && c != Nobody
    ensures Earlier(g, b, c)
  {
    var i :| 0 <= i < n && g[..n][i].ident == b;
    forall j | 0 <= j <= i ensures g[j].ident != c { assert g[..n][j].ident == g[j].ident; }
    assert g[i].ident == b;
  }

  lemma {:induction false} OthersInOrder(g: seq<Row>, bs: seq<Ident>, primary: Ident)
    requires Distinct(bs) && InOrder(g, bs)
    ensures InOrder(g, Others(bs, primary))
  {
    if bs != [] {
      var n := |bs| - 1;
      var head := bs[..n];
      OthersInOrder(g, head, primary);
      OthersAre(head, primary);
      var os := Others(head, primary);
      forall x | 0 <= x < |os| ensures Earlier(g, os[x], bs[n]) {
        assert os[x] in head;
        var k :| 0 <= k < n && head[k] == os[x];
        assert Earlier(g, bs[k], bs[n]);
      }
    }
  }

  lemma {:induction false} EarlierInRows(rows: seq<Row>, key: int, b: Ident, c: Ident)
    requires Earlier(Group(rows, key), b, c)
    ensures NamedBefore(rows, key, b, c)
  {
    var n := |rows| - 1;
    var g := Group(rows[..n], key);
    GroupIs(rows[..n], key);
    if Earlier(g, b, c) {
      EarlierInRows(rows[..n], key, b, c);
      NamedOnward(rows, n, key, b, c);
    } else {
      LastIsNamed(rows, g, key, b, c);
    }
  }

  lemma NamedOnward(rows: seq<Row>, n: nat, key: int, b: Ident, c: Ident)
    requires n <= |rows| && NamedBefore(rows[..n], key, b, c)
    ensures NamedBefore(rows, key, b, c)
  {
    var i :| 0 <= i < n && KeyedAt(rows[..n], i, key) && rows[..n][i].ident == b &&
      forall j :: 0 <= j <= i && KeyedAt(rows[..n], j, key) ==> rows[..n][j].ident != c;
    forall j | 0 <= j <= i && KeyedAt(rows, j, key) ensures rows[j].ident != c { assert KeyedAt(rows[..n], j, key); }
    assert KeyedAt(rows, i, key) && rows[i].ident == b;
  }

  lemma EarlierShorter(g: seq<Row>, all: seq<Row>, i: int, b: Ident, c: Ident)
    requires g <= all && 0 <= i < |all| && all[i].ident == b && forall j :: 0 <= j <= i ==> all[j].ident != c
    ensures i < |g| ==> Earlier(g, b, c)
  {
    if i < |g| {
      forall j | 0 <= j <= i ensures g[j].ident != c { assert g[j] == all[j]; }
      assert g[i].ident == b;
    }
  }

  // The only mention of b in front of c is the last row.
  lemma LastIsNamed(rows: seq<Row>, g: seq<Row>, key: int, b: Ident, c: Ident)
    requires rows != [] && g == Group(rows[..|rows| - 1], key) && !Earlier(g, b, c) && Earlier(Group(rows, key), b, c)
    ensures NamedBefore(rows, key, b, c)
  {
    var n, all := |rows| - 1, Group(rows, key);
    var i :| 0 <= i < |all| && all[i].ident == b && forall j :: 0 <= j <= i ==> all[j].ident != c;
    EarlierShorter(g, all, i, b, c);
    GroupIs(rows, key);
    forall j | 0 <= j <= n && KeyedAt(rows, j, key) ensures rows[j].ident != c {
      assert rows[j] in all;
      var k :| 0 <= k < |all| && all[k] == rows[j];
    }
    assert KeyedAt(rows, n, key) && rows[n].ident == b;
  }

  lemma NamesIsNamed(rows: seq<Row>, key: int, b: Ident)
    ensures Names(Group(rows, key), b) <==> b in NamedFor(rows, key)
  {
    var g := Group(rows, key);
    GroupIs(rows, key);
    if Names(g, b) {
      var i :| 0 <= i < |g| && g[i].ident == b;
      assert g[i] in rows;
      var j :| 0 <= j < |rows| && rows[j] == g[i];
      assert KeyedAt(rows, j, key);
    }
    if b in NamedFor(rows, key) {
      var j :| 0 <= j < |rows| && KeyedAt(rows, j, key) && rows[j].ident != Nobody && rows[j].ident == b;
      assert rows[j] in g;
    }
  }

  lemma {:induction false} DistinctSize(bs: seq<Ident>, s: set<Ident>)
    requires Distinct(bs) && forall b :: b in s <==> b in bs
    ensures |s| == |bs|
    decreases |bs|
  {
    if bs == [] {
      assert s == {};
    } else {
      var n := |bs| - 1;
      assert bs == bs[..n] + [bs[n]] && bs[n] !in bs[..n];
      DistinctSize(bs[..n], s - {bs[n]});
    }
  }

  // Where a card with this key comes from.
  lemma CardIsOfGroup(rows: seq<Row>, p: nat, key: int)
    requires p < |Link(rows)| && Link(rows)[p].key == Some(key)
    ensures var g := Group(rows, key); g != [] && Link(rows)[p] == Card(g) && FirstOf(rows, key, g[0])
  {
    var places := Firsts(rows, |rows|);
    CardsInOrder(rows);
    FirstsAre(rows, |rows|);
    var i := places[p];
    assert i in places && Emits(rows, i);
    FirstOfGroup(rows, i);
    assert KeyedAt(rows, i, key);
    forall j | 0 <= j < i ensures !KeyedAt(rows, j, key) { assert !Seen(rows, i, key); }
  }

  // Linking fresh rows: the card with a key is the first row of that key, dressed. Every broker named for
  // the key is its own or stands exactly once among its others, in order of first mention, and nobody else
  // does; the count is how many there are; and it is dressed exactly when another broker is named.
  lemma KeyedCardIs(rows: seq<Row>, p: nat, key: int)
    requires p < |Link(rows)| && Link(rows)[p].key == Some(key)
    requires forall row :: row in rows ==> row.co.None?
    ensures var card, named := Link(rows)[p], NamedFor(rows, key);
            && FirstOf(rows, key, card.(co := None))
            && (card.co.None? <==> named <= {card.ident})
            && (card.co.Some? ==>
                 && card.co.value.count == |named|
                 && (forall b :: b in card.co.value.others <==> b in named && b != card.ident)
                 && (forall x, y :: 0 <= x < y < |card.co.value.others| ==>
                       card.co.value.others[x] != card.co.value.others[y] &&
                       NamedBefore(rows, key, card.co.value.others[x], card.co.value.others[y])))
  {
    var g := Group(rows, key);
    var card := Link(rows)[p];
    CardIsOfGroup(rows, p, key);
    GroupIs(rows, key);
    assert g[0] in rows;
    CardNamesEveryBroker(g);
    forall b ensures Names(g, b) <==> b in NamedFor(rows, key) { NamesIsNamed(rows, key, b); }
    if card.co.Some? {
      CountIsNamed(g, card, NamedFor(rows, key));
      OthersOrdered(rows, g, card.co.value.others, key);
    }
  }

  lemma CountIsNamed(g: seq<Row>, card: Row, named: set<Ident>)
    requires g != [] && g[0].co.None? && card == Card(g) && card.co.Some? && forall b :: Names(g, b) <==> b in named
    ensures card.co.value.count == |named|
  {
    BrokersAre(g);
    DistinctSize(Brokers(g), named);
    assert Others(Brokers(g), g[0].ident) != [];
  }

  lemma OthersOrdered(rows: seq<Row>, g: seq<Row>, others: seq<Ident>, key: int)
    requires g == Group(rows, key) && g != [] && others == Others(Brokers(g), g[0].ident)
    ensures forall x, y :: 0 <= x < y < |others| ==>
              others[x] != others[y] && NamedBefore(rows, key, others[x], others[y])
  {
    BrokersAre(g);
    BrokersInOrder(g);
    OthersInOrder(g, Brokers(g), g[0].ident);
    OthersAre(Brokers(g), g[0].ident);
    forall x, y | 0 <= x < y < |others| ensures NamedBefore(rows, key, others[x], others[y]) {
      EarlierInRows(rows, key, others[x], others[y]);
    }
  }

  // The first row with the key of row i; an unkeyed row is its own.
  function FirstLike(rows: seq<Row>, i: nat): (f: nat)
    requires i < |rows|
    ensures f <= i && rows[f].key == rows[i].key && Emits(rows, f) && (rows[i].key.None? ==> f == i)
  {
    if Emits(rows, i) then i
    else var j :| 0 <= j < i && rows[j].key == Some(rows[i].key.value); FirstLike(rows, j)
  }

  // ----- Linking again -----

  lemma {:induction false} GroupOfOne(rows: seq<Row>, p: nat, n: nat)
    requires p < |rows| && n <= |rows| && rows[p].key.Some?
    requires forall i :: 0 <= i < n && i != p ==> rows[i].key != rows[p].key
    ensures Group(rows[..n], rows[p].key.value) == if p < n then [rows[p]] else []
  {
    if n > 0 {
      GroupOfOne(rows, p, n - 1);
      assert rows[..n][..n - 1] == rows[..n - 1];
    }
  }

  lemma BrokersOfOne(row: Row)
    ensures Others(Brokers([row]), row.ident) == []
  {
    assert [row][..0] == [];
    assert Brokers([row]) == Add([], row.ident);
    if row.ident != Nobody { OthersOneMore([], row.ident, row.ident); }
  }

  lemma OthersOneMore(bs: seq<Ident>, b: Ident, primary: Ident)
    ensures Others(bs + [b], primary) == if b == primary then Others(bs, primary) else Others(bs, primary) + [b]
  {
    assert (bs + [b])[..|bs|] == bs;
  }

  predicate Once(rows: seq<Row>)
  {
    forall i, j :: 0 <= i < j < |rows| && rows[i].key.Some? ==> rows[i].key != rows[j].key
  }

  lemma {:induction false} AllFirst(rows: seq<Row>, n: nat)
    requires n <= |rows| && Once(rows[..n])
    ensures |Firsts(rows, n)| == n && forall p :: 0 <= p < n ==> Firsts(rows, n)[p] == p
  {
    if n > 0 {
      assert forall i, j :: 0 <= i < j < n && rows[i].key.Some? ==> rows[..n][i].key != rows[..n][j].key;
      AllFirst(rows, n - 1);
      assert Emits(rows, n - 1);
    }
  }

  lemma CardsAreOnce(rows: seq<Row>)
    ensures Once(Link(rows))
  {
    forall p, q | 0 <= p < q < |Link(rows)| && Link(rows)[p].key.Some? ensures Link(rows)[p].key != Link(rows)[q].key {
      CardsDiffer(rows, p, q);
    }
  }

  // Linking what is linked changes nothing.
  lemma LinkIsIdempotent(rows: seq<Row>)
    ensures Link(Link(rows)) == Link(rows)
  {
    var out := Link(rows);
    CardsAreOnce(rows);
    assert out[..|out|] == out;
    AllFirst(out, |out|);
    forall p | 0 <= p < |out| ensures CardOf(out[p], out) == out[p] {
      if out[p].key.Some? {
        GroupOfOne(out, p, |out|);
        BrokersOfOne(out[p]);
      }
    }
  }

  // ----- Linking in two steps -----

  function Fresh(bs: seq<Ident>, known: seq<Ident>): (f: seq<Ident>)
  {
    if bs == [] then []
    else
      var n := |bs| - 1;
      if bs[n] in known then Fresh(bs[..n], known) else Fresh(bs[..n], known) + [bs[n]]
  }

  lemma FreshOneMore(bs: seq<Ident>, b: Ident, known: seq<Ident>)
    ensures Fresh(bs + [b], known) == if b in known then Fresh(bs, known) else Fresh(bs, known) + [b]
  {
    assert (bs + [b])[..|bs|] == bs;
  }

  // The co-brokers of a longer group: those of its beginning, then the new ones.
  lemma {:induction false} OthersOfJoin(g: seq<Row>, h: seq<Row>, primary: Ident, a: seq<Ident>)
    requires g != [] && primary == g[0].ident && a == Others(Brokers(g), primary)
    ensures Others(Brokers(g + h), primary) == a + Fresh(Others(Brokers([g[0]] + h), primary), a)
  {
    var first := [g[0]];
    if h == [] {
      assert g + h == g && first + h == first;
      BrokersOfOne(g[0]);
    } else {
      var n, r := |h| - 1, h[|h| - 1].ident;
      OthersOfJoin(g, h[..n], primary, a);
      BrokersOneMore(g, h);
      BrokersOneMore(first, h);
      KnownWhere(g, h[..n], r);
      OthersStep(Brokers(g + h[..n]), Brokers(g + h), Brokers(first + h[..n]), Brokers(first + h), a, primary, r);
    }
  }

  lemma BrokersOneMore(g: seq<Row>, h: seq<Row>)
    requires h != []
    ensures Brokers(g + h) == Add(Brokers(g + h[..|h| - 1]), h[|h| - 1].ident)
  {
    assert (g + h)[..|g + h| - 1] == g + h[..|h| - 1];
  }

  lemma NamesJoin(g: seq<Row>, h: seq<Row>, b: Ident)
    ensures Names(g + h, b) <==> Names(g, b) || Names(h, b)
  {
    if i :| 0 <= i < |g| && g[i].ident == b { assert (g + h)[i].ident == b; }
    if i :| 0 <= i < |h| && h[i].ident == b { assert (g + h)[|g| + i].ident == b; }
  }

  lemma KnownWhere(g: seq<Row>, h: seq<Row>, b: Ident)
    requires g != []
    ensures b != Nobody && b != g[0].ident ==>
      (b in Brokers(g + h) <==> b in Others(Brokers(g), g[0].ident) || b in Brokers([g[0]] + h))
  {
    BrokersAre(g);
    BrokersAre(g + h);
    BrokersAre([g[0]] + h);
    NamesJoin(g, h, b);
    NamesJoin([g[0]], h, b);
    OthersAre(Brokers(g), g[0].ident);
  }

  lemma OthersStep(bs: seq<Ident>, bs': seq<Ident>, cs: seq<Ident>, cs': seq<Ident>, a: seq<Ident>, primary: Ident,
                   r: Ident)
    requires bs' == Add(bs, r) && cs' == Add(cs, r)
    requires Others(bs, primary) == a + Fresh(Others(cs, primary), a)
    requires r != Nobody && r != primary ==> (r in bs <==> r in a || r in cs)
    ensures Others(bs', primary) == a + Fresh(Others(cs', primary), a)
  {
    if r != Nobody {
      OthersOneMore(bs, r, primary);
      OthersOneMore(cs, r, primary);
      if r != primary {
        FreshOneMore(Others(cs, primary), r, a);
        if r !in bs { Assoc(a, Fresh(Others(cs, primary), a), [r]); }
      }
    }
  }

  lemma {:induction false} FreshSuffix(a: seq<Ident>, b: seq<Ident>)
    requires Distinct(a + b)
    ensures Fresh(a + b, a) == b
  {
    if b == [] {
      assert a + b == a;
      FreshAll(a, a);
    } else {
      var n := |b| - 1;
      var ab := a + b;
      assert ab[..|a| + n] == a + b[..n];
      FreshSuffix(a, b[..n]);
      assert ab == (a + b[..n]) + [b[n]];
      FreshOneMore(a + b[..n], b[n], a);
      assert b[n] !in a by {
        assert forall i :: 0 <= i < |a| ==> a[i] == ab[i] && ab[i] != ab[|a| + n];
      }
    }
  }

  lemma {:induction false} FreshAll(a: seq<Ident>, known: seq<Ident>)
    requires forall b :: b in a ==> b in known
    ensures Fresh(a, known) == []
  {
    if a != [] { FreshAll(a[..|a| - 1], known); }
  }

  // Adding rows to a group that was already collapsed gives the same card exactly when the card
  // named no co-broker, the added rows bring none, or they start by naming all its co-brokers
  // again in the same order. Otherwise the earlier co-brokers are lost or moved.
  lemma CollapsedGroupAgreesIff(g: seq<Row>, h: seq<Row>)
    requires g != []
    ensures var a, b := Others(Brokers(g), g[0].ident), Others(Brokers([g[0]] + h), g[0].ident);
            Card([Card(g)] + h) == Card(g + h) <==> a == [] || b == [] || a <= b
  {
    var primary := g[0].ident;
    var a, b := Others(Brokers(g), primary), Others(Brokers([g[0]] + h), primary);
    CardIsDressed(g);
    CardIsDressed(g + h);
    CardIsDressed([Card(g)] + h);
    SameBrokers([Card(g)] + h, [g[0]] + h);
    OthersOfJoin(g, h, primary, a);
    BrokersAre([g[0]] + h);
    OthersAre(Brokers([g[0]] + h), primary);
    JoinIsSameIff(a, b);
    DressedAgree(g[0], a, b, Others(Brokers(g + h), primary));
  }

  lemma DressedAgree(row: Row, a: seq<Ident>, b: seq<Ident>, both: seq<Ident>)
    requires both == b <==> a <= b
    requires b == [] ==> both == a
    requires a != [] ==> both != []
    ensures Dressed(Dressed(row, a), b) == Dressed(row, both) <==> a == [] || b == [] || a <= b
  {
  }

  lemma JoinIsSameIff(a: seq<Ident>, b: seq<Ident>)
    requires Distinct(b)
    ensures a + Fresh(b, a) == b <==> a <= b
    ensures b == [] ==> Fresh(b, a) == []
  {
    if a <= b {
      assert b == a + b[|a|..];
      FreshSuffix(a, b[|a|..]);
    }
  }

  lemma {:induction false} SameBrokers(g: seq<Row>, h: seq<Row>)
    requires |g| == |h| && forall i :: 0 <= i < |g| ==> g[i].ident == h[i].ident
    ensures Brokers(g) == Brokers(h)
  {
    if g != [] { SameBrokers(g[..|g| - 1], h[..|h| - 1]); }
  }

  // The smallest loss: three brokers of one unit, two of them linked first.
  lemma LinkedTwiceForgets(a: Row, b: Row, c: Row)
    requires a.ident != Nobody && b.ident != Nobody && c.ident != Nobody
    requires a.ident != b.ident && a.ident != c.ident && b.ident != c.ident
    ensures Card([a, b, c]).co == Some(CoBroking(3, [b.ident, c.ident]))
    ensures Card([Card([a, b])] + [c]).co == Some(CoBroking(2, [c.ident]))
  {
    ThreeAtOnce(a, b, c);
    BrokersOfTwo(Card([a, b]), c);
    OthersOfTwo(a.ident, c.ident);
    assert [Card([a, b])] + [c] == [Card([a, b]), c];
  }

  lemma ThreeAtOnce(a: Row, b: Row, c: Row)
    requires a.ident != Nobody && b.ident != Nobody && c.ident != Nobody
    requires a.ident != b.ident && a.ident != c.ident && b.ident != c.ident
    ensures Card([a, b, c]).co == Some(CoBroking(3, [b.ident, c.ident]))
  {
    var two := [a.ident, b.ident];
    BrokersOfTwo(a, b);
    assert [a, b, c][..2] == [a, b];
    assert Brokers([a, b, c]) == two + [c.ident];
    OthersOneMore(two, c.ident, a.ident);
    OthersOfTwo(a.ident, b.ident);
    assert Others(two + [c.ident], a.ident) == [b.ident, c.ident];
  }

  lemma BrokersOfTwo(a: Row, b: Row)
    requires a.ident != Nobody && b.ident != Nobody && a.ident != b.ident
    ensures Brokers([a, b]) == [a.ident, b.ident]
  {
    assert [a, b][..1] == [a] && [a][..0] == [];
    assert Brokers([a]) == [a.ident];
  }

  lemma OthersOfTwo(a: Ident, b: Ident)
    requires a != b
    ensures Others([a, b], a) == [b]
  {
    assert [a, b][..1] == [a] && [a][..0] == [];
    assert Others([a], a) == [];
  }
}
