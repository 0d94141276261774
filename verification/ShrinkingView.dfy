// Paging by offset through a view from which the run itself removes rows. stay says what becomes of
// a row when its turn has come: its new value, or None if it leaves the view.
module ShrinkingView {
  import opened Sequences
  import opened Options

  // What is left in the view of the first n rows of a page after their turns.
  function Survivors<T>(page: seq<T>, n: nat, stay: T -> Option<T>): (kept: seq<T>)
    requires n <= |page|
    ensures |kept| <= n
  {
    if n == 0 then []
    else match stay(page[n - 1])
      case None => Survivors(page, n - 1, stay)
      case Some(row) => Survivors(page, n - 1, stay) + [row]
  }

  function Removed<T>(page: seq<T>, stay: T -> Option<T>): (n: nat) { |page| - |Survivors(page, |page|, stay)| }

  function PageOf<T>(v: seq<T>, offset: nat, size: nat): (page: seq<T>)
    ensures |page| <= size && (|page| == size > 0 ==> offset + size <= |v|)
  {
    if offset >= |v| then [] else v[offset..Min(offset + size, |v|)]
  }

  function Swept<T>(v: seq<T>, offset: nat, page: seq<T>, stay: T -> Option<T>): (v': seq<T>)
    requires offset + |page| <= |v|
    ensures |v'| <= |v|
  {
    v[..offset] + Survivors(page, |page|, stay) + v[offset + |page|..]
  }

  // Where the next page starts, in the view as it was before the run: as many rows are left out as
  // the page removed.
  function NextFrom<T>(v: seq<T>, from: nat, page: seq<T>, stay: T -> Option<T>): (next: nat)
    ensures next <= |v|
  {
    Min(from + |page| + Removed(page, stay), |v|)
  }

  // The rows a run visits, read off the view as it was before the run.
  function Walk<T>(v: seq<T>, from: nat, size: nat, stay: T -> Option<T>): (visited: seq<T>)
    requires size > 0
    decreases |v| - from
  {
    var page := PageOf(v, from, size);
    if |page| < size then page else page + Walk(v, NextFrom(v, from, page, stay), size, stay)
  }

  function Drop<T>(s: seq<T>, k: nat): (rest: seq<T>) { if k <= |s| then s[k..] else [] }

  // What is ahead of the run in the current view is what is ahead of the walk in the first one.
  ghost predicate SameAhead<T>(now: seq<T>, offset: nat, v: seq<T>, from: nat)
  {
    from <= |v| && Drop(now, offset) == v[from..]
  }

  lemma WalkStep<T>(v: seq<T>, from: nat, size: nat, stay: T -> Option<T>)
    requires size > 0
    ensures var page := PageOf(v, from, size);
            Walk(v, from, size, stay)
            == page + if |page| == size then Walk(v, NextFrom(v, from, page, stay), size, stay) else []
  {
    var page := PageOf(v, from, size);
    assert page + [] == page;
  }

  // A page is the head of what is ahead.
  lemma PageIsAhead<T>(v: seq<T>, offset: nat, size: nat)
    ensures PageOf(v, offset, size) == Take(Drop(v, offset), size)
  {
    if offset <= |v| { assert v[offset..Min(offset + size, |v|)] == Take(v[offset..], size); }
  }

  lemma SamePage<T>(now: seq<T>, offset: nat, v: seq<T>, from: nat, size: nat)
    requires SameAhead(now, offset, v, from)
    ensures PageOf(now, offset, size) == PageOf(v, from, size)
  {
    PageIsAhead(now, offset, size);
    PageIsAhead(v, from, size);
  }

  // Sweeping a page moves the rest of the view towards its front, by as many rows as were removed;
  // so the next page of the run is that much further on in the first view.
  lemma SweepSkipsWhatItRemoves<T>(now: seq<T>, offset: nat, v: seq<T>, from: nat, page: seq<T>, stay: T -> Option<T>)
    requires SameAhead(now, offset, v, from) && offset + |page| <= |now|
    ensures SameAhead(Swept(now, offset, page, stay), offset + |page|, v, NextFrom(v, from, page, stay))
  {
    var now', gone := Swept(now, offset, page, stay), Removed(page, stay);
    assert |now[offset..]| == |v[from..]|;
    var n := |page| + gone;
    if from + n <= |v| {
      assert now'[offset + |page|..] == now[offset + n..] == now[offset..][n..] == v[from..][n..] == v[from + n..];
    }
  }

  lemma Halves<T>(v: seq<T>, from: nat, size: nat)
    requires from + size <= |v|
    ensures v[from..] == v[from..from + size] + v[from + size..]
  {
  }

  // Where the k-th page from here starts: from + k * size.
  function PageStart(from: nat, k: nat, size: nat): (start: nat)
    decreases k
  {
    if k == 0 then from else PageStart(from + size, k - 1, size)
  }

  lemma {:induction false} PageStartIs(from: nat, k: nat, size: nat)
    ensures PageStart(from, k, size) == from + k * size
    decreases k
  {
    if k > 0 { PageStartIs(from + size, k - 1, size); }
  }

  // A page with rows behind it that loses none of its own.
  predicate PageKept<T>(v: seq<T>, start: nat, size: nat, stay: T -> Option<T>)
  {
    start + size < |v| ==> Removed(PageOf(v, start, size), stay) == 0
  }

  ghost predicate NothingLost<T>(v: seq<T>, from: nat, size: nat, stay: T -> Option<T>)
  {
    forall k: nat :: PageKept(v, PageStart(from, k, size), size, stay)
  }

  lemma ShiftPages<T>(v: seq<T>, from: nat, size: nat, stay: T -> Option<T>)
    ensures NothingLost(v, from, size, stay) <==>
              PageKept(v, from, size, stay) && NothingLost(v, from + size, size, stay)
  {
    assert PageStart(from, 0, size) == from;
    if NothingLost(v, from, size, stay) {
      forall k: nat {:trigger PageStart(from + size, k, size)}
        ensures PageKept(v, PageStart(from + size, k, size), size, stay)
      {
        assert PageStart(from, k + 1, size) == PageStart(from + size, k, size);
      }
    }
    if PageKept(v, from, size, stay) && NothingLost(v, from + size, size, stay) {
      forall k: nat ensures PageKept(v, PageStart(from, k, size), size, stay) {
        if k > 0 { assert PageStart(from, k, size) == PageStart(from + size, k - 1, size); }
      }
    }
  }

  // A run visits the whole view exactly when no page with rows behind it loses a row to its own
  // writes.
  lemma {:induction false} VisitsAllIff<T>(v: seq<T>, from: nat, size: nat, stay: T -> Option<T>)
    requires size > 0 && from <= |v|
    ensures Walk(v, from, size, stay) == v[from..] <==> NothingLost(v, from, size, stay)
    decreases |v| - from
  {
    if from + size < |v| {
      VisitsAllIff(v, from + size, size, stay);
      VisitsAllStep(v, from, size, stay);
    } else {
      LastPageKept(v, from, size, stay);
      WalkOfLast(v, from, size, stay);
    }
  }

  lemma VisitsAllStep<T>(v: seq<T>, from: nat, size: nat, stay: T -> Option<T>)
    requires size > 0 && from + size < |v|
    requires Walk(v, from + size, size, stay) == v[from + size..] <==> NothingLost(v, from + size, size, stay)
    ensures Walk(v, from, size, stay) == v[from..] <==> NothingLost(v, from, size, stay)
  {
    ShiftPages(v, from, size, stay);
    FirstPageOfAll(v, from, size, stay);
  }

  lemma FirstPageOfAll<T>(v: seq<T>, from: nat, size: nat, stay: T -> Option<T>)
    requires size > 0 && from + size < |v|
    ensures Walk(v, from, size, stay) == v[from..]
        <==> PageKept(v, from, size, stay) && Walk(v, from + size, size, stay) == v[from + size..]
  {
    var page, rest, tail := WalkSplits(v, from, size, stay);
    AppendCancels(page, tail, rest);
  }

  lemma LastPageKept<T>(v: seq<T>, from: nat, size: nat, stay: T -> Option<T>)
    requires from + size >= |v|
    ensures NothingLost(v, from, size, stay)
  {
    forall k: nat ensures PageKept(v, PageStart(from, k, size), size, stay) {
      PageStartIs(from, k, size);
      NotNegative(k, size);
    }
  }

  lemma NotNegative(k: nat, size: nat)
    ensures k * size >= 0
  {
  }

  lemma AppendCancels<T>(a: seq<T>, b: seq<T>, c: seq<T>)
    ensures a + b == a + c <==> b == c
  {
    assert (a + b)[|a|..] == b && (a + c)[|a|..] == c;
  }

  lemma WalkSplits<T>(v: seq<T>, from: nat, size: nat, stay: T -> Option<T>)
    returns (page: seq<T>, rest: seq<T>, tail: seq<T>)
    requires size > 0 && from + size < |v|
    ensures page == PageOf(v, from, size) && rest == v[from + size..] && v[from..] == page + rest
    ensures Walk(v, from, size, stay) == page + tail
    ensures Removed(page, stay) == 0 ==> tail == Walk(v, from + size, size, stay)
    ensures Removed(page, stay) != 0 ==> |tail| < |rest|
  {
    page, rest := PageOf(v, from, size), v[from + size..];
    tail := Walk(v, NextFrom(v, from, page, stay), size, stay);
    WalkStep(v, from, size, stay);
    TailIsShort(v, from, size, page, stay);
    Halves(v, from, size);
  }

  lemma TailIsShort<T>(v: seq<T>, from: nat, size: nat, page: seq<T>, stay: T -> Option<T>)
    requires size > 0 && from + size < |v| && |page| == size
    ensures Removed(page, stay) != 0 ==> |Walk(v, NextFrom(v, from, page, stay), size, stay)| < |v| - from - size
  {
    WalkIsShort(v, NextFrom(v, from, page, stay), size, stay);
  }

  lemma WalkOfLast<T>(v: seq<T>, from: nat, size: nat, stay: T -> Option<T>)
    requires size > 0 && from <= |v| <= from + size
    ensures Walk(v, from, size, stay) == v[from..]
  {
    var page := PageOf(v, from, size);
    assert page == v[from..];
    if |page| == size {
      assert Walk(v, |v|, size, stay) == [];
      assert page + [] == page;
    }
  }

  lemma {:induction false} WalkIsShort<T>(v: seq<T>, from: nat, size: nat, stay: T -> Option<T>)
    requires size > 0 && from <= |v|
    ensures |Walk(v, from, size, stay)| <= |v| - from
    decreases |v| - from
  {
    var page := PageOf(v, from, size);
    if |page| == size { WalkIsShort(v, NextFrom(v, from, page, stay), size, stay); }
  }

  // If nothing leaves the view, every row is visited exactly once.
  lemma QuietRunVisitsAll<T>(v: seq<T>, size: nat, stay: T -> Option<T>)
    requires size > 0 && forall j :: 0 <= j < |v| ==> stay(v[j]).Some?
    ensures Walk(v, 0, size, stay) == v
  {
    assert v[0..] == v;
    VisitsAllIff(v, 0, size, stay);
    forall k: nat ensures PageKept(v, PageStart(0, k, size), size, stay) {
      var page := PageOf(v, PageStart(0, k, size), size);
      AllSurvive(page, |page|, stay);
    }
  }

  lemma {:induction false} AllSurvive<T>(page: seq<T>, n: nat, stay: T -> Option<T>)
    requires n <= |page| && forall j :: 0 <= j < |page| ==> stay(page[j]).Some?
    ensures |Survivors(page, n, stay)| == n
  {
    if n > 0 { AllSurvive(page, n - 1, stay); }
  }
}
