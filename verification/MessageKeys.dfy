// Two keys of a message: the extraction cache's, and the author's exact-copy fingerprint. Hashes are
// taken as injective, so a key is the text that is hashed.
module MessageKeys {
  import opened Texts
  import opened Options

  // ----- Normalisation, on characters -----

  predicate IsSpace(c: char) { c == ' ' || '\t' <= c <= '\r' || '\U{1C}' <= c <= '\U{1F}' }
  predicate IsUpper(c: char) { 'A' <= c <= 'Z' }
  predicate IsZeroWidth(c: char)
  {
    '\U{200B}' <= c <= '\U{200F}' || c == '\U{2060}' || c == '\U{FEFF}'
  }
  predicate IsDash(c: char) { c == ':' || c == '-' || c == '\U{2013}' }

  function Visible(s: string): (t: string)
  {
    if s == [] then [] else if IsZeroWidth(s[0]) then Visible(s[1..]) else [s[0]] + Visible(s[1..])
  }

  function Collapse(s: string): (t: string)
  {
    if s == [] then []
    else if !IsSpace(s[0]) then [s[0]] + Collapse(s[1..])
    else if |s| > 1 && IsSpace(s[1]) then Collapse(s[1..])
    else [' '] + Collapse(s[1..])
  }

  function Trim(s: string): (t: string)
    decreases |s|
  {
    if s == [] then []
    else if s[0] == ' ' then Trim(s[1..])
    else if s[|s| - 1] == ' ' then Trim(s[..|s| - 1])
    else s
  }

  // ----- The forward banner -----

  predicate IsArrow(c: char) { c == '>' }

  // The word stands at i, in any case.
  predicate WordAt(s: string, i: nat, word: string)
  {
    i + |word| <= |s| && forall k :: 0 <= k < |word| ==> Lower(s[i + k]) == word[k]
  }

  // After "forwarded": " many times" if it follows.
  function ManyTimesEnd(s: string, e: nat): (w: nat)
    requires e <= |s|
    ensures e <= w <= |s|
  {
    var k := SpanEnd(s, e, IsSpace);
    if k == e || !WordAt(s, k, "many") then e
    else
      var n := SpanEnd(s, k + 4, IsSpace);
      if n == k + 4 || !WordAt(s, n, "times") then e else n + 5
  }

  function BannerWordEnd(s: string, j: nat): (w: Option<nat>)
    requires j <= |s|
    ensures w.Some? ==> w.value <= |s|
  {
    if WordAt(s, j, "forwarded") then Some(ManyTimesEnd(s, j + 9))
    else if WordAt(s, j, "fwd") then Some(j + 3)
    else if WordAt(s, j, "fw") then Some(j + 2)
    else None
  }

  function ArrowsEnd(s: string, i: nat): (j: nat)
    requires i <= |s|
    ensures i <= j <= |s|
  {
    if i < |s| && IsArrow(s[i]) then SpanEnd(s, SpanEnd(s, i, IsArrow), IsSpace) else i
  }

  function DashEnd(s: string, p: nat): (q: nat)
    requires p <= |s|
    ensures p <= q <= |s|
  {
    if p < |s| && IsDash(s[p]) then p + 1 else p
  }

  // The end of the banner the text opens with, if it does.
  function BannerEnd(s: string): (r: Option<nat>)
    ensures r.Some? ==> r.value <= |s|
  {
    var w := BannerWordEnd(s, ArrowsEnd(s, SpanEnd(s, 0, IsSpace)));
    if w.None? then None
    else Some(SpanEnd(s, DashEnd(s, SpanEnd(s, w.value, IsSpace)), IsSpace))
  }

  function Unbannered(s: string): (t: string)
  {
    match BannerEnd(s) case None => s case Some(r) => s[r..]
  }

  // normalize_for_hash
  function Normal(s: string): (t: string)
  {
    Lowered(Trim(Collapse(Unbannered(Visible(s)))))
  }

  // ----- The two keys -----

  const VERSION := "source-slice-v4-model-first"

  // The text whose hash is the cache key.
  function CacheKey(s: string): (key: string) { Normal(Normal(s) + ['\n'] + VERSION) }

  // The text whose hash is the fingerprint; none without an author or without content.
  function Fingerprint(author: string, s: string): (f: Option<(string, string)>)
  {
    if author == [] || Normal(s) == [] then None else Some((author, Normal(s)))
  }

  // ----- Canonical texts -----

  predicate CanonChar(c: char) { !IsZeroWidth(c) && !IsUpper(c) && (IsSpace(c) ==> c == ' ') }

  predicate Apart(x: string, i: nat)
    requires 0 < i < |x|
  {
    x[i - 1] != ' ' || x[i] != ' '
  }

  predicate SingleSpaced(x: string) { forall i :: 0 < i < |x| ==> Apart(x, i) }

  lemma ApartWithin(x: string, lo: nat, hi: nat)
    requires SingleSpaced(x) && lo <= hi <= |x|
    ensures SingleSpaced(x[lo..hi])
  {
    forall i | 0 < i < hi - lo ensures Apart(x[lo..hi], i) {
      assert Apart(x, lo + i);
      assert x[lo..hi][i] == x[lo + i] && x[lo..hi][i - 1] == x[lo + i - 1];
    }
  }

  lemma ApartInFront(c: char, x: string)
    requires SingleSpaced(x) && (c == ' ' && x != [] ==> x[0] != ' ')
    ensures SingleSpaced([c] + x)
  {
    forall i | 0 < i < |x| + 1 ensures Apart([c] + x, i) {
      if i > 1 {
        assert Apart(x, i - 1);
        assert ([c] + x)[i] == x[i - 1] && ([c] + x)[i - 1] == x[i - 2];
      }
    }
  }

  lemma ApartAlike(x: string, y: string)
    requires SingleSpaced(x) && |y| == |x| && forall i :: 0 <= i < |x| ==> (y[i] == ' ' <==> x[i] == ' ')
    ensures SingleSpaced(y)
  {
    forall i | 0 < i < |y| ensures Apart(y, i) {
      assert Apart(x, i);
      assert (y[i] == ' ' <==> x[i] == ' ') && (y[i - 1] == ' ' <==> x[i - 1] == ' ');
    }
  }

  predicate Canon(x: string)
  {
    && (forall i :: 0 <= i < |x| ==> CanonChar(x[i]))
    && SingleSpaced(x)
    && (x != [] ==> x[0] != ' ' && x[|x| - 1] != ' ')
  }

  lemma {:induction false} VisibleIs(s: string)
    ensures forall i :: 0 <= i < |Visible(s)| ==> !IsZeroWidth(Visible(s)[i])
  {
    if s != [] { VisibleIs(s[1..]); }
  }

  lemma {:induction false} CollapseIs(s: string)
    requires forall i :: 0 <= i < |s| ==> !IsZeroWidth(s[i])
    ensures var t := Collapse(s);
            && (forall i :: 0 <= i < |t| ==> !IsZeroWidth(t[i]) && (IsSpace(t[i]) ==> t[i] == ' '))
            && SingleSpaced(t)
            && (s != [] && !IsSpace(s[0]) ==> t != [] && t[0] == s[0])
  {
    if s != [] {
      CollapseIs(s[1..]);
      if !IsSpace(s[0]) {
        ApartInFront(s[0], Collapse(s[1..]));
      } else if |s| == 1 || !IsSpace(s[1]) {
        ApartInFront(' ', Collapse(s[1..]));
      }
    }
  }

  lemma {:induction false} TrimIs(s: string)
    requires (forall i :: 0 <= i < |s| ==> !IsZeroWidth(s[i]) && (IsSpace(s[i]) ==> s[i] == ' ')) && SingleSpaced(s)
    ensures var t := Trim(s);
            && (forall i :: 0 <= i < |t| ==> !IsZeroWidth(t[i]) && (IsSpace(t[i]) ==> t[i] == ' ')) && SingleSpaced(t)
            && (t != [] ==> t[0] != ' ' && t[|t| - 1] != ' ')
    decreases |s|
  {
    if s == [] {
    } else if s[0] == ' ' {
      ApartWithin(s, 1, |s|);
      assert s[1..|s|] == s[1..];
      TrimIs(s[1..]);
    } else if s[|s| - 1] == ' ' {
      ApartWithin(s, 0, |s| - 1);
      assert s[0..|s| - 1] == s[..|s| - 1];
      TrimIs(s[..|s| - 1]);
    }
  }

  lemma LoweredIsCanon(t: string)
    requires (forall i :: 0 <= i < |t| ==> !IsZeroWidth(t[i]) && (IsSpace(t[i]) ==> t[i] == ' ')) && SingleSpaced(t)
    requires t != [] ==> t[0] != ' ' && t[|t| - 1] != ' '
    ensures Canon(Lowered(t))
  {
    LowerIs(t);
    ApartAlike(t, Lowered(t));
  }

  lemma LowerIs(t: string)
    ensures forall i :: 0 <= i < |t| ==> !IsUpper(Lower(t[i])) && (IsSpace(Lower(t[i])) <==> IsSpace(t[i]))
    ensures forall i :: 0 <= i < |t| ==>
              (Lower(t[i]) == ' ' <==> t[i] == ' ') && (IsZeroWidth(Lower(t[i])) <==> IsZeroWidth(t[i]))
  {
  }

  lemma NormalIsCanon(s: string)
    ensures Canon(Normal(s))
  {
    VisibleIs(s);
    var u := Unbannered(Visible(s));
    assert forall i :: 0 <= i < |u| ==> !IsZeroWidth(u[i]);
    CollapseIs(u);
    TrimIs(Collapse(u));
    LoweredIsCanon(Trim(Collapse(u)));
  }

  lemma {:induction false} VisibleSame(x: string)
    requires forall i :: 0 <= i < |x| ==> !IsZeroWidth(x[i])
    ensures Visible(x) == x
  {
    if x != [] { VisibleSame(x[1..]); }
  }

  lemma LoweredSame(x: string)
    requires forall i :: 0 <= i < |x| ==> !IsUpper(x[i])
    ensures Lowered(x) == x
  {
  }

  // Collapsing leaves single spaces alone, and turns the line break before the version into one.
  lemma {:induction false} CollapseSame(a: string, tail: string)
    requires (forall i :: 0 <= i < |a| ==> CanonChar(a[i])) && SingleSpaced(a)
    requires a != [] && tail != [] && a[|a| - 1] == ' ' ==> !IsSpace(tail[0])
    ensures Collapse(a + tail) == a + Collapse(tail)
  {
    if a == [] {
      assert a + tail == tail;
    } else {
      assert (a + tail)[1..] == a[1..] + tail;
      ApartWithin(a, 1, |a|);
      assert a[1..|a|] == a[1..];
      CollapseSame(a[1..], tail);
      if |a| > 1 { assert Apart(a, 1); }
      if a[0] == ' ' && |a| > 1 { assert (a + tail)[1] == a[1]; }
      if a[0] == ' ' && |a| == 1 && tail != [] { assert (a + tail)[1] == tail[0]; }
    }
  }

  // A canonical text: normalising it takes off one banner and nothing else.
  lemma NormalOfCanon(x: string)
    requires Canon(x)
    ensures Normal(x) == Unbannered(x) && Canon(Unbannered(x))
  {
    VisibleSame(x);
    var u := Unbannered(x);
    UnbanneredIsCanon(x);
    CollapseSame(u, []);
    assert u + [] == u;
    assert Trim(u) == u;
    LoweredSame(u);
  }

  lemma {:induction false} SpanStops(s: string, i: nat, p: char -> bool)
    requires i <= |s|
    ensures SpanEnd(s, i, p) < |s| ==> !p(s[SpanEnd(s, i, p)])
    ensures forall k :: i <= k < SpanEnd(s, i, p) ==> p(s[k])
    decreases |s| - i
  {
    if i < |s| && p(s[i]) { SpanStops(s, i + 1, p); }
  }

  lemma UnbanneredIsCanon(x: string)
    requires Canon(x)
    ensures Canon(Unbannered(x))
  {
    if BannerEnd(x).Some? {
      var r := BannerEnd(x).value;
      var q := DashEnd(x, SpanEnd(x, BannerWordEnd(x, ArrowsEnd(x, SpanEnd(x, 0, IsSpace))).value, IsSpace));
      SpanStops(x, q, IsSpace);
      assert r < |x| ==> !IsSpace(x[r]);
      ApartWithin(x, r, |x|);
      assert x[r..|x|] == x[r..];
    }
  }

  // ----- The cache key takes off two banners -----

  // Where a position of x is in x + "\n" + tail, when the line break has been read past.
  function Across(x: string, i: nat): (j: nat) { if i < |x| then i else |x| + 1 }

  // A tail that no banner reaches into.
  ghost predicate Plain(tail: string)
  {
    && Canon(tail) && tail != [] && !IsArrow(tail[0]) && !IsDash(tail[0])
    && Lower(tail[0]) != 'f' && Lower(tail[0]) != 'm' && Lower(tail[0]) != 't'
  }

  ghost predicate Tailed(y: string, x: string, tail: string)
  {
    Canon(x) && y == x + ['\n'] + tail && Plain(tail)
  }

  lemma {:induction false} SpaceAcross(y: string, x: string, tail: string, i: nat)
    requires Tailed(y, x, tail) && i <= |x|
    ensures SpanEnd(y, i, IsSpace) == Across(x, SpanEnd(x, i, IsSpace))
    decreases |x| - i
  {
    if i < |x| {
      assert y[i] == x[i];
      if IsSpace(x[i]) {
        SpaceAcross(y, x, tail, i + 1);
      }
    } else {
      assert y[i] == '\n' && y[i + 1] == tail[0];
      assert SpanEnd(y, i + 1, IsSpace) == i + 1;
    }
  }

  lemma WordAcross(y: string, x: string, tail: string, i: nat, word: string)
    requires Tailed(y, x, tail) && i <= |x|
    requires word != [] && (word[0] == 'f' || word[0] == 'm' || word[0] == 't')
    requires forall k :: 0 <= k < |word| ==> word[k] != '\n'
    ensures WordAt(y, Across(x, i), word) <==> WordAt(x, i, word)
  {
    if i < |x| {
      assert forall k :: 0 <= k < |x| ==> y[k] == x[k];
      if i + |word| > |x| {
        var k := |x| - i;
        assert Lower(y[i + k]) == '\n' != word[k];
      }
    } else {
      assert Lower(y[|x| + 1 + 0]) == Lower(tail[0]) != word[0];
    }
  }

  lemma TimesAcross(y: string, x: string, tail: string, k: nat)
    requires Tailed(y, x, tail) && k <= |x|
    ensures SpanEnd(y, k, IsSpace) == Across(x, SpanEnd(x, k, IsSpace))
    ensures WordAt(y, Across(x, SpanEnd(x, k, IsSpace)), "times") <==> WordAt(x, SpanEnd(x, k, IsSpace), "times")
  {
    SpaceAcross(y, x, tail, k);
    WordAcross(y, x, tail, SpanEnd(x, k, IsSpace), "times");
  }

  lemma ManyTimesAcross(y: string, x: string, tail: string, e: nat)
    requires Tailed(y, x, tail) && e <= |x|
    ensures ManyTimesEnd(y, e) == ManyTimesEnd(x, e)
  {
    var k := SpanEnd(x, e, IsSpace);
    SpaceAcross(y, x, tail, e);
    WordAcross(y, x, tail, k, "many");
    SpanStops(x, e, IsSpace);
    if k < |x| && WordAt(x, k, "many") { TimesAcross(y, x, tail, k + 4); }
  }

  lemma BannerWordAcross(y: string, x: string, tail: string, j: nat)
    requires Tailed(y, x, tail) && j <= |x|
    ensures BannerWordEnd(y, Across(x, j)) == BannerWordEnd(x, j)
    ensures BannerWordEnd(x, j).Some? ==> j < |x|
  {
    WordAcross(y, x, tail, j, "forwarded");
    WordAcross(y, x, tail, j, "fwd");
    WordAcross(y, x, tail, j, "fw");
    if WordAt(x, j, "forwarded") { ManyTimesAcross(y, x, tail, j + 9); }
  }

  lemma {:induction false} ArrowSpanAcross(y: string, x: string, tail: string, i: nat)
    requires Tailed(y, x, tail) && i <= |x|
    ensures SpanEnd(y, i, IsArrow) == SpanEnd(x, i, IsArrow)
    decreases |x| - i
  {
    if i < |x| {
      assert y[i] == x[i];
      if IsArrow(x[i]) { ArrowSpanAcross(y, x, tail, i + 1); }
    } else {
      assert y[i] == '\n';
    }
  }

  lemma ArrowsAcross(y: string, x: string, tail: string)
    requires Tailed(y, x, tail)
    ensures ArrowsEnd(y, SpanEnd(y, 0, IsSpace)) == Across(x, ArrowsEnd(x, SpanEnd(x, 0, IsSpace)))
  {
    SpaceAcross(y, x, tail, 0);
    var i := SpanEnd(x, 0, IsSpace);
    if i < |x| {
      assert y[i] == x[i];
      ArrowSpanAcross(y, x, tail, i);
      SpaceAcross(y, x, tail, SpanEnd(x, i, IsArrow));
    } else {
      assert y[|x| + 1] == tail[0];
    }
  }

  lemma DashAcross(y: string, x: string, tail: string, p: nat)
    requires Tailed(y, x, tail) && p <= |x|
    ensures DashEnd(y, Across(x, p)) == if p < |x| then DashEnd(x, p) else |x| + 1
  {
    if p < |x| { assert y[p] == x[p]; } else { assert y[|x| + 1] == tail[0]; }
  }

  lemma SpaceAfter(y: string, x: string, tail: string)
    requires Tailed(y, x, tail)
    ensures SpanEnd(y, |x| + 1, IsSpace) == |x| + 1
  {
    assert y[|x| + 1] == tail[0];
  }

  lemma BannerAcross(y: string, x: string, tail: string)
    requires Tailed(y, x, tail)
    ensures BannerEnd(y) == match BannerEnd(x) case None => None case Some(r) => Some(Across(x, r))
  {
    ArrowsAcross(y, x, tail);
    var j := ArrowsEnd(x, SpanEnd(x, 0, IsSpace));
    BannerWordAcross(y, x, tail, j);
    if BannerWordEnd(x, j).Some? {
      var w := BannerWordEnd(x, j).value;
      SpaceAcross(y, x, tail, w);
      var p := SpanEnd(x, w, IsSpace);
      DashAcross(y, x, tail, p);
      if p < |x| { SpaceAcross(y, x, tail, DashEnd(x, p)); } else { SpaceAfter(y, x, tail); }
    }
  }

  function Joined(u: string, tail: string): (key: string) { if u == [] then tail else u + [' '] + tail }

  lemma UnbanneredAcross(y: string, x: string, tail: string)
    requires Tailed(y, x, tail)
    ensures var u := Unbannered(x);
            Unbannered(y) == u + ['\n'] + tail || (u == [] && Unbannered(y) == tail)
  {
    BannerAcross(y, x, tail);
    if BannerEnd(x).Some? {
      var r := BannerEnd(x).value;
      if r < |x| {
        assert y[r..] == x[r..] + ['\n'] + tail;
      } else {
        assert y[|x| + 1..] == tail;
      }
    }
  }

  lemma CanonStays(s: string)
    requires Canon(s)
    ensures Lowered(Trim(Collapse(s))) == s
  {
    CollapseSame(s, []);
    assert s + [] == s;
    LoweredSame(s);
  }

  lemma NewlineCollapses(tail: string)
    requires Canon(tail) && tail != []
    ensures Collapse(['\n'] + tail) == [' '] + tail
  {
    CollapseSame(tail, []);
    assert tail + [] == tail && (['\n'] + tail)[1..] == tail && (['\n'] + tail)[1] == tail[0];
  }

  lemma TailCollapses(u: string, tail: string)
    requires Canon(u) && Canon(tail) && tail != []
    ensures Collapse(u + ['\n'] + tail) == u + [' '] + tail
  {
    NewlineCollapses(tail);
    CollapseThrough(u, ['\n'] + tail, [' '] + tail);
    assert u + ['\n'] + tail == u + (['\n'] + tail) && u + [' '] + tail == u + ([' '] + tail);
  }

  lemma CollapseThrough(u: string, rest: string, collapsed: string)
    requires Canon(u) && Collapse(rest) == collapsed
    ensures Collapse(u + rest) == u + collapsed
  {
    CollapseSame(u, rest);
  }

  lemma JoinedTrims(u: string, tail: string)
    requires Canon(u) && Canon(tail) && tail != []
    ensures Lowered(Trim(u + [' '] + tail)) == Joined(u, tail)
  {
    var key := u + [' '] + tail;
    if u == [] {
      assert key == [' '] + tail && key[1..] == tail;
      LoweredSame(tail);
    } else {
      assert Trim(key) == key;
      LoweredSame(key);
    }
  }

  lemma JoinedIs(u: string, tail: string)
    requires Canon(u) && Canon(tail) && tail != []
    ensures Lowered(Trim(Collapse(u + ['\n'] + tail))) == Joined(u, tail) && Lowered(Trim(Collapse(tail))) == tail
  {
    CanonStays(tail);
    TailCollapses(u, tail);
    JoinedTrims(u, tail);
  }

  lemma NormalWithTail(x: string, y: string, tail: string)
    requires Canon(x) && Plain(tail) && y == x + ['\n'] + tail
    ensures Normal(y) == Joined(Unbannered(x), tail)
  {
    VisibleSame(y);
    UnbanneredAcross(y, x, tail);
    UnbanneredIsCanon(x);
    JoinedIs(Unbannered(x), tail);
  }

  lemma VersionIsPlain()
    ensures Plain(VERSION)
  {
    assert VERSION[0] == 's';
  }

  // The cache key: the normal form with a second banner taken off, and the version.
  lemma CacheKeyIs(s: string)
    ensures CacheKey(s) == Joined(Normal(Normal(s)), VERSION)
  {
    NormalIsCanon(s);
    NormalOfCanon(Normal(s));
    VersionIsPlain();
    NormalWithTail(Normal(s), Normal(s) + ['\n'] + VERSION, VERSION);
  }

  // Two texts share a cache key exactly when they are equal once normalised twice.
  lemma SameKeyIff(s: string, t: string)
    ensures CacheKey(s) == CacheKey(t) <==> Normal(Normal(s)) == Normal(Normal(t))
  {
    CacheKeyIs(s);
    CacheKeyIs(t);
    JoinedInjective(Normal(Normal(s)), Normal(Normal(t)), VERSION);
  }

  lemma JoinedInjective(u: string, v: string, tail: string)
    ensures Joined(u, tail) == Joined(v, tail) <==> u == v
  {
    var a, b := Joined(u, tail), Joined(v, tail);
    if a == b {
      assert |a| == |b|;
      if u != [] && v != [] {
        assert |u| == |v|;
        assert a[..|u|] == u && b[..|v|] == v;
      }
    }
  }

  // ----- Fingerprint against key -----

  // For one author the fingerprint is the finer of the two.
  lemma FingerprintRefinesKey(author: string, s: string, t: string)
    requires Fingerprint(author, s).Some? && Fingerprint(author, s) == Fingerprint(author, t)
    ensures CacheKey(s) == CacheKey(t)
  {
  }

  // And of two texts whose normal forms carry no further banner it is the same one. A text with a
  // banner left shares its key with its own normal form, which has another fingerprint.
  lemma SameExceptForBanners(author: string, s: string, t: string)
    requires Fingerprint(author, s).Some? && Fingerprint(author, t).Some?
    ensures BannerEnd(Normal(s)).None? && BannerEnd(Normal(t)).None? ==>
              (CacheKey(s) == CacheKey(t) <==> Fingerprint(author, s) == Fingerprint(author, t))
    ensures BannerEnd(Normal(s)).Some? && BannerEnd(Normal(Normal(s))).None? ==>
              CacheKey(s) == CacheKey(Normal(s)) && Fingerprint(author, s) != Fingerprint(author, Normal(s))
  {
    NormalIsCanon(s);
    NormalIsCanon(t);
    NormalOfCanon(Normal(s));
    NormalOfCanon(Normal(t));
    SameKeyIff(s, t);
    NormalIsCanon(Normal(s));
    NormalOfCanon(Normal(Normal(s)));
    SameKeyIff(s, Normal(s));
    if BannerEnd(Normal(s)).Some? { BannerTakes(Normal(s)); }
  }

  lemma BannerTakes(s: string)
    requires BannerEnd(s).Some?
    ensures BannerEnd(s).value > 0 && |Unbannered(s)| < |s|
  {
  }

  ghost predicate KeyTellsFingerprint(author: string, texts: iset<string>)
  {
    forall s, t :: s in texts && t in texts ==>
      (CacheKey(s) == CacheKey(t) <==> Fingerprint(author, s) == Fingerprint(author, t))
  }

  ghost predicate Normalised(texts: iset<string>) { forall s :: s in texts ==> Normal(s) in texts }

  // A set of texts that holds a banner under a banner also holds two that share a key only.
  lemma {:induction false} SharedKeyOnly(texts: iset<string>, s: string) returns (w: string)
    requires Normalised(texts) && s in texts && BannerEnd(Normal(s)).Some?
    ensures w in texts && Normal(w) in texts && CacheKey(w) == CacheKey(Normal(w)) && Normal(w) != Normal(Normal(w))
    decreases |Normal(s)|
  {
    var n := Normal(s);
    NormalIsCanon(s);
    NormalOfCanon(n);
    BannerTakes(n);
    if BannerEnd(Normal(n)).Some? {
      w := SharedKeyOnly(texts, n);
    } else {
      NormalIsCanon(n);
      NormalOfCanon(Normal(n));
      SameKeyIff(s, n);
      w := s;
    }
  }

  // On a set of texts closed under normalisation the cache key tells apart exactly what the
  // fingerprint tells apart if and only if no text of it has a banner left in its normal form.
  lemma KeyTellsFingerprintIff(author: string, texts: iset<string>)
    requires author != [] && Normalised(texts)
    ensures KeyTellsFingerprint(author, texts) <==> forall s :: s in texts ==> BannerEnd(Normal(s)).None?
  {
    if s :| s in texts && BannerEnd(Normal(s)).Some? {
      var w := SharedKeyOnly(texts, s);
      assert Fingerprint(author, w) != Fingerprint(author, Normal(w));
    } else {
      forall s, t | s in texts && t in texts
        ensures CacheKey(s) == CacheKey(t) <==> Fingerprint(author, s) == Fingerprint(author, t)
      {
        NormalIsCanon(s);
        NormalIsCanon(t);
        NormalOfCanon(Normal(s));
        NormalOfCanon(Normal(t));
        SameKeyIff(s, t);
      }
    }
  }

  // A text under one more banner.
  function Bannered(word: string, u: string): (s: string) { if u == [] then word else word + [' '] + u }

  predicate BannerWord(word: string) { word == "fwd:" || word == "fw:" }

  lemma BanneredIsCanon(word: string, u: string)
    requires BannerWord(word) && Canon(u)
    ensures Canon(Bannered(word, u))
  {
    var s := Bannered(word, u);
    assert forall i :: 0 <= i < |word| ==> CanonChar(word[i]) && word[i] != ' ';
    assert forall i :: 0 <= i < |s| ==>
             s[i] == if i < |word| then word[i] else if i == |word| then ' ' else u[i - |word| - 1];
    forall i | 0 < i < |s| ensures Apart(s, i) {
      if i > |word| + 1 {
        assert Apart(u, i - |word| - 1);
        assert s[i] == u[i - |word| - 1] && s[i - 1] == u[i - |word| - 2];
      }
    }
  }

  lemma BanneredLoses(word: string, u: string)
    requires BannerWord(word) && Canon(u)
    ensures Unbannered(Bannered(word, u)) == u
  {
    var s := Bannered(word, u);
    var n := |word| - 1;
    assert forall i :: 0 <= i < |word| ==> s[i] == word[i];
    assert SpanEnd(s, 0, IsSpace) == 0 && ArrowsEnd(s, 0) == 0;
    assert Lower(s[0 + 1]) == 'w' != "forwarded"[1];
    if word == "fw:" { assert Lower(s[0 + 2]) == ':' != "fwd"[2]; }
    assert BannerWordEnd(s, 0) == Some(n);
    assert SpanEnd(s, n, IsSpace) == n && DashEnd(s, n) == n + 1;
    if u != [] {
      assert s[n + 1] == ' ' && s[n + 2] == u[0];
      assert SpanEnd(s, n + 2, IsSpace) == n + 2;
      assert s[n + 2..] == u;
    }
  }

  lemma BanneredTwice(word: string, u: string)
    requires BannerWord(word) && Canon(u)
    ensures var t := Bannered(word, Bannered(word, u));
            Normal(t) == Bannered(word, u) && Normal(Normal(t)) == u
  {
    BanneredIsCanon(word, u);
    BanneredIsCanon(word, Bannered(word, u));
    NormalOfCanon(Bannered(word, Bannered(word, u)));
    BanneredLoses(word, Bannered(word, u));
    NormalOfCanon(Bannered(word, u));
    BanneredLoses(word, u);
  }

  lemma OtherBanner(n: string, u: string) returns (word: string)
    ensures BannerWord(word) && Bannered(word, u) != n
  {
    word := "fwd:";
    if Bannered(word, u) == n {
      assert n[2] == 'd';
      word := "fw:";
      assert Bannered(word, u)[2] == ':';
    }
  }

  // Over all texts the key never settles the fingerprint: each text shares its key with one that has
  // another fingerprint.
  lemma EveryKeyIsShared(author: string, s: string) returns (t: string)
    requires Fingerprint(author, s).Some?
    ensures CacheKey(t) == CacheKey(s) && Fingerprint(author, t).Some? &&
            Fingerprint(author, t) != Fingerprint(author, s)
  {
    NormalIsCanon(Normal(s));
    t := SharedKey(Normal(s), Normal(Normal(s)));
    SameKeyIff(s, t);
  }

  lemma SharedKey(n: string, u: string) returns (t: string)
    requires Canon(u)
    ensures Normal(Normal(t)) == u && Normal(t) != n && Normal(t) != []
  {
    var word := OtherBanner(n, u);
    t := Bannered(word, Bannered(word, u));
    BanneredTwice(word, u);
  }

  // ----- Stacked banners -----

  function Stacked(k: nat, x: string): (s: string)
  {
    if k == 0 then x else "fwd: " + Stacked(k - 1, x)
  }

  lemma {:induction false} StackedIsCanon(k: nat, x: string)
    requires Canon(x) && x != []
    ensures Canon(Stacked(k, x)) && |Stacked(k, x)| == 5 * k + |x|
  {
    if k > 0 {
      StackedIsCanon(k - 1, x);
      PrefixIsCanon("fwd: ", Stacked(k - 1, x));
    }
  }

  lemma PrefixIsCanon(p: string, x: string)
    requires p == "fwd: " && Canon(x) && x != []
    ensures Canon(p + x) && BannerEnd(p + x) == Some(5) && Unbannered(p + x) == x
  {
    var s := p + x;
    assert s[5] == x[0] && s[5..] == x;
    assert forall i :: 0 <= i < |s| ==> s[i] == if i < 5 then p[i] else x[i - 5];
    forall i | 0 < i < |s| ensures Apart(s, i) {
      if i > 5 { assert Apart(x, i - 5) && s[i] == x[i - 5] && s[i - 1] == x[i - 6]; }
    }
    assert SpanEnd(s, 0, IsSpace) == 0 && ArrowsEnd(s, 0) == 0;
    assert Lower(s[0 + 1]) == 'w' != "forwarded"[1];
    assert WordAt(s, 0, "fwd");
    assert SpanEnd(s, 3, IsSpace) == 3 && DashEnd(s, 3) == 4;
    assert SpanEnd(s, 5, IsSpace) == 5;
    assert SpanEnd(s, 4, IsSpace) == 5;
  }

  function Less(k: nat, n: nat): (m: nat) { if k >= n then k - n else 0 }

  // A text under k banners: the fingerprint sees k - 1 of them, the cache key k - 2.
  lemma StackedBanners(author: string, k: nat, j: nat, x: string)
    requires author != [] && Canon(x) && x != [] && BannerEnd(x).None?
    ensures Fingerprint(author, Stacked(k, x)) == Fingerprint(author, Stacked(j, x)) <==> Less(k, 1) == Less(j, 1)
    ensures CacheKey(Stacked(k, x)) == CacheKey(Stacked(j, x)) <==> Less(k, 2) == Less(j, 2)
  {
    StackedOnce(k, x);
    StackedOnce(j, x);
    StackedOnce(Less(k, 1), x);
    StackedOnce(Less(j, 1), x);
    SameKeyIff(Stacked(k, x), Stacked(j, x));
    StackedIsCanon(Less(k, 1), x);
    StackedIsCanon(Less(j, 1), x);
    StackedIsCanon(Less(k, 2), x);
    StackedIsCanon(Less(j, 2), x);
  }

  lemma StackedLoses(k: nat, x: string)
    requires Canon(x) && x != [] && k > 0
    ensures Unbannered(Stacked(k, x)) == Stacked(k - 1, x)
  {
    StackedIsCanon(k - 1, x);
    PrefixIsCanon("fwd: ", Stacked(k - 1, x));
  }

  lemma StackedOnce(k: nat, x: string)
    requires Canon(x) && x != [] && BannerEnd(x).None?
    ensures Normal(Stacked(k, x)) == Stacked(Less(k, 1), x)
  {
    StackedIsCanon(k, x);
    NormalOfCanon(Stacked(k, x));
    if k > 0 { StackedLoses(k, x); }
  }
}
