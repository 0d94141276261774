// Printing a price and reading it back: the display form of an amount, the source-grounded price
// pattern, and the rental reading of a small decimal K.
module PriceText {
  import opened Texts
  import opened Options

  // ----- Characters -----

  predicate IsDigit(c: char) { '0' <= c <= '9' }
  predicate IsRun(c: char) { IsDigit(c) || c == ',' }
  predicate IsSpace(c: char) { c == ' ' || c == '\t' || c == '\n' || c == '\r' }
  predicate IsJoin(c: char) { c == '.' || c == '-' || c == '/' }
  predicate IsPoint(c: char) { c == '.' || c == ':' || c == '\'' || c == '\U{2019}' }
  predicate IsWord(c: char) { IsDigit(c) || 'a' <= c <= 'z' || 'A' <= c <= 'Z' || c == '_' }

  lemma {:induction false} SpanEndIs(s: string, i: nat, e: nat, p: char -> bool)
    requires i <= e <= |s| && (e < |s| ==> !p(s[e]))
    requires forall k :: i <= k < e ==> p(s[k])
    ensures SpanEnd(s, i, p) == e
    decreases e - i
  {
    if i < e { SpanEndIs(s, i + 1, e, p); }
  }

  // ----- Numbers -----

  function Value(ds: string): (n: nat)
  {
    if ds == [] then 0
    else
      var c := ds[|ds| - 1];
      10 * Value(ds[..|ds| - 1]) + if IsDigit(c) then (c - '0') as nat else 0
  }

  function Digit(d: nat): (c: char)
    requires d < 10
    ensures IsDigit(c) && (c - '0') as nat == d
  {
    '0' + d as char
  }

  function Decimal(n: nat): (ds: string)
    ensures |ds| > 0
  {
    if n < 10 then [Digit(n)] else Decimal(n / 10) + [Digit(n % 10)]
  }

  lemma {:induction false} DecimalReads(n: nat)
    ensures Value(Decimal(n)) == n && forall k :: 0 <= k < |Decimal(n)| ==> IsDigit(Decimal(n)[k])
  {
    if n >= 10 {
      DecimalReads(n / 10);
      assert Decimal(n)[..|Decimal(n)| - 1] == Decimal(n / 10);
    } else {
      assert Decimal(n)[..0] == [];
    }
  }

  function NoCommas(s: string): (t: string)
  {
    if s == [] then [] else if s[0] == ',' then NoCommas(s[1..]) else [s[0]] + NoCommas(s[1..])
  }

  lemma {:induction false} NoCommasInDigits(s: string)
    requires forall k :: 0 <= k < |s| ==> IsDigit(s[k])
    ensures NoCommas(s) == s
  {
    if s != [] { NoCommasInDigits(s[1..]); }
  }

  function Power10(k: nat): (p: nat)
    ensures p > 0
  {
    if k == 0 then 1 else 10 * Power10(k - 1)
  }

  // float("<whole>.<frac>")
  function Number(whole: string, frac: string): (x: real)
  {
    Value(whole) as real + Value(frac) as real / Power10(|frac|) as real
  }

  // ----- The price pattern -----

  datatype Unit = Crore | Lakh | Thousand | Plain

  function Multiplier(u: Unit): (m: int)
    ensures m > 0
  {
    match u case Crore => 10000000 case Lakh => 100000 case Thousand => 1000 case Plain => 1
  }

  // The words the pattern knows. "la" and "las" match it too, and no multiplier knows them.
  const WORDS: seq<(string, Unit)> :=
    [("cr", Crore), ("lakh", Lakh), ("k", Thousand), ("crore", Crore), ("crores", Crore), ("lac", Lakh), ("lacs", Lakh),
     ("lakhs", Lakh), ("l", Lakh), ("thousand", Thousand), ("thousands", Thousand), ("la", Plain), ("las", Plain)]

  function UnitOf(word: string, k: nat): (u: Option<Unit>)
    requires k <= |WORDS|
    decreases |WORDS| - k
  {
    if k == |WORDS| then None else if WORDS[k].0 == word then Some(WORDS[k].1) else UnitOf(word, k + 1)
  }

  datatype Match = Match(whole: string, frac: string, unit: Unit, spelledLong: bool)

  // The end of the spaces and of . - / that may stand between the number and the unit.
  function GapEnd(s: string, i: nat): (e: nat)
    requires i <= |s|
    ensures i <= e <= |s|
  {
    SpanEnd(s, SpanEnd(s, SpanEnd(s, i, IsSpace), IsJoin), IsSpace)
  }

  function WordAt(s: string, i: nat): (word: string)
    requires i <= |s|
  {
    Lowered(s[i..SpanEnd(s, i, IsWord)])
  }

  // The end of the decimals that follow a point at e, or e if there are none.
  function FracEnd(s: string, e: nat): (f: nat)
    requires e <= |s|
    ensures e <= f <= |s| && (f != e ==> f > e + 1)
  {
    if e + 1 < |s| && IsPoint(s[e]) && IsDigit(s[e + 1]) then SpanEnd(s, e + 2, IsDigit) else e
  }

  function MatchAt(s: string, i: nat): (m: Option<Match>)
    requires i < |s|
  {
    if !IsRun(s[i]) then None
    else
      var e := SpanEnd(s, i, IsRun);
      var f := FracEnd(s, e);
      var word := WordAt(s, GapEnd(s, f));
      var unit := UnitOf(word, 0);
      if unit.None? then None
      else Some(Match(s[i..e], if f == e then [] else s[e + 1..f], unit.value, word != "l"))
  }

  function Search(s: string, i: nat): (m: Option<Match>)
    requires i <= |s|
    decreases |s| - i
  {
    if i == |s| then None else if MatchAt(s, i).Some? then MatchAt(s, i) else Search(s, i + 1)
  }

  datatype Price = Price(amount: real, unit: Unit)

  // parse_explicit_price. An amount in Indian comma grouping that is already a lakh or more is not
  // multiplied by a duplicated lakh.
  function ParseExplicitPrice(s: string): (p: Option<Price>)
  {
    match Search(s, 0)
    case None => None
    case Some(m) =>
      if NoCommas(m.whole) == [] && m.frac == [] then None
      else
        var amount := Number(NoCommas(m.whole), m.frac);
        if m.unit == Lakh && m.spelledLong && ',' in m.whole && amount >= 100000.0 then Some(Price(amount, Plain))
        else Some(Price(amount, m.unit))
  }

  function Rupees(p: Price): (r: real) { p.amount * Multiplier(p.unit) as real }

  // canonical_price_rupees: the text, if it states a price, else the value handed over.
  function CanonicalPrice(s: string, fallback: Option<real>): (r: Option<real>)
  {
    match ParseExplicitPrice(s) case Some(p) => Some(Rupees(p)) case None => fallback
  }

  // The decimal K of a rent: digits, a point, digits, spaces, k, not preceded by a digit or point.
  function ShorthandAt(s: string, i: nat): (x: Option<real>)
    requires i < |s|
  {
    var e := SpanEnd(s, i, IsDigit);
    if e == i || (i > 0 && (IsDigit(s[i - 1]) || s[i - 1] == '.')) then None
    else if !(e + 1 < |s| && s[e] == '.' && IsDigit(s[e + 1])) then None
    else
      var f := SpanEnd(s, e + 2, IsDigit);
      if WordAt(s, SpanEnd(s, f, IsSpace)) == "k" then Some(Number(s[i..e], s[e + 1..f])) else None
  }

  function Shorthand(s: string, i: nat): (x: Option<real>)
    requires i <= |s|
    decreases |s| - i
  {
    if i == |s| then None else if ShorthandAt(s, i).Some? then ShorthandAt(s, i) else Shorthand(s, i + 1)
  }

  // canonical_rental_price_rupees. rentWord: the text speaks of rent. plainUnit: the unit handed
  // over names no scale.
  function RentalPrice(s: string, fallback: Option<real>, rentWord: bool, plainUnit: bool): (r: Option<real>)
  {
    var x := Shorthand(s, 0);
    if x.Some? && x.value < 5.0 then Some(x.value * 100000.0)
    else
      var price := CanonicalPrice(s, fallback);
      if price.Some? && ParseExplicitPrice(s).None? && rentWord && plainUnit && 0.0 < price.value < 1000.0
      then Some(price.value * 1000.0) else price
  }

  // ----- The display form -----

  datatype Scale = Cr | Lac | K

  function Divisor(scale: Scale): (d: int)
    ensures d > 0
  {
    match scale case Cr => 10000000 case Lac => 100000 case K => 1000
  }

  function Label(scale: Scale): (s: string)
  {
    match scale case Cr => "Cr" case Lac => "Lakh" case K => "K"
  }

  function ScaleOf(amount: real): (scale: Option<Scale>)
  {
    if amount >= 10000000.0 then Some(Cr)
    else if amount >= 100000.0 then Some(Lac)
    else if amount >= 1000.0 then Some(K)
    else None
  }

  // h is x in hundredths, rounded to nearest; ties may go either way.
  predicate Rounded(x: real, h: nat) { -0.5 <= 100.0 * x - h as real <= 0.5 }

  function Fraction(f: nat): (s: string)
    requires f < 100
  {
    if f == 0 then [] else if f % 10 == 0 then ['.', Digit(f / 10)] else ['.', Digit(f / 10), Digit(f % 10)]
  }

  // "%.2f" of h hundredths, without trailing zeros and point, and the unit; a whole value prints
  // the same way.
  function Display(h: nat, scale: Scale, suffix: string): (s: string)
  {
    ['\U{20B9}'] + Decimal(h / 100) + Fraction(h % 100) + [' '] + Label(scale) + suffix
  }

  function Suffix(amount: real, isRent: bool): (s: string)
    ensures s == "" || s == "/month"
  {
    if isRent && amount < 10000000.0 then "/month" else ""
  }

  function FormatPrice(amount: real, h: nat, isRent: bool): (s: string)
  {
    match ScaleOf(amount)
    case Some(scale) => Display(h, scale, Suffix(amount, isRent))
    case None =>
      if amount <= 0.0 then "Price on request"
      else ['\U{20B9}'] + Decimal(amount.Floor) + Suffix(amount, isRent)
  }

  // ----- Reading a printed price -----

  // A price as it stands in a text: digits from i to e, perhaps a point and decimals up to f, a
  // space, and a word up to w. No number before it, and no word character behind it.
  predicate Stands(s: string, i: nat, e: nat, f: nat, w: nat)
  {
    && i < e <= f < f + 1 < w <= |s|
    && (forall k :: 0 <= k < i ==> !IsRun(s[k]) && s[k] != '.')
    && (forall k :: i <= k < e ==> IsDigit(s[k]))
    && (f > e ==> f > e + 1 && s[e] == '.' && forall k :: e + 1 <= k < f ==> IsDigit(s[k]))
    && s[f] == ' '
    && (forall k :: f + 1 <= k < w ==> IsWord(s[k]))
    && !IsDigit(s[f + 1])
    && (w < |s| ==> !IsWord(s[w]))
  }

  function Decimals(s: string, e: nat, f: nat): (frac: string)
    requires e <= f <= |s|
  {
    if f == e then [] else s[e + 1..f]
  }

  lemma StandingMatch(s: string, i: nat, e: nat, f: nat, w: nat)
    requires Stands(s, i, e, f, w)
    ensures var unit := UnitOf(Lowered(s[f + 1..w]), 0);
            MatchAt(s, i) == if unit.None? then None
                             else Some(Match(s[i..e], Decimals(s, e, f), unit.value, Lowered(s[f + 1..w]) != "l"))
  {
    StandingNumber(s, i, e, f, w);
    StandingUnit(s, i, e, f, w);
  }

  lemma StandingNumber(s: string, i: nat, e: nat, f: nat, w: nat)
    requires Stands(s, i, e, f, w)
    ensures IsRun(s[i]) && SpanEnd(s, i, IsRun) == e && FracEnd(s, e) == f
  {
    SpanEndIs(s, i, e, IsRun);
    if f > e {
      assert IsDigit(s[e + 1]);
      SpanEndIs(s, e + 2, f, IsDigit);
    }
  }

  lemma StandingUnit(s: string, i: nat, e: nat, f: nat, w: nat)
    requires Stands(s, i, e, f, w)
    ensures SpanEnd(s, f, IsSpace) == GapEnd(s, f) == f + 1 && WordAt(s, f + 1) == Lowered(s[f + 1..w])
  {
    assert IsWord(s[f + 1]);
    SpanEndIs(s, f, f + 1, IsSpace);
    SpanEndIs(s, f + 1, f + 1, IsJoin);
    SpanEndIs(s, f + 1, f + 1, IsSpace);
    SpanEndIs(s, f + 1, w, IsWord);
  }

  lemma {:induction false} SearchSkips(s: string, i: nat, n: nat)
    requires i <= n < |s| && MatchAt(s, n).Some? && forall k :: i <= k < n ==> !IsRun(s[k])
    ensures Search(s, i) == MatchAt(s, n)
    decreases n - i
  {
    if i < n { SearchSkips(s, i + 1, n); }
  }

  lemma StandingPrice(s: string, i: nat, e: nat, f: nat, w: nat)
    requires Stands(s, i, e, f, w) && UnitOf(Lowered(s[f + 1..w]), 0).Some?
    ensures ParseExplicitPrice(s)
            == Some(Price(Number(s[i..e], Decimals(s, e, f)), UnitOf(Lowered(s[f + 1..w]), 0).value))
  {
    StandingMatch(s, i, e, f, w);
    SearchSkips(s, 0, i);
    forall k | 0 <= k < e - i ensures IsDigit(s[i..e][k]) { assert s[i..e][k] == s[i + k]; }
    NoCommasInDigits(s[i..e]);
  }

  lemma StandingShorthand(s: string, i: nat, e: nat, f: nat, w: nat)
    requires Stands(s, i, e, f, w)
    ensures ShorthandAt(s, i)
         == if f > e && Lowered(s[f + 1..w]) == "k" then Some(Number(s[i..e], Decimals(s, e, f))) else None
  {
    SpanEndIs(s, i, e, IsDigit);
    StandingUnit(s, i, e, f, w);
    if f > e {
      assert IsDigit(s[e + 1]);
      SpanEndIs(s, e + 2, f, IsDigit);
    }
  }

  lemma {:induction false} NoShorthand(s: string, i: nat)
    requires i <= |s| && forall k :: i <= k < |s| ==> ShorthandAt(s, k).None?
    ensures Shorthand(s, i).None?
    decreases |s| - i
  {
    if i < |s| { NoShorthand(s, i + 1); }
  }

  lemma {:induction false} ShorthandSkips(s: string, i: nat, n: nat)
    requires i <= n < |s| && ShorthandAt(s, n).Some? && forall k :: i <= k < n ==> ShorthandAt(s, k).None?
    ensures Shorthand(s, i) == ShorthandAt(s, n)
    decreases n - i
  {
    if i < n { ShorthandSkips(s, i + 1, n); }
  }

  predicate NotAStart(s: string, k: nat)
    requires k < |s|
  {
    !IsDigit(s[k]) || (k > 0 && (IsDigit(s[k - 1]) || s[k - 1] == '.'))
  }

  lemma NoShorthandAt(s: string, k: nat)
    requires k < |s| && NotAStart(s, k)
    ensures ShorthandAt(s, k).None?
  {
  }

  lemma OneStart(s: string, i: nat, e: nat, f: nat, w: nat, k: nat)
    requires Stands(s, i, e, f, w) && k < |s| && k != i && (k >= f ==> !IsDigit(s[k]))
    ensures NotAStart(s, k)
  {
    if k < i {
      assert !IsRun(s[k]);
    } else if k < e {
      assert IsDigit(s[k - 1]);
    } else if e + 1 < k < f {
      assert IsDigit(s[k - 1]);
    }
  }

  // The shorthand of a text with a single number is a decimal K, if that is what stands there.
  lemma OnlyShorthand(s: string, i: nat, e: nat, f: nat, w: nat)
    requires Stands(s, i, e, f, w) && forall k :: f <= k < |s| ==> !IsDigit(s[k])
    ensures Shorthand(s, 0)
         == if f > e && Lowered(s[f + 1..w]) == "k" then Some(Number(s[i..e], Decimals(s, e, f))) else None
  {
    StandingShorthand(s, i, e, f, w);
    forall k | 0 <= k < |s| && k != i ensures ShorthandAt(s, k).None? {
      OneStart(s, i, e, f, w, k);
      NoShorthandAt(s, k);
    }
    if ShorthandAt(s, i).Some? { ShorthandSkips(s, 0, i); } else { NoShorthand(s, 0); }
  }

  // ----- The round trip -----

  function UnitOfScale(scale: Scale): (u: Unit) { match scale case Cr => Crore case Lac => Lakh case K => Thousand }

  function FractionDigits(h: nat): (s: string)
  {
    var f := h % 100;
    if f == 0 then [] else if f % 10 == 0 then [Digit(f / 10)] else [Digit(f / 10), Digit(f % 10)]
  }

  lemma LabelUnit(scale: Scale)
    ensures UnitOf(Lowered(Label(scale)), 0) == Some(UnitOfScale(scale))
    ensures Lowered(Label(scale)) == "k" <==> scale == K
    ensures Label(scale) != [] && forall k :: 0 <= k < |Label(scale)| ==>
              IsWord(Label(scale)[k]) && !IsDigit(Label(scale)[k])
  {
    match scale
    case Cr => assert Lowered("Cr") == "cr" == WORDS[0].0;
    case Lac =>
      assert Lowered("Lakh") == "lakh" == WORDS[1].0;
      assert UnitOf("lakh", 1) == Some(Lakh);
    case K =>
      assert Lowered("K") == "k" == WORDS[2].0;
      assert UnitOf("k", 2) == Some(Thousand) && UnitOf("k", 1) == UnitOf("k", 2);
  }

  lemma LabelIsUnit(scale: Scale)
    ensures UnitOf(Lowered(Label(scale)), 0) == Some(UnitOfScale(scale))
  {
    LabelUnit(scale);
  }

  lemma NumberReads(h: nat)
    ensures Number(Decimal(h / 100), FractionDigits(h)) == h as real / 100.0
  {
    DecimalReads(h / 100);
    var f, ds := h % 100, FractionDigits(h);
    assert Power10(0) == 1 && Power10(1) == 10 && Power10(2) == 100;
    if f == 0 {
    } else if f % 10 == 0 {
      assert ds[..0] == [];
      assert Value(ds) == f / 10;
    } else {
      assert ds[..1] == [Digit(f / 10)] && ds[..1][..0] == [];
      assert Value(ds[..1]) == f / 10;
      assert Value(ds) == f;
    }
    assert h == 100 * (h / 100) + f;
  }

  function Point(frac: string): (s: string) { if frac == [] then [] else ['.'] + frac }

  lemma Slices(a: string, b: string, c: string, d: string, t: string, u: string)
    ensures var s := a + b + c + d + t + u;
            var i := |a| + |b|;
            var j := i + |c|;
            var k := j + |d|;
            s[|a|..i] == b && s[i..j] == c && s[j..k] == d && s[k..k + |t|] == t && s[k + |t|..] == u
  {
  }

  lemma At(s: string, i: nat, j: nat, part: string)
    requires i <= j <= |s| && s[i..j] == part
    ensures forall k :: i <= k < j ==> s[k] == part[k - i]
  {
    assert forall k :: i <= k < j ==> s[k] == s[i..j][k - i];
  }

  // Where the parts of a printed price stand.
  predicate Laid(s: string, whole: string, frac: string, tag: string, suffix: string)
  {
    var e := 1 + |whole|;
    var f := e + |Point(frac)|;
    var w := f + 1 + |tag|;
    && w + |suffix| == |s| && s[0] == '\U{20B9}' && s[1..e] == whole && s[e..f] == Point(frac)
    && s[f] == ' ' && s[f + 1..w] == tag && s[w..] == suffix
  }

  lemma LaidStands(s: string, whole: string, frac: string, tag: string, suffix: string)
    requires Laid(s, whole, frac, tag, suffix)
    requires whole != [] && tag != [] && (suffix == "" || suffix == "/month")
    requires (forall k :: 0 <= k < |whole| ==> IsDigit(whole[k])) && (forall k :: 0 <= k < |frac| ==> IsDigit(frac[k]))
    requires forall k :: 0 <= k < |tag| ==> IsWord(tag[k]) && !IsDigit(tag[k])
    ensures var e := 1 + |whole|;
            var f := e + |Point(frac)|;
            && Stands(s, 1, e, f, f + 1 + |tag|) && Decimals(s, e, f) == frac
            && forall k :: f <= k < |s| ==> !IsDigit(s[k])
  {
    var e := 1 + |whole|;
    var f := e + |Point(frac)|;
    var w := f + 1 + |tag|;
    At(s, 1, e, whole);
    At(s, e, f, Point(frac));
    At(s, f + 1, w, tag);
    At(s, w, |s|, suffix);
    if frac != [] { assert s[e + 1..f] == s[e..f][1..]; }
  }

  lemma JoinedIsLaid(s: string, whole: string, frac: string, tag: string, suffix: string)
    requires s == ['\U{20B9}'] + whole + Point(frac) + [' '] + tag + suffix
    ensures Laid(s, whole, frac, tag, suffix)
  {
    Slices(['\U{20B9}'], whole, Point(frac), [' '], tag, suffix);
    var f := 1 + |whole| + |Point(frac)|;
    assert s[f..f + 1] == [' '];
    assert s[f] == s[f..f + 1][0];
  }

  lemma DisplayIsLaid(h: nat, scale: Scale, suffix: string)
    ensures Laid(Display(h, scale, suffix), Decimal(h / 100), FractionDigits(h), Label(scale), suffix)
  {
    assert Fraction(h % 100) == Point(FractionDigits(h));
    JoinedIsLaid(Display(h, scale, suffix), Decimal(h / 100), FractionDigits(h), Label(scale), suffix);
  }

  lemma LaidNumber(s: string, whole: string, frac: string, tag: string, suffix: string, x: real)
    returns (e: nat, f: nat, w: nat)
    requires Laid(s, whole, frac, tag, suffix) && Number(whole, frac) == x
    requires whole != [] && tag != [] && (suffix == "" || suffix == "/month")
    requires (forall k :: 0 <= k < |whole| ==> IsDigit(whole[k])) && (forall k :: 0 <= k < |frac| ==> IsDigit(frac[k]))
    requires forall k :: 0 <= k < |tag| ==> IsWord(tag[k]) && !IsDigit(tag[k])
    ensures Stands(s, 1, e, f, w) && Number(s[1..e], Decimals(s, e, f)) == x && s[f + 1..w] == tag
    ensures (forall k :: f <= k < |s| ==> !IsDigit(s[k])) && (f > e <==> frac != [])
  {
    e := 1 + |whole|;
    f := e + |Point(frac)|;
    w := f + 1 + |tag|;
    LaidStands(s, whole, frac, tag, suffix);
  }

  // A printed amount stands in its text, and is exactly the hundredths that were printed.
  lemma DisplayStands(h: nat, scale: Scale, suffix: string) returns (e: nat, f: nat, w: nat)
    requires suffix == "" || suffix == "/month"
    ensures var s := Display(h, scale, suffix);
            && Stands(s, 1, e, f, w)
            && (forall k :: f <= k < |s| ==> !IsDigit(s[k]))
            && Number(s[1..e], Decimals(s, e, f)) == h as real / 100.0
            && (f > e <==> h % 100 != 0)
            && s[f + 1..w] == Label(scale)
  {
    DisplayIsLaid(h, scale, suffix);
    DecimalReads(h / 100);
    NumberReads(h);
    FractionIsDigits(h);
    LabelUnit(scale);
    e, f, w := LaidNumber(Display(h, scale, suffix), Decimal(h / 100), FractionDigits(h), Label(scale), suffix,
                          h as real / 100.0);
  }

  lemma FractionIsDigits(h: nat)
    ensures (forall k :: 0 <= k < |FractionDigits(h)| ==> IsDigit(FractionDigits(h)[k])) &&
            (FractionDigits(h) == [] <==> h % 100 == 0)
  {
  }

  lemma StandingReads(s: string, e: nat, f: nat, w: nat, x: real, tag: string, unit: Unit)
    requires Stands(s, 1, e, f, w) && Number(s[1..e], Decimals(s, e, f)) == x && s[f + 1..w] == tag
    requires UnitOf(Lowered(tag), 0) == Some(unit)
    ensures ParseExplicitPrice(s) == Some(Price(x, unit))
  {
    StandingPrice(s, 1, e, f, w);
  }

  lemma StandingReadsShort(s: string, e: nat, f: nat, w: nat, x: real, tag: string, decimalK: bool)
    requires Stands(s, 1, e, f, w) && Number(s[1..e], Decimals(s, e, f)) == x && s[f + 1..w] == tag
    requires (forall k :: f <= k < |s| ==> !IsDigit(s[k])) && (decimalK <==> f > e && Lowered(tag) == "k")
    ensures Shorthand(s, 0) == if decimalK then Some(x) else None
  {
    OnlyShorthand(s, 1, e, f, w);
  }

  // A printed amount reads back as exactly the hundredths that were printed.
  lemma DisplayReads(h: nat, scale: Scale, suffix: string)
    requires suffix == "" || suffix == "/month"
    ensures ParseExplicitPrice(Display(h, scale, suffix)) == Some(Price(h as real / 100.0, UnitOfScale(scale)))
  {
    DisplayReadsAt(Display(h, scale, suffix), h, scale, suffix, h as real / 100.0, UnitOfScale(scale));
  }

  lemma DisplayReadsAt(s: string, h: nat, scale: Scale, suffix: string, x: real, unit: Unit)
    requires s == Display(h, scale, suffix) && x == h as real / 100.0 && (suffix == "" || suffix == "/month")
    requires unit == UnitOfScale(scale)
    ensures ParseExplicitPrice(s) == Some(Price(x, unit))
  {
    var e, f, w := DisplayStands(h, scale, suffix);
    LabelIsUnit(scale);
    StandingReads(s, e, f, w, x, Label(scale), unit);
  }

  // And it holds a decimal K only if it is one.
  lemma DisplayReadsShort(h: nat, scale: Scale, suffix: string)
    requires suffix == "" || suffix == "/month"
    ensures Shorthand(Display(h, scale, suffix), 0) == if h % 100 != 0 && scale == K then Some(h as real / 100.0)
            else None
  {
    var e, f, w := DisplayStands(h, scale, suffix);
    LabelUnit(scale);
    StandingReadsShort(Display(h, scale, suffix), e, f, w, h as real / 100.0, Label(scale), h % 100 != 0 && scale == K);
  }

  function Gap(x: real, y: real): (d: real) { if x >= y then x - y else y - x }

  lemma RoundedWithin(amount: real, h: nat, d: int)
    requires d > 0 && Rounded(amount / d as real, h)
    ensures Gap(h as real / 100.0 * d as real, amount) <= d as real / 200.0
  {
    var x, dd := amount / d as real, d as real;
    assert x * dd == amount;
    var off := h as real / 100.0 - x;
    assert -1.0 / 200.0 <= off <= 1.0 / 200.0;
    assert off * dd == h as real / 100.0 * dd - amount;
    Scaled(off, dd);
  }

  lemma Scaled(off: real, d: real)
    requires d > 0.0 && -1.0 / 200.0 <= off <= 1.0 / 200.0
    ensures -(d / 200.0) <= off * d <= d / 200.0
  {
  }

  // What is read of a text that holds a price.
  lemma PricedReads(s: string, fallback: Option<real>, p: Price)
    requires ParseExplicitPrice(s) == Some(p)
    ensures CanonicalPrice(s, fallback) == Some(Rupees(p))
  {
  }

  lemma FormatReads(amount: real, h: nat, isRent: bool, fallback: Option<real>)
    requires ScaleOf(amount).Some?
    ensures CanonicalPrice(FormatPrice(amount, h, isRent), fallback)
         == Some(h as real / 100.0 * Divisor(ScaleOf(amount).value) as real)
  {
    var scale := ScaleOf(amount).value;
    var s := Display(h, scale, Suffix(amount, isRent));
    DisplayReads(h, scale, Suffix(amount, isRent));
    PricedReads(s, fallback, Price(h as real / 100.0, UnitOfScale(scale)));
  }

  // An amount is printed in the largest unit it comes to at least one of, and below a thousand in none.
  lemma LargestUnit(amount: real)
    ensures ScaleOf(amount).None? <==> amount < 1000.0
    ensures ScaleOf(amount).Some? ==>
              amount >= Divisor(ScaleOf(amount).value) as real &&
              forall other: Scale :: amount >= Divisor(other) as real ==>
                    Divisor(other) <= Divisor(ScaleOf(amount).value)
  {
  }

  predicate EndsWith(s: string, t: string) { |t| <= |s| && s[|s| - |t|..] == t }

  // A rent below a crore is marked as monthly, and nothing else is.
  lemma MonthlyIff(amount: real, h: nat, isRent: bool)
    ensures EndsWith(FormatPrice(amount, h, isRent), "/month") <==> isRent && 0.0 < amount < 10000000.0
  {
    var s, m := FormatPrice(amount, h, isRent), "/month";
    if isRent && 0.0 < amount < 10000000.0 {
      assert Suffix(amount, isRent) == m;
    } else {
      assert amount > 0.0 ==> Suffix(amount, isRent) == "";
      NotMonthly(amount, h, isRent);
      assert m[4] == 't';
    }
  }

  lemma NotMonthly(amount: real, h: nat, isRent: bool)
    requires amount <= 0.0 || Suffix(amount, isRent) == ""
    ensures var s := FormatPrice(amount, h, isRent); |s| >= 2 && s[|s| - 2] != 't'
  {
    var s := FormatPrice(amount, h, isRent);
    if amount <= 0.0 {
    } else if ScaleOf(amount).Some? {
      var head := ['\U{20B9}'] + Decimal(h / 100) + Fraction(h % 100);
      assert s == head + [' '] + Label(ScaleOf(amount).value);
      LabelEnd(head, ScaleOf(amount).value);
    } else {
      assert s == ['\U{20B9}'] + Decimal(amount.Floor);
      DigitsEndIn(Decimal(amount.Floor), amount.Floor);
    }
  }

  lemma LabelEnd(head: string, scale: Scale)
    ensures var s := head + [' '] + Label(scale); |s| >= 2 && s[|s| - 2] != 't'
  {
  }

  lemma DigitsEndIn(digits: string, n: nat)
    requires digits == Decimal(n)
    ensures var s := ['\U{20B9}'] + digits; |s| >= 2 && s[|s| - 2] != 't'
  {
    DecimalReads(n);
    var s := ['\U{20B9}'] + digits;
    assert |digits| >= 2 ==> s[|s| - 2] == digits[|digits| - 2];
  }

  // The round trip: an amount of a thousand or more comes back to within half a hundredth of the
  // unit it was printed in, roundings up to the next unit included.
  lemma PriceRoundTrip(amount: real, h: nat, isRent: bool, fallback: Option<real>)
    requires ScaleOf(amount).Some? && Rounded(amount / Divisor(ScaleOf(amount).value) as real, h)
    ensures var d, back := Divisor(ScaleOf(amount).value), CanonicalPrice(FormatPrice(amount, h, isRent), fallback);
            back.Some? && Gap(back.value, amount) <= d as real / 200.0
  {
    FormatReads(amount, h, isRent, fallback);
    RoundedWithin(amount, h, Divisor(ScaleOf(amount).value));
  }

  // A smaller amount is printed without a unit and is not read as a price at all.
  lemma SmallPriceIsNotRead(amount: real, h: nat, isRent: bool)
    requires ScaleOf(amount).None?
    ensures ParseExplicitPrice(FormatPrice(amount, h, isRent)).None?
  {
    if amount <= 0.0 {
      OnRequestHasNoNumber();
      NoMatch("Price on request", 0);
    } else {
      DecimalReads(amount.Floor);
      BareNumbersDoNotMatch(Decimal(amount.Floor), Suffix(amount, isRent));
      NoMatch(FormatPrice(amount, h, isRent), 0);
    }
  }

  lemma BareNumbersDoNotMatch(whole: string, suffix: string)
    requires (suffix == "" || suffix == "/month") && forall k :: 0 <= k < |whole| ==> IsDigit(whole[k])
    ensures var s := ['\U{20B9}'] + whole + suffix; forall k :: 0 <= k < |s| ==> MatchAt(s, k).None?
  {
    var s := ['\U{20B9}'] + whole + suffix;
    var e := 1 + |whole|;
    assert s[1..e] == whole && s[e..] == suffix;
    At(s, 1, e, whole);
    At(s, e, |s|, suffix);
    forall k | 0 <= k < |s| ensures MatchAt(s, k).None? {
      if IsRun(s[k]) { BareNumber(s, k, e, suffix); }
    }
  }

  lemma OnRequestHasNoNumber()
    ensures var s := "Price on request"; forall k :: 0 <= k < |s| ==> !IsRun(s[k])
  {
  }

  lemma BareNumber(s: string, i: nat, e: nat, suffix: string)
    requires i < e <= |s| && s[e..] == suffix && (suffix == "" || suffix == "/month")
    requires forall k :: i <= k < e ==> IsRun(s[k])
    ensures MatchAt(s, i).None?
  {
    SpanEndIs(s, i, e, IsRun);
    assert FracEnd(s, e) == e;
    SpanEndIs(s, e, e, IsSpace);
    if suffix == "" {
      SpanEndIs(s, e, e, IsJoin);
      SpanEndIs(s, e, e, IsWord);
    } else {
      assert forall k :: 0 <= k < 6 ==> s[e + k] == suffix[k];
      SpanEndIs(s, e, e + 1, IsJoin);
      SpanEndIs(s, e + 1, e + 1, IsSpace);
      SpanEndIs(s, e + 1, |s|, IsWord);
      assert |WordAt(s, e + 1)| == 5 && WordAt(s, e + 1)[0] == 'm';
    }
  }

  lemma {:induction false} NoMatch(s: string, i: nat)
    requires i <= |s| && forall k :: i <= k < |s| ==> MatchAt(s, k).None?
    ensures Search(s, i).None?
    decreases |s| - i
  {
    if i < |s| { NoMatch(s, i + 1); }
  }

  lemma MisreadIsFar(amount: real, h: nat)
    requires amount >= 1000.0 && Rounded(amount / 1000.0, h)
    ensures Gap(h as real * 1000.0, amount) > 5.0
  {
    assert amount / 1000.0 >= 1.0;
    assert h >= 100;
  }

  // A rental reading takes a small decimal K for lakhs, and any other price as it is.
  lemma RentalReads(s: string, fallback: Option<real>, rentWord: bool, plainUnit: bool, x: Option<real>)
    requires ParseExplicitPrice(s).Some? && Shorthand(s, 0) == x
    ensures RentalPrice(s, fallback, rentWord, plainUnit) ==
            if x.Some? && x.value < 5.0 then Some(x.value * 100000.0) else CanonicalPrice(s, fallback)
  {
  }

  lemma FormatReadsAsRent(amount: real, h: nat, isRent: bool, fallback: Option<real>, rentWord: bool, plainUnit: bool)
    requires ScaleOf(amount).Some?
    ensures RentalPrice(FormatPrice(amount, h, isRent), fallback, rentWord, plainUnit) ==
            if ScaleOf(amount).value == K && h % 100 != 0 && h as real / 100.0 < 5.0
            then Some(h as real / 100.0 * 100000.0)
            else CanonicalPrice(FormatPrice(amount, h, isRent), fallback)
  {
    var scale := ScaleOf(amount).value;
    var s := Display(h, scale, Suffix(amount, isRent));
    DisplayReads(h, scale, Suffix(amount, isRent));
    DisplayReadsShort(h, scale, Suffix(amount, isRent));
    RentalReads(s, fallback, rentWord, plainUnit, Shorthand(s, 0));
  }

  // Read as a rent, the round trip holds for every printed amount but one kind: a K amount printed
  // with a decimal point and below five, which comes back a hundred times too large.
  lemma RentRoundTripIff(amount: real, h: nat, isRent: bool, fallback: Option<real>, rentWord: bool, plainUnit: bool)
    requires ScaleOf(amount).Some? && Rounded(amount / Divisor(ScaleOf(amount).value) as real, h)
    ensures var scale := ScaleOf(amount).value;
            var back := RentalPrice(FormatPrice(amount, h, isRent), fallback, rentWord, plainUnit);
            var misread := scale == K && h % 100 != 0 && h < 500;
            && back.Some?
            && (Gap(back.value, amount) <= Divisor(scale) as real / 200.0 <==> !misread)
            && (misread ==> back.value == h as real * 1000.0)
  {
    FormatReadsAsRent(amount, h, isRent, fallback, rentWord, plainUnit);
    BelowFive(h);
    if ScaleOf(amount).value == K && h % 100 != 0 && h < 500 {
      MisreadIsFar(amount, h);
    } else {
      PriceRoundTrip(amount, h, isRent, fallback);
    }
  }

  lemma BelowFive(h: nat)
    ensures h as real / 100.0 < 5.0 <==> h < 500
    ensures h as real / 100.0 * 100000.0 == h as real * 1000.0
  {
  }
}
