/**
 The version comparator of the updater.  The index loops of the source are the
 methods at the end; each is proved against the precedence of section 11 of
 Semantic Versioning 2.0.0, taken on the version a string denotes.
 */
module Semver {
  import opened Order

  datatype Ident = Num(value: nat) | Alpha(text: string)

  datatype Prerelease = Release | Pre(idents: seq<Ident>)

  datatype Version = Version(major: nat, minor: nat, patch: nat, pre: Prerelease)

  // ---------- precedence of section 11 ----------

  function CharOrder(c: char, d: char): int {
    Sign(c as int - d as int)
  }

  function TextOrder(s: string, t: string): int {
    Lex(CharOrder, s, t)
  }

  /** Numeric identifiers compare as numbers and come before alphanumeric ones. */
  function IdentOrder(x: Ident, y: Ident): int {
    match (x, y)
    case (Num(m), Num(n)) => Sign(m - n)
    case (Num(_), Alpha(_)) => -1
    case (Alpha(_), Num(_)) => 1
    case (Alpha(s), Alpha(t)) => TextOrder(s, t)
  }

  /** A pre-release comes before its release; otherwise identifier by identifier. */
  function PreOrder(p: Prerelease, q: Prerelease): int {
    match (p, q)
    case (Release, Release) => 0
    case (Release, Pre(_)) => 1
    case (Pre(_), Release) => -1
    case (Pre(xs), Pre(ys)) => Lex(IdentOrder, xs, ys)
  }

  function Precedence(v: Version, w: Version): int {
    if v.major != w.major then Sign(v.major - w.major)
    else if v.minor != w.minor then Sign(v.minor - w.minor)
    else if v.patch != w.patch then Sign(v.patch - w.patch)
    else PreOrder(v.pre, w.pre)
  }

  lemma TextOrderIsTotalPreorder()
    ensures IsTotalPreorder(TextOrder)
  {
    assert IsTotalPreorder(CharOrder);
    LexIsTotalPreorder(CharOrder);
    var lex := (s, t) => Lex(CharOrder, s, t);
    assert forall s, t :: TextOrder(s, t) == lex(s, t);
  }

  lemma IdentOrderIsTotalPreorder()
    ensures IsTotalPreorder(IdentOrder)
  {
    TextOrderIsTotalPreorder();
  }

  lemma PreOrderAntisymmetric(p: Prerelease, q: Prerelease)
    ensures -1 <= PreOrder(p, q) <= 1 && PreOrder(p, q) == -PreOrder(q, p)
  {
    if p.Pre? && q.Pre? {
      IdentOrderIsTotalPreorder();
      LexAntisymmetric(IdentOrder, p.idents, q.idents);
    }
  }

  lemma PreOrderTransitive(p: Prerelease, q: Prerelease, r: Prerelease)
    requires PreOrder(p, q) <= 0 && PreOrder(q, r) <= 0
    ensures PreOrder(p, r) <= 0
  {
    if p.Pre? && q.Pre? && r.Pre? {
      IdentOrderIsTotalPreorder();
      LexTransitive(IdentOrder, p.idents, q.idents, r.idents);
    }
  }

  lemma PreOrderIsTotalPreorder()
    ensures IsTotalPreorder(PreOrder)
  {
    forall p, q ensures -1 <= PreOrder(p, q) <= 1 && PreOrder(p, q) == -PreOrder(q, p) {
      PreOrderAntisymmetric(p, q);
    }
    forall p, q, r | PreOrder(p, q) <= 0 && PreOrder(q, r) <= 0 ensures PreOrder(p, r) <= 0 {
      PreOrderTransitive(p, q, r);
    }
  }

  lemma PrecedenceIsTotalPreorder()
    ensures IsTotalPreorder(Precedence)
  {
    PreOrderIsTotalPreorder();
  }

  // ---------- the version a string denotes ----------

  /** The first position of `c`, or the length when there is none. */
  function Find(s: string, c: char): (i: nat)
    ensures i <= |s| && c !in s[..i]
    ensures i < |s| ==> s[i] == c
  {
    if s == [] || s[0] == c then 0 else 1 + Find(s[1..], c)
  }

  function SplitDots(s: string): (parts: seq<string>)
    ensures |parts| >= 1
    decreases |s|
  {
    var dot := Find(s, '.');
    if dot == |s| then [s] else [s[..dot]] + SplitDots(s[dot + 1..])
  }

  predicate IsDigit(c: char) {
    '0' <= c <= '9'
  }

  predicate AllDigits(s: string) {
    forall i :: 0 <= i < |s| ==> IsDigit(s[i])
  }

  predicate IsNumeric(s: string) {
    s != [] && AllDigits(s)
  }

  function Value(s: string): nat
    requires AllDigits(s)
  {
    if s == [] then 0 else 10 * Value(s[..|s| - 1]) + (s[|s| - 1] as int - '0' as int)
  }

  function IdentOf(s: string): Ident {
    if IsNumeric(s) then Num(Value(s)) else Alpha(s)
  }

  function IdentsOf(parts: seq<string>): seq<Ident> {
    seq(|parts|, i requires 0 <= i < |parts| => IdentOf(parts[i]))
  }

  function PrereleaseOf(s: string): Prerelease {
    if s == "" then Release else Pre(IdentsOf(SplitDots(s)))
  }

  /** Component `i` of a core; a missing or malformed one reads as zero. */
  function ComponentText(parts: seq<string>, i: nat): (s: string)
    ensures IsNumeric(s)
  {
    if i < |parts| && IsNumeric(parts[i]) then parts[i] else "0"
  }

  function Component(parts: seq<string>, i: nat): nat {
    Value(ComponentText(parts, i))
  }

  function CoreText(s: string): string {
    s[..Find(s, '-')]
  }

  function PreText(s: string): string {
    if Find(s, '-') == |s| then "" else s[Find(s, '-') + 1..]
  }

  function Parse(s: string): Version {
    var parts := SplitDots(CoreText(s));
    Version(Component(parts, 0), Component(parts, 1), Component(parts, 2), PrereleaseOf(PreText(s)))
  }

  function SemverOrder(a: string, b: string): int {
    Precedence(Parse(a), Parse(b))
  }

  /** On every pair and triple of strings, well-formed or not. */
  lemma SemverOrderIsTotalPreorder()
    ensures IsTotalPreorder(SemverOrder)
  {
    PrecedenceIsTotalPreorder();
  }

  // ---------- digit strings compare as numbers ----------

  function Pow10(n: nat): (p: nat)
    ensures p >= 1
  {
    if n == 0 then 1 else 10 * Pow10(n - 1)
  }

  lemma {:induction false} ValueFromFront(s: string)
    requires IsNumeric(s)
    ensures Value(s) == (s[0] as int - '0' as int) * Pow10(|s| - 1) + Value(s[1..])
  {
    if |s| > 1 {
      var front := s[..|s| - 1];
      ValueFromFront(front);
      assert front[1..] == s[1..][..|s| - 2];
      var d := s[0] as int - '0' as int;
      assert d * Pow10(|s| - 1) == 10 * (d * Pow10(|s| - 2)) by {
        assert Pow10(|s| - 1) == 10 * Pow10(|s| - 2);
      }
    }
  }

  lemma {:induction false} ValueBelow(s: string)
    requires AllDigits(s)
    ensures Value(s) < Pow10(|s|)
  {
    if s != [] {
      ValueBelow(s[..|s| - 1]);
    }
  }

  lemma {:induction false} Pow10Monotone(m: nat, n: nat)
    requires m <= n
    ensures Pow10(m) <= Pow10(n)
  {
    if m < n {
      Pow10Monotone(m, n - 1);
    }
  }

  function StripZeros(s: string): (t: string)
    ensures AllDigits(s) ==> AllDigits(t)
    ensures s != [] ==> t != []
    ensures |t| > 1 ==> t[0] != '0'
  {
    if |s| > 1 && s[0] == '0' then StripZeros(s[1..]) else s
  }

  lemma {:induction false} StripZerosKeepsValue(s: string)
    requires IsNumeric(s)
    ensures Value(StripZeros(s)) == Value(s)
  {
    if |s| > 1 && s[0] == '0' {
      ValueFromFront(s);
      StripZerosKeepsValue(s[1..]);
    }
  }

  /** Shorter digit strings first, equal lengths by text: what the loop decides. */
  function StrippedOrder(x: string, y: string): int {
    if |x| != |y| then Sign(|x| - |y|) else TextOrder(x, y)
  }

  lemma LeadingDigitDecides(d: int, e: int, p: int, u: int, v: int)
    requires d < e && 0 <= u < p && 0 <= v
    ensures d * p + u < e * p + v
  {
    assert (e - d - 1) * p >= 0;
    assert e * p == d * p + p + (e - d - 1) * p;
  }

  lemma {:induction false} SameLengthOrder(x: string, y: string)
    requires AllDigits(x) && AllDigits(y) && |x| == |y|
    ensures TextOrder(x, y) == Sign(Value(x) - Value(y))
  {
    if x != [] {
      ValueFromFront(x);
      ValueFromFront(y);
      ValueBelow(x[1..]);
      ValueBelow(y[1..]);
      SameLengthOrder(x[1..], y[1..]);
      var p := Pow10(|x| - 1);
      var dx, dy := x[0] as int - '0' as int, y[0] as int - '0' as int;
      if dx < dy {
        LeadingDigitDecides(dx, dy, p, Value(x[1..]), Value(y[1..]));
      } else if dy < dx {
        LeadingDigitDecides(dy, dx, p, Value(y[1..]), Value(x[1..]));
      }
    }
  }

  lemma {:induction false} LongerIsLarger(x: string, y: string)
    requires IsNumeric(x) && AllDigits(y) && |x| < |y| && y[0] != '0'
    ensures Value(x) < Value(y)
  {
    ValueBelow(x);
    ValueFromFront(y);
    Pow10Monotone(|x|, |y| - 1);
    LeadingDigitDecides(0, y[0] as int - '0' as int, Pow10(|y| - 1), Value(x), Value(y[1..]));
  }

  /** At any length, with any number of leading zeros. */
  lemma {:induction false} DigitOrderIsNaturalOrder(a: string, b: string)
    requires IsNumeric(a) && IsNumeric(b)
    ensures StrippedOrder(StripZeros(a), StripZeros(b)) == Sign(Value(a) - Value(b))
  {
    StripZerosKeepsValue(a);
    StripZerosKeepsValue(b);
    StrippedOrderIsNatural(StripZeros(a), StripZeros(b));
  }

  lemma {:induction false} StrippedOrderIsNatural(x: string, y: string)
    requires IsNumeric(x) && IsNumeric(y) && (|x| > 1 ==> x[0] != '0') && (|y| > 1 ==> y[0] != '0')
    ensures StrippedOrder(x, y) == Sign(Value(x) - Value(y))
  {
    if |x| == |y| {
      SameLengthOrder(x, y);
    } else if |x| < |y| {
      LongerIsLarger(x, y);
    } else {
      LongerIsLarger(y, x);
    }
  }

  // ---------- rendering well-formed versions ----------

  function Digits(n: nat): (s: string)
    ensures IsNumeric(s) && Value(s) == n
  {
    var last := [('0' as int + n % 10) as char];
    if n < 10 then last
    else
      var s := Digits(n / 10) + last;
      assert s[..|s| - 1] == Digits(n / 10);
      s
  }

  predicate IdentChar(c: char) {
    IsDigit(c) || 'a' <= c <= 'z' || 'A' <= c <= 'Z' || c == '-'
  }

  predicate WellFormedIdent(x: Ident) {
    x.Alpha? ==> x.text != "" && !AllDigits(x.text) && forall i :: 0 <= i < |x.text| ==> IdentChar(x.text[i])
  }

  predicate WellFormed(v: Version) {
    v.pre.Pre? ==> v.pre.idents != [] && forall i :: 0 <= i < |v.pre.idents| ==> WellFormedIdent(v.pre.idents[i])
  }

  function RenderIdent(x: Ident): string {
    match x
    case Num(n) => Digits(n)
    case Alpha(s) => s
  }

  function RenderIdents(xs: seq<Ident>): string
    requires xs != []
  {
    if |xs| == 1 then RenderIdent(xs[0]) else RenderIdent(xs[0]) + "." + RenderIdents(xs[1..])
  }

  function RenderCore(v: Version): string {
    Digits(v.major) + "." + (Digits(v.minor) + "." + Digits(v.patch))
  }

  function Render(v: Version): string
    requires WellFormed(v)
  {
    match v.pre
    case Release => RenderCore(v)
    case Pre(xs) => RenderCore(v) + "-" + RenderIdents(xs)
  }

  lemma {:induction false} FindAfter(s: string, c: char, t: string)
    requires c !in s
    ensures Find(s + t, c) == |s| + Find(t, c)
  {
    if s == [] {
      assert s + t == t;
    } else {
      assert (s + t)[1..] == s[1..] + t;
      FindAfter(s[1..], c, t);
    }
  }

  lemma FindAbsent(s: string, c: char)
    requires c !in s
    ensures Find(s, c) == |s|
  {
  }

  lemma {:induction false} SplitFirst(s: string, t: string)
    requires '.' !in s
    ensures SplitDots(s) == [s]
    ensures SplitDots(s + "." + t) == [s] + SplitDots(t)
  {
    FindAbsent(s, '.');
    FindAfter(s, '.', "." + t);
    var whole := s + "." + t;
    assert whole == s + ("." + t);
    assert whole[..|s|] == s && whole[|s| + 1..] == t;
  }

  lemma IdentRoundTrip(x: Ident)
    requires WellFormedIdent(x)
    ensures IdentOf(RenderIdent(x)) == x
    ensures '.' !in RenderIdent(x) && RenderIdent(x) != ""
  {
  }

  lemma {:induction false} SplitIdents(xs: seq<Ident>)
    requires xs != [] && forall i :: 0 <= i < |xs| ==> WellFormedIdent(xs[i])
    ensures IdentsOf(SplitDots(RenderIdents(xs))) == xs
    ensures RenderIdents(xs) != ""
  {
    IdentRoundTrip(xs[0]);
    if |xs| == 1 {
      SplitFirst(RenderIdent(xs[0]), "");
    } else {
      SplitIdents(xs[1..]);
      SplitIdentsStep(xs[0], RenderIdents(xs[1..]));
    }
  }

  lemma {:induction false} SplitIdentsStep(x: Ident, rest: string)
    requires WellFormedIdent(x)
    ensures IdentsOf(SplitDots(RenderIdent(x) + "." + rest)) == [x] + IdentsOf(SplitDots(rest))
  {
    IdentRoundTrip(x);
    SplitFirst(RenderIdent(x), rest);
  }

  lemma DigitsHaveNoPunctuation(n: nat)
    ensures '.' !in Digits(n) && '-' !in Digits(n)
  {
  }

  lemma {:induction false} SplitCore(v: Version, tail: string)
    ensures SplitDots(RenderCore(v) + tail) == [Digits(v.major), Digits(v.minor)] + SplitDots(Digits(v.patch) + tail)
  {
    var a, b, c := Digits(v.major), Digits(v.minor), Digits(v.patch);
    DigitsHaveNoPunctuation(v.major);
    DigitsHaveNoPunctuation(v.minor);
    SplitThree(a, b, c + tail);
    assert a + "." + (b + "." + c) + tail == a + "." + (b + "." + (c + tail));
  }

  lemma {:induction false} SplitThree(a: string, b: string, c: string)
    requires '.' !in a && '.' !in b
    ensures SplitDots(a + "." + (b + "." + c)) == [a, b] + SplitDots(c)
  {
    SplitFirst(b, c);
    SplitFirst(a, b + "." + c);
  }

  lemma CoreHasNoDash(v: Version)
    ensures '-' !in RenderCore(v)
  {
    DigitsHaveNoPunctuation(v.major);
    DigitsHaveNoPunctuation(v.minor);
    DigitsHaveNoPunctuation(v.patch);
  }

  lemma {:induction false} SplitAtDash(core: string, rest: string)
    requires '-' !in core
    ensures CoreText(core) == core && PreText(core) == ""
    ensures CoreText(core + "-" + rest) == core && PreText(core + "-" + rest) == rest
  {
    FindAbsent(core, '-');
    FindAfter(core, '-', "-" + rest);
    assert core + "-" + rest == core + ("-" + rest);
  }

  lemma ComponentOf(parts: seq<string>, i: nat, n: nat)
    requires i < |parts| && parts[i] == Digits(n)
    ensures Component(parts, i) == n
  {
    assert ComponentText(parts, i) == Digits(n);
  }

  lemma LastComponentOf(parts: seq<string>, i: nat, c: string)
    requires i < |parts| && parts[i] == c
    ensures Component(parts, i) == if IsNumeric(c) then Value(c) else 0
  {
    assert Value("0") == 0;
  }

  lemma {:induction false} ComponentsOf(parts: seq<string>, a: nat, b: nat, c: string)
    requires |parts| >= 3 && parts[0] == Digits(a) && parts[1] == Digits(b) && parts[2] == c
    ensures Component(parts, 0) == a && Component(parts, 1) == b
    ensures Component(parts, 2) == if IsNumeric(c) then Value(c) else 0
  {
    ComponentOf(parts, 0, a);
    ComponentOf(parts, 1, b);
    LastComponentOf(parts, 2, c);
  }

  lemma {:induction false} ParseRender(v: Version)
    requires WellFormed(v)
    ensures Parse(Render(v)) == v
  {
    var core := RenderCore(v);
    SplitCore(v, "");
    assert core + "" == core;
    assert Digits(v.patch) + "" == Digits(v.patch);
    DigitsHaveNoPunctuation(v.patch);
    SplitFirst(Digits(v.patch), "");
    ComponentsOf([Digits(v.major), Digits(v.minor), Digits(v.patch)], v.major, v.minor, Digits(v.patch));
    CoreHasNoDash(v);
    match v.pre {
      case Release => SplitAtDash(core, "");
      case Pre(xs) =>
        SplitAtDash(core, RenderIdents(xs));
        SplitIdents(xs);
    }
  }

  /** On well-formed versions without build metadata the string order is section 11. */
  lemma WellFormedOrderIsPrecedence(v: Version, w: Version)
    requires WellFormed(v) && WellFormed(w)
    ensures SemverOrder(Render(v), Render(w)) == Precedence(v, w)
  {
    ParseRender(v);
    ParseRender(w);
  }

  // ---------- build metadata ----------

  lemma {:induction false} LexZero<T(!new)>(cmp: (T, T) -> int, xs: seq<T>, ys: seq<T>)
    requires forall x, y :: cmp(x, y) == 0 <==> x == y
    ensures Lex(cmp, xs, ys) == 0 <==> xs == ys
  {
    if xs != [] && ys != [] {
      LexZero(cmp, xs[1..], ys[1..]);
      assert xs == [xs[0]] + xs[1..] && ys == [ys[0]] + ys[1..];
    }
  }

  lemma {:induction false} IdentOrderZero(x: Ident, y: Ident)
    ensures IdentOrder(x, y) == 0 <==> x == y
  {
    if x.Alpha? && y.Alpha? {
      LexZero(CharOrder, x.text, y.text);
    }
  }

  /** Two versions have the same precedence only if they are the same. */
  lemma {:induction false} PrecedenceZero(v: Version, w: Version)
    ensures Precedence(v, w) == 0 <==> v == w
  {
    forall x, y ensures IdentOrder(x, y) == 0 <==> x == y {
      IdentOrderZero(x, y);
    }
    if v.pre.Pre? && w.pre.Pre? {
      LexZero(IdentOrder, v.pre.idents, w.pre.idents);
    }
  }

  /** The first part of a text in which a plus follows a stretch without dots has the plus too. */
  lemma {:induction false} PlusStays(s: string, build: string)
    requires '.' !in s
    ensures var first := SplitDots(s + "+" + build)[0]; |s| < |first| && first[|s|] == '+'
  {
    var whole := s + "+" + build;
    assert whole == (s + "+") + build;
    FindAfter(s + "+", '.', build);
    var dot := Find(whole, '.');
    assert whole[..dot][|s|] == '+';
  }

  /** Behind a release, build metadata makes the patch malformed, and a hyphen in it starts a pre-release. */
  lemma {:induction false} ReleaseWithBuild(v: Version, build: string)
    requires v.pre == Release
    ensures Parse(RenderCore(v) + "+" + build) == v.(patch := 0, pre := PrereleaseOf(PreText(build)))
  {
    var core := RenderCore(v) + "+";
    var whole := core + build;
    CoreHasNoDash(v);
    FindAfter(core, '-', build);
    assert CoreText(whole) == core + CoreText(build);
    assert PreText(whole) == PreText(build);
    CoreWithBuild(v, CoreText(build));
  }

  lemma {:induction false} CoreWithBuild(v: Version, build: string)
    ensures var parts := SplitDots(RenderCore(v) + "+" + build);
            Component(parts, 0) == v.major && Component(parts, 1) == v.minor && Component(parts, 2) == 0
  {
    var core, patch := RenderCore(v), Digits(v.patch);
    SplitCore(v, "+" + build);
    assert core + "+" + build == core + ("+" + build) && patch + "+" + build == patch + ("+" + build);
    DigitsHaveNoPunctuation(v.patch);
    PlusStays(patch, build);
    var parts := SplitDots(core + "+" + build);
    assert !AllDigits(parts[2]);
    ComponentsOf(parts, v.major, v.minor, parts[2]);
  }

  /** Behind a pre-release it changes the last identifier. */
  lemma {:induction false} LastIdentMarred(xs: seq<Ident>, build: string)
    requires xs != [] && forall i :: 0 <= i < |xs| ==> WellFormedIdent(xs[i])
    ensures IdentsOf(SplitDots(RenderIdents(xs) + "+" + build)) != xs
  {
    IdentRoundTrip(xs[0]);
    var r := RenderIdent(xs[0]);
    if |xs| == 1 {
      PlusStays(r, build);
      var first := SplitDots(r + "+" + build)[0];
      assert !AllDigits(first) && first != r;
      assert IdentsOf(SplitDots(r + "+" + build))[0] == Alpha(first) != xs[0];
    } else {
      var rest := RenderIdents(xs[1..]);
      LastIdentMarred(xs[1..], build);
      assert RenderIdents(xs) + "+" + build == r + "." + (rest + "+" + build);
      SplitIdentsStep(xs[0], rest + "+" + build);
      assert IdentsOf(SplitDots(r + "." + (rest + "+" + build)))[1..] == IdentsOf(SplitDots(rest + "+" + build));
    }
  }

  lemma {:induction false} PreWithBuild(v: Version, build: string)
    requires WellFormed(v) && v.pre.Pre?
    ensures Parse(Render(v) + "+" + build).pre != v.pre
  {
    var core, rest := RenderCore(v), RenderIdents(v.pre.idents) + "+" + build;
    CoreHasNoDash(v);
    SplitAtDash(core, rest);
    assert Render(v) + "+" + build == core + "-" + rest;
    LastIdentMarred(v.pre.idents, build);
  }

  /**
   Build metadata, which section 11 ignores, is not ignored here.  For every version and
   every metadata, it keeps the precedence exactly behind a release whose patch is zero,
   and with nothing after a first hyphen of its own.
   */
  lemma {:induction false} BuildMetadataKeepsOrderIff(v: Version, build: string)
    requires WellFormed(v)
    ensures SemverOrder(Render(v) + "+" + build, Render(v)) == 0 <==>
            v.pre == Release && v.patch == 0 && PreText(build) == ""
  {
    ParseRender(v);
    PrecedenceZero(Parse(Render(v) + "+" + build), v);
    if v.pre == Release {
      ReleaseWithBuild(v, build);
    } else {
      PreWithBuild(v, build);
    }
  }

  lemma SmallDigits()
    ensures Digits(0) == "0" && Digits(1) == "1" && Digits(2) == "2" && Digits(3) == "3"
  {
    assert Digits(0) == "0";
  }

  /** A patch that is not zero, a hyphen in the metadata, a pre-release: each changes the order. */
  lemma BuildBehindPatch()
    ensures SemverOrder("1.2.3" + "+" + "5", "1.2.3") != 0
  {
    SmallDigits();
    var v := Version(1, 2, 3, Release);
    assert Render(v) == "1.2.3";
    BuildMetadataKeepsOrderIff(v, "5");
  }

  lemma BuildWithHyphen()
    ensures SemverOrder("1.2.0" + "+" + "a-b", "1.2.0") != 0
  {
    SmallDigits();
    var v := Version(1, 2, 0, Release);
    assert Render(v) == "1.2.0";
    assert PreText("a-b") == "b" by {
      SplitAtDash("a", "b");
      assert "a" + "-" + "b" == "a-b";
    }
    BuildMetadataKeepsOrderIff(v, "a-b");
  }

  lemma BetaRenders()
    ensures var v := Version(1, 0, 0, Pre([Alpha("beta")])); WellFormed(v) && Render(v) == "1.0.0-beta"
  {
    SmallDigits();
    assert "beta"[0] == 'b';
    assert "1" + "." + ("0" + "." + "0") + "-" + "beta" == "1.0.0-beta";
  }

  lemma BuildBehindPrerelease()
    ensures SemverOrder("1.0.0-beta" + "+" + "exp.sha.5114f85", "1.0.0-beta") != 0
  {
    BetaRenders();
    BuildMetadataKeepsOrderIff(Version(1, 0, 0, Pre([Alpha("beta")])), "exp.sha.5114f85");
  }

  // ---------- the loops of the source ----------

  lemma {:induction false} SplitStep(s: string, start: nat)
    requires start <= |s|
    ensures var dot := start + Find(s[start..], '.');
            if dot == |s| then SplitDots(s[start..]) == [s[start..]]
            else SplitDots(s[start..]) == [s[start..dot]] + SplitDots(s[dot + 1..])
  {
    var rest := s[start..];
    var d := Find(rest, '.');
    if d < |rest| {
      assert rest[..d] == s[start..start + d];
      assert rest[d + 1..] == s[start + d + 1..];
    }
  }

  lemma {:induction false} SplitTurn(parts: seq<string>, s: string, start: nat)
    requires start <= |s|
    ensures var dot := start + Find(s[start..], '.');
            parts + SplitDots(s[start..]) ==
            if dot == |s| then parts + [s[start..]] else parts + [s[start..dot]] + SplitDots(s[dot + 1..])
  {
    SplitStep(s, start);
  }

  method SplitAtDots(s: string) returns (parts: seq<string>)
    ensures parts == SplitDots(s)
  {
    parts := [];
    var start := 0;
    var done := false;
    assert s[0..] == s;
    while !done
      invariant 0 <= start <= |s|
      invariant done ==> parts == SplitDots(s)
      invariant !done ==> parts + SplitDots(s[start..]) == SplitDots(s)
      decreases !done, |s| - start
    {
      SplitTurn(parts, s, start);
      var dot := start + Find(s[start..], '.');
      if dot == |s| {
        parts, done := parts + [s[start..]], true;
      } else {
        parts, start := parts + [s[start..dot]], dot + 1;
      }
    }
  }

  method IdentIsNumeric(s: string) returns (numeric: bool)
    ensures numeric <==> IsNumeric(s)
  {
    if s == [] {
      return false;
    }
    for i := 0 to |s|
      invariant forall j :: 0 <= j < i ==> IsDigit(s[j])
    {
      if s[i] < '0' || s[i] > '9' {
        return false;
      }
    }
    return true;
  }

  method SkipZeros(s: string) returns (i: nat)
    ensures i <= |s| && StripZeros(s) == s[i..]
  {
    i := 0;
    while i + 1 < |s| && s[i] == '0'
      invariant 0 <= i <= |s|
      invariant StripZeros(s[i..]) == StripZeros(s)
    {
      assert s[i..][1..] == s[i + 1..];
      i := i + 1;
    }
  }

  lemma TextOrderRange(s: string, t: string)
    ensures -1 <= TextOrder(s, t) <= 1
  {
    LexAntisymmetric(CharOrder, s, t);
  }

  method CompareNumericIdent(a: string, b: string) returns (c: int)
    ensures IsNumeric(a) && IsNumeric(b) ==> c == Sign(Value(a) - Value(b))
    ensures c == StrippedOrder(StripZeros(a), StripZeros(b))
  {
    var ai := SkipZeros(a);
    var bi := SkipZeros(b);
    var alen, blen := |a| - ai, |b| - bi;
    if IsNumeric(a) && IsNumeric(b) {
      DigitOrderIsNaturalOrder(a, b);
    }
    if alen != blen {
      return if alen < blen then -1 else 1;
    }
    TextOrderRange(a[ai..], b[bi..]);
    return TextOrder(a[ai..], b[bi..]);
  }

  lemma LexStep(xs: seq<Ident>, ys: seq<Ident>, i: nat)
    requires i < |xs| && i < |ys|
    ensures Lex(IdentOrder, xs[i..], ys[i..])
         == if IdentOrder(xs[i], ys[i]) != 0 then IdentOrder(xs[i], ys[i])
            else Lex(IdentOrder, xs[i + 1..], ys[i + 1..])
  {
    assert xs[i..][1..] == xs[i + 1..] && ys[i..][1..] == ys[i + 1..];
  }

  method ComparePrerelease(a: string, b: string) returns (c: int)
    ensures c == PreOrder(PrereleaseOf(a), PrereleaseOf(b))
  {
    if a == "" && b == "" {
      return 0;
    }
    if a == "" {
      return 1;
    }
    if b == "" {
      return -1;
    }
    var av := SplitAtDots(a);
    var bv := SplitAtDots(b);
    ghost var xs, ys := IdentsOf(av), IdentsOf(bv);
    var n := if |av| < |bv| then |av| else |bv|;
    for i := 0 to n
      invariant Lex(IdentOrder, xs, ys) == Lex(IdentOrder, xs[i..], ys[i..])
    {
      LexStep(xs, ys, i);
      TextOrderRange(av[i], bv[i]);
      var an := IdentIsNumeric(av[i]);
      var bn := IdentIsNumeric(bv[i]);
      if an && bn {
        var d := CompareNumericIdent(av[i], bv[i]);
        if d != 0 {
          return d;
        }
      } else if an != bn {
        return if an then -1 else 1;
      } else {
        if TextOrder(av[i], bv[i]) < 0 {
          return -1;
        }
        if TextOrder(av[i], bv[i]) > 0 {
          return 1;
        }
      }
    }
    if |av| != |bv| {
      return if |av| < |bv| then -1 else 1;
    }
    return 0;
  }

  /** The first differing component from `i` on decides; zero when there is none. */
  function CoreOrder(ac: seq<string>, bc: seq<string>, i: nat): int
    requires i <= 3
    decreases 3 - i
  {
    if i == 3 then 0
    else if Component(ac, i) != Component(bc, i) then Sign(Component(ac, i) - Component(bc, i))
    else CoreOrder(ac, bc, i + 1)
  }

  lemma {:induction false} CoreOrderDecides(a: string, b: string)
    ensures var core := CoreOrder(SplitDots(CoreText(a)), SplitDots(CoreText(b)), 0);
            SemverOrder(a, b) == if core != 0 then core
                                 else PreOrder(PrereleaseOf(PreText(a)), PrereleaseOf(PreText(b)))
  {
    var ac, bc := SplitDots(CoreText(a)), SplitDots(CoreText(b));
    assert CoreOrder(ac, bc, 2) == Sign(Component(ac, 2) - Component(bc, 2));
  }

  method CompareSemver(a: string, b: string) returns (c: int)
    ensures c == SemverOrder(a, b)
  {
    c := CompareCore(a, b);
    CoreOrderDecides(a, b);
    if c == 0 {
      c := ComparePrerelease(PreText(a), PreText(b));
    }
  }

  method CompareCore(a: string, b: string) returns (c: int)
    ensures c == CoreOrder(SplitDots(CoreText(a)), SplitDots(CoreText(b)), 0)
  {
    var ac := SplitAtDots(CoreText(a));
    var bc := SplitAtDots(CoreText(b));
    for i := 0 to 3
      invariant CoreOrder(ac, bc, 0) == CoreOrder(ac, bc, i)
    {
      var d := CompareComponent(ac, bc, i);
      if d != 0 {
        return d;
      }
    }
    return 0;
  }

  method CompareComponent(ac: seq<string>, bc: seq<string>, i: nat) returns (d: int)
    requires i < 3
    ensures d == Sign(Component(ac, i) - Component(bc, i))
    ensures CoreOrder(ac, bc, i) == if d != 0 then d else CoreOrder(ac, bc, i + 1)
  {
    d := CompareNumericIdent(ComponentText(ac, i), ComponentText(bc, i));
  }
}
