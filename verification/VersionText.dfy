/**
  What the comparison says about version strings: which text decides between two of them, and
  which way.
 */
module VersionText {
  import opened Common
  import Decimal
  import opened Version

  predicate Without(s: string, c: char) { forall i :: 0 <= i < |s| ==> s[i] != c }

  /** Neither a pre-release nor build metadata. */
  predicate Bare(s: string) { Without(s, '-') && Without(s, '+') }

  // ----- reading a prefix -----

  lemma {:induction false} IndexPast(p: string, r: string, c: char)
    requires Without(p, c)
    ensures IndexOf(p + r, c) == |p| + IndexOf(r, c)
  {
    if p == "" {
      assert p + r == r;
    } else {
      assert (p + r)[1..] == p[1..] + r;
      IndexPast(p[1..], r, c);
    }
  }

  lemma CutPast(p: string, r: string, c: char)
    requires Without(p, c)
    ensures Cut(p + r, c) == (p + Cut(r, c).0, Cut(r, c).1)
  {
    IndexPast(p, r, c);
    var i := IndexOf(r, c);
    assert (p + r)[..|p| + i] == p + r[..i];
    if i < |r| { assert (p + r)[|p| + i + 1..] == r[i + 1..]; }
  }

  lemma CutAt(p: string, r: string, c: char)
    requires Without(p, c)
    ensures Cut(p + [c] + r, c) == (p, r) && Cut(p, c) == (p, "")
  {
    assert p + [c] + r == p + ([c] + r);
    CutPast(p, [c] + r, c);
    assert Cut([c] + r, c) == ("", r);
    assert p + "" == p;
    CutPast(p, "", c);
  }

  lemma SplitStep(p: string, r: string, c: char)
    requires Without(p, c)
    ensures Split(p + [c] + r, c) == [p] + Split(r, c)
  {
    var s := p + [c] + r;
    assert s == p + ([c] + r);
    IndexPast(p, [c] + r, c);
    assert IndexOf([c] + r, c) == 0;
    assert IndexOf(s, c) == |p| < |s| && s[..|p|] == p && s[|p| + 1..] == r;
  }

  lemma Reassociate(p: string, q: string, r: string)
    ensures p + (q + r) == p + q + r
  {
  }

  lemma SplitGlue(p: string, g: string, w: string, t: string, c: char)
    requires Without(p, c) && Split(t, c) == Split(g, c) + Split(w, c)
    ensures Split(p + [c] + t, c) == Split(p + [c] + g, c) + Split(w, c)
  {
    SplitStep(p, t, c);
    SplitStep(p, g, c);
  }

  lemma {:induction false} SplitPast(h: string, w: string, c: char)
    ensures Split(h + [c] + w, c) == Split(h, c) + Split(w, c)
  {
    var i := IndexOf(h, c);
    if i == |h| {
      SplitStep(h, w, c);
      SplitWhole(h, c);
    } else {
      SplitPast(h[i + 1..], w, c);
      SplitGlue(h[..i], h[i + 1..], w, h[i + 1..] + [c] + w, c);
      assert h == h[..i] + [c] + h[i + 1..];
      Reassociate(h[..i] + [c], h[i + 1..], [c] + w);
      Reassociate(h[..i] + [c] + h[i + 1..], [c], w);
      Reassociate(h[i + 1..], [c], w);
    }
  }

  lemma SplitWhole(x: string, c: char)
    requires Without(x, c)
    ensures Split(x, c) == [x]
  {
  }

  // ----- a leading v and build metadata -----

  /** A leading `v` and anything after a plus sign change nothing. */
  lemma PrefixAndBuildIgnored(v: string, build: string, w: string)
    requires Without(v, '+') && !("v" <= v)
    ensures Order("v" + v, w) == Order(v, w) && Order(w, "v" + v) == Order(w, v)
    ensures Order(v + "+" + build, w) == Order(v, w) && Order(w, v + "+" + build) == Order(w, v)
  {
    assert ("v" + v)[1..] == v;
    assert Parse("v" + v) == Parse(v);
    var s := v + "+" + build;
    assert v != "" ==> s[0] == v[0];
    CutAt(v, build, '+');
    assert Parse(s) == Parse(v);
  }

  // ----- a release and its pre-releases -----

  lemma ParseCore(v: string)
    requires Bare(v) && !("v" <= v)
    ensures Parse(v) == Parsed(Split(v, '.'), "")
  {
    CutAt(v, "", '+');
    CutAt(v, "", '-');
  }

  lemma ParsePre(v: string, p: string)
    requires Bare(v) && !("v" <= v) && Without(p, '+')
    ensures Parse(v + "-" + p) == Parsed(Split(v, '.'), p)
  {
    var s := v + "-" + p;
    assert v != "" ==> s[0] == v[0];
    CutAt(s, "", '+');
    CutAt(v, p, '-');
  }

  lemma {:induction false} SamePartsTie(core: seq<string>, i: nat, n: nat)
    ensures CompareParts(core, core, i, n) == 0
    decreases n - i
  {
    if i < n {
      ComparePartAntisymmetric(Part(core, i), Part(core, i));
      SamePartsTie(core, i + 1, n);
    }
  }

  /** A release is newer than every pre-release of it. */
  lemma ReleaseAfterPreRelease(v: string, p: string)
    requires Bare(v) && !("v" <= v) && p != "" && Without(p, '+')
    ensures Order(v, v + "-" + p) == 1 && Order(v + "-" + p, v) == -1
  {
    ParseCore(v);
    ParsePre(v, p);
    SamePartsTie(Split(v, '.'), 0, |Split(v, '.')|);
  }

  // ----- what an integer part is -----

  /** A number that fits in 64 bits, written in digits; an empty part is zero. */
  predicate Fits(x: string) { Decimal.AllDigits(x) && Decimal.Value(x) <= 0x7FFF_FFFF_FFFF_FFFF }

  lemma FitsIsNumber(x: string)
    requires Fits(x)
    ensures Number(x) == Some(Decimal.Value(x) as int)
  {
    if x == "" {
      assert Decimal.Value("0"[..0]) == 0;
      assert Decimal.Value("0") == 0;
    } else {
      assert Decimal.IsDigit(x[0]);
    }
  }

  /** Some character is not a digit, nor a sign in front. */
  predicate Wordy(x: string) {
    exists i :: 0 <= i < |x| && !Decimal.IsDigit(x[i]) && (i > 0 || (x[0] != '-' && x[0] != '+'))
  }

  lemma WordyIsNoNumber(x: string)
    requires Wordy(x)
    ensures Number(x).None?
  {
    var i :| 0 <= i < |x| && !Decimal.IsDigit(x[i]) && (i > 0 || (x[0] != '-' && x[0] != '+'));
    var digits := if x[0] == '-' || x[0] == '+' then x[1..] else x;
    assert digits != [] ==> !Decimal.AllDigits(digits) by {
      if x[0] == '-' || x[0] == '+' { assert digits[i - 1] == x[i]; } else { assert digits[i] == x[i]; }
    }
  }

  /** `x` comes before `y` as text: at the first difference it has the smaller character, or it ends there. */
  ghost predicate TextBefore(x: string, y: string) {
    exists n: nat :: n <= |x| && n < |y| && x[..n] == y[..n] && (n == |x| || x[n] < y[n])
  }

  lemma {:induction false} TextDecides(x: string, y: string, n: nat)
    requires n <= |x| && n < |y| && x[..n] == y[..n] && (n == |x| || x[n] < y[n])
    ensures StringsCompare(x, y) == -1
  {
    if n > 0 {
      assert x[0] == x[..n][0] && y[0] == y[..n][0];
      assert x[1..][..n - 1] == x[..n][1..] && y[1..][..n - 1] == y[..n][1..];
      TextDecides(x[1..], y[1..], n - 1);
    }
  }

  /** How two parts compare: two numbers that fit by value, otherwise as text. */
  ghost predicate PartBefore(x: string, y: string) {
    (Fits(x) && Fits(y) && Decimal.Value(x) < Decimal.Value(y)) || ((Wordy(x) || Wordy(y)) && TextBefore(x, y))
  }

  lemma PartDecides(x: string, y: string)
    requires PartBefore(x, y)
    ensures ComparePart(x, y) == -1
  {
    if Fits(x) && Fits(y) && Decimal.Value(x) < Decimal.Value(y) {
      FitsIsNumber(x);
      FitsIsNumber(y);
    } else {
      if Wordy(x) { WordyIsNoNumber(x); } else { WordyIsNoNumber(y); }
      var n: nat :| n <= |x| && n < |y| && x[..n] == y[..n] && (n == |x| || x[n] < y[n]);
      TextDecides(x, y, n);
    }
  }

  /** Pre-releases of one release are ordered by number when both are numbers, otherwise as text. */
  lemma PreReleasesInOrder(v: string, p: string, q: string)
    requires Bare(v) && !("v" <= v) && p != "" && q != "" && Without(p, '+') && Without(q, '+') && PartBefore(p, q)
    ensures Order(v + "-" + p, v + "-" + q) == -1 && Order(v + "-" + q, v + "-" + p) == 1
  {
    ParsePre(v, p);
    ParsePre(v, q);
    SamePartsTie(Split(v, '.'), 0, |Split(v, '.')|);
    PartDecides(p, q);
    ComparePartAntisymmetric(p, q);
    ComparePartAntisymmetric(p, p);
  }

  // ----- the first part that differs -----

  /** Where a part may end. */
  predicate PartEnds(r: string) { r == "" || r[0] in ".-+" }

  /** The core of a version, before any sign. */
  function Core(s: string): string { Cut(Cut(s, '+').0, '-').0 }

  lemma CorePast(p: string, r: string)
    requires Bare(p)
    ensures Core(p + r) == p + Core(r)
  {
    CutPast(p, r, '+');
    CutPast(p, Cut(r, '+').0, '-');
  }

  lemma CoreAtEnd(r: string)
    requires PartEnds(r)
    ensures Core(r) == "" || (Core(r)[0] == '.' && |Core(r)| > 0)
  {
    if r != "" && r[0] == '.' {
      assert r == "." + r[1..];
      CorePast(".", r[1..]);
    }
  }

  /** The parts in a text that is empty or begins with a dot. */
  function Rest(r: string): seq<string> { if r == "" then [] else Split(r[1..], '.') }

  lemma SplitFirst(x: string, r: string)
    requires Without(x, '.') && (r == "" || r[0] == '.')
    ensures Split(x + r, '.') == [x] + Rest(r)
  {
    if r == "" {
      assert x + r == x;
      SplitWhole(x, '.');
    } else {
      assert x + r == x + ['.'] + r[1..];
      SplitStep(x, r[1..], '.');
    }
  }

  lemma SplitBefore(h: string, w: string)
    requires h == "" || h[|h| - 1] == '.'
    ensures Split(h + w, '.') == Before(h) + Split(w, '.')
  {
    if h == "" {
      assert h + w == w;
    } else {
      var g := h[..|h| - 1];
      assert h == g + ['.'];
      SplitPast(g, w, '.');
    }
  }

  /** A part that is not cut anywhere, read after parts `h` that end in a dot. */
  lemma SplitAfter(h: string, x: string, r: string)
    requires (h == "" || h[|h| - 1] == '.') && Without(x, '.') && (r == "" || r[0] == '.')
    ensures Split(h + x + r, '.') == Before(h) + [x] + Rest(r)
  {
    assert h + x + r == h + (x + r);
    SplitBefore(h, x + r);
    SplitFirst(x, r);
    assert Before(h) + ([x] + Rest(r)) == Before(h) + [x] + Rest(r);
  }

  /** The parts of a prefix that is empty or ends in a dot. */
  function Before(h: string): seq<string> { if h == "" then [] else Split(h[..|h| - 1], '.') }

  lemma ParseAfter(h: string, x: string, r: string)
    requires Bare(h) && !("v" <= h) && (h == "" || h[|h| - 1] == '.')
    requires Bare(x) && Without(x, '.') && !("v" <= x) && PartEnds(r)
    ensures Parse(h + x + r).core == Before(h) + [x] + Rest(Core(r))
    ensures Parse(h + x + r).pre == Cut(Cut(r, '+').0, '-').1
  {
    var s := h + x + r;
    assert h + x + r == (h + x) + r;
    assert s != "" ==> s[0] == if h != "" then h[0] else if x != "" then x[0] else r[0];
    CorePast(h + x, r);
    CoreAtEnd(r);
    assert Core(s) == h + x + Core(r);
    SplitAfter(h, x, Core(r));
    CutPast(h + x, r, '+');
    CutPast(h + x, Cut(r, '+').0, '-');
  }

  lemma {:induction false} SharedPartsSkipped(g: seq<string>, a: seq<string>, b: seq<string>, i: nat, n: nat)
    requires i <= |g| <= n && |g| <= |a| && |g| <= |b| && a[..|g|] == g == b[..|g|]
    ensures CompareParts(a, b, i, n) == CompareParts(a, b, |g|, n)
    decreases |g| - i
  {
    if i < |g| {
      assert a[i] == g[i] == b[i];
      ComparePartAntisymmetric(g[i], g[i]);
      SharedPartsSkipped(g, a, b, i + 1, n);
    }
  }

  lemma FirstPartDecides(g: seq<string>, x: string, y: string, a: Parsed, b: Parsed, restA: seq<string>,
                         restB: seq<string>)
    requires a.core == g + [x] + restA && b.core == g + [y] + restB && PartBefore(x, y)
    ensures OrderParsed(a, b) == -1
  {
    var n := Max(|a.core|, |b.core|);
    assert a.core[..|g|] == g == b.core[..|g|];
    SharedPartsSkipped(g, a.core, b.core, 0, n);
    assert Part(a.core, |g|) == x && Part(b.core, |g|) == y;
    PartDecides(x, y);
  }

  /**
    The first part in which two versions differ decides between them, by number when both are numbers and otherwise as
    text, whatever follows: further parts, pre-releases or build metadata.
   */
  lemma FirstDifferenceDecides(h: string, x: string, y: string, r: string, s: string)
    requires Bare(h) && !("v" <= h) && (h == "" || h[|h| - 1] == '.')
    requires Bare(x) && Bare(y) && Without(x, '.') && Without(y, '.') && !("v" <= x) && !("v" <= y)
    requires PartEnds(r) && PartEnds(s) && PartBefore(x, y)
    ensures Order(h + x + r, h + y + s) == -1 && Order(h + y + s, h + x + r) == 1
  {
    ParseAfter(h, x, r);
    ParseAfter(h, y, s);
    FirstPartDecides(Before(h), x, y, Parse(h + x + r), Parse(h + y + s), Rest(Core(r)), Rest(Core(s)));
    OrderAntisymmetric(h + x + r, h + y + s);
  }

  lemma SamePartTies(g: seq<string>, x: string, y: string, a: Parsed, b: Parsed, rest: seq<string>)
    requires a.core == g + [x] + rest && b.core == g + [y] + rest && a.pre == b.pre
    requires Fits(x) && Fits(y) && Decimal.Value(x) == Decimal.Value(y)
    ensures OrderParsed(a, b) == 0
  {
    var n, k := |a.core|, |g|;
    assert a.core[..k] == g == b.core[..k];
    SharedPartsSkipped(g, a.core, b.core, 0, n);
    SameNumberTies(x, y);
    assert Part(a.core, k) == x && Part(b.core, k) == y;
    SameTail(g + [x], g + [y], rest);
    LaterPartsTie(a.core, b.core, k + 1, n);
  }

  lemma SameTail(p: seq<string>, q: seq<string>, rest: seq<string>)
    requires |p| == |q|
    ensures forall i :: |p| <= i < |p + rest| ==> (p + rest)[i] == (q + rest)[i]
  {
  }

  lemma SameNumberTies(x: string, y: string)
    requires Fits(x) && Fits(y) && Decimal.Value(x) == Decimal.Value(y)
    ensures ComparePart(x, y) == 0
  {
    FitsIsNumber(x);
    FitsIsNumber(y);
  }

  lemma {:induction false} LaterPartsTie(a: seq<string>, b: seq<string>, i: nat, n: nat)
    requires |a| == |b| == n && forall j :: i <= j < n ==> a[j] == b[j]
    ensures CompareParts(a, b, i, n) == 0
    decreases n - i
  {
    if i < n {
      ComparePartAntisymmetric(a[i], a[i]);
      LaterPartsTie(a, b, i + 1, n);
    }
  }

  lemma DigitsArePlain(x: string)
    requires Decimal.AllDigits(x)
    ensures Bare(x) && Without(x, '.') && !("v" <= x)
  {
    assert x != "" ==> Decimal.IsDigit(x[0]);
  }

  /** How a number is spelled does not matter: leading zeros, or nothing for zero. */
  lemma SpellingIgnored(h: string, x: string, y: string, r: string)
    requires Bare(h) && !("v" <= h) && (h == "" || h[|h| - 1] == '.') && PartEnds(r)
    requires Fits(x) && Fits(y) && Decimal.Value(x) == Decimal.Value(y)
    ensures Order(h + x + r, h + y + r) == 0
  {
    DigitsArePlain(x);
    DigitsArePlain(y);
    ParseAfter(h, x, r);
    ParseAfter(h, y, r);
    SamePartTies(Before(h), x, y, Parse(h + x + r), Parse(h + y + r), Rest(Core(r)));
  }

  lemma PaddedParts(g: seq<string>)
    ensures CompareParts(g, g + ["0"], 0, |g| + 1) == 0
  {
    SharedPartsSkipped(g, g, g + ["0"], 0, |g| + 1);
    ComparePartAntisymmetric("0", "0");
    assert ComparePart("", "0") == ComparePart("0", "0");
  }

  lemma ParseWithZero(v: string)
    requires Bare(v) && !("v" <= v)
    ensures Parse(v + ".0") == Parsed(Split(v, '.') + ["0"], "")
  {
    var w := v + ".0";
    assert w == v + ['.'] + "0";
    assert w[0] == if v != "" then v[0] else '.';
    ParseCore(w);
    SplitPast(v, "0", '.');
    SplitWhole("0", '.');
  }

  /** A missing part counts as zero. */
  lemma MissingPartIsZero(v: string)
    requires Bare(v) && !("v" <= v)
    ensures Order(v, v + ".0") == 0 && Order(v + ".0", v) == 0
  {
    ParseCore(v);
    ParseWithZero(v);
    PaddedParts(Split(v, '.'));
    OrderAntisymmetric(v, v + ".0");
  }

  // ----- versions as directory names -----

  /** A valid version is one plain directory name: not empty, no separator, nothing that climbs, and not too long. */
  lemma ValidIsSafeName(v: string)
    requires Valid(v)
    ensures 1 <= |v| <= 64 && Without(v, '/') && Without(v, '\\') && Without(v, ':') && v[0] != '.'
    ensures forall i :: 0 < i < |v| ==> v[i - 1] != '.' || v[i] != '.'
  {
  }

  /** And every short name of letters, digits, signs and single dots that begins with a letter or digit is valid. */
  lemma SafeNameIsValid(v: string)
    requires 1 <= |v| <= 64 && IsAlnum(v[0])
    requires forall i :: 0 <= i < |v| ==> IsAlnum(v[i]) || v[i] == '.' || v[i] == '+' || v[i] == '-'
    requires forall i :: 0 < i < |v| ==> v[i - 1] != '.' || v[i] != '.'
    ensures Valid(v)
  {
  }
}
