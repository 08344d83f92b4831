/**
  Version strings: how they are read, how two of them are ordered, and the release
  the control plane offers a station.
 */
module Version {
  import opened Common
  import Decimal

  // ----- reading a version string -----

  /** Index of the first `c` in `s`, or `|s|`. */
  function IndexOf(s: string, c: char): (i: nat)
    ensures i <= |s|
    ensures i < |s| ==> s[i] == c
    ensures forall k :: 0 <= k < i ==> s[k] != c
  {
    if s == [] || s[0] == c then 0 else 1 + IndexOf(s[1..], c)
  }

  /** The part of `s` before and after the first `c`; the second is empty when `c` is absent. */
  function Cut(s: string, c: char): (string, string) {
    var i := IndexOf(s, c);
    if i == |s| then (s, "") else (s[..i], s[i + 1..])
  }

  function Split(s: string, c: char): (parts: seq<string>)
    ensures parts != []
  {
    var i := IndexOf(s, c);
    if i == |s| then [s] else [s[..i]] + Split(s[i + 1..], c)
  }

  const INT64_MAX := 0x7FFF_FFFF_FFFF_FFFF

  /** A decimal integer with an optional sign that fits in 64 bits. */
  function Atoi(s: string): Option<int> {
    var digits := if s != [] && (s[0] == '-' || s[0] == '+') then s[1..] else s;
    if digits == [] || !Decimal.AllDigits(digits) then None
    else
      var m: int := Decimal.Value(digits);
      var n := if s[0] == '-' then -m else m;
      if -INT64_MAX - 1 <= n <= INT64_MAX then Some(n) else None
  }

  datatype Parsed = Parsed(core: seq<string>, pre: string)

  function Parse(v: string): (p: Parsed)
    ensures p.core != []
  {
    var bare := if v != [] && v[0] == 'v' then v[1..] else v;
    var (core, pre) := Cut(Cut(bare, '+').0, '-');
    Parsed(Split(core, '.'), pre)
  }

  predicate IsAlnum(c: char) { '0' <= c <= '9' || 'A' <= c <= 'Z' || 'a' <= c <= 'z' }

  /** Safe as a version and as a directory name. */
  predicate Valid(v: string) {
    1 <= |v| <= 64 && IsAlnum(v[0]) &&
    (forall i :: 0 <= i < |v| ==> IsAlnum(v[i]) || v[i] in ".+-") &&
    (forall i :: 0 < i < |v| ==> !(v[i - 1] == '.' && v[i] == '.'))
  }

  // ----- ordering -----

  /** Lexicographic comparison, -1, 0 or 1. */
  function StringsCompare(x: string, y: string): int {
    if x == [] then (if y == [] then 0 else -1)
    else if y == [] then 1
    else if x[0] < y[0] then -1
    else if x[0] > y[0] then 1
    else StringsCompare(x[1..], y[1..])
  }

  /** The integer a part denotes; a missing part denotes zero. */
  function Number(part: string): Option<int> { Atoi(if part == "" then "0" else part) }

  function Sign(n: int): int { if n < 0 then -1 else if n > 0 then 1 else 0 }

  function ComparePart(x: string, y: string): int {
    if Number(x).Some? && Number(y).Some? then Sign(Number(x).value - Number(y).value)
    else StringsCompare(x, y)
  }

  function Part(core: seq<string>, i: nat): string { if i < |core| then core[i] else "" }

  /** First difference among parts `i..n`. */
  function CompareParts(a: seq<string>, b: seq<string>, i: nat, n: nat): int
    decreases n - i
  {
    if i >= n then 0
    else
      var c := ComparePart(Part(a, i), Part(b, i));
      if c != 0 then c else CompareParts(a, b, i + 1, n)
  }

  function Max(a: nat, b: nat): nat { if a < b then b else a }

  function ComparePre(a: string, b: string): int {
    if a == b then 0 else if a == "" then 1 else if b == "" then -1 else ComparePart(a, b)
  }

  function OrderParsed(x: Parsed, y: Parsed): int {
    var c := CompareParts(x.core, y.core, 0, Max(|x.core|, |y.core|));
    if c != 0 then c else ComparePre(x.pre, y.pre)
  }

  /** The order of two versions: what the method `Compare` computes. */
  function Order(a: string, b: string): int { OrderParsed(Parse(a), Parse(b)) }

  predicate Leq(a: string, b: string) { Order(a, b) <= 0 }

  method Compare(a: string, b: string) returns (c: int)
    ensures c == Order(a, b)
  {
    var x, y := Parse(a), Parse(b);
    var i := 0;
    ghost var n := Max(|x.core|, |y.core|);
    ghost var cores := CompareParts(x.core, y.core, 0, n);
    while i < |x.core| || i < |y.core|
      invariant i <= n && cores == CompareParts(x.core, y.core, i, n)
      decreases n - i
    {
      c := ComparePart(Part(x.core, i), Part(y.core, i));
      if c != 0 { return; }
      i := i + 1;
    }
    return ComparePre(x.pre, y.pre);
  }

  // ----- laws of the order -----

  lemma {:induction false} StringsCompareAntisymmetric(x: string, y: string)
    ensures StringsCompare(x, y) == -StringsCompare(y, x)
    ensures StringsCompare(x, y) == 0 <==> x == y
  {
    if x != [] && y != [] && x[0] == y[0] {
      StringsCompareAntisymmetric(x[1..], y[1..]);
      assert x == [x[0]] + x[1..] && y == [y[0]] + y[1..];
    }
  }

  lemma {:induction false} StringsCompareTransitive(x: string, y: string, z: string)
    requires StringsCompare(x, y) <= 0 && StringsCompare(y, z) <= 0
    ensures StringsCompare(x, z) <= 0
    ensures StringsCompare(x, z) == 0 ==> x == y == z
  {
    StringsCompareAntisymmetric(x, z);
    StringsCompareAntisymmetric(x, y);
    StringsCompareAntisymmetric(y, z);
    if x != [] && y != [] && z != [] && x[0] == y[0] == z[0] {
      StringsCompareTransitive(x[1..], y[1..], z[1..]);
    }
  }

  lemma ComparePartAntisymmetric(x: string, y: string)
    ensures ComparePart(x, y) == -ComparePart(y, x)
    ensures ComparePart(x, x) == 0
  {
    StringsCompareAntisymmetric(x, y);
    StringsCompareAntisymmetric(x, x);
  }

  lemma {:induction false} ComparePartsAntisymmetric(a: seq<string>, b: seq<string>, i: nat, n: nat)
    ensures CompareParts(a, b, i, n) == -CompareParts(b, a, i, n)
    ensures CompareParts(a, a, i, n) == 0
    decreases n - i
  {
    if i < n {
      ComparePartAntisymmetric(Part(a, i), Part(b, i));
      ComparePartAntisymmetric(Part(a, i), Part(a, i));
      ComparePartsAntisymmetric(a, b, i + 1, n);
    }
  }

  lemma OrderParsedAntisymmetric(x: Parsed, y: Parsed)
    ensures OrderParsed(x, y) == -OrderParsed(y, x)
  {
    ComparePartsAntisymmetric(x.core, y.core, 0, Max(|x.core|, |y.core|));
    ComparePartAntisymmetric(x.pre, y.pre);
  }

  /** Swapping the arguments negates the result, on every pair of strings. */
  lemma OrderAntisymmetric(a: string, b: string)
    ensures Order(a, b) == -Order(b, a)
    ensures Order(a, a) == 0
  {
    OrderParsedAntisymmetric(Parse(a), Parse(b));
    OrderParsedAntisymmetric(Parse(a), Parse(a));
  }

  lemma {:induction false} StringsCompareIsSign(x: string, y: string)
    ensures -1 <= StringsCompare(x, y) <= 1
  {
    if x != [] && y != [] { StringsCompareIsSign(x[1..], y[1..]); }
  }

  lemma {:induction false} ComparePartsIsSign(a: seq<string>, b: seq<string>, i: nat, n: nat)
    ensures -1 <= CompareParts(a, b, i, n) <= 1
    decreases n - i
  {
    if i < n {
      StringsCompareIsSign(Part(a, i), Part(b, i));
      ComparePartsIsSign(a, b, i + 1, n);
    }
  }

  /** The comparison answers -1, 0 or 1. */
  lemma OrderIsSign(a: string, b: string)
    ensures -1 <= Order(a, b) <= 1
  {
    var x, y := Parse(a), Parse(b);
    ComparePartsIsSign(x.core, y.core, 0, Max(|x.core|, |y.core|));
    StringsCompareIsSign(x.pre, y.pre);
  }

  // ----- when parts are ordered consistently -----

  predicate PartLeq(x: string, y: string) { ComparePart(x, y) <= 0 }

  predicate Chains(x: string, y: string, z: string) { PartLeq(x, y) && PartLeq(y, z) ==> PartLeq(x, z) }

  /** No arrangement of the three parts breaks transitivity. */
  predicate Consistent(x: string, y: string, z: string) {
    Chains(x, y, z) && Chains(x, z, y) && Chains(y, x, z) && Chains(y, z, x) && Chains(z, x, y) && Chains(z, y, x)
  }

  /** Two integers with `p <= q` that the text of a third, non-integer part separates the other way round. */
  predicate Straddles(p: string, q: string, z: string) {
    Number(p).Some? && Number(q).Some? && Number(z).None? && Number(p).value <= Number(q).value &&
    StringsCompare(q, z) < 0 && StringsCompare(z, p) < 0
  }

  predicate Straddled(x: string, y: string, z: string) {
    Straddles(x, y, z) || Straddles(y, x, z) || Straddles(x, z, y) || Straddles(z, x, y) || Straddles(y, z, x) ||
      Straddles(z, y, x)
  }

  lemma ChainsUnlessStraddled(x: string, y: string, z: string)
    requires !Straddled(x, y, z)
    ensures Chains(x, y, z)
  {
    StringsCompareAntisymmetric(x, y);
    StringsCompareAntisymmetric(y, z);
    StringsCompareAntisymmetric(x, z);
    if StringsCompare(x, y) <= 0 && StringsCompare(y, z) <= 0 { StringsCompareTransitive(x, y, z); }
  }

  /** Transitivity of part comparison fails exactly when a non-integer part straddles two integers. */
  lemma PartsConsistentIff(x: string, y: string, z: string)
    ensures Consistent(x, y, z) <==> !Straddled(x, y, z)
  {
    StringsCompareAntisymmetric(x, y);
    StringsCompareAntisymmetric(y, z);
    StringsCompareAntisymmetric(x, z);
    if !Straddled(x, y, z) {
      ChainsUnlessStraddled(x, y, z); ChainsUnlessStraddled(x, z, y); ChainsUnlessStraddled(y, x, z);
      ChainsUnlessStraddled(y, z, x); ChainsUnlessStraddled(z, x, y); ChainsUnlessStraddled(z, y, x);
    }
  }

  // ----- versions on which the order is a total preorder -----

  /** An integer, or text that starts after every digit and sign. */
  predicate Tame(part: string) { Number(part).Some? || (part != "" && part[0] > '9') }

  /** Core parts are integers or words, and the pre-release is not an integer. */
  predicate Orderly(v: string) {
    var p := Parse(v);
    (forall i :: 0 <= i < |p.core| ==> Tame(p.core[i])) && (p.pre == "" || Atoi(p.pre).None?)
  }

  lemma TamePartsTransitive(x: string, y: string, z: string)
    requires Tame(x) && Tame(y) && Tame(z)
    requires PartLeq(x, y) && PartLeq(y, z)
    ensures PartLeq(x, z)
    ensures ComparePart(x, z) == 0 ==> ComparePart(x, y) == 0 && ComparePart(y, z) == 0
  {
    StringsCompareAntisymmetric(x, y);
    StringsCompareAntisymmetric(y, z);
    StringsCompareAntisymmetric(x, z);
    if StringsCompare(x, y) <= 0 && StringsCompare(y, z) <= 0 { StringsCompareTransitive(x, y, z); }
  }

  lemma MissingPartIsTame(core: seq<string>, i: nat)
    requires forall k :: 0 <= k < |core| ==> Tame(core[k])
    ensures Tame(Part(core, i))
  {
    assert Decimal.Value("0") == 0 by { assert "0"[..0] == ""; }
    assert Atoi("0") == Some(0);
  }

  lemma {:induction false} TameCoresTransitive(a: seq<string>, b: seq<string>, c: seq<string>, i: nat, n: nat)
    requires forall k :: 0 <= k < |a| ==> Tame(a[k])
    requires forall k :: 0 <= k < |b| ==> Tame(b[k])
    requires forall k :: 0 <= k < |c| ==> Tame(c[k])
    requires CompareParts(a, b, i, n) <= 0 && CompareParts(b, c, i, n) <= 0
    ensures CompareParts(a, c, i, n) <= 0
    ensures CompareParts(a, c, i, n) == 0 ==> CompareParts(a, b, i, n) == 0 && CompareParts(b, c, i, n) == 0
    decreases n - i
  {
    if i < n {
      MissingPartIsTame(a, i); MissingPartIsTame(b, i); MissingPartIsTame(c, i);
      var x, y, z := Part(a, i), Part(b, i), Part(c, i);
      TamePartsTransitive(x, y, z);
      if ComparePart(x, y) == 0 && ComparePart(y, z) == 0 {
        ComparePartAntisymmetric(x, y);
        ComparePartAntisymmetric(y, z);
        TamePartsTransitive(z, y, x);
        ComparePartAntisymmetric(x, z);
        TameCoresTransitive(a, b, c, i + 1, n);
      }
    }
  }

  /** Comparing past the last part of both cores changes nothing. */
  lemma {:induction false} ComparePartsPadded(a: seq<string>, b: seq<string>, i: nat, m: nat, n: nat)
    requires |a| <= m && |b| <= m <= n
    ensures CompareParts(a, b, i, m) == CompareParts(a, b, i, n)
    decreases n - i
  {
    if i < n {
      ComparePartsPadded(a, b, i + 1, m, n);
      ComparePartAntisymmetric("", "");
    }
  }

  lemma PreTransitive(x: string, y: string, z: string)
    requires (x == "" || Atoi(x).None?) && (y == "" || Atoi(y).None?) && (z == "" || Atoi(z).None?)
    requires ComparePre(x, y) <= 0 && ComparePre(y, z) <= 0
    ensures ComparePre(x, z) <= 0
    ensures ComparePre(x, z) == 0 ==> ComparePre(x, y) == 0 && ComparePre(y, z) == 0
  {
    StringsCompareAntisymmetric(x, y);
    StringsCompareAntisymmetric(y, z);
    StringsCompareAntisymmetric(x, z);
    if StringsCompare(x, y) <= 0 && StringsCompare(y, z) <= 0 { StringsCompareTransitive(x, y, z); }
  }

  /** On orderly versions the order is transitive; with antisymmetry it is a total preorder. */
  lemma OrderTransitive(a: string, b: string, c: string)
    requires Orderly(a) && Orderly(b) && Orderly(c)
    requires Leq(a, b) && Leq(b, c)
    ensures Leq(a, c)
    ensures Order(a, c) == 0 ==> Order(a, b) == 0 && Order(b, c) == 0
  {
    var x, y, z := Parse(a), Parse(b), Parse(c);
    var n := Max(Max(|x.core|, |y.core|), |z.core|);
    ComparePartsPadded(x.core, y.core, 0, Max(|x.core|, |y.core|), n);
    ComparePartsPadded(y.core, z.core, 0, Max(|y.core|, |z.core|), n);
    ComparePartsPadded(x.core, z.core, 0, Max(|x.core|, |z.core|), n);
    TameCoresTransitive(x.core, y.core, z.core, 0, n);
    if CompareParts(x.core, y.core, 0, n) == 0 && CompareParts(y.core, z.core, 0, n) == 0 {
      ComparePartsAntisymmetric(x.core, y.core, 0, n);
      ComparePartsAntisymmetric(y.core, z.core, 0, n);
      TameCoresTransitive(z.core, y.core, x.core, 0, n);
      ComparePartsAntisymmetric(x.core, z.core, 0, n);
      PreTransitive(x.pre, y.pre, z.pre);
    }
  }

  // ----- exactly when versions are ordered consistently -----

  function Width(x: Parsed, y: Parsed, z: Parsed): nat { Max(Max(|x.core|, |y.core|), |z.core|) }

  predicate PartsEqual(x: Parsed, y: Parsed, i: nat) { ComparePart(Part(x.core, i), Part(y.core, i)) == 0 }

  /** The three versions do not differ in part `i`. */
  predicate Tied(x: Parsed, y: Parsed, z: Parsed, i: nat) {
    PartsEqual(x, y, i) && PartsEqual(y, z, i) && PartsEqual(x, z, i)
  }

  /** The first part, from `i` on, in which some two of the three differ; `n` when there is none. */
  function FirstSplit(x: Parsed, y: Parsed, z: Parsed, i: nat, n: nat): (k: nat)
    requires i <= n
    ensures i <= k <= n && (k < n ==> !Tied(x, y, z, k)) && forall j :: i <= j < k ==> Tied(x, y, z, j)
    decreases n - i
  {
    if i == n || !Tied(x, y, z, i) then i else FirstSplit(x, y, z, i + 1, n)
  }

  /** Part `k` decides between the two if it differs; past the core, the pre-release does. */
  predicate DecidedAt(x: Parsed, y: Parsed, k: nat, n: nat) {
    if k < n then !PartsEqual(x, y, k) ==> OrderParsed(x, y) == ComparePart(Part(x.core, k), Part(y.core, k))
    else OrderParsed(x, y) == ComparePre(x.pre, y.pre)
  }

  lemma {:induction false} SkipEqualParts(x: Parsed, y: Parsed, i: nat, k: nat, n: nat)
    requires i <= k <= n && forall j :: i <= j < k ==> PartsEqual(x, y, j)
    ensures CompareParts(x.core, y.core, i, n) == CompareParts(x.core, y.core, k, n)
    decreases k - i
  {
    if i < k {
      assert PartsEqual(x, y, i);
      SkipEqualParts(x, y, i + 1, k, n);
    }
  }

  predicate EqualBefore(x: Parsed, y: Parsed, k: nat) { forall j :: 0 <= j < k ==> PartsEqual(x, y, j) }

  lemma SplitDecides(x: Parsed, y: Parsed, k: nat, n: nat)
    requires k <= n && |x.core| <= n && |y.core| <= n && EqualBefore(x, y, k)
    ensures DecidedAt(x, y, k, n)
  {
    ComparePartsPadded(x.core, y.core, 0, Max(|x.core|, |y.core|), n);
    SkipEqualParts(x, y, 0, k, n);
  }

  /**
    The third version separates the first two against their order: in the deciding part it lies, as text, between two
    integers `p <= q` the wrong way round, and the versions themselves are not ordered the way the text has it.
   */
  predicate Separates(p: Parsed, q: Parsed, z: Parsed, k: nat, n: nat) {
    OrderParsed(q, p) >= 0 &&
    if k < n then Straddles(Part(p.core, k), Part(q.core, k), Part(z.core, k))
    else p.pre != "" && q.pre != "" && Straddles(p.pre, q.pre, z.pre)
  }

  predicate Separated(x: Parsed, y: Parsed, z: Parsed, k: nat, n: nat) {
    Separates(x, y, z, k, n) || Separates(y, x, z, k, n) || Separates(x, z, y, k, n) ||
    Separates(z, x, y, k, n) || Separates(y, z, x, k, n) || Separates(z, y, x, k, n)
  }

  predicate OrderChains(x: Parsed, y: Parsed, z: Parsed) {
    OrderParsed(x, y) <= 0 && OrderParsed(y, z) <= 0 ==> OrderParsed(x, z) <= 0
  }

  /** No arrangement of the three versions breaks transitivity. */
  predicate AllChain(x: Parsed, y: Parsed, z: Parsed) {
    OrderChains(x, y, z) && OrderChains(x, z, y) && OrderChains(y, x, z) &&
    OrderChains(y, z, x) && OrderChains(z, x, y) && OrderChains(z, y, x)
  }

  /**
    Three orders that form a cycle, each decided by the parts where those differ: some integer pair is
    straddled along it.
   */
  lemma CycleStraddles(x: string, y: string, z: string, xy: int, yz: int, xz: int)
    requires (ComparePart(x, y) != 0 ==> xy == ComparePart(x, y)) &&
             (ComparePart(y, z) != 0 ==> yz == ComparePart(y, z))
    requires ComparePart(x, z) != 0 ==> xz == ComparePart(x, z)
    requires ComparePart(x, y) != 0 || ComparePart(y, z) != 0 || ComparePart(x, z) != 0
    requires xy <= 0 && yz <= 0 && xz > 0
    ensures Straddles(x, y, z) || Straddles(y, z, x) || Straddles(z, x, y)
  {
    StringsCompareAntisymmetric(x, y);
    StringsCompareAntisymmetric(y, z);
    StringsCompareAntisymmetric(x, z);
    if StringsCompare(x, y) <= 0 && StringsCompare(y, z) <= 0 { StringsCompareTransitive(x, y, z); }
  }

  lemma PreCycleStraddles(x: string, y: string, z: string)
    requires ComparePre(x, y) <= 0 && ComparePre(y, z) <= 0 && ComparePre(x, z) > 0
    ensures x != "" && y != "" && z != "" && (Straddles(x, y, z) || Straddles(y, z, x) || Straddles(z, x, y))
  {
    ComparePartAntisymmetric(x, x);
    ComparePartAntisymmetric(y, y);
    CycleStraddles(x, y, z, ComparePart(x, y), ComparePart(y, z), ComparePart(x, z));
  }

  lemma ChainsUnlessSeparated(x: Parsed, y: Parsed, z: Parsed, k: nat, n: nat)
    requires DecidedAt(x, y, k, n) && DecidedAt(y, z, k, n) && DecidedAt(x, z, k, n)
    requires (k < n ==> !Tied(x, y, z, k)) && !Separated(x, y, z, k, n)
    ensures OrderChains(x, y, z)
  {
    OrderParsedAntisymmetric(x, y);
    OrderParsedAntisymmetric(y, z);
    if OrderParsed(x, y) <= 0 && OrderParsed(y, z) <= 0 && OrderParsed(x, z) > 0 {
      if k < n {
        CycleStraddles(Part(x.core, k), Part(y.core, k), Part(z.core, k), OrderParsed(x, y), OrderParsed(y, z),
          OrderParsed(x, z));
      } else {
        PreCycleStraddles(x.pre, y.pre, z.pre);
      }
      assert false;
    }
  }

  lemma SeparatedBreaks(p: Parsed, q: Parsed, z: Parsed, k: nat, n: nat)
    requires DecidedAt(q, z, k, n) && DecidedAt(z, p, k, n) && Separates(p, q, z, k, n)
    ensures !OrderChains(p, q, z)
  {
    OrderParsedAntisymmetric(p, q);
    OrderParsedAntisymmetric(p, z);
  }

  lemma TiedSymmetric(x: Parsed, y: Parsed, z: Parsed, i: nat)
    ensures Tied(x, y, z, i) == Tied(x, z, y, i) == Tied(y, x, z, i) == Tied(y, z, x, i) == Tied(z, x, y, i) ==
            Tied(z, y, x, i)
  {
    ComparePartAntisymmetric(Part(x.core, i), Part(y.core, i));
    ComparePartAntisymmetric(Part(y.core, i), Part(z.core, i));
    ComparePartAntisymmetric(Part(x.core, i), Part(z.core, i));
  }

  lemma AllEqualBefore(x: Parsed, y: Parsed, z: Parsed, k: nat)
    requires forall j :: 0 <= j < k ==> Tied(x, y, z, j)
    ensures EqualBefore(x, y, k) && EqualBefore(y, x, k) && EqualBefore(y, z, k) && EqualBefore(z, y, k)
    ensures EqualBefore(x, z, k) && EqualBefore(z, x, k)
  {
    forall j: nat | j < k
      ensures PartsEqual(x, y, j) && PartsEqual(y, x, j) && PartsEqual(y, z, j) && PartsEqual(z, y, j)
      ensures PartsEqual(x, z, j) && PartsEqual(z, x, j)
    {
      assert Tied(x, y, z, j);
      TiedSymmetric(x, y, z, j);
    }
  }

  /** The first split decides between any two of the three. */
  lemma AllDecided(x: Parsed, y: Parsed, z: Parsed, k: nat, n: nat)
    requires n == Width(x, y, z) && k <= n && forall j :: 0 <= j < k ==> Tied(x, y, z, j)
    ensures DecidedAt(x, y, k, n) && DecidedAt(y, x, k, n) && DecidedAt(y, z, k, n) && DecidedAt(z, y, k, n)
    ensures DecidedAt(x, z, k, n) && DecidedAt(z, x, k, n)
  {
    AllEqualBefore(x, y, z, k);
    SplitDecides(x, y, k, n);
    SplitDecides(y, x, k, n);
    SplitDecides(y, z, k, n);
    SplitDecides(z, y, k, n);
    SplitDecides(x, z, k, n);
    SplitDecides(z, x, k, n);
  }

  lemma AllChainUnlessSeparated(x: Parsed, y: Parsed, z: Parsed, k: nat, n: nat)
    requires DecidedAt(x, y, k, n) && DecidedAt(y, x, k, n) && DecidedAt(y, z, k, n) && DecidedAt(z, y, k, n)
    requires DecidedAt(x, z, k, n) && DecidedAt(z, x, k, n)
    requires (k < n ==> !Tied(x, y, z, k)) && !Separated(x, y, z, k, n)
    ensures AllChain(x, y, z)
  {
    TiedSymmetric(x, y, z, k);
    ChainsUnlessSeparated(x, y, z, k, n);
    ChainsUnlessSeparated(x, z, y, k, n);
    ChainsUnlessSeparated(y, x, z, k, n);
    ChainsUnlessSeparated(y, z, x, k, n);
    ChainsUnlessSeparated(z, x, y, k, n);
    ChainsUnlessSeparated(z, y, x, k, n);
  }

  lemma SeparatedBreaksOne(x: Parsed, y: Parsed, z: Parsed, k: nat, n: nat)
    requires DecidedAt(x, y, k, n) && DecidedAt(y, x, k, n) && DecidedAt(y, z, k, n) && DecidedAt(z, y, k, n)
    requires DecidedAt(x, z, k, n) && DecidedAt(z, x, k, n) && Separated(x, y, z, k, n)
    ensures !AllChain(x, y, z)
  {
    if Separates(x, y, z, k, n) { SeparatedBreaks(x, y, z, k, n); }
    else if Separates(y, x, z, k, n) { SeparatedBreaks(y, x, z, k, n); }
    else if Separates(x, z, y, k, n) { SeparatedBreaks(x, z, y, k, n); }
    else if Separates(z, x, y, k, n) { SeparatedBreaks(z, x, y, k, n); }
    else if Separates(y, z, x, k, n) { SeparatedBreaks(y, z, x, k, n); }
    else { SeparatedBreaks(z, y, x, k, n); }
  }

  /**
    Three versions are ordered consistently exactly when, at their first split, none of them separates the
    other two.
   */
  lemma VersionsConsistentIff(a: string, b: string, c: string)
    ensures var (x, y, z) := (Parse(a), Parse(b), Parse(c));
            var n := Width(x, y, z);
            AllChain(x, y, z) <==> !Separated(x, y, z, FirstSplit(x, y, z, 0, n), n)
  {
    var (x, y, z) := (Parse(a), Parse(b), Parse(c));
    var n := Width(x, y, z);
    var k := FirstSplit(x, y, z, 0, n);
    AllDecided(x, y, z, k, n);
    if Separated(x, y, z, k, n) { SeparatedBreaksOne(x, y, z, k, n); } else { AllChainUnlessSeparated(x, y, z, k, n); }
  }

  // ----- the order is not transitive in general -----

  predicate Plain(s: string) { forall i :: 0 <= i < |s| ==> IsAlnum(s[i]) }

  lemma ReadTwoParts(v: string, x: string, y: string)
    requires v == x + "." + y && x != "" && x[0] != 'v' && Plain(x) && Plain(y)
    ensures Parse(v) == Parsed([x, y], "")
  {
    forall i | 0 <= i < |v| ensures v[i] != '-' && v[i] != '+' {
      assert v[i] == if i < |x| then x[i] else if i == |x| then '.' else y[i - |x| - 1];
    }
    assert IndexOf(v, '+') == |v| && IndexOf(v, '-') == |v|;
    var i := IndexOf(v, '.');
    assert v[|x|] == '.';
    assert i == |x| && v[..i] == x && v[i + 1..] == y;
    assert IndexOf(y, '.') == |y|;
    assert Split(y, '.') == [y];
  }

  lemma OneDigit(s: string)
    requires |s| == 1 && Decimal.IsDigit(s[0])
    ensures Number(s) == Some((s[0] - '0') as int)
  {
    assert Decimal.AllDigits(s);
    assert s[..0] == "";
    assert Decimal.Value(s[..0]) == 0;
    assert Decimal.Value(s) == Decimal.DigitValue(s[0]);
  }

  lemma CyclicParts()
    ensures ComparePart("9", "10") < 0 && ComparePart("10", "1a") < 0 && ComparePart("1a", "9") < 0
    ensures !Tame("1a")
  {
    OneDigit("9"); OneDigit("1");
    assert "10"[..1] == "1" && Decimal.Value("1") == 1;
    assert Decimal.Value("10") == 10;
    assert Number("10") == Some(10);
    assert !Decimal.IsDigit("1a"[1]);
    assert Number("1a").None?;
    assert "10"[1..] == "0" && "1a"[1..] == "a";
    assert StringsCompare("0", "a") == -1;
  }

  lemma OrderBySecondPart(v: string, x: string, w: string, y: string)
    requires v == "1." + x && w == "1." + y && Plain(x) && Plain(y) && ComparePart(x, y) != 0
    ensures Order(v, w) == ComparePart(x, y)
  {
    assert v == "1" + "." + x && w == "1" + "." + y;
    ReadTwoParts(v, "1", x);
    ReadTwoParts(w, "1", y);
    ComparePartAntisymmetric("1", "1");
    var a, b := ["1", x], ["1", y];
    assert CompareParts(a, b, 1, 2) == ComparePart(x, y);
    assert CompareParts(a, b, 0, 2) == CompareParts(a, b, 1, 2);
  }

  /** A core part anywhere that starts with a digit or sign, or is empty, without reading as an integer that fits. */
  predicate Mixed(v: string, i: nat) {
    var core := Parse(v).core;
    i < |core| && Number(core[i]).None? && (core[i] == "" || core[i][0] <= '9')
  }

  /** A version leaves the orderly ones exactly by a mixed part at some place, or by an integer as pre-release. */
  lemma OrderlyIff(v: string)
    ensures Orderly(v) <==> (forall i: nat :: !Mixed(v, i)) && (Parse(v).pre == "" || Atoi(Parse(v).pre).None?)
  {
    var core := Parse(v).core;
    if i: nat :| Mixed(v, i) { assert !Tame(core[i]); }
    if i: nat :| i < |core| && !Tame(core[i]) { assert Mixed(v, i); }
  }

  lemma TwoPartsNotOrderly(v: string, x: string)
    requires v == "1." + x && Plain(x) && x != "" && Decimal.IsDigit(x[0]) && Atoi(x).None?
    ensures !Orderly(v)
  {
    assert v == "1" + "." + x;
    ReadTwoParts(v, "1", x);
    assert Mixed(v, 1);
    OrderlyIff(v);
  }

  lemma CycleBySecondPart(a: string, x: string, b: string, y: string, c: string, z: string)
    requires a == "1." + x && b == "1." + y && c == "1." + z && Plain(x) && Plain(y) && Plain(z)
    requires ComparePart(x, y) < 0 && ComparePart(y, z) < 0 && ComparePart(z, x) < 0
    ensures Order(a, b) < 0 && Order(b, c) < 0 && Order(c, a) < 0
  {
    OrderBySecondPart(a, x, b, y);
    OrderBySecondPart(b, y, c, z);
    OrderBySecondPart(c, z, a, x);
  }

  /** 1.9 < 1.10 < 1.1a < 1.9: a mixed part breaks transitivity. */
  lemma {:induction false} OrderCycle(a: string, b: string, c: string)
    requires a == "1.9" && b == "1.10" && c == "1.1a"
    ensures Order(a, b) < 0 && Order(b, c) < 0 && Order(c, a) < 0
    ensures !Orderly(c)
  {
    CyclicParts();
    CycleBySecondPart(a, "9", b, "10", c, "1a");
    TwoPartsNotOrderly(c, "1a");
  }
}

/** The control plane's choice of release for one station. */
module Releases {
  import opened Common
  import Version

  datatype Release = Release(version: string, minTier: int, rolloutPct: int)

  /** `pct` per cent of the hundred buckets are in a staged rollout. */
  predicate InRollout(bucket: nat, pct: int) { pct >= 100 || bucket < pct }

  /** Newer than the running version, supported by the hardware and rolled out to this station. */
  predicate Eligible(r: Release, current: string, tier: int, bucket: nat) {
    Version.Order(r.version, current) > 0 && tier >= r.minTier && InRollout(bucket, r.rolloutPct)
  }

  /** The releases a station may be offered have versions the comparison orders consistently. */
  predicate EligibleOrderly(releases: seq<Release>, current: string, tier: int, bucket: nat) {
    forall r :: r in releases && Eligible(r, current, tier, bucket) ==> Version.Orderly(r.version)
  }

  /** The loop's choice: a later release replaces an earlier one only when it is newer. */
  function Best(releases: seq<Release>, current: string, tier: int, bucket: nat): Option<Release> {
    if releases == [] then None
    else
      var prior, last := Best(releases[..|releases| - 1], current, tier, bucket), releases[|releases| - 1];
      if Eligible(last, current, tier, bucket) &&
         (prior.None? || Version.Order(last.version, prior.value.version) > 0)
      then Some(last) else prior
  }

  method BestRelease(releases: seq<Release>, current: string, tier: int, bucket: nat) returns (best: Option<Release>)
    ensures best == Best(releases, current, tier, bucket)
  {
    best := None;
    for i := 0 to |releases|
      invariant best == Best(releases[..i], current, tier, bucket)
    {
      assert releases[..i + 1][..i] == releases[..i];
      var rel := releases[i];
      var newer := Version.Compare(rel.version, current);
      if newer > 0 && tier >= rel.minTier && InRollout(bucket, rel.rolloutPct) {
        if best.None? {
          best := Some(rel);
        } else {
          var c := Version.Compare(rel.version, best.value.version);
          if c > 0 { best := Some(rel); }
        }
      }
    }
    assert releases[..|releases|] == releases;
  }

  /** No eligible release is newer than `r`. */
  ghost predicate IsMaximum(r: Release, releases: seq<Release>, current: string, tier: int, bucket: nat) {
    r in releases && Eligible(r, current, tier, bucket) &&
    forall s :: s in releases && Eligible(s, current, tier, bucket) ==> Version.Leq(s.version, r.version)
  }

  predicate NoneEligible(releases: seq<Release>, current: string, tier: int, bucket: nat) {
    forall r :: r in releases ==> !Eligible(r, current, tier, bucket)
  }

  lemma NoneEligibleStep(front: seq<Release>, last: Release, current: string, tier: int, bucket: nat)
    ensures NoneEligible(front + [last], current, tier, bucket) <==>
            NoneEligible(front, current, tier, bucket) && !Eligible(last, current, tier, bucket)
  {
    assert last in front + [last];
    assert forall r :: r in front ==> r in front + [last];
  }

  /** Something is offered exactly when some release is eligible, and then an eligible one. */
  lemma {:induction false} BestIsEligible(releases: seq<Release>, current: string, tier: int, bucket: nat)
    ensures var best := Best(releases, current, tier, bucket);
            (best.None? <==> NoneEligible(releases, current, tier, bucket)) &&
            (best.Some? ==> best.value in releases && Eligible(best.value, current, tier, bucket))
  {
    if releases != [] {
      var front, last := releases[..|releases| - 1], releases[|releases| - 1];
      assert releases == front + [last];
      BestIsEligible(front, current, tier, bucket);
      NoneEligibleStep(front, last, current, tier, bucket);
    }
  }

  lemma NewerDominates(r: Release, prior: Release, last: Release)
    requires Version.Orderly(r.version) && Version.Orderly(prior.version) && Version.Orderly(last.version)
    requires Version.Leq(r.version, prior.version) && Version.Order(last.version, prior.version) > 0
    ensures Version.Leq(r.version, last.version)
  {
    Version.OrderAntisymmetric(last.version, prior.version);
    Version.OrderTransitive(r.version, prior.version, last.version);
  }

  /** What is offered is a maximum among the eligible releases, when their versions are orderly. */
  lemma {:induction false} BestIsMaximum(releases: seq<Release>, current: string, tier: int, bucket: nat)
    requires EligibleOrderly(releases, current, tier, bucket)
    ensures var best := Best(releases, current, tier, bucket);
            best.Some? ==> IsMaximum(best.value, releases, current, tier, bucket)
  {
    if releases != [] {
      var front, last := releases[..|releases| - 1], releases[|releases| - 1];
      assert releases == front + [last];
      BestIsMaximum(front, current, tier, bucket);
      BestIsEligible(front, current, tier, bucket);
      BestIsEligible(releases, current, tier, bucket);
      var prior, best := Best(front, current, tier, bucket), Best(releases, current, tier, bucket);
      if best.Some? {
        forall s | s in releases && Eligible(s, current, tier, bucket)
          ensures Version.Leq(s.version, best.value.version)
        {
          LastStep(front, last, prior, best.value, s, current, tier, bucket);
        }
      }
    }
  }

  lemma LastStep(front: seq<Release>, last: Release, prior: Option<Release>, best: Release, s: Release, current: string,
                 tier: int, bucket: nat)
    requires s in front + [last] && Eligible(s, current, tier, bucket) && Version.Orderly(s.version) &&
             Version.Orderly(best.version)
    requires prior.None? <==> NoneEligible(front, current, tier, bucket)
    requires prior.Some? ==>
             Version.Orderly(prior.value.version) && IsMaximum(prior.value, front, current, tier, bucket)
    requires if Eligible(last, current, tier, bucket) &&
                (prior.None? || Version.Order(last.version, prior.value.version) > 0)
             then best == last else prior == Some(best)
    ensures Version.Leq(s.version, best.version)
  {
    Version.OrderAntisymmetric(last.version, last.version);
    if prior.Some? && best == last && s in front && Version.Order(last.version, prior.value.version) > 0 {
      NewerDominates(s, prior.value, last);
    }
  }

  /** Who is offered what, told without naming the choice: the conditions a release has to meet for a station. */
  lemma OfferMeets(releases: seq<Release>, current: string, tier: int, bucket: nat)
    ensures var best := Best(releases, current, tier, bucket);
            best.Some? ==>
              best.value in releases && Version.Order(best.value.version, current) == 1 &&
              best.value.minTier <= tier && (best.value.rolloutPct >= 100 || bucket < best.value.rolloutPct)
    ensures Best(releases, current, tier, bucket).None? <==>
            forall r :: r in releases && Version.Order(r.version, current) == 1 && r.minTier <= tier ==>
              r.rolloutPct < 100 && bucket >= r.rolloutPct
  {
    BestIsEligible(releases, current, tier, bucket);
    forall r | r in releases ensures Version.Order(r.version, current) > 0 <==> Version.Order(r.version, current) == 1 {
      Version.OrderIsSign(r.version, current);
    }
  }

  /** The buckets a rollout of `pct` per cent reaches. */
  function Reached(pct: int): set<nat> { set b: nat | b < 100 && InRollout(b, pct) }

  /** A rollout of `pct` per cent reaches exactly `pct` of the hundred buckets, and raising it leaves none out. */
  lemma {:induction false} RolloutReachesShare(pct: nat, more: int)
    requires pct <= 100
    ensures |Reached(pct)| == pct && (pct <= more ==> Reached(pct) <= Reached(more))
    decreases pct
  {
    if pct > 0 {
      RolloutReachesShare(pct - 1, more);
      assert Reached(pct) == Reached(pct - 1) + {pct - 1};
    }
  }

  /** A station that has taken up what it was offered is offered nothing more of the same releases. */
  lemma UpdateIsFinal(releases: seq<Release>, current: string, tier: int, bucket: nat)
    requires Version.Orderly(current) && forall r :: r in releases ==> Version.Orderly(r.version)
    ensures var best := Best(releases, current, tier, bucket);
            best.Some? ==> Best(releases, best.value.version, tier, bucket).None?
  {
    var best := Best(releases, current, tier, bucket);
    if best.Some? {
      var v := best.value.version;
      BestIsEligible(releases, current, tier, bucket);
      BestIsMaximum(releases, current, tier, bucket);
      forall r | r in releases ensures !Eligible(r, v, tier, bucket) {
        if Eligible(r, v, tier, bucket) { StillEligible(r, v, current, tier, bucket); }
      }
      BestIsEligible(releases, v, tier, bucket);
    }
  }

  lemma StillEligible(r: Release, v: string, current: string, tier: int, bucket: nat)
    requires Version.Orderly(current) && Version.Orderly(r.version) && Version.Orderly(v)
    requires Eligible(r, v, tier, bucket) && Version.Order(v, current) > 0
    ensures Eligible(r, current, tier, bucket)
  {
    Version.OrderAntisymmetric(r.version, v);
    Version.OrderAntisymmetric(v, current);
    Version.OrderAntisymmetric(r.version, current);
    Version.OrderTransitive(current, v, r.version);
  }

  /**
    Whatever order the same releases were published in, one is offered in both cases or in neither, and the
    versions compare equal.
   */
  lemma PublicationOrderIrrelevant(rs1: seq<Release>, rs2: seq<Release>, current: string, tier: int, bucket: nat)
    requires multiset(rs1) == multiset(rs2) && EligibleOrderly(rs1, current, tier, bucket)
    ensures var b1, b2 := Best(rs1, current, tier, bucket), Best(rs2, current, tier, bucket);
            (b1.None? <==> b2.None?) &&
              (b1.Some? && b2.Some? ==> Version.Order(b1.value.version, b2.value.version) == 0)
  {
    SameMembers(rs1, rs2);
    BestIsEligible(rs1, current, tier, bucket);
    BestIsEligible(rs2, current, tier, bucket);
    BestIsMaximum(rs1, current, tier, bucket);
    BestIsMaximum(rs2, current, tier, bucket);
    var b1, b2 := Best(rs1, current, tier, bucket), Best(rs2, current, tier, bucket);
    if b1.Some? && b2.Some? { Version.OrderAntisymmetric(b1.value.version, b2.value.version); }
  }

  lemma SameMembers(rs1: seq<Release>, rs2: seq<Release>)
    requires multiset(rs1) == multiset(rs2)
    ensures forall r :: r in rs1 <==> r in rs2
  {
    forall r
      ensures r in rs1 <==> r in rs2
    {
      assert r in rs1 <==> r in multiset(rs1);
      assert r in rs2 <==> r in multiset(rs2);
    }
  }
}
