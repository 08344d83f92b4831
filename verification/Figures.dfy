/** Decimal figures: printing, rounding, parsing, and the canonical text two spellings of one number share. */
module Figures {
  import opened Common
  import opened Decimal

  /** n * 10^k. */
  function Scale(n: nat, k: nat): nat { if k == 0 then n else 10 * Scale(n, k - 1) }

  /** n / 10^k, rounded down. */
  function Shift(n: nat, k: nat): nat { if k == 0 then n else Shift(n / 10, k - 1) }

  /** units / 10^scale, with a sign that also marks a negative zero. */
  datatype Number = Number(negative: bool, units: nat, scale: nat)

  predicate SameMagnitude(a: Number, b: Number) { Scale(a.units, b.scale) == Scale(b.units, a.scale) }

  predicate SameValue(a: Number, b: Number) { a.negative == b.negative && SameMagnitude(a, b) }

  // ----- printing and parsing -----

  /** The last `p` decimal digits of `n`. */
  function Pad(n: nat, p: nat): (s: string)
    ensures |s| == p && AllDigits(s)
  {
    if p == 0 then "" else Pad(n / 10, p - 1) + [DigitOf(n % 10)]
  }

  function Render(whole: string, frac: string): string { if frac == "" then whole else whole + "." + frac }

  function WholeText(d: Number): (s: string)
    ensures s != "" && AllDigits(s)
  {
    Itoa(Shift(d.units, d.scale))
  }

  /** A number written with all its decimal places. */
  function Printed(d: Number): string {
    (if d.negative then "-" else "") + Render(WholeText(d), Pad(d.units, d.scale))
  }

  function DigitsLen(s: string): (n: nat)
    ensures n <= |s| && AllDigits(s[..n]) && (n < |s| ==> !IsDigit(s[n]))
  {
    if s == "" || !IsDigit(s[0]) then 0
    else
      var n := DigitsLen(s[1..]);
      assert s[..n + 1] == [s[0]] + s[1..][..n];
      n + 1
  }

  function ParseUnsigned(s: string): Option<Number> {
    var n := DigitsLen(s);
    if n == |s| then (if n > 0 then Some(Number(false, Value(s), 0)) else None)
    else if s[n] == '.' && AllDigits(s[n + 1..]) && |s| > 1 then
      Some(Number(false, Value(s[..n] + s[n + 1..]), |s| - n - 1))
    else None
  }

  function Parse(s: string): Option<Number> {
    if "-" <= s then
      var d := ParseUnsigned(s[1..]);
      if d.Some? then Some(d.value.(negative := true)) else None
    else ParseUnsigned(s)
  }

  // ----- rounding -----

  datatype Ties = AwayFromZero | ToEven

  /** To the nearest multiple of 10^-places. */
  function Rounded(d: Number, places: nat, ties: Ties): Number {
    if d.scale <= places then Number(d.negative, Scale(d.units, places - d.scale), places)
    else
      var step := Scale(1, d.scale - places);
      var q := Shift(d.units, d.scale - places);
      var r := d.units - Scale(q, d.scale - places);
      var up := 2 * r > step || (2 * r == step && (ties.AwayFromZero? || q % 2 == 1));
      Number(d.negative, if up then q + 1 else q, places)
  }

  // ----- canonical text -----

  function StripCommas(s: string): string {
    if s == "" then "" else StripCommas(s[..|s| - 1]) + (if s[|s| - 1] == ',' then "" else [s[|s| - 1]])
  }

  function TrimRightChar(s: string, c: char): (r: string)
    ensures r <= s
  {
    if s != "" && s[|s| - 1] == c then TrimRightChar(s[..|s| - 1], c) else s
  }

  function Canonical(n: string): string {
    var s := StripCommas(n);
    if '.' in s then TrimRightChar(TrimRightChar(s, '0'), '.') else s
  }

  /** The roundings under which a number may be quoted. */
  function Roundings(d: Number): seq<Number> {
    [Rounded(d, 0, AwayFromZero), Rounded(d, 1, ToEven), Rounded(d, 2, ToEven)]
  }

  function CanonicalTexts(ys: seq<Number>): (r: seq<string>) {
    seq(|ys|, i requires 0 <= i < |ys| => Canonical(Printed(ys[i])))
  }

  /** The canonical text of a number and of its roundings to 0, 1 and 2 places. */
  function NumberForms(n: string): seq<string> {
    var d := Parse(StripCommas(n));
    [Canonical(n)] + (if d.Some? then CanonicalTexts(Roundings(d.value)) else [])
  }

  // ----- scaling -----

  lemma {:induction false} ScaleAdd(n: nat, a: nat, b: nat)
    ensures Scale(Scale(n, a), b) == Scale(n, a + b)
  {
    if b > 0 { ScaleAdd(n, a, b - 1); }
  }

  lemma {:induction false} ScaleSum(m: nat, n: nat, k: nat)
    ensures Scale(m + n, k) == Scale(m, k) + Scale(n, k)
  {
    if k > 0 { ScaleSum(m, n, k - 1); }
  }

  /** Digits below the scale do not reach the number above. */
  lemma ScaleSplit(m: nat, n: nat, x: nat, y: nat, k: nat)
    requires Scale(m, k) + x == Scale(n, k) + y && x < Scale(1, k) && y < Scale(1, k)
    ensures m == n && x == y
  {
    if m < n {
      ScaleSum(m, n - m, k);
      ScaleSum(1, n - m - 1, k);
    } else {
      ScaleSum(n, m - n, k);
      if m > n { ScaleSum(1, m - n - 1, k); }
    }
  }

  lemma {:induction false} ScaleInjective(m: nat, n: nat, k: nat)
    requires Scale(m, k) == Scale(n, k)
    ensures m == n
  {
    if k > 0 { ScaleInjective(m, n, k - 1); }
  }

  lemma {:induction false} ShiftBounds(n: nat, k: nat)
    ensures Scale(Shift(n, k), k) <= n < Scale(Shift(n, k), k) + Scale(1, k)
  {
    if k > 0 { ShiftBounds(n / 10, k - 1); }
  }

  // ----- digits -----

  /** Appending digits scales the value. */
  lemma {:induction false} ValueConcat(a: string, b: string)
    requires AllDigits(a) && AllDigits(b)
    ensures AllDigits(a + b) && Value(a + b) == Scale(Value(a), |b|) + Value(b)
  {
    if b == "" {
      assert a + b == a;
    } else {
      assert (a + b)[..|a + b| - 1] == a + b[..|b| - 1];
      ValueConcat(a, b[..|b| - 1]);
    }
  }

  lemma {:induction false} ValueBound(s: string)
    requires AllDigits(s)
    ensures Value(s) < Scale(1, |s|)
  {
    if s != "" { ValueBound(s[..|s| - 1]); }
  }

  lemma {:induction false} SameLengthSameValue(a: string, b: string)
    requires AllDigits(a) && AllDigits(b) && |a| == |b| && Value(a) == Value(b)
    ensures a == b
  {
    if a != "" {
      var n := |a| - 1;
      assert Value(a) % 10 == DigitValue(a[n]) && Value(b) % 10 == DigitValue(b[n]);
      SameLengthSameValue(a[..n], b[..n]);
      assert a == a[..n] + [a[n]] && b == b[..n] + [b[n]];
    }
  }

  /** What is printed after the point is what the whole part leaves. */
  lemma {:induction false} ValueOfPad(n: nat, p: nat)
    ensures Scale(Shift(n, p), p) + Value(Pad(n, p)) == n
  {
    if p > 0 {
      ValueOfPad(n / 10, p - 1);
      assert Pad(n, p)[..p - 1] == Pad(n / 10, p - 1);
    }
  }

  // ----- splitting a numeral at its point -----

  lemma {:induction false} DigitsLenAt(whole: string, rest: string)
    requires AllDigits(whole) && (rest != "" ==> !IsDigit(rest[0]))
    ensures DigitsLen(whole + rest) == |whole|
  {
    if whole == "" {
      assert whole + rest == rest;
    } else {
      DigitsLenAt(whole[1..], rest);
      assert (whole + rest)[1..] == whole[1..] + rest;
    }
  }

  lemma ParseRender(whole: string, frac: string)
    requires whole != "" && AllDigits(whole) && AllDigits(frac)
    ensures AllDigits(whole + frac)
    ensures Parse(Render(whole, frac)) == ParseUnsigned(Render(whole, frac)) ==
            Some(Number(false, Value(whole + frac), |frac|))
  {
    var s := Render(whole, frac);
    assert s[0] == whole[0];
    if frac == "" {
      DigitsLenAt(whole, "");
      assert s == whole + "" && whole + frac == whole;
    } else {
      DigitsLenAt(whole, "." + frac);
      assert s == whole + ("." + frac);
      assert s[..|whole|] == whole && s[|whole| + 1..] == frac;
    }
  }

  lemma ParseMinus(s: string)
    ensures Parse("-" + s) == var d := ParseUnsigned(s); if d.Some? then Some(d.value.(negative := true)) else None
  {
    assert ("-" + s)[1..] == s;
  }

  lemma PrintedUnits(d: Number)
    ensures AllDigits(WholeText(d) + Pad(d.units, d.scale)) && Value(WholeText(d) + Pad(d.units, d.scale)) == d.units
  {
    ValueConcat(WholeText(d), Pad(d.units, d.scale));
    ValueOfItoa(Shift(d.units, d.scale));
    ValueOfPad(d.units, d.scale);
  }

  /** Reading back what was printed gives the number. */
  lemma ParsePrinted(d: Number)
    ensures Parse(Printed(d)) == Some(d)
  {
    var text := Render(WholeText(d), Pad(d.units, d.scale));
    ParseRender(WholeText(d), Pad(d.units, d.scale));
    PrintedUnits(d);
    if d.negative { ParseMinus(text); } else { assert "" + text == text; }
  }

  // ----- canonical text of a numeral -----

  lemma {:induction false} NoCommas(s: string)
    requires ',' !in s
    ensures StripCommas(s) == s
  {
    if s != "" { NoCommas(s[..|s| - 1]); }
  }

  lemma {:induction false} TrimConcat(a: string, b: string, c: char)
    ensures TrimRightChar(a + b, c) ==
            if TrimRightChar(b, c) != "" then a + TrimRightChar(b, c) else TrimRightChar(a, c)
  {
    if b == "" {
      assert a + b == a;
    } else if b[|b| - 1] == c {
      assert (a + b)[..|a + b| - 1] == a + b[..|b| - 1];
      TrimConcat(a, b[..|b| - 1], c);
    }
  }

  function Stripped(frac: string): (r: string)
    ensures r <= frac && (r != "" ==> r[|r| - 1] != '0')
  {
    TrimStops(frac, '0');
    TrimRightChar(frac, '0')
  }

  lemma {:induction false} TrimStops(s: string, c: char)
    ensures TrimRightChar(s, c) == "" || TrimRightChar(s, c)[|TrimRightChar(s, c)| - 1] != c
  {
    if s != "" && s[|s| - 1] == c { TrimStops(s[..|s| - 1], c); }
  }

  lemma CanonicalRender(whole: string, frac: string)
    requires whole != "" && AllDigits(whole) && AllDigits(frac)
    ensures StripCommas(Render(whole, frac)) == Render(whole, frac)
    ensures Canonical(Render(whole, frac)) == Render(whole, Stripped(frac))
  {
    var s := Render(whole, frac);
    NoCommas(s);
    if frac != "" {
      assert s[|whole|] == '.';
      TrimFraction(whole, frac);
    }
  }

  lemma TrimFraction(whole: string, frac: string)
    requires whole != "" && AllDigits(whole) && AllDigits(frac)
    ensures TrimRightChar(TrimRightChar(whole + "." + frac, '0'), '.') == Render(whole, Stripped(frac))
  {
    TrimConcat(whole + ".", frac, '0');
    TrimPoint(whole, Stripped(frac));
    assert whole + "." + "" == whole + ".";
  }

  lemma TrimPoint(whole: string, frac: string)
    requires whole != "" && AllDigits(whole) && AllDigits(frac)
    ensures TrimRightChar(whole + ".", '0') == whole + "."
    ensures TrimRightChar(whole + "." + frac, '.') == Render(whole, frac)
  {
    if frac == "" {
      TrimConcat(whole, ".", '.');
      assert "."[..0] == "" && whole + "." + frac == whole + ".";
    } else {
      var t := whole + "." + frac;
      assert t[|t| - 1] == frac[|frac| - 1];
    }
  }

  lemma RenderInjective(whole: string, frac: string, otherWhole: string, otherFrac: string)
    requires AllDigits(whole) && AllDigits(otherWhole) && Render(whole, frac) == Render(otherWhole, otherFrac)
    ensures whole == otherWhole && frac == otherFrac
  {
    var s, t := Render(whole, frac), Render(otherWhole, otherFrac);
    var dot, otherDot := if frac == "" then "" else "." + frac, if otherFrac == "" then "" else "." + otherFrac;
    assert s == whole + dot && t == otherWhole + otherDot;
    DigitsLenAt(whole, dot);
    DigitsLenAt(otherWhole, otherDot);
    assert whole == s[..|whole|] == otherWhole;
    assert dot == s[|whole|..] == otherDot;
    if frac != "" { assert frac == dot[1..]; }
    if otherFrac != "" { assert otherFrac == otherDot[1..]; }
  }

  /** Trailing zeros only scale. */
  lemma {:induction false} StripScales(whole: string, frac: string)
    requires AllDigits(whole) && AllDigits(frac)
    ensures AllDigits(whole + frac) && AllDigits(whole + Stripped(frac))
    ensures Value(whole + frac) == Scale(Value(whole + Stripped(frac)), |frac| - |Stripped(frac)|)
  {
    if frac != "" && frac[|frac| - 1] == '0' {
      var front := frac[..|frac| - 1];
      StripScales(whole, front);
      assert (whole + frac)[..|whole + frac| - 1] == whole + front;
      assert Value(whole + frac) == 10 * Value(whole + front);
    }
  }

  function Numeral(whole: string, frac: string): Number
    requires AllDigits(whole) && AllDigits(frac)
  {
    assert AllDigits(whole + frac);
    Number(false, Value(whole + frac), |frac|)
  }

  /** Fractions that differ in trailing zeros only give the same value. */
  lemma StrippedSameValue(whole: string, frac: string, otherFrac: string)
    requires AllDigits(whole) && AllDigits(frac) && AllDigits(otherFrac) && Stripped(frac) == Stripped(otherFrac)
    ensures SameValue(Numeral(whole, frac), Numeral(whole, otherFrac))
  {
    StripScales(whole, frac);
    StripScales(whole, otherFrac);
    var s := |Stripped(frac)|;
    CrossScale(Value(whole + Stripped(frac)), |frac| - s, |otherFrac|, |otherFrac| - s, |frac|);
  }

  lemma CrossScale(v: nat, a: nat, b: nat, c: nat, d: nat)
    requires a + b == c + d
    ensures Scale(Scale(v, a), b) == Scale(Scale(v, c), d)
  {
    ScaleAdd(v, a, b);
    ScaleAdd(v, c, d);
  }

  /** Numerals with the same canonical text have the same value. */
  lemma SameTextSameValue(whole: string, frac: string, otherWhole: string, otherFrac: string)
    requires whole != "" && otherWhole != "" && AllDigits(whole) && AllDigits(otherWhole) && AllDigits(frac) &&
             AllDigits(otherFrac)
    requires Canonical(Render(whole, frac)) == Canonical(Render(otherWhole, otherFrac))
    ensures SameValue(Numeral(whole, frac), Numeral(otherWhole, otherFrac))
  {
    CanonicalRender(whole, frac);
    CanonicalRender(otherWhole, otherFrac);
    RenderInjective(whole, Stripped(frac), otherWhole, Stripped(otherFrac));
    StrippedSameValue(whole, frac, otherFrac);
  }

  lemma SplitUnits(whole: string, frac: string, otherWhole: string, otherFrac: string)
    requires Plain(whole) && Plain(otherWhole) && AllDigits(frac) && AllDigits(otherFrac) && |frac| == |otherFrac|
    requires Numeral(whole, frac).units == Numeral(otherWhole, otherFrac).units
    ensures whole == otherWhole && frac == otherFrac
  {
    ValueConcat(whole, frac);
    ValueConcat(otherWhole, otherFrac);
    ValueBound(frac);
    ValueBound(otherFrac);
    ScaleSplit(Value(whole), Value(otherWhole), Value(frac), Value(otherFrac), |frac|);
    ItoaOfValue(whole);
    ItoaOfValue(otherWhole);
    SameLengthSameValue(frac, otherFrac);
  }

  /** A fraction without trailing zeros is no longer than another spelling of the same value. */
  lemma NoLonger(whole: string, frac: string, otherWhole: string, otherFrac: string)
    requires AllDigits(whole) && AllDigits(otherWhole) && AllDigits(frac) && AllDigits(otherFrac)
    requires SameMagnitude(Numeral(whole, frac), Numeral(otherWhole, otherFrac)) && Stripped(otherFrac) == otherFrac
    ensures |otherFrac| <= |frac|
  {
    if |otherFrac| > |frac| {
      var k := |otherFrac| - |frac|;
      var u, v := Numeral(whole, frac).units, Numeral(otherWhole, otherFrac).units;
      ScaleAdd(u, k, |frac|);
      ScaleInjective(Scale(u, k), v, |frac|);
      LastDigit(otherWhole, otherFrac);
    }
  }

  lemma LastDigit(whole: string, frac: string)
    requires AllDigits(whole) && AllDigits(frac) && frac != "" && Stripped(frac) == frac
    ensures Numeral(whole, frac).units % 10 != 0
  {
    var s := whole + frac;
    assert s[|s| - 1] == frac[|frac| - 1];
    assert Value(s) % 10 == DigitValue(frac[|frac| - 1]);
    assert DigitOf(0) == '0';
  }

  /** Without superfluous leading zeros, equal values have equal canonical text. */
  lemma SameValueSameText(whole: string, frac: string, otherWhole: string, otherFrac: string)
    requires Plain(whole) && Plain(otherWhole) && AllDigits(frac) && AllDigits(otherFrac)
    requires SameMagnitude(Numeral(whole, frac), Numeral(otherWhole, otherFrac))
    ensures Render(whole, Stripped(frac)) == Render(otherWhole, Stripped(otherFrac))
  {
    var f, g := Stripped(frac), Stripped(otherFrac);
    StrippedMagnitude(whole, frac, otherWhole, otherFrac);
    NoLonger(whole, f, otherWhole, g);
    SameMagnitudeSymmetric(Numeral(whole, f), Numeral(otherWhole, g));
    NoLonger(otherWhole, g, whole, f);
    ScaleInjective(Numeral(whole, f).units, Numeral(otherWhole, g).units, |f|);
    SplitUnits(whole, f, otherWhole, g);
  }

  lemma SameMagnitudeSymmetric(a: Number, b: Number)
    requires SameMagnitude(a, b)
    ensures SameMagnitude(b, a)
  {
  }

  lemma StrippedMagnitude(whole: string, frac: string, otherWhole: string, otherFrac: string)
    requires AllDigits(whole) && AllDigits(otherWhole) && AllDigits(frac) && AllDigits(otherFrac)
    requires SameMagnitude(Numeral(whole, frac), Numeral(otherWhole, otherFrac))
    ensures SameMagnitude(Numeral(whole, Stripped(frac)), Numeral(otherWhole, Stripped(otherFrac)))
    ensures Stripped(Stripped(frac)) == Stripped(frac) && Stripped(Stripped(otherFrac)) == Stripped(otherFrac)
  {
    var f, g := Stripped(frac), Stripped(otherFrac);
    StripScales(whole, frac);
    StripScales(otherWhole, otherFrac);
    var u, v := Value(whole + f), Value(otherWhole + g);
    var a, b := |frac| - |f|, |otherFrac| - |g|;
    ScaleAdd(u, a, |otherFrac|);
    ScaleAdd(v, b, |frac|);
    ScaleAdd(u, |g|, a + b);
    ScaleAdd(v, |f|, a + b);
    ScaleInjective(Scale(u, |g|), Scale(v, |f|), a + b);
  }

  // ----- rounding is to the nearest -----

  /** The rounded value is at most half a step away, and exact when there are places enough. */
  lemma RoundingIsNearest(d: Number, places: nat, ties: Ties)
    ensures Rounded(d, places, ties).scale == places && Rounded(d, places, ties).negative == d.negative
    ensures d.scale <= places ==> SameValue(Rounded(d, places, ties), d)
    ensures d.scale > places ==>
              var k := d.scale - places;
              2 * d.units <= 2 * Scale(Rounded(d, places, ties).units, k) + Scale(1, k) &&
              2 * Scale(Rounded(d, places, ties).units, k) <= 2 * d.units + Scale(1, k)
  {
    if d.scale <= places {
      ScaleAdd(d.units, places - d.scale, d.scale);
    } else {
      var k := d.scale - places;
      ShiftBounds(d.units, k);
      ScaleSum(Shift(d.units, k), 1, k);
    }
  }

  /** Exactly half a step goes to the even neighbour, or away from zero, as asked. */
  lemma TiesAre(d: Number, places: nat)
    requires d.scale > places && 2 * (d.units - Scale(Shift(d.units, d.scale - places), d.scale - places)) ==
             Scale(1, d.scale - places)
    ensures Rounded(d, places, ToEven).units % 2 == 0
    ensures 2 * Scale(Rounded(d, places, AwayFromZero).units, d.scale - places) ==
            2 * d.units + Scale(1, d.scale - places)
  {
    ScaleSum(Shift(d.units, d.scale - places), 1, d.scale - places);
  }
}
