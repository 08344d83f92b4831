/** Finding numbers, percentages and dates in a text, leftmost first and as long as possible. */
module Tokens {
  import opened Common
  import opened Decimal
  import opened Figures

  // ----- numbers: \d[\d,]*(?:\.\d+)? -----

  predicate InRun(c: char) { IsDigit(c) || c == ',' }

  function RunLen(s: string): (n: nat)
    ensures n <= |s| && (n < |s| ==> !InRun(s[n])) && forall i :: 0 <= i < n ==> InRun(s[i])
  {
    if s == "" || !InRun(s[0]) then 0 else 1 + RunLen(s[1..])
  }

  function NumberLen(s: string): (n: nat)
    ensures RunLen(s) <= n <= |s|
  {
    var j := RunLen(s);
    if j + 1 < |s| && s[j] == '.' && IsDigit(s[j + 1]) then j + 1 + DigitsLen(s[j + 1..]) else j
  }

  predicate StartsNumber(s: string) { s != "" && IsDigit(s[0]) }

  lemma NumberLenPositive(s: string)
    requires StartsNumber(s)
    ensures RunLen(s) > 0 && NumberLen(s) > 0
  {
  }

  function FindNumbers(s: string): seq<string>
    decreases |s|
  {
    if s == "" then []
    else if StartsNumber(s) then
      NumberLenPositive(s);
      [s[..NumberLen(s)]] + FindNumbers(s[NumberLen(s)..])
    else FindNumbers(s[1..])
  }

  /** A whole text that is one number. */
  predicate IsToken(t: string) { StartsNumber(t) && NumberLen(t) == |t| }

  // ----- percentages: a number, white space, a percent sign -----

  predicate IsBlank(c: char) { c == ' ' || c == '\t' || c == '\n' || c == '\r' || c == 12 as char }

  function BlankLen(s: string): (n: nat)
    ensures n <= |s| && (n < |s| ==> !IsBlank(s[n])) && forall i :: 0 <= i < n ==> IsBlank(s[i])
  {
    if s == "" || !IsBlank(s[0]) then 0 else 1 + BlankLen(s[1..])
  }

  predicate PercentFollows(s: string) { BlankLen(s) < |s| && s[BlankLen(s)] == '%' }

  predicate StartsPercent(s: string) { StartsNumber(s) && PercentFollows(s[NumberLen(s)..]) }

  function PercentLen(s: string): (n: nat)
    requires StartsPercent(s)
    ensures NumberLen(s) < n <= |s|
  {
    NumberLen(s) + BlankLen(s[NumberLen(s)..]) + 1
  }

  datatype Percent = Percent(number: string, text: string)

  function FindPercents(s: string): seq<Percent>
    decreases |s|
  {
    if s == "" then []
    else if StartsPercent(s) then [Percent(s[..NumberLen(s)], s[..PercentLen(s)])] + FindPercents(s[PercentLen(s)..])
    else FindPercents(s[1..])
  }

  /** Every percentage replaced by a space. */
  function DropPercents(s: string): string
    decreases |s|
  {
    if s == "" then ""
    else if StartsPercent(s) then " " + DropPercents(s[PercentLen(s)..])
    else [s[0]] + DropPercents(s[1..])
  }

  // ----- dates: \d{4}-\d{2}-\d{2} -----

  predicate DateShaped(s: string) {
    |s| == 10 && AllDigits(s[..4]) && s[4] == '-' && AllDigits(s[5..7]) && s[7] == '-' && AllDigits(s[8..])
  }

  function FindDates(s: string): (r: seq<string>)
    ensures forall i :: 0 <= i < |r| ==> DateShaped(r[i])
    decreases |s|
  {
    if |s| < 10 then [] else if DateShaped(s[..10]) then [s[..10]] + FindDates(s[10..]) else FindDates(s[1..])
  }

  /** Every occurrence of `d` replaced by a space. */
  function ReplaceAll(s: string, d: string): string
    requires d != ""
    decreases |s|
  {
    if s == "" then "" else if d <= s then " " + ReplaceAll(s[|d|..], d) else [s[0]] + ReplaceAll(s[1..], d)
  }

  // ----- the shape of a number -----

  lemma {:induction false} RunOf(a: string, rest: string)
    requires (forall i :: 0 <= i < |a| ==> InRun(a[i])) && (rest != "" ==> !InRun(rest[0]))
    ensures RunLen(a + rest) == |a|
  {
    if a == "" {
      assert a + rest == rest;
    } else {
      RunOf(a[1..], rest);
      assert (a + rest)[1..] == a[1..] + rest;
    }
  }

  predicate Run(run: string) { StartsNumber(run) && forall i :: 0 <= i < |run| ==> InRun(run[i]) }

  /** What may follow a number without becoming part of it. */
  predicate Stops(rest: string) {
    rest == "" || (!InRun(rest[0]) && (rest[0] == '.' ==> |rest| == 1 || !IsDigit(rest[1])))
  }

  /** The number at the start of a text, taken apart. */
  lemma {:induction false} NumberParts(s: string) returns (run: string, frac: string, rest: string)
    requires StartsNumber(s)
    ensures Run(run) && AllDigits(frac) && s == Render(run, frac) + rest
    ensures s[..NumberLen(s)] == Render(run, frac) && rest == s[NumberLen(s)..]
    ensures if frac == "" then Stops(rest) else rest == "" || !IsDigit(rest[0])
  {
    var j, n := RunLen(s), NumberLen(s);
    run, rest := s[..j], s[n..];
    if n == j {
      frac := "";
    } else {
      frac := s[j + 1..n];
      var d := DigitsLen(s[j + 1..]);
      assert frac == s[j + 1..][..d];
      assert s[..n] == s[..j] + "." + frac;
      if rest != "" { assert rest[0] == s[j + 1..][d]; }
    }
    assert s == s[..n] + s[n..];
  }

  lemma SpelledLen(run: string, frac: string, rest: string)
    requires Run(run) && AllDigits(frac) && (if frac == "" then Stops(rest) else rest == "" || !IsDigit(rest[0]))
    ensures NumberLen(Render(run, frac) + rest) == |Render(run, frac)|
  {
    var s := Render(run, frac) + rest;
    if frac == "" {
      RunOf(run, rest);
    } else {
      assert s == run + ("." + frac + rest);
      RunOf(run, "." + frac + rest);
      assert s[|run| + 1..] == frac + rest;
      DigitsLenAt(frac, rest);
    }
  }

  lemma FoundIsToken(s: string)
    requires StartsNumber(s)
    ensures IsToken(s[..NumberLen(s)])
  {
    var run, frac, rest := NumberParts(s);
    SpelledLen(run, frac, "");
    assert Render(run, frac) + "" == Render(run, frac);
    assert Render(run, frac)[0] == run[0];
  }

  /** A number keeps its extent in front of anything that does not continue it. */
  lemma TokenThen(t: string, rest: string)
    requires IsToken(t) && Stops(rest)
    ensures NumberLen(t + rest) == |t|
  {
    var run, frac, none := NumberParts(t);
    assert t[..|t|] == t;
    SpelledLen(run, frac, rest);
  }

  lemma {:induction false} StripRun(run: string)
    requires forall i :: 0 <= i < |run| ==> InRun(run[i])
    ensures AllDigits(StripCommas(run))
    ensures Run(run) ==> StripCommas(run) != "" && StripCommas(run)[0] == run[0]
  {
    if |run| > 1 { StripRun(run[..|run| - 1]); } else if |run| == 1 { assert run[..0] == ""; }
  }

  lemma {:induction false} StripConcat(a: string, b: string)
    ensures StripCommas(a + b) == StripCommas(a) + StripCommas(b)
  {
    if b == "" {
      assert a + b == a;
    } else {
      assert (a + b)[..|a + b| - 1] == a + b[..|b| - 1];
      StripConcat(a, b[..|b| - 1]);
    }
  }

  function WholePart(t: string): string { StripCommas(t[..RunLen(t)]) }

  function FracPart(t: string): string { if RunLen(t) < |t| then t[RunLen(t) + 1..] else "" }

  lemma PartsOfRender(run: string, frac: string)
    requires Run(run) && AllDigits(frac)
    ensures WholePart(Render(run, frac)) == StripCommas(run) && FracPart(Render(run, frac)) == frac
  {
    var t := Render(run, frac);
    if frac == "" {
      RunOf(run, "");
      assert run + "" == t && t[..|run|] == run;
    } else {
      assert t == run + ("." + frac);
      RunOf(run, "." + frac);
      assert t[..|run|] == run && t[|run| + 1..] == frac;
    }
  }

  lemma {:induction false} StripRender(run: string, frac: string)
    requires AllDigits(frac)
    ensures StripCommas(Render(run, frac)) == Render(StripCommas(run), frac)
  {
    if frac != "" {
      assert Render(run, frac) == run + ("." + frac);
      StripConcat(run, "." + frac);
      NoCommas("." + frac);
      assert StripCommas(run) + ("." + frac) == StripCommas(run) + "." + frac;
    }
  }

  /** A number without its thousands separators. */
  lemma TokenText(t: string)
    requires IsToken(t)
    ensures WholePart(t) != "" && AllDigits(WholePart(t)) && AllDigits(FracPart(t))
    ensures StripCommas(t) == Render(WholePart(t), FracPart(t))
  {
    var run, frac, rest := NumberParts(t);
    assert t[..|t|] == t;
    StripRun(run);
    PartsOfRender(run, frac);
    StripRender(run, frac);
  }

  /** The value a number denotes. */
  function TokenNumber(t: string): Number
    requires IsToken(t)
  {
    TokenText(t);
    Numeral(WholePart(t), FracPart(t))
  }

  lemma TokenCanonical(t: string)
    requires IsToken(t)
    ensures AllDigits(WholePart(t)) && AllDigits(FracPart(t)) && WholePart(t) != ""
    ensures Canonical(t) == Render(WholePart(t), Stripped(FracPart(t)))
  {
    TokenText(t);
    CanonicalRender(WholePart(t), FracPart(t));
  }

  lemma TokenParse(t: string)
    requires IsToken(t)
    ensures Parse(StripCommas(t)) == Some(TokenNumber(t))
  {
    TokenText(t);
    ParseRender(WholePart(t), FracPart(t));
  }

  // ----- scanning past text without digits -----

  predicate NoDigits(s: string) { forall i :: 0 <= i < |s| ==> !IsDigit(s[i]) }

  lemma {:induction false} NumbersPast(w: string, rest: string)
    requires NoDigits(w)
    ensures FindNumbers(w + rest) == FindNumbers(rest)
  {
    if w == "" {
      assert w + rest == rest;
    } else {
      assert (w + rest)[1..] == w[1..] + rest;
      NumbersPast(w[1..], rest);
    }
  }

  lemma NumbersAt(t: string, rest: string)
    requires IsToken(t) && Stops(rest)
    ensures FindNumbers(t + rest) == [t] + FindNumbers(rest)
  {
    TokenThen(t, rest);
    assert (t + rest)[..|t|] == t && (t + rest)[|t|..] == rest;
  }

  /** `w` holds no percentage of its own and hides none in `rest`. */
  predicate PassedOver(w: string, rest: string) {
    FindPercents(w + rest) == FindPercents(rest) && DropPercents(w + rest) == w + DropPercents(rest)
  }

  lemma PercentsSkip(s: string)
    requires s != "" && !StartsPercent(s)
    ensures FindPercents(s) == FindPercents(s[1..]) && DropPercents(s) == [s[0]] + DropPercents(s[1..])
  {
  }

  lemma PassOne(w: string, rest: string)
    requires w != "" && !StartsPercent(w + rest) && PassedOver(w[1..], rest)
    ensures PassedOver(w, rest)
  {
    PercentsSkip(w + rest);
    assert (w + rest)[1..] == w[1..] + rest;
    Cons(w, DropPercents(rest));
  }

  lemma Cons(w: string, s: string)
    requires w != ""
    ensures [w[0]] + (w[1..] + s) == w + s
  {
    assert w == [w[0]] + w[1..];
  }

  lemma {:induction false} PercentsPast(w: string, rest: string)
    requires NoDigits(w)
    ensures PassedOver(w, rest)
  {
    if w == "" {
      assert w + rest == rest;
    } else {
      PercentsPast(w[1..], rest);
      PassOne(w, rest);
    }
  }

  /** From any of its digits on, a number reads to its end. */
  predicate NumberTail(t: string) { forall k :: 0 <= k < |t| && IsDigit(t[k]) ==> IsToken(t[k..]) }

  lemma TokenTail(t: string)
    requires IsToken(t)
    ensures NumberTail(t)
  {
    var run, frac, rest := NumberParts(t);
    assert t[..|t|] == t;
    forall k | 0 <= k < |t| && IsDigit(t[k]) ensures IsToken(t[k..]) {
      if k < |run| {
        SpelledLen(run[k..], frac, "");
        assert t[k..] == Render(run[k..], frac) + "";
      } else {
        assert t[k..] == frac[k - |run| - 1..];
        SpelledLen(t[k..], "", "");
        assert Render(t[k..], "") + "" == t[k..];
      }
    }
  }

  lemma NotPercentThen(t: string, rest: string)
    requires t != "" && NumberTail(t) && Stops(rest) && !PercentFollows(rest)
    ensures !StartsPercent(t + rest) && NumberTail(t[1..])
  {
    if IsDigit(t[0]) {
      assert t[0..] == t;
      TokenThen(t, rest);
      assert (t + rest)[|t|..] == rest;
    }
    forall k | 0 <= k < |t[1..]| && IsDigit(t[1..][k])
      ensures IsToken(t[1..][k..])
    {
      assert t[1..][k..] == t[k + 1..];
    }
  }

  /** A number without a percent sign after it is passed over whole. */
  lemma {:induction false} PercentsPastNumber(t: string, rest: string)
    requires NumberTail(t) && Stops(rest) && !PercentFollows(rest)
    ensures PassedOver(t, rest)
  {
    if t == "" {
      assert t + rest == rest;
    } else {
      NotPercentThen(t, rest);
      PercentsPastNumber(t[1..], rest);
      PassOne(t, rest);
    }
  }

  lemma {:induction false} PercentsAt(t: string, rest: string)
    requires IsToken(t)
    ensures FindPercents(t + "%" + rest) == [Percent(t, t + "%")] + FindPercents(rest)
    ensures DropPercents(t + "%" + rest) == " " + DropPercents(rest)
  {
    var s := t + "%" + rest;
    var tail := "%" + rest;
    assert s == t + tail;
    TokenThen(t, tail);
    assert s[|t|..] == tail && s[..|t|] == t && s[..|t| + 1] == t + "%" && s[|t| + 1..] == rest;
  }

  // ----- scanning for dates -----

  /** No hyphen follows a digit, as one does in a date. */
  predicate HyphensApart(s: string) { forall i :: 0 < i < |s| && s[i] == '-' ==> !IsDigit(s[i - 1]) }

  lemma HyphensApartTail(s: string)
    requires s != "" && HyphensApart(s)
    ensures HyphensApart(s[1..])
  {
    forall i | 0 < i < |s[1..]| && s[1..][i] == '-' ensures !IsDigit(s[1..][i - 1]) { assert s[i + 1] == '-'; }
  }

  lemma HyphensApartConcat(a: string, b: string)
    requires HyphensApart(a) && HyphensApart(b) && (a != "" && IsDigit(a[|a| - 1]) ==> b == "" || b[0] != '-')
    ensures HyphensApart(a + b)
  {
    var s := a + b;
    forall i | 0 < i < |s| && s[i] == '-' ensures !IsDigit(s[i - 1]) {
      if i > |a| { assert b[i - |a|] == '-'; }
    }
  }

  lemma DateHasHyphen(s: string)
    requires |s| >= 10 && DateShaped(s[..10])
    ensures s[4] == '-' && IsDigit(s[3]) && IsDigit(s[0]) && IsDigit(s[1]) && IsDigit(s[2])
  {
    var year := s[..10][..4];
    assert year[0] == s[0] && year[1] == s[1] && year[2] == s[2] && year[3] == s[3];
  }

  lemma {:induction false} NoDates(s: string)
    requires HyphensApart(s)
    ensures FindDates(s) == []
    decreases |s|
  {
    if |s| >= 10 {
      HyphensApartTail(s);
      NoDates(s[1..]);
      if DateShaped(s[..10]) { DateHasHyphen(s); }
    }
  }

  /** Inside a text without dates of its own no date starts, whatever date follows it. */
  lemma NoDateBefore(x: string, d: string, y: string)
    requires x != "" && HyphensApart(x) && DateShaped(d)
    ensures var s := x + d + y; |s| >= 10 && !DateShaped(s[..10]) && !(d <= s)
  {
    var s := x + d + y;
    assert d <= s ==> s[..10] == d;
    DateHasHyphen(d + y) by { assert (d + y)[..10] == d; }
    if DateShaped(s[..10]) {
      DateHasHyphen(s);
      HyphenFrom(x, d + y);
    }
  }

  /** A hyphen four places into `x + r` that follows a digit is not in `x`, nor among the digits at the start of `r`. */
  lemma HyphenFrom(x: string, r: string)
    requires x != "" && HyphensApart(x) && |r| >= 4 && IsDigit(r[0]) && IsDigit(r[1]) && IsDigit(r[2]) && IsDigit(r[3])
    requires (x + r)[4] == '-'
    ensures !IsDigit((x + r)[3])
  {
    if |x| > 4 { assert x[4] == '-'; }
  }

  lemma {:induction false} OneDate(x: string, d: string, y: string)
    requires HyphensApart(x) && DateShaped(d) && HyphensApart(y)
    ensures FindDates(x + d + y) == [d]
  {
    var s := x + d + y;
    if x == "" {
      assert s[..10] == d && s[10..] == y;
      NoDates(y);
    } else {
      NoDateBefore(x, d, y);
      HyphensApartTail(x);
      assert s[1..] == x[1..] + d + y;
      OneDate(x[1..], d, y);
    }
  }

  lemma {:induction false} NoneToReplace(y: string, d: string)
    requires DateShaped(d) && HyphensApart(y)
    ensures ReplaceAll(y, d) == y
  {
    if y != "" {
      if d <= y {
        assert y[..10] == d;
        DateHasHyphen(y);
      }
      HyphensApartTail(y);
      NoneToReplace(y[1..], d);
    }
  }

  lemma {:induction false} ReplaceOne(x: string, d: string, y: string)
    requires HyphensApart(x) && DateShaped(d) && HyphensApart(y)
    ensures ReplaceAll(x + d + y, d) == x + " " + y
  {
    var s := x + d + y;
    if x == "" {
      assert d <= s && s[|d|..] == y;
      NoneToReplace(y, d);
    } else {
      NoDateBefore(x, d, y);
      HyphensApartTail(x);
      assert s[1..] == x[1..] + d + y;
      ReplaceOne(x[1..], d, y);
    }
  }

  /** A date left in a text reads as three numbers. */
  lemma DateNumbers(d: string, rest: string)
    requires DateShaped(d) && Stops(rest)
    ensures IsToken(d[..4]) && IsToken(d[5..7]) && IsToken(d[8..])
    ensures FindNumbers(d + rest) == [d[..4], d[5..7], d[8..]] + FindNumbers(rest)
  {
    var y, m, e := d[..4], d[5..7], d[8..];
    DigitsToken(y);
    DigitsToken(m);
    DigitsToken(e);
    DateParts(d, rest);
    NumberDash(y, m + ("-" + (e + rest)));
    NumberDash(m, e + rest);
    NumbersAt(e, rest);
    Brackets(y, m, e, FindNumbers(rest));
  }

  lemma DateParts(d: string, rest: string)
    requires DateShaped(d)
    ensures d + rest == d[..4] + ("-" + (d[5..7] + ("-" + (d[8..] + rest))))
  {
    assert d == d[..4] + [d[4]] + d[5..7] + [d[7]] + d[8..];
  }

  lemma {:induction false} NumberDash(t: string, rest: string)
    requires IsToken(t)
    ensures FindNumbers(t + ("-" + rest)) == [t] + FindNumbers(rest)
  {
    NumbersAt(t, "-" + rest);
    NumbersPast("-", rest);
  }

  lemma Brackets(a: string, b: string, c: string, rest: seq<string>)
    ensures [a] + ([b] + ([c] + rest)) == [a, b, c] + rest
  {
  }

  lemma DigitsToken(t: string)
    requires t != "" && AllDigits(t)
    ensures IsToken(t)
  {
    SpelledLen(t, "", "");
    assert Render(t, "") + "" == t;
  }
}
