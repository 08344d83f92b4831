/** What a reply that passes the check can contain: nothing numeric escapes it. */
module Replies {
  import opened Decimal
  import opened Figures
  import opened Tokens
  import opened Grounding

  /** A piece of a reply and how it was judged. */
  datatype Part = Char(c: char) | Share(number: string, text: string) | Day(text: string) | Figure(text: string)

  function TextOf(p: Part): string { if p.Char? then [p.c] else p.text }

  /** The reply the parts spell. */
  function Source(ps: seq<Part>): string { if ps == [] then "" else TextOf(ps[0]) + Source(ps[1..]) }

  /** What is left to scan: a judged part shows as a space. */
  function Shown(ps: seq<Part>): (s: string)
    ensures |s| == |ps|
  {
    seq(|ps|, i requires 0 <= i < |ps| => if ps[i].Char? then ps[i].c else ' ')
  }

  lemma ShownDrop(ps: seq<Part>, k: nat)
    requires k <= |ps|
    ensures Shown(ps[k..]) == Shown(ps)[k..]
  {
  }

  lemma {:induction false} SourceConcat(a: seq<Part>, b: seq<Part>)
    ensures Source(a + b) == Source(a) + Source(b)
  {
    if a == [] {
      assert a + b == b;
    } else {
      assert (a + b)[1..] == a[1..] + b;
      SourceConcat(a[1..], b);
    }
  }

  /** Where no space shows, the text shown is the text of the reply. */
  lemma {:induction false} ShownIsSource(ps: seq<Part>, k: nat)
    requires k <= |ps| && ' ' !in Shown(ps)[..k]
    ensures Source(ps) == Shown(ps)[..k] + Source(ps[k..])
  {
    if k == 0 {
      assert ps[0..] == ps;
    } else {
      assert Shown(ps)[..k][0] != ' ';
      ShownDrop(ps, 1);
      assert Shown(ps)[..k] == [Shown(ps)[0]] + Shown(ps[1..])[..k - 1];
      ShownIsSource(ps[1..], k - 1);
      assert ps[1..][k - 1..] == ps[k..];
    }
  }

  // ----- the three readings -----

  function ReadPercents(s: string): seq<Part>
    decreases |s|
  {
    if s == "" then []
    else if StartsPercent(s) then [Share(s[..NumberLen(s)], s[..PercentLen(s)])] + ReadPercents(s[PercentLen(s)..])
    else [Char(s[0])] + ReadPercents(s[1..])
  }

  function ReadDate(ps: seq<Part>, d: string): seq<Part>
    requires d != ""
    decreases |ps|
  {
    if ps == [] then []
    else if d <= Shown(ps) then [Day(d)] + ReadDate(ps[|d|..], d)
    else [ps[0]] + ReadDate(ps[1..], d)
  }

  function ReadNumbers(ps: seq<Part>): seq<Part>
    decreases |ps|
  {
    if ps == [] then []
    else if StartsNumber(Shown(ps)) then
      NumberLenPositive(Shown(ps));
      [Figure(Shown(ps)[..NumberLen(Shown(ps))])] + ReadNumbers(ps[NumberLen(Shown(ps))..])
    else [ps[0]] + ReadNumbers(ps[1..])
  }

  lemma ShownCons(p: Part, ps: seq<Part>)
    ensures Shown([p] + ps) == [if p.Char? then p.c else ' '] + Shown(ps)
    ensures Source([p] + ps) == TextOf(p) + Source(ps)
  {
    assert ([p] + ps)[1..] == ps;
  }

  lemma {:induction false} PercentsRead(s: string)
    ensures Source(ReadPercents(s)) == s && Shown(ReadPercents(s)) == DropPercents(s)
    ensures forall p :: p in ReadPercents(s) ==> p.Char? || (p.Share? && Percent(p.number, p.text) in FindPercents(s))
    decreases |s|
  {
    if s != "" {
      if StartsPercent(s) {
        var n := PercentLen(s);
        PercentsRead(s[n..]);
        ShownCons(Share(s[..NumberLen(s)], s[..n]), ReadPercents(s[n..]));
        assert s[..n] + s[n..] == s;
      } else {
        PercentsRead(s[1..]);
        ShownCons(Char(s[0]), ReadPercents(s[1..]));
        assert [s[0]] + s[1..] == s;
      }
    }
  }

  lemma {:induction false} DateRead(ps: seq<Part>, d: string)
    requires DateShaped(d)
    ensures Source(ReadDate(ps, d)) == Source(ps) && Shown(ReadDate(ps, d)) == ReplaceAll(Shown(ps), d)
    ensures forall p :: p in ReadDate(ps, d) ==> p == Day(d) || p in ps
    decreases |ps|
  {
    if ps != [] {
      if d <= Shown(ps) {
        var n := |d|;
        assert Shown(ps)[..n] == d;
        NoSpaceInDate(d);
        ShownIsSource(ps, n);
        ShownDrop(ps, n);
        DateRead(ps[n..], d);
        ShownCons(Day(d), ReadDate(ps[n..], d));
      } else {
        ShownDrop(ps, 1);
        DateRead(ps[1..], d);
        ShownCons(ps[0], ReadDate(ps[1..], d));
      }
    }
  }

  lemma NoSpaceInDate(d: string)
    requires DateShaped(d)
    ensures ' ' !in d
  {
    assert d == d[..4] + [d[4]] + d[5..7] + [d[7]] + d[8..];
  }

  lemma NoSpaceInNumber(s: string)
    requires StartsNumber(s)
    ensures ' ' !in s[..NumberLen(s)]
  {
    var run, frac, rest := NumberParts(s);
  }

  lemma {:induction false} NumbersRead(ps: seq<Part>)
    ensures Source(ReadNumbers(ps)) == Source(ps)
    ensures forall p :: p in ReadNumbers(ps) ==>
              (p.Figure? && p.text in FindNumbers(Shown(ps))) || (p in ps && (p.Char? ==> !IsDigit(p.c)))
    decreases |ps|
  {
    if ps != [] {
      var s := Shown(ps);
      if StartsNumber(s) {
        NumberLenPositive(s);
        NoSpaceInNumber(s);
        var n := NumberLen(s);
        ShownIsSource(ps, n);
        ShownDrop(ps, n);
        NumbersRead(ps[n..]);
        ShownCons(Figure(s[..n]), ReadNumbers(ps[n..]));
      } else {
        ShownDrop(ps, 1);
        NumbersRead(ps[1..]);
        ShownCons(ps[0], ReadNumbers(ps[1..]));
      }
    }
  }

  lemma {:induction false} DatesRead(ps: seq<Part>, dates: seq<string>, c: Context) returns (qs: seq<Part>)
    requires AllDates(dates)
    ensures Source(qs) == Source(ps) && Shown(qs) == DropDates(Shown(ps), dates, c)
    ensures forall p :: p in qs ==> p in ps || (p.Day? && (p.text == c.date || p.text == c.scoreDate))
  {
    qs := ps;
    if dates != [] {
      var d := dates[|dates| - 1];
      qs := DatesRead(ps, dates[..|dates| - 1], c);
      if d == c.date || d == c.scoreDate {
        DateRead(qs, d);
        qs := ReadDate(qs, d);
      }
    }
  }

  // ----- the guarantee -----

  /** Why a piece of a reply may be shown. */
  ghost predicate Justified(p: Part, c: Context) {
    match p
    case Char(ch) => !IsDigit(ch)
    case Share(number, text) =>
      number <= text && NoDigits(text[|number|..]) && IsToken(number) && Given(c, TokenNumber(number))
    case Day(d) => d == c.date || d == c.scoreDate
    case Figure(t) => IsToken(t) && (Given(c, TokenNumber(t)) || WindowValue(TokenNumber(t)))
  }

  /** After its number a percentage has only white space and the sign. */
  lemma PercentSign(s: string)
    requires StartsPercent(s)
    ensures NoDigits(s[..PercentLen(s)][NumberLen(s)..])
  {
    var n := NumberLen(s);
    var rest := s[n..];
    forall i | 0 <= i < PercentLen(s) - n ensures !IsDigit(rest[i]) {}
    assert s[..PercentLen(s)][n..] == rest[..PercentLen(s) - n];
  }

  lemma {:induction false} PercentsAreTokens(s: string)
    ensures forall p :: p in FindPercents(s) ==>
            IsToken(p.number) && p.number <= p.text && NoDigits(p.text[|p.number|..])
    decreases |s|
  {
    if s != "" {
      if StartsPercent(s) {
        FoundIsToken(s);
        PercentSign(s);
        PercentsAreTokens(s[PercentLen(s)..]);
      } else {
        PercentsAreTokens(s[1..]);
      }
    }
  }

  /**
    A reply that passes splits into pieces without digits, percentages quoting given values, dates of the context,
    and numbers that quote a given value or a period length: no digit of it is unaccounted for.
   */
  lemma EveryDigitJustified(reply: string, c: Context) returns (parts: seq<Part>)
    requires Ungrounded(reply, c) == []
    ensures Source(parts) == reply && forall p :: p in parts ==> Justified(p, c)
  {
    var text := DropPercents(reply);
    PercentsRead(reply);
    var dated := DatesRead(ReadPercents(reply), FindDates(text), c);
    NumbersRead(dated);
    parts := ReadNumbers(dated);
    NoBadPercents(FindPercents(reply), Allowed(c));
    NoBadNumbers(FindNumbers(Rest(reply, c)), Allowed(c));
    PercentsAreTokens(reply);
    FoundAreTokens(Rest(reply, c));
    forall p | p in parts ensures Justified(p, c) {
      match p
      case Char(_) =>
      case Day(_) =>
      case Share(number, t) =>
        assert Percent(number, t) in FindPercents(reply);
        AllowedIsGiven(c, number);
      case Figure(t) =>
        assert NumberOk(t, Allowed(c));
        if Canonical(t) in Allowed(c) { AllowedIsGiven(c, t); } else { WindowIff(t); }
    }
  }

  /** Numbers written without superfluous leading zeros, in the reply and in the context's issue messages. */
  ghost predicate PlainReply(reply: string, c: Context) {
    PlainIssues(c) &&
    (forall p :: p in FindPercents(reply) ==> PlainToken(p.number)) &&
    (forall n :: n in FindNumbers(Rest(reply, c)) ==> PlainToken(n))
  }

  ghost predicate SharesGiven(reply: string, c: Context) {
    forall p :: p in FindPercents(reply) ==> IsToken(p.number) && Given(c, TokenNumber(p.number))
  }

  ghost predicate NumbersGiven(reply: string, c: Context) {
    forall n :: n in FindNumbers(Rest(reply, c)) ==>
      IsToken(n) && (Given(c, TokenNumber(n)) || WindowValue(TokenNumber(n)))
  }

  /**
    Without leading zeros, a reply passes exactly when each percentage quotes a given value and each other
    number that or a period length.
   */
  lemma PassesIff(reply: string, c: Context)
    requires PlainReply(reply, c)
    ensures Ungrounded(reply, c) == [] <==> SharesGiven(reply, c) && NumbersGiven(reply, c)
  {
    NoBadPercents(FindPercents(reply), Allowed(c));
    NoBadNumbers(FindNumbers(Rest(reply, c)), Allowed(c));
    forall p | p in FindPercents(reply)
      ensures Canonical(p.number) in Allowed(c) <==> Given(c, TokenNumber(p.number))
    {
      AllowedIff(c, p.number);
    }
    forall n | n in FindNumbers(Rest(reply, c))
      ensures NumberOk(n, Allowed(c)) <==> Given(c, TokenNumber(n)) || WindowValue(TokenNumber(n))
    {
      AllowedIff(c, n);
      WindowIff(n);
    }
  }

  lemma AllowedIff(c: Context, t: string)
    requires PlainToken(t) && PlainIssues(c)
    ensures Canonical(t) in Allowed(c) <==> Given(c, TokenNumber(t))
  {
    if Canonical(t) in Allowed(c) { AllowedIsGiven(c, t); }
    if Given(c, TokenNumber(t)) { GivenIsAllowed(c, t); }
  }
}
