/** The fixed answers, and why each would pass the check applied to a model's reply. */
module Answers {
  import opened Decimal
  import opened Figures
  import opened Tokens
  import opened Grounding

  // ----- thousands separators -----

  /** A comma before every third digit from the right. */
  function Grouped(w: string): string { if |w| <= 3 then w else Grouped(w[..|w| - 3]) + "," + w[|w| - 3..] }

  predicate Comma(w: string, k: nat)
    requires k < |w|
  {
    k > 0 && (|w| - k) % 3 == 0
  }

  /** The first `i` digits as the printing loop writes them. */
  function GroupedPrefix(w: string, i: nat): string
    requires i <= |w|
  {
    if i == 0 then ""
    else
      var before := GroupedPrefix(w, i - 1);
      if Comma(w, i - 1) then before + "," + [w[i - 1]] else before + [w[i - 1]]
  }

  function Magnitude(v: Number): Number { v.(negative := false) }

  function FixedParts(v: Number, places: nat): (string, string) {
    var r := Rounded(Magnitude(v), places, ToEven);
    (WholeText(r), Pad(r.units, r.scale))
  }

  function CommasText(v: Number, places: nat): string {
    var (whole, frac) := FixedParts(v, places);
    (if v.negative && v.units > 0 then "-" else "") + Render(Grouped(whole), frac)
  }

  method Commas(v: Number, places: nat) returns (s: string)
    ensures s == CommasText(v, places)
  {
    var (whole, frac) := FixedParts(v, places);
    var b := "";
    for i := 0 to |whole|
      invariant b == GroupedPrefix(whole, i)
    {
      if i > 0 && (|whole| - i) % 3 == 0 { b := b + ","; }
      b := b + [whole[i]];
    }
    PrefixIsGrouped(whole);
    s := (if v.negative && v.units > 0 then "-" else "") + Render(b, frac);
  }

  lemma {:induction false} PrefixOfShorter(w: string, i: nat)
    requires |w| > 3 && i <= |w| - 3
    ensures GroupedPrefix(w, i) == GroupedPrefix(w[..|w| - 3], i)
  {
    if i > 0 { PrefixOfShorter(w, i - 1); }
  }

  lemma {:induction false} PrefixIsGrouped(w: string)
    ensures GroupedPrefix(w, |w|) == Grouped(w)
  {
    var n := |w|;
    if n > 3 {
      PrefixOfShorter(w, n - 3);
      PrefixIsGrouped(w[..n - 3]);
      LastThree(w);
    } else {
      PrefixOfShort(w, n);
      assert w[..n] == w;
    }
  }

  lemma CommaPositions(w: string)
    requires |w| > 3
    ensures Comma(w, |w| - 3) && !Comma(w, |w| - 2) && !Comma(w, |w| - 1)
  {
  }

  lemma PrefixStep(w: string, k: nat)
    requires k < |w|
    ensures GroupedPrefix(w, k + 1) == GroupedPrefix(w, k) + (if Comma(w, k) then [',', w[k]] else [w[k]])
  {
  }

  lemma LastThree(w: string)
    requires |w| > 3
    ensures GroupedPrefix(w, |w|) == GroupedPrefix(w, |w| - 3) + "," + w[|w| - 3..]
  {
    CommaPositions(w);
    PrefixStep(w, |w| - 3);
    PrefixStep(w, |w| - 2);
    PrefixStep(w, |w| - 1);
    AppendThree(GroupedPrefix(w, |w| - 3), w[|w| - 3..]);
  }

  lemma AppendThree(p: string, t: string)
    requires |t| == 3
    ensures p + [',', t[0]] + [t[1]] + [t[2]] == p + "," + t
  {
  }

  lemma {:induction false} PrefixOfShort(w: string, i: nat)
    requires i <= |w| <= 3
    ensures GroupedPrefix(w, i) == w[..i]
  {
    if i > 0 { PrefixOfShort(w, i - 1); }
  }

  lemma {:induction false} GroupedRun(w: string)
    requires w != "" && AllDigits(w)
    ensures Run(Grouped(w))
  {
    if |w| > 3 { GroupedRun(w[..|w| - 3]); }
  }

  lemma {:induction false} GroupedStrips(w: string)
    requires AllDigits(w)
    ensures StripCommas(Grouped(w)) == w
  {
    if |w| <= 3 {
      NoCommas(w);
    } else {
      var front, last := w[..|w| - 3], w[|w| - 3..];
      GroupedStrips(front);
      StripComma(Grouped(front), last);
      NoCommas(last);
    }
  }

  /** The character `j` places from the right is a separator exactly when `j` is 3 more than a multiple of 4. */
  predicate SeparatorFits(g: string, j: nat)
    requires j < |g|
  {
    g[|g| - 1 - j] == ',' <==> j % 4 == 3
  }

  lemma SeparatorStep(before: string, last: string, j: nat)
    requires |last| == 3 && AllDigits(last) && j < |before| + 4 && (j >= 4 ==> SeparatorFits(before, j - 4))
    ensures |before + "," + last| == |before| + 4 && SeparatorFits(before + "," + last, j)
  {
    var g := before + "," + last;
    if j < 3 {
      assert g[|g| - 1 - j] == last[2 - j] && IsDigit(last[2 - j]);
    } else if j > 3 {
      assert g[|g| - 1 - j] == before[|before| - 1 - (j - 4)];
    }
  }

  lemma SeparatorShort(w: string, j: nat)
    requires |w| <= 3 && AllDigits(w) && j < |w|
    ensures SeparatorFits(w, j)
  {
    assert IsDigit(w[|w| - 1 - j]);
  }

  lemma DigitsSplit(w: string)
    requires |w| > 3 && AllDigits(w)
    ensures AllDigits(w[..|w| - 3]) && AllDigits(w[|w| - 3..])
  {
  }

  /** Every place from the right is as it should be. */
  predicate SeparatorsFit(g: string) { forall j: nat :: j < |g| ==> SeparatorFits(g, j) }

  lemma SeparatorsStep(before: string, last: string)
    requires |last| == 3 && AllDigits(last) && SeparatorsFit(before)
    ensures SeparatorsFit(before + "," + last)
  {
    forall j: nat | j < |before + "," + last| ensures SeparatorFits(before + "," + last, j) {
      SeparatorStep(before, last, j);
    }
  }

  /** Counted from the right, every fourth character is a separator and no other is. */
  lemma {:induction false} SeparatorsAt(w: string)
    requires AllDigits(w)
    ensures SeparatorsFit(Grouped(w))
  {
    if |w| <= 3 {
      forall j: nat | j < |w| ensures SeparatorFits(w, j) { SeparatorShort(w, j); }
    } else {
      DigitsSplit(w);
      SeparatorsAt(w[..|w| - 3]);
      SeparatorsStep(Grouped(w[..|w| - 3]), w[|w| - 3..]);
    }
  }

  lemma StripComma(a: string, b: string)
    ensures StripCommas(a + "," + b) == StripCommas(a) + StripCommas(b)
  {
    assert (a + ",")[..|a|] == a;
    StripConcat(a + ",", b);
  }

  /** A printed amount is one token, and reads as the rounded figure. */
  lemma CommasToken(v: Number, places: nat)
    requires !v.negative
    ensures IsToken(CommasText(v, places))
    ensures Canonical(CommasText(v, places)) == Canonical(Printed(Rounded(v, places, ToEven)))
  {
    var (whole, frac) := FixedParts(v, places);
    GroupedRun(whole);
    GroupedStrips(whole);
    RunToken(Grouped(whole), frac);
    StripRender(Grouped(whole), frac);
    CanonicalRender(whole, frac);
    assert Magnitude(v) == v;
    assert "" + Render(Grouped(whole), frac) == Render(Grouped(whole), frac);
    assert "" + Render(whole, frac) == Render(whole, frac);
  }

  lemma RunToken(run: string, frac: string)
    requires Run(run) && AllDigits(frac)
    ensures IsToken(Render(run, frac))
  {
    SpelledLen(run, frac, "");
    assert Render(run, frac) + "" == Render(run, frac);
    assert Render(run, frac)[0] == run[0];
  }

  lemma CountToken(n: nat)
    ensures IsToken(Itoa(n)) && Canonical(Itoa(n)) == Canonical(Printed(Count(n))) == Itoa(n)
  {
    RunToken(Itoa(n), "");
    CanonicalRender(Itoa(n), "");
    PrintedCanonical(Count(n));
  }

  // ----- answers as pieces -----

  /** A piece of an answer: words, an amount, an amount with a percent sign, or a date. */
  datatype Piece = Words(text: string) | Amount(text: string) | Share(text: string) | Date(text: string)

  function PieceText(p: Piece): string { if p.Share? then p.text + "%" else p.text }

  function Text(ps: seq<Piece>): string { if ps == [] then "" else PieceText(ps[0]) + Text(ps[1..]) }

  function Shares(ps: seq<Piece>): seq<Percent> {
    if ps == [] then [] else (if ps[0].Share? then [Percent(ps[0].text, ps[0].text + "%")] else []) + Shares(ps[1..])
  }

  function Amounts(ps: seq<Piece>): seq<string> {
    if ps == [] then [] else (if ps[0].Amount? then [ps[0].text] else []) + Amounts(ps[1..])
  }

  /** Percentages replaced by a space. */
  function Masked(ps: seq<Piece>): seq<Piece> {
    if ps == [] then [] else [if ps[0].Share? then Words(" ") else ps[0]] + Masked(ps[1..])
  }

  predicate QuietChar(c: char) { !IsDigit(c) && c != '%' }

  predicate Quiet(w: string) { forall i :: 0 <= i < |w| ==> QuietChar(w[i]) }

  /** Words that end a number before them; a lone full stop does so only at the end. */
  predicate Closes(w: string, last: bool) {
    Quiet(w) && w != "" && w[0] != ',' && w[0] != '-' &&
    (w[0] == '.' ==> last || |w| > 1) &&
    (IsBlank(w[0]) ==> |w| > 1 && !IsBlank(w[1]))
  }

  predicate FitsAt(ps: seq<Piece>, i: nat)
    requires i < |ps|
  {
    match ps[i]
    case Words(w) => Quiet(w)
    case Share(t) => IsToken(t)
    case Amount(t) => IsToken(t) && (i + 1 == |ps| || (ps[i + 1].Words? && Closes(ps[i + 1].text, i + 2 == |ps|)))
    case Date(_) => false
  }

  /** Words around numbers, each number closed by the words after it. */
  predicate Fits(ps: seq<Piece>) { forall i :: 0 <= i < |ps| ==> FitsAt(ps, i) }

  lemma FitsTail(ps: seq<Piece>)
    requires ps != [] && Fits(ps)
    ensures Fits(ps[1..]) && FitsAt(ps, 0)
  {
    forall i: nat | i < |ps[1..]| ensures FitsAt(ps[1..], i) { assert FitsAt(ps, i + 1); }
  }

  lemma ClosesNumber(w: string, last: bool, rest: string)
    requires Closes(w, last) && (last ==> rest == "")
    ensures Stops(w + rest) && !PercentFollows(w + rest) && (w + rest)[0] != '-'
  {
    var s := w + rest;
    assert s[0] == w[0] && (|w| > 1 ==> s[1] == w[1]);
    if IsBlank(w[0]) {
      assert BlankLen(s[1..]) == 0;
      assert BlankLen(s) == 1;
    }
  }

  lemma AfterAmount(ps: seq<Piece>)
    requires ps != [] && ps[0].Amount? && FitsAt(ps, 0)
    ensures Stops(Text(ps[1..])) && !PercentFollows(Text(ps[1..]))
    ensures Stops(Text(Masked(ps[1..]))) && (Text(Masked(ps[1..])) == "" || Text(Masked(ps[1..]))[0] != '-')
  {
    if |ps| > 1 {
      var rest := ps[1..];
      ClosesNumber(rest[0].text, |ps| == 2, Text(rest[1..]));
      ClosesNumber(rest[0].text, |ps| == 2, Text(Masked(rest[1..])));
      assert Masked(rest)[1..] == Masked(rest[1..]);
    }
  }

  lemma TokenQuietTail(t: string)
    requires IsToken(t)
    ensures HyphensApart(t) && '%' !in t
  {
    var run, frac, rest := NumberParts(t);
    assert t[..|t|] == t;
  }

  lemma {:induction false} ScanPercents(ps: seq<Piece>)
    requires Fits(ps)
    ensures FindPercents(Text(ps)) == Shares(ps) && DropPercents(Text(ps)) == Text(Masked(ps))
  {
    if ps != [] {
      var rest := Text(ps[1..]);
      FitsTail(ps);
      ScanPercents(ps[1..]);
      assert Masked(ps)[1..] == Masked(ps[1..]);
      match ps[0]
      case Words(w) => PercentsPast(w, rest);
      case Amount(t) =>
        AfterAmount(ps);
        TokenTail(t);
        PercentsPastNumber(t, rest);
      case Share(t) => PercentsAt(t, rest);
    }
  }

  lemma {:induction false} ScanNumbers(ps: seq<Piece>)
    requires Fits(ps)
    ensures FindNumbers(Text(Masked(ps))) == Amounts(ps)
  {
    if ps != [] {
      var rest := Text(Masked(ps[1..]));
      FitsTail(ps);
      ScanNumbers(ps[1..]);
      assert Masked(ps)[1..] == Masked(ps[1..]);
      match ps[0]
      case Words(w) => NumbersPast(w, rest);
      case Amount(t) =>
        AfterAmount(ps);
        NumbersAt(t, rest);
      case Share(t) => NumbersPast(" ", rest);
    }
  }

  lemma {:induction false} MaskedHyphensApart(ps: seq<Piece>)
    requires Fits(ps)
    ensures HyphensApart(Text(Masked(ps)))
  {
    if ps != [] {
      FitsTail(ps);
      MaskedHyphensApart(ps[1..]);
      assert Masked(ps)[1..] == Masked(ps[1..]);
      match ps[0]
      case Words(w) => QuietApart(w, Text(Masked(ps[1..])));
      case Amount(t) =>
        AfterAmount(ps);
        TokenQuietTail(t);
        HyphensApartConcat(t, Text(Masked(ps[1..])));
      case Share(t) => QuietApart(" ", Text(Masked(ps[1..])));
    }
  }

  lemma QuietApart(w: string, rest: string)
    requires Quiet(w) && HyphensApart(rest)
    ensures HyphensApart(w + rest)
  {
    assert forall i :: 0 <= i < |w| ==> QuietChar(w[i]);
    HyphensApartConcat(w, rest);
  }

  /** A number or percentage of an answer that the check accepts. */
  predicate PieceOk(p: Piece, allowed: set<string>) {
    match p
    case Amount(t) => NumberOk(t, allowed)
    case Share(t) => Canonical(t) in allowed
    case _ => true
  }

  predicate PiecesOk(ps: seq<Piece>, allowed: set<string>) { forall i :: 0 <= i < |ps| ==> PieceOk(ps[i], allowed) }

  lemma {:induction false} ListsOk(ps: seq<Piece>, allowed: set<string>)
    ensures PiecesOk(ps, allowed) <==>
            (forall p :: p in Shares(ps) ==> Canonical(p.number) in allowed) &&
              (forall n :: n in Amounts(ps) ==> NumberOk(n, allowed))
  {
    if ps != [] {
      ListsOk(ps[1..], allowed);
      assert PiecesOk(ps, allowed) <==> PieceOk(ps[0], allowed) && PiecesOk(ps[1..], allowed) by {
        if PieceOk(ps[0], allowed) && PiecesOk(ps[1..], allowed) {
          forall i | 0 <= i < |ps| ensures PieceOk(ps[i], allowed) { if i > 0 { assert ps[i] == ps[1..][i - 1]; } }
        }
        if PiecesOk(ps, allowed) {
          forall i | 0 <= i < |ps[1..]| ensures PieceOk(ps[1..][i], allowed) { assert ps[1..][i] == ps[i + 1]; }
        }
      }
    }
  }

  /** A well-spaced answer passes exactly when each of its numbers does. */
  lemma AnswerPassesIff(ps: seq<Piece>, c: Context)
    requires Fits(ps)
    ensures Ungrounded(Text(ps), c) == [] <==> PiecesOk(ps, Allowed(c))
  {
    ScanPercents(ps);
    ScanNumbers(ps);
    MaskedHyphensApart(ps);
    NoDates(Text(Masked(ps)));
    NoBadPercents(Shares(ps), Allowed(c));
    NoBadNumbers(Amounts(ps), Allowed(c));
    ListsOk(ps, Allowed(c));
  }

  // ----- an answer with a date -----

  lemma {:induction false} NoPercentSign(s: string)
    requires '%' !in s
    ensures FindPercents(s) == [] && DropPercents(s) == s
    decreases |s|
  {
    if s != "" { NoPercentSign(s[1..]); }
  }

  predicate NoShares(ps: seq<Piece>) { forall i :: 0 <= i < |ps| ==> !ps[i].Share? }

  lemma {:induction false} TextNoSign(ps: seq<Piece>)
    requires Fits(ps) && NoShares(ps)
    ensures '%' !in Text(ps) && Masked(ps) == ps && Shares(ps) == []
  {
    if ps != [] {
      FitsTail(ps);
      TextNoSign(ps[1..]);
      match ps[0]
      case Words(w) => assert forall i :: 0 <= i < |w| ==> QuietChar(w[i]);
      case Amount(t) => TokenQuietTail(t);
      case Share(_) => assert false;
    }
  }

  predicate OpenAt(ps: seq<Piece>, i: nat)
    requires i < |ps|
  {
    match ps[i]
    case Words(w) => Quiet(w)
    case Amount(t) => IsToken(t) && i + 1 < |ps| && ps[i + 1].Words? && Closes(ps[i + 1].text, false)
    case _ => false
  }

  /** Words around numbers, each number closed before the end, so that anything may follow. */
  predicate Open(ps: seq<Piece>) { forall i :: 0 <= i < |ps| ==> OpenAt(ps, i) }

  lemma OpenTail(ps: seq<Piece>)
    requires ps != [] && Open(ps)
    ensures Open(ps[1..]) && OpenAt(ps, 0)
  {
    forall i: nat | i < |ps[1..]| ensures OpenAt(ps[1..], i) { assert OpenAt(ps, i + 1); }
  }

  lemma OpenFits(ps: seq<Piece>)
    requires Open(ps)
    ensures Fits(ps) && NoShares(ps)
  {
    forall i: nat | i < |ps| ensures FitsAt(ps, i) && !ps[i].Share? { assert OpenAt(ps, i); }
  }

  lemma OpenStops(ps: seq<Piece>, rest: string)
    requires ps != [] && ps[0].Words? && Closes(ps[0].text, false)
    ensures Stops(Text(ps) + rest)
  {
    var w, more := ps[0].text, Text(ps[1..]) + rest;
    ClosesNumber(w, false, more);
    assert Text(ps) + rest == w + more;
  }

  /** Numbers before are read whatever follows the sentence. */
  lemma {:induction false} NumbersUpTo(ps: seq<Piece>, rest: string)
    requires Open(ps)
    ensures FindNumbers(Text(ps) + rest) == Amounts(ps) + FindNumbers(rest)
  {
    if ps == [] {
      assert "" + rest == rest;
    } else {
      OpenTail(ps);
      NumbersUpTo(ps[1..], rest);
      OpenHead(ps, rest);
      TextHead(ps, rest);
      Joined(if ps[0].Amount? then [ps[0].text] else [], Amounts(ps[1..]), FindNumbers(rest));
    }
  }

  lemma TextHead(ps: seq<Piece>, rest: string)
    requires ps != [] && !ps[0].Share?
    ensures Text(ps) + rest == ps[0].text + (Text(ps[1..]) + rest)
  {
    assert Text(ps) == ps[0].text + Text(ps[1..]);
    Joined(ps[0].text, Text(ps[1..]), rest);
  }

  lemma Joined<T>(a: seq<T>, b: seq<T>, c: seq<T>)
    ensures a + (b + c) == a + b + c
  {
  }

  lemma {:induction false} OpenHead(ps: seq<Piece>, rest: string)
    requires ps != [] && OpenAt(ps, 0)
    ensures var more := Text(ps[1..]) + rest;
            FindNumbers(ps[0].text + more) == (if ps[0].Amount? then [ps[0].text] else []) + FindNumbers(more)
  {
    var t, more := ps[0].text, Text(ps[1..]) + rest;
    if ps[0].Words? {
      QuietNoDigits(t);
      NumbersPast(t, more);
    } else {
      OpenStops(ps[1..], rest);
      NumbersAt(t, more);
    }
  }

  lemma QuietNoDigits(w: string)
    requires Quiet(w)
    ensures NoDigits(w)
  {
    assert forall i :: 0 <= i < |w| ==> QuietChar(w[i]);
  }

  predicate ContextDate(d: string, c: Context) { d == c.date || d == c.scoreDate }

  /** Each number of a date is accepted as a number. */
  predicate DateOk(d: string, allowed: set<string>)
    requires DateShaped(d)
  {
    NumberOk(d[..4], allowed) && NumberOk(d[5..7], allowed) && NumberOk(d[8..], allowed)
  }

  lemma DropOne(text: string, d: string, c: Context)
    requires DateShaped(d)
    ensures DropDates(text, [d], c) == if ContextDate(d, c) then ReplaceAll(text, d) else text
  {
    var ds := [d];
    assert ds[..|ds| - 1] == [];
  }

  /** What is left of a sentence with a date. */
  lemma DatedRest(x: string, d: string, y: string, c: Context)
    requires DateShaped(d) && HyphensApart(x) && HyphensApart(y) && '%' !in x && '%' !in y
    ensures FindPercents(x + d + y) == []
    ensures Rest(x + d + y, c) == if ContextDate(d, c) then x + " " + y else x + d + y
  {
    NoSignInDate(d);
    NoPercentSign(x + d + y);
    OneDate(x, d, y);
    ReplaceOne(x, d, y);
    DropOne(x + d + y, d, c);
  }

  lemma OpenText(ps: seq<Piece>)
    requires Open(ps)
    ensures HyphensApart(Text(ps)) && '%' !in Text(ps)
  {
    OpenFits(ps);
    TextNoSign(ps);
    MaskedHyphensApart(ps);
  }

  lemma TailText(qs: seq<Piece>)
    requires Fits(qs) && NoShares(qs)
    ensures HyphensApart(Text(qs)) && '%' !in Text(qs) && FindNumbers(Text(qs)) == Amounts(qs)
  {
    TextNoSign(qs);
    MaskedHyphensApart(qs);
    ScanNumbers(qs);
  }

  lemma {:induction false} NumbersWithoutDate(ps: seq<Piece>, y: string)
    requires Open(ps)
    ensures FindNumbers(Text(ps) + " " + y) == Amounts(ps) + FindNumbers(y)
  {
    NumbersUpTo(ps, " " + y);
    NumbersPast(" ", y);
    assert Text(ps) + " " + y == Text(ps) + (" " + y);
  }

  lemma {:induction false} NumbersWithDate(ps: seq<Piece>, d: string, y: string)
    requires Open(ps) && DateShaped(d) && Stops(y)
    ensures FindNumbers(Text(ps) + d + y) == Amounts(ps) + ([d[..4], d[5..7], d[8..]] + FindNumbers(y))
  {
    NumbersUpTo(ps, d + y);
    DateNumbers(d, y);
    assert Text(ps) + d + y == Text(ps) + (d + y);
  }

  /** The numbers of a date left in a sentence: none, if it is the context's own. */
  function DatedNumbers(d: string, c: Context): seq<string>
    requires DateShaped(d)
  {
    if ContextDate(d, c) then [] else [d[..4], d[5..7], d[8..]]
  }

  lemma DatedNumbersOk(d: string, c: Context)
    requires DateShaped(d)
    ensures (forall n :: n in DatedNumbers(d, c) ==> NumberOk(n, Allowed(c))) <==>
            ContextDate(d, c) || DateOk(d, Allowed(c))
  {
    var dated := DatedNumbers(d, c);
    if !ContextDate(d, c) { assert dated[0] in dated && dated[1] in dated && dated[2] in dated; }
  }

  lemma DatedUngrounded(ps: seq<Piece>, d: string, y: string, c: Context)
    requires Open(ps) && DateShaped(d) && HyphensApart(y) && '%' !in y && Stops(y)
    ensures Ungrounded(Text(ps) + d + y, c) ==
            BadNumbers(Amounts(ps) + (DatedNumbers(d, c) + FindNumbers(y)), Allowed(c))
  {
    OpenText(ps);
    DatedRest(Text(ps), d, y, c);
    if ContextDate(d, c) { NumbersWithoutDate(ps, y); } else { NumbersWithDate(ps, d, y); }
    NoPercentsUngrounded(Text(ps) + d + y, c);
    assert [] + FindNumbers(y) == FindNumbers(y);
  }

  lemma NoPercentsUngrounded(reply: string, c: Context)
    requires FindPercents(reply) == []
    ensures Ungrounded(reply, c) == BadNumbers(FindNumbers(Rest(reply, c)), Allowed(c))
  {
  }

  lemma ThreeLists(a: seq<string>, b: seq<string>, e: seq<string>, allowed: set<string>)
    ensures BadNumbers(a + (b + e), allowed) == [] <==>
            (forall n :: n in a ==> NumberOk(n, allowed)) && (forall n :: n in b ==> NumberOk(n, allowed)) &&
            (forall n :: n in e ==> NumberOk(n, allowed))
  {
    NoBadNumbers(a + (b + e), allowed);
  }

  lemma PiecesOkIff(ps: seq<Piece>, allowed: set<string>)
    requires Fits(ps) && NoShares(ps)
    ensures PiecesOk(ps, allowed) <==> forall n :: n in Amounts(ps) ==> NumberOk(n, allowed)
  {
    TextNoSign(ps);
    ListsOk(ps, allowed);
  }

  /**
    A sentence with a date passes exactly when its numbers do and the date is the context's own, or else each of the
    date's three numbers is accepted as a number.
   */
  lemma DatedAnswerPassesIff(ps: seq<Piece>, d: string, qs: seq<Piece>, c: Context)
    requires Open(ps) && Fits(qs) && NoShares(qs) && Stops(Text(qs)) && DateShaped(d)
    ensures Ungrounded(Text(ps) + d + Text(qs), c) == [] <==>
            PiecesOk(ps, Allowed(c)) && PiecesOk(qs, Allowed(c)) && (ContextDate(d, c) || DateOk(d, Allowed(c)))
  {
    TailText(qs);
    DatedUngrounded(ps, d, Text(qs), c);
    ThreeLists(Amounts(ps), DatedNumbers(d, c), Amounts(qs), Allowed(c));
    DatedNumbersOk(d, c);
    OpenFits(ps);
    PiecesOkIff(ps, Allowed(c));
    PiecesOkIff(qs, Allowed(c));
  }

  lemma NoSignInDate(d: string)
    requires DateShaped(d)
    ensures '%' !in d
  {
    assert d == d[..4] + [d[4]] + d[5..7] + [d[7]] + d[8..];
  }
}
