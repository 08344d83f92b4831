/** The check that a model's reply states no number it was not given. */
module Grounding {
  import opened Decimal
  import opened Figures
  import opened Tokens

  datatype Product = Product(code: string, volume: Number, money: Number)

  /** The figures an answer may use. Counts are whole numbers. */
  datatype Context = Context(
    date: string, revenueToday: Number, revenueYesterday: Number, volumeToday: Number, transactionsToday: nat,
    volume7d: Number, revenue7d: Number, products: seq<Product>, credit: Number, creditCustomers: nat,
    score: nat, scoreDate: string, issues: seq<string>,
    marginToday: Number, marginPctToday: Number, costToday: Number, haveCostToday: bool,
    margin7d: Number, cost7d: Number, revenue7dCosted: Number, costedDays7d: nat, haveCost7d: bool,
    latestCost: Number, latestCostProduct: string, latestCostFrom: string)

  function Count(n: nat): Number { Number(false, n, 0) }

  function Values(c: Context): seq<Number> {
    [c.revenueToday, c.revenueYesterday, c.volumeToday, c.volume7d, c.revenue7d,
     c.credit, Count(c.creditCustomers), Count(c.transactionsToday), Count(c.score), Count(|c.issues|),
     c.marginToday, c.marginPctToday, c.costToday, c.margin7d, c.cost7d, c.revenue7dCosted, Count(c.costedDays7d),
     c.latestCost]
  }

  function ProductValues(p: Product): seq<Number> { [p.volume, p.money] }

  function Texts(ds: seq<Number>): (r: seq<string>) { seq(|ds|, i requires 0 <= i < |ds| => Printed(ds[i])) }

  function ProductTexts(ps: seq<Product>): (r: seq<seq<string>>) {
    seq(|ps|, i requires 0 <= i < |ps| => Texts(ProductValues(ps[i])))
  }

  function IssueTexts(issues: seq<string>): (r: seq<seq<string>>) {
    seq(|issues|, i requires 0 <= i < |issues| => FindNumbers(issues[i]))
  }

  /** Every number text the context offers. */
  function Sources(c: Context): seq<string> {
    Texts(Values(c)) + Flat(ProductTexts(c.products)) + Flat(IssueTexts(c.issues))
  }

  function SetOf(fs: seq<string>): set<string> { set f | f in fs }

  /** The forms of several number texts together. */
  function Gathered(ns: seq<string>, forms: string -> seq<string>): set<string> {
    if ns == [] then {} else Gathered(ns[..|ns| - 1], forms) + SetOf(forms(ns[|ns| - 1]))
  }

  function Allowed(c: Context): set<string> { Gathered(Sources(c), NumberForms) }

  lemma {:induction false} GatheredConcat(a: seq<string>, b: seq<string>, forms: string -> seq<string>)
    ensures Gathered(a + b, forms) == Gathered(a, forms) + Gathered(b, forms)
  {
    if b == [] {
      assert a + b == a;
    } else {
      assert (a + b)[..|a + b| - 1] == a + b[..|b| - 1];
      GatheredConcat(a, b[..|b| - 1], forms);
    }
  }

  method AddAll(allowed: set<string>, fs: seq<string>) returns (r: set<string>)
    ensures r == allowed + SetOf(fs)
  {
    r := allowed;
    for i := 0 to |fs|
      invariant r == allowed + SetOf(fs[..i])
    {
      assert fs[..i + 1] == fs[..i] + [fs[i]];
      r := r + {fs[i]};
    }
    assert fs[..|fs|] == fs;
  }

  method AddForms(allowed: set<string>, ns: seq<string>, forms: string -> seq<string>) returns (r: set<string>)
    ensures r == allowed + Gathered(ns, forms)
  {
    r := allowed;
    for i := 0 to |ns|
      invariant r == allowed + Gathered(ns[..i], forms)
    {
      assert ns[..i + 1][..i] == ns[..i];
      r := AddAll(r, forms(ns[i]));
    }
    assert ns[..|ns|] == ns;
  }

  /** The figures first, then each product, then the numbers inside each issue message. */
  method Gather(figures: seq<string>, products: seq<seq<string>>, issues: seq<seq<string>>,
                forms: string -> seq<string>)
    returns (allowed: set<string>)
    ensures allowed == Gathered(figures + Flat(products) + Flat(issues), forms)
  {
    allowed := AddForms({}, figures, forms);
    assert figures + Flat(products[..0]) == figures;
    for i := 0 to |products|
      invariant allowed == Gathered(figures + Flat(products[..i]), forms)
    {
      FlatStep(figures, products, i);
      GatheredConcat(figures + Flat(products[..i]), products[i], forms);
      allowed := AddForms(allowed, products[i], forms);
    }
    assert products[..|products|] == products;
    ghost var before := figures + Flat(products);
    assert before + Flat(issues[..0]) == before;
    for i := 0 to |issues|
      invariant allowed == Gathered(before + Flat(issues[..i]), forms)
    {
      FlatStep(before, issues, i);
      GatheredConcat(before + Flat(issues[..i]), issues[i], forms);
      allowed := AddForms(allowed, issues[i], forms);
    }
    assert issues[..|issues|] == issues;
  }

  function Flat(xs: seq<seq<string>>): seq<string> { if xs == [] then [] else Flat(xs[..|xs| - 1]) + xs[|xs| - 1] }

  lemma FlatStep(a: seq<string>, xs: seq<seq<string>>, i: nat)
    requires i < |xs|
    ensures a + Flat(xs[..i + 1]) == (a + Flat(xs[..i])) + xs[i]
  {
    assert xs[..i + 1][..i] == xs[..i];
  }

  method AllowedNumbers(c: Context) returns (allowed: set<string>)
    ensures allowed == Allowed(c)
  {
    allowed := Gather(Texts(Values(c)), ProductTexts(c.products), IssueTexts(c.issues), NumberForms);
  }

  // ----- judging a reply -----

  /** Period lengths a reply may mention. */
  const WINDOW_CONSTANTS := {"7", "30", "24", "100"}

  function BadPercents(ps: seq<Percent>, allowed: set<string>): seq<string> {
    if ps == [] then []
    else
      var last := ps[|ps| - 1];
      BadPercents(ps[..|ps| - 1], allowed) + (if Canonical(last.number) in allowed then [] else [last.text])
  }

  predicate NumberOk(n: string, allowed: set<string>) { Canonical(n) in allowed || Canonical(n) in WINDOW_CONSTANTS }

  function BadNumbers(ns: seq<string>, allowed: set<string>): seq<string> {
    if ns == [] then []
    else BadNumbers(ns[..|ns| - 1], allowed) + (if NumberOk(ns[|ns| - 1], allowed) then [] else [ns[|ns| - 1]])
  }

  predicate AllDates(ds: seq<string>) { forall i :: 0 <= i < |ds| ==> DateShaped(ds[i]) }

  /** Removes those of `dates` that are the context's own. */
  function DropDates(rest: string, dates: seq<string>, c: Context): string
    requires AllDates(dates)
  {
    if dates == [] then rest
    else
      var d := dates[|dates| - 1];
      var before := DropDates(rest, dates[..|dates| - 1], c);
      if d == c.date || d == c.scoreDate then ReplaceAll(before, d) else before
  }

  /** What is left to judge once percentages and known dates are gone. */
  function Rest(reply: string, c: Context): string { DropDates(DropPercents(reply), FindDates(DropPercents(reply)), c) }

  function Ungrounded(reply: string, c: Context): seq<string> {
    BadPercents(FindPercents(reply), Allowed(c)) + BadNumbers(FindNumbers(Rest(reply, c)), Allowed(c))
  }

  method JudgePercents(percents: seq<Percent>, allowed: set<string>) returns (bad: seq<string>)
    ensures bad == BadPercents(percents, allowed)
  {
    bad := [];
    for i := 0 to |percents|
      invariant bad == BadPercents(percents[..i], allowed)
    {
      assert percents[..i + 1][..i] == percents[..i];
      if Canonical(percents[i].number) !in allowed { bad := bad + [percents[i].text]; }
    }
    assert percents[..|percents|] == percents;
  }

  method DropKnownDates(text: string, c: Context) returns (rest: string)
    ensures rest == DropDates(text, FindDates(text), c)
  {
    rest := text;
    var dates := FindDates(text);
    for i := 0 to |dates|
      invariant AllDates(dates[..i]) && rest == DropDates(text, dates[..i], c)
    {
      assert dates[..i + 1][..i] == dates[..i];
      if dates[i] == c.date || dates[i] == c.scoreDate { rest := ReplaceAll(rest, dates[i]); }
    }
    assert dates[..|dates|] == dates;
  }

  method JudgeNumbers(numbers: seq<string>, allowed: set<string>) returns (bad: seq<string>)
    ensures bad == BadNumbers(numbers, allowed)
  {
    bad := [];
    for i := 0 to |numbers|
      invariant bad == BadNumbers(numbers[..i], allowed)
    {
      assert numbers[..i + 1][..i] == numbers[..i];
      var form := Canonical(numbers[i]);
      if form !in allowed && form !in WINDOW_CONSTANTS { bad := bad + [numbers[i]]; }
    }
    assert numbers[..|numbers|] == numbers;
  }

  method UngroundedNumbers(reply: string, c: Context) returns (bad: seq<string>)
    ensures bad == Ungrounded(reply, c)
  {
    var allowed := AllowedNumbers(c);
    var badPercents := JudgePercents(FindPercents(reply), allowed);
    var rest := DropKnownDates(DropPercents(reply), c);
    var badNumbers := JudgeNumbers(FindNumbers(rest), allowed);
    return badPercents + badNumbers;
  }

  lemma {:induction false} NoBadPercents(ps: seq<Percent>, allowed: set<string>)
    ensures BadPercents(ps, allowed) == [] <==> forall p :: p in ps ==> Canonical(p.number) in allowed
  {
    if ps != [] {
      NoBadPercents(ps[..|ps| - 1], allowed);
      assert ps == ps[..|ps| - 1] + [ps[|ps| - 1]];
    }
  }

  lemma {:induction false} NoBadNumbers(ns: seq<string>, allowed: set<string>)
    ensures BadNumbers(ns, allowed) == [] <==> forall n :: n in ns ==> NumberOk(n, allowed)
  {
    if ns != [] {
      NoBadNumbers(ns[..|ns| - 1], allowed);
      assert ns == ns[..|ns| - 1] + [ns[|ns| - 1]];
    }
  }

  // ----- values behind the forms -----

  predicate IsFigure(c: Context, d: Number) { d in Values(c) || exists p :: p in c.products && d in ProductValues(p) }

  predicate IsIssueNumber(c: Context, n: string) { exists m :: m in c.issues && n in FindNumbers(m) }

  /** A figure of the context or a number inside one of its issue messages. */
  ghost predicate Known(c: Context, d: Number) {
    IsFigure(c, d) || exists n :: IsIssueNumber(c, n) && IsToken(n) && TokenNumber(n) == d
  }

  predicate Quotes(x: Number, y: Number) { !y.negative && SameMagnitude(x, y) }

  predicate QuotesOne(x: Number, ys: seq<Number>) { exists y :: y in ys && Quotes(x, y) }

  predicate QuotesValue(x: Number, d: Number) { Quotes(x, d) || QuotesOne(x, Roundings(d)) }

  /** `x` is the value of something known, or of one of its roundings. */
  ghost predicate Given(c: Context, x: Number) { exists d :: Known(c, d) && QuotesValue(x, d) }

  predicate WindowValue(x: Number) { exists w: nat :: w in {7, 30, 24, 100} && SameMagnitude(x, Count(w)) }

  /** No superfluous leading zero. */
  predicate PlainToken(t: string) { IsToken(t) && Plain(WholePart(t)) }

  // ----- one form -----

  /** The text `f` stands for the value `y`. */
  predicate Means(t: string, f: string, y: Number)
    requires IsToken(t)
  {
    (Canonical(t) == f ==> Quotes(TokenNumber(t), y)) &&
      (PlainToken(t) && Quotes(TokenNumber(t), y) ==> Canonical(t) == f)
  }

  lemma NegativeCanonical(s: string)
    requires StripCommas(s) == s
    ensures StripCommas("-" + s) == "-" + s
    ensures Canonical("-" + s) != "" && Canonical("-" + s)[0] == '-'
  {
    StripConcat("-", s);
    NoCommas("-");
    KeepsHead("-" + s, '0');
    KeepsHead(TrimRightChar("-" + s, '0'), '.');
  }

  lemma {:induction false} KeepsHead(s: string, c: char)
    requires s != "" && s[0] == '-' && c != '-'
    ensures TrimRightChar(s, c) != "" && TrimRightChar(s, c)[0] == '-'
  {
    if s[|s| - 1] == c { KeepsHead(s[..|s| - 1], c); }
  }

  lemma PrintedCanonical(y: Number)
    ensures StripCommas(Printed(y)) == Printed(y)
    ensures if y.negative then Canonical(Printed(y)) != "" && Canonical(Printed(y))[0] == '-'
            else Canonical(Printed(y)) == Render(WholeText(y), Stripped(Pad(y.units, y.scale)))
  {
    var text := Render(WholeText(y), Pad(y.units, y.scale));
    CanonicalRender(WholeText(y), Pad(y.units, y.scale));
    if y.negative { NegativeCanonical(text); } else { assert "" + text == text; }
  }

  /**
    A token's canonical text equals another numeral's only when the values agree; without leading zeros,
    exactly then.
   */
  lemma CanonicalInjective(t: string, whole: string, frac: string)
    requires IsToken(t) && whole != "" && AllDigits(whole) && AllDigits(frac)
    ensures Canonical(t) == Render(whole, Stripped(frac)) ==> SameMagnitude(TokenNumber(t), Numeral(whole, frac))
    ensures PlainToken(t) && Plain(whole) && SameMagnitude(TokenNumber(t), Numeral(whole, frac)) ==>
              Canonical(t) == Render(whole, Stripped(frac))
  {
    TokenCanonical(t);
    if Canonical(t) == Render(whole, Stripped(frac)) {
      RenderInjective(WholePart(t), Stripped(FracPart(t)), whole, Stripped(frac));
      StrippedSameValue(whole, FracPart(t), frac);
    } else if PlainToken(t) && Plain(whole) && SameMagnitude(TokenNumber(t), Numeral(whole, frac)) {
      SameValueSameText(WholePart(t), FracPart(t), whole, frac);
    }
  }

  lemma TokenHead(t: string)
    requires IsToken(t)
    ensures Canonical(t) != "" && IsDigit(Canonical(t)[0])
  {
    TokenCanonical(t);
    assert Canonical(t)[0] == WholePart(t)[0];
  }

  lemma PrintedMeans(t: string, y: Number)
    requires IsToken(t)
    ensures Means(t, Canonical(Printed(y)), y)
  {
    PrintedCanonical(y);
    if y.negative {
      TokenHead(t);
    } else {
      PrintedUnits(y);
      ItoaPlain(Shift(y.units, y.scale));
      CanonicalInjective(t, WholeText(y), Pad(y.units, y.scale));
    }
  }

  lemma TokenMeans(t: string, n: string)
    requires IsToken(t) && IsToken(n)
    ensures Canonical(t) == Canonical(n) ==> Quotes(TokenNumber(t), TokenNumber(n))
    ensures PlainToken(t) && PlainToken(n) && Quotes(TokenNumber(t), TokenNumber(n)) ==> Canonical(t) == Canonical(n)
  {
    TokenCanonical(n);
    CanonicalInjective(t, WholePart(n), FracPart(n));
  }

  // ----- the forms of one number -----

  /** Among the printed forms of several numbers exactly when it quotes one of them. */
  lemma TextsMean(t: string, ys: seq<Number>)
    requires IsToken(t)
    ensures Canonical(t) in CanonicalTexts(ys) ==> QuotesOne(TokenNumber(t), ys)
    ensures PlainToken(t) && QuotesOne(TokenNumber(t), ys) ==> Canonical(t) in CanonicalTexts(ys)
  {
    var x, f := TokenNumber(t), Canonical(t);
    if f in CanonicalTexts(ys) {
      var k :| 0 <= k < |ys| && CanonicalTexts(ys)[k] == f;
      PrintedMeans(t, ys[k]);
      assert ys[k] in ys;
    }
    if y :| y in ys && Quotes(x, y) {
      var k :| 0 <= k < |ys| && ys[k] == y;
      PrintedMeans(t, y);
      assert PlainToken(t) ==> CanonicalTexts(ys)[k] == f;
    }
  }

  lemma PrintedForms(d: Number)
    ensures NumberForms(Printed(d)) == [Canonical(Printed(d))] + CanonicalTexts(Roundings(d))
  {
    PrintedCanonical(d);
    ParsePrinted(d);
  }

  /** Exactly half a unit goes up in the whole-number form of a figure. */
  lemma HalfGoesUp(n: nat)
    ensures Canonical(Printed(Number(false, n + 1, 0))) in NumberForms(Printed(Number(false, 10 * n + 5, 1)))
  {
    var d := Number(false, 10 * n + 5, 1);
    PrintedForms(d);
    assert Scale(1, 1) == 10 && Scale(n, 1) == 10 * n && Shift(d.units, 1) == n;
    assert Roundings(d)[0] == Number(false, n + 1, 0);
    assert CanonicalTexts(Roundings(d))[0] == Canonical(Printed(Roundings(d)[0]));
  }

  lemma TokenForms(n: string)
    requires IsToken(n)
    ensures NumberForms(n) == [Canonical(n)] + CanonicalTexts(Roundings(TokenNumber(n)))
  {
    TokenParse(n);
  }

  /** A token is among the forms of a figure exactly when it quotes the figure or a rounding of it. */
  lemma FigureQuoted(t: string, d: Number)
    requires IsToken(t)
    ensures Canonical(t) in NumberForms(Printed(d)) ==> QuotesValue(TokenNumber(t), d)
    ensures PlainToken(t) && QuotesValue(TokenNumber(t), d) ==> Canonical(t) in NumberForms(Printed(d))
  {
    PrintedForms(d);
    PrintedMeans(t, d);
    TextsMean(t, Roundings(d));
  }

  lemma IssueQuoted(t: string, n: string)
    requires IsToken(t) && IsToken(n)
    ensures Canonical(t) in NumberForms(n) ==> QuotesValue(TokenNumber(t), TokenNumber(n))
    ensures PlainToken(t) && PlainToken(n) && QuotesValue(TokenNumber(t), TokenNumber(n)) ==>
            Canonical(t) in NumberForms(n)
  {
    TokenForms(n);
    TokenMeans(t, n);
    TextsMean(t, Roundings(TokenNumber(n)));
  }

  // ----- the whole context -----

  lemma {:induction false} InGathered(ns: seq<string>, forms: string -> seq<string>, f: string)
    ensures f in Gathered(ns, forms) <==> exists n :: n in ns && f in forms(n)
  {
    if ns != [] {
      InGathered(ns[..|ns| - 1], forms, f);
      assert ns == ns[..|ns| - 1] + [ns[|ns| - 1]];
    }
  }

  lemma {:induction false} InFlat(xs: seq<seq<string>>, n: string)
    ensures n in Flat(xs) <==> exists i :: 0 <= i < |xs| && n in xs[i]
  {
    if xs != [] {
      InFlat(xs[..|xs| - 1], n);
      if i :| 0 <= i < |xs| && n in xs[i] {
        if i < |xs| - 1 { assert xs[..|xs| - 1][i] == xs[i]; }
      }
    }
  }

  lemma {:induction false} FoundAreTokens(s: string)
    ensures forall t :: t in FindNumbers(s) ==> IsToken(t)
    decreases |s|
  {
    if s != "" {
      if StartsNumber(s) {
        NumberLenPositive(s);
        FoundIsToken(s);
        FoundAreTokens(s[NumberLen(s)..]);
      } else {
        FoundAreTokens(s[1..]);
      }
    }
  }

  lemma InTexts(ds: seq<Number>, n: string)
    ensures n in Texts(ds) <==> exists d :: d in ds && n == Printed(d)
  {
    if n in Texts(ds) {
      var i :| 0 <= i < |Texts(ds)| && Texts(ds)[i] == n;
      assert ds[i] in ds;
    }
    if d :| d in ds && n == Printed(d) {
      var i :| 0 <= i < |ds| && ds[i] == d;
      assert Texts(ds)[i] == n;
    }
  }

  predicate FromFigure(c: Context, n: string) {
    n in Texts(Values(c)) || exists p :: p in c.products && n in Texts(ProductValues(p))
  }

  lemma SourceIff(c: Context, n: string)
    ensures n in Sources(c) <==> FromFigure(c, n) || IsIssueNumber(c, n)
  {
    InFlat(ProductTexts(c.products), n);
    InFlat(IssueTexts(c.issues), n);
    if p :| p in c.products && n in Texts(ProductValues(p)) {
      var i :| 0 <= i < |c.products| && c.products[i] == p;
      assert n in ProductTexts(c.products)[i];
    }
    if m :| m in c.issues && n in FindNumbers(m) {
      var i :| 0 <= i < |c.issues| && c.issues[i] == m;
      assert n in IssueTexts(c.issues)[i];
    }
  }

  lemma FigureOf(c: Context, n: string) returns (d: Number)
    requires FromFigure(c, n)
    ensures IsFigure(c, d) && n == Printed(d)
  {
    if n in Texts(Values(c)) {
      InTexts(Values(c), n);
      d :| d in Values(c) && n == Printed(d);
    } else {
      var p :| p in c.products && n in Texts(ProductValues(p));
      InTexts(ProductValues(p), n);
      d :| d in ProductValues(p) && n == Printed(d);
    }
  }

  lemma FigureIsSource(c: Context, d: Number)
    requires IsFigure(c, d)
    ensures Printed(d) in Sources(c)
  {
    SourceIff(c, Printed(d));
    if d in Values(c) {
      InTexts(Values(c), Printed(d));
    } else {
      var p :| p in c.products && d in ProductValues(p);
      InTexts(ProductValues(p), Printed(d));
    }
  }

  lemma IssueToken(c: Context, n: string)
    requires IsIssueNumber(c, n)
    ensures IsToken(n)
  {
    var m :| m in c.issues && n in FindNumbers(m);
    FoundAreTokens(m);
  }

  ghost predicate PlainIssues(c: Context) { forall n :: IsIssueNumber(c, n) ==> PlainToken(n) }

  /** Whatever the check allows is the value of something given. */
  lemma AllowedIsGiven(c: Context, t: string)
    requires IsToken(t) && Canonical(t) in Allowed(c)
    ensures Given(c, TokenNumber(t))
  {
    InGathered(Sources(c), NumberForms, Canonical(t));
    var n :| n in Sources(c) && Canonical(t) in NumberForms(n);
    SourceIff(c, n);
    var d: Number;
    if IsIssueNumber(c, n) {
      IssueToken(c, n);
      d := TokenNumber(n);
      IssueQuoted(t, n);
    } else {
      d := FigureOf(c, n);
      FigureQuoted(t, d);
    }
    assert Known(c, d);
  }

  /** Without superfluous leading zeros the check allows exactly the values given. */
  lemma GivenIsAllowed(c: Context, t: string)
    requires PlainToken(t) && PlainIssues(c) && Given(c, TokenNumber(t))
    ensures Canonical(t) in Allowed(c)
  {
    var d :| Known(c, d) && QuotesValue(TokenNumber(t), d);
    InGathered(Sources(c), NumberForms, Canonical(t));
    if IsFigure(c, d) {
      FigureQuoted(t, d);
      FigureIsSource(c, d);
    } else {
      var n :| IsIssueNumber(c, n) && IsToken(n) && TokenNumber(n) == d;
      IssueQuoted(t, n);
      SourceIff(c, n);
    }
  }

  // ----- window constants -----

  lemma CountMeans(t: string, n: nat)
    requires IsToken(t)
    ensures Means(t, Itoa(n), Count(n))
  {
    PrintedMeans(t, Count(n));
    PrintedCanonical(Count(n));
  }

  lemma WindowTexts()
    ensures Itoa(7) == "7" && Itoa(30) == "30" && Itoa(24) == "24" && Itoa(100) == "100"
  {
    assert Itoa(2) == "2" && Itoa(3) == "3" && Itoa(1) == "1";
    assert Itoa(10) == "10";
  }

  lemma WindowIff(t: string)
    requires IsToken(t)
    ensures Canonical(t) in WINDOW_CONSTANTS ==> WindowValue(TokenNumber(t))
    ensures PlainToken(t) && WindowValue(TokenNumber(t)) ==> Canonical(t) in WINDOW_CONSTANTS
  {
    WindowTexts();
    CountMeans(t, 7);
    CountMeans(t, 30);
    CountMeans(t, 24);
    CountMeans(t, 100);
    assert WINDOW_CONSTANTS == {Itoa(7), Itoa(30), Itoa(24), Itoa(100)};
  }

  // ----- leading zeros -----

  /**
    A number with a superfluous leading zero is allowed exactly when some issue message writes it so,
    whatever its value.
   */
  lemma LeadingZerosAllowedIff(c: Context, t: string)
    requires IsToken(t) && !PlainToken(t)
    ensures Canonical(t) in Allowed(c) <==> exists n :: IsIssueNumber(c, n) && Canonical(n) == Canonical(t)
  {
    InGathered(Sources(c), NumberForms, Canonical(t));
    if Canonical(t) in Allowed(c) {
      var n :| n in Sources(c) && Canonical(t) in NumberForms(n);
      SourceIff(c, n);
      if IsIssueNumber(c, n) { IssueForm(c, t, n); } else { NeverAFigure(c, t, n); }
    }
    if n :| IsIssueNumber(c, n) && Canonical(n) == Canonical(t) {
      SourceIff(c, n);
      assert NumberForms(n)[0] == Canonical(n);
    }
  }

  lemma IssueForm(c: Context, t: string, n: string)
    requires IsToken(t) && !PlainToken(t) && IsIssueNumber(c, n) && Canonical(t) in NumberForms(n)
    ensures Canonical(n) == Canonical(t)
  {
    IssueToken(c, n);
    TokenForms(n);
    NeverAmong(t, Roundings(TokenNumber(n)));
  }

  lemma NeverAFigure(c: Context, t: string, n: string)
    requires IsToken(t) && !PlainToken(t) && FromFigure(c, n)
    ensures Canonical(t) !in NumberForms(n)
  {
    var d := FigureOf(c, n);
    PrintedForms(d);
    NeverPrinted(t, d);
    NeverAmong(t, Roundings(d));
  }

  /** With no issue messages, then, it is never allowed. */
  lemma LeadingZerosRejected(c: Context, t: string)
    requires IsToken(t) && !PlainToken(t) && c.issues == []
    ensures Canonical(t) !in Allowed(c)
  {
    LeadingZerosAllowedIff(c, t);
  }

  lemma NeverAmong(t: string, ys: seq<Number>)
    requires IsToken(t) && !PlainToken(t)
    ensures Canonical(t) !in CanonicalTexts(ys)
  {
    forall i | 0 <= i < |ys| ensures CanonicalTexts(ys)[i] != Canonical(t) { NeverPrinted(t, ys[i]); }
  }

  lemma NeverPrinted(t: string, y: Number)
    requires IsToken(t) && !PlainToken(t)
    ensures Canonical(t) != Canonical(Printed(y))
  {
    PrintedCanonical(y);
    TokenHead(t);
    TokenCanonical(t);
    ItoaPlain(Shift(y.units, y.scale));
    if !y.negative && Canonical(t) == Canonical(Printed(y)) {
      RenderInjective(WholePart(t), Stripped(FracPart(t)), WholeText(y), Stripped(Pad(y.units, y.scale)));
      assert false;
    }
  }
}
