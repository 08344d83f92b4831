/** Which answer a question gets: a fixed sentence about the figures, or a checked model reply. */
module Routing {
  import opened Common
  import opened Decimal
  import opened Figures
  import opened Tokens
  import opened Grounding
  import opened Replies
  import opened Answers

  /** What the question was recognised to ask about; a product is given by its code. */
  datatype Question = Question(
    blank: bool, help: bool, explain: bool, unanswerable: bool, purchasePrice: bool, margin: bool, week: bool,
    otherPeriod: bool, credit: bool, score: bool, sales: bool, yesterday: bool, product: Option<string>)

  /** What became of asking the model. */
  datatype Model = NotConnected | Unreachable | Replied(text: string)

  /** The paths without a text show a fixed one. */
  datatype Answer = Noop | Help | Standard(text: string) | NoFeed | Canned | LlmFailed | LlmRejected | Llm(text: string)

  function Say(w: string, rest: seq<Piece>): seq<Piece> { [Words(w)] + rest }

  function Tell(t: string, rest: seq<Piece>): seq<Piece> { [Amount(t)] + rest }

  function TellShare(t: string, rest: seq<Piece>): seq<Piece> { [Piece.Share(t)] + rest }

  /** A minus sign before a negative figure. */
  function Signed(v: Number, rest: seq<Piece>): seq<Piece> {
    if v.negative && v.units > 0 then Say("-", rest) else rest
  }

  /** The digits of an amount, in rupees or litres. */
  function Money(v: Number): string { CommasText(Magnitude(v), 2) }

  function TellMoney(v: Number, rest: seq<Piece>): seq<Piece> { Signed(v, Tell(Money(v), rest)) }

  function TellPercent(v: Number, rest: seq<Piece>): seq<Piece> {
    Signed(v, TellShare(CommasText(Magnitude(v), 1), rest))
  }

  function DisplayProduct(code: string, rest: seq<Piece>): seq<Piece> {
    if code == "PETROL_92" then Say("Petrol ", Tell("92", rest))
    else if code == "PETROL_95" then Say("Petrol ", Tell("95", rest))
    else Say("Diesel", rest)
  }

  function NoPrice(): seq<Piece> {
    Say("No purchase price has been ", Say("recorded yet. Enter what you ", Say("pay per litre in Settings and ",
    Say("I can work out your margin.", []))))
  }

  function PricedProduct(code: string): seq<Piece> {
    if code == "PETROL_92" then Say("Petrol ", Tell("92,", Say(" from ", [])))
    else if code == "PETROL_95" then Say("Petrol ", Tell("95,", Say(" from ", [])))
    else Say("Diesel, from ", [])
  }

  /** The answer up to the date the price took effect. */
  function PriceLead(m: Context): seq<Piece> {
    Say("The latest purchase price ", Say("on record is PKR ", TellMoney(m.latestCost, Say(" per litre for ",
    PricedProduct(m.latestCostProduct)))))
  }

  function PriceOnRecord(m: Context): seq<Piece> { PriceLead(m) + [Date(m.latestCostFrom)] + [Words(".")] }

  function NoWeekMargin(): seq<Piece> {
    Say("I cannot work out margin for ", Say("the last ", Tell("7", Say(" days: no purchase price is ",
    Say("recorded for those days. ", Say("Enter what you pay per ", Say("litre in Settings.", [])))))))
  }

  function OnlyFuel(): seq<Piece> {
    Say(" That is fuel margin only — it", Say(" does not include wages, rent ", Say("or other costs.", [])))
  }

  function Coverage(days: nat, rest: seq<Piece>): seq<Piece> {
    if days == 1 then
      Say("Over the ", Tell(Itoa(days), Say(" day of the last ", Tell("7",
      Say(" that has a purchase price ", Say("recorded: PKR ", rest))))))
    else
      Say("Over the ", Tell(Itoa(days), Say(" of the last ", Tell("7",
      Say(" days that have a purchase ", Say("price recorded: PKR ", rest))))))
  }

  function WeekMargin(m: Context): seq<Piece> {
    Coverage(m.costedDays7d,
    TellMoney(m.revenue7dCosted, Say(" revenue, PKR ", TellMoney(m.cost7d, Say(" fuel cost, PKR ",
    TellMoney(m.margin7d, Say(" margin.", OnlyFuel())))))))
  }

  function NoMargin(): seq<Piece> {
    Say("I cannot work out today's ", Say("margin: no purchase price is ", Say("recorded for today. Enter ",
    Say("what you pay per litre in ", Say("Settings and this answers ", Say("itself.", []))))))
  }

  function MarginToday(m: Context): seq<Piece> {
    Say("Today: PKR ", TellMoney(m.revenueToday, Say(" revenue, PKR ", TellMoney(m.costToday, Say(" fuel cost, PKR ",
    TellMoney(m.marginToday, Say(" margin (", TellPercent(m.marginPctToday, Say(").", OnlyFuel())))))))))
  }

  function WeekSales(m: Context): seq<Piece> {
    Say("Over the last ", Tell("7", Say(" days: PKR ", TellMoney(m.revenue7d, Say(" revenue on ",
    TellMoney(m.volume7d, Say(" L.", [])))))))
  }

  function OtherPeriod(): seq<Piece> {
    Say("I only have figures for today,", Say(" yesterday and the last ", Tell("7", Say(" days. The Sales page lists ",
    Say("each of the last ", Tell("30", Say(" days.", [])))))))
  }

  function CreditAnswer(m: Context): seq<Piece> {
    Say("Total credit outstanding is ", Say("PKR ", TellMoney(m.credit, Say(" across ",
    Tell(Itoa(m.creditCustomers), Say(" customer(s).", []))))))
  }

  const SCORE_LEAD := "The FuelMind Score for "

  function ScoreTail(m: Context): seq<Piece> {
    Say(" is ", Tell(Itoa(m.score), Say("/", Tell("100", Say(" with ",
    Tell(Itoa(|m.issues|), Say(" open issue(s).", [])))))))
  }

  function NoScore(): seq<Piece> { Say("There is no FuelMind ", Say("Score yet.", [])) }

  function ScoreAnswer(m: Context): seq<Piece> {
    if m.scoreDate == "" then NoScore() else [Words(SCORE_LEAD)] + [Date(m.scoreDate)] + ScoreTail(m)
  }

  function YesterdaySales(m: Context, byProduct: bool): seq<Piece> {
    if byProduct then
      Say("I have yesterday's total only,", Say(" not by product: PKR ", TellMoney(m.revenueYesterday, Say(".", []))))
    else Say("Yesterday's revenue was PKR ", TellMoney(m.revenueYesterday, Say(".", [])))
  }

  function FirstOf(ps: seq<Product>, code: string): Option<Product> {
    if ps == [] then None else if ps[0].code == code then Some(ps[0]) else FirstOf(ps[1..], code)
  }

  function ProductSold(code: string, volume: Number, money: Number): seq<Piece> {
    Say("Today ",
      DisplayProduct(code, Say(": ", TellMoney(volume, Say(" L sold for PKR ", TellMoney(money, Say(".", [])))))))
  }

  function ProductNotSold(code: string): seq<Piece> {
    Say("No ", DisplayProduct(code, Say(" sales have been ", Say("recorded today.", []))))
  }

  function ProductToday(m: Context, code: string): seq<Piece> {
    var row := FirstOf(m.products, code);
    if row.Some? then ProductSold(code, row.value.volume, row.value.money) else ProductNotSold(code)
  }

  function TodaySales(m: Context): seq<Piece> {
    Say("Today's revenue is PKR ", TellMoney(m.revenueToday,
    Say(" from ", Tell(Itoa(m.transactionsToday), Say(" sale(s), ",
    TellMoney(m.volumeToday, Say(" L sold.", [])))))))
  }

  /** The fixed answer, if the question has one. */
  function StandardPieces(q: Question, m: Context): Option<seq<Piece>> {
    var sales := q.sales || q.product.Some?;
    if q.explain || q.unanswerable then None
    else if q.purchasePrice then Some(if m.latestCostProduct == "" then NoPrice() else PriceOnRecord(m))
    else if q.margin && q.week then Some(if m.haveCost7d then WeekMargin(m) else NoWeekMargin())
    else if q.margin then Some(if m.haveCostToday then MarginToday(m) else NoMargin())
    else if sales && q.week then Some(WeekSales(m))
    else if q.otherPeriod && (sales || q.credit) then Some(OtherPeriod())
    else if q.credit then Some(CreditAnswer(m))
    else if q.score && q.product.None? then Some(ScoreAnswer(m))
    else if sales && q.yesterday then Some(YesterdaySales(m, q.product.Some?))
    else if q.product.Some? then Some(ProductToday(m, q.product.value))
    else if sales then Some(TodaySales(m))
    else None
  }

  function Route(q: Question, m: Context, model: Model): Answer {
    if q.blank then Noop
    else if q.help then Help
    else
      match StandardPieces(q, m)
      case Some(ps) => Standard(Text(ps))
      case None =>
        if q.unanswerable then NoFeed
        else
          match model
          case NotConnected => Canned
          case Unreachable => LlmFailed
          case Replied(text) => if Ungrounded(text, m) == [] then Llm(text) else LlmRejected
  }

  // ----- model replies -----

  /** A model reply is shown only word for word, and only when every digit in it is accounted for. */
  lemma ShownRepliesAreJustified(q: Question, m: Context, model: Model, text: string) returns (parts: seq<Part>)
    requires Route(q, m, model) == Llm(text)
    ensures model == Replied(text) && Source(parts) == text && forall p :: p in parts ==> Justified(p, m)
  {
    parts := EveryDigitJustified(text, m);
  }

  // ----- fixed answers -----

  predicate NonNegative(m: Context) {
    (forall i :: 0 <= i < |Values(m)| ==> !Values(m)[i].negative) &&
    (forall p :: p in m.products ==> !p.volume.negative && !p.money.negative)
  }

  lemma FormAllowed(m: Context, d: Number, f: string)
    requires IsFigure(m, d) && f in NumberForms(Printed(d))
    ensures f in Allowed(m)
  {
    FigureIsSource(m, d);
    InGathered(Sources(m), NumberForms, f);
  }

  lemma MoneyOk(m: Context, v: Number, places: nat)
    requires IsFigure(m, v) && !v.negative && 1 <= places <= 2
    ensures IsToken(CommasText(v, places)) && Canonical(CommasText(v, places)) in Allowed(m)
  {
    CommasToken(v, places);
    PrintedForms(v);
    var ys := Roundings(v);
    assert CanonicalTexts(ys)[places] == Canonical(Printed(ys[places]));
    assert ys[places] == Rounded(v, places, ToEven);
    FormAllowed(m, v, CanonicalTexts(ys)[places]);
  }

  lemma WholeOk(m: Context, n: nat)
    requires IsFigure(m, Count(n))
    ensures IsToken(Itoa(n)) && Canonical(Itoa(n)) in Allowed(m)
  {
    CountToken(n);
    PrintedForms(Count(n));
    FormAllowed(m, Count(n), Canonical(Printed(Count(n))));
  }

  lemma ConstantOk(n: nat, w: string, allowed: set<string>)
    requires w in WINDOW_CONSTANTS && Itoa(n) == w
    ensures IsToken(w) && NumberOk(w, allowed)
  {
    CountToken(n);
  }

  lemma ConstantsOk(allowed: set<string>)
    ensures IsToken("7") && NumberOk("7", allowed) && IsToken("30") && NumberOk("30", allowed)
    ensures IsToken("100") && NumberOk("100", allowed)
  {
    WindowTexts();
    ConstantOk(7, "7", allowed);
    ConstantOk(30, "30", allowed);
    ConstantOk(100, "100", allowed);
  }

  // ----- the numbers of a context that an answer may print -----

  predicate MoneyIn(v: Number, ok: set<string>) { NumberOk(Money(v), ok) }

  /** Every printed figure of the context is accepted, its sign aside. */
  predicate Covers(m: Context, ok: set<string>) {
    Allowed(m) <= ok && (forall v :: v in Values(m) ==> MoneyIn(v, ok)) &&
    (forall p :: p in m.products ==> MoneyIn(p.volume, ok) && MoneyIn(p.money, ok)) &&
    Canonical(CommasText(Magnitude(m.marginPctToday), 1)) in ok
  }

  lemma NonNegativeCovers(m: Context)
    requires NonNegative(m)
    ensures Covers(m, Allowed(m))
  {
    forall v | v in Values(m) ensures MoneyIn(v, Allowed(m)) { MoneyOk(m, v, 2); }
    forall p | p in m.products ensures MoneyIn(p.volume, Allowed(m)) && MoneyIn(p.money, Allowed(m)) {
      assert p.volume in ProductValues(p) && p.money in ProductValues(p);
      MoneyOk(m, p.volume, 2);
      MoneyOk(m, p.money, 2);
    }
    MoneyOk(m, m.marginPctToday, 1);
  }

  /** Some set accepts them, whatever their signs. */
  lemma SomeCover(m: Context) returns (ok: set<string>)
    ensures Covers(m, ok)
  {
    ok := Allowed(m) + (set v | v in Values(m) :: Canonical(Money(v))) +
          (set p | p in m.products :: Canonical(Money(p.volume))) +
          (set p | p in m.products :: Canonical(Money(p.money))) +
          {Canonical(CommasText(Magnitude(m.marginPctToday), 1))};
    forall v | v in Values(m) ensures MoneyIn(v, ok) { assert Canonical(Money(v)) in ok; }
    forall p | p in m.products ensures MoneyIn(p.volume, ok) && MoneyIn(p.money, ok) {
      assert Canonical(Money(p.volume)) in ok && Canonical(Money(p.money)) in ok;
    }
  }

  lemma FigureIn(m: Context, v: Number, ok: set<string>)
    requires Covers(m, ok) && v in Values(m)
    ensures MoneyIn(v, ok)
  {
  }

  lemma PercentIn(m: Context, ok: set<string>)
    requires Covers(m, ok)
    ensures Canonical(CommasText(Magnitude(m.marginPctToday), 1)) in ok
  {
  }

  lemma CountIn(m: Context, n: nat, ok: set<string>)
    requires Allowed(m) <= ok && Count(n) in Values(m)
    ensures TokenOk(Itoa(n), ok)
  {
    WholeOk(m, n);
  }

  // ----- building an answer that passes -----

  predicate Good(ps: seq<Piece>, allowed: set<string>) { Fits(ps) && PiecesOk(ps, allowed) }

  predicate TokenOk(t: string, allowed: set<string>) { IsToken(t) && NumberOk(t, allowed) }

  lemma GoodCons(p: Piece, rest: seq<Piece>, allowed: set<string>)
    requires Fits(rest) && PiecesOk(rest, allowed) && FitsAt([p] + rest, 0) && PieceOk(p, allowed)
    ensures Good([p] + rest, allowed)
  {
    var ps := [p] + rest;
    forall i: nat | i < |ps| ensures FitsAt(ps, i) && PieceOk(ps[i], allowed) {
      if i > 0 {
        assert FitsAt(rest, i - 1) && ps[i] == rest[i - 1];
        if i + 1 < |ps| { assert ps[i + 1] == rest[i]; }
      }
    }
  }

  lemma GoodSay(w: string, rest: seq<Piece>, allowed: set<string>)
    requires Quiet(w) && Good(rest, allowed)
    ensures Good(Say(w, rest), allowed)
  {
    GoodCons(Words(w), rest, allowed);
  }

  /** A number followed by words that close it. */
  lemma GoodTell(t: string, w: string, rest: seq<Piece>, allowed: set<string>)
    requires TokenOk(t, allowed) && Closes(w, rest == []) && Good(rest, allowed)
    ensures Good(Tell(t, Say(w, rest)), allowed)
  {
    GoodSay(w, rest, allowed);
    assert ([Amount(t)] + Say(w, rest))[1] == Words(w);
    GoodCons(Amount(t), Say(w, rest), allowed);
  }

  lemma GoodShare(t: string, rest: seq<Piece>, allowed: set<string>)
    requires IsToken(t) && Canonical(t) in allowed && Good(rest, allowed)
    ensures Good(TellShare(t, rest), allowed)
  {
    GoodCons(Piece.Share(t), rest, allowed);
  }

  lemma GoodSign(v: Number, rest: seq<Piece>, allowed: set<string>)
    requires Good(rest, allowed)
    ensures Good(Signed(v, rest), allowed)
  {
    assert Quiet("-");
    GoodSay("-", rest, allowed);
  }

  lemma GoodMoney(v: Number, w: string, rest: seq<Piece>, allowed: set<string>)
    requires MoneyIn(v, allowed) && Closes(w, rest == []) && Good(rest, allowed)
    ensures Good(TellMoney(v, Say(w, rest)), allowed)
  {
    MoneyToken(v);
    GoodSignedTell(v, Money(v), w, rest, allowed);
  }

  lemma MoneyToken(v: Number)
    ensures IsToken(Money(v))
  {
    CommasToken(Magnitude(v), 2);
  }

  lemma GoodSignedTell(v: Number, t: string, w: string, rest: seq<Piece>, allowed: set<string>)
    requires TokenOk(t, allowed) && Closes(w, rest == []) && Good(rest, allowed)
    ensures Good(Signed(v, Tell(t, Say(w, rest))), allowed)
  {
    GoodTell(t, w, rest, allowed);
    GoodSign(v, Tell(t, Say(w, rest)), allowed);
  }

  lemma GoodPercent(v: Number, rest: seq<Piece>, allowed: set<string>)
    requires Canonical(CommasText(Magnitude(v), 1)) in allowed && Good(rest, allowed)
    ensures Good(TellPercent(v, rest), allowed)
  {
    CommasToken(Magnitude(v), 1);
    GoodShare(CommasText(Magnitude(v), 1), rest, allowed);
    GoodSign(v, TellShare(CommasText(Magnitude(v), 1), rest), allowed);
  }

  lemma NothingGood(allowed: set<string>)
    ensures Good([], allowed)
  {
  }

  // ----- the words of each answer -----

  lemma NoPurchasePriceWords()
    ensures Quiet("No purchase price has been ") && Quiet("recorded yet. Enter what you ")
  {
  }

  lemma PriceWords()
    ensures Quiet("No purchase price has been ") && Quiet("recorded yet. Enter what you ")
    ensures Quiet("pay per litre in Settings and ") && Quiet("I can work out your margin.")
  {
    NoPurchasePriceWords();
  }

  lemma CannotWorkOutWords()
    ensures Quiet("I cannot work out margin for ") && Quiet("the last ") &&
            Closes(" days: no purchase price is ", false)
  {
  }

  lemma NoWeekMarginWords()
    ensures Quiet("I cannot work out margin for ") && Quiet("the last ") &&
            Closes(" days: no purchase price is ", false)
    ensures Quiet("recorded for those days. ") && Quiet("Enter what you pay per ") && Quiet("litre in Settings.")
  {
    CannotWorkOutWords();
  }

  lemma OnlyFuelWords()
    ensures Quiet(" That is fuel margin only — it") && Quiet(" does not include wages, rent ") &&
            Quiet("or other costs.")
  {
  }

  lemma OneDayWords()
    ensures Quiet("Over the ") && Closes(" day of the last ", false) && Closes(" that has a purchase price ", false) &&
            Quiet("recorded: PKR ")
  {
  }

  lemma CoverageWords()
    ensures Quiet("Over the ") && Closes(" day of the last ", false) && Closes(" that has a purchase price ", false) &&
            Quiet("recorded: PKR ")
    ensures Closes(" of the last ", false) && Closes(" days that have a purchase ", false) &&
            Quiet("price recorded: PKR ")
  {
    OneDayWords();
  }

  lemma MarginWords()
    ensures Quiet("Today: PKR ") && Closes(" revenue, PKR ", false) && Closes(" fuel cost, PKR ", false) &&
            Closes(" margin.", false)
    ensures Closes(" margin (", false) && Quiet(").")
  {
  }

  lemma NoPriceTodayWords()
    ensures Quiet("I cannot work out today's ") && Quiet("margin: no purchase price is ") &&
            Quiet("recorded for today. Enter ")
  {
  }

  lemma NoMarginWords()
    ensures Quiet("I cannot work out today's ") && Quiet("margin: no purchase price is ") &&
            Quiet("recorded for today. Enter ")
    ensures Quiet("what you pay per litre in ") && Quiet("Settings and this answers ") && Quiet("itself.")
  {
    NoPriceTodayWords();
  }

  lemma WeekSalesWords()
    ensures Quiet("Over the last ") && Closes(" days: PKR ", false) && Closes(" revenue on ", false) &&
            Closes(" L.", true)
  {
  }

  lemma OnlyFiguresWords()
    ensures Quiet("I only have figures for today,") && Quiet(" yesterday and the last ")
  {
  }

  lemma OtherPeriodWords()
    ensures Quiet("I only have figures for today,") && Quiet(" yesterday and the last ")
    ensures Closes(" days. The Sales page lists ", false) && Quiet("each of the last ") && Closes(" days.", true)
  {
    OnlyFiguresWords();
  }

  lemma CreditWords()
    ensures Quiet("Total credit outstanding is ") && Quiet("PKR ") && Closes(" across ", false) &&
            Closes(" customer(s).", true)
  {
  }

  lemma ScoreWords()
    ensures Quiet(SCORE_LEAD) && Closes("/", false) && Closes(" with ", false) && Closes(" open issue(s).", true) &&
            Quiet(" is ")
    ensures Quiet("There is no FuelMind ") && Quiet("Score yet.")
  {
  }

  lemma YesterdayWords()
    ensures Quiet("I have yesterday's total only,") && Quiet(" not by product: PKR ") &&
            Quiet("Yesterday's revenue was PKR ")
    ensures Closes(".", true)
  {
  }

  lemma TodayWords()
    ensures Quiet("Today's revenue is PKR ") && Closes(" from ", false) && Closes(" sale(s), ", false) &&
            Closes(" L sold.", true)
  {
  }

  lemma ProductWords()
    ensures Quiet("Today ") && Quiet("No ") && Quiet("Petrol ") && Quiet("Diesel") && Closes(": ", false)
    ensures Closes(" L sold for PKR ", false) && Closes(" sales have been ", false) && Quiet("recorded today.") &&
            Closes(".", true)
  {
  }

  // ----- each fixed answer -----

  lemma NoPriceGood(ok: set<string>)
    ensures Good(NoPrice(), ok)
  {
    PriceWords();
    NothingGood(ok);
    GoodSay("I can work out your margin.", [], ok);
    var end := Say("I can work out your margin.", []);
    GoodSay("pay per litre in Settings and ", end, ok);
    var enter := Say("pay per litre in Settings and ", end);
    GoodSay("recorded yet. Enter what you ", enter, ok);
    GoodSay("No purchase price has been ", Say("recorded yet. Enter what you ", enter), ok);
  }

  lemma NoWeekMarginGood(ok: set<string>)
    ensures Good(NoWeekMargin(), ok)
  {
    NoWeekMarginWords();
    ConstantsOk(ok);
    NothingGood(ok);
    GoodSay("litre in Settings.", [], ok);
    var end := Say("litre in Settings.", []);
    GoodSay("Enter what you pay per ", end, ok);
    var enter := Say("Enter what you pay per ", end);
    GoodSay("recorded for those days. ", enter, ok);
    var days := Say("recorded for those days. ", enter);
    GoodTell("7", " days: no purchase price is ", days, ok);
    var last := Tell("7", Say(" days: no purchase price is ", days));
    GoodSay("the last ", last, ok);
    GoodSay("I cannot work out margin for ", Say("the last ", last), ok);
  }

  lemma OnlyFuelGood(ok: set<string>)
    ensures Good(OnlyFuel(), ok) && OnlyFuel() != []
  {
    OnlyFuelWords();
    NothingGood(ok);
    GoodSay("or other costs.", [], ok);
    var end := Say("or other costs.", []);
    GoodSay(" does not include wages, rent ", end, ok);
    GoodSay(" That is fuel margin only — it", Say(" does not include wages, rent ", end), ok);
  }

  lemma CoverageGood(days: nat, rest: seq<Piece>, ok: set<string>)
    requires TokenOk(Itoa(days), ok) && Good(rest, ok)
    ensures Good(Coverage(days, rest), ok)
  {
    CoverageWords();
    ConstantsOk(ok);
    if days == 1 {
      GoodSay("recorded: PKR ", rest, ok);
      var end := Say("recorded: PKR ", rest);
      GoodTell("7", " that has a purchase price ", end, ok);
      var last := Tell("7", Say(" that has a purchase price ", end));
      GoodTell(Itoa(days), " day of the last ", last, ok);
      GoodSay("Over the ", Tell(Itoa(days), Say(" day of the last ", last)), ok);
    } else {
      GoodSay("price recorded: PKR ", rest, ok);
      var end := Say("price recorded: PKR ", rest);
      GoodTell("7", " days that have a purchase ", end, ok);
      var last := Tell("7", Say(" days that have a purchase ", end));
      GoodTell(Itoa(days), " of the last ", last, ok);
      GoodSay("Over the ", Tell(Itoa(days), Say(" of the last ", last)), ok);
    }
  }

  lemma WeekMarginGood(m: Context, ok: set<string>)
    requires Covers(m, ok)
    ensures Good(WeekMargin(m), ok)
  {
    var revenue, cost, margin := m.revenue7dCosted, m.cost7d, m.margin7d;
    FigureIn(m, m.revenue7dCosted, ok);
    FigureIn(m, m.cost7d, ok);
    FigureIn(m, m.margin7d, ok);
    CountIn(m, m.costedDays7d, ok);
    MarginWords();
    OnlyFuelGood(ok);
    GoodMoney(margin, " margin.", OnlyFuel(), ok);
    var end := TellMoney(margin, Say(" margin.", OnlyFuel()));
    GoodMoney(cost, " fuel cost, PKR ", end, ok);
    var costs := TellMoney(cost, Say(" fuel cost, PKR ", end));
    GoodMoney(revenue, " revenue, PKR ", costs, ok);
    CoverageGood(m.costedDays7d, TellMoney(revenue, Say(" revenue, PKR ", costs)), ok);
  }

  lemma NoMarginGood(ok: set<string>)
    ensures Good(NoMargin(), ok)
  {
    NoMarginWords();
    NothingGood(ok);
    GoodSay("itself.", [], ok);
    var end := Say("itself.", []);
    GoodSay("Settings and this answers ", end, ok);
    var answers := Say("Settings and this answers ", end);
    GoodSay("what you pay per litre in ", answers, ok);
    var pay := Say("what you pay per litre in ", answers);
    GoodSay("recorded for today. Enter ", pay, ok);
    var enter := Say("recorded for today. Enter ", pay);
    GoodSay("margin: no purchase price is ", enter, ok);
    GoodSay("I cannot work out today's ", Say("margin: no purchase price is ", enter), ok);
  }

  lemma MarginTodayGood(m: Context, ok: set<string>)
    requires Covers(m, ok)
    ensures Good(MarginToday(m), ok)
  {
    var revenue, cost, margin := m.revenueToday, m.costToday, m.marginToday;
    FigureIn(m, m.revenueToday, ok);
    FigureIn(m, m.costToday, ok);
    FigureIn(m, m.marginToday, ok);
    PercentIn(m, ok);
    MarginWords();
    OnlyFuelGood(ok);
    GoodSay(").", OnlyFuel(), ok);
    GoodPercent(m.marginPctToday, Say(").", OnlyFuel()), ok);
    var end := TellPercent(m.marginPctToday, Say(").", OnlyFuel()));
    GoodMoney(margin, " margin (", end, ok);
    var margins := TellMoney(margin, Say(" margin (", end));
    GoodMoney(cost, " fuel cost, PKR ", margins, ok);
    var costs := TellMoney(cost, Say(" fuel cost, PKR ", margins));
    GoodMoney(revenue, " revenue, PKR ", costs, ok);
    GoodSay("Today: PKR ", TellMoney(revenue, Say(" revenue, PKR ", costs)), ok);
  }

  lemma WeekSalesGood(m: Context, ok: set<string>)
    requires Covers(m, ok)
    ensures Good(WeekSales(m), ok)
  {
    var revenue, volume := m.revenue7d, m.volume7d;
    FigureIn(m, m.revenue7d, ok);
    FigureIn(m, m.volume7d, ok);
    ConstantsOk(ok);
    WeekSalesWords();
    var end := TellMoney(volume, Say(" L.", []));
    GoodMoney(volume, " L.", [], ok);
    var sold := TellMoney(revenue, Say(" revenue on ", end));
    GoodMoney(revenue, " revenue on ", end, ok);
    GoodTell("7", " days: PKR ", sold, ok);
    GoodSay("Over the last ", Tell("7", Say(" days: PKR ", sold)), ok);
  }

  lemma OtherPeriodGood(ok: set<string>)
    ensures Good(OtherPeriod(), ok)
  {
    OtherPeriodWords();
    ConstantsOk(ok);
    NothingGood(ok);
    GoodTell("30", " days.", [], ok);
    var end := Tell("30", Say(" days.", []));
    GoodSay("each of the last ", end, ok);
    var each := Say("each of the last ", end);
    GoodTell("7", " days. The Sales page lists ", each, ok);
    var last := Tell("7", Say(" days. The Sales page lists ", each));
    GoodSay(" yesterday and the last ", last, ok);
    GoodSay("I only have figures for today,", Say(" yesterday and the last ", last), ok);
  }

  lemma CreditGood(m: Context, ok: set<string>)
    requires Covers(m, ok)
    ensures Good(CreditAnswer(m), ok)
  {
    var credit, customers := m.credit, Itoa(m.creditCustomers);
    FigureIn(m, m.credit, ok);
    CountIn(m, m.creditCustomers, ok);
    CreditWords();
    NothingGood(ok);
    GoodTell(customers, " customer(s).", [], ok);
    var end := Tell(customers, Say(" customer(s).", []));
    GoodMoney(credit, " across ", end, ok);
    var total := TellMoney(credit, Say(" across ", end));
    GoodSay("PKR ", total, ok);
    GoodSay("Total credit outstanding is ", Say("PKR ", total), ok);
  }

  lemma NoScoreGood(ok: set<string>)
    ensures Good(NoScore(), ok)
  {
    ScoreWords();
    NothingGood(ok);
    GoodSay("Score yet.", [], ok);
    GoodSay("There is no FuelMind ", Say("Score yet.", []), ok);
  }

  lemma ScoreTailGood(m: Context, ok: set<string>)
    requires Allowed(m) <= ok
    ensures Good(ScoreTail(m), ok)
  {
    var score, issues := Itoa(m.score), Itoa(|m.issues|);
    CountIn(m, m.score, ok);
    CountIn(m, |m.issues|, ok);
    ConstantsOk(ok);
    ScoreWords();
    NothingGood(ok);
    GoodTell(issues, " open issue(s).", [], ok);
    var end := Tell(issues, Say(" open issue(s).", []));
    GoodTell("100", " with ", end, ok);
    var hundred := Tell("100", Say(" with ", end));
    GoodTell(score, "/", hundred, ok);
    GoodSay(" is ", Tell(score, Say("/", hundred)), ok);
  }

  lemma NoSharesCons(p: Piece, rest: seq<Piece>)
    requires !p.Share? && NoShares(rest)
    ensures NoShares([p] + rest)
  {
  }

  lemma ScoreTailNoShares(m: Context)
    ensures NoShares(ScoreTail(m))
  {
    var end := Tell(Itoa(|m.issues|), Say(" open issue(s).", []));
    NoSharesCons(Words(" open issue(s)."), []);
    NoSharesCons(Amount(Itoa(|m.issues|)), Say(" open issue(s).", []));
    NoSharesCons(Words(" with "), end);
    NoSharesCons(Amount("100"), Say(" with ", end));
    var hundred := Tell("100", Say(" with ", end));
    NoSharesCons(Words("/"), hundred);
    NoSharesCons(Amount(Itoa(m.score)), Say("/", hundred));
    NoSharesCons(Words(" is "), Tell(Itoa(m.score), Say("/", hundred)));
  }

  lemma YesterdayGood(m: Context, byProduct: bool, ok: set<string>)
    requires Covers(m, ok)
    ensures Good(YesterdaySales(m, byProduct), ok)
  {
    var revenue := m.revenueYesterday;
    FigureIn(m, m.revenueYesterday, ok);
    YesterdayWords();
    NothingGood(ok);
    GoodMoney(revenue, ".", [], ok);
    var end := TellMoney(revenue, Say(".", []));
    GoodSay("Yesterday's revenue was PKR ", end, ok);
    GoodSay(" not by product: PKR ", end, ok);
    GoodSay("I have yesterday's total only,", Say(" not by product: PKR ", end), ok);
  }

  lemma TodayGood(m: Context, ok: set<string>)
    requires Covers(m, ok)
    ensures Good(TodaySales(m), ok)
  {
    var revenue, sales, volume := m.revenueToday, Itoa(m.transactionsToday), m.volumeToday;
    FigureIn(m, m.revenueToday, ok);
    FigureIn(m, m.volumeToday, ok);
    CountIn(m, m.transactionsToday, ok);
    TodayWords();
    NothingGood(ok);
    GoodMoney(volume, " L sold.", [], ok);
    var end := TellMoney(volume, Say(" L sold.", []));
    GoodTell(sales, " sale(s), ", end, ok);
    var count := Tell(sales, Say(" sale(s), ", end));
    GoodMoney(revenue, " from ", count, ok);
    GoodSay("Today's revenue is PKR ", TellMoney(revenue, Say(" from ", count)), ok);
  }

  // ----- answers about one product -----

  function Octane(code: string): Option<string> {
    if code == "PETROL_92" then Some("92") else if code == "PETROL_95" then Some("95") else None
  }

  predicate OctaneOk(code: string, allowed: set<string>) {
    Octane(code).Some? ==> NumberOk(Octane(code).value, allowed)
  }

  lemma OctaneTokens()
    ensures IsToken("92") && IsToken("95") && Canonical("92") == "92" && Canonical("95") == "95"
  {
    assert Itoa(9) == "9";
    assert Itoa(92) == "92" && Itoa(95) == "95";
    CountToken(92);
    CountToken(95);
  }

  lemma DisplayGood(code: string, w: string, rest: seq<Piece>, allowed: set<string>)
    requires OctaneOk(code, allowed) && Closes(w, rest == []) && Good(rest, allowed)
    ensures Good(DisplayProduct(code, Say(w, rest)), allowed)
  {
    OctaneTokens();
    ProductWords();
    GoodSay(w, rest, allowed);
    GoodSay("Diesel", Say(w, rest), allowed);
    if Octane(code).Some? {
      var octane := Octane(code).value;
      GoodTell(octane, w, rest, allowed);
      GoodSay("Petrol ", Tell(octane, Say(w, rest)), allowed);
    }
  }

  lemma ProductSoldGood(code: string, volume: Number, money: Number, allowed: set<string>)
    requires OctaneOk(code, allowed) && MoneyIn(volume, allowed) && MoneyIn(money, allowed)
    ensures Good(ProductSold(code, volume, money), allowed)
  {
    ProductWords();
    NothingGood(allowed);
    GoodMoney(money, ".", [], allowed);
    var end := TellMoney(money, Say(".", []));
    GoodMoney(volume, " L sold for PKR ", end, allowed);
    var sold := TellMoney(volume, Say(" L sold for PKR ", end));
    DisplayGood(code, ": ", sold, allowed);
    GoodSay("Today ", DisplayProduct(code, Say(": ", sold)), allowed);
  }

  lemma ProductNotSoldGood(code: string, allowed: set<string>)
    requires OctaneOk(code, allowed)
    ensures Good(ProductNotSold(code), allowed)
  {
    ProductWords();
    NothingGood(allowed);
    GoodSay("recorded today.", [], allowed);
    var end := Say("recorded today.", []);
    DisplayGood(code, " sales have been ", end, allowed);
    GoodSay("No ", DisplayProduct(code, Say(" sales have been ", end)), allowed);
  }

  lemma {:induction false} FirstOfIsRow(ps: seq<Product>, code: string)
    ensures FirstOf(ps, code).Some? ==> FirstOf(ps, code).value in ps && FirstOf(ps, code).value.code == code
    ensures FirstOf(ps, code).None? ==> forall p :: p in ps ==> p.code != code
  {
    if ps != [] { FirstOfIsRow(ps[1..], code); }
  }

  lemma ProductGood(m: Context, code: string, ok: set<string>)
    requires Covers(m, ok) && OctaneOk(code, ok)
    ensures Good(ProductToday(m, code), ok)
  {
    FirstOfIsRow(m.products, code);
    var row := FirstOf(m.products, code);
    if row.Some? {
      ProductSoldGood(code, row.value.volume, row.value.money, ok);
    } else {
      ProductNotSoldGood(code, ok);
    }
  }

  /** An answer about one product passes unless it names an octane number that nothing in the context allows. */
  lemma ProductAnswerPassesIff(m: Context, code: string)
    requires NonNegative(m)
    ensures Ungrounded(Text(ProductToday(m, code)), m) == [] <==> OctaneOk(code, Allowed(m))
  {
    var ps := ProductToday(m, code);
    ProductFits(m, code);
    AnswerPassesIff(ps, m);
    if OctaneOk(code, Allowed(m)) {
      NonNegativeCovers(m);
      ProductGood(m, code, Allowed(m));
    } else {
      OctanePiece(m, code);
    }
  }

  lemma OctanePiece(m: Context, code: string)
    requires Octane(code).Some?
    ensures |ProductToday(m, code)| > 2 && ProductToday(m, code)[2] == Amount(Octane(code).value)
  {
  }

  lemma CoversMore(m: Context, ok: set<string>, more: set<string>)
    requires Covers(m, ok) && ok <= more
    ensures Covers(m, more)
  {
    forall v | v in Values(m) ensures MoneyIn(v, more) { assert MoneyIn(v, ok); }
    forall p | p in m.products
      ensures MoneyIn(p.volume, more) && MoneyIn(p.money, more)
    {
      assert MoneyIn(p.volume, ok) && MoneyIn(p.money, ok);
    }
  }

  lemma ProductFits(m: Context, code: string)
    ensures Fits(ProductToday(m, code))
  {
    OctaneTokens();
    var ok := SomeCover(m);
    CoversMore(m, ok, ok + {"92", "95"});
    ProductGood(m, code, ok + {"92", "95"});
  }

  // ----- every other fixed answer -----

  predicate NamesPrice(q: Question, m: Context) { q.purchasePrice && m.latestCostProduct != "" }

  /** The question is answered with one product's figures. */
  predicate NamesProduct(q: Question) {
    q.product.Some? && !q.purchasePrice && !q.margin && !q.week && !q.otherPeriod && !q.credit && !q.yesterday
  }

  predicate Dated(m: Context) { m.scoreDate == "" || DateShaped(m.scoreDate) }

  lemma {:induction false} TextConcat(a: seq<Piece>, b: seq<Piece>)
    ensures Text(a + b) == Text(a) + Text(b)
  {
    if a == [] {
      assert a + b == b;
    } else {
      assert (a + b)[1..] == a[1..] + b;
      TextConcat(a[1..], b);
    }
  }

  lemma TextWithDate(ps: seq<Piece>, d: string, qs: seq<Piece>)
    ensures Text(ps + [Date(d)] + qs) == Text(ps) + d + Text(qs)
  {
    TextConcat(ps + [Date(d)], qs);
    TextConcat(ps, [Date(d)]);
    assert [Date(d)][1..] == [];
    assert Text([Date(d)]) == d;
  }

  lemma PiecesConcat(ps: seq<Piece>, qs: seq<Piece>, ok: set<string>)
    ensures PiecesOk(ps + qs, ok) <==> PiecesOk(ps, ok) && PiecesOk(qs, ok)
  {
    if PiecesOk(ps + qs, ok) {
      forall i | 0 <= i < |ps| ensures PieceOk(ps[i], ok) { assert (ps + qs)[i] == ps[i]; }
      forall i | 0 <= i < |qs| ensures PieceOk(qs[i], ok) { assert (ps + qs)[|ps| + i] == qs[i]; }
    }
  }

  lemma PiecesWithDate(ps: seq<Piece>, d: string, qs: seq<Piece>, ok: set<string>)
    ensures PiecesOk(ps + [Date(d)] + qs, ok) <==> PiecesOk(ps, ok) && PiecesOk(qs, ok)
  {
    PiecesConcat(ps + [Date(d)], qs, ok);
    PiecesConcat(ps, [Date(d)], ok);
  }

  lemma LeadOpen()
    ensures Open([Words(SCORE_LEAD)])
  {
    ScoreWords();
  }

  lemma ScoreTailStops(m: Context)
    ensures Stops(Text(ScoreTail(m)))
  {
    assert Text(ScoreTail(m)) == " is " + Text(ScoreTail(m)[1..]);
  }

  /** The score's answer always passes: its date is the context's own and counts are never negative. */
  lemma ScorePasses(m: Context)
    requires Dated(m)
    ensures Ungrounded(Text(ScoreAnswer(m)), m) == [] && PiecesOk(ScoreAnswer(m), Allowed(m))
  {
    if m.scoreDate == "" {
      NoScoreGood(Allowed(m));
      AnswerPassesIff(NoScore(), m);
    } else {
      ScoreTailGood(m, Allowed(m));
      ScoreTailNoShares(m);
      ScoreTailStops(m);
      ContextDatedPasses(m, ScoreTail(m));
    }
  }

  lemma ContextDatedPasses(m: Context, tail: seq<Piece>)
    requires DateShaped(m.scoreDate) && Good(tail, Allowed(m)) && NoShares(tail) && Stops(Text(tail))
    ensures var ps := [Words(SCORE_LEAD)] + [Date(m.scoreDate)] + tail;
            Ungrounded(Text(ps), m) == [] && PiecesOk(ps, Allowed(m))
  {
    var lead := [Words(SCORE_LEAD)];
    LeadOpen();
    DatedAnswerPassesIff(lead, m.scoreDate, tail, m);
    TextWithDate(lead, m.scoreDate, tail);
    PiecesWithDate(lead, m.scoreDate, tail, Allowed(m));
  }

  lemma ChosenGood(q: Question, m: Context, ok: set<string>)
    requires Covers(m, ok) && StandardPieces(q, m).Some? && !NamesPrice(q, m) && !NamesProduct(q)
    ensures StandardPieces(q, m).value == ScoreAnswer(m) || Good(StandardPieces(q, m).value, ok)
  {
    NoPriceGood(ok);
    NoWeekMarginGood(ok);
    NoMarginGood(ok);
    OtherPeriodGood(ok);
    WeekMarginGood(m, ok);
    MarginTodayGood(m, ok);
    WeekSalesGood(m, ok);
    CreditGood(m, ok);
    YesterdayGood(m, q.product.Some?, ok);
    TodayGood(m, ok);
  }

  lemma ProductIsChosen(q: Question, m: Context)
    requires StandardPieces(q, m).Some? && NamesProduct(q)
    ensures StandardPieces(q, m).value == ProductToday(m, q.product.value)
  {
  }

  /**
    Whatever the signs of the figures, a fixed answer that gives no price date passes exactly when the check accepts
    the digits of each number it prints: as a form of something in the context or, outside percentages, as a period
    length.
   */
  lemma StandardAnswersPassIff(q: Question, m: Context, model: Model, text: string)
    requires Dated(m) && !NamesPrice(q, m) && Route(q, m, model) == Standard(text)
    ensures Ungrounded(text, m) == [] <==> PiecesOk(StandardPieces(q, m).value, Allowed(m))
  {
    var ps := StandardPieces(q, m).value;
    if NamesProduct(q) {
      ProductIsChosen(q, m);
      ProductFits(m, q.product.value);
      AnswerPassesIff(ps, m);
    } else {
      var ok := SomeCover(m);
      ChosenGood(q, m, ok);
      if ps == ScoreAnswer(m) { ScorePasses(m); } else { AnswerPassesIff(ps, m); }
    }
  }

  /**
    Every fixed answer that names no product and no price date would pass the check itself, when the
    figures are not negative.
   */
  lemma StandardAnswersPass(q: Question, m: Context, model: Model, text: string)
    requires NonNegative(m) && Dated(m) && !NamesPrice(q, m) && !NamesProduct(q)
    requires Route(q, m, model) == Standard(text)
    ensures Ungrounded(text, m) == []
  {
    NonNegativeCovers(m);
    ChosenGood(q, m, Allowed(m));
    var ps := StandardPieces(q, m).value;
    if ps == ScoreAnswer(m) { ScorePasses(m); } else { AnswerPassesIff(ps, m); }
  }

  lemma SignedText(v: Number, places: nat)
    ensures CommasText(v, places) == (if v.negative && v.units > 0 then "-" else "") + CommasText(Magnitude(v), places)
  {
    var (whole, frac) := FixedParts(v, places);
    assert FixedParts(Magnitude(v), places) == FixedParts(v, places);
    assert "" + Render(Grouped(whole), frac) == Render(Grouped(whole), frac);
  }

  /** A minus sign and the digits of a magnitude are what printing a figure with separators gives. */
  lemma TellMoneyText(v: Number, rest: seq<Piece>)
    ensures Text(TellMoney(v, rest)) == CommasText(v, 2) + Text(rest)
  {
    SignedText(v, 2);
    SignedTellText(v, Money(v), rest);
  }

  lemma {:induction false} SignedTellText(v: Number, t: string, rest: seq<Piece>)
    ensures Text(Signed(v, Tell(t, rest))) == (if v.negative && v.units > 0 then "-" else "") + t + Text(rest)
  {
    var told := Tell(t, rest);
    assert told[1..] == rest;
    assert Text(told) == t + Text(rest);
    if v.negative && v.units > 0 { assert Say("-", told)[1..] == told; } else { assert "" + t == t; }
  }

  // ----- the price answer -----

  lemma OpenCons(p: Piece, rest: seq<Piece>)
    requires Open(rest) && OpenAt([p] + rest, 0)
    ensures Open([p] + rest)
  {
    var ps := [p] + rest;
    forall i: nat | i < |ps| ensures OpenAt(ps, i) {
      if i > 0 {
        assert OpenAt(rest, i - 1) && ps[i] == rest[i - 1];
        if i + 1 < |ps| { assert ps[i + 1] == rest[i]; }
      }
    }
  }

  lemma OpenSay(w: string, rest: seq<Piece>)
    requires Quiet(w) && Open(rest)
    ensures Open(Say(w, rest))
  {
    OpenCons(Words(w), rest);
  }

  lemma OpenTell(t: string, w: string, rest: seq<Piece>)
    requires IsToken(t) && Closes(w, false) && Open(rest)
    ensures Open(Tell(t, Say(w, rest)))
  {
    OpenSay(w, rest);
    assert ([Amount(t)] + Say(w, rest))[1] == Words(w);
    OpenCons(Amount(t), Say(w, rest));
  }

  lemma PriceLeadWords()
    ensures Quiet("The latest purchase price ") && Quiet("on record is PKR ") && Closes(" per litre for ", false)
    ensures Quiet("Petrol ") && Closes(" from ", false) && Quiet("Diesel, from ") && Quiet("-")
  {
  }

  lemma CommaTokens()
    ensures IsToken("92,") && IsToken("95,")
  {
    RunToken("92,", "");
    RunToken("95,", "");
  }

  lemma PricedProductOpen(code: string)
    ensures Open(PricedProduct(code))
  {
    PriceLeadWords();
    CommaTokens();
    OpenSay("Diesel, from ", []);
    OpenTell("92,", " from ", []);
    OpenTell("95,", " from ", []);
    OpenSay("Petrol ", Tell("92,", Say(" from ", [])));
    OpenSay("Petrol ", Tell("95,", Say(" from ", [])));
  }

  lemma MoneyOpen(v: Number, w: string, rest: seq<Piece>)
    requires Closes(w, false) && Open(rest)
    ensures Open(TellMoney(v, Say(w, rest)))
  {
    MoneyToken(v);
    SignedOpen(v, Money(v), w, rest);
  }

  lemma SignedOpen(v: Number, t: string, w: string, rest: seq<Piece>)
    requires IsToken(t) && Closes(w, false) && Open(rest)
    ensures Open(Signed(v, Tell(t, Say(w, rest))))
  {
    PriceLeadWords();
    OpenTell(t, w, rest);
    OpenSay("-", Tell(t, Say(w, rest)));
  }

  lemma PriceLeadOpen(m: Context)
    ensures Open(PriceLead(m))
  {
    var product := PricedProduct(m.latestCostProduct);
    PriceLeadWords();
    PricedProductOpen(m.latestCostProduct);
    MoneyOpen(m.latestCost, " per litre for ", product);
    var price := TellMoney(m.latestCost, Say(" per litre for ", product));
    OpenSay("on record is PKR ", price);
    OpenSay("The latest purchase price ", Say("on record is PKR ", price));
  }

  lemma EndFits()
    ensures Fits([Words(".")]) && NoShares([Words(".")]) && Stops(Text([Words(".")])) &&
            forall ok: set<string> :: PiecesOk([Words(".")], ok)
  {
    assert Text([Words(".")]) == "." by { assert [Words(".")][1..] == []; }
  }

  /**
    The price answer passes exactly when the check accepts its price and octane number and either the date is one of
    the context's own or each of the date's three numbers is accepted as a number.
   */
  lemma PriceAnswerPassesIff(m: Context)
    requires DateShaped(m.latestCostFrom)
    ensures Ungrounded(Text(PriceOnRecord(m)), m) == [] <==>
            PiecesOk(PriceLead(m), Allowed(m)) &&
              (ContextDate(m.latestCostFrom, m) || DateOk(m.latestCostFrom, Allowed(m)))
  {
    PriceLeadOpen(m);
    EndFits();
    DatedAnswerPassesIff(PriceLead(m), m.latestCostFrom, [Words(".")], m);
    TextWithDate(PriceLead(m), m.latestCostFrom, [Words(".")]);
  }

  /** A purchase price that is not negative is always accepted; only the octane number and the date can fail. */
  lemma PriceIsAllowed(m: Context)
    requires !m.latestCost.negative
    ensures IsToken(CommasText(m.latestCost, 2)) && Canonical(CommasText(m.latestCost, 2)) in Allowed(m)
  {
    assert m.latestCost in Values(m);
    MoneyOk(m, m.latestCost, 2);
  }
}
