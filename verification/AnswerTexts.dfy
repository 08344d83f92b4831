/**
  What each fixed answer says, word for word: which figure stands behind which words, and which
  question gets which answer.
 */
module AnswerTexts {
  import opened Common
  import opened Decimal
  import opened Figures
  import opened Tokens
  import opened Grounding
  import opened Answers
  import opened Routing

  function ProductName(code: string): string {
    if code == "PETROL_92" then "Petrol 92" else if code == "PETROL_95" then "Petrol 95" else "Diesel"
  }

  // ----- from pieces to text -----

  lemma Assoc(a: string, b: string, c: string)
    ensures a + (b + c) == a + b + c
  {
  }

  lemma SayText(w: string, rest: seq<Piece>)
    ensures Text(Say(w, rest)) == w + Text(rest)
  {
    assert Say(w, rest)[1..] == rest;
  }

  lemma TellText(t: string, rest: seq<Piece>)
    ensures Text(Tell(t, rest)) == t + Text(rest)
  {
    assert Tell(t, rest)[1..] == rest;
  }

  /** `a` is said next, `rest` after it. */
  lemma Said(before: string, w: string, rest: seq<Piece>)
    ensures before + Text(Say(w, rest)) == before + w + Text(rest)
  {
    SayText(w, rest);
    Assoc(before, w, Text(rest));
  }

  lemma Told(before: string, t: string, rest: seq<Piece>)
    ensures before + Text(Tell(t, rest)) == before + t + Text(rest)
  {
    TellText(t, rest);
    Assoc(before, t, Text(rest));
  }

  lemma Paid(before: string, v: Number, rest: seq<Piece>)
    ensures before + Text(TellMoney(v, rest)) == before + CommasText(v, 2) + Text(rest)
  {
    TellMoneyText(v, rest);
    Assoc(before, CommasText(v, 2), Text(rest));
  }

  lemma Ended(before: string, w: string)
    ensures before + Text(Say(w, [])) == before + w
  {
    Said(before, w, []);
  }

  // ----- the texts -----

  lemma NoPriceText()
    ensures Text(NoPrice()) ==
            "No purchase price has been " + "recorded yet. Enter what you " + "pay per litre in Settings and " +
            "I can work out your margin."
  {
    var p3 := Say("I can work out your margin.", []);
    var p2 := Say("pay per litre in Settings and ", p3);
    var p1 := Say("recorded yet. Enter what you ", p2);
    var t := "No purchase price has been ";
    SayText(t, p1);
    Said(t, "recorded yet. Enter what you ", p2);
    t := t + "recorded yet. Enter what you ";
    Said(t, "pay per litre in Settings and ", p3);
    t := t + "pay per litre in Settings and ";
    Said(t, "I can work out your margin.", []);
  }

  lemma NoMarginText()
    ensures Text(NoMargin()) ==
            "I cannot work out today's " + "margin: no purchase price is " + "recorded for today. Enter " +
            "what you pay per litre in " + "Settings and this answers " + "itself."
  {
    var p5 := Say("itself.", []);
    var p4 := Say("Settings and this answers ", p5);
    var p3 := Say("what you pay per litre in ", p4);
    var p2 := Say("recorded for today. Enter ", p3);
    var p1 := Say("margin: no purchase price is ", p2);
    var t := "I cannot work out today's ";
    SayText(t, p1);
    Said(t, "margin: no purchase price is ", p2);
    t := t + "margin: no purchase price is ";
    Said(t, "recorded for today. Enter ", p3);
    t := t + "recorded for today. Enter ";
    Said(t, "what you pay per litre in ", p4);
    t := t + "what you pay per litre in ";
    Said(t, "Settings and this answers ", p5);
    t := t + "Settings and this answers ";
    Said(t, "itself.", []);
  }

  lemma NoWeekMarginText()
    ensures Text(NoWeekMargin()) ==
            "I cannot work out margin for " + "the last " + "7" + " days: no purchase price is " +
            "recorded for those days. " + "Enter what you pay per " + "litre in Settings."
  {
    var p6 := Say("litre in Settings.", []);
    var p5 := Say("Enter what you pay per ", p6);
    var p4 := Say("recorded for those days. ", p5);
    var p3 := Say(" days: no purchase price is ", p4);
    var p2 := Tell("7", p3);
    var p1 := Say("the last ", p2);
    var t := "I cannot work out margin for ";
    SayText(t, p1);
    Said(t, "the last ", p2);
    t := t + "the last ";
    Told(t, "7", p3);
    t := t + "7";
    Said(t, " days: no purchase price is ", p4);
    t := t + " days: no purchase price is ";
    Said(t, "recorded for those days. ", p5);
    t := t + "recorded for those days. ";
    Said(t, "Enter what you pay per ", p6);
    t := t + "Enter what you pay per ";
    Said(t, "litre in Settings.", []);
  }

  lemma OtherPeriodText()
    ensures Text(OtherPeriod()) ==
            "I only have figures for today," + " yesterday and the last " + "7" + " days. The Sales page lists " +
            "each of the last " + "30" + " days."
  {
    var p6 := Say(" days.", []);
    var p5 := Tell("30", p6);
    var p4 := Say("each of the last ", p5);
    var p3 := Say(" days. The Sales page lists ", p4);
    var p2 := Tell("7", p3);
    var p1 := Say(" yesterday and the last ", p2);
    var t := "I only have figures for today,";
    SayText(t, p1);
    Said(t, " yesterday and the last ", p2);
    t := t + " yesterday and the last ";
    Told(t, "7", p3);
    t := t + "7";
    Said(t, " days. The Sales page lists ", p4);
    t := t + " days. The Sales page lists ";
    Said(t, "each of the last ", p5);
    t := t + "each of the last ";
    Told(t, "30", p6);
    t := t + "30";
    Said(t, " days.", []);
  }

  lemma OnlyFuelText()
    ensures Text(OnlyFuel()) ==
            " That is fuel margin only — it" + " does not include wages, rent " + "or other costs."
  {
    var p2 := Say("or other costs.", []);
    var p1 := Say(" does not include wages, rent ", p2);
    var t := " That is fuel margin only — it";
    SayText(t, p1);
    Said(t, " does not include wages, rent ", p2);
    t := t + " does not include wages, rent ";
    Said(t, "or other costs.", []);
  }

  lemma WeekSalesText(m: Context)
    ensures Text(WeekSales(m)) ==
            "Over the last " + "7" + " days: PKR " + CommasText(m.revenue7d, 2) + " revenue on " +
            CommasText(m.volume7d, 2) + " L."
  {
    var p6 := Say(" L.", []);
    var p5 := TellMoney(m.volume7d, p6);
    var p4 := Say(" revenue on ", p5);
    var p3 := TellMoney(m.revenue7d, p4);
    var p2 := Say(" days: PKR ", p3);
    var p1 := Tell("7", p2);
    var t := "Over the last ";
    SayText(t, p1);
    Told(t, "7", p2);
    t := t + "7";
    Said(t, " days: PKR ", p3);
    t := t + " days: PKR ";
    Paid(t, m.revenue7d, p4);
    t := t + CommasText(m.revenue7d, 2);
    Said(t, " revenue on ", p5);
    t := t + " revenue on ";
    Paid(t, m.volume7d, p6);
    t := t + CommasText(m.volume7d, 2);
    Said(t, " L.", []);
  }

  lemma CreditText(m: Context)
    ensures Text(CreditAnswer(m)) ==
            "Total credit outstanding is " + "PKR " + CommasText(m.credit, 2) + " across " +
            Itoa(m.creditCustomers) + " customer(s)."
  {
    var p5 := Say(" customer(s).", []);
    var p4 := Tell(Itoa(m.creditCustomers), p5);
    var p3 := Say(" across ", p4);
    var p2 := TellMoney(m.credit, p3);
    var p1 := Say("PKR ", p2);
    var t := "Total credit outstanding is ";
    SayText(t, p1);
    Said(t, "PKR ", p2);
    t := t + "PKR ";
    Paid(t, m.credit, p3);
    t := t + CommasText(m.credit, 2);
    Said(t, " across ", p4);
    t := t + " across ";
    Told(t, Itoa(m.creditCustomers), p5);
    t := t + Itoa(m.creditCustomers);
    Said(t, " customer(s).", []);
  }

  lemma ScoreTailText(t0: string, m: Context)
    ensures t0 + Text(ScoreTail(m)) ==
            t0 + " is " + Itoa(m.score) + "/" + "100" + " with " + Itoa(|m.issues|) + " open issue(s)."
  {
    var p5 := Say(" open issue(s).", []);
    var p4 := Tell(Itoa(|m.issues|), p5);
    var p3 := Say(" with ", p4);
    var p2 := Tell("100", p3);
    var p1 := Say("/", p2);
    var t := t0;
    Said(t, " is ", Tell(Itoa(m.score), p1));
    t := t + " is ";
    Told(t, Itoa(m.score), p1);
    t := t + Itoa(m.score);
    Said(t, "/", p2);
    t := t + "/";
    Told(t, "100", p3);
    t := t + "100";
    Said(t, " with ", p4);
    t := t + " with ";
    Told(t, Itoa(|m.issues|), p5);
    Ended(t + Itoa(|m.issues|), " open issue(s).");
  }

  lemma NoScoreText()
    ensures Text(NoScore()) ==
            "There is no FuelMind " + "Score yet."
  {
    var p1 := Say("Score yet.", []);
    var t := "There is no FuelMind ";
    SayText(t, p1);
    Said(t, "Score yet.", []);
  }

  lemma YesterdayText(m: Context)
    ensures Text(YesterdaySales(m, false)) ==
            "Yesterday's revenue was PKR " + CommasText(m.revenueYesterday, 2) + "."
  {
    var p2 := Say(".", []);
    var p1 := TellMoney(m.revenueYesterday, p2);
    var t := "Yesterday's revenue was PKR ";
    SayText(t, p1);
    Paid(t, m.revenueYesterday, p2);
    t := t + CommasText(m.revenueYesterday, 2);
    Said(t, ".", []);
  }

  lemma YesterdayProductText(m: Context)
    ensures Text(YesterdaySales(m, true)) ==
            "I have yesterday's total only," + " not by product: PKR " + CommasText(m.revenueYesterday, 2) + "."
  {
    var p3 := Say(".", []);
    var p2 := TellMoney(m.revenueYesterday, p3);
    var p1 := Say(" not by product: PKR ", p2);
    var t := "I have yesterday's total only,";
    SayText(t, p1);
    Said(t, " not by product: PKR ", p2);
    t := t + " not by product: PKR ";
    Paid(t, m.revenueYesterday, p3);
    t := t + CommasText(m.revenueYesterday, 2);
    Said(t, ".", []);
  }

  lemma TodaysSalesText(m: Context)
    ensures Text(TodaySales(m)) ==
            "Today's revenue is PKR " + CommasText(m.revenueToday, 2) + " from " + Itoa(m.transactionsToday) +
            " sale(s), " + CommasText(m.volumeToday, 2) + " L sold."
  {
    var p6 := Say(" L sold.", []);
    var p5 := TellMoney(m.volumeToday, p6);
    var p4 := Say(" sale(s), ", p5);
    var p3 := Tell(Itoa(m.transactionsToday), p4);
    var p2 := Say(" from ", p3);
    var p1 := TellMoney(m.revenueToday, p2);
    var t := "Today's revenue is PKR ";
    SayText(t, p1);
    Paid(t, m.revenueToday, p2);
    t := t + CommasText(m.revenueToday, 2);
    Said(t, " from ", p3);
    t := t + " from ";
    Told(t, Itoa(m.transactionsToday), p4);
    t := t + Itoa(m.transactionsToday);
    Said(t, " sale(s), ", p5);
    t := t + " sale(s), ";
    Paid(t, m.volumeToday, p6);
    t := t + CommasText(m.volumeToday, 2);
    Said(t, " L sold.", []);
  }

  /** What is said of one product, once its name is said. */
  lemma NameText(before: string, code: string, rest: seq<Piece>)
    ensures before + Text(DisplayProduct(code, rest)) == before + ProductName(code) + Text(rest)
  {
    if code == "PETROL_92" || code == "PETROL_95" {
      var n := if code == "PETROL_92" then "92" else "95";
      Said(before, "Petrol ", Tell(n, rest));
      Told(before + "Petrol ", n, rest);
      assert before + "Petrol " + n == before + ProductName(code);
    } else {
      Said(before, "Diesel", rest);
    }
  }

  lemma ProductSoldText(code: string, volume: Number, money: Number)
    ensures Text(ProductSold(code, volume, money)) ==
            "Today " + ProductName(code) + ": " + CommasText(volume, 2) + " L sold for PKR " +
            CommasText(money, 2) + "."
  {
    var p4 := Say(".", []);
    var p3 := TellMoney(money, p4);
    var p2 := Say(" L sold for PKR ", p3);
    var p1 := TellMoney(volume, p2);
    var p0 := Say(": ", p1);
    var t := "Today ";
    SayText(t, DisplayProduct(code, p0));
    NameText(t, code, p0);
    t := t + ProductName(code);
    Said(t, ": ", p1);
    t := t + ": ";
    Paid(t, volume, p2);
    t := t + CommasText(volume, 2);
    Said(t, " L sold for PKR ", p3);
    t := t + " L sold for PKR ";
    Paid(t, money, p4);
    Ended(t + CommasText(money, 2), ".");
  }

  lemma ProductNotSoldText(code: string)
    ensures Text(ProductNotSold(code)) == "No " + ProductName(code) + " sales have been " + "recorded today."
  {
    var p1 := Say("recorded today.", []);
    var p0 := Say(" sales have been ", p1);
    var t := "No ";
    SayText(t, DisplayProduct(code, p0));
    NameText(t, code, p0);
    t := t + ProductName(code);
    Said(t, " sales have been ", p1);
    Ended(t + " sales have been ", "recorded today.");
  }

  const ONLY_FUEL := " That is fuel margin only — it" + " does not include wages, rent " + "or other costs."

  /** The days a weekly margin covers. */
  function Covered(days: nat): string {
    if days == 1 then
      "Over the " + Itoa(1) + " day of the last " + "7" + " that has a purchase price " + "recorded: PKR "
    else "Over the " + Itoa(days) + " of the last " + "7" + " days that have a purchase " + "price recorded: PKR "
  }

  lemma CoverageText(days: nat, rest: seq<Piece>)
    ensures Text(Coverage(days, rest)) == Covered(days) + Text(rest)
  {
    var one := days == 1;
    var (a, b, c) := if one then (" day of the last ", " that has a purchase price ", "recorded: PKR ")
                     else (" of the last ", " days that have a purchase ", "price recorded: PKR ");
    var p4 := Say(c, rest);
    var p3 := Say(b, p4);
    var p2 := Tell("7", p3);
    var p1 := Say(a, p2);
    var p0 := Tell(Itoa(days), p1);
    var t := "Over the ";
    SayText(t, p0);
    Told(t, Itoa(days), p1);
    t := t + Itoa(days);
    Said(t, a, p2);
    t := t + a;
    Told(t, "7", p3);
    t := t + "7";
    Said(t, b, p4);
    t := t + b;
    Said(t, c, rest);
  }

  lemma WeekMarginText(m: Context)
    ensures Text(WeekMargin(m)) ==
            Covered(m.costedDays7d) + CommasText(m.revenue7dCosted, 2) + " revenue, PKR " + CommasText(m.cost7d, 2) +
            " fuel cost, PKR " + CommasText(m.margin7d, 2) + " margin." + ONLY_FUEL
  {
    var p4 := Say(" margin.", OnlyFuel());
    var p3 := TellMoney(m.margin7d, p4);
    var p2 := Say(" fuel cost, PKR ", p3);
    var p1 := TellMoney(m.cost7d, p2);
    var p0 := Say(" revenue, PKR ", p1);
    var t := Covered(m.costedDays7d);
    CoverageText(m.costedDays7d, TellMoney(m.revenue7dCosted, p0));
    Paid(t, m.revenue7dCosted, p0);
    t := t + CommasText(m.revenue7dCosted, 2);
    Said(t, " revenue, PKR ", p1);
    t := t + " revenue, PKR ";
    Paid(t, m.cost7d, p2);
    t := t + CommasText(m.cost7d, 2);
    Said(t, " fuel cost, PKR ", p3);
    t := t + " fuel cost, PKR ";
    Paid(t, m.margin7d, p4);
    t := t + CommasText(m.margin7d, 2);
    Said(t, " margin.", OnlyFuel());
    OnlyFuelText();
  }

  lemma PercentText(before: string, v: Number, rest: seq<Piece>)
    ensures before + Text(TellPercent(v, rest)) == before + CommasText(v, 1) + "%" + Text(rest)
  {
    SignedText(v, 1);
    var t := CommasText(Magnitude(v), 1);
    var told := TellShare(t, rest);
    assert told[1..] == rest;
    assert Text(told) == t + "%" + Text(rest);
    if v.negative && v.units > 0 {
      SayText("-", told);
      Assoc("-", t + "%", Text(rest));
      Assoc("-", t, "%");
    }
    assert Text(TellPercent(v, rest)) == CommasText(v, 1) + "%" + Text(rest);
    Assoc(before, CommasText(v, 1) + "%", Text(rest));
    Assoc(before, CommasText(v, 1), "%");
  }

  lemma MarginTodayText(m: Context)
    ensures Text(MarginToday(m)) ==
            "Today: PKR " + CommasText(m.revenueToday, 2) + " revenue, PKR " + CommasText(m.costToday, 2) +
            " fuel cost, PKR " + CommasText(m.marginToday, 2) + " margin (" + CommasText(m.marginPctToday, 1) + "%" +
            ")." + ONLY_FUEL
  {
    var p6 := Say(").", OnlyFuel());
    var p5 := TellPercent(m.marginPctToday, p6);
    var p4 := Say(" margin (", p5);
    var p3 := TellMoney(m.marginToday, p4);
    var p2 := Say(" fuel cost, PKR ", p3);
    var p1 := TellMoney(m.costToday, p2);
    var p0 := Say(" revenue, PKR ", p1);
    var t := "Today: PKR ";
    SayText(t, TellMoney(m.revenueToday, p0));
    Paid(t, m.revenueToday, p0);
    t := t + CommasText(m.revenueToday, 2);
    Said(t, " revenue, PKR ", p1);
    t := t + " revenue, PKR ";
    Paid(t, m.costToday, p2);
    t := t + CommasText(m.costToday, 2);
    Said(t, " fuel cost, PKR ", p3);
    t := t + " fuel cost, PKR ";
    Paid(t, m.marginToday, p4);
    t := t + CommasText(m.marginToday, 2);
    Said(t, " margin (", p5);
    t := t + " margin (";
    PercentText(t, m.marginPctToday, p6);
    t := t + CommasText(m.marginPctToday, 1) + "%";
    Said(t, ").", OnlyFuel());
    OnlyFuelText();
  }

  lemma Regroup(before: string, a: string, b: string, c: string, x: string, y: string)
    requires a + b + c == x + y
    ensures before + a + b + c == before + x + y
  {
    Assoc(before, a, b);
    Assoc(before, a + b, c);
    Assoc(before, x, y);
  }

  lemma PricedText(before: string, code: string)
    ensures before + Text(PricedProduct(code)) == before + ProductName(code) + ", from "
  {
    if code == "PETROL_92" || code == "PETROL_95" {
      var n := if code == "PETROL_92" then "92," else "95,";
      Said(before, "Petrol ", Tell(n, Say(" from ", [])));
      Told(before + "Petrol ", n, Say(" from ", []));
      Ended(before + "Petrol " + n, " from ");
      assert "Petrol " + n + " from " == ProductName(code) + ", from ";
      Regroup(before, "Petrol ", n, " from ", ProductName(code), ", from ");
    } else {
      Ended(before, "Diesel, from ");
      assert "Diesel, from " == "Diesel" + ", from ";
      Assoc(before, "Diesel", ", from ");
    }
  }

  lemma PriceText(m: Context)
    ensures Text(PriceOnRecord(m)) ==
            "The latest purchase price " + "on record is PKR " + CommasText(m.latestCost, 2) + " per litre for " +
            ProductName(m.latestCostProduct) + ", from " + m.latestCostFrom + "."
  {
    var p2 := Say(" per litre for ", PricedProduct(m.latestCostProduct));
    var p1 := TellMoney(m.latestCost, p2);
    var t := "The latest purchase price ";
    SayText(t, Say("on record is PKR ", p1));
    Said(t, "on record is PKR ", p1);
    t := t + "on record is PKR ";
    Paid(t, m.latestCost, p2);
    t := t + CommasText(m.latestCost, 2);
    Said(t, " per litre for ", PricedProduct(m.latestCostProduct));
    PricedText(t + " per litre for ", m.latestCostProduct);
    TextWithDate(PriceLead(m), m.latestCostFrom, [Words(".")]);
    assert [Words(".")] == Say(".", []);
    SayText(".", []);
  }

  lemma ScoreLeadText(m: Context)
    requires m.scoreDate != ""
    ensures Text(ScoreAnswer(m)) == SCORE_LEAD + m.scoreDate + Text(ScoreTail(m))
  {
    var lead := [Words(SCORE_LEAD)];
    TextWithDate(lead, m.scoreDate, ScoreTail(m));
    assert lead == Say(SCORE_LEAD, []);
    SayText(SCORE_LEAD, []);
  }

  lemma ScoreText(m: Context)
    requires m.scoreDate != ""
    ensures Text(ScoreAnswer(m)) ==
            "The FuelMind Score for " + m.scoreDate + " is " + Itoa(m.score) + "/" + "100" + " with " +
            Itoa(|m.issues|) + " open issue(s)."
  {
    ScoreLeadText(m);
    ScoreTailText("The FuelMind Score for " + m.scoreDate, m);
  }

  // ----- which question gets which answer -----

  /** The question is put to the fixed answers first. */
  predicate Asked(q: Question) { !q.blank && !q.help && !q.explain && !q.unanswerable }

  predicate AsksSales(q: Question) { q.sales || q.product.Some? }

  /** No earlier fixed answer is due: nothing about prices, margins or a whole week's sales. */
  predicate PastPeriods(q: Question) {
    Asked(q) && !q.purchasePrice && !q.margin && !(AsksSales(q) && q.week) && !(q.otherPeriod && AsksSales(q)) &&
    !(q.otherPeriod && q.credit)
  }

  /** Sales of today or yesterday are asked about, and nothing else. */
  predicate PastAll(q: Question) {
    PastPeriods(q) && !q.credit && AsksSales(q) && (q.score ==> q.product.Some?)
  }

  lemma PriceAnswered(q: Question, m: Context, model: Model)
    requires Asked(q) && q.purchasePrice
    ensures m.latestCostProduct != "" ==>
            Route(q, m, model) == Standard(
              "The latest purchase price " + "on record is PKR " + CommasText(m.latestCost, 2) + " per litre for " +
              ProductName(m.latestCostProduct) + ", from " + m.latestCostFrom + ".")
    ensures m.latestCostProduct == "" ==>
            Route(q, m, model) == Standard(
              "No purchase price has been " + "recorded yet. Enter what you " + "pay per litre in Settings and " +
              "I can work out your margin.")
  {
    PriceText(m);
    NoPriceText();
  }

  lemma WeekMarginAnswered(q: Question, m: Context, model: Model)
    requires Asked(q) && !q.purchasePrice && q.margin && q.week
    ensures m.haveCost7d ==>
            Route(q, m, model) == Standard(
              Covered(m.costedDays7d) + CommasText(m.revenue7dCosted, 2) + " revenue, PKR " + CommasText(m.cost7d, 2) +
              " fuel cost, PKR " + CommasText(m.margin7d, 2) + " margin." + ONLY_FUEL)
    ensures !m.haveCost7d ==>
            Route(q, m, model) == Standard(
              "I cannot work out margin for " + "the last " + "7" + " days: no purchase price is " +
              "recorded for those days. " + "Enter what you pay per " + "litre in Settings.")
  {
    WeekMarginText(m);
    NoWeekMarginText();
  }

  lemma MarginAnswered(q: Question, m: Context, model: Model)
    requires Asked(q) && !q.purchasePrice && q.margin && !q.week
    ensures m.haveCostToday ==>
            Route(q, m, model) == Standard(
              "Today: PKR " + CommasText(m.revenueToday, 2) + " revenue, PKR " + CommasText(m.costToday, 2) +
              " fuel cost, PKR " + CommasText(m.marginToday, 2) + " margin (" + CommasText(m.marginPctToday, 1) + "%" +
              ")." + ONLY_FUEL)
    ensures !m.haveCostToday ==>
            Route(q, m, model) == Standard(
              "I cannot work out today's " + "margin: no purchase price is " + "recorded for today. Enter " +
              "what you pay per litre in " + "Settings and this answers " + "itself.")
  {
    MarginTodayText(m);
    NoMarginText();
  }

  lemma WeekSalesAnswered(q: Question, m: Context, model: Model)
    requires Asked(q) && !q.purchasePrice && !q.margin && AsksSales(q) && q.week
    ensures Route(q, m, model) == Standard(
              "Over the last " + "7" + " days: PKR " + CommasText(m.revenue7d, 2) + " revenue on " +
              CommasText(m.volume7d, 2) + " L.")
  {
    WeekSalesText(m);
  }

  lemma OtherPeriodAnswered(q: Question, m: Context, model: Model)
    requires Asked(q) && !q.purchasePrice && !q.margin && !(AsksSales(q) && q.week)
    requires q.otherPeriod && (AsksSales(q) || q.credit)
    ensures Route(q, m, model) == Standard(
              "I only have figures for today," + " yesterday and the last " + "7" + " days. The Sales page lists " +
              "each of the last " + "30" + " days.")
  {
    OtherPeriodText();
  }

  lemma CreditAnswered(q: Question, m: Context, model: Model)
    requires PastPeriods(q) && q.credit
    ensures Route(q, m, model) == Standard(
              "Total credit outstanding is " + "PKR " + CommasText(m.credit, 2) + " across " +
              Itoa(m.creditCustomers) + " customer(s).")
  {
    CreditText(m);
  }

  lemma ScoreAnswered(q: Question, m: Context, model: Model)
    requires PastPeriods(q) && !q.credit && q.score && q.product.None?
    ensures m.scoreDate != "" ==>
            Route(q, m, model) == Standard(
              "The FuelMind Score for " + m.scoreDate + " is " + Itoa(m.score) + "/" + "100" + " with " +
              Itoa(|m.issues|) + " open issue(s).")
    ensures m.scoreDate == "" ==>
            Route(q, m, model) == Standard("There is no FuelMind " + "Score yet.")
  {
    if m.scoreDate != "" { ScoreText(m); }
    NoScoreText();
  }

  lemma YesterdayAnswered(q: Question, m: Context, model: Model)
    requires PastAll(q) && q.yesterday
    ensures q.product.None? ==>
            Route(q, m, model) == Standard("Yesterday's revenue was PKR " + CommasText(m.revenueYesterday, 2) + ".")
    ensures q.product.Some? ==>
            Route(q, m, model) == Standard(
              "I have yesterday's total only," + " not by product: PKR " + CommasText(m.revenueYesterday, 2) + ".")
  {
    YesterdayText(m);
    YesterdayProductText(m);
  }

  /** The product's first row among today's, or none. */
  predicate IsFirstRow(ps: seq<Product>, code: string, i: nat) {
    i < |ps| && ps[i].code == code && forall j :: 0 <= j < i ==> ps[j].code != code
  }

  lemma {:induction false} FirstOfIs(ps: seq<Product>, code: string, i: nat)
    requires IsFirstRow(ps, code, i)
    ensures FirstOf(ps, code) == Some(ps[i])
  {
    if i > 0 {
      assert ps[0].code != code;
      FirstOfIs(ps[1..], code, i - 1);
    }
  }

  lemma {:induction false} FirstOfNone(ps: seq<Product>, code: string)
    requires forall i :: 0 <= i < |ps| ==> ps[i].code != code
    ensures FirstOf(ps, code) == None
  {
    if ps != [] { FirstOfNone(ps[1..], code); }
  }

  /** A product's own figures, of its first row in the context. */
  lemma ProductAnswered(q: Question, m: Context, model: Model, i: nat)
    requires PastAll(q) && !q.yesterday && q.product.Some? && IsFirstRow(m.products, q.product.value, i)
    ensures Route(q, m, model) == Standard(
              "Today " + ProductName(q.product.value) + ": " + CommasText(m.products[i].volume, 2) +
              " L sold for PKR " + CommasText(m.products[i].money, 2) + ".")
  {
    FirstOfIs(m.products, q.product.value, i);
    ProductSoldText(q.product.value, m.products[i].volume, m.products[i].money);
  }

  lemma UnsoldProductAnswered(q: Question, m: Context, model: Model)
    requires PastAll(q) && !q.yesterday && q.product.Some?
    requires forall i :: 0 <= i < |m.products| ==> m.products[i].code != q.product.value
    ensures Route(q, m, model) ==
            Standard("No " + ProductName(q.product.value) + " sales have been " + "recorded today.")
  {
    FirstOfNone(m.products, q.product.value);
    ProductNotSoldText(q.product.value);
  }

  /** With no product and no other period, sales are answered with today's figures. */
  lemma TodayAnswered(q: Question, m: Context, model: Model)
    requires PastAll(q) && !q.yesterday && q.product.None?
    ensures Route(q, m, model) == Standard(
              "Today's revenue is PKR " + CommasText(m.revenueToday, 2) + " from " + Itoa(m.transactionsToday) +
              " sale(s), " + CommasText(m.volumeToday, 2) + " L sold.")
  {
    TodaysSalesText(m);
  }

  /** A fixed answer is given exactly to a plain question about prices, margins, sales, credit or the score. */
  lemma FixedAnswerIff(q: Question, m: Context, model: Model)
    ensures Route(q, m, model).Standard? <==>
            Asked(q) && (q.purchasePrice || q.margin || AsksSales(q) || q.credit || q.score)
  {
  }

  /** What every other question gets. */
  lemma OtherwiseAnswered(q: Question, m: Context, model: Model)
    requires !Route(q, m, model).Standard?
    ensures Route(q, m, model) ==
            if q.blank then Noop
            else if q.help then Help
            else if q.unanswerable then NoFeed
            else if model.NotConnected? then Canned
            else if model.Unreachable? then LlmFailed
            else if Ungrounded(model.text, m) == [] then Llm(model.text)
            else LlmRejected
  {
  }

  // ----- figures the question does not name -----

  /** The contexts agree on the figures that answer the question. */
  predicate SameFigures(q: Question, m: Context, n: Context) {
    if q.purchasePrice then
      m.latestCost == n.latestCost && m.latestCostProduct == n.latestCostProduct && m.latestCostFrom == n.latestCostFrom
    else if q.margin && q.week then
      m.haveCost7d == n.haveCost7d && m.costedDays7d == n.costedDays7d && m.revenue7dCosted == n.revenue7dCosted &&
      m.cost7d == n.cost7d && m.margin7d == n.margin7d
    else if q.margin then
      m.haveCostToday == n.haveCostToday && m.revenueToday == n.revenueToday && m.costToday == n.costToday &&
      m.marginToday == n.marginToday && m.marginPctToday == n.marginPctToday
    else if AsksSales(q) && q.week then m.revenue7d == n.revenue7d && m.volume7d == n.volume7d
    else if q.otherPeriod && (AsksSales(q) || q.credit) then true
    else if q.credit then m.credit == n.credit && m.creditCustomers == n.creditCustomers
    else if q.score && q.product.None? then
      m.scoreDate == n.scoreDate && m.score == n.score && |m.issues| == |n.issues|
    else if q.yesterday then m.revenueYesterday == n.revenueYesterday
    else if q.product.Some? then m.products == n.products
    else
      m.revenueToday == n.revenueToday && m.transactionsToday == n.transactionsToday && m.volumeToday == n.volumeToday
  }

  /** A fixed answer depends on the figures it names and on nothing else in the context. */
  lemma OnlyNamedFiguresMatter(q: Question, m: Context, n: Context, model: Model)
    requires Route(q, m, model).Standard? && SameFigures(q, m, n)
    ensures Route(q, n, model) == Route(q, m, model)
  {
    if q.purchasePrice || q.margin || (AsksSales(q) && q.week) || (q.otherPeriod && (AsksSales(q) || q.credit)) {
      SameForPeriods(q, m, n, model);
    } else if q.credit {
      CreditAnswered(q, m, model);
      CreditAnswered(q, n, model);
    } else if q.score && q.product.None? {
      ScoreAnswered(q, m, model);
      ScoreAnswered(q, n, model);
    } else {
      SameForSales(q, m, n, model);
    }
  }

  lemma SameForPeriods(q: Question, m: Context, n: Context, model: Model)
    requires Asked(q) && SameFigures(q, m, n)
    requires q.purchasePrice || q.margin || (AsksSales(q) && q.week) || (q.otherPeriod && (AsksSales(q) || q.credit))
    ensures Route(q, n, model) == Route(q, m, model)
  {
    if q.purchasePrice {
      PriceAnswered(q, m, model);
      PriceAnswered(q, n, model);
    } else if q.margin && q.week {
      WeekMarginAnswered(q, m, model);
      WeekMarginAnswered(q, n, model);
    } else if q.margin {
      MarginAnswered(q, m, model);
      MarginAnswered(q, n, model);
    } else if AsksSales(q) && q.week {
      WeekSalesAnswered(q, m, model);
      WeekSalesAnswered(q, n, model);
    } else {
      OtherPeriodAnswered(q, m, model);
      OtherPeriodAnswered(q, n, model);
    }
  }

  lemma SameForSales(q: Question, m: Context, n: Context, model: Model)
    requires PastAll(q) && SameFigures(q, m, n)
    ensures Route(q, n, model) == Route(q, m, model)
  {
    if q.yesterday {
      YesterdayAnswered(q, m, model);
      YesterdayAnswered(q, n, model);
    } else if q.product.None? {
      TodayAnswered(q, m, model);
      TodayAnswered(q, n, model);
    }
  }

  // ----- a printed amount reads back as the rounded figure -----

  lemma MagnitudeReadsBack(r: Number)
    requires !r.negative
    ensures StripCommas(Render(Grouped(WholeText(r)), Pad(r.units, r.scale))) == Printed(r)
  {
    var whole, frac := WholeText(r), Pad(r.units, r.scale);
    GroupedStrips(whole);
    StripRender(Grouped(whole), frac);
    assert "" + Render(whole, frac) == Render(whole, frac);
  }

  lemma StripMinus(text: string)
    ensures StripCommas("-" + text) == "-" + StripCommas(text)
  {
    StripConcat("-", text);
    assert "-"[..0] == "";
  }

  /** Without its separators, an amount is the printed rounding of the figure, behind a minus sign below zero. */
  lemma AmountReadsBack(v: Number, places: nat)
    ensures var printed := Printed(Rounded(Magnitude(v), places, ToEven));
            StripCommas(CommasText(v, places)) == if v.negative && v.units > 0 then "-" + printed else printed
  {
    var r := Rounded(Magnitude(v), places, ToEven);
    var text := Render(Grouped(WholeText(r)), Pad(r.units, r.scale));
    MagnitudeReadsBack(r);
    StripMinus(text);
    assert "" + text == text;
  }
}
