/**
  The figures handed to the question answerer, accumulated over the last week's rows.
  Costs and margins are in thousandths of a paisa, revenue in paisa.
 */
module Ask {
  import Common
  import opened Mart
  import opened Ledger

  /** One row of the margin table as it is read back. */
  datatype Row = Row(day: int, margin: MarginRow)

  /** A row counts as costed when some cost is recorded against it. */
  predicate Costed(r: Row) { r.margin.cost > 0 }

  datatype Figures = Figures(
    margin7d: int, cost7d: int, revenue7dCosted: int, costedDays: nat, haveCost7d: bool,
    marginToday: int, costToday: int, haveCostToday: bool)

  /** The rows were written by the margin refresh. */
  predicate FromRefresh(rows: seq<Row>) {
    forall i :: 0 <= i < |rows| ==> Costed(rows[i]) ==>
      rows[i].margin.margin + rows[i].margin.cost == 1000 * rows[i].margin.revenue
  }

  function Revenue(rows: seq<Row>): int {
    if rows == [] then 0 else Revenue(rows[..|rows| - 1]) + rows[|rows| - 1].margin.revenue
  }

  function Margin(rows: seq<Row>): int {
    if rows == [] then 0 else Margin(rows[..|rows| - 1]) + rows[|rows| - 1].margin.margin
  }

  function Cost(rows: seq<Row>): int {
    if rows == [] then 0 else Cost(rows[..|rows| - 1]) + rows[|rows| - 1].margin.cost
  }

  function CostedRows(rows: seq<Row>): seq<Row> {
    if rows == [] then []
    else CostedRows(rows[..|rows| - 1]) + (if Costed(rows[|rows| - 1]) then [rows[|rows| - 1]] else [])
  }

  function OnDay(rows: seq<Row>, day: int): seq<Row> {
    if rows == [] then []
    else OnDay(rows[..|rows| - 1], day) + (if rows[|rows| - 1].day == day then [rows[|rows| - 1]] else [])
  }

  /** The days that have a row. */
  function Days(rows: seq<Row>): set<int> {
    if rows == [] then {} else Days(rows[..|rows| - 1]) + {rows[|rows| - 1].day}
  }

  lemma {:induction false} DaysHas(rows: seq<Row>, d: int)
    ensures d in Days(rows) <==> exists i :: 0 <= i < |rows| && rows[i].day == d
  {
    if rows != [] {
      var n := |rows| - 1;
      DaysHas(rows[..n], d);
      if i :| 0 <= i < |rows| && rows[i].day == d { assert i < n ==> rows[..n][i].day == d; }
      if d in Days(rows[..n]) {
        var i :| 0 <= i < n && rows[..n][i].day == d;
        assert rows[i].day == d;
      }
    }
  }

  /** Accumulates the costed rows; uncosted ones are passed over. */
  method Accumulate(rows: seq<Row>, today: int) returns (f: Figures)
    ensures f.revenue7dCosted == Revenue(CostedRows(rows))
    ensures f.margin7d == Margin(CostedRows(rows)) && f.cost7d == Cost(CostedRows(rows))
    ensures f.costedDays == |Days(CostedRows(rows))|
    ensures f.haveCost7d <==> CostedRows(rows) != []
    ensures f.marginToday == Margin(OnDay(CostedRows(rows), today))
    ensures f.costToday == Cost(OnDay(CostedRows(rows), today))
    ensures f.haveCostToday <==> today in Days(CostedRows(rows))
    ensures AddUp(f, rows, today)
  {
    var margin7d, cost7d, revenue, have7d := 0, 0, 0, false;
    var marginToday, costToday, haveToday := 0, 0, false;
    var costedDays: set<int> := {};
    ghost var done: seq<Row> := [];
    for i := 0 to |rows|
      invariant done == CostedRows(rows[..i])
      invariant margin7d == Margin(done) && cost7d == Cost(done) && revenue == Revenue(done)
      invariant marginToday == Margin(OnDay(done, today)) && costToday == Cost(OnDay(done, today))
      invariant costedDays == Days(done) && (have7d <==> done != []) && (haveToday <==> today in costedDays)
    {
      var row := rows[i];
      CostedStep(rows[..i], row);
      assert rows[..i + 1] == rows[..i] + [row];
      if Costed(row) {
        Appended(done, row, today);
        margin7d, cost7d := margin7d + row.margin.margin, cost7d + row.margin.cost;
        revenue := revenue + row.margin.revenue;
        have7d, costedDays := true, costedDays + {row.day};
        if row.day == today {
          marginToday, costToday := marginToday + row.margin.margin, costToday + row.margin.cost;
          haveToday := true;
        }
        done := done + [row];
      }
    }
    assert rows[..|rows|] == rows;
    f := Figures(margin7d, cost7d, revenue, |costedDays|, have7d, marginToday, costToday, haveToday);
    FiguresAddUp(f, rows, today);
  }

  lemma CostedStep(rows: seq<Row>, row: Row)
    ensures CostedRows(rows + [row]) == if Costed(row) then CostedRows(rows) + [row] else CostedRows(rows)
  {
    RevenueAppend(rows, row);
  }

  lemma CostedRowsAddUp(rows: seq<Row>, today: int)
    requires FromRefresh(rows)
    ensures var costed := CostedRows(rows);
            Margin(costed) + Cost(costed) == 1000 * Revenue(costed) &&
            Margin(OnDay(costed, today)) + Cost(OnDay(costed, today)) == 1000 * Revenue(OnDay(costed, today))
  {
    CostedAddUp(rows);
    RowsAddUp(CostedRows(rows));
    OnDayAddUp(CostedRows(rows), today);
    RowsAddUp(OnDay(CostedRows(rows), today));
  }

  /** Margin and cost make up the costed revenue, over the week and over today, if the refresh wrote the rows. */
  predicate AddUp(f: Figures, rows: seq<Row>, today: int) {
    FromRefresh(rows) ==>
      f.margin7d + f.cost7d == 1000 * f.revenue7dCosted &&
      f.marginToday + f.costToday == 1000 * Revenue(OnDay(CostedRows(rows), today))
  }

  lemma FiguresAddUp(f: Figures, rows: seq<Row>, today: int)
    requires var costed := CostedRows(rows);
             f.margin7d == Margin(costed) && f.cost7d == Cost(costed) && f.revenue7dCosted == Revenue(costed) &&
             f.marginToday == Margin(OnDay(costed, today)) && f.costToday == Cost(OnDay(costed, today))
    ensures AddUp(f, rows, today)
  {
    if FromRefresh(rows) { CostedRowsAddUp(rows, today); }
  }

  predicate AddsUp(r: Row) { r.margin.margin + r.margin.cost == 1000 * r.margin.revenue }

  predicate AllAddUp(rows: seq<Row>) { forall i :: 0 <= i < |rows| ==> AddsUp(rows[i]) }

  lemma {:induction false} CostedAddUp(rows: seq<Row>)
    requires FromRefresh(rows)
    ensures AllAddUp(CostedRows(rows))
  {
    if rows != [] { CostedAddUp(rows[..|rows| - 1]); }
  }

  lemma {:induction false} OnDayAddUp(rows: seq<Row>, day: int)
    requires AllAddUp(rows)
    ensures AllAddUp(OnDay(rows, day))
  {
    if rows != [] { OnDayAddUp(rows[..|rows| - 1], day); }
  }

  lemma {:induction false} RowsAddUp(rows: seq<Row>)
    requires AllAddUp(rows)
    ensures Margin(rows) + Cost(rows) == 1000 * Revenue(rows)
  {
    if rows != [] {
      RowsAddUp(rows[..|rows| - 1]);
      assert AddsUp(rows[|rows| - 1]);
    }
  }

  // ----- the week's sales and what customers owe -----

  /** One row of the daily sales table as it is read back. */
  datatype Sold = Sold(day: int, product: string, sale: DailyRow)

  datatype ProductRow = ProductRow(product: string, milliliters: int, revenue: int)

  function Litres(week: seq<Sold>): int { Sum(seq(|week|, i requires 0 <= i < |week| => week[i].sale.milliliters)) }

  function Takings(week: seq<Sold>): int { Sum(seq(|week|, i requires 0 <= i < |week| => week[i].sale.revenue)) }

  function SoldOn(week: seq<Sold>, day: int): seq<ProductRow> {
    if week == [] then []
    else
      var last := week[|week| - 1];
      SoldOn(week[..|week| - 1], day) +
        if last.day == day then [ProductRow(last.product, last.sale.milliliters, last.sale.revenue)] else []
  }

  /** The week's volume and revenue, and today's products in table order. */
  method AccumulateWeek(week: seq<Sold>, today: int)
    returns (volume7d: int, revenue7d: int, products: seq<ProductRow>)
    ensures volume7d == Litres(week) && revenue7d == Takings(week) && products == SoldOn(week, today)
  {
    volume7d, revenue7d, products := 0, 0, [];
    for i := 0 to |week|
      invariant volume7d == Litres(week[..i]) && revenue7d == Takings(week[..i]) && products == SoldOn(week[..i], today)
    {
      var row := week[i];
      WeekStep(week[..i], row, today);
      assert week[..i + 1] == week[..i] + [row];
      volume7d, revenue7d := volume7d + row.sale.milliliters, revenue7d + row.sale.revenue;
      if row.day == today {
        products := products + [ProductRow(row.product, row.sale.milliliters, row.sale.revenue)];
      }
    }
    assert week[..|week|] == week;
  }

  lemma WeekStep(week: seq<Sold>, row: Sold, today: int)
    ensures Litres(week + [row]) == Litres(week) + row.sale.milliliters
    ensures Takings(week + [row]) == Takings(week) + row.sale.revenue
    ensures SoldOn(week + [row], today) ==
            SoldOn(week, today) +
            if row.day == today then [ProductRow(row.product, row.sale.milliliters, row.sale.revenue)] else []
  {
    var longer := week + [row];
    assert longer[..|week|] == week;
    var volumes := seq(|week|, i requires 0 <= i < |week| => week[i].sale.milliliters);
    var revenues := seq(|week|, i requires 0 <= i < |week| => week[i].sale.revenue);
    assert seq(|longer|, i requires 0 <= i < |longer| => longer[i].sale.milliliters) ==
           volumes + [row.sale.milliliters];
    assert seq(|longer|, i requires 0 <= i < |longer| => longer[i].sale.revenue) == revenues + [row.sale.revenue];
    SumStep(volumes, row.sale.milliliters);
    SumStep(revenues, row.sale.revenue);
  }

  /** Today's products are the rows of the day: each such row is listed, with its own figures, and nothing else. */
  lemma {:induction false} SoldOnIs(week: seq<Sold>, day: int, p: ProductRow)
    ensures p in SoldOn(week, day) <==>
            exists i :: 0 <= i < |week| && week[i].day == day && week[i].product == p.product &&
                        week[i].sale.milliliters == p.milliliters && week[i].sale.revenue == p.revenue
  {
    if week != [] {
      var n := |week| - 1;
      SoldOnIs(week[..n], day, p);
      if i :| 0 <= i < |week| && week[i].day == day && week[i].product == p.product &&
              week[i].sale.milliliters == p.milliliters && week[i].sale.revenue == p.revenue {
        if i < n { assert week[..n][i] == week[i]; }
      }
      if p in SoldOn(week[..n], day) {
        var i :| 0 <= i < n && week[..n][i].day == day && week[..n][i].product == p.product &&
                 week[..n][i].sale.milliliters == p.milliliters && week[..n][i].sale.revenue == p.revenue;
        assert week[i] == week[..n][i];
      }
    }
  }

  /** What is owed, and by how many: only balances above zero count. */
  method AccumulateCredit(balances: seq<int>) returns (outstanding: int, customers: nat)
    ensures outstanding == Sum(Positive(balances)) && customers == |Debtors(balances)|
    ensures outstanding >= customers && (outstanding == 0 <==> customers == 0)
  {
    outstanding, customers := 0, 0;
    for i := 0 to |balances|
      invariant outstanding == Sum(Positive(balances[..i])) && customers == |Debtors(balances[..i])|
      invariant outstanding >= customers && (outstanding == 0 <==> customers == 0)
    {
      BalanceStep(balances[..i], balances[i]);
      assert balances[..i + 1] == balances[..i] + [balances[i]];
      if balances[i] > 0 { outstanding, customers := outstanding + balances[i], customers + 1; }
    }
    assert balances[..|balances|] == balances;
  }

  function Positive(balances: seq<int>): seq<int> {
    seq(|balances|, i requires 0 <= i < |balances| => if balances[i] > 0 then balances[i] else 0)
  }

  function Debtors(balances: seq<int>): set<nat> { set i: nat | i < |balances| && balances[i] > 0 }

  lemma BalanceStep(balances: seq<int>, b: int)
    ensures Sum(Positive(balances + [b])) == Sum(Positive(balances)) + if b > 0 then b else 0
    ensures Debtors(balances + [b]) == Debtors(balances) + if b > 0 then {|balances|} else {}
  {
    assert Positive(balances + [b]) == Positive(balances) + [if b > 0 then b else 0];
    SumStep(Positive(balances), if b > 0 then b else 0);
  }

  lemma RevenueAppend(rows: seq<Row>, r: Row)
    ensures Revenue(rows + [r]) == Revenue(rows) + r.margin.revenue
    ensures Margin(rows + [r]) == Margin(rows) + r.margin.margin && Cost(rows + [r]) == Cost(rows) + r.margin.cost
    ensures CostedRows(rows + [r]) == CostedRows(rows) + (if Costed(r) then [r] else [])
    ensures forall day :: OnDay(rows + [r], day) == OnDay(rows, day) + (if r.day == day then [r] else [])
  {
    assert (rows + [r])[..|rows|] == rows;
  }

  lemma Appended(rows: seq<Row>, r: Row, day: int)
    ensures Revenue(rows + [r]) == Revenue(rows) + r.margin.revenue
    ensures Margin(rows + [r]) == Margin(rows) + r.margin.margin && Cost(rows + [r]) == Cost(rows) + r.margin.cost
    ensures Days(rows + [r]) == Days(rows) + {r.day}
    ensures Revenue(OnDay(rows + [r], day)) ==
            Revenue(OnDay(rows, day)) + (if r.day == day then r.margin.revenue else 0)
    ensures Margin(OnDay(rows + [r], day)) ==
            Margin(OnDay(rows, day)) + (if r.day == day then r.margin.margin else 0)
    ensures Cost(OnDay(rows + [r], day)) == Cost(OnDay(rows, day)) + (if r.day == day then r.margin.cost else 0)
  {
    RevenueAppend(rows, r);
    var all := rows + [r];
    assert all[..|rows|] == rows;
    if r.day == day { RevenueAppend(OnDay(rows, day), r); } else { assert OnDay(all, day) == OnDay(rows, day); }
  }

  /**
    What the refresh writes: costed exactly when a positive price applies to a positive volume, and then
    margin and cost make up revenue.
   */
  lemma RefreshedRow(row: DailyRow, cost: Common.Option<int>, day: int)
    ensures var r := Row(day, MarginOf(row, cost));
            (Costed(r) <==> cost.Some? && cost.value * row.milliliters > 0) &&
            (cost.Some? ==> r.margin.margin + r.margin.cost == 1000 * r.margin.revenue) &&
            (cost.None? ==> r.margin.margin == 0)
  {
  }

  lemma {:induction false} CostedPlusUncosted(rows: seq<Row>)
    ensures Revenue(rows) == Revenue(CostedRows(rows)) + Revenue(UncostedRows(rows))
  {
    if rows != [] {
      var front, last := rows[..|rows| - 1], rows[|rows| - 1];
      CostedPlusUncosted(front);
      RevenueAppend(CostedRows(front), last);
      RevenueAppend(UncostedRows(front), last);
      assert if Costed(last) then UncostedRows(rows) == UncostedRows(front) else CostedRows(rows) == CostedRows(front);
    }
  }

  function UncostedRows(rows: seq<Row>): seq<Row> {
    if rows == [] then []
    else UncostedRows(rows[..|rows| - 1]) + (if Costed(rows[|rows| - 1]) then [] else [rows[|rows| - 1]])
  }

  lemma {:induction false} DayOfCosted(rows: seq<Row>, day: int)
    ensures OnDay(CostedRows(rows), day) == CostedRows(OnDay(rows, day))
  {
    if rows != [] {
      var front, last := rows[..|rows| - 1], rows[|rows| - 1];
      DayOfCosted(front, day);
      RevenueAppend(CostedRows(front), last);
      RevenueAppend(OnDay(front, day), last);
      if !Costed(last) { assert CostedRows(rows) == CostedRows(front); }
      if last.day != day { assert OnDay(rows, day) == OnDay(front, day); }
    }
  }

  /** Today's margin and cost make up today's whole revenue exactly when today's uncosted sales come to nothing. */
  lemma TodayAddsUpIff(rows: seq<Row>, today: int, marginToday: int, costToday: int)
    requires marginToday + costToday == 1000 * Revenue(OnDay(CostedRows(rows), today))
    ensures marginToday + costToday == 1000 * Revenue(OnDay(rows, today)) <==>
            Revenue(UncostedRows(OnDay(rows, today))) == 0
  {
    DayOfCosted(rows, today);
    CostedPlusUncosted(OnDay(rows, today));
  }
}
