/**
  The data mart: daily sales, fuel margin and credit rows derived from the transactions, refreshed
  from a day onwards or over the whole history. Costs and margins are in thousandths of a paisa.
 */
module Mart {
  import opened Common
  import opened Normalization
  import opened Prices
  import opened Credit
  import opened Ledger

  datatype Key = Key(day: int, product: string)

  /** One account on one day. */
  datatype Account = Account(day: int, phone: string)

  datatype DailyRow = DailyRow(milliliters: int, revenue: int, count: nat)

  datatype MarginRow = MarginRow(revenue: int, cost: int, margin: int)

  /** What the mart is derived from. */
  datatype Source = Source(sales: seq<Fields>, prices: seq<Price>, payments: seq<Payment>, unreadable: seq<int>)

  /** The derived tables. */
  datatype Tables = Tables(daily: map<Key, DailyRow>, margin: map<Key, MarginRow>, credit: map<Account, CreditRow>)

  // ----- what each SELECT denotes -----

  function KeyOf(f: Fields): Key { Key(f.time.day, f.product) }

  function Groups(sales: seq<Fields>): set<Key> { set i | 0 <= i < |sales| :: KeyOf(sales[i]) }

  /** Volume, revenue and count of one day and product. */
  function Aggregate(sales: seq<Fields>, k: Key): DailyRow {
    if sales == [] then DailyRow(0, 0, 0)
    else
      var rest, last := Aggregate(sales[..|sales| - 1], k), sales[|sales| - 1];
      if KeyOf(last) != k then rest
      else DailyRow(rest.milliliters + last.milliliters, rest.revenue + last.total, rest.count + 1)
  }

  function DailySales(sales: seq<Fields>, since: int, until: int): map<Key, DailyRow> {
    map k | k in Groups(sales) && since <= k.day <= until :: Aggregate(sales, k)
  }

  /** A day with no price on record has no cost and no margin. */
  function MarginOf(row: DailyRow, cost: Option<int>): MarginRow {
    if cost.None? then MarginRow(row.revenue, 0, 0)
    else MarginRow(row.revenue, cost.value * row.milliliters, 1000 * row.revenue - cost.value * row.milliliters)
  }

  function Margins(daily: map<Key, DailyRow>, prices: seq<Price>, since: int, until: int): map<Key, MarginRow> {
    map k | k in daily && since <= k.day <= until :: MarginOf(daily[k], CostOn(prices, k.product, k.day))
  }

  function Accounts(sales: seq<Fields>, day: int): set<Account> {
    set i | 0 <= i < |sales| && AccountSales(sales, sales[i].phone, day) != [] :: Account(day, sales[i].phone)
  }

  function AccountsOn(sales: seq<Fields>, days: set<int>): set<Account> {
    set d, a | d in days && a in Accounts(sales, d) :: a
  }

  /** An account's row; the default is never used for an account with a credit sale. */
  function CreditAt(src: Source, a: Account): CreditRow {
    var r := QueryRow(src.sales, src.payments, a.phone, a.day);
    if r.Some? then r.value else CreditRow(0, 0, 0)
  }

  function CreditRows(src: Source, days: set<int>): map<Account, CreditRow> {
    map a | a in AccountsOn(src.sales, days) :: CreditAt(src, a)
  }

  function SaleDays(sales: seq<Fields>): seq<int> {
    if sales == [] then [] else SaleDays(sales[..|sales| - 1]) + [sales[|sales| - 1].time.day]
  }

  function First(days: seq<int>): (d: Option<int>)
    ensures d.None? <==> days == []
    ensures d.Some? ==> d.value in days && forall e :: e in days ==> d.value <= e
  {
    if days == [] then None
    else
      var rest, last := First(days[..|days| - 1]), days[|days| - 1];
      assert days == days[..|days| - 1] + [last];
      if rest.Some? && rest.value < last then rest else Some(last)
  }

  function Later(a: int, b: int): int { if a < b then b else a }

  function Sooner(a: int, b: int): int { if a < b then a else b }

  function DayRange(from: int, to: int): (days: set<int>)
    ensures forall d :: d in days <==> from <= d <= to
    decreases if from > to then 0 else to - from + 1
  {
    if from > to then {} else {from} + DayRange(from + 1, to)
  }

  /** Days with sales, days with unreadable rows, and every past day since the first sale. */
  function DaysToScore(src: Source, since: int, until: int, today: int): set<int> {
    var first := First(SaleDays(src.sales));
    (set d | d in SaleDays(src.sales) && since <= d <= until) +
    (set d | d in src.unreadable && since <= d <= until) +
    (if first.None? then {} else DayRange(Later(since, first.value), Sooner(today - 1, until)))
  }

  // ----- refreshing -----

  /** Every row in [since, today]; rows that no longer have a source stay. */
  function MaterializeSince(m: Tables, src: Source, since: int, today: int): Tables {
    var from := Sooner(since, today);
    var daily := m.daily + DailySales(src.sales, from, today);
    var margin := m.margin + Margins(daily, src.prices, from, today);
    Tables(daily, margin, m.credit + CreditRows(src, DaysToScore(src, from, today, today)))
  }

  function Earliest(src: Source): Option<int> { First(SaleDays(src.sales) + src.unreadable) }

  function MaterializeAll(m: Tables, src: Source, today: int): Tables {
    var e := Earliest(src);
    MaterializeSince(m, src, if e.None? then today else e.value, today)
  }

  // ----- what a refresh writes, told from the books -----

  /** Volume, revenue and number of the group's sales. */
  predicate IsDaily(sales: seq<Fields>, k: Key, r: DailyRow) {
    r.milliliters == Sum(Volumes(sales, k.product, k.day)) && r.revenue == Sum(Takings(sales, k.product, k.day)) &&
    r.count == |GroupSales(sales, k.product, k.day)|
  }

  /** Without a price, no cost and no margin; otherwise the latest price times the volume, and what it leaves. */
  ghost predicate IsMargin(prices: seq<Price>, k: Key, sold: DailyRow, r: MarginRow) {
    r.revenue == sold.revenue &&
    if Unpriced(prices, k.product, k.day) then r.cost == 0 == r.margin
    else
      exists p ::
        LatestPrice(prices, k.product, k.day, p) &&
        r.cost == p.cost * sold.milliliters && r.margin == 1000 * sold.revenue - p.cost * sold.milliliters
  }

  /** A row that is left alone. */
  predicate Untouched<K, R(==)>(before: map<K, R>, after: map<K, R>, k: K) {
    (k in after <==> k in before) && (k in after ==> after[k] == before[k])
  }

  predicate DailyRowRefreshed(sales: seq<Fields>, from: int, to: int, before: map<Key, DailyRow>,
                              after: map<Key, DailyRow>, k: Key) {
    if from <= k.day <= to && GroupSales(sales, k.product, k.day) != {} then k in after && IsDaily(sales, k, after[k])
    else Untouched(before, after, k)
  }

  /** The groups sold in [from, to] have their sums; every other row is as it was. */
  ghost predicate DailyRefreshed(sales: seq<Fields>, from: int, to: int, before: map<Key, DailyRow>,
                                 after: map<Key, DailyRow>) {
    forall k :: DailyRowRefreshed(sales, from, to, before, after, k)
  }

  ghost predicate MarginRowRefreshed(daily: map<Key, DailyRow>, prices: seq<Price>, from: int, to: int,
                                     before: map<Key, MarginRow>, after: map<Key, MarginRow>, k: Key) {
    if from <= k.day <= to && k in daily then k in after && IsMargin(prices, k, daily[k], after[k])
    else Untouched(before, after, k)
  }

  /** The rows of `daily` in [from, to] have their margins; every other row is as it was. */
  ghost predicate MarginsRefreshed(daily: map<Key, DailyRow>, prices: seq<Price>, from: int, to: int,
                                   before: map<Key, MarginRow>, after: map<Key, MarginRow>) {
    forall k :: MarginRowRefreshed(daily, prices, from, to, before, after, k)
  }

  predicate CreditRowRefreshed(src: Source, days: set<int>, before: map<Account, CreditRow>,
                               after: map<Account, CreditRow>, a: Account) {
    if a.day in days && BoughtOnCredit(src.sales, a.phone, a.day) then
      a in after && IsBalance(src.sales, src.payments, a.phone, a.day, after[a])
    else Untouched(before, after, a)
  }

  /** On the given days every customer who has bought on credit has their balance; every other row is as it was. */
  ghost predicate CreditRefreshed(src: Source, days: set<int>, before: map<Account, CreditRow>,
                                  after: map<Account, CreditRow>) {
    forall a :: CreditRowRefreshed(src, days, before, after, a)
  }

  lemma GroupStep(front: seq<Fields>, last: Fields, k: Key)
    ensures var (p, d, own) := (k.product, k.day, KeyOf(last) == k);
            Sum(Volumes(front + [last], p, d)) == Sum(Volumes(front, p, d)) + (if own then last.milliliters else 0) &&
            Sum(Takings(front + [last], p, d)) == Sum(Takings(front, p, d)) + (if own then last.total else 0) &&
            GroupSales(front + [last], p, d) == GroupSales(front, p, d) + (if own then {|front|} else {})
  {
    var (p, d, own) := (k.product, k.day, KeyOf(last) == k);
    var sales := front + [last];
    assert own == InGroup(last, p, d);
    assert Volumes(sales, p, d) == Volumes(front, p, d) + [if own then last.milliliters else 0];
    assert Takings(sales, p, d) == Takings(front, p, d) + [if own then last.total else 0];
    SumStep(Volumes(front, p, d), if own then last.milliliters else 0);
    SumStep(Takings(front, p, d), if own then last.total else 0);
  }

  lemma {:induction false} AggregateIsDaily(sales: seq<Fields>, k: Key)
    ensures IsDaily(sales, k, Aggregate(sales, k))
  {
    if sales != [] {
      var front, last := sales[..|sales| - 1], sales[|sales| - 1];
      assert sales == front + [last];
      AggregateIsDaily(front, k);
      GroupStep(front, last, k);
    }
  }

  lemma GroupIff(sales: seq<Fields>, k: Key)
    ensures k in Groups(sales) <==> GroupSales(sales, k.product, k.day) != {}
  {
    if k in Groups(sales) {
      var i :| 0 <= i < |sales| && KeyOf(sales[i]) == k;
      assert i in GroupSales(sales, k.product, k.day);
    }
    if i :| i in GroupSales(sales, k.product, k.day) { assert KeyOf(sales[i]) == k; }
  }

  lemma DailySalesRefresh(sales: seq<Fields>, from: int, to: int, before: map<Key, DailyRow>)
    ensures DailyRefreshed(sales, from, to, before, before + DailySales(sales, from, to))
  {
    var after := before + DailySales(sales, from, to);
    forall k ensures DailyRowRefreshed(sales, from, to, before, after, k) {
      GroupIff(sales, k);
      AggregateIsDaily(sales, k);
    }
  }

  lemma MarginOfIsMargin(prices: seq<Price>, k: Key, row: DailyRow)
    ensures IsMargin(prices, k, row, MarginOf(row, CostOn(prices, k.product, k.day)))
  {
    CostIsLatestPrice(prices, k.product, k.day);
    var cost := CostOn(prices, k.product, k.day);
    if cost.Some? {
      var p :| LatestPrice(prices, k.product, k.day, p) && cost == Some(p.cost);
    }
  }

  lemma MarginsRefresh(daily: map<Key, DailyRow>, prices: seq<Price>, from: int, to: int, before: map<Key, MarginRow>)
    ensures MarginsRefreshed(daily, prices, from, to, before, before + Margins(daily, prices, from, to))
  {
    var after := before + Margins(daily, prices, from, to);
    forall k ensures MarginRowRefreshed(daily, prices, from, to, before, after, k) {
      if k in daily { MarginOfIsMargin(prices, k, daily[k]); }
    }
  }

  lemma AccountIff(sales: seq<Fields>, a: Account)
    ensures a in Accounts(sales, a.day) <==> BoughtOnCredit(sales, a.phone, a.day)
  {
    SalesCounted(sales, a.phone, a.day);
    if i :| 0 <= i < |sales| && Owed(sales[i], a.phone, a.day) { assert sales[i].phone == a.phone; }
  }

  lemma CreditRowsRefresh(src: Source, days: set<int>, before: map<Account, CreditRow>)
    ensures CreditRefreshed(src, days, before, before + CreditRows(src, days))
  {
    var after := before + CreditRows(src, days);
    forall a ensures CreditRowRefreshed(src, days, before, after, a) {
      AccountIff(src.sales, a);
      assert a in AccountsOn(src.sales, days) <==> a.day in days && a in Accounts(src.sales, a.day);
      QueryRowIsBalance(src.sales, src.payments, a.phone, a.day);
    }
  }

  /** A day with sales, or with rows that could not be read. */
  predicate HasData(src: Source, d: int) {
    d in src.unreadable || exists i :: 0 <= i < |src.sales| && src.sales[i].time.day == d
  }

  /** There were sales on the day or before it. */
  predicate Open(src: Source, d: int) { exists i :: 0 <= i < |src.sales| && src.sales[i].time.day <= d }

  lemma {:induction false} SaleDaysHas(sales: seq<Fields>, d: int)
    ensures d in SaleDays(sales) <==> exists i :: 0 <= i < |sales| && sales[i].time.day == d
  {
    if sales != [] {
      var front := sales[..|sales| - 1];
      SaleDaysHas(front, d);
      if d in SaleDays(front) {
        var i :| 0 <= i < |front| && front[i].time.day == d;
        assert sales[i].time.day == d;
      }
      if exists i :: 0 <= i < |sales| && sales[i].time.day == d {
        var i :| 0 <= i < |sales| && sales[i].time.day == d;
        if i < |front| { assert front[i].time.day == d; }
      }
    }
  }

  /** A day with data, or a past day that is not before the first sale. */
  predicate Scored(src: Source, today: int, d: int) {
    d <= today && (HasData(src, d) || (Open(src, d) && d < today))
  }

  /** A refresh scores exactly the days in its range that have data, or are past and not before the first sale. */
  lemma ScoredIff(src: Source, since: int, until: int, today: int, d: int)
    ensures d in DaysToScore(src, since, until, today) <==>
            since <= d <= until && (HasData(src, d) || (Open(src, d) && d < today))
  {
    SaleDaysHas(src.sales, d);
    var days := SaleDays(src.sales);
    var first := First(days);
    if first.Some? {
      SaleDaysHas(src.sales, first.value);
      var i :| 0 <= i < |src.sales| && src.sales[i].time.day == first.value;
    }
    if i :| 0 <= i < |src.sales| && src.sales[i].time.day <= d { SaleDaysHas(src.sales, src.sales[i].time.day); }
  }

  /** Up to `today` every sold group, and every customer on every scored day, has its right row. */
  ghost predicate Rebuilt(src: Source, today: int, t: Tables) {
    (forall k: Key :: k.day <= today && GroupSales(src.sales, k.product, k.day) != {} ==> GroupRebuilt(src, t, k)) &&
    (forall a: Account :: Scored(src, today, a.day) && BoughtOnCredit(src.sales, a.phone, a.day) ==>
       AccountRebuilt(src, t, a))
  }

  ghost predicate GroupRebuilt(src: Source, t: Tables, k: Key) {
    k in t.daily && IsDaily(src.sales, k, t.daily[k]) && k in t.margin &&
    IsMargin(src.prices, k, t.daily[k], t.margin[k])
  }

  predicate AccountRebuilt(src: Source, t: Tables, a: Account) {
    a in t.credit && IsBalance(src.sales, src.payments, a.phone, a.day, t.credit[a])
  }

  lemma NothingBeforeEarliest(src: Source, d: int)
    ensures HasData(src, d) || Open(src, d) ==> Earliest(src).Some? && Earliest(src).value <= d
  {
    var days := SaleDays(src.sales) + src.unreadable;
    if d in src.unreadable { assert d in days; }
    if i :| 0 <= i < |src.sales| && src.sales[i].time.day <= d {
      SaleDaysHas(src.sales, src.sales[i].time.day);
      assert src.sales[i].time.day in days;
    }
  }

  lemma RebuildTellsAll(before: Tables, src: Source, today: int)
    ensures Rebuilt(src, today, MaterializeAll(before, src, today))
  {
    var t := MaterializeAll(before, src, today);
    var e := Earliest(src);
    var from := Sooner(if e.None? then today else e.value, today);
    DailySalesRefresh(src.sales, from, today, before.daily);
    MarginsRefresh(t.daily, src.prices, from, today, before.margin);
    CreditRowsRefresh(src, DaysToScore(src, from, today, today), before.credit);
    forall k: Key | k.day <= today && GroupSales(src.sales, k.product, k.day) != {} ensures GroupRebuilt(src, t, k) {
      var i :| i in GroupSales(src.sales, k.product, k.day);
      NothingBeforeEarliest(src, k.day);
      assert DailyRowRefreshed(src.sales, from, today, before.daily, t.daily, k);
      assert MarginRowRefreshed(t.daily, src.prices, from, today, before.margin, t.margin, k);
    }
    forall a: Account | Scored(src, today, a.day) && BoughtOnCredit(src.sales, a.phone, a.day)
      ensures AccountRebuilt(src, t, a)
    {
      NothingBeforeEarliest(src, a.day);
      ScoredIff(src, from, today, today, a.day);
      assert CreditRowRefreshed(src, DaysToScore(src, from, today, today), before.credit, t.credit, a);
    }
  }

  class DataMart {
    var daily: map<Key, DailyRow>
    var margin: map<Key, MarginRow>
    var credit: map<Account, CreditRow>

    function View(): Tables reads this { Tables(daily, margin, credit) }

    /** Lists the days that get a score, each once. */
    method ListDays(src: Source, since: int, until: int, today: int) returns (days: seq<int>)
      ensures (set d | d in days) == DaysToScore(src, since, until, today)
      ensures forall i, j :: 0 <= i < j < |days| ==> days[i] != days[j]
    {
      days := [];
      var left := DaysToScore(src, since, until, today);
      while left != {}
        invariant (set d | d in days) + left == DaysToScore(src, since, until, today)
        invariant forall i, j :: 0 <= i < j < |days| ==> days[i] != days[j]
        invariant forall d :: d in days ==> d !in left
        decreases left
      {
        var d :| d in left;
        days, left := days + [d], left - {d};
      }
    }

    method RefreshCredit(src: Source, days: seq<int>)
      modifies this`credit
      ensures credit == old(credit) + CreditRows(src, set d | d in days)
      ensures CreditRefreshed(src, set d | d in days, old(credit), credit)
    {
      ghost var done: set<int> := {};
      for i := 0 to |days|
        invariant done == set d | d in days[..i]
        invariant credit == old(credit) + CreditRows(src, done)
      {
        OneMoreDay(src, done, days[i]);
        MergeAssociative(old(credit), CreditRows(src, done), CreditRows(src, {days[i]}));
        credit := credit + CreditRows(src, {days[i]});
        done := done + {days[i]};
        assert days[..i + 1] == days[..i] + [days[i]];
      }
      assert days[..|days|] == days;
      CreditRowsRefresh(src, done, old(credit));
    }

    method Refresh(src: Source, since: int, today: int)
      modifies this
      ensures View() == MaterializeSince(old(View()), src, since, today)
      ensures var from := if since > today then today else since;
              DailyRefreshed(src.sales, from, today, old(daily), daily) &&
              MarginsRefreshed(daily, src.prices, from, today, old(margin), margin) &&
              CreditRefreshed(src, DaysToScore(src, from, today, today), old(credit), credit)
    {
      var from := if since > today then today else since;
      DailySalesRefresh(src.sales, from, today, daily);
      MarginsRefresh(daily + DailySales(src.sales, from, today), src.prices, from, today, margin);
      daily := daily + DailySales(src.sales, from, today);
      margin := margin + Margins(daily, src.prices, from, today);
      var days := ListDays(src, from, today, today);
      RefreshCredit(src, days);
    }

    method RefreshAll(src: Source, today: int)
      modifies this
      ensures View() == MaterializeAll(old(View()), src, today) && Rebuilt(src, today, View())
    {
      RebuildTellsAll(View(), src, today);
      var e := Earliest(src);
      if e.None? { Refresh(src, today, today); } else { Refresh(src, e.value, today); }
    }
  }

  lemma MergeAssociative<K, R>(a: map<K, R>, b: map<K, R>, c: map<K, R>)
    ensures (a + b) + c == a + (b + c)
  {
  }

  lemma OneMoreDay(src: Source, done: set<int>, d: int)
    ensures CreditRows(src, done + {d}) == CreditRows(src, done) + CreditRows(src, {d})
  {
    assert AccountsOn(src.sales, done + {d}) == AccountsOn(src.sales, done) + AccountsOn(src.sales, {d});
  }
}
