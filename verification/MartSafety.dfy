/**
  When refreshing the mart from a day onwards is as good as rebuilding it, and what neither can repair.
 */
module MartSafety {
  import opened Normalization
  import opened Prices
  import opened Credit
  import opened Mart

  // ----- days and groups -----

  lemma GroupDay(sales: seq<Fields>, k: Key)
    requires k in Groups(sales)
    ensures k.day in SaleDays(sales)
  {
    var i :| 0 <= i < |sales| && KeyOf(sales[i]) == k;
    SaleDaysHas(sales, k.day);
  }

  /** First day a rebuild refreshes. */
  function RebuildFrom(src: Source, today: int): int {
    var e := Earliest(src);
    if e.None? then today else Sooner(e.value, today)
  }

  lemma NothingBeforeRebuild(src: Source, today: int, d: int)
    requires d in SaleDays(src.sales) || d in src.unreadable
    requires d <= today
    ensures RebuildFrom(src, today) <= d
  {
    assert d in SaleDays(src.sales) + src.unreadable;
  }

  lemma RebuildCoversGroups(src: Source, today: int, k: Key)
    ensures k in DailySales(src.sales, RebuildFrom(src, today), today) <==> k in Groups(src.sales) && k.day <= today
  {
    if k in Groups(src.sales) && k.day <= today {
      GroupDay(src.sales, k);
      NothingBeforeRebuild(src, today, k.day);
    }
  }

  // ----- merging -----

  predicate SubMap<K, R(==)>(part: map<K, R>, all: map<K, R>) {
    forall k :: k in part ==> k in all && part[k] == all[k]
  }

  /** What `all` has beyond `part` is already in `m`. */
  predicate AlreadyHas<K, R(==)>(m: map<K, R>, part: map<K, R>, all: map<K, R>) {
    forall k :: k in all && k !in part ==> k in m && m[k] == all[k]
  }

  lemma MergeEqualIff<K, R>(m: map<K, R>, part: map<K, R>, all: map<K, R>)
    requires SubMap(part, all)
    ensures m + part == m + all <==> AlreadyHas(m, part, all)
  {
    if m + part == m + all {
      forall k | k in all && k !in part ensures k in m && m[k] == all[k] {
        assert k in m + all && (m + all)[k] == all[k];
      }
    }
  }

  // ----- daily sales -----

  predicate DailyRight(daily: map<Key, DailyRow>, sales: seq<Fields>, k: Key) {
    k in daily && daily[k] == Aggregate(sales, k)
  }

  /** Every sold group before `until` has its right row. */
  predicate GroupsRightBefore(daily: map<Key, DailyRow>, sales: seq<Fields>, until: int) {
    forall k :: k in Groups(sales) && k.day < until ==> DailyRight(daily, sales, k)
  }

  /** No row in [from, to] without a sale. */
  predicate NoEmptied(daily: map<Key, DailyRow>, sales: seq<Fields>, from: int, to: int) {
    forall k :: k in daily && from <= k.day <= to ==> k in Groups(sales)
  }

  lemma DailyParts(src: Source, since: int, today: int)
    ensures var from := Sooner(since, today);
            var part, all := DailySales(src.sales, from, today), DailySales(src.sales, RebuildFrom(src, today), today);
            SubMap(part, all) &&
            forall k :: k in all && k !in part <==> k in Groups(src.sales) && k.day < from
  {
    var from := Sooner(since, today);
    var part, all := DailySales(src.sales, from, today), DailySales(src.sales, RebuildFrom(src, today), today);
    forall k ensures k in all <==> k in Groups(src.sales) && k.day <= today { RebuildCoversGroups(src, today, k); }
  }

  /**
    Refreshing daily sales from a day on equals rebuilding them exactly when every group sold before that
    day is already right.
   */
  lemma DailyRefreshIsRebuildIff(m: Tables, src: Source, since: int, today: int)
    ensures MaterializeSince(m, src, since, today).daily == MaterializeAll(m, src, today).daily <==>
              GroupsRightBefore(m.daily, src.sales, Sooner(since, today))
  {
    var from, e := Sooner(since, today), RebuildFrom(src, today);
    var part, all := DailySales(src.sales, from, today), DailySales(src.sales, e, today);
    DailyParts(src, since, today);
    MergeEqualIff(m.daily, part, all);
    assert AlreadyHas(m.daily, part, all) <==> GroupsRightBefore(m.daily, src.sales, from) by {
      if AlreadyHas(m.daily, part, all) {
        forall k | k in Groups(src.sales) && k.day < from
          ensures DailyRight(m.daily, src.sales, k)
        {
          assert k in all && k !in part;
        }
      }
      if GroupsRightBefore(m.daily, src.sales, from) {
        forall k | k in all && k !in part
          ensures k in m.daily && m.daily[k] == all[k]
        {
          assert DailyRight(m.daily, src.sales, k);
        }
      }
    }
    assert MaterializeAll(m, src, today).daily == m.daily + all;
  }

  /** Up to `today` the table is exactly the group-by. */
  predicate ExactDaily(daily: map<Key, DailyRow>, sales: seq<Fields>, today: int) {
    GroupsRightBefore(daily, sales, today + 1) && (forall k :: k in daily && k.day <= today ==> k in Groups(sales))
  }

  /** A refresh yields exactly the group-by if and only if earlier groups were right and no group has become empty. */
  lemma RefreshIsExactIff(m: Tables, src: Source, since: int, today: int)
    ensures ExactDaily(MaterializeSince(m, src, since, today).daily, src.sales, today) <==>
              GroupsRightBefore(m.daily, src.sales, Sooner(since, today)) &&
                (forall k :: k in m.daily && k.day <= today ==> k in Groups(src.sales))
  {
    var from := Sooner(since, today);
    var part := DailySales(src.sales, from, today);
    var after := m.daily + part;
    assert MaterializeSince(m, src, since, today).daily == after;
    if GroupsRightBefore(after, src.sales, today + 1) {
      forall k | k in Groups(src.sales) && k.day < from
        ensures DailyRight(m.daily, src.sales, k)
      {
        assert DailyRight(after, src.sales, k) && k !in part;
      }
    }
    if GroupsRightBefore(m.daily, src.sales, from) {
      forall k | k in Groups(src.sales) && k.day < today + 1 ensures DailyRight(after, src.sales, k) {
        if k.day < from { assert DailyRight(m.daily, src.sales, k) && k !in part; } else { assert k in part; }
      }
    }
    if forall k :: k in after && k.day <= today ==> k in Groups(src.sales) {
      forall k | k in m.daily && k.day <= today ensures k in Groups(src.sales) { assert k in after; }
    }
  }

  /** No refresh, not even a full rebuild, removes or corrects the row of a group that has become empty. */
  lemma EmptiedGroupStays(m: Tables, src: Source, since: int, today: int, k: Key)
    requires k in m.daily && k !in Groups(src.sales)
    ensures var t := MaterializeSince(m, src, since, today); k in t.daily && t.daily[k] == m.daily[k]
    ensures var t := MaterializeAll(m, src, today); k in t.daily && t.daily[k] == m.daily[k]
  {
  }

  /** A correction that moves a sale to a later day is counted on both days, whatever is refreshed afterwards. */
  lemma MovedSaleCountsTwice(sale: Fields, moved: Fields, today: int, since: int)
    requires moved == sale.(time := moved.time) && sale.time.day < moved.time.day <= today && since <= moved.time.day
    ensures var before := MaterializeAll(Tables(map[], map[], map[]), Source([sale], [], [], []), today);
            var t := MaterializeSince(before, Source([moved], [], [], []), since, today);
            KeyOf(sale) in t.daily && KeyOf(moved) in t.daily &&
            t.daily[KeyOf(sale)] == t.daily[KeyOf(moved)] == DailyRow(sale.milliliters, sale.total, 1)
  {
    var empty := Tables(map[], map[], map[]);
    var src := Source([sale], [], [], []);
    var before := MaterializeAll(empty, src, today);
    OneSale(sale);
    OneSale(moved);
    RebuildCoversGroups(src, today, KeyOf(sale));
    assert DailyRight(before.daily, [sale], KeyOf(sale));
    assert KeyOf(moved) in DailySales([moved], Sooner(since, today), today);
    EmptiedGroupStays(before, Source([moved], [], [], []), since, today, KeyOf(sale));
  }

  lemma OneSale(f: Fields)
    ensures Groups([f]) == {KeyOf(f)} && Aggregate([f], KeyOf(f)) == DailyRow(f.milliliters, f.total, 1)
  {
    assert [f][..0] == [];
    assert KeyOf([f][0]) in Groups([f]);
  }

  // ----- idempotence -----

  lemma MergeTwice<K, R>(a: map<K, R>, b: map<K, R>)
    ensures a + b + b == a + b
  {
  }

  /** Refreshing again changes nothing. */
  lemma RefreshIdempotent(m: Tables, src: Source, since: int, today: int)
    ensures var t := MaterializeSince(m, src, since, today); MaterializeSince(t, src, since, today) == t
  {
    var from := Sooner(since, today);
    var t := MaterializeSince(m, src, since, today);
    MergeTwice(m.daily, DailySales(src.sales, from, today));
    assert t.daily + DailySales(src.sales, from, today) == t.daily;
    MergeTwice(m.margin, Margins(t.daily, src.prices, from, today));
    MergeTwice(m.credit, CreditRows(src, DaysToScore(src, from, today, today)));
  }

  // ----- margin and credit -----

  predicate MarginRight(m: Tables, src: Source, k: Key)
    requires k in m.daily
  {
    k in m.margin && m.margin[k] == MarginOf(m.daily[k], CostOn(src.prices, k.product, k.day))
  }

  predicate MarginsRightBefore(m: Tables, src: Source, until: int) {
    forall k :: k in m.daily && k.day < until ==> MarginRight(m, src, k)
  }

  predicate CreditRight(m: Tables, src: Source, a: Account) { a in m.credit && m.credit[a] == CreditAt(src, a) }

  /** Every account on every day a rebuild would visit before `until` has its right row. */
  predicate CreditRightBefore(m: Tables, src: Source, until: int, today: int) {
    forall a :: a in AccountsOn(src.sales, DaysToScore(src, RebuildFrom(src, today), today, today)) && a.day < until ==>
      CreditRight(m, src, a)
  }

  predicate FreshBefore(m: Tables, src: Source, until: int, today: int) {
    GroupsRightBefore(m.daily, src.sales, until) && MarginsRightBefore(m, src, until) &&
      CreditRightBefore(m, src, until, today)
  }

  lemma MarginParts(m: Tables, src: Source, daily: map<Key, DailyRow>, from: int, today: int)
    requires GroupsRightBefore(m.daily, src.sales, from) && NoEmptied(m.daily, src.sales, from, today)
    requires daily == m.daily + DailySales(src.sales, from, today)
    ensures SubMap(Margins(daily, src.prices, from, today), Margins(daily, src.prices, RebuildFrom(src, today), today))
  {
    forall k | k in daily && from <= k.day <= today ensures RebuildFrom(src, today) <= k.day {
      assert k in Groups(src.sales);
      GroupDay(src.sales, k);
      NothingBeforeRebuild(src, today, k.day);
    }
  }

  lemma MarginKept(m: Tables, src: Source, daily: map<Key, DailyRow>, from: int, today: int)
    requires GroupsRightBefore(m.daily, src.sales, from) && MarginsRightBefore(m, src, from)
    requires daily == m.daily + DailySales(src.sales, from, today)
    ensures AlreadyHas(m.margin, Margins(daily, src.prices, from, today),
                       Margins(daily, src.prices, RebuildFrom(src, today), today))
  {
    var part := Margins(daily, src.prices, from, today);
    var all := Margins(daily, src.prices, RebuildFrom(src, today), today);
    forall k | k in all && k !in part ensures k in m.margin && m.margin[k] == all[k] {
      assert k in m.daily && daily[k] == m.daily[k];
      assert MarginRight(m, src, k);
    }
  }

  lemma MarginRefreshIsRebuild(m: Tables, src: Source, since: int, today: int)
    requires var from := Sooner(since, today);
             GroupsRightBefore(m.daily, src.sales, from) && MarginsRightBefore(m, src, from) &&
               NoEmptied(m.daily, src.sales, from, today)
    ensures MaterializeSince(m, src, since, today).margin == MaterializeAll(m, src, today).margin
  {
    var from, e := Sooner(since, today), RebuildFrom(src, today);
    DailyRefreshIsRebuildIff(m, src, since, today);
    var daily := m.daily + DailySales(src.sales, from, today);
    MarginParts(m, src, daily, from, today);
    MarginKept(m, src, daily, from, today);
    MergeEqualIff(m.margin, Margins(daily, src.prices, from, today), Margins(daily, src.prices, e, today));
  }

  lemma DaysFromLater(src: Source, since: int, today: int, d: int)
    ensures d in DaysToScore(src, Sooner(since, today), today, today) <==>
              d in DaysToScore(src, RebuildFrom(src, today), today, today) && Sooner(since, today) <= d
  {
    var from, e := Sooner(since, today), RebuildFrom(src, today);
    var first := First(SaleDays(src.sales));
    if d in DaysToScore(src, from, today, today) {
      if d in SaleDays(src.sales) || d in src.unreadable { NothingBeforeRebuild(src, today, d); }
      else { NoScoredDayBefore(src, today, first.value, d); }
    }
  }

  lemma NoScoredDayBefore(src: Source, today: int, first: int, d: int)
    requires first in SaleDays(src.sales) && first <= d <= today
    ensures RebuildFrom(src, today) <= d
  {
    NothingBeforeRebuild(src, today, first);
  }

  lemma CreditParts(src: Source, some: set<int>, all: set<int>, from: int)
    requires forall d :: d in some <==> d in all && from <= d
    ensures SubMap(CreditRows(src, some), CreditRows(src, all))
    ensures forall a :: a in CreditRows(src, all) && a !in CreditRows(src, some) ==>
            a in AccountsOn(src.sales, all) && a.day < from
  {
  }

  lemma CreditRefreshIsRebuild(m: Tables, src: Source, since: int, today: int)
    requires CreditRightBefore(m, src, Sooner(since, today), today)
    ensures MaterializeSince(m, src, since, today).credit == MaterializeAll(m, src, today).credit
  {
    var from, e := Sooner(since, today), RebuildFrom(src, today);
    var some, all := DaysToScore(src, from, today, today), DaysToScore(src, e, today, today);
    forall d ensures d in some <==> d in all && from <= d { DaysFromLater(src, since, today, d); }
    CreditParts(src, some, all, from);
    forall a | a in CreditRows(src, all) && a !in CreditRows(src, some)
      ensures a in m.credit && m.credit[a] == CreditRows(src, all)[a]
    {
      assert CreditRight(m, src, a);
    }
    MergeEqualIff(m.credit, CreditRows(src, some), CreditRows(src, all));
  }

  /**
    If days before `since` are already right and no daily row from then on has lost its sales, then
    refreshing from `since` gives the very tables a full rebuild gives.
   */
  lemma RefreshIsRebuild(m: Tables, src: Source, since: int, today: int)
    requires FreshBefore(m, src, Sooner(since, today), today) &&
             NoEmptied(m.daily, src.sales, Sooner(since, today), today)
    ensures MaterializeSince(m, src, since, today) == MaterializeAll(m, src, today)
  {
    DailyRefreshIsRebuildIff(m, src, since, today);
    MarginRefreshIsRebuild(m, src, since, today);
    CreditRefreshIsRebuild(m, src, since, today);
  }

  // ----- earlier days are untouched by later changes -----

  /** Sales were added or corrected only on days from `s` on, before and after the correction. */
  predicate SameBefore(a: seq<Fields>, b: seq<Fields>, s: int) {
    |a| <= |b| &&
    (forall i :: 0 <= i < |a| ==> a[i] == b[i] || (a[i].time.day >= s && b[i].time.day >= s)) &&
    (forall i :: |a| <= i < |b| ==> b[i].time.day >= s)
  }

  /** Both lists without their last sale, or the longer one without its extra sale. */
  lemma SameBeforeShorter(a: seq<Fields>, b: seq<Fields>, s: int)
    requires SameBefore(a, b, s) && b != []
    ensures SameBefore(if |a| == |b| then a[..|a| - 1] else a, b[..|b| - 1], s)
  {
  }

  lemma {:induction false} AggregateSame(a: seq<Fields>, b: seq<Fields>, s: int, k: Key)
    requires SameBefore(a, b, s) && k.day < s
    ensures Aggregate(a, k) == Aggregate(b, k)
    decreases |b|
  {
    if b != [] {
      SameBeforeShorter(a, b, s);
      AggregateSame(if |a| == |b| then a[..|a| - 1] else a, b[..|b| - 1], s, k);
    }
  }

  lemma GroupsSame(a: seq<Fields>, b: seq<Fields>, s: int, k: Key)
    requires SameBefore(a, b, s) && k.day < s
    ensures k in Groups(a) <==> k in Groups(b)
  {
    if k in Groups(a) { var i :| 0 <= i < |a| && KeyOf(a[i]) == k; assert KeyOf(b[i]) == k; }
    if k in Groups(b) { var i :| 0 <= i < |b| && KeyOf(b[i]) == k; assert KeyOf(a[i]) == k; }
  }

  lemma SaleDaysSame(a: seq<Fields>, b: seq<Fields>, s: int, d: int)
    requires SameBefore(a, b, s) && d < s
    ensures d in SaleDays(a) <==> d in SaleDays(b)
  {
    SaleDaysHas(a, d);
    SaleDaysHas(b, d);
    if d in SaleDays(a) { var i :| 0 <= i < |a| && a[i].time.day == d; assert b[i].time.day == d; }
    if d in SaleDays(b) { var i :| 0 <= i < |b| && b[i].time.day == d; assert a[i].time.day == d; }
  }

  lemma {:induction false} AccountSalesSame(a: seq<Fields>, b: seq<Fields>, s: int, phone: string, d: int)
    requires SameBefore(a, b, s) && d < s
    ensures AccountSales(a, phone, d) == AccountSales(b, phone, d)
    decreases |b|
  {
    if b != [] {
      SameBeforeShorter(a, b, s);
      AccountSalesSame(if |a| == |b| then a[..|a| - 1] else a, b[..|b| - 1], s, phone, d);
    }
  }

  lemma {:induction false} UnpaidDaySame(all: seq<Fields>, all': seq<Fields>, sales: seq<Fields>, paid: int)
    requires forall f :: f in sales ==> RunningTotal(all, f.time) == RunningTotal(all', f.time)
    ensures UnpaidDay(all, sales, paid) == UnpaidDay(all', sales, paid)
  {
    if sales != [] { UnpaidDaySame(all, all', sales[..|sales| - 1], paid); }
  }

  /** Payments were recorded or corrected only for days from `s` on. */
  predicate SamePaidBefore(a: seq<Payment>, b: seq<Payment>, s: int) {
    |a| <= |b| &&
    (forall i :: 0 <= i < |a| ==> a[i] == b[i] || (a[i].paidOn >= s && b[i].paidOn >= s)) &&
    (forall i :: |a| <= i < |b| ==> b[i].paidOn >= s)
  }

  lemma {:induction false} PaidSame(a: seq<Payment>, b: seq<Payment>, s: int, phone: string, d: int)
    requires SamePaidBefore(a, b, s) && d < s
    ensures Paid(a, phone, d) == Paid(b, phone, d)
    decreases |b|
  {
    if b != [] { PaidSame(if |a| == |b| then a[..|a| - 1] else a, b[..|b| - 1], s, phone, d); }
  }

  /** Prices were recorded or corrected only with effect from days from `s` on. */
  predicate SamePricesBefore(a: seq<Price>, b: seq<Price>, s: int) {
    |a| <= |b| &&
    (forall i :: 0 <= i < |a| ==> a[i] == b[i] || (a[i].from >= s && b[i].from >= s)) &&
    (forall i :: |a| <= i < |b| ==> b[i].from >= s)
  }

  lemma {:induction false} PriceSame(a: seq<Price>, b: seq<Price>, s: int, product: string, d: int)
    requires SamePricesBefore(a, b, s) && d < s
    ensures InForce(a, product, d) == InForce(b, product, d)
    decreases |b|
  {
    if b != [] { PriceSame(if |a| == |b| then a[..|a| - 1] else a, b[..|b| - 1], s, product, d); }
  }

  /** An account's row on a day depends only on what happened up to that day. */
  lemma QueryRowSame(a: seq<Fields>, b: seq<Fields>, s: int, payments: seq<Payment>, payments': seq<Payment>,
                     phone: string, d: int)
    requires SameBefore(a, b, s) && SamePaidBefore(payments, payments', s) && d < s
    ensures QueryRow(a, payments, phone, d) == QueryRow(b, payments', phone, d)
  {
    PaidSame(payments, payments', s, phone, d);
    AccountSalesSame(a, b, s, phone, d);
    var sales := AccountSales(a, phone, d);
    AccountSalesDays(a, phone, d);
    forall f | f in sales
      ensures RunningTotal(AllAccountSales(a, phone), f.time) == RunningTotal(AllAccountSales(b, phone), f.time)
    {
      LaterDaysIrrelevant(a, phone, d, f.time);
      LaterDaysIrrelevant(b, phone, d, f.time);
    }
    UnpaidDaySame(AllAccountSales(a, phone), AllAccountSales(b, phone), sales, Paid(payments, phone, d));
  }

  lemma {:induction false} AccountHasSale(sales: seq<Fields>, phone: string, d: int)
    requires AccountSales(sales, phone, d) != []
    ensures Account(d, phone) in Accounts(sales, d)
  {
    var i := SaleOnAccount(sales, phone, d);
    assert sales[i].phone == phone;
  }

  lemma {:induction false} SaleOnAccount(sales: seq<Fields>, phone: string, d: int) returns (i: nat)
    requires AccountSales(sales, phone, d) != []
    ensures i < |sales| && sales[i].phone == phone
  {
    var last := sales[|sales| - 1];
    if OnAccount(last, phone) { i := |sales| - 1; } else { i := SaleOnAccount(sales[..|sales| - 1], phone, d); }
  }

  /** The sources before and after differ only from day `s` on. */
  predicate ChangedFrom(before: Source, now: Source, s: int) {
    SameBefore(before.sales, now.sales, s) && SamePricesBefore(before.prices, now.prices, s) &&
    SamePaidBefore(before.payments, now.payments, s) &&
    (forall d :: d in now.unreadable && d < s ==> d in before.unreadable)
  }

  lemma RebuiltDailyStaysRight(m0: Tables, before: Source, today0: int, now: Source, s: int)
    requires ChangedFrom(before, now, s) && s <= today0
    ensures GroupsRightBefore(MaterializeAll(m0, before, today0).daily, now.sales, s)
  {
    var m := MaterializeAll(m0, before, today0);
    forall k | k in Groups(now.sales) && k.day < s ensures DailyRight(m.daily, now.sales, k) {
      GroupsSame(before.sales, now.sales, s, k);
      AggregateSame(before.sales, now.sales, s, k);
      RebuildCoversGroups(before, today0, k);
    }
  }

  lemma RebuiltMarginStaysRight(m0: Tables, before: Source, today0: int, now: Source, s: int)
    requires ChangedFrom(before, now, s) && s <= today0 && (forall k :: k in m0.daily ==> k in Groups(before.sales))
    ensures MarginsRightBefore(MaterializeAll(m0, before, today0), now, s)
  {
    var m := MaterializeAll(m0, before, today0);
    forall k | k in m.daily && k.day < s ensures MarginRight(m, now, k) {
      RebuildCoversGroups(before, today0, k);
      assert k in Groups(before.sales);
      GroupDay(before.sales, k);
      NothingBeforeRebuild(before, today0, k.day);
      PriceSame(before.prices, now.prices, s, k.product, k.day);
    }
  }

  lemma ScoredDaysSame(before: Source, today0: int, now: Source, today: int, s: int, d: int)
    requires ChangedFrom(before, now, s) && s <= today0 && d < s &&
             d in DaysToScore(now, RebuildFrom(now, today), today, today)
    ensures d in DaysToScore(before, RebuildFrom(before, today0), today0, today0)
  {
    SaleDaysSame(before.sales, now.sales, s, d);
    if d in SaleDays(now.sales) || d in now.unreadable {
      NothingBeforeRebuild(before, today0, d);
    } else {
      var first := First(SaleDays(now.sales)).value;
      SaleDaysSame(before.sales, now.sales, s, first);
      NothingBeforeRebuild(before, today0, first);
    }
  }

  lemma RebuiltCreditStaysRight(m0: Tables, before: Source, today0: int, now: Source, today: int, s: int)
    requires ChangedFrom(before, now, s) && s <= today0
    ensures CreditRightBefore(MaterializeAll(m0, before, today0), now, s, today)
  {
    var m := MaterializeAll(m0, before, today0);
    var days := DaysToScore(before, RebuildFrom(before, today0), today0, today0);
    forall a | a in AccountsOn(now.sales, DaysToScore(now, RebuildFrom(now, today), today, today)) && a.day < s
      ensures CreditRight(m, now, a)
    {
      ScoredDaysSame(before, today0, now, today, s, a.day);
      AccountSalesSame(before.sales, now.sales, s, a.phone, a.day);
      AccountHasSale(before.sales, a.phone, a.day);
      QueryRowSame(before.sales, now.sales, s, before.payments, now.payments, a.phone, a.day);
      assert a in AccountsOn(before.sales, days);
      assert a in CreditRows(before, days);
    }
  }

  /**
    Incremental refresh: after a full rebuild, when sales, payments and prices change only from day `s` on and no group
    is emptied, refreshing from `s` gives what a full rebuild would give: daily sales, margin and credit.
   */
  lemma IncrementalRefresh(m0: Tables, before: Source, today0: int, now: Source, s: int, today: int)
    requires ChangedFrom(before, now, s) && s <= today0 <= today &&
             (forall k :: k in m0.daily ==> k in Groups(before.sales))
    requires NoEmptied(MaterializeAll(m0, before, today0).daily, now.sales, s, today)
    ensures var m := MaterializeAll(m0, before, today0);
            MaterializeSince(m, now, s, today) == MaterializeAll(m, now, today)
  {
    RebuiltDailyStaysRight(m0, before, today0, now, s);
    RebuiltMarginStaysRight(m0, before, today0, now, s);
    RebuiltCreditStaysRight(m0, before, today0, now, today, s);
    RefreshIsRebuild(MaterializeAll(m0, before, today0), now, s, today);
  }

  // ----- a new purchase price -----

  /** After a price is saved, refreshing from its date gives what a full rebuild would give. */
  lemma PriceRefresh(m: Tables, src: Source, p: Price, today: int)
    requires OnePerDate(src.prices) && FreshBefore(m, src, Sooner(p.from, today), today)
    requires NoEmptied(m.daily, src.sales, Sooner(p.from, today), today)
    ensures var priced := src.(prices := Upserted(src.prices, p));
            MaterializeSince(m, priced, p.from, today) == MaterializeAll(m, priced, today)
  {
    var priced := src.(prices := Upserted(src.prices, p));
    var from := Sooner(p.from, today);
    forall k | k in m.daily && k.day < from ensures MarginRight(m, priced, k) {
      assert MarginRight(m, src, k);
      PriceReachesNext(src.prices, p, k.product, k.day);
    }
    forall a | a in AccountsOn(priced.sales, DaysToScore(priced, RebuildFrom(priced, today), today, today)) &&
               a.day < from
      ensures CreditRight(m, priced, a)
    {
      assert CreditRight(m, src, a);
    }
    RefreshIsRebuild(m, priced, p.from, today);
  }
}
