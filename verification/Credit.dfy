/**
  Credit balances: the query that finds the oldest unpaid sale from running totals, and why it
  agrees with paying sales off one by one, oldest first.
 */
module Credit {
  import opened Common
  import opened Normalization

  datatype Payment = Payment(phone: string, paidOn: int, amount: int)

  /** A credit sale on the account `phone`. */
  predicate OnAccount(f: Fields, phone: string) { f.payment == "CREDIT" && phone != "" && f.phone == phone }

  /** The account's credit sales up to a day, in table order. */
  function AccountSales(txs: seq<Fields>, phone: string, day: int): seq<Fields> {
    if txs == [] then []
    else
      var last := txs[|txs| - 1];
      AccountSales(txs[..|txs| - 1], phone, day) +
        (if OnAccount(last, phone) && last.time.day <= day then [last] else [])
  }

  function Total(sales: seq<Fields>): int {
    if sales == [] then 0 else Total(sales[..|sales| - 1]) + sales[|sales| - 1].total
  }

  /** Running total: every sale at or before `t`, ties included. */
  function RunningTotal(sales: seq<Fields>, t: Time): int {
    if sales == [] then 0
    else
      RunningTotal(sales[..|sales| - 1], t) +
      (if NotAfter(sales[|sales| - 1].time, t) then sales[|sales| - 1].total else 0)
  }

  /** What the account has paid back by a day. */
  function Paid(payments: seq<Payment>, phone: string, day: int): int {
    if payments == [] then 0
    else
      var last := payments[|payments| - 1];
      Paid(payments[..|payments| - 1], phone, day) +
        (if last.phone == phone && last.paidOn <= day then last.amount else 0)
  }

  /** The sale's running total over all the account's sales exceeds what was paid. */
  predicate Uncovered(all: seq<Fields>, sale: Fields, paid: int) { RunningTotal(all, sale.time) > paid }

  function Earlier(a: Option<int>, b: int): Option<int> { if a.None? || b < a.value then Some(b) else a }

  /** Day of the earliest uncovered sale among `sales`. */
  function UnpaidDay(all: seq<Fields>, sales: seq<Fields>, paid: int): Option<int> {
    if sales == [] then None
    else
      var rest, last := UnpaidDay(all, sales[..|sales| - 1], paid), sales[|sales| - 1];
      if Uncovered(all, last, paid) then Earlier(rest, last.time.day) else rest
  }

  function LastDay(sales: seq<Fields>): int
    requires sales != []
  {
    if |sales| == 1 then sales[0].time.day
    else
      var rest, d := LastDay(sales[..|sales| - 1]), sales[|sales| - 1].time.day;
      if d > rest then d else rest
  }

  datatype CreditRow = CreditRow(outstanding: int, count: nat, daysOverdue: int)

  /**
    One row of the credit query; None when the account has no credit sale yet. The inner totals range over
    all sales, whatever their day.
   */
  function Row(txs: seq<Fields>, everySale: seq<Fields>, paid: int, day: int, phone: string): Option<CreditRow> {
    var sales := AccountSales(txs, phone, day);
    if sales == [] then None
    else
      var balance := Total(sales) - paid;
      var unpaid := UnpaidDay(everySale, sales, paid);
      Some(CreditRow(balance, |sales|,
        if balance <= 0 then 0 else day - (if unpaid.Some? then unpaid.value else LastDay(sales))))
  }

  /** Every credit sale on the account, whatever its day. */
  function AllAccountSales(txs: seq<Fields>, phone: string): seq<Fields> {
    if txs == [] then []
    else AllAccountSales(txs[..|txs| - 1], phone) + (if OnAccount(txs[|txs| - 1], phone) then [txs[|txs| - 1]] else [])
  }

  function QueryRow(txs: seq<Fields>, payments: seq<Payment>, phone: string, day: int): Option<CreditRow> {
    Row(txs, AllAccountSales(txs, phone), Paid(payments, phone, day), day, phone)
  }

  // ----- paying sales off, oldest first -----

  /** Settles sales in order from what was paid; the day of the first one left with something to pay. */
  function FirstLeft(queue: seq<Fields>, paid: int): Option<int> {
    if queue == [] then None
    else if queue[0].total <= paid then FirstLeft(queue[1..], paid - queue[0].total)
    else Some(queue[0].time.day)
  }

  predicate InTimeOrder(queue: seq<Fields>) {
    forall i, j :: 0 <= i < j < |queue| ==> NotAfter(queue[i].time, queue[j].time)
  }

  /** Of sales at the same moment none is a refund. */
  predicate TiesNonNegative(queue: seq<Fields>) {
    forall i, j :: 0 <= i < |queue| && 0 <= j < |queue| && i != j && queue[i].time == queue[j].time ==>
      queue[i].total >= 0
  }

  // ----- running totals depend only on which sales there are -----

  function Remove(s: seq<Fields>, i: nat): seq<Fields>
    requires i < |s|
  {
    s[..i] + s[i + 1..]
  }

  function Share(f: Fields, t: Time): int { if NotAfter(f.time, t) then f.total else 0 }

  /** Total of what each sale contributes. */
  function SumOf(s: seq<Fields>, share: Fields -> int): int {
    if s == [] then 0 else SumOf(s[..|s| - 1], share) + share(s[|s| - 1])
  }

  lemma {:induction false} SumRemove(s: seq<Fields>, i: nat, share: Fields -> int)
    requires i < |s|
    ensures SumOf(s, share) == SumOf(Remove(s, i), share) + share(s[i])
  {
    var last := |s| - 1;
    if i == last {
      assert Remove(s, i) == s[..last];
    } else {
      var less := Remove(s, i);
      SumRemove(s[..last], i, share);
      assert less[..last - 1] == Remove(s[..last], i) && less[last - 1] == s[last] && |less| == last;
    }
  }

  lemma RemoveFromMultiset(s: seq<Fields>, i: nat)
    requires i < |s|
    ensures multiset(Remove(s, i)) == multiset(s) - multiset{s[i]}
  {
    assert s == s[..i] + ([s[i]] + s[i + 1..]);
    assert multiset(s) == multiset(Remove(s, i)) + multiset{s[i]};
  }

  lemma {:induction false} SumOrder(a: seq<Fields>, b: seq<Fields>, share: Fields -> int)
    requires multiset(a) == multiset(b)
    ensures SumOf(a, share) == SumOf(b, share)
    decreases |a|
  {
    if a == [] {
      assert |multiset(b)| == 0;
    } else {
      var last := |a| - 1;
      assert a == a[..last] + [a[last]];
      assert a[last] in multiset(b);
      var i :| 0 <= i < |b| && b[i] == a[last];
      RemoveFromMultiset(b, i);
      RemoveFromMultiset(a, last);
      assert Remove(a, last) == a[..last];
      SumRemove(b, i, share);
      SumOrder(a[..last], Remove(b, i), share);
    }
  }

  lemma {:induction false} RunningTotalIsSum(s: seq<Fields>, t: Time)
    ensures RunningTotal(s, t) == SumOf(s, f => Share(f, t))
  {
    if s != [] { RunningTotalIsSum(s[..|s| - 1], t); }
  }

  lemma RunningTotalOrder(a: seq<Fields>, b: seq<Fields>, t: Time)
    requires multiset(a) == multiset(b)
    ensures RunningTotal(a, t) == RunningTotal(b, t)
  {
    RunningTotalIsSum(a, t);
    RunningTotalIsSum(b, t);
    SumOrder(a, b, f => Share(f, t));
  }

  /** Up to a moment on day `day` at the latest, leaving out later days changes nothing. */
  lemma {:induction false} LaterDaysIrrelevant(txs: seq<Fields>, phone: string, day: int, t: Time)
    requires t.day <= day
    ensures RunningTotal(AllAccountSales(txs, phone), t) == RunningTotal(AccountSales(txs, phone, day), t)
  {
    if txs != [] {
      var last := txs[|txs| - 1];
      var front := txs[..|txs| - 1];
      LaterDaysIrrelevant(front, phone, day, t);
      RunningTotalAppend(AllAccountSales(front, phone), last, t);
      RunningTotalAppend(AccountSales(front, phone, day), last, t);
    }
  }

  lemma RunningTotalAppend(s: seq<Fields>, f: Fields, t: Time)
    ensures RunningTotal(s + [f], t) == RunningTotal(s, t) + Share(f, t)
    ensures s + [] == s
  {
    assert (s + [f])[..|s|] == s;
  }

  // ----- the earliest uncovered sale -----

  /** `d` is the day of an uncovered sale and no uncovered sale has an earlier day. */
  ghost predicate IsUnpaidDay(all: seq<Fields>, sales: seq<Fields>, paid: int, d: Option<int>) {
    (forall f :: f in sales && Uncovered(all, f, paid) ==> d.Some? && d.value <= f.time.day) &&
    (d.Some? ==> exists f :: f in sales && Uncovered(all, f, paid) && f.time.day == d.value)
  }

  lemma {:induction false} UnpaidDayIsEarliest(all: seq<Fields>, sales: seq<Fields>, paid: int)
    ensures IsUnpaidDay(all, sales, paid, UnpaidDay(all, sales, paid))
  {
    if sales != [] {
      var front, last := sales[..|sales| - 1], sales[|sales| - 1];
      UnpaidDayIsEarliest(all, front, paid);
      var rest := UnpaidDay(all, front, paid);
      assert sales == front + [last];
      if rest.Some? {
        var f :| f in front && Uncovered(all, f, paid) && f.time.day == rest.value;
        assert f in sales;
      }
      assert last in sales;
    }
  }

  lemma EarliestIsUnique(all: seq<Fields>, sales: seq<Fields>, paid: int, d: Option<int>, e: Option<int>)
    requires IsUnpaidDay(all, sales, paid, d) && IsUnpaidDay(all, sales, paid, e)
    ensures d == e
  {
  }

  // ----- the queue -----

  lemma {:induction false} TotalFront(queue: seq<Fields>)
    requires queue != []
    ensures Total(queue) == queue[0].total + Total(queue[1..])
  {
    var last := |queue| - 1;
    if last > 0 {
      TotalFront(queue[..last]);
      assert queue[..last][1..] == queue[1..][..last - 1];
    }
  }

  function Prefix(queue: seq<Fields>, n: nat): int
    requires n <= |queue|
  {
    Total(queue[..n])
  }

  lemma {:induction false} PrefixOfTail(queue: seq<Fields>, n: nat)
    requires 0 < n <= |queue|
    ensures Prefix(queue, n) == queue[0].total + Prefix(queue[1..], n - 1)
  {
    TotalFront(queue[..n]);
    assert queue[..n][1..] == queue[1..][..n - 1];
  }

  /** The queue stops at the first sale whose prefix total exceeds what was paid. */
  lemma {:induction false} FirstLeftAt(queue: seq<Fields>, paid: int) returns (k: nat)
    ensures k <= |queue|
    ensures forall n: nat :: 0 < n <= k ==> Prefix(queue, n) <= paid
    ensures if k == |queue| then FirstLeft(queue, paid) == None
            else FirstLeft(queue, paid) == Some(queue[k].time.day) && Prefix(queue, k + 1) > paid
  {
    k := 0;
    if queue != [] {
      PrefixOfTail(queue, 1);
      if queue[0].total <= paid {
        var m := FirstLeftAt(queue[1..], paid - queue[0].total);
        k := m + 1;
        forall n: nat | 0 < n <= k ensures Prefix(queue, n) <= paid {
          PrefixOfTail(queue, n);
          if n > 1 { assert Prefix(queue[1..], n - 1) <= paid - queue[0].total; }
        }
        if k < |queue| { PrefixOfTail(queue, k + 1); }
      }
    }
  }

  /** In time order the running total is a prefix total: the prefix of sales at or before `t`. */
  lemma {:induction false} RunningTotalIsPrefix(queue: seq<Fields>, t: Time) returns (e: nat)
    requires InTimeOrder(queue)
    ensures e <= |queue| && RunningTotal(queue, t) == Prefix(queue, e)
    ensures forall i :: 0 <= i < |queue| ==> (i < e <==> NotAfter(queue[i].time, t))
  {
    if queue == [] {
      e := 0;
    } else {
      var last := |queue| - 1;
      e := RunningTotalIsPrefix(queue[..last], t);
      assert queue[..last][..e] == queue[..e];
      if NotAfter(queue[last].time, t) {
        assert e == last;
        e := |queue|;
        assert queue[..e][..last] == queue[..last];
      }
    }
  }

  lemma {:induction false} TotalGrows(queue: seq<Fields>, k: nat, e: nat)
    requires k <= e <= |queue| && forall i :: k <= i < e ==> queue[i].total >= 0
    ensures Prefix(queue, k) <= Prefix(queue, e)
  {
    if k < e {
      TotalGrows(queue, k, e - 1);
      assert queue[..e][..e - 1] == queue[..e - 1];
    }
  }

  /** On a queue in time order without tied refunds, paying off oldest first finds the earliest uncovered day. */
  lemma QueueFindsUnpaidDay(queue: seq<Fields>, paid: int)
    requires InTimeOrder(queue) && TiesNonNegative(queue) && paid >= 0
    ensures IsUnpaidDay(queue, queue, paid, FirstLeft(queue, paid))
  {
    var k := FirstLeftAt(queue, paid);
    forall f | f in queue && Uncovered(queue, f, paid)
      ensures k < |queue| && queue[k].time.day <= f.time.day
    {
      var e := RunningTotalIsPrefix(queue, f.time);
      assert Prefix(queue, e) > paid;
      assert k < e;
    }
    if k < |queue| {
      var e := RunningTotalIsPrefix(queue, queue[k].time);
      assert k < e;
      forall i | k + 1 <= i < e ensures queue[i].total >= 0 {
        assert NotAfter(queue[k].time, queue[i].time) && NotAfter(queue[i].time, queue[k].time);
      }
      TotalGrows(queue, k + 1, e);
      assert queue[k] in queue && Uncovered(queue, queue[k], paid);
    }
  }

  lemma SameSalesSameUnpaidDay(all: seq<Fields>, queue: seq<Fields>, sales: seq<Fields>, paid: int, d: Option<int>)
    requires multiset(queue) == multiset(sales) && IsUnpaidDay(queue, queue, paid, d)
    requires forall f :: f in sales ==> RunningTotal(all, f.time) == RunningTotal(sales, f.time)
    ensures IsUnpaidDay(all, sales, paid, d)
  {
    forall f | f in sales ensures f in queue && (Uncovered(queue, f, paid) <==> Uncovered(all, f, paid)) {
      assert f in multiset(sales);
      RunningTotalOrder(queue, sales, f.time);
    }
    forall f | f in queue ensures f in sales { assert f in multiset(queue); }
  }

  lemma {:induction false} AccountSalesDays(txs: seq<Fields>, phone: string, day: int)
    ensures forall f :: f in AccountSales(txs, phone, day) ==> f.time.day <= day
  {
    if txs != [] { AccountSalesDays(txs[..|txs| - 1], phone, day); }
  }

  /**
    The running-total query names the day of the first sale left uncovered when payments settle the
    account's sales oldest first, whichever way sales of the same moment are ordered.
   */
  lemma QueryIsOldestFirst(txs: seq<Fields>, phone: string, day: int, paid: int, queue: seq<Fields>)
    requires multiset(queue) == multiset(AccountSales(txs, phone, day)) && InTimeOrder(queue) &&
             TiesNonNegative(queue) && paid >= 0
    ensures UnpaidDay(AllAccountSales(txs, phone), AccountSales(txs, phone, day), paid) == FirstLeft(queue, paid)
  {
    var all, sales := AllAccountSales(txs, phone), AccountSales(txs, phone, day);
    QueueFindsUnpaidDay(queue, paid);
    AccountSalesDays(txs, phone, day);
    forall f | f in sales ensures RunningTotal(all, f.time) == RunningTotal(sales, f.time) {
      LaterDaysIrrelevant(txs, phone, day, f.time);
    }
    SameSalesSameUnpaidDay(all, queue, sales, paid, FirstLeft(queue, paid));
    UnpaidDayIsEarliest(all, sales, paid);
    EarliestIsUnique(all, sales, paid, UnpaidDay(all, sales, paid), FirstLeft(queue, paid));
  }

  // ----- balances and overdue days -----

  lemma {:induction false} LatestSale(sales: seq<Fields>) returns (f: Fields)
    requires sales != []
    ensures f in sales && forall g :: g in sales ==> NotAfter(g.time, f.time)
  {
    var front, last := sales[..|sales| - 1], sales[|sales| - 1];
    f := last;
    if front != [] {
      var g := LatestSale(front);
      if NotAfter(last.time, g.time) { f := g; }
    }
    assert sales == front + [last];
  }

  lemma {:induction false} RunningTotalOfAll(sales: seq<Fields>, t: Time)
    requires forall f :: f in sales ==> NotAfter(f.time, t)
    ensures RunningTotal(sales, t) == Total(sales)
  {
    if sales != [] { RunningTotalOfAll(sales[..|sales| - 1], t); }
  }

  /**
    Whenever the balance is positive, refunds or not, some sale is uncovered, and it is not after the day
    asked about.
   */
  lemma PositiveBalanceHasUnpaidDay(txs: seq<Fields>, phone: string, day: int, paid: int)
    requires AccountSales(txs, phone, day) != [] && Total(AccountSales(txs, phone, day)) > paid
    ensures var d := UnpaidDay(AllAccountSales(txs, phone), AccountSales(txs, phone, day), paid);
            d.Some? && d.value <= day
  {
    var all, sales := AllAccountSales(txs, phone), AccountSales(txs, phone, day);
    var f := LatestSale(sales);
    AccountSalesDays(txs, phone, day);
    LaterDaysIrrelevant(txs, phone, day, f.time);
    RunningTotalOfAll(sales, f.time);
    UnpaidDayIsEarliest(all, sales, paid);
    assert Uncovered(all, f, paid);
  }

  function Overdue(txs: seq<Fields>, phone: string, day: int, paid: int): int
    requires AccountSales(txs, phone, day) != []
  {
    Row(txs, AllAccountSales(txs, phone), paid, day, phone).value.daysOverdue
  }

  /** Paying more never makes an account more overdue, and overdue days are never negative. */
  lemma PayingNeverAges(txs: seq<Fields>, phone: string, day: int, paid: int, more: int)
    requires AccountSales(txs, phone, day) != [] && paid <= more
    ensures 0 <= Overdue(txs, phone, day, more) <= Overdue(txs, phone, day, paid)
  {
    var all, sales := AllAccountSales(txs, phone), AccountSales(txs, phone, day);
    if Total(sales) > paid { PositiveBalanceHasUnpaidDay(txs, phone, day, paid); }
    if Total(sales) > more {
      PositiveBalanceHasUnpaidDay(txs, phone, day, more);
      UnpaidDayIsEarliest(all, sales, paid);
      UnpaidDayIsEarliest(all, sales, more);
      var f :| f in sales && Uncovered(all, f, more) && f.time.day == UnpaidDay(all, sales, more).value;
      assert Uncovered(all, f, paid);
    }
  }

  lemma {:induction false} AccountSalesGrow(txs: seq<Fields>, phone: string, day: int)
    ensures forall f :: f in AccountSales(txs, phone, day) ==> f in AccountSales(txs, phone, day + 1)
    ensures forall f :: f in AccountSales(txs, phone, day + 1) ==>
            f in AccountSales(txs, phone, day) || f.time.day == day + 1
    ensures AccountSales(txs, phone, day) != [] ==> AccountSales(txs, phone, day + 1) != []
  {
    if txs != [] { AccountSalesGrow(txs[..|txs| - 1], phone, day); }
  }

  /**
    With nothing paid in between, an account that still owes is exactly one day more overdue the next day,
    new sales or not.
   */
  lemma OverdueGrowsDaily(txs: seq<Fields>, phone: string, day: int, paid: int)
    requires AccountSales(txs, phone, day) != [] && Total(AccountSales(txs, phone, day)) > paid
    requires Total(AccountSales(txs, phone, day + 1)) > paid
    ensures AccountSales(txs, phone, day + 1) != []
    ensures Overdue(txs, phone, day + 1, paid) == Overdue(txs, phone, day, paid) + 1
  {
    var all := AllAccountSales(txs, phone);
    var today, tomorrow := AccountSales(txs, phone, day), AccountSales(txs, phone, day + 1);
    AccountSalesGrow(txs, phone, day);
    PositiveBalanceHasUnpaidDay(txs, phone, day, paid);
    PositiveBalanceHasUnpaidDay(txs, phone, day + 1, paid);
    UnpaidDayIsEarliest(all, today, paid);
    UnpaidDayIsEarliest(all, tomorrow, paid);
    var d := UnpaidDay(all, today, paid);
    var f :| f in today && Uncovered(all, f, paid) && f.time.day == d.value;
    assert f in tomorrow;
    assert IsUnpaidDay(all, tomorrow, paid, d);
    EarliestIsUnique(all, tomorrow, paid, d, UnpaidDay(all, tomorrow, paid));
  }

  // ----- when the order of ties matters -----

  /** Counted when everything before `t` and only the positive amounts at `t` are. */
  predicate InPeak(f: Fields, t: Time) { NotAfter(f.time, t) && (f.time == t ==> f.total > 0) }

  function PeakShare(f: Fields, t: Time): int { if InPeak(f, t) then f.total else 0 }

  /**
    The most that some order of the sales at `t` has run up before its refunds: the earlier total and the
    positive amounts at `t`.
   */
  function Peak(sales: seq<Fields>, t: Time): int {
    if sales == [] then 0 else Peak(sales[..|sales| - 1], t) + PeakShare(sales[|sales| - 1], t)
  }

  lemma {:induction false} PeakIsSum(s: seq<Fields>, t: Time)
    ensures Peak(s, t) == SumOf(s, f => PeakShare(f, t))
  {
    if s != [] { PeakIsSum(s[..|s| - 1], t); }
  }

  lemma PeakOrder(a: seq<Fields>, b: seq<Fields>, t: Time)
    requires multiset(a) == multiset(b)
    ensures Peak(a, t) == Peak(b, t)
  {
    PeakIsSum(a, t);
    PeakIsSum(b, t);
    SumOrder(a, b, f => PeakShare(f, t));
  }

  /** Some sale on this day or before stays uncovered. */
  predicate UncoveredBy(sales: seq<Fields>, paid: int, day: int) {
    exists g :: g in sales && Uncovered(sales, g, paid) && g.time.day <= day
  }

  /** Wherever the peak at a sale's time exceeds what was paid, some sale on its day or before stays uncovered. */
  predicate PeaksUncovered(sales: seq<Fields>, paid: int) {
    forall f :: f in sales && Peak(sales, f.time) > paid ==> UncoveredBy(sales, paid, f.time.day)
  }

  /** Up to any sale of a queue no more has run up than the peak at its time. */
  lemma {:induction false} PrefixBelowPeak(queue: seq<Fields>, k: nat, n: nat)
    requires InTimeOrder(queue) && k < n <= |queue|
    ensures Prefix(queue, k + 1) <= Peak(queue[..n], queue[k].time)
    decreases n
  {
    assert queue[..n][..n - 1] == queue[..n - 1];
    if n == k + 1 {
      FrontBelowPeak(queue, n, queue[k].time);
    } else {
      PrefixBelowPeak(queue, k, n - 1);
      assert NotAfter(queue[k].time, queue[n - 1].time);
    }
  }

  lemma {:induction false} FrontBelowPeak(queue: seq<Fields>, n: nat, t: Time)
    requires n <= |queue| && forall i :: 0 <= i < n ==> NotAfter(queue[i].time, t)
    ensures Prefix(queue, n) <= Peak(queue[..n], t)
  {
    if n > 0 {
      assert queue[..n][..n - 1] == queue[..n - 1];
      FrontBelowPeak(queue, n - 1, t);
    }
  }

  /** Then paying off oldest first finds the earliest uncovered day, in whatever order ties are taken. */
  lemma QueueAgrees(queue: seq<Fields>, paid: int)
    requires InTimeOrder(queue) && PeaksUncovered(queue, paid) && paid >= 0
    ensures IsUnpaidDay(queue, queue, paid, FirstLeft(queue, paid))
  {
    var k := FirstLeftAt(queue, paid);
    forall f | f in queue && Uncovered(queue, f, paid) ensures k < |queue| && queue[k].time.day <= f.time.day {
      StopsByUncovered(queue, paid, k, f);
    }
    if k < |queue| {
      assert queue[..|queue|] == queue;
      PrefixBelowPeak(queue, k, |queue|);
      assert queue[k] in queue;
      var g :| g in queue && Uncovered(queue, g, paid) && g.time.day <= queue[k].time.day;
      assert g.time.day == queue[k].time.day;
    }
  }

  lemma StopsByUncovered(queue: seq<Fields>, paid: int, k: nat, f: Fields)
    requires InTimeOrder(queue) && paid >= 0 && k <= |queue| &&
             (forall n: nat :: 0 < n <= k ==> Prefix(queue, n) <= paid)
    requires f in queue && Uncovered(queue, f, paid)
    ensures k < |queue| && queue[k].time.day <= f.time.day
  {
    var e := RunningTotalIsPrefix(queue, f.time);
    assert Prefix(queue, e) > paid;
    assert e == 0 || k < e;
    assert Prefix(queue, 0) == 0;
  }

  /** In time order, positive amounts first among ties. */
  predicate Ranks(a: Fields, b: Fields) {
    NotAfter(a.time, b.time) && (a.time == b.time && b.total > 0 ==> a.total > 0)
  }

  predicate Ranked(queue: seq<Fields>) { forall i, j :: 0 <= i < j < |queue| ==> Ranks(queue[i], queue[j]) }

  function Insert(queue: seq<Fields>, f: Fields): seq<Fields> {
    if queue == [] then [f] else if Ranks(f, queue[0]) then [f] + queue else [queue[0]] + Insert(queue[1..], f)
  }

  lemma {:induction false} InsertMembers(queue: seq<Fields>, f: Fields)
    ensures multiset(Insert(queue, f)) == multiset(queue) + multiset{f}
    ensures forall g :: g in Insert(queue, f) <==> g in queue || g == f
  {
    if queue != [] {
      assert queue == [queue[0]] + queue[1..];
      if !Ranks(f, queue[0]) { InsertMembers(queue[1..], f); }
    }
  }

  lemma {:induction false} RankedCons(f: Fields, queue: seq<Fields>)
    requires Ranked(queue) && forall g :: g in queue ==> Ranks(f, g)
    ensures Ranked([f] + queue)
  {
  }

  lemma RanksAll(f: Fields, queue: seq<Fields>)
    requires Ranked(queue) && queue != [] && Ranks(f, queue[0])
    ensures forall g :: g in queue ==> Ranks(f, g)
  {
    forall g | g in queue ensures Ranks(f, g) {
      var i :| 0 <= i < |queue| && queue[i] == g;
      if i > 0 { assert Ranks(queue[0], queue[i]); }
    }
  }

  lemma {:induction false} InsertRanked(queue: seq<Fields>, f: Fields)
    requires Ranked(queue)
    ensures Ranked(Insert(queue, f)) && multiset(Insert(queue, f)) == multiset(queue) + multiset{f}
  {
    InsertMembers(queue, f);
    if queue != [] {
      if Ranks(f, queue[0]) {
        RanksAll(f, queue);
        RankedCons(f, queue);
      } else {
        InsertRanked(queue[1..], f);
        InsertMembers(queue[1..], f);
        assert forall g :: g in queue[1..] ==> Ranks(queue[0], g);
        RankedCons(queue[0], Insert(queue[1..], f));
      }
    }
  }

  /** The sales in time order with the positive amounts first among ties. */
  lemma {:induction false} RankedQueue(sales: seq<Fields>) returns (queue: seq<Fields>)
    ensures Ranked(queue) && multiset(queue) == multiset(sales)
  {
    queue := [];
    if sales != [] {
      var last := sales[|sales| - 1];
      var front := RankedQueue(sales[..|sales| - 1]);
      InsertRanked(front, last);
      queue := Insert(front, last);
      assert sales == sales[..|sales| - 1] + [last];
    }
  }

  /** In such a queue each peak is a prefix total. */
  lemma {:induction false} PeakIsPrefix(queue: seq<Fields>, t: Time) returns (e: nat)
    requires Ranked(queue)
    ensures e <= |queue| && Peak(queue, t) == Prefix(queue, e)
    ensures forall i :: 0 <= i < |queue| ==> (i < e <==> InPeak(queue[i], t))
  {
    e := 0;
    if queue != [] {
      var last := |queue| - 1;
      e := PeakIsPrefix(queue[..last], t);
      assert queue[..last][..e] == queue[..e];
      if InPeak(queue[last], t) {
        forall i | 0 <= i < last ensures InPeak(queue[i], t) { assert Ranks(queue[i], queue[last]); }
        e := |queue|;
        assert queue[..e][..last] == queue[..last];
      }
    }
  }

  lemma PeakStopsQueue(queue: seq<Fields>, paid: int, f: Fields)
    requires Ranked(queue) && paid >= 0 && Peak(queue, f.time) > paid
    ensures FirstLeft(queue, paid).Some? && FirstLeft(queue, paid).value <= f.time.day
  {
    var k := FirstLeftAt(queue, paid);
    var e := PeakIsPrefix(queue, f.time);
    assert Prefix(queue, 0) == 0;
    assert k < e;
    assert InPeak(queue[k], f.time);
  }

  ghost predicate AnyOrderAgrees(sales: seq<Fields>, paid: int) {
    forall queue :: multiset(queue) == multiset(sales) && InTimeOrder(queue) ==>
      FirstLeft(queue, paid) == UnpaidDay(sales, sales, paid)
  }

  lemma PeaksOfQueue(sales: seq<Fields>, queue: seq<Fields>, paid: int)
    requires multiset(queue) == multiset(sales) && PeaksUncovered(sales, paid)
    ensures PeaksUncovered(queue, paid)
  {
    forall f | f in queue && Peak(queue, f.time) > paid ensures UncoveredBy(queue, paid, f.time.day) {
      assert f in multiset(queue);
      PeakOrder(queue, sales, f.time);
      var g :| g in sales && Uncovered(sales, g, paid) && g.time.day <= f.time.day;
      assert g in multiset(sales);
      RunningTotalOrder(queue, sales, g.time);
    }
  }

  /**
    Sales and refunds may be tied in any way: every order of the ties agrees with the totals exactly when
    each peak is uncovered.
   */
  lemma TieOrderIrrelevantIff(sales: seq<Fields>, paid: int)
    requires paid >= 0
    ensures AnyOrderAgrees(sales, paid) <==> PeaksUncovered(sales, paid)
  {
    if PeaksUncovered(sales, paid) {
      forall queue | multiset(queue) == multiset(sales) && InTimeOrder(queue)
        ensures FirstLeft(queue, paid) == UnpaidDay(sales, sales, paid)
      {
        PeaksOfQueue(sales, queue, paid);
        QueueAgrees(queue, paid);
        SameSalesSameUnpaidDay(sales, queue, sales, paid, FirstLeft(queue, paid));
        UnpaidDayIsEarliest(sales, sales, paid);
        EarliestIsUnique(sales, sales, paid, UnpaidDay(sales, sales, paid), FirstLeft(queue, paid));
      }
    } else {
      var f :| f in sales && Peak(sales, f.time) > paid && !UncoveredBy(sales, paid, f.time.day);
      var queue := RankedQueue(sales);
      PeakOrder(queue, sales, f.time);
      PeakStopsQueue(queue, paid, f);
      UnpaidDayIsEarliest(sales, sales, paid);
    }
  }

  lemma {:induction false} SameTotalsSameUnpaidDay(all: seq<Fields>, sales: seq<Fields>, part: seq<Fields>, paid: int)
    requires forall f :: f in part ==> RunningTotal(all, f.time) == RunningTotal(sales, f.time)
    ensures UnpaidDay(all, part, paid) == UnpaidDay(sales, part, paid)
  {
    if part != [] { SameTotalsSameUnpaidDay(all, sales, part[..|part| - 1], paid); }
  }

  /** So it is for the query on an account and a day. */
  lemma QueryMatchesAnyOrderIff(txs: seq<Fields>, phone: string, day: int, paid: int)
    requires paid >= 0
    ensures var sales := AccountSales(txs, phone, day);
            (forall queue :: multiset(queue) == multiset(sales) && InTimeOrder(queue) ==>
               UnpaidDay(AllAccountSales(txs, phone), sales, paid) == FirstLeft(queue, paid)) <==>
                 PeaksUncovered(sales, paid)
  {
    var all, sales := AllAccountSales(txs, phone), AccountSales(txs, phone, day);
    AccountSalesDays(txs, phone, day);
    forall f | f in sales ensures RunningTotal(all, f.time) == RunningTotal(sales, f.time) {
      LaterDaysIrrelevant(txs, phone, day, f.time);
    }
    SameTotalsSameUnpaidDay(all, sales, sales, paid);
    TieOrderIrrelevantIff(sales, paid);
  }

  /**
    A refund tied with the sale it takes back: one order stops at the sale, the other and the totals find
    nothing unpaid.
   */
  lemma TiedRefundDependsOnOrder(sale: Fields, refund: Fields, paid: int)
    requires sale.time == refund.time && refund.total < 0 && sale.total > paid >= sale.total + refund.total && paid >= 0
    ensures FirstLeft([sale, refund], paid) == Some(sale.time.day) && FirstLeft([refund, sale], paid) == None
    ensures UnpaidDay([sale, refund], [sale, refund], paid) == None
  {
    var a, b := [sale, refund], [refund, sale];
    assert b[1..] == [sale] && [sale][1..] == [];
    assert FirstLeft([sale], paid - refund.total) == None;
    assert a[..|a| - 1] == [sale] && [sale][..|[sale]| - 1] == [];
    assert RunningTotal([sale], sale.time) == sale.total;
    assert RunningTotal(a, sale.time) == sale.total + refund.total;
    assert !Uncovered(a, sale, paid) && !Uncovered(a, refund, paid);
    assert UnpaidDay(a, [], paid) == None;
    assert UnpaidDay(a, [sale], paid) == None;
  }
}
