/**
  What the rows of the mart mean, told from the books alone: sums over the sales, payments and prices
  that bear on a row.
 */
module Ledger {
  import opened Common
  import opened Normalization
  import opened Prices
  import opened Credit
  import Phone

  function Sum(amounts: seq<int>): int {
    if amounts == [] then 0 else Sum(amounts[..|amounts| - 1]) + amounts[|amounts| - 1]
  }

  lemma SumStep(amounts: seq<int>, last: int)
    ensures Sum(amounts + [last]) == Sum(amounts) + last
  {
    assert (amounts + [last])[..|amounts|] == amounts;
  }

  // ----- accounts -----

  /** Sale `f` is a credit sale of this customer on or before the day. */
  predicate Owed(f: Fields, phone: string, day: int) {
    f.payment == "CREDIT" && f.phone == phone && phone != "" && f.time.day <= day
  }

  function OwedAmounts(sales: seq<Fields>, phone: string, day: int): seq<int> {
    seq(|sales|, i requires 0 <= i < |sales| => if Owed(sales[i], phone, day) then sales[i].total else 0)
  }

  function OwedSales(sales: seq<Fields>, phone: string, day: int): set<nat> {
    set i: nat | i < |sales| && Owed(sales[i], phone, day)
  }

  function PaidAmounts(payments: seq<Payment>, phone: string, day: int): seq<int> {
    seq(|payments|, i requires 0 <= i < |payments| =>
      if payments[i].phone == phone && payments[i].paidOn <= day then payments[i].amount else 0)
  }

  predicate BoughtOnCredit(sales: seq<Fields>, phone: string, day: int) {
    exists i :: 0 <= i < |sales| && Owed(sales[i], phone, day)
  }

  /** The day counted from is that of a sale of the account not yet paid for. */
  predicate CountedFrom(sales: seq<Fields>, phone: string, day: int, overdue: int) {
    exists i :: 0 <= i < |sales| && Owed(sales[i], phone, day) && overdue == day - sales[i].time.day
  }

  /** The account's credit sales less its payments, both up to the day, and how many sales there are. */
  predicate IsBalance(sales: seq<Fields>, payments: seq<Payment>, phone: string, day: int, r: CreditRow) {
    r.outstanding == Sum(OwedAmounts(sales, phone, day)) - Sum(PaidAmounts(payments, phone, day)) &&
    r.count == |OwedSales(sales, phone, day)| &&
    (if r.outstanding <= 0 then r.daysOverdue == 0 else CountedFrom(sales, phone, day, r.daysOverdue))
  }

  lemma OwedStep(front: seq<Fields>, last: Fields, phone: string, day: int)
    ensures var amount := if Owed(last, phone, day) then last.total else 0;
            OwedAmounts(front + [last], phone, day) == OwedAmounts(front, phone, day) + [amount] &&
            Sum(OwedAmounts(front + [last], phone, day)) == Sum(OwedAmounts(front, phone, day)) + amount
    ensures OwedSales(front + [last], phone, day) ==
            OwedSales(front, phone, day) + if Owed(last, phone, day) then {|front|} else {}
  {
    var amount := if Owed(last, phone, day) then last.total else 0;
    assert OwedAmounts(front + [last], phone, day) == OwedAmounts(front, phone, day) + [amount];
    SumStep(OwedAmounts(front, phone, day), amount);
  }

  lemma BoughtStep(front: seq<Fields>, last: Fields, phone: string, day: int)
    ensures BoughtOnCredit(front + [last], phone, day) <==> BoughtOnCredit(front, phone, day) || Owed(last, phone, day)
  {
    var sales := front + [last];
    assert sales[|front|] == last && forall i :: 0 <= i < |front| ==> sales[i] == front[i];
    if i :| 0 <= i < |front| && Owed(front[i], phone, day) { assert Owed(sales[i], phone, day); }
  }

  lemma AccountStep(front: seq<Fields>, last: Fields, phone: string, day: int)
    ensures AccountSales(front + [last], phone, day) ==
            if Owed(last, phone, day) then AccountSales(front, phone, day) + [last] else AccountSales(front, phone, day)
  {
    assert (front + [last])[..|front|] == front;
  }

  lemma TotalStep(sales: seq<Fields>, last: Fields)
    ensures Total(sales + [last]) == Total(sales) + last.total
  {
    assert (sales + [last])[..|sales|] == sales;
  }

  lemma {:induction false} SalesCounted(sales: seq<Fields>, phone: string, day: int)
    ensures |AccountSales(sales, phone, day)| == |OwedSales(sales, phone, day)|
    ensures AccountSales(sales, phone, day) != [] <==> BoughtOnCredit(sales, phone, day)
  {
    if sales != [] {
      var front, last := sales[..|sales| - 1], sales[|sales| - 1];
      assert sales == front + [last];
      SalesCounted(front, phone, day);
      OwedStep(front, last, phone, day);
      BoughtStep(front, last, phone, day);
      AccountStep(front, last, phone, day);
    }
  }

  lemma {:induction false} SalesAddUp(sales: seq<Fields>, phone: string, day: int)
    ensures Total(AccountSales(sales, phone, day)) == Sum(OwedAmounts(sales, phone, day))
  {
    if sales != [] {
      var front, last := sales[..|sales| - 1], sales[|sales| - 1];
      assert sales == front + [last];
      SalesAddUp(front, phone, day);
      OwedStep(front, last, phone, day);
      AccountStep(front, last, phone, day);
      if Owed(last, phone, day) { TotalStep(AccountSales(front, phone, day), last); }
    }
  }

  lemma {:induction false} AccountSaleOwed(sales: seq<Fields>, phone: string, day: int, f: Fields)
    requires f in AccountSales(sales, phone, day)
    ensures f in sales && Owed(f, phone, day)
  {
    var front, last := sales[..|sales| - 1], sales[|sales| - 1];
    if f in AccountSales(front, phone, day) { AccountSaleOwed(front, phone, day, f); }
  }

  lemma {:induction false} PaymentsAddUp(payments: seq<Payment>, phone: string, day: int)
    ensures Paid(payments, phone, day) == Sum(PaidAmounts(payments, phone, day))
  {
    if payments != [] {
      var front, last := payments[..|payments| - 1], payments[|payments| - 1];
      assert payments == front + [last];
      PaymentsAddUp(front, phone, day);
      PaidStep(front, last, phone, day);
    }
  }

  /** The credit query's row is the account's balance; there is one exactly when something was bought on credit. */
  lemma QueryRowIsBalance(sales: seq<Fields>, payments: seq<Payment>, phone: string, day: int)
    ensures var r := QueryRow(sales, payments, phone, day);
            (r.Some? <==> BoughtOnCredit(sales, phone, day)) &&
            (r.Some? ==> IsBalance(sales, payments, phone, day, r.value))
  {
    SalesAddUp(sales, phone, day);
    SalesCounted(sales, phone, day);
    PaymentsAddUp(payments, phone, day);
    var r := QueryRow(sales, payments, phone, day);
    if r.Some? && r.value.outstanding > 0 {
      var own := AccountSales(sales, phone, day);
      var paid := Paid(payments, phone, day);
      var all := AllAccountSales(sales, phone);
      PositiveBalanceHasUnpaidDay(sales, phone, day, paid);
      UnpaidDayIsEarliest(all, own, paid);
      var f :| f in own && f.time.day == UnpaidDay(all, own, paid).value;
      AccountSaleOwed(sales, phone, day, f);
      var i :| 0 <= i < |sales| && sales[i] == f;
      assert Owed(sales[i], phone, day);
    }
  }

  /** With a positive balance the days are counted from the sale left unpaid when paying off oldest first. */
  lemma OverdueFromOldestLeft(sales: seq<Fields>, payments: seq<Payment>, phone: string, day: int, queue: seq<Fields>)
    requires multiset(queue) == multiset(AccountSales(sales, phone, day))
    requires InTimeOrder(queue) && TiesNonNegative(queue)
    requires Sum(PaidAmounts(payments, phone, day)) >= 0
    requires Sum(OwedAmounts(sales, phone, day)) > Sum(PaidAmounts(payments, phone, day))
    ensures var r := QueryRow(sales, payments, phone, day);
            var d := FirstLeft(queue, Sum(PaidAmounts(payments, phone, day)));
            r.Some? && d.Some? && r.value.daysOverdue == day - d.value
  {
    SalesAddUp(sales, phone, day);
    SalesCounted(sales, phone, day);
    PaymentsAddUp(payments, phone, day);
    QueryIsOldestFirst(sales, phone, day, Paid(payments, phone, day), queue);
    PositiveBalanceHasUnpaidDay(sales, phone, day, Paid(payments, phone, day));
  }

  // ----- payments -----

  class PaymentBook {
    var payments: seq<Payment>

    /** Stores a repayment under the customer's canonical number; one of nothing or less is refused. */
    method RecordCreditPayment(phone: string, paidOn: int, amount: int) returns (r: Result<()>)
      modifies this
      ensures r.Ok? <==> amount > 0
      ensures payments == old(payments) +
              if amount > 0 then [Payment(Phone.Canonical(phone, "92"), paidOn, amount)] else []
    {
      if amount <= 0 { return Err("a payment must be more than zero"); }
      var customer := Phone.NormalizeCC(phone, Phone.DEFAULT_COUNTRY_CODE);
      payments := payments + [Payment(customer, paidOn, amount)];
      return Ok(());
    }
  }

  /** A payment lowers exactly its customer's balance, by its amount, from its day on; and no count. */
  lemma PaymentLowersBalance(sales: seq<Fields>, payments: seq<Payment>, p: Payment, phone: string, day: int)
    ensures var before, after := QueryRow(sales, payments, phone, day), QueryRow(sales, payments + [p], phone, day);
            (before.Some? <==> after.Some?) &&
            (before.Some? ==>
               after.value.count == before.value.count &&
               after.value.outstanding ==
                 before.value.outstanding - (if p.phone == phone && p.paidOn <= day then p.amount else 0))
  {
    QueryRowIsBalance(sales, payments, phone, day);
    QueryRowIsBalance(sales, payments + [p], phone, day);
    PaidStep(payments, p, phone, day);
  }

  lemma PaidStep(payments: seq<Payment>, p: Payment, phone: string, day: int)
    ensures Sum(PaidAmounts(payments + [p], phone, day)) ==
            Sum(PaidAmounts(payments, phone, day)) + if p.phone == phone && p.paidOn <= day then p.amount else 0
  {
    var amount := if p.phone == phone && p.paidOn <= day then p.amount else 0;
    assert PaidAmounts(payments + [p], phone, day) == PaidAmounts(payments, phone, day) + [amount];
    SumStep(PaidAmounts(payments, phone, day), amount);
  }

  // ----- groups -----

  function Volumes(sales: seq<Fields>, product: string, day: int): seq<int> {
    seq(|sales|, i requires 0 <= i < |sales| => if InGroup(sales[i], product, day) then sales[i].milliliters else 0)
  }

  function Takings(sales: seq<Fields>, product: string, day: int): seq<int> {
    seq(|sales|, i requires 0 <= i < |sales| => if InGroup(sales[i], product, day) then sales[i].total else 0)
  }

  predicate InGroup(f: Fields, product: string, day: int) { f.product == product && f.time.day == day }

  function GroupSales(sales: seq<Fields>, product: string, day: int): set<nat> {
    set i: nat | i < |sales| && InGroup(sales[i], product, day)
  }

  // ----- costs -----

  /** No price of the product has taken effect by the day. */
  predicate Unpriced(prices: seq<Price>, product: string, day: int) {
    forall p :: p in prices ==> p.product != product || p.from > day
  }

  /** `p` has taken effect by the day, and no other price of the product took effect later. */
  predicate LatestPrice(prices: seq<Price>, product: string, day: int, p: Price) {
    p in prices && p.product == product && p.from <= day &&
    forall q :: q in prices && q.product == product && q.from <= day ==> q.from <= p.from
  }

  lemma CostIsLatestPrice(prices: seq<Price>, product: string, day: int)
    ensures CostOn(prices, product, day).None? <==> Unpriced(prices, product, day)
    ensures CostOn(prices, product, day).Some? ==>
            exists p :: LatestPrice(prices, product, day, p) && CostOn(prices, product, day) == Some(p.cost)
  {
    InForceIsLatest(prices, product, day);
    var p := InForce(prices, product, day);
    if p.Some? {
      assert Applies(p.value, product, day);
      forall q | q in prices && q.product == product && q.from <= day ensures q.from <= p.value.from {
        assert Applies(q, product, day);
      }
      assert LatestPrice(prices, product, day, p.value);
    } else {
      forall q | q in prices ensures q.product != product || q.from > day { assert !Applies(q, product, day); }
    }
  }
}
