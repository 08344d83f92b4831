/** The one-time rewrite of stored customer phones, and what it does to credit accounts. */
module PhoneBackfill {
  import opened Normalization
  import opened Credit
  import Phone

  function Clean(p: string): string { Phone.Canonical(p, Phone.DEFAULT_COUNTRY_CODE) }

  predicate Stale(p: string) { p != "" && Clean(p) != p }

  /** What one row's phone becomes when the value `raw` is rewritten. */
  function Relabel(name: string, raw: string): string { if name == raw then Clean(raw) else name }

  function Occurrences(phones: seq<string>, raw: string): nat {
    if phones == [] then 0
    else Occurrences(phones[..|phones| - 1], raw) + (if phones[|phones| - 1] == raw then 1 else 0)
  }

  /** What a phone becomes when values are rewritten in the given order. */
  function AfterAll(order: seq<string>, name: string): string {
    if order == [] then name else Relabel(AfterAll(order[..|order| - 1], name), order[|order| - 1])
  }

  function Rewritten(order: seq<string>, phones: seq<string>): (r: seq<string>) {
    seq(|phones|, i requires 0 <= i < |phones| => AfterAll(order, phones[i]))
  }

  /** Rows updated, counting a row once for each update that touches it. */
  function Touched(order: seq<string>, phones: seq<string>): nat {
    if order == [] then 0
    else
      Touched(order[..|order| - 1], phones) +
      Occurrences(Rewritten(order[..|order| - 1], phones), order[|order| - 1])
  }

  predicate Distinct(order: seq<string>) { forall i, j :: 0 <= i < j < |order| ==> order[i] != order[j] }

  /** `order` lists each value that has to be rewritten once. */
  ghost predicate Visits(order: seq<string>, phones: seq<string>) {
    Distinct(order) && forall p :: p in order <==> p in phones && Stale(p)
  }

  /** All phones replaced at once. */
  function Cleaned(phones: seq<string>): (r: seq<string>) {
    seq(|phones|, i requires 0 <= i < |phones| => Clean(phones[i]))
  }

  /** What a rewrite of one table's phone column leaves, the values taken in some order. */
  ghost predicate Outcome(phones: seq<string>, now: seq<string>, changed: nat) {
    exists order :: Visits(order, phones) && now == Rewritten(order, phones) && changed == Touched(order, phones)
  }

  /** The values of a column that are not canonical, each with its canonical form. */
  method FindRewrites(phones: seq<string>) returns (rewrites: map<string, string>)
    ensures forall p :: p in rewrites <==> p in phones && Stale(p)
    ensures forall p :: p in rewrites ==> rewrites[p] == Clean(p)
  {
    var distinct := set p | p in phones && p != "";
    rewrites := map[];
    var left := distinct;
    while left != {}
      invariant left <= distinct
      invariant forall p :: p in rewrites <==> p in distinct && p !in left && Stale(p)
      invariant forall p :: p in rewrites ==> rewrites[p] == Clean(p)
      decreases left
    {
      var raw :| raw in left;
      var canonical := Phone.NormalizeCC(raw, Phone.DEFAULT_COUNTRY_CODE);
      if canonical != raw { rewrites := rewrites[raw := canonical]; }
      left := left - {raw};
    }
  }

  lemma OneMoreRewrite(order: seq<string>, phones: seq<string>, raw: string)
    ensures Touched(order + [raw], phones) == Touched(order, phones) + Occurrences(Rewritten(order, phones), raw)
    ensures forall i :: 0 <= i < |phones| ==>
            Rewritten(order + [raw], phones)[i] == Relabel(Rewritten(order, phones)[i], raw)
  {
    assert (order + [raw])[..|order|] == order;
  }

  /** Rewrites one table's phone column, the values taken in no particular order. */
  method RewriteTable(phones: seq<string>) returns (now: seq<string>, changed: nat)
    ensures Outcome(phones, now, changed)
  {
    var rewrites := FindRewrites(phones);
    now, changed := phones, 0;
    ghost var order: seq<string> := [];
    var todo := rewrites.Keys;
    while todo != {}
      invariant todo <= rewrites.Keys
      invariant Distinct(order) && forall p :: p in order <==> p in rewrites && p !in todo
      invariant now == Rewritten(order, phones) && changed == Touched(order, phones)
      decreases todo
    {
      var raw :| raw in todo;
      OneMoreRewrite(order, phones, raw);
      changed := changed + Occurrences(now, raw);
      now := seq(|now|, i requires 0 <= i < |now| => if now[i] == raw then rewrites[raw] else now[i]);
      order := order + [raw];
      todo := todo - {raw};
    }
    assert Visits(order, phones);
  }

  function SalePhones(txs: seq<Fields>): (r: seq<string>) { seq(|txs|, i requires 0 <= i < |txs| => txs[i].phone) }

  function PaymentPhones(payments: seq<Payment>): (r: seq<string>) {
    seq(|payments|, i requires 0 <= i < |payments| => payments[i].phone)
  }

  function WithPhones(txs: seq<Fields>, phones: seq<string>): (r: seq<Fields>)
    requires |phones| == |txs|
  {
    seq(|txs|, i requires 0 <= i < |txs| => txs[i].(phone := phones[i]))
  }

  function PaymentsWithPhones(payments: seq<Payment>, phones: seq<string>): (r: seq<Payment>)
    requires |phones| == |payments|
  {
    seq(|payments|, i requires 0 <= i < |payments| => payments[i].(phone := phones[i]))
  }

  class CustomerTables {
    var sales: seq<Fields>
    var payments: seq<Payment>
    var outstanding: map<(int, string), CreditRow>

    /** The whole backfill, one transaction. */
    method Canonicalize() returns (changed: nat)
      modifies this
      ensures Backfilled(old(sales), old(payments), sales, payments, changed)
      ensures outstanding == if changed > 0 then map[] else old(outstanding)
    {
      var saleNames, n := RewriteTable(SalePhones(sales));
      ghost var before, paid := sales, payments;
      sales := WithPhones(sales, saleNames);
      var payerNames, k := RewriteTable(PaymentPhones(payments));
      payments := PaymentsWithPhones(payments, payerNames);
      changed := n + k;
      assert BackfilledBy(before, paid, sales, payments, saleNames, n, payerNames, k);
      if changed > 0 { outstanding := map[]; }
    }
  }

  /** Both tables with their phones replaced by the outcome of some order of rewrites, and nothing else changed. */
  ghost predicate BackfilledBy(sales: seq<Fields>, payments: seq<Payment>, sales': seq<Fields>, payments': seq<Payment>,
                               saleNames: seq<string>, n: nat, payerNames: seq<string>, k: nat) {
    |saleNames| == |sales| && Outcome(SalePhones(sales), saleNames, n) && sales' == WithPhones(sales, saleNames) &&
    |payerNames| == |payments| && Outcome(PaymentPhones(payments), payerNames, k) &&
      payments' == PaymentsWithPhones(payments, payerNames)
  }

  ghost predicate Backfilled(sales: seq<Fields>, payments: seq<Payment>, sales': seq<Fields>, payments': seq<Payment>,
                             changed: nat) {
    exists saleNames, n: nat, payerNames, k: nat ::
      BackfilledBy(sales, payments, sales', payments', saleNames, n, payerNames, k) && changed == n + k
  }

  // ----- when the order of rewrites does not matter -----

  /** Some value is rewritten to another value that has to be rewritten too. */
  predicate Link(phones: seq<string>, p: string) { Stale(p) && Clean(p) in phones && Stale(Clean(p)) }

  predicate NoChain(phones: seq<string>) { forall p :: p in phones ==> !Link(phones, p) }

  lemma {:induction false} AfterPrefix(order: seq<string>, phones: seq<string>, name: string)
    requires NoChain(phones) && name in phones && Distinct(order) && forall p :: p in order ==> p in phones && Stale(p)
    ensures AfterAll(order, name) == if name in order then Clean(name) else name
  {
    if order != [] {
      var front, last := order[..|order| - 1], order[|order| - 1];
      AfterPrefix(front, phones, name);
      assert !Link(phones, name);
      assert order == front + [last];
    }
  }

  /** A row holding no value in `order` is untouched. */
  lemma {:induction false} Untouched(order: seq<string>, name: string)
    requires name !in order
    ensures AfterAll(order, name) == name
  {
    if order != [] { Untouched(order[..|order| - 1], name); }
  }

  lemma {:induction false} Enumerate(values: set<string>) returns (order: seq<string>)
    ensures Distinct(order) && forall p :: p in order <==> p in values
    decreases values
  {
    if values == {} { return []; }
    var p :| p in values;
    var rest := Enumerate(values - {p});
    return rest + [p];
  }

  /** Taking a chain in the order it runs carries the first value past its canonical form. */
  lemma ChainDiverges(phones: seq<string>, p: string) returns (order: seq<string>)
    requires p in phones && Link(phones, p)
    ensures Visits(order, phones) && AfterAll(order, p) != Clean(p)
  {
    var q := Clean(p);
    var front := Enumerate(set x | x in phones && Stale(x) && x != p && x != q);
    order := front + [p, q];
    VisitsWithLast(phones, front, p, q);
    Untouched(front, p);
    AfterOneMore(front, p, p);
    AfterOneMore(front + [p], q, p);
    assert order == front + [p] + [q];
  }

  lemma AfterOneMore(order: seq<string>, raw: string, name: string)
    ensures AfterAll(order + [raw], name) == Relabel(AfterAll(order, name), raw)
  {
    assert (order + [raw])[..|order|] == order;
  }

  lemma VisitsWithLast(phones: seq<string>, front: seq<string>, p: string, q: string)
    requires Distinct(front) && p != q && p in phones && q in phones && Stale(p) && Stale(q)
    requires forall x :: x in front <==> x in phones && Stale(x) && x != p && x != q
    ensures Visits(front + [p, q], phones)
  {
    var order := front + [p, q];
    assert forall x :: x in order <==> x in front || x == p || x == q;
    assert forall i :: 0 <= i < |front| ==> front[i] in front;
  }

  /**
    Every order of rewrites gives the simultaneous substitution exactly when no rewritten value is itself
    rewritten.
   */
  lemma OrderIrrelevantIff(phones: seq<string>)
    ensures NoChain(phones) <==> forall order :: Visits(order, phones) ==> Rewritten(order, phones) == Cleaned(phones)
  {
    if NoChain(phones) {
      forall order | Visits(order, phones)
        ensures Rewritten(order, phones) == Cleaned(phones)
      {
        OneSubstitution(order, phones);
      }
    } else {
      var p :| p in phones && Link(phones, p);
      var order := ChainDiverges(phones, p);
      var i :| 0 <= i < |phones| && phones[i] == p;
      assert Rewritten(order, phones)[i] != Cleaned(phones)[i];
    }
  }

  lemma CleanEmpty()
    ensures Clean("") == ""
  {
  }

  lemma OneSubstitution(order: seq<string>, phones: seq<string>)
    requires NoChain(phones) && Visits(order, phones)
    ensures Rewritten(order, phones) == Cleaned(phones)
  {
    CleanEmpty();
    forall i | 0 <= i < |phones|
      ensures AfterAll(order, phones[i]) == Clean(phones[i])
    {
      AfterPrefix(order, phones, phones[i]);
    }
  }

  // ----- which rows count as changed -----

  function StaleRows(phones: seq<string>): nat {
    if phones == [] then 0 else StaleRows(phones[..|phones| - 1]) + (if Stale(phones[|phones| - 1]) then 1 else 0)
  }

  /** How many rows hold one of the values in `order`. */
  function Holding(order: seq<string>, phones: seq<string>): nat {
    if phones == [] then 0
    else Holding(order, phones[..|phones| - 1]) + (if phones[|phones| - 1] in order then 1 else 0)
  }

  lemma {:induction false} HoldingStep(order: seq<string>, raw: string, phones: seq<string>)
    requires raw !in order
    ensures Holding(order + [raw], phones) == Holding(order, phones) + Occurrences(phones, raw)
  {
    if phones != [] { HoldingStep(order, raw, phones[..|phones| - 1]); }
  }

  lemma {:induction false} OccurrencesKept(before: seq<string>, after: seq<string>, raw: string)
    requires |before| == |after| && forall i :: 0 <= i < |before| ==> (before[i] == raw <==> after[i] == raw)
    ensures Occurrences(before, raw) == Occurrences(after, raw)
  {
    if before != [] { OccurrencesKept(before[..|before| - 1], after[..|after| - 1], raw); }
  }

  lemma {:induction false} TouchedIsHolding(order: seq<string>, phones: seq<string>)
    requires NoChain(phones) && Distinct(order) && forall p :: p in order ==> p in phones && Stale(p)
    ensures Touched(order, phones) == Holding(order, phones)
  {
    if order == [] {
      HoldingNone(phones);
    } else {
      var front, last := order[..|order| - 1], order[|order| - 1];
      assert order == front + [last];
      TouchedIsHolding(front, phones);
      var mid := Rewritten(front, phones);
      forall i | 0 <= i < |phones| ensures phones[i] == last <==> mid[i] == last {
        AfterPrefix(front, phones, phones[i]);
        assert !Link(phones, phones[i]);
      }
      OccurrencesKept(phones, mid, last);
      HoldingStep(front, last, phones);
    }
  }

  lemma {:induction false} HoldingNone(phones: seq<string>)
    ensures Holding([], phones) == 0
  {
    if phones != [] { HoldingNone(phones[..|phones| - 1]); }
  }

  lemma {:induction false} HoldingStale(order: seq<string>, phones: seq<string>)
    requires forall p :: p in phones ==> (p in order <==> Stale(p))
    ensures Holding(order, phones) == StaleRows(phones)
  {
    if phones != [] {
      assert phones[|phones| - 1] in phones;
      HoldingStale(order, phones[..|phones| - 1]);
    }
  }

  /** Without chains the count reported is the number of rows not yet canonical. */
  lemma ChangedIsStaleRows(order: seq<string>, phones: seq<string>)
    requires NoChain(phones) && Visits(order, phones)
    ensures Touched(order, phones) == StaleRows(phones)
  {
    TouchedIsHolding(order, phones);
    HoldingStale(order, phones);
  }

  lemma {:induction false} OccursWhenPresent(phones: seq<string>, raw: string)
    ensures Occurrences(phones, raw) > 0 <==> raw in phones
  {
    if phones != [] { OccursWhenPresent(phones[..|phones| - 1], raw); }
  }

  lemma {:induction false} TouchedGrows(order: seq<string>, phones: seq<string>)
    requires order != []
    ensures Touched(order, phones) >= Touched(order[..1], phones)
  {
    if |order| > 1 {
      TouchedGrows(order[..|order| - 1], phones);
      assert order[..|order| - 1][..1] == order[..1];
    } else {
      assert order[..1] == order;
    }
  }

  /** Chains or not, zero is reported exactly when every stored phone was canonical. */
  lemma NothingChangedIff(order: seq<string>, phones: seq<string>)
    requires Visits(order, phones)
    ensures Touched(order, phones) == 0 <==> forall p :: p in phones ==> !Stale(p)
  {
    if order != [] {
      var first := order[0];
      assert first in order;
      OccursWhenPresent(phones, first);
      assert order[..1][..0] == [] && Rewritten([], phones) == phones;
      assert Touched(order[..1], phones) == Occurrences(phones, first);
      TouchedGrows(order, phones);
    }
  }

  // ----- data without triple zeros -----

  /** Spelled with a triple zero in front of a number still long enough to dial. */
  predicate TripleZero(p: string) { Phone.ZerosRemain(p, Phone.DEFAULT_COUNTRY_CODE) }

  lemma CleanTwiceIff(p: string)
    ensures Clean(Clean(p)) == Clean(p) <==> !TripleZero(p)
  {
    assert Phone.DEFAULT_COUNTRY_CODE[0] == '9';
    Phone.IdempotentIff(p, Phone.DEFAULT_COUNTRY_CODE);
  }

  /** After one simultaneous substitution every phone is canonical exactly when none had a triple zero. */
  lemma CleanedIsCanonicalIff(phones: seq<string>)
    ensures StaleRows(Cleaned(phones)) == 0 <==> forall p :: p in phones ==> !TripleZero(p)
  {
    CleanEmpty();
    NoStaleRows(Cleaned(phones));
    forall i | 0 <= i < |phones|
      ensures Stale(Cleaned(phones)[i]) <==> TripleZero(phones[i])
    {
      CleanTwiceIff(phones[i]);
    }
    if q :| q in Cleaned(phones) && Stale(q) {
      var i :| 0 <= i < |phones| && Cleaned(phones)[i] == q;
      assert phones[i] in phones;
    }
    if p :| p in phones && TripleZero(p) {
      var i :| 0 <= i < |phones| && phones[i] == p;
      assert Cleaned(phones)[i] in Cleaned(phones);
    }
  }

  lemma {:induction false} NoStaleRows(phones: seq<string>)
    ensures StaleRows(phones) == 0 <==> forall p :: p in phones ==> !Stale(p)
  {
    if phones != [] {
      var front, last := phones[..|phones| - 1], phones[|phones| - 1];
      assert phones == front + [last];
      NoStaleRows(front);
    }
  }

  /** Rewriting a triple zero last leaves it short of canonical, whatever else is stored. */
  lemma TripleZeroLast(phones: seq<string>, p: string) returns (order: seq<string>)
    requires p in phones && TripleZero(p)
    ensures Visits(order, phones) && StaleRows(Rewritten(order, phones)) > 0
  {
    CleanTwiceIff(p);
    CleanEmpty();
    var front := Enumerate(set x | x in phones && Stale(x) && x != p);
    order := front + [p];
    assert Visits(order, phones) by { assert forall i :: 0 <= i < |front| ==> front[i] in front; }
    Untouched(front, p);
    AfterOneMore(front, p, p);
    var i :| 0 <= i < |phones| && phones[i] == p;
    assert Rewritten(order, phones)[i] == Clean(p) && Stale(Clean(p));
    assert Clean(p) in Rewritten(order, phones);
    NoStaleRows(Rewritten(order, phones));
  }

  /** A second run is left nothing to do in every order of the first exactly when no stored phone had a triple zero. */
  lemma SecondRunIdleIff(phones: seq<string>)
    ensures (forall order :: Visits(order, phones) ==> StaleRows(Rewritten(order, phones)) == 0) <==>
            forall p :: p in phones ==> !TripleZero(p)
  {
    if forall p :: p in phones ==> !TripleZero(p) {
      TripleZeroFreeHasNoChain(phones);
      CleanedIsCanonicalIff(phones);
      forall order | Visits(order, phones)
        ensures StaleRows(Rewritten(order, phones)) == 0
      {
        OneSubstitution(order, phones);
      }
    } else {
      var p :| p in phones && TripleZero(p);
      var order := TripleZeroLast(phones, p);
    }
  }

  lemma HasFirst(order: seq<string>)
    ensures order != [] ==> exists p :: p in order
  {
    if order != [] { assert order[0] in order; }
  }

  /** A run over a column that is canonical throughout changes nothing. */
  lemma CanonicalOutcome(phones: seq<string>, now: seq<string>, changed: nat)
    requires StaleRows(phones) == 0 && Outcome(phones, now, changed)
    ensures now == phones && changed == 0
  {
    NoStaleRows(phones);
    var order :| Visits(order, phones) && now == Rewritten(order, phones) && changed == Touched(order, phones);
    HasFirst(order);
    assert order == [];
  }

  /** What one run leaves in a column without triple zeros is canonical. */
  lemma OutcomeIsCanonical(phones: seq<string>, now: seq<string>, changed: nat)
    requires (forall p :: p in phones ==> !TripleZero(p)) && Outcome(phones, now, changed)
    ensures StaleRows(now) == 0
  {
    SecondRunIdleIff(phones);
  }

  /**
    Without triple zeros, a second backfill reports zero and leaves both tables as they are, whatever order
    either run took.
   */
  lemma SecondBackfillChangesNothing(txs: seq<Fields>, payments: seq<Payment>, txs': seq<Fields>,
                                     payments': seq<Payment>, changed: nat,
                                     txs'': seq<Fields>, payments'': seq<Payment>, changed': nat)
    requires forall p :: p in SalePhones(txs) + PaymentPhones(payments) ==> !TripleZero(p)
    requires Backfilled(txs, payments, txs', payments', changed) &&
             Backfilled(txs', payments', txs'', payments'', changed')
    ensures txs'' == txs' && payments'' == payments' && changed' == 0
  {
    var saleNames, n: nat, payerNames, k: nat :|
      BackfilledBy(txs, payments, txs', payments', saleNames, n, payerNames, k) && changed == n + k;
    OutcomeIsCanonical(SalePhones(txs), saleNames, n);
    OutcomeIsCanonical(PaymentPhones(payments), payerNames, k);
    assert SalePhones(txs') == saleNames && PaymentPhones(payments') == payerNames;
    var saleNames', n': nat, payerNames', k': nat :|
      BackfilledBy(txs', payments', txs'', payments'', saleNames', n', payerNames', k') && changed' == n' + k';
    CanonicalOutcome(saleNames, saleNames', n');
    CanonicalOutcome(payerNames, payerNames', k');
  }

  lemma TripleZeroFreeHasNoChain(phones: seq<string>)
    requires forall p :: p in phones ==> !TripleZero(p)
    ensures NoChain(phones)
  {
    forall p | p in phones ensures !Link(phones, p) { CleanTwiceIff(p); }
  }

  /** A triple zero stored beside its own canonical form makes the result depend on the order. */
  lemma TripleZeroChains(p: string)
    requires TripleZero(p)
    ensures !NoChain([p, Clean(p)])
  {
    CleanTwiceIff(p);
    CleanEmpty();
    assert Link([p, Clean(p)], p);
  }

  // ----- merged accounts -----

  function Balance(txs: seq<Fields>, payments: seq<Payment>, phone: string, day: int): int {
    Total(AccountSales(txs, phone, day)) - Paid(payments, phone, day)
  }

  function SalesOver(txs: seq<Fields>, names: seq<string>, day: int): int {
    if names == [] then 0
    else SalesOver(txs, names[..|names| - 1], day) + Total(AccountSales(txs, names[|names| - 1], day))
  }

  function PaidOver(payments: seq<Payment>, names: seq<string>, day: int): int {
    if names == [] then 0 else PaidOver(payments, names[..|names| - 1], day) + Paid(payments, names[|names| - 1], day)
  }

  function BalancesOver(txs: seq<Fields>, payments: seq<Payment>, names: seq<string>, day: int): int {
    if names == [] then 0
    else BalancesOver(txs, payments, names[..|names| - 1], day) + Balance(txs, payments, names[|names| - 1], day)
  }

  function SaleAmount(f: Fields, phone: string, day: int): int {
    if OnAccount(f, phone) && f.time.day <= day then f.total else 0
  }

  lemma AccountSalesStep(txs: seq<Fields>, phone: string, day: int)
    requires txs != []
    ensures Total(AccountSales(txs, phone, day)) ==
            Total(AccountSales(txs[..|txs| - 1], phone, day)) + SaleAmount(txs[|txs| - 1], phone, day)
  {
    var front := AccountSales(txs[..|txs| - 1], phone, day);
    assert (front + [txs[|txs| - 1]])[..|front|] == front;
    assert front + [] == front;
  }

  lemma {:induction false} SalesOverStep(txs: seq<Fields>, names: seq<string>, day: int)
    requires txs != [] && Distinct(names)
    ensures var last := txs[|txs| - 1];
            SalesOver(txs, names, day) ==
              SalesOver(txs[..|txs| - 1], names, day) +
              (if last.phone in names then SaleAmount(last, last.phone, day) else 0)
  {
    if names != [] {
      var front, name := names[..|names| - 1], names[|names| - 1];
      assert names == front + [name];
      SalesOverStep(txs, front, day);
      AccountSalesStep(txs, name, day);
    }
  }

  lemma {:induction false} PaidOverStep(payments: seq<Payment>, names: seq<string>, day: int)
    requires payments != [] && Distinct(names)
    ensures var last := payments[|payments| - 1];
            PaidOver(payments, names, day) ==
            PaidOver(payments[..|payments| - 1], names, day) +
              (if last.phone in names && last.paidOn <= day then last.amount else 0)
  {
    if names != [] {
      var front, name := names[..|names| - 1], names[|names| - 1];
      assert names == front + [name];
      PaidOverStep(payments, front, day);
    }
  }

  /** `names` are the spellings of account `q` found among `phones`, each once. */
  ghost predicate Spellings(names: seq<string>, phones: seq<string>, q: string) {
    Distinct(names) && (forall p :: p in names ==> Clean(p) == q) &&
      forall p :: p in phones && Clean(p) == q ==> p in names
  }

  lemma {:induction false} SalesMerge(txs: seq<Fields>, names: seq<string>, q: string, day: int)
    requires q != "" && Spellings(names, SalePhones(txs), q)
    ensures Total(AccountSales(WithPhones(txs, Cleaned(SalePhones(txs))), q, day)) == SalesOver(txs, names, day)
  {
    var merged := WithPhones(txs, Cleaned(SalePhones(txs)));
    if txs == [] {
      NothingSold(names, day);
    } else {
      var n := |txs| - 1;
      var front := txs[..n];
      assert merged[..n] == WithPhones(front, Cleaned(SalePhones(front)));
      assert SalePhones(txs)[..n] == SalePhones(front);
      SalesMerge(front, names, q, day);
      AccountSalesStep(merged, q, day);
      SalesOverStep(txs, names, day);
      assert SalePhones(txs)[n] == txs[n].phone;
      CleanEmpty();
    }
  }

  lemma {:induction false} NothingSold(names: seq<string>, day: int)
    ensures SalesOver([], names, day) == 0 && PaidOver([], names, day) == 0
  {
    if names != [] { NothingSold(names[..|names| - 1], day); }
  }

  lemma {:induction false} PaymentsMerge(payments: seq<Payment>, names: seq<string>, q: string, day: int)
    requires Spellings(names, PaymentPhones(payments), q)
    ensures Paid(PaymentsWithPhones(payments, Cleaned(PaymentPhones(payments))), q, day) ==
            PaidOver(payments, names, day)
  {
    var merged := PaymentsWithPhones(payments, Cleaned(PaymentPhones(payments)));
    if payments == [] {
      NothingSold(names, day);
    } else {
      var n := |payments| - 1;
      var front := payments[..n];
      assert merged[..n] == PaymentsWithPhones(front, Cleaned(PaymentPhones(front)));
      assert PaymentPhones(payments)[..n] == PaymentPhones(front);
      PaymentsMerge(front, names, q, day);
      PaidOverStep(payments, names, day);
      assert PaymentPhones(payments)[n] == payments[n].phone;
    }
  }

  lemma {:induction false} BalancesSplit(txs: seq<Fields>, payments: seq<Payment>, names: seq<string>, day: int)
    ensures BalancesOver(txs, payments, names, day) == SalesOver(txs, names, day) - PaidOver(payments, names, day)
  {
    if names != [] { BalancesSplit(txs, payments, names[..|names| - 1], day); }
  }

  /** Without chains, each account's balance after the backfill is the sum over its spellings before. */
  lemma BackfillMergesBalances(txs: seq<Fields>, payments: seq<Payment>, txs': seq<Fields>, payments': seq<Payment>,
                               changed: nat, names: seq<string>, q: string, day: int)
    requires Backfilled(txs, payments, txs', payments', changed)
    requires NoChain(SalePhones(txs)) && NoChain(PaymentPhones(payments))
    requires q != "" && Spellings(names, SalePhones(txs) + PaymentPhones(payments), q)
    ensures Balance(txs', payments', q, day) == BalancesOver(txs, payments, names, day)
    ensures changed == StaleRows(SalePhones(txs)) + StaleRows(PaymentPhones(payments))
  {
    var saleNames, n: nat, payerNames, k: nat :|
      BackfilledBy(txs, payments, txs', payments', saleNames, n, payerNames, k) && changed == n + k;
    OutcomeIsCleaned(SalePhones(txs), saleNames, n);
    OutcomeIsCleaned(PaymentPhones(payments), payerNames, k);
    SalesMerge(txs, names, q, day);
    PaymentsMerge(payments, names, q, day);
    BalancesSplit(txs, payments, names, day);
  }

  /** Without chains a table ends with every phone canonical at once, and the count is the rows that were not. */
  lemma OutcomeIsCleaned(phones: seq<string>, now: seq<string>, changed: nat)
    requires NoChain(phones) && Outcome(phones, now, changed)
    ensures now == Cleaned(phones) && changed == StaleRows(phones)
  {
    var order :| Visits(order, phones) && now == Rewritten(order, phones) && changed == Touched(order, phones);
    OneSubstitution(order, phones);
    ChangedIsStaleRows(order, phones);
  }
}
