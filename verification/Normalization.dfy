/**
  Turning one raw point-of-sale row into a transaction: product aliases, decimals, data-quality
  flags and timestamps. Money is in paisa, volume in millilitres.
 */
module Normalization {
  import opened Common
  import opened Text
  import Phone

  /** A business day and the second within it; one station uses one clock. */
  datatype Time = Time(day: int, second: int)

  predicate NotAfter(a: Time, b: Time) { a.day < b.day || (a.day == b.day && a.second <= b.second) }

  /** A raw row as its payload reads; a column that cannot be read is None. `text` is the payload itself. */
  datatype RawRow = RawRow(
    text: string, source: string, ext: string, alias: string,
    milliliters: Option<int>, unitPrice: Option<int>, total: Option<int>,
    payment: string, phone: string, time: Option<Time>)

  /** What a transaction records about a sale. */
  datatype Fields = Fields(
    product: string, milliliters: int, unitPrice: int, total: int, payment: string, phone: string, time: Time,
    totalMismatch: bool, negativeQuantity: bool)

  function Abs(n: int): int { if n < 0 then -n else n }

  /** Total within one rupee or half a per cent of quantity times price; both sides in thousandths of a paisa. */
  predicate AmountsAgree(milliliters: int, unitPrice: int, total: int) {
    var difference := Abs(milliliters * unitPrice - 1000 * total);
    difference <= 100_000 || difference <= 5 * Abs(total)
  }

  /** The alias as written, then in lower case. */
  function ProductOf(alias: string, aliases: map<string, string>): Option<string> {
    if alias in aliases then Some(aliases[alias])
    else if ToLower(alias) in aliases then Some(aliases[ToLower(alias)])
    else None
  }

  function NormalizeRow(row: RawRow, aliases: map<string, string>): Option<Fields> {
    var product := ProductOf(row.alias, aliases);
    if product.None? || row.milliliters.None? || row.unitPrice.None? || row.total.None? || row.time.None? then None
    else
      var (q, p, t) := (row.milliliters.value, row.unitPrice.value, row.total.value);
      Some(Fields(product.value, q, p, t, row.payment, Phone.Canonical(row.phone, Phone.DEFAULT_COUNTRY_CODE),
        row.time.value, !AmountsAgree(q, p, t), q < 0))
  }

  // ----- what a transaction records -----

  /** Volume times price is off the total by more than a rupee and by more than half a per cent of it. */
  predicate OffBy(milliliters: int, unitPrice: int, total: int) {
    var d := milliliters * unitPrice - 1000 * total;
    (d > 100_000 || d < -100_000) && (d > 5 * Abs(total) || d < -5 * Abs(total))
  }

  /** The transaction says what the row says, column by column, and is flagged exactly when the row is suspect. */
  predicate Records(row: RawRow, f: Fields) {
    row.milliliters == Some(f.milliliters) && row.unitPrice == Some(f.unitPrice) && row.total == Some(f.total) &&
    f.payment == row.payment && row.time == Some(f.time) && f.phone == Phone.Canonical(row.phone, "92") &&
    (f.totalMismatch <==> OffBy(f.milliliters, f.unitPrice, f.total)) && (f.negativeQuantity <==> f.milliliters < 0)
  }

  lemma NormalizedRecordsRow(row: RawRow, aliases: map<string, string>)
    ensures var f := NormalizeRow(row, aliases); f.Some? ==> Records(row, f.value)
  {
  }

  /** A rupee is allowed up to a total of two hundred rupees, half a per cent beyond; to the paisa's thousandth. */
  lemma ToleranceIs(milliliters: int, unitPrice: int, total: int)
    ensures var d := milliliters * unitPrice - 1000 * total;
            AmountsAgree(milliliters, unitPrice, total) <==>
              if -20_000 <= total <= 20_000 then -100_000 <= d <= 100_000
              else if total > 0 then -5 * total <= d <= 5 * total
              else 5 * total <= d <= -5 * total
  {
  }

  /** Every column can be read. */
  predicate Readable(row: RawRow) {
    row.milliliters.Some? && row.unitPrice.Some? && row.total.Some? && row.time.Some?
  }

  // ----- the alias table -----

  /** `q` is alias `k` as written or in lower case. */
  predicate Matches(k: string, q: string) { k == q || ToLower(k) == q }

  ghost predicate Explained(index: map<string, string>, table: map<string, string>, q: string) {
    q in index && exists k :: k in table && Matches(k, q) && index[q] == table[k]
  }

  /** `index` answers each of `done`, exactly and in lower case, and only with the code of some matching alias. */
  ghost predicate IndexesPart(index: map<string, string>, table: map<string, string>, done: set<string>) {
    (forall k, q :: k in done && Matches(k, q) ==> q in index) &&
      (forall q :: q in index ==> Explained(index, table, q))
  }

  ghost predicate Indexes(index: map<string, string>, table: map<string, string>) {
    IndexesPart(index, table, table.Keys)
  }

  /** No two aliases that differ only in case stand for different products. */
  ghost predicate CaseFree(table: map<string, string>) {
    forall k, l :: k in table && l in table && ToLower(k) == ToLower(l) ==> table[k] == table[l]
  }

  /** Rebuilds the lookup table, visiting the aliases in no particular order. */
  method ReloadAliases(table: map<string, string>) returns (index: map<string, string>)
    ensures Indexes(index, table)
  {
    index := map[];
    var left := table.Keys;
    ghost var done: set<string> := {};
    while left != {}
      invariant done + left == table.Keys && IndexesPart(index, table, done)
      decreases left
    {
      var k :| k in left;
      AddAlias(index, table, done, k);
      index := WithAlias(index, k, table[k]);
      left, done := left - {k}, done + {k};
    }
  }

  function WithAlias(index: map<string, string>, k: string, code: string): map<string, string> {
    index[k := code][ToLower(k) := code]
  }

  lemma AddAlias(index: map<string, string>, table: map<string, string>, done: set<string>, k: string)
    requires IndexesPart(index, table, done) && k in table
    ensures IndexesPart(WithAlias(index, k, table[k]), table, done + {k})
  {
    var index' := WithAlias(index, k, table[k]);
    forall q | q in index' ensures Explained(index', table, q) {
      if Matches(k, q) {
        assert index'[q] == table[k];
      } else {
        assert Explained(index, table, q);
      }
    }
  }

  /**
    When case does not matter in the table, every spelling of an alias resolves to its product, in any
    visiting order.
   */
  lemma AliasResolves(index: map<string, string>, table: map<string, string>, k: string, spelling: string)
    requires Indexes(index, table) && CaseFree(table) && k in table && ToLower(spelling) == ToLower(k)
    ensures ProductOf(spelling, index) == Some(table[k])
  {
    ToLowerIdempotent(k);
    assert Matches(k, ToLower(k));
    var q := if spelling in index then spelling else ToLower(spelling);
    assert Explained(index, table, q);
    var l :| l in table && Matches(l, q) && index[q] == table[l];
    ToLowerIdempotent(l);
    ToLowerIdempotent(spelling);
  }

  /**
    Every spelling of every alias resolves to its own product exactly when case does not distinguish
    products in the table.
   */
  lemma AliasesResolveIff(index: map<string, string>, table: map<string, string>)
    requires Indexes(index, table)
    ensures CaseFree(table) <==>
            forall k, spelling :: k in table && ToLower(spelling) == ToLower(k) ==>
              ProductOf(spelling, index) == Some(table[k])
  {
    if CaseFree(table) {
      forall k, spelling | k in table && ToLower(spelling) == ToLower(k)
        ensures ProductOf(spelling, index) == Some(table[k])
      {
        AliasResolves(index, table, k, spelling);
      }
    }
  }

  /**
    A row normalizes exactly when its columns can be read and its alias, case aside, is in the table; it then gets the
    product of such an alias.
   */
  lemma NormalizesIff(row: RawRow, index: map<string, string>, table: map<string, string>)
    requires Indexes(index, table)
    ensures var f := NormalizeRow(row, index);
            (f.Some? <==> Readable(row) && exists k :: k in table && ToLower(k) == ToLower(row.alias)) &&
            (f.Some? ==> exists k :: k in table && ToLower(k) == ToLower(row.alias) && f.value.product == table[k])
  {
    ToLowerIdempotent(row.alias);
    var f := NormalizeRow(row, index);
    var found := ProductOf(row.alias, index);
    if found.Some? {
      var q := if row.alias in index then row.alias else ToLower(row.alias);
      assert Explained(index, table, q);
      var k :| k in table && Matches(k, q) && index[q] == table[k];
      ToLowerIdempotent(k);
      assert ToLower(k) == ToLower(row.alias) && found.value == table[k];
    } else if k :| k in table && ToLower(k) == ToLower(row.alias) {
      assert Matches(k, ToLower(k));
      assert false;
    }
  }

  /** An alias in the table that is not all lower case is answered as written. */
  lemma WrittenAliasWins(index: map<string, string>, table: map<string, string>, alias: string)
    requires Indexes(index, table) && alias in table && alias != ToLower(alias)
    ensures ProductOf(alias, index) == Some(table[alias])
  {
    assert Matches(alias, alias);
    assert Explained(index, table, alias);
    forall k | k in table && Matches(k, alias) ensures k == alias { ToLowerIdempotent(k); }
  }

  /** Some index of the aliases in `done`. */
  lemma {:induction false} SomeIndex(table: map<string, string>, done: set<string>) returns (index: map<string, string>)
    requires done <= table.Keys
    ensures IndexesPart(index, table, done)
    decreases done
  {
    index := map[];
    if k :| k in done {
      var rest := SomeIndex(table, done - {k});
      AddAlias(rest, table, done - {k}, k);
      index := WithAlias(rest, k, table[k]);
      assert done - {k} + {k} == done;
    }
  }

  /**
    Otherwise an alias can be shadowed: in any table where a lower-case alias stands beside another spelling of it
    for another product, the visiting order decides which of the two it answers with.
   */
  lemma {:induction false} AliasCanBeShadowed(table: map<string, string>, k: string, l: string)
    returns (own: map<string, string>, other: map<string, string>)
    requires k in table && l in table && k == ToLower(l) && k != l && table[k] != table[l]
    ensures Indexes(own, table) && ProductOf(k, own) == Some(table[k])
    ensures Indexes(other, table) && ProductOf(k, other) == Some(table[l])
  {
    ToLowerIdempotent(l);
    var others := table.Keys - {k, l};
    var rest := SomeIndex(table, others);
    AddAlias(rest, table, others, l);
    AddAlias(WithAlias(rest, l, table[l]), table, others + {l}, k);
    own := WithAlias(WithAlias(rest, l, table[l]), k, table[k]);
    AddAlias(rest, table, others, k);
    AddAlias(WithAlias(rest, k, table[k]), table, others + {k}, l);
    other := WithAlias(WithAlias(rest, k, table[k]), l, table[l]);
    assert table.Keys == others + {l} + {k} == others + {k} + {l};
  }
}
