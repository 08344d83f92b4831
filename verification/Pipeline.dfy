/**
  The raw, transactions and superseded tables, and the two operations that move data between
  them: ingesting raw rows and normalizing them.
 */
module Pipeline {
  import opened Common
  import opened Normalization

  /** One row of `transactions`; a null column is None. */
  datatype Tx = Tx(raw: nat, source: Option<string>, ext: Option<string>, fields: Fields)

  /** The tables. A raw row's id is its index; rows of `raw` are never deleted. */
  datatype Db = Db(raw: seq<RawRow>, txs: seq<Tx>, superseded: map<nat, nat>, errors: map<nat, nat>)

  const EMPTY := Db([], [], map[], map[])

  // ----- ingest -----

  predicate HasText(raw: seq<RawRow>, text: string) { exists i :: 0 <= i < |raw| && raw[i].text == text }

  /** A byte-identical payload is skipped. */
  function InsertRaw(raw: seq<RawRow>, row: RawRow): seq<RawRow> { if HasText(raw, row.text) then raw else raw + [row] }

  function InsertAll(raw: seq<RawRow>, rows: seq<RawRow>): seq<RawRow> {
    if rows == [] then raw else InsertRaw(InsertAll(raw, rows[..|rows| - 1]), rows[|rows| - 1])
  }

  // ----- normalize -----

  function Nullable(s: string): Option<string> { if s == "" then None else Some(s) }

  predicate Live(txs: seq<Tx>, r: nat) { exists i :: 0 <= i < |txs| && txs[i].raw == r }

  /** Neither normalized nor superseded. */
  predicate Unresolved(db: Db, r: nat) { r < |db.raw| && !Live(db.txs, r) && r !in db.superseded }

  predicate Keyed(tx: Tx, source: string, ext: string) { tx.source == Some(source) && tx.ext == Some(ext) }

  /** Index of the transaction for (source, ext), or the table's length. */
  function FindKey(txs: seq<Tx>, source: string, ext: string): (i: nat)
    ensures i <= |txs|
    ensures i < |txs| ==> Keyed(txs[i], source, ext)
    ensures forall j :: 0 <= j < i ==> !Keyed(txs[j], source, ext)
  {
    if txs == [] || Keyed(txs[0], source, ext) then 0 else 1 + FindKey(txs[1..], source, ext)
  }

  function Existing(db: Db, r: nat): (i: nat)
    requires r < |db.raw|
    ensures i <= |db.txs|
  {
    if db.raw[r].ext == "" then |db.txs| else FindKey(db.txs, db.raw[r].source, db.raw[r].ext)
  }

  function Replace(db: Db, i: nat, r: nat, f: Fields): Db
    requires i < |db.txs|
  {
    var tx := db.txs[i];
    db.(txs := db.txs[i := tx.(raw := r, fields := f)], superseded := db.superseded[tx.raw := r],
      errors := db.errors - {r})
  }

  function Insert(db: Db, r: nat, f: Fields): Db
    requires r < |db.raw|
  {
    var tx := Tx(r, Nullable(db.raw[r].source), Nullable(db.raw[r].ext), f);
    db.(txs := db.txs + [tx], errors := db.errors - {r})
  }

  /** The database after storing one normalized row; the unique raw id makes a second insert a no-op. */
  function Written(db: Db, r: nat, f: Fields): Db
    requires r < |db.raw|
  {
    var i := Existing(db, r);
    if i < |db.txs| then
      if db.txs[i].raw == r || Live(db.txs, r) then db else Replace(db, i, r, f)
    else if Live(db.txs, r) then db.(errors := db.errors - {r})
    else Insert(db, r, f)
  }

  function Failed(db: Db, r: nat): Db {
    db.(errors := db.errors[r := (if r in db.errors then db.errors[r] else 0) + 1])
  }

  function RunRow(db: Db, r: nat, aliases: map<string, string>): Db
    requires r < |db.raw|
  {
    var f := NormalizeRow(db.raw[r], aliases);
    if f.Some? then Written(db, r, f.value) else Failed(db, r)
  }

  /** Unresolved ids from `k` on, ascending. */
  function UnresolvedFrom(db: Db, k: nat): seq<nat>
    decreases |db.raw| - k
  {
    if k >= |db.raw| then [] else (if Unresolved(db, k) then [k] else []) + UnresolvedFrom(db, k + 1)
  }

  predicate Rows(db: Db, ids: seq<nat>) { forall i :: 0 <= i < |ids| ==> ids[i] < |db.raw| }

  function RunRows(db: Db, ids: seq<nat>, aliases: map<string, string>): (r: Db)
    requires Rows(db, ids)
    ensures r.raw == db.raw
  {
    if ids == [] then db else RunRow(RunRows(db, ids[..|ids| - 1], aliases), ids[|ids| - 1], aliases)
  }

  lemma RunRowsStep(db: Db, ids: seq<nat>, i: nat, aliases: map<string, string>)
    requires Rows(db, ids) && i < |ids|
    ensures RunRows(db, ids[..i + 1], aliases) == RunRow(RunRows(db, ids[..i], aliases), ids[i], aliases)
  {
    assert ids[..i + 1][..i] == ids[..i];
  }

  lemma {:induction false} UnresolvedFromIsRows(db: Db, k: nat)
    ensures Rows(db, UnresolvedFrom(db, k))
    ensures forall i :: 0 <= i < |UnresolvedFrom(db, k)| ==>
            k <= UnresolvedFrom(db, k)[i] && Unresolved(db, UnresolvedFrom(db, k)[i])
    ensures forall i, j :: 0 <= i < j < |UnresolvedFrom(db, k)| ==> UnresolvedFrom(db, k)[i] < UnresolvedFrom(db, k)[j]
    ensures forall r :: k <= r && Unresolved(db, r) ==> r in UnresolvedFrom(db, k)
    decreases |db.raw| - k
  {
    if k < |db.raw| { UnresolvedFromIsRows(db, k + 1); }
  }

  function Limited(ids: seq<nat>, limit: nat): seq<nat> { if 0 < limit < |ids| then ids[..limit] else ids }

  /** One pass of the normalizer over the rows unresolved when it starts. */
  function Run(db: Db, aliases: map<string, string>, limit: nat): Db {
    UnresolvedFromIsRows(db, 0);
    RunRows(db, Limited(UnresolvedFrom(db, 0), limit), aliases)
  }

  /** How many of the rows fail to normalize. */
  function Failures(raw: seq<RawRow>, ids: seq<nat>, aliases: map<string, string>): nat {
    if ids == [] then 0
    else
      var last := ids[|ids| - 1];
      Failures(raw, ids[..|ids| - 1], aliases) +
        (if last < |raw| && NormalizeRow(raw[last], aliases).None? then 1 else 0)
  }

  /** Those rows, by position. */
  function Failing(raw: seq<RawRow>, ids: seq<nat>, aliases: map<string, string>): set<nat> {
    set k: nat | k < |ids| && ids[k] < |raw| && NormalizeRow(raw[ids[k]], aliases).None?
  }

  lemma {:induction false} FailuresCount(raw: seq<RawRow>, ids: seq<nat>, aliases: map<string, string>)
    ensures Failures(raw, ids, aliases) == |Failing(raw, ids, aliases)|
  {
    if ids != [] {
      var n := |ids| - 1;
      FailuresCount(raw, ids[..n], aliases);
      assert Failing(raw, ids, aliases) == Failing(raw, ids[..n], aliases) +
             if ids[n] < |raw| && NormalizeRow(raw[ids[n]], aliases).None? then {n} else {};
    }
  }

  lemma FailuresStep(raw: seq<RawRow>, ids: seq<nat>, i: nat, aliases: map<string, string>)
    requires i < |ids| && ids[i] < |raw|
    ensures Failures(raw, ids[..i + 1], aliases) ==
            Failures(raw, ids[..i], aliases) + if NormalizeRow(raw[ids[i]], aliases).None? then 1 else 0
  {
    assert ids[..i + 1][..i] == ids[..i];
  }

  // ----- the store -----

  class Store {
    var raw: seq<RawRow>
    var txs: seq<Tx>
    var superseded: map<nat, nat>
    var errors: map<nat, nat>

    function View(): Db reads this { Db(raw, txs, superseded, errors) }

    method IsLive(r: nat) returns (live: bool)
      ensures live == Live(txs, r)
    {
      for i := 0 to |txs|
        invariant forall j :: 0 <= j < i ==> txs[j].raw != r
      {
        if txs[i].raw == r { return true; }
      }
      return false;
    }

    /** Inserts a batch, skipping payloads already stored; counts the rows that were new. */
    method WriteRawTransactions(rows: seq<RawRow>) returns (inserted: nat)
      modifies this`raw
      ensures raw == InsertAll(old(raw), rows)
      ensures inserted == |raw| - |old(raw)|
    {
      inserted := 0;
      for i := 0 to |rows|
        invariant raw == InsertAll(old(raw), rows[..i]) && inserted == |raw| - |old(raw)|
      {
        assert rows[..i + 1][..i] == rows[..i];
        if !HasText(raw, rows[i].text) {
          raw := raw + [rows[i]];
          inserted := inserted + 1;
        }
      }
      assert rows[..|rows|] == rows;
    }

    method UnnormalizedTransactions(limit: nat) returns (ids: seq<nat>)
      ensures ids == Limited(UnresolvedFrom(View(), 0), limit)
    {
      ids := [];
      var k: nat := |raw|;
      while k > 0
        invariant k <= |raw| && ids == UnresolvedFrom(View(), k)
      {
        k := k - 1;
        var live := IsLive(k);
        if !live && k !in superseded { ids := [k] + ids; }
      }
      if 0 < limit < |ids| { ids := ids[..limit]; }
    }

    /** True when an existing transaction was replaced. */
    method WriteNormalizedTransaction(r: nat, f: Fields) returns (replaced: bool)
      requires r < |raw|
      modifies this
      ensures View() == Written(old(View()), r, f)
      ensures replaced <==> old(Existing(View(), r)) < old(|txs|) && !Live(old(txs), r)
    {
      var live := IsLive(r);
      if raw[r].ext != "" {
        var i := FindKey(txs, raw[r].source, raw[r].ext);
        if i < |txs| {
          if txs[i].raw == r || live { return false; }
          var old_ := txs[i].raw;
          txs := txs[i := txs[i].(raw := r, fields := f)];
          superseded := superseded[old_ := r];
          errors := errors - {r};
          return true;
        }
      }
      if !live { txs := txs + [Tx(r, Nullable(raw[r].source), Nullable(raw[r].ext), f)]; }
      errors := errors - {r};
      return false;
    }

    /** True the first time a row fails. */
    method RecordNormalizeError(r: nat) returns (first: bool)
      modifies this`errors
      ensures View() == Failed(old(View()), r)
      ensures first <==> r !in old(errors) || old(errors)[r] == 0
    {
      var attempts := (if r in errors then errors[r] else 0) + 1;
      errors := errors[r := attempts];
      return attempts == 1;
    }

    method NormalizeOne(r: nat, aliases: map<string, string>) returns (ok: bool)
      requires r < |raw|
      modifies this
      ensures View() == RunRow(old(View()), r, aliases)
      ensures ok <==> NormalizeRow(old(raw)[r], aliases).Some?
    {
      var f := NormalizeRow(raw[r], aliases);
      if f.Some? {
        var replaced := WriteNormalizedTransaction(r, f.value);
      } else {
        var first := RecordNormalizeError(r);
      }
      return f.Some?;
    }

    /** One pass of the normalizer. */
    method Normalize(aliases: map<string, string>, limit: nat) returns (processed: nat, errs: nat)
      modifies this
      ensures View() == Run(old(View()), aliases, limit)
      ensures processed + errs == |Limited(UnresolvedFrom(old(View()), 0), limit)|
      ensures errs == |Failing(old(raw), Limited(UnresolvedFrom(old(View()), 0), limit), aliases)|
    {
      ghost var start := View();
      UnresolvedFromIsRows(start, 0);
      var ids := UnnormalizedTransactions(limit);
      processed, errs := 0, 0;
      for i := 0 to |ids|
        invariant View() == RunRows(start, ids[..i], aliases) && raw == start.raw
        invariant processed + errs == i && errs == Failures(raw, ids[..i], aliases)
      {
        FailuresStep(raw, ids, i, aliases);
        RunRowsStep(start, ids, i, aliases);
        var ok := NormalizeOne(ids[i], aliases);
        if ok { processed := processed + 1; } else { errs := errs + 1; }
      }
      assert ids[..|ids|] == ids;
      FailuresCount(start.raw, ids, aliases);
    }
  }
}
