/**
  What every history of ingests and normalizer runs keeps: each raw row is accounted for exactly
  once, corrections form chains that end at the live row, and revenue counts live rows only.
 */
module PipelineSafety {
  import opened Common
  import opened Text
  import opened Normalization
  import opened Pipeline

  /** When each resolved row was normalized, counting up from zero. */
  type Stamps = map<nat, nat>

  /** A row with a source and an external id stands for one POS transaction; others stand for themselves. */
  predicate HasKey(row: RawRow) { row.source != "" && row.ext != "" }

  predicate SameKey(a: RawRow, b: RawRow) { HasKey(a) && a.source == b.source && a.ext == b.ext }

  // ----- the invariant -----

  predicate Faithful(raw: seq<RawRow>, tx: Tx) {
    tx.raw < |raw| &&
    var row := raw[tx.raw];
    tx.source == Nullable(row.source) && tx.ext == Nullable(row.ext) && row.total == Some(tx.fields.total)
  }

  predicate TxsFaithful(raw: seq<RawRow>, txs: seq<Tx>) { forall i :: 0 <= i < |txs| ==> Faithful(raw, txs[i]) }

  predicate OneTxPerRow(txs: seq<Tx>) { forall i, j :: 0 <= i < j < |txs| ==> txs[i].raw != txs[j].raw }

  predicate OneTxPerKey(raw: seq<RawRow>, txs: seq<Tx>)
    requires TxsFaithful(raw, txs)
  {
    forall i, j :: 0 <= i < j < |txs| ==> !SameKey(raw[txs[i].raw], raw[txs[j].raw])
  }

  /** Row `r` was replaced by row `n` of the same key, normalized later. */
  predicate LinkOk(raw: seq<RawRow>, st: Stamps, r: nat, n: nat) {
    r < |raw| && n < |raw| && SameKey(raw[r], raw[n]) && r in st && n in st && st[r] < st[n]
  }

  predicate LinksOk(raw: seq<RawRow>, superseded: map<nat, nat>, st: Stamps) {
    forall r :: r in superseded ==> LinkOk(raw, st, r, superseded[r])
  }

  predicate LiveNotSuperseded(txs: seq<Tx>, superseded: map<nat, nat>) {
    forall i :: 0 <= i < |txs| ==> txs[i].raw !in superseded
  }

  /** Exactly the live and superseded rows carry a stamp. */
  ghost predicate StampsCover(txs: seq<Tx>, superseded: map<nat, nat>, st: Stamps) {
    (forall i :: 0 <= i < |txs| ==> txs[i].raw in st) && (forall r :: r in superseded ==> r in st) &&
    (forall r :: r in st ==> Live(txs, r) || r in superseded)
  }

  predicate StampsDistinct(st: Stamps) {
    (forall r :: r in st ==> st[r] < |st|) && (forall r, q :: r in st && q in st && r != q ==> st[r] != st[q])
  }

  predicate LastOfKey(raw: seq<RawRow>, st: Stamps, n: nat)
    requires n < |raw| && n in st
  {
    forall r :: r in st && r < |raw| && SameKey(raw[r], raw[n]) ==> st[r] <= st[n]
  }

  /** The live row of a key is the one normalized last. */
  predicate LiveIsLast(raw: seq<RawRow>, txs: seq<Tx>, st: Stamps) {
    forall i :: 0 <= i < |txs| ==> txs[i].raw < |raw| && txs[i].raw in st && LastOfKey(raw, st, txs[i].raw)
  }

  predicate ErrorsUnresolved(txs: seq<Tx>, superseded: map<nat, nat>, errors: map<nat, nat>) {
    forall r :: r in errors ==> !Live(txs, r) && r !in superseded
  }

  ghost predicate Wf(db: Db, st: Stamps) {
    && TxsFaithful(db.raw, db.txs) && OneTxPerRow(db.txs) && OneTxPerKey(db.raw, db.txs)
    && LinksOk(db.raw, db.superseded, st) && LiveNotSuperseded(db.txs, db.superseded)
    && StampsCover(db.txs, db.superseded, st) && StampsDistinct(st) && LiveIsLast(db.raw, db.txs, st)
    && ErrorsUnresolved(db.txs, db.superseded, db.errors)
  }

  // ----- each operation keeps it -----

  lemma GrowRaw(db: Db, st: Stamps, more: seq<RawRow>)
    requires Wf(db, st)
    ensures Wf(db.(raw := db.raw + more), st)
  {
    var raw' := db.raw + more;
    forall i | 0 <= i < |db.txs| ensures Faithful(raw', db.txs[i]) { assert Faithful(db.raw, db.txs[i]); }
    forall r | r in db.superseded
      ensures LinkOk(raw', st, r, db.superseded[r])
    {
      assert LinkOk(db.raw, st, r, db.superseded[r]);
    }
    forall r | r in st ensures r < |db.raw| {
      if Live(db.txs, r) { var i :| 0 <= i < |db.txs| && db.txs[i].raw == r; assert Faithful(db.raw, db.txs[i]); }
      else { assert LinkOk(db.raw, st, r, db.superseded[r]); }
    }
    forall i | 0 <= i < |db.txs|
      ensures LastOfKey(raw', st, db.txs[i].raw)
    {
      assert LastOfKey(db.raw, st, db.txs[i].raw);
    }
  }

  lemma {:induction false} InsertAllExtends(raw: seq<RawRow>, rows: seq<RawRow>) returns (more: seq<RawRow>)
    ensures InsertAll(raw, rows) == raw + more
  {
    more := [];
    if rows != [] {
      more := InsertAllExtends(raw, rows[..|rows| - 1]);
      if !HasText(raw + more, rows[|rows| - 1].text) { more := more + [rows[|rows| - 1]]; }
    }
  }

  lemma FailedKeepsWf(db: Db, st: Stamps, r: nat)
    requires Wf(db, st) && Unresolved(db, r)
    ensures Wf(Failed(db, r), st)
  {
  }

  lemma ExistingHasKey(db: Db, st: Stamps, r: nat)
    requires Wf(db, st) && r < |db.raw| && Existing(db, r) < |db.txs|
    ensures Faithful(db.raw, db.txs[Existing(db, r)]) && SameKey(db.raw[r], db.raw[db.txs[Existing(db, r)].raw])
  {
    assert Faithful(db.raw, db.txs[Existing(db, r)]);
  }

  lemma NoTxForKey(db: Db, st: Stamps, r: nat, i: nat)
    requires Wf(db, st) && r < |db.raw| && Existing(db, r) == |db.txs| && i < |db.txs|
    ensures Faithful(db.raw, db.txs[i]) && !SameKey(db.raw[r], db.raw[db.txs[i].raw])
  {
    assert Faithful(db.raw, db.txs[i]);
    if SameKey(db.raw[r], db.raw[db.txs[i].raw]) { assert Keyed(db.txs[i], db.raw[r].source, db.raw[r].ext); }
  }

  function Stamped(st: Stamps, r: nat): Stamps { st[r := |st|] }

  lemma StampedDistinct(st: Stamps, r: nat)
    requires StampsDistinct(st) && r !in st
    ensures StampsDistinct(Stamped(st, r)) && |Stamped(st, r)| == |st| + 1
  {
  }

  lemma UnresolvedUnstamped(db: Db, st: Stamps, r: nat)
    requires Wf(db, st) && Unresolved(db, r)
    ensures r !in st
  {
  }

  /** Chains of the same key: every stamped row of the new row's key is older than it. */
  lemma NewRowIsLast(raw: seq<RawRow>, st: Stamps, r: nat)
    requires StampsDistinct(st) && r !in st && r < |raw|
    ensures LastOfKey(raw, Stamped(st, r), r)
  {
  }

  lemma OtherKeysUntouched(raw: seq<RawRow>, st: Stamps, r: nat, n: nat)
    requires r !in st && r < |raw| && n < |raw| && n in st && LastOfKey(raw, st, n) && !SameKey(raw[r], raw[n])
    ensures LastOfKey(raw, Stamped(st, r), n)
  {
  }

  lemma LinksKept(raw: seq<RawRow>, superseded: map<nat, nat>, st: Stamps, r: nat)
    requires LinksOk(raw, superseded, st) && r !in st
    ensures LinksOk(raw, superseded, Stamped(st, r))
  {
    forall q | q in superseded
      ensures LinkOk(raw, Stamped(st, r), q, superseded[q])
    {
      assert LinkOk(raw, st, q, superseded[q]);
    }
  }

  lemma InsertTables(db: Db, st: Stamps, r: nat, f: Fields)
    requires Wf(db, st) && Unresolved(db, r) && Existing(db, r) == |db.txs| && db.raw[r].total == Some(f.total)
    ensures var d := Insert(db, r, f);
            TxsFaithful(d.raw, d.txs) && OneTxPerRow(d.txs) && OneTxPerKey(d.raw, d.txs)
  {
    var d := Insert(db, r, f);
    forall i | 0 <= i < |db.txs|
      ensures Faithful(db.raw, db.txs[i]) && db.txs[i].raw != r && !SameKey(db.raw[db.txs[i].raw], db.raw[r])
    {
      NewToTable(db, st, r, i);
    }
    assert Faithful(d.raw, d.txs[|db.txs|]);
    AppendTables(db.raw, db.txs, d.txs[|db.txs|]);
  }

  lemma NewToTable(db: Db, st: Stamps, r: nat, i: nat)
    requires Wf(db, st) && Unresolved(db, r) && Existing(db, r) == |db.txs| && i < |db.txs|
    ensures Faithful(db.raw, db.txs[i]) && db.txs[i].raw != r && !SameKey(db.raw[db.txs[i].raw], db.raw[r])
  {
    NoTxForKey(db, st, r, i);
    assert Live(db.txs, db.txs[i].raw);
  }

  lemma {:induction false} AppendTables(raw: seq<RawRow>, txs: seq<Tx>, tx: Tx)
    requires TxsFaithful(raw, txs) && OneTxPerRow(txs) && OneTxPerKey(raw, txs) && Faithful(raw, tx)
    requires forall i :: 0 <= i < |txs| ==>
             txs[i].raw < |raw| && txs[i].raw != tx.raw && !SameKey(raw[txs[i].raw], raw[tx.raw])
    ensures TxsFaithful(raw, txs + [tx]) && OneTxPerRow(txs + [tx]) && OneTxPerKey(raw, txs + [tx])
  {
  }

  lemma InsertedIsLast(db: Db, st: Stamps, r: nat, f: Fields)
    requires Wf(db, st) && Unresolved(db, r) && Existing(db, r) == |db.txs|
    ensures LiveIsLast(db.raw, Insert(db, r, f).txs, Stamped(st, r))
  {
    var txs := Insert(db, r, f).txs;
    var st' := Stamped(st, r);
    UnresolvedUnstamped(db, st, r);
    forall i | 0 <= i < |txs| ensures txs[i].raw < |db.raw| && txs[i].raw in st' && LastOfKey(db.raw, st', txs[i].raw) {
      if i < |db.txs| { NoTxForKey(db, st, r, i); OtherKeysUntouched(db.raw, st, r, db.txs[i].raw); }
      else { NewRowIsLast(db.raw, st, r); }
    }
  }

  lemma LiveAfterInsert(db: Db, r: nat, f: Fields, q: nat)
    requires r < |db.raw|
    ensures Live(Insert(db, r, f).txs, q) <==> Live(db.txs, q) || q == r
  {
    var txs := Insert(db, r, f).txs;
    assert txs[|db.txs|].raw == r;
    if Live(db.txs, q) { var i :| 0 <= i < |db.txs| && db.txs[i].raw == q; assert txs[i].raw == q; }
  }

  lemma InsertCovers(db: Db, st: Stamps, r: nat, f: Fields)
    requires Wf(db, st) && Unresolved(db, r)
    ensures StampsCover(Insert(db, r, f).txs, db.superseded, Stamped(st, r))
  {
    var txs, st' := Insert(db, r, f).txs, Stamped(st, r);
    forall i | 0 <= i < |txs| ensures txs[i].raw in st' { assert i < |db.txs| ==> db.txs[i].raw in st; }
    forall q | q in st' ensures Live(txs, q) || q in db.superseded { LiveAfterInsert(db, r, f, q); }
  }

  lemma InsertClears(db: Db, st: Stamps, r: nat, f: Fields)
    requires Wf(db, st) && Unresolved(db, r)
    ensures var d := Insert(db, r, f);
            LiveNotSuperseded(d.txs, d.superseded) && ErrorsUnresolved(d.txs, d.superseded, d.errors)
  {
    var d := Insert(db, r, f);
    forall i | 0 <= i < |d.txs|
      ensures d.txs[i].raw !in d.superseded
    {
      assert i < |db.txs| ==> db.txs[i].raw !in db.superseded;
    }
    forall q | q in d.errors ensures !Live(d.txs, q) { LiveAfterInsert(db, r, f, q); }
  }

  lemma InsertKeepsWf(db: Db, st: Stamps, r: nat, f: Fields)
    requires Wf(db, st) && Unresolved(db, r) && Existing(db, r) == |db.txs| && db.raw[r].total == Some(f.total)
    ensures Wf(Insert(db, r, f), Stamped(st, r))
  {
    UnresolvedUnstamped(db, st, r);
    InsertTables(db, st, r, f);
    InsertedIsLast(db, st, r, f);
    InsertCovers(db, st, r, f);
    InsertClears(db, st, r, f);
    StampedDistinct(st, r);
    LinksKept(db.raw, db.superseded, st, r);
  }

  lemma LiveAfterReplace(db: Db, st: Stamps, i: nat, r: nat, f: Fields, q: nat)
    requires Wf(db, st) && i < |db.txs|
    ensures Live(Replace(db, i, r, f).txs, q) <==> q == r || (Live(db.txs, q) && q != db.txs[i].raw)
  {
    LiveAfterUpdate(db.txs, i, Replace(db, i, r, f).txs[i], q);
  }

  lemma {:induction false} LiveAfterUpdate(txs: seq<Tx>, i: nat, tx: Tx, q: nat)
    requires i < |txs| && OneTxPerRow(txs)
    ensures Live(txs[i := tx], q) <==> q == tx.raw || (Live(txs, q) && q != txs[i].raw)
  {
    var after := txs[i := tx];
    assert after[i].raw == tx.raw;
    if q != tx.raw && Live(after, q) {
      var j :| 0 <= j < |after| && after[j].raw == q;
      assert txs[j].raw == q && j != i;
    }
    if Live(txs, q) && q != txs[i].raw { var j :| 0 <= j < |txs| && txs[j].raw == q; assert after[j].raw == q; }
  }

  lemma OthersOfReplaced(db: Db, st: Stamps, r: nat, j: nat)
    requires Wf(db, st) && Unresolved(db, r) && Existing(db, r) < |db.txs| && j < |db.txs| && j != Existing(db, r)
    ensures Faithful(db.raw, db.txs[j]) && db.txs[j].raw != r && db.txs[j].raw in st
    ensures !SameKey(db.raw[db.txs[j].raw], db.raw[r]) && !SameKey(db.raw[r], db.raw[db.txs[j].raw])
  {
    var i := Existing(db, r);
    ExistingHasKey(db, st, r);
    assert Faithful(db.raw, db.txs[j]);
    if j < i {
      assert !SameKey(db.raw[db.txs[j].raw], db.raw[db.txs[i].raw]);
    } else {
      assert !SameKey(db.raw[db.txs[i].raw], db.raw[db.txs[j].raw]);
    }
  }

  lemma ReplaceTables(db: Db, st: Stamps, r: nat, f: Fields)
    requires Wf(db, st) && Unresolved(db, r) && Existing(db, r) < |db.txs| && db.raw[r].total == Some(f.total)
    ensures var d := Replace(db, Existing(db, r), r, f);
            TxsFaithful(d.raw, d.txs) && OneTxPerRow(d.txs) && OneTxPerKey(d.raw, d.txs)
  {
    var i := Existing(db, r);
    var txs := Replace(db, i, r, f).txs;
    ExistingHasKey(db, st, r);
    forall j | 0 <= j < |db.txs| && j != i
      ensures Faithful(db.raw, txs[j]) && txs[j].raw != r && !SameKey(db.raw[txs[j].raw], db.raw[r]) &&
              !SameKey(db.raw[r], db.raw[txs[j].raw])
    {
      OthersOfReplaced(db, st, r, j);
    }
    assert Faithful(db.raw, txs[i]);
  }

  lemma ReplacedIsLast(db: Db, st: Stamps, r: nat, f: Fields)
    requires Wf(db, st) && Unresolved(db, r) && Existing(db, r) < |db.txs|
    ensures LiveIsLast(db.raw, Replace(db, Existing(db, r), r, f).txs, Stamped(st, r))
  {
    var i := Existing(db, r);
    var txs := Replace(db, i, r, f).txs;
    var st' := Stamped(st, r);
    UnresolvedUnstamped(db, st, r);
    forall j | 0 <= j < |txs| ensures txs[j].raw < |db.raw| && txs[j].raw in st' && LastOfKey(db.raw, st', txs[j].raw) {
      if j != i {
        OthersOfReplaced(db, st, r, j);
        OtherKeysUntouched(db.raw, st, r, db.txs[j].raw);
      } else {
        NewRowIsLast(db.raw, st, r);
      }
    }
  }

  lemma ReplaceLinks(db: Db, st: Stamps, r: nat, f: Fields)
    requires Wf(db, st) && Unresolved(db, r) && Existing(db, r) < |db.txs|
    ensures var d := Replace(db, Existing(db, r), r, f);
            LinksOk(d.raw, d.superseded, Stamped(st, r)) && LiveNotSuperseded(d.txs, d.superseded)
  {
    var i := Existing(db, r);
    UnresolvedUnstamped(db, st, r);
    ExistingHasKey(db, st, r);
    LinksKept(db.raw, db.superseded, st, r);
    var d := Replace(db, i, r, f);
    var st' := Stamped(st, r);
    forall q | q in d.superseded ensures LinkOk(d.raw, st', q, d.superseded[q]) {
      if q != db.txs[i].raw { assert LinkOk(db.raw, st', q, db.superseded[q]); }
    }
  }

  lemma ReplaceKeepsWf(db: Db, st: Stamps, r: nat, f: Fields)
    requires Wf(db, st) && Unresolved(db, r) && Existing(db, r) < |db.txs| && db.raw[r].total == Some(f.total)
    ensures Wf(Replace(db, Existing(db, r), r, f), Stamped(st, r))
  {
    var i := Existing(db, r);
    UnresolvedUnstamped(db, st, r);
    ReplaceTables(db, st, r, f);
    ReplacedIsLast(db, st, r, f);
    ReplaceLinks(db, st, r, f);
    StampedDistinct(st, r);
    forall q: nat ensures Live(Replace(db, i, r, f).txs, q) <==> q == r || (Live(db.txs, q) && q != db.txs[i].raw) {
      LiveAfterReplace(db, st, i, r, f, q);
    }
  }

  /** The stamp a pass leaves on one row. */
  function RowStamps(db: Db, st: Stamps, r: nat, aliases: map<string, string>): Stamps
    requires r < |db.raw|
  {
    if NormalizeRow(db.raw[r], aliases).Some? then Stamped(st, r) else st
  }

  lemma RunRowKeepsWf(db: Db, st: Stamps, r: nat, aliases: map<string, string>)
    requires Wf(db, st) && Unresolved(db, r)
    ensures Wf(RunRow(db, r, aliases), RowStamps(db, st, r, aliases))
  {
    var f := NormalizeRow(db.raw[r], aliases);
    if f.None? { FailedKeepsWf(db, st, r); }
    else if Existing(db, r) < |db.txs| { ExistingHasKey(db, st, r); ReplaceKeepsWf(db, st, r, f.value); }
    else { InsertKeepsWf(db, st, r, f.value); }
  }

  lemma RunRowLeavesOthers(db: Db, st: Stamps, r: nat, aliases: map<string, string>, q: nat)
    requires Wf(db, st) && Unresolved(db, r) && Unresolved(db, q) && q != r
    ensures Unresolved(RunRow(db, r, aliases), q)
  {
    var f := NormalizeRow(db.raw[r], aliases);
    if f.Some? {
      if Existing(db, r) < |db.txs| {
        ExistingHasKey(db, st, r);
        LiveAfterReplace(db, st, Existing(db, r), r, f.value, q);
      }
      else { LiveAfterInsert(db, r, f.value, q); }
    }
  }

  predicate AllUnresolved(db: Db, ids: seq<nat>) {
    (forall i :: 0 <= i < |ids| ==> Unresolved(db, ids[i])) && (forall i, j :: 0 <= i < j < |ids| ==> ids[i] != ids[j])
  }

  function RowsStamps(db: Db, st: Stamps, ids: seq<nat>, aliases: map<string, string>): Stamps
    requires Rows(db, ids)
  {
    if ids == [] then st
    else RowStamps(db, RowsStamps(db, st, ids[..|ids| - 1], aliases), ids[|ids| - 1], aliases)
  }

  lemma {:induction false} RunRowsKeepsWf(db: Db, st: Stamps, ids: seq<nat>, aliases: map<string, string>)
    requires Wf(db, st) && AllUnresolved(db, ids)
    ensures Wf(RunRows(db, ids, aliases), RowsStamps(db, st, ids, aliases))
    ensures forall q :: Unresolved(db, q) && q !in ids ==> Unresolved(RunRows(db, ids, aliases), q)
  {
    if ids != [] {
      var front, r := ids[..|ids| - 1], ids[|ids| - 1];
      RunRowsKeepsWf(db, st, front, aliases);
      var db', st' := RunRows(db, front, aliases), RowsStamps(db, st, front, aliases);
      assert r !in front;
      RunRowKeepsWf(db', st', r, aliases);
      forall q | Unresolved(db, q) && q !in ids ensures Unresolved(RunRows(db, ids, aliases), q) {
        assert q !in front;
        RunRowLeavesOthers(db', st', r, aliases, q);
      }
    }
  }

  function PassIds(db: Db, limit: nat): (ids: seq<nat>)
    ensures Rows(db, ids) && AllUnresolved(db, ids)
  {
    UnresolvedFromIsRows(db, 0);
    Limited(UnresolvedFrom(db, 0), limit)
  }

  // ----- what a pass writes -----

  /** A transaction written from its own row. */
  predicate FromRow(raw: seq<RawRow>, tx: Tx, ids: seq<nat>, aliases: map<string, string>) {
    tx.raw in ids && tx.raw < |raw| && NormalizeRow(raw[tx.raw], aliases) == Some(tx.fields)
  }

  lemma {:induction false} RowsWritten(db: Db, ids: seq<nat>, aliases: map<string, string>)
    requires Rows(db, ids)
    ensures forall tx :: tx in RunRows(db, ids, aliases).txs ==> tx in db.txs || FromRow(db.raw, tx, ids, aliases)
  {
    if ids != [] {
      var front, r := ids[..|ids| - 1], ids[|ids| - 1];
      RowsWritten(db, front, aliases);
      var d := RunRows(db, front, aliases);
      forall tx | tx in RunRow(d, r, aliases).txs ensures tx in db.txs || FromRow(db.raw, tx, ids, aliases) {
        RowWrites(d, r, aliases, tx);
        if tx !in d.txs { assert r in ids; } else if tx !in db.txs { assert FromRow(db.raw, tx, front, aliases); }
      }
    }
  }

  lemma RowWrites(db: Db, r: nat, aliases: map<string, string>, tx: Tx)
    requires r < |db.raw| && tx in RunRow(db, r, aliases).txs
    ensures tx in db.txs || (tx.raw == r && NormalizeRow(db.raw[r], aliases) == Some(tx.fields))
  {
  }

  /**
    Every transaction after a pass was there before, or was written by the pass: its row was unresolved, it records that
    row column by column, and its product is that of an alias spelled, case aside, as in the row.
   */
  lemma PassWrites(db: Db, index: map<string, string>, table: map<string, string>, limit: nat, tx: Tx)
    requires Indexes(index, table) && tx in Run(db, index, limit).txs && tx !in db.txs
    ensures Unresolved(db, tx.raw) && Records(db.raw[tx.raw], tx.fields)
    ensures exists k :: k in table && ToLower(k) == ToLower(db.raw[tx.raw].alias) && tx.fields.product == table[k]
  {
    var ids := PassIds(db, limit);
    RowsWritten(db, ids, index);
    assert FromRow(db.raw, tx, ids, index);
    NormalizedRecordsRow(db.raw[tx.raw], index);
    NormalizesIff(db.raw[tx.raw], index, table);
  }

  predicate Resolved(db: Db, r: nat) { Live(db.txs, r) || r in db.superseded }

  lemma ResolvedStays(db: Db, q: nat, aliases: map<string, string>, r: nat)
    requires q < |db.raw| && Resolved(db, r)
    ensures Resolved(RunRow(db, q, aliases), r)
  {
    var d := RunRow(db, q, aliases);
    if j :| 0 <= j < |db.txs| && db.txs[j].raw == r {
      assert r !in d.superseded ==> d.txs[j].raw == r;
    }
  }

  lemma RowResolvesIff(db: Db, r: nat, aliases: map<string, string>)
    requires Unresolved(db, r)
    ensures Resolved(RunRow(db, r, aliases), r) <==> NormalizeRow(db.raw[r], aliases).Some?
    ensures NormalizeRow(db.raw[r], aliases).None? ==>
            RunRow(db, r, aliases) == db.(errors := db.errors[r := 1 + if r in db.errors then db.errors[r] else 0])
  {
    var f := NormalizeRow(db.raw[r], aliases);
    var d := RunRow(db, r, aliases);
    if f.Some? {
      var i := Existing(db, r);
      assert d.txs[i].raw == r;
    }
  }

  lemma {:induction false} RowsResolveIff(db: Db, st: Stamps, ids: seq<nat>, aliases: map<string, string>, r: nat)
    requires Wf(db, st) && AllUnresolved(db, ids) && r in ids
    ensures Resolved(RunRows(db, ids, aliases), r) <==> NormalizeRow(db.raw[r], aliases).Some?
  {
    var front, q := ids[..|ids| - 1], ids[|ids| - 1];
    var d, st' := RunRows(db, front, aliases), RowsStamps(db, st, front, aliases);
    RunRowsKeepsWf(db, st, front, aliases);
    assert q !in front;
    if r == q {
      RowResolvesIff(d, r, aliases);
    } else {
      RowsResolveIff(db, st, front, aliases, r);
      if Resolved(d, r) { ResolvedStays(d, q, aliases, r); } else { RunRowLeavesOthers(d, st', q, aliases, r); }
    }
  }

  /**
    A pass resolves exactly those of the rows it takes up whose columns can be read and whose alias, case aside, is in
    the table; all other unresolved rows stay so.
   */
  lemma PassResolvesIff(db: Db, st: Stamps, index: map<string, string>, table: map<string, string>, limit: nat, r: nat)
    requires Wf(db, st) && Indexes(index, table) && Unresolved(db, r)
    ensures !Unresolved(Run(db, index, limit), r) <==>
            r in PassIds(db, limit) && Readable(db.raw[r]) &&
              exists k :: k in table && ToLower(k) == ToLower(db.raw[r].alias)
  {
    var ids := PassIds(db, limit);
    NormalizesIff(db.raw[r], index, table);
    RunRowsKeepsWf(db, st, ids, index);
    if r in ids { RowsResolveIff(db, st, ids, index, r); }
  }

  /** With no limit, or none reached, the pass takes up every unresolved row. */
  lemma PassTakesAll(db: Db, limit: nat, r: nat)
    requires Unresolved(db, r) && (limit == 0 || |UnresolvedFrom(db, 0)| <= limit)
    ensures r in PassIds(db, limit)
  {
    UnresolvedFromIsRows(db, 0);
  }

  /** A pass with a limit takes up that many of the unresolved rows, or all if there are fewer. */
  lemma PassIsLimited(db: Db, limit: nat)
    requires limit > 0
    ensures |PassIds(db, limit)| <= limit && (|PassIds(db, limit)| < limit ==> PassIds(db, limit) == PassIds(db, 0))
  {
  }

  /** What it takes up are the oldest. */
  lemma PassTakesOldest(db: Db, limit: nat, taken: nat, left: nat)
    requires taken in PassIds(db, limit) && Unresolved(db, left) && left !in PassIds(db, limit)
    ensures taken < left && |PassIds(db, limit)| == limit
  {
    UnresolvedFromIsRows(db, 0);
    var all := UnresolvedFrom(db, 0);
    var ids := PassIds(db, limit);
    assert ids == all[..|ids|];
    var i := PastPrefix(all, |ids|, left);
    var j :| 0 <= j < |ids| && ids[j] == taken;
  }

  lemma PastPrefix(s: seq<nat>, n: nat, x: nat) returns (i: nat)
    requires n <= |s| && x in s && x !in s[..n]
    ensures n <= i < |s| && s[i] == x
  {
    assert s == s[..n] + s[n..];
    assert x in s[n..];
    i :| n <= i < |s| && s[i] == x;
  }

  // ----- histories -----

  datatype Op = Ingest(rows: seq<RawRow>) | Normalize(aliases: map<string, string>, limit: nat)

  function Apply(db: Db, op: Op): Db {
    match op
    case Ingest(rows) => db.(raw := InsertAll(db.raw, rows))
    case Normalize(aliases, limit) => Run(db, aliases, limit)
  }

  /** The database after a sequence of ingests and normalizer passes, none overlapping. */
  function History(ops: seq<Op>): Db { if ops == [] then EMPTY else Apply(History(ops[..|ops| - 1]), ops[|ops| - 1]) }

  /** Every transaction says what its raw row says. */
  predicate Recorded(db: Db) {
    forall i :: 0 <= i < |db.txs| ==> db.txs[i].raw < |db.raw| && Records(db.raw[db.txs[i].raw], db.txs[i].fields)
  }

  lemma PassRecords(db: Db, aliases: map<string, string>, limit: nat)
    requires Recorded(db)
    ensures Recorded(Run(db, aliases, limit))
  {
    var ids := PassIds(db, limit);
    var d := Run(db, aliases, limit);
    RowsWritten(db, ids, aliases);
    forall i | 0 <= i < |d.txs|
      ensures d.txs[i].raw < |d.raw| && Records(d.raw[d.txs[i].raw], d.txs[i].fields)
    {
      var tx := d.txs[i];
      assert tx in d.txs;
      if tx !in db.txs {
        assert FromRow(db.raw, tx, ids, aliases);
        NormalizedRecordsRow(db.raw[tx.raw], aliases);
      }
    }
  }

  lemma {:induction false} EveryHistoryIsWf(ops: seq<Op>) returns (st: Stamps)
    ensures Wf(History(ops), st) && Recorded(History(ops))
  {
    st := map[];
    if ops != [] {
      var db, op := History(ops[..|ops| - 1]), ops[|ops| - 1];
      st := EveryHistoryIsWf(ops[..|ops| - 1]);
      match op
      case Ingest(rows) =>
        IngestKeepsWf(db, st, rows);
        var more := InsertAllExtends(db.raw, rows);
      case Normalize(aliases, limit) =>
        PassRecords(db, aliases, limit);
        RunRowsKeepsWf(db, st, PassIds(db, limit), aliases);
        st := RowsStamps(db, st, PassIds(db, limit), aliases);
    }
  }

  // ----- every raw row is accounted for exactly once -----

  predicate ExactlyOne(a: bool, b: bool, c: bool) { (a && !b && !c) || (!a && b && !c) || (!a && !b && c) }

  /**
    After any history a raw row is live in exactly one transaction, or superseded, or unresolved, and never
    two of these.
   */
  lemma EachRowOnce(ops: seq<Op>, r: nat)
    requires r < |History(ops).raw|
    ensures var db := History(ops);
            ExactlyOne(Live(db.txs, r), r in db.superseded, Unresolved(db, r)) &&
            (forall i, j :: 0 <= i < |db.txs| && 0 <= j < |db.txs| && db.txs[i].raw == r == db.txs[j].raw ==> i == j)
  {
    var st := EveryHistoryIsWf(ops);
  }

  // ----- corrections form chains -----

  /** Following `n` superseded-by links from `r` arrives at `e`. */
  predicate Follows(superseded: map<nat, nat>, r: nat, n: nat, e: nat)
    decreases n
  {
    if n == 0 then r == e else r in superseded && Follows(superseded, superseded[r], n - 1, e)
  }

  lemma {:induction false} StampsRise(raw: seq<RawRow>, superseded: map<nat, nat>, st: Stamps, r: nat, n: nat, e: nat)
    requires LinksOk(raw, superseded, st) && r in st && Follows(superseded, r, n, e)
    ensures e in st && (if n == 0 then e == r else st[r] < st[e])
    decreases n
  {
    if n > 0 {
      assert LinkOk(raw, st, r, superseded[r]);
      StampsRise(raw, superseded, st, superseded[r], n - 1, e);
    }
  }

  /** Superseded links are acyclic. */
  lemma NoCycle(ops: seq<Op>, r: nat, n: nat)
    requires Follows(History(ops).superseded, r, n, r)
    ensures n == 0
  {
    var st := EveryHistoryIsWf(ops);
    var db := History(ops);
    if n > 0 {
      assert LinkOk(db.raw, st, r, db.superseded[r]);
      StampsRise(db.raw, db.superseded, st, r, n, r);
    }
  }

  lemma {:induction false} ChainFrom(db: Db, st: Stamps, r: nat) returns (n: nat, e: nat)
    requires Wf(db, st) && r in db.superseded
    ensures n > 0 && Follows(db.superseded, r, n, e) && Live(db.txs, e)
    ensures r < |db.raw| && e < |db.raw| && SameKey(db.raw[r], db.raw[e])
    decreases |st| - st[r]
  {
    var q := db.superseded[r];
    assert LinkOk(db.raw, st, r, q);
    if q in db.superseded {
      var m;
      m, e := ChainFrom(db, st, q);
      n := m + 1;
    } else {
      assert Live(db.txs, q);
      n, e := 1, q;
      assert Follows(db.superseded, q, 0, q);
    }
  }

  /** Every superseded row leads, link by link, to a live row of the same source and external id. */
  lemma ChainEndsLive(ops: seq<Op>, r: nat) returns (n: nat, e: nat)
    requires r in History(ops).superseded
    ensures var db := History(ops);
            n > 0 && Follows(db.superseded, r, n, e) && Live(db.txs, e) && r < |db.raw| && e < |db.raw| &&
              SameKey(db.raw[r], db.raw[e])
  {
    var st := EveryHistoryIsWf(ops);
    n, e := ChainFrom(History(ops), st, r);
  }

  // ----- revenue -----

  function Revenue(txs: seq<Tx>): int {
    if txs == [] then 0 else Revenue(txs[..|txs| - 1]) + txs[|txs| - 1].fields.total
  }

  /** The stated totals of the live rows among the first `k`. */
  function LiveRevenue(raw: seq<RawRow>, txs: seq<Tx>, k: nat): int
    requires k <= |raw|
  {
    if k == 0 then 0
    else
      LiveRevenue(raw, txs, k - 1) +
      (if Live(txs, k - 1) && raw[k - 1].total.Some? then raw[k - 1].total.value else 0)
  }

  function Without(txs: seq<Tx>, i: nat): seq<Tx>
    requires i < |txs|
  {
    txs[..i] + txs[i + 1..]
  }

  lemma {:induction false} RevenueWithout(txs: seq<Tx>, i: nat)
    requires i < |txs|
    ensures Revenue(txs) == Revenue(Without(txs, i)) + txs[i].fields.total
  {
    if i == |txs| - 1 {
      assert Without(txs, i) == txs[..|txs| - 1];
    } else {
      var last := |txs| - 1;
      RevenueWithout(txs[..last], i);
      assert Without(txs, i)[..last - 1] == Without(txs[..last], i);
    }
  }

  lemma {:induction false} LiveRevenueWithout(raw: seq<RawRow>, txs: seq<Tx>, i: nat, k: nat)
    requires OneTxPerRow(txs) && i < |txs| && k <= |raw| && txs[i].raw >= k
    ensures LiveRevenue(raw, txs, k) == LiveRevenue(raw, Without(txs, i), k)
  {
    if k > 0 {
      LiveRevenueWithout(raw, txs, i, k - 1);
      var rest := Without(txs, i);
      if Live(txs, k - 1) {
        var j :| 0 <= j < |txs| && txs[j].raw == k - 1;
        assert rest[if j < i then j else j - 1].raw == k - 1;
      }
    }
  }

  lemma WithoutFaithful(raw: seq<RawRow>, txs: seq<Tx>, i: nat, k: nat)
    requires TxsFaithful(raw, txs) && OneTxPerRow(txs) && i < |txs| && txs[i].raw == k && Below(txs, k + 1)
    ensures TxsFaithful(raw, Without(txs, i)) && OneTxPerRow(Without(txs, i)) && Below(Without(txs, i), k)
  {
    var rest := Without(txs, i);
    forall j | 0 <= j < |rest| ensures Faithful(raw, rest[j]) && rest[j].raw < k {
      assert rest[j] == txs[if j < i then j else j + 1];
    }
  }

  predicate Below(txs: seq<Tx>, k: nat) { forall i :: 0 <= i < |txs| ==> txs[i].raw < k }

  lemma {:induction false} TopRow(raw: seq<RawRow>, txs: seq<Tx>, k: nat, i: nat)
    requires OneTxPerRow(txs) && 0 < k <= |raw| && i < |txs| && txs[i].raw == k - 1 && Faithful(raw, txs[i])
    ensures LiveRevenue(raw, txs, k) == LiveRevenue(raw, Without(txs, i), k - 1) + txs[i].fields.total
  {
    LiveRevenueWithout(raw, txs, i, k - 1);
    assert Live(txs, k - 1);
  }

  lemma NotLiveBelow(txs: seq<Tx>, k: nat)
    requires k > 0 && Below(txs, k) && !Live(txs, k - 1)
    ensures Below(txs, k - 1)
  {
    forall i | 0 <= i < |txs| ensures txs[i].raw < k - 1 { assert txs[i].raw != k - 1; }
  }

  lemma NothingBelowZero(txs: seq<Tx>)
    ensures txs != [] ==> !Below(txs, 0)
  {
    if txs != [] { assert !(txs[0].raw < 0); }
  }

  lemma {:induction false} RevenueWithTop(raw: seq<RawRow>, txs: seq<Tx>, k: nat, i: nat)
    requires TxsFaithful(raw, txs) && OneTxPerRow(txs) && 0 < k <= |raw| && Below(txs, k) && i < |txs| &&
             txs[i].raw == k - 1
    requires Revenue(Without(txs, i)) == LiveRevenue(raw, Without(txs, i), k - 1)
    ensures Revenue(txs) == LiveRevenue(raw, txs, k)
  {
    assert Faithful(raw, txs[i]);
    RevenueWithout(txs, i);
    TopRow(raw, txs, k, i);
  }

  /** The transactions but the one of row `k`, if it is live. */
  lemma {:induction false} WithoutTop(raw: seq<RawRow>, txs: seq<Tx>, k: nat) returns (rest: seq<Tx>)
    requires TxsFaithful(raw, txs) && OneTxPerRow(txs) && k < |raw| && Below(txs, k + 1)
    ensures TxsFaithful(raw, rest) && OneTxPerRow(rest) && Below(rest, k)
    ensures Revenue(rest) == LiveRevenue(raw, rest, k) ==> Revenue(txs) == LiveRevenue(raw, txs, k + 1)
  {
    if i: nat :| i < |txs| && txs[i].raw == k {
      rest := WithoutLive(raw, txs, k, i);
    } else {
      rest := txs;
      NotLiveBelow(txs, k + 1);
    }
  }

  lemma {:induction false} WithoutLive(raw: seq<RawRow>, txs: seq<Tx>, k: nat, i: nat) returns (rest: seq<Tx>)
    requires TxsFaithful(raw, txs) && OneTxPerRow(txs) && k < |raw| && Below(txs, k + 1) && i < |txs| && txs[i].raw == k
    ensures TxsFaithful(raw, rest) && OneTxPerRow(rest) && Below(rest, k)
    ensures Revenue(rest) == LiveRevenue(raw, rest, k) ==> Revenue(txs) == LiveRevenue(raw, txs, k + 1)
  {
    rest := Without(txs, i);
    WithoutFaithful(raw, txs, i, k);
    if Revenue(rest) == LiveRevenue(raw, rest, k) { RevenueWithTop(raw, txs, k + 1, i); }
  }

  lemma {:induction false} RevenueOverRows(raw: seq<RawRow>, txs: seq<Tx>, k: nat)
    requires TxsFaithful(raw, txs) && OneTxPerRow(txs) && k <= |raw| && Below(txs, k)
    ensures Revenue(txs) == LiveRevenue(raw, txs, k)
    decreases k
  {
    if k == 0 {
      NothingBelowZero(txs);
    } else {
      var rest := WithoutTop(raw, txs, k - 1);
      RevenueOverRows(raw, rest, k - 1);
    }
  }

  /**
    Total revenue is the sum of the stated totals over the live rows: no correction is counted twice and
    none is lost.
   */
  lemma RevenueIsLiveRows(ops: seq<Op>)
    ensures var db := History(ops); Revenue(db.txs) == LiveRevenue(db.raw, db.txs, |db.raw|)
  {
    var st := EveryHistoryIsWf(ops);
    var db := History(ops);
    forall i | 0 <= i < |db.txs| ensures db.txs[i].raw < |db.raw| { assert Faithful(db.raw, db.txs[i]); }
    RevenueOverRows(db.raw, db.txs, |db.raw|);
  }

  // ----- which correction wins -----

  /** Every resolved row of row `n`'s key is at most `n`. */
  predicate NewestOfKey(db: Db, n: nat)
    requires n < |db.raw|
  {
    forall r :: 0 <= r < |db.raw| && !Unresolved(db, r) && SameKey(db.raw[r], db.raw[n]) ==> r <= n
  }

  /** The live row of each key is the newest resolved one. */
  predicate NewestWins(db: Db) {
    forall i :: 0 <= i < |db.txs| && db.txs[i].raw < |db.raw| ==> NewestOfKey(db, db.txs[i].raw)
  }

  lemma ReplacedStaysResolved(db: Db, st: Stamps, r: nat, f: Fields, q: nat)
    requires Wf(db, st) && Unresolved(db, r) && Existing(db, r) < |db.txs| && q < |db.raw|
    ensures Unresolved(Replace(db, Existing(db, r), r, f), q) <==> Unresolved(db, q) && q != r
  {
    LiveAfterReplace(db, st, Existing(db, r), r, f, q);
  }

  /**
    A correction keeps "newest wins" exactly when the raw row it replaces is older: an old row that
    starts to normalize late takes the place of a newer one.
   */
  lemma CorrectionKeepsNewestIff(db: Db, st: Stamps, r: nat, f: Fields)
    requires Wf(db, st) && Unresolved(db, r) && Existing(db, r) < |db.txs| && db.raw[r].total == Some(f.total) &&
             NewestWins(db)
    ensures NewestWins(Written(db, r, f)) <==> db.txs[Existing(db, r)].raw < r
  {
    var i := Existing(db, r);
    var d := Replace(db, i, r, f);
    ExistingHasKey(db, st, r);
    assert Written(db, r, f) == d;
    ReplacedIsNewestIff(db, st, r, f);
    assert d.txs[i].raw == r;
    if db.txs[i].raw < r {
      forall j | 0 <= j < |d.txs| && j != i ensures NewestOfKey(d, d.txs[j].raw) { OthersStayNewest(db, st, r, f, j); }
    }
  }

  lemma InsertKeepsNewest(db: Db, st: Stamps, r: nat, f: Fields)
    requires Wf(db, st) && Unresolved(db, r) && Existing(db, r) == |db.txs| && NewestWins(db)
    ensures NewestWins(Insert(db, r, f))
  {
    var d := Insert(db, r, f);
    forall q: nat | q < |db.raw|
      ensures Unresolved(d, q) <==> Unresolved(db, q) && q != r
    {
      LiveAfterInsert(db, r, f, q);
    }
    forall i | 0 <= i < |d.txs| && d.txs[i].raw < |d.raw| ensures NewestOfKey(d, d.txs[i].raw) {
      if i < |db.txs| {
        NoTxForKey(db, st, r, i);
        assert NewestOfKey(db, db.txs[i].raw);
      } else {
        NewKeyIsNewest(db, st, r);
      }
    }
  }

  /** No resolved row has the key of a row that finds no transaction. */
  lemma NewKeyIsNewest(db: Db, st: Stamps, r: nat)
    requires Wf(db, st) && Unresolved(db, r) && Existing(db, r) == |db.txs|
    ensures forall q: nat :: q < |db.raw| && !Unresolved(db, q) ==> !SameKey(db.raw[q], db.raw[r])
  {
    forall q: nat | q < |db.raw| && !Unresolved(db, q) ensures !SameKey(db.raw[q], db.raw[r]) {
      if q in db.superseded {
        var n, e := ChainFrom(db, st, q);
        var i :| 0 <= i < |db.txs| && db.txs[i].raw == e;
        NoTxForKey(db, st, r, i);
      } else {
        var i :| 0 <= i < |db.txs| && db.txs[i].raw == q;
        NoTxForKey(db, st, r, i);
      }
    }
  }

  /**
    Taking up one row keeps "newest wins" exactly when it fails, finds no transaction of its key, or finds
    an older one.
   */
  lemma RowKeepsNewestIff(db: Db, st: Stamps, r: nat, aliases: map<string, string>)
    requires Wf(db, st) && Unresolved(db, r) && NewestWins(db)
    ensures NewestWins(RunRow(db, r, aliases)) <==>
            NormalizeRow(db.raw[r], aliases).None? || Existing(db, r) == |db.txs| || db.txs[Existing(db, r)].raw < r
  {
    var f := NormalizeRow(db.raw[r], aliases);
    if f.None? {
      FailedKeepsNewest(db, r);
    } else if Existing(db, r) == |db.txs| {
      InsertKeepsNewest(db, st, r, f.value);
    } else {
      CorrectionKeepsNewestIff(db, st, r, f.value);
    }
  }

  lemma FailedKeepsNewest(db: Db, r: nat)
    requires NewestWins(db)
    ensures NewestWins(Failed(db, r))
  {
    forall i | 0 <= i < |db.txs| && db.txs[i].raw < |db.raw| ensures NewestOfKey(Failed(db, r), db.txs[i].raw) {
      assert NewestOfKey(db, db.txs[i].raw);
    }
  }

  lemma ReplacedIsNewestIff(db: Db, st: Stamps, r: nat, f: Fields)
    requires Wf(db, st) && Unresolved(db, r) && Existing(db, r) < |db.txs| && NewestWins(db)
    ensures NewestOfKey(Replace(db, Existing(db, r), r, f), r) <==> db.txs[Existing(db, r)].raw < r
  {
    var i := Existing(db, r);
    var d := Replace(db, i, r, f);
    ExistingHasKey(db, st, r);
    forall q: nat | q < |db.raw|
      ensures Unresolved(d, q) <==> Unresolved(db, q) && q != r
    {
      ReplacedStaysResolved(db, st, r, f, q);
    }
    var e := db.txs[i].raw;
    assert NewestOfKey(db, e);
    assert !Unresolved(d, e) && SameKey(d.raw[e], d.raw[r]);
  }

  lemma OthersStayNewest(db: Db, st: Stamps, r: nat, f: Fields, j: nat)
    requires Wf(db, st) && Unresolved(db, r) && Existing(db, r) < |db.txs| && NewestWins(db)
    requires j < |db.txs| && j != Existing(db, r)
    ensures db.txs[j].raw < |db.raw| && NewestOfKey(Replace(db, Existing(db, r), r, f), db.txs[j].raw)
  {
    OthersOfReplaced(db, st, r, j);
    var d := Replace(db, Existing(db, r), r, f);
    forall q: nat | q < |db.raw|
      ensures Unresolved(d, q) <==> Unresolved(db, q) && q != r
    {
      ReplacedStaysResolved(db, st, r, f, q);
    }
    assert NewestOfKey(db, db.txs[j].raw);
  }

  /** Exactly the first `w` rows are resolved, and they were normalized in order. */
  ghost predicate InOrder(st: Stamps, w: nat) {
    (forall r: nat :: r in st <==> r < w) && (forall r, q :: r in st && q in st && r < q ==> st[r] < st[q])
  }

  lemma InOrderNewestWins(db: Db, st: Stamps, w: nat)
    requires Wf(db, st) && InOrder(st, w)
    ensures NewestWins(db)
  {
    forall i | 0 <= i < |db.txs| && db.txs[i].raw < |db.raw| ensures NewestOfKey(db, db.txs[i].raw) {
      var n := db.txs[i].raw;
      assert LastOfKey(db.raw, st, n);
      forall r | 0 <= r < |db.raw| && !Unresolved(db, r) && SameKey(db.raw[r], db.raw[n]) ensures r <= n {
        assert r in st;
      }
    }
  }

  lemma {:induction false} UnresolvedAreTheRest(db: Db, st: Stamps, w: nat, k: nat)
    requires Wf(db, st) && InOrder(st, w) && w <= |db.raw| && k <= |db.raw|
    ensures var from := if k < w then w else k;
            |UnresolvedFrom(db, k)| == |db.raw| - from &&
              forall i :: 0 <= i < |UnresolvedFrom(db, k)| ==> UnresolvedFrom(db, k)[i] == from + i
    decreases |db.raw| - k
  {
    if k < |db.raw| {
      UnresolvedAreTheRest(db, st, w, k + 1);
      assert Unresolved(db, k) <==> k !in st;
    }
  }

  predicate AllReadable(db: Db, ids: seq<nat>, aliases: map<string, string>)
    requires Rows(db, ids)
  {
    forall i :: 0 <= i < |ids| ==> NormalizeRow(db.raw[ids[i]], aliases).Some?
  }

  lemma StampedInOrder(st: Stamps, w: nat)
    requires InOrder(st, w) && StampsDistinct(st)
    ensures InOrder(Stamped(st, w), w + 1)
  {
  }

  lemma FrontRows(db: Db, ids: seq<nat>, aliases: map<string, string>)
    requires ids != [] && AllUnresolved(db, ids) && AllReadable(db, ids, aliases)
    ensures AllUnresolved(db, ids[..|ids| - 1]) && AllReadable(db, ids[..|ids| - 1], aliases)
  {
  }

  lemma RowsStampsStep(db: Db, st: Stamps, ids: seq<nat>, aliases: map<string, string>)
    requires ids != [] && AllUnresolved(db, ids) && AllReadable(db, ids, aliases)
    ensures RowsStamps(db, st, ids, aliases) == Stamped(RowsStamps(db, st, ids[..|ids| - 1], aliases), ids[|ids| - 1])
  {
  }

  /** The stamps after normalizing each of `ids`. */
  function StampAll(st: Stamps, ids: seq<nat>): Stamps {
    if ids == [] then st else Stamped(StampAll(st, ids[..|ids| - 1]), ids[|ids| - 1])
  }

  lemma {:induction false} ReadableStamps(db: Db, st: Stamps, ids: seq<nat>, aliases: map<string, string>)
    requires AllUnresolved(db, ids) && AllReadable(db, ids, aliases)
    ensures RowsStamps(db, st, ids, aliases) == StampAll(st, ids)
  {
    if ids != [] {
      FrontRows(db, ids, aliases);
      ReadableStamps(db, st, ids[..|ids| - 1], aliases);
      RowsStampsStep(db, st, ids, aliases);
    }
  }

  lemma {:induction false} StampAllInOrder(st: Stamps, w: nat, ids: seq<nat>)
    requires InOrder(st, w) && StampsDistinct(st) && forall i :: 0 <= i < |ids| ==> ids[i] == w + i
    ensures InOrder(StampAll(st, ids), w + |ids|) && StampsDistinct(StampAll(st, ids))
  {
    if ids != [] {
      var front, last := ids[..|ids| - 1], ids[|ids| - 1];
      StampAllInOrder(st, w, front);
      StampedInOrder(StampAll(st, front), last);
      StampedDistinct(StampAll(st, front), last);
    }
  }

  lemma RowsInOrder(db: Db, st: Stamps, w: nat, ids: seq<nat>, aliases: map<string, string>)
    requires StampsDistinct(st) && InOrder(st, w) && AllUnresolved(db, ids) &&
             (forall i :: 0 <= i < |ids| ==> ids[i] == w + i)
    requires AllReadable(db, ids, aliases)
    ensures InOrder(RowsStamps(db, st, ids, aliases), w + |ids|)
  {
    ReadableStamps(db, st, ids, aliases);
    StampAllInOrder(st, w, ids);
  }

  /** No row of any pass fails to normalize. */
  predicate NeverFails(ops: seq<Op>) {
    ops == [] ||
    (NeverFails(ops[..|ops| - 1]) &&
     (var db, op := History(ops[..|ops| - 1]), ops[|ops| - 1];
      op.Normalize? ==> AllReadable(db, PassIds(db, op.limit), op.aliases)))
  }

  lemma PassInOrder(db: Db, st: Stamps, w: nat, aliases: map<string, string>, limit: nat)
    requires Wf(db, st) && InOrder(st, w) && w <= |db.raw| && AllReadable(db, PassIds(db, limit), aliases)
    ensures var ids := PassIds(db, limit);
            Wf(Run(db, aliases, limit), RowsStamps(db, st, ids, aliases)) &&
              InOrder(RowsStamps(db, st, ids, aliases), w + |ids|) &&
            w + |ids| <= |db.raw|
  {
    var ids := PassIds(db, limit);
    assert |ids| <= |db.raw| - w && forall i :: 0 <= i < |ids| ==> ids[i] == w + i by {
      UnresolvedAreTheRest(db, st, w, 0);
    }
    RunRowsKeepsWf(db, st, ids, aliases);
    RowsInOrder(db, st, w, ids, aliases);
  }

  lemma IngestKeepsWf(db: Db, st: Stamps, rows: seq<RawRow>)
    requires Wf(db, st)
    ensures Wf(Apply(db, Ingest(rows)), st) && |db.raw| <= |Apply(db, Ingest(rows)).raw|
  {
    var more := InsertAllExtends(db.raw, rows);
    GrowRaw(db, st, more);
  }

  lemma {:induction false} CleanHistoryInOrder(ops: seq<Op>) returns (st: Stamps, w: nat)
    requires NeverFails(ops)
    ensures Wf(History(ops), st) && InOrder(st, w) && w <= |History(ops).raw|
  {
    st, w := map[], 0;
    if ops != [] {
      var db, op := History(ops[..|ops| - 1]), ops[|ops| - 1];
      st, w := CleanHistoryInOrder(ops[..|ops| - 1]);
      if op.Ingest? {
        IngestKeepsWf(db, st, op.rows);
      } else {
        var ids := PassIds(db, op.limit);
        PassInOrder(db, st, w, op.aliases, op.limit);
        st, w := RowsStamps(db, st, ids, op.aliases), w + |ids|;
      }
    }
  }

  /** When no row ever fails and passes do not overlap, the newest export of a transaction always wins. */
  lemma NewestExportWins(ops: seq<Op>)
    requires NeverFails(ops)
    ensures NewestWins(History(ops))
  {
    var st, w := CleanHistoryInOrder(ops);
    InOrderNewestWins(History(ops), st, w);
  }
}
