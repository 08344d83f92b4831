/**
  Storing a file's rows source by source, with storage failures and retries, and archiving the
  file without ever overwriting an earlier one.
 */
module Delivery {
  import opened Common
  import opened Decimal
  import opened Normalization
  import opened Pipeline

  // ----- grouping by source -----

  /** Sources in order of first appearance. */
  function Sources(rows: seq<RawRow>): seq<string> {
    if rows == [] then []
    else
      var front, s := Sources(rows[..|rows| - 1]), rows[|rows| - 1].source;
      if s in front then front else front + [s]
  }

  function Of(rows: seq<RawRow>, source: string): seq<RawRow> {
    if rows == [] then []
    else Of(rows[..|rows| - 1], source) + (if rows[|rows| - 1].source == source then [rows[|rows| - 1]] else [])
  }

  /** The rows in the order they are written: one source after another. */
  function Grouped(rows: seq<RawRow>, order: seq<string>): seq<RawRow> {
    if order == [] then [] else Grouped(rows, order[..|order| - 1]) + Of(rows, order[|order| - 1])
  }

  function Min(a: nat, b: nat): nat { if a < b then a else b }

  /** The raw table after the writes of the first `k` sources have committed. */
  function Attempt(raw: seq<RawRow>, rows: seq<RawRow>, k: nat): seq<RawRow> {
    InsertAll(raw, Grouped(rows, Sources(rows)[..Min(k, |Sources(rows)|)]))
  }

  method GroupRows(rows: seq<RawRow>) returns (groups: map<string, seq<RawRow>>, order: seq<string>)
    ensures order == Sources(rows)
    ensures forall s :: s in order ==> s in groups && groups[s] == Of(rows, s)
  {
    groups, order := map[], [];
    for i := 0 to |rows|
      invariant order == Sources(rows[..i])
      invariant forall s :: s in groups <==> s in order
      invariant forall s :: s in groups ==> groups[s] == Of(rows[..i], s)
      invariant forall s :: s !in groups ==> Of(rows[..i], s) == []
    {
      assert rows[..i + 1][..i] == rows[..i];
      var s := rows[i].source;
      if s !in groups {
        groups := groups[s := []];
        order := order + [s];
      }
      groups := groups[s := groups[s] + [rows[i]]];
    }
    assert rows[..|rows|] == rows;
  }

  lemma OneMoreGroup(raw: seq<RawRow>, rows: seq<RawRow>, k: nat)
    requires k < |Sources(rows)|
    ensures Attempt(raw, rows, k + 1) == InsertAll(Attempt(raw, rows, k), Of(rows, Sources(rows)[k]))
  {
    var order := Sources(rows);
    assert order[..k + 1][..k] == order[..k];
    InsertAllConcat(raw, Grouped(rows, order[..k]), Of(rows, order[k]));
  }

  /**
    One attempt to store a file's rows; storage fails at the write of source number `failAt`, if
    there are that many. Writes already committed stay.
   */
  method StoreRows(store: Store, rows: seq<RawRow>, failAt: nat) returns (ok: bool, inserted: nat)
    modifies store`raw
    ensures store.raw == Attempt(old(store.raw), rows, failAt)
    ensures ok <==> failAt >= |Sources(rows)|
    ensures ok ==> inserted == |store.raw| - |old(store.raw)|
  {
    var groups, order := GroupRows(rows);
    inserted := 0;
    assert Grouped(rows, order[..0]) == [];
    for k := 0 to |order|
      invariant k <= failAt && store.raw == Attempt(old(store.raw), rows, k)
      invariant inserted == |store.raw| - |old(store.raw)|
    {
      if k == failAt { return false, 0; }
      OneMoreGroup(old(store.raw), rows, k);
      assert order[k] in order;
      var n := store.WriteRawTransactions(groups[order[k]]);
      inserted := inserted + n;
    }
    return true, inserted;
  }

  // ----- inserting is idempotent -----

  lemma {:induction false} InsertAllConcat(raw: seq<RawRow>, a: seq<RawRow>, b: seq<RawRow>)
    ensures InsertAll(raw, a + b) == InsertAll(InsertAll(raw, a), b)
  {
    if b == [] {
      assert a + b == a;
    } else {
      assert (a + b)[..|a + b| - 1] == a + b[..|b| - 1];
      InsertAllConcat(raw, a, b[..|b| - 1]);
    }
  }

  lemma {:induction false} InsertAllKeeps(raw: seq<RawRow>, rows: seq<RawRow>)
    ensures raw <= InsertAll(raw, rows)
    ensures forall i :: 0 <= i < |rows| ==> HasText(InsertAll(raw, rows), rows[i].text)
    ensures forall i :: |raw| <= i < |InsertAll(raw, rows)| ==> InsertAll(raw, rows)[i] in rows
  {
    if rows != [] {
      var front, last := rows[..|rows| - 1], rows[|rows| - 1];
      InsertAllKeeps(raw, front);
      var before, after := InsertAll(raw, front), InsertAll(raw, rows);
      forall i | 0 <= i < |rows| ensures HasText(after, rows[i].text) {
        if i < |front| {
          var j :| 0 <= j < |before| && before[j].text == front[i].text;
          assert after[j].text == rows[i].text;
        } else if !HasText(before, last.text) {
          assert after[|before|].text == last.text;
        }
      }
    }
  }

  lemma {:induction false} InsertAllPresent(raw: seq<RawRow>, rows: seq<RawRow>)
    requires forall i :: 0 <= i < |rows| ==> HasText(raw, rows[i].text)
    ensures InsertAll(raw, rows) == raw
  {
    if rows != [] { InsertAllPresent(raw, rows[..|rows| - 1]); }
  }

  /** Storing part of a batch first changes nothing about storing all of it. */
  lemma PartThenAll(raw: seq<RawRow>, part: seq<RawRow>, rest: seq<RawRow>)
    ensures InsertAll(InsertAll(raw, part), part + rest) == InsertAll(raw, part + rest)
  {
    InsertAllKeeps(raw, part);
    InsertAllPresent(InsertAll(raw, part), part);
    InsertAllConcat(InsertAll(raw, part), part, rest);
    InsertAllConcat(raw, part, rest);
  }

  lemma {:induction false} GroupedPrefix(rows: seq<RawRow>, order: seq<string>, k: nat) returns (rest: seq<RawRow>)
    requires k <= |order|
    ensures Grouped(rows, order) == Grouped(rows, order[..k]) + rest
  {
    if k == |order| {
      assert order[..k] == order;
      rest := [];
    } else {
      var front := order[..|order| - 1];
      rest := GroupedPrefix(rows, front, k);
      assert front[..k] == order[..k];
      rest := rest + Of(rows, order[|order| - 1]);
    }
  }

  /** The raw table when the file's rows are stored in one go. */
  function Complete(raw: seq<RawRow>, rows: seq<RawRow>): seq<RawRow> { InsertAll(raw, Grouped(rows, Sources(rows))) }

  lemma AttemptThenComplete(raw: seq<RawRow>, rows: seq<RawRow>, k: nat)
    ensures Complete(Attempt(raw, rows, k), rows) == Complete(raw, rows)
  {
    var order := Sources(rows);
    var m := Min(k, |order|);
    var rest := GroupedPrefix(rows, order, m);
    PartThenAll(raw, Grouped(rows, order[..m]), rest);
  }

  function Attempts(raw: seq<RawRow>, rows: seq<RawRow>, failures: seq<nat>): seq<RawRow>
    decreases |failures|
  {
    if failures == [] then raw else Attempts(Attempt(raw, rows, failures[0]), rows, failures[1..])
  }

  /**
    However many attempts failed, and wherever, the attempt that succeeds leaves the table a first success
    would have left.
   */
  lemma {:induction false} RetriesConverge(raw: seq<RawRow>, rows: seq<RawRow>, failures: seq<nat>)
    ensures Complete(Attempts(raw, rows, failures), rows) == Complete(raw, rows)
    decreases |failures|
  {
    if failures != [] {
      RetriesConverge(Attempt(raw, rows, failures[0]), rows, failures[1..]);
      AttemptThenComplete(raw, rows, failures[0]);
    }
  }

  // ----- what a file adds -----

  predicate DistinctTexts(raw: seq<RawRow>) { forall i, j :: 0 <= i < j < |raw| ==> raw[i].text != raw[j].text }

  lemma {:induction false} InsertAllDistinct(raw: seq<RawRow>, rows: seq<RawRow>)
    requires DistinctTexts(raw)
    ensures DistinctTexts(InsertAll(raw, rows))
  {
    if rows != [] { InsertAllDistinct(raw, rows[..|rows| - 1]); }
  }

  lemma {:induction false} OfAppended(rows: seq<RawRow>, x: RawRow, source: string)
    ensures Of(rows + [x], source) == Of(rows, source) + (if x.source == source then [x] else [])
  {
    assert (rows + [x])[..|rows|] == rows;
  }

  predicate DistinctStrings(order: seq<string>) { forall i, j :: 0 <= i < j < |order| ==> order[i] != order[j] }

  function One(present: bool, x: RawRow): multiset<RawRow> { if present then multiset{x} else multiset{} }

  lemma LastIsDistinct(order: seq<string>)
    requires DistinctStrings(order) && order != []
    ensures order[|order| - 1] !in order[..|order| - 1] && DistinctStrings(order[..|order| - 1])
    ensures forall s :: s in order <==> s in order[..|order| - 1] || s == order[|order| - 1]
  {
    assert order == order[..|order| - 1] + [order[|order| - 1]];
  }

  lemma {:induction false} GroupedAppended(rows: seq<RawRow>, x: RawRow, order: seq<string>)
    requires DistinctStrings(order)
    ensures multiset(Grouped(rows + [x], order)) == multiset(Grouped(rows, order)) + One(x.source in order, x)
  {
    if order != [] {
      var front, last := order[..|order| - 1], order[|order| - 1];
      LastIsDistinct(order);
      GroupedAppended(rows, x, front);
      OfAppended(rows, x, last);
      assert multiset(Of(rows + [x], last)) == multiset(Of(rows, last)) + One(x.source == last, x);
      assert One(x.source in order, x) == One(x.source in front, x) + One(x.source == last, x);
    }
  }

  lemma {:induction false} SourcesDistinct(rows: seq<RawRow>)
    ensures DistinctStrings(Sources(rows))
    ensures forall i :: 0 <= i < |rows| ==> rows[i].source in Sources(rows)
  {
    if rows != [] {
      var front, last := rows[..|rows| - 1], rows[|rows| - 1];
      SourcesDistinct(front);
      var before, after := Sources(front), Sources(rows);
      assert last.source in after by {
        if last.source !in before { assert after[|before|] == last.source; }
      }
      forall i | 0 <= i < |front| ensures rows[i].source in after { assert front[i].source in before; }
    }
  }

  lemma {:induction false} NoRowsOfSource(rows: seq<RawRow>, source: string)
    requires source !in Sources(rows)
    ensures Of(rows, source) == []
  {
    if rows != [] { NoRowsOfSource(rows[..|rows| - 1], source); }
  }

  /** Grouping by source loses no row and invents none. */
  lemma {:induction false} GroupingLosesNothing(rows: seq<RawRow>)
    ensures multiset(Grouped(rows, Sources(rows))) == multiset(rows)
  {
    if rows != [] {
      var front, x := rows[..|rows| - 1], rows[|rows| - 1];
      assert rows == front + [x];
      GroupingLosesNothing(front);
      SourcesDistinct(front);
      GroupedAppended(front, x, Sources(front));
      if x.source !in Sources(front) {
        NoRowsOfSource(front, x.source);
        OfAppended(front, x, x.source);
        var order := Sources(front) + [x.source];
        assert order[..|order| - 1] == Sources(front);
      } else {
        assert One(true, x) == multiset{x};
      }
    }
  }

  predicate AllStored(raw: seq<RawRow>, rows: seq<RawRow>) {
    forall i :: 0 <= i < |rows| ==> HasText(raw, rows[i].text)
  }

  /** Rows `k` on are among `rows`. */
  predicate OnlyFrom(raw: seq<RawRow>, k: nat, rows: seq<RawRow>) { forall i :: k <= i < |raw| ==> raw[i] in rows }

  lemma SameRows(raw: seq<RawRow>, k: nat, all: seq<RawRow>, rows: seq<RawRow>)
    requires multiset(all) == multiset(rows) && AllStored(raw, all) && OnlyFrom(raw, k, all)
    ensures AllStored(raw, rows) && OnlyFrom(raw, k, rows)
  {
    forall i | 0 <= i < |rows| ensures HasText(raw, rows[i].text) {
      assert rows[i] in multiset(rows);
      assert rows[i] in all;
    }
    forall i | k <= i < |raw| ensures raw[i] in rows { assert raw[i] in multiset(all); }
  }

  /**
    A stored file: its payloads are all in the table, once each, after everything that was there before and
    nothing else.
   */
  lemma FileStoredOnce(raw: seq<RawRow>, rows: seq<RawRow>)
    requires DistinctTexts(raw)
    ensures var after := Complete(raw, rows);
            raw <= after && DistinctTexts(after) && AllStored(after, rows) && OnlyFrom(after, |raw|, rows)
  {
    var all := Grouped(rows, Sources(rows));
    GroupingLosesNothing(rows);
    InsertAllKeeps(raw, all);
    InsertAllDistinct(raw, all);
    SameRows(Complete(raw, rows), |raw|, all, rows);
  }

  lemma {:induction false} OfHas(rows: seq<RawRow>, source: string, x: RawRow)
    ensures x in Of(rows, source) <==> x in rows && x.source == source
  {
    if rows != [] {
      var front, last := rows[..|rows| - 1], rows[|rows| - 1];
      assert rows == front + [last];
      OfHas(front, source, x);
    }
  }

  lemma {:induction false} GroupedHas(rows: seq<RawRow>, order: seq<string>, x: RawRow)
    ensures x in Grouped(rows, order) <==> x in rows && x.source in order
  {
    if order != [] {
      var front, last := order[..|order| - 1], order[|order| - 1];
      assert order == front + [last];
      GroupedHas(rows, front, x);
      OfHas(rows, last, x);
    }
  }

  /** An attempt that fails at source number `k` keeps the rows of the sources before it, and adds no others. */
  lemma FailedAttemptKeeps(raw: seq<RawRow>, rows: seq<RawRow>, k: nat, x: RawRow)
    requires k <= |Sources(rows)|
    ensures var (after, done) := (Attempt(raw, rows, k), Sources(rows)[..k]);
            raw <= after && (x in rows && x.source in done ==> HasText(after, x.text)) &&
            (x in after[|raw|..] ==> x in rows && x.source in done)
  {
    var all := Grouped(rows, Sources(rows)[..k]);
    InsertAllKeeps(raw, all);
    GroupedHas(rows, Sources(rows)[..k], x);
    if x in all { var i :| 0 <= i < |all| && all[i] == x; }
  }

  /** Sources come in the order in which the file first names them: a longer file only adds sources at the end. */
  lemma {:induction false} SourcesInOrder(rows: seq<RawRow>, more: seq<RawRow>)
    ensures Sources(rows) <= Sources(rows + more)
    ensures forall s :: s in Sources(rows) <==> exists i :: 0 <= i < |rows| && rows[i].source == s
    decreases |rows| + |more|, |more|
  {
    if more != [] {
      var front, last := more[..|more| - 1], more[|more| - 1];
      assert (rows + more)[..|rows + more| - 1] == rows + front;
      SourcesInOrder(rows, front);
    } else {
      assert rows + more == rows;
      SourcesAre(rows);
    }
  }

  lemma {:induction false} SourcesAre(rows: seq<RawRow>)
    ensures forall s :: s in Sources(rows) <==> exists i :: 0 <= i < |rows| && rows[i].source == s
  {
    if rows != [] {
      var front, last := rows[..|rows| - 1], rows[|rows| - 1];
      SourcesAre(front);
      forall s ensures s in Sources(rows) <==> exists i :: 0 <= i < |rows| && rows[i].source == s {
        assert s in Sources(rows) <==> s in Sources(front) || s == last.source;
        if s in Sources(front) {
          var i :| 0 <= i < |front| && front[i].source == s;
          assert rows[i].source == s;
        }
        if s == last.source { assert rows[|rows| - 1].source == s; }
        if i :| 0 <= i < |rows| && rows[i].source == s { assert i < |front| ==> front[i].source == s; }
      }
    }
  }

  // ----- archiving -----

  /** Name number `i` tried when the plain one is taken. */
  function Candidate(stem: string, stamp: string, i: nat, ext: string): string {
    stem + "_" + stamp + (if i == 0 then "" else "-" + Itoa(i)) + ext
  }

  lemma CandidatesDiffer(stem: string, stamp: string, i: nat, j: nat, ext: string)
    requires Candidate(stem, stamp, i, ext) == Candidate(stem, stamp, j, ext)
    ensures i == j
  {
    var a, b := if i == 0 then "" else "-" + Itoa(i), if j == 0 then "" else "-" + Itoa(j);
    var front := stem + "_" + stamp;
    var x, y := Candidate(stem, stamp, i, ext), Candidate(stem, stamp, j, ext);
    assert |x| == |front| + |a| + |ext| && |y| == |front| + |b| + |ext|;
    assert a == x[|front|..|front| + |a|] && b == y[|front|..|front| + |b|];
    if i != 0 && j != 0 {
      assert a[1..] == Itoa(i) && b[1..] == Itoa(j);
      ItoaInjective(i, j);
    }
  }

  /** A name not in use, found after at most as many tries as there are names in use. */
  method UniqueName(existing: set<string>, name: string, stem: string, ext: string, stamp: string) returns (dst: string)
    ensures dst !in existing
    ensures name !in existing ==> dst == name
  {
    if name !in existing { return name; }
    var i := 0;
    ghost var tried: set<string> := {};
    while true
      invariant tried <= existing && |tried| == i
      invariant forall k :: 0 <= k && Candidate(stem, stamp, k, ext) in tried ==> k < i
      decreases |existing| - i
    {
      dst := Candidate(stem, stamp, i, ext);
      if dst !in existing { return; }
      forall k: nat | Candidate(stem, stamp, k, ext) in tried + {dst} ensures k < i + 1 {
        if Candidate(stem, stamp, k, ext) == dst { CandidatesDiffer(stem, stamp, k, i, ext); }
      }
      tried := tried + {dst};
      SubsetSize(tried, existing);
      i := i + 1;
    }
  }

  lemma SubsetSize(a: set<string>, b: set<string>)
    requires a <= b
    ensures |a| <= |b|
  {
    assert b == a + (b - a);
  }

  /** Contents by file name, in a watch folder and its two archives. */
  class DropFolder {
    var files: map<string, string>
    var processed: map<string, string>
    var failed: map<string, string>

    /** Moves a file into the processed or failed archive. */
    method Archive(name: string, ok: bool, stem: string, ext: string, stamp: string) returns (dst: string)
      requires name in files
      modifies this
      ensures files == old(files) - {name}
      ensures ok ==>
                dst !in old(processed) && processed == old(processed)[dst := old(files)[name]] && failed == old(failed)
      ensures !ok ==>
                dst !in old(failed) && failed == old(failed)[dst := old(files)[name]] && processed == old(processed)
    {
      dst := UniqueName(if ok then processed.Keys else failed.Keys, name, stem, ext, stamp);
      if ok { processed := processed[dst := files[name]]; } else { failed := failed[dst := files[name]]; }
      files := files - {name};
    }

    /** Writes the rows that could not be read beside the failed files, under a name of their own. */
    method WriteRejects(content: string, stem: string, ext: string, stamp: string)
      modifies this`failed
      ensures KeptAs(old(failed), failed, content)
    {
      var dst := UniqueName(failed.Keys, stem + ".rejected" + ext, stem + ".rejected", ext, stamp);
      failed := failed[dst := content];
    }

    /**
      One pass over one file. `rows` is None when the header is bad; `rejects` is what is written for the owner to
      correct, None when every row was readable or the write failed. A file leaves the folder only once its rows are
      stored or it is known to hold none; a storage failure leaves it for a retry, which writes its rejects again.
     */
    method ProcessFile(store: Store, name: string, rows: Option<seq<RawRow>>, rejects: Option<string>, failAt: nat,
                       stem: string, ext: string, stamp: string)
      modifies this, store`raw
      ensures name !in old(files) ==> unchanged(this) && store.raw == old(store.raw)
      ensures name in old(files) && (rows.None? || rows.value == []) ==>
                store.raw == old(store.raw) && files == old(files) - {name} && processed == old(processed) &&
                  KeptAs(old(failed), failed, old(files)[name])
      ensures name in old(files) && rows.Some? && rows.value != [] ==>
                store.raw == Attempt(old(store.raw), rows.value, failAt) &&
                (if rejects.None? then failed == old(failed) else KeptAs(old(failed), failed, rejects.value)) &&
                if failAt < |Sources(rows.value)| then files == old(files) && processed == old(processed)
                else files == old(files) - {name} && KeptAs(old(processed), processed, old(files)[name])
    {
      if name !in files { return; }
      var dst: string;
      if rows.None? || rows.value == [] {
        dst := Archive(name, false, stem, ext, stamp);
        return;
      }
      if rejects.Some? { WriteRejects(rejects.value, stem, ext, stamp); }
      var ok, inserted := StoreRows(store, rows.value, failAt);
      if ok { dst := Archive(name, true, stem, ext, stamp); }
    }
  }

  /** `after` is `before` with one more file of this content; nothing was overwritten. */
  ghost predicate KeptAs(before: map<string, string>, after: map<string, string>, content: string) {
    exists dst :: dst in after && dst !in before && after == before[dst := content]
  }
}
