/**
  Why a bad release cannot flap: with finitely many releases, a measure falls at every switch and at
  every rollback, whatever power cuts there are outside three writes.
 */
module UpdateProgress {
  import opened Common
  import V = Version
  import opened UpdateProtocol

  /**
    Neither a bundled core, nor support clearing the quarantine, nor a cut that loses the rollback target or forgets a
    failed version.
   */
  predicate Quiet(s: State, a: Action) {
    !a.ClearQuarantine? && !(a.Boot? && a.bundled.Some?) && !a.AdoptStep? && !CutsOffPending(s, a) &&
      !ForgetsFailed(s, a)
  }

  /** Only releases in `releases` are offered, and only versions in `failing` are rolled back from. */
  predicate Within(s: State, a: Action, releases: set<Version>, failing: set<Version>) {
    Quiet(s, a) && (a.CheckFinds? ==> a.release in releases) && (IsRollback(s, a) ==> s.launcher.failed in failing)
  }

  predicate AllWithin(o: Ordering, s: State, run: seq<Action>, releases: set<Version>, failing: set<Version>)
    requires Runs(o, s, run)
    decreases |run|
  {
    run == [] || (Within(s, run[0], releases, failing) && AllWithin(o, Next(o, s, run[0]), run[1..], releases, failing))
  }

  predicate In(p: Option<Version>, releases: set<Version>) { p.Some? ==> p.value in releases }

  predicate Distinct(q: seq<Version>) { forall i, j :: 0 <= i < j < |q| ==> q[i] != q[j] }

  /**
    No bundled core is being adopted, everything the launcher may run is a known release, and a staged one
    is strictly newer.
   */
  predicate Tracked(o: Ordering, s: State, releases: set<Version>, failing: set<Version>) {
    var d := s.disk;
    && !s.launcher.Installing? && !s.launcher.Adopting?
    && d.current.Some? && In(d.current, releases) && In(d.previous, releases) && In(d.pending, releases)
    && (forall r :: r in releases ==> o.orderly(r))
    && (s.core.Staging? ==> s.core.v in releases)
    && (d.pending.Some? && !(s.launcher.Switching? && s.launcher.step == 2) ==>
      o.compare(d.current.value, d.pending.value) < 0)
    && (s.launcher.RollingBack? && s.launcher.step >= 1 ==> s.launcher.failed in failing)
    && Distinct(d.quarantine) && (forall v :: v in d.quarantine ==> v in failing) && |failing| <= QUARANTINE_LIMIT
  }

  /** Quarantined versions, counting the one a rollback under way is about to quarantine. */
  function Failed(s: State): set<Version> {
    (set v | v in s.disk.quarantine) +
    (if s.launcher.RollingBack? && 1 <= s.launcher.step <= 2 then {s.launcher.failed} else {})
  }

  function Above(o: Ordering, releases: set<Version>, current: Version): set<Version> {
    set r | r in releases && o.compare(r, current) > 0
  }

  /** Lexicographic in `u`, then `a <= n`. */
  function Lex(u: nat, a: nat, n: nat): nat { MulNat(u, n + 1) + a }

  function MulNat(a: nat, b: nat): nat { if a == 0 then 0 else b + MulNat(a - 1, b) }

  function Unfailed(s: State, releases: set<Version>): set<Version> { releases - Failed(s) }

  /** First the releases that have not failed here, then the releases above current. */
  function Measure(o: Ordering, s: State, releases: set<Version>): nat
    requires s.disk.current.Some?
  {
    Lex(|Unfailed(s, releases)|, |Above(o, releases, s.disk.current.value)|, |releases|)
  }

  lemma {:induction false} DistinctFits(q: seq<Version>, among: set<Version>)
    requires Distinct(q) && forall v :: v in q ==> v in among
    ensures |q| <= |among|
  {
    if q != [] {
      var last := q[|q| - 1];
      forall v | v in q[..|q| - 1] ensures v in among - {last} {
        var i :| 0 <= i < |q| - 1 && q[i] == v;
      }
      DistinctFits(q[..|q| - 1], among - {last});
      assert last in q && last in among;
    }
  }

  /** The list has room for every version that fails here, so nothing is forgotten. */
  lemma QuarantineRemembersAll(q: seq<Version>, v: Version, failing: set<Version>)
    requires Distinct(q) && (forall w :: w in q ==> w in failing) && v in failing && |failing| <= QUARANTINE_LIMIT
    ensures Distinct(Quarantine(q, v)) && forall w :: w in Quarantine(q, v) <==> w in q || w == v
  {
    if v !in q { DistinctFits(q + [v], failing); }
  }

  /** A full list forgets its oldest entry exactly when a version not in it is added. */
  lemma QuarantineForgetsIff(q: seq<Version>, v: Version)
    requires Distinct(q) && q != [] && |q| <= 20
    ensures q[0] !in Quarantine(q, v) <==> |q| == 20 && v !in q
    ensures (forall i :: 1 <= i < |q| ==> q[i] in Quarantine(q, v)) && v in Quarantine(q, v)
  {
    if |q| == 20 && v !in q {
      assert Quarantine(q, v) == q[1..] + [v];
      assert forall i :: 1 <= i < |q| ==> q[i] == Quarantine(q, v)[i - 1];
    } else if v !in q {
      assert Quarantine(q, v) == q + [v];
      assert forall i :: 0 <= i < |q| ==> q[i] == Quarantine(q, v)[i];
    }
  }

  lemma SubsetCardinality(a: set<Version>, b: set<Version>)
    requires a <= b
    ensures |a| <= |b|
    ensures a != b ==> |a| < |b|
  {
    assert |b| == |a| + |b - a| by { assert b == a + (b - a); }
    if a != b { assert |b - a| > 0 by { assert b - a != {}; } }
  }

  lemma SwitchShrinksAbove(o: Ordering, releases: set<Version>, current: Version, next: Version)
    requires (forall r :: r in releases ==> o.orderly(r)) && current in releases && next in releases &&
             o.compare(current, next) < 0
    ensures |Above(o, releases, next)| < |Above(o, releases, current)|
  {
    forall r | r in Above(o, releases, next) ensures r in Above(o, releases, current) {
    }
    assert next in Above(o, releases, current) && next !in Above(o, releases, next);
    SubsetCardinality(Above(o, releases, next), Above(o, releases, current));
  }

  lemma RollbackShrinksUnfailed(o: Ordering, s: State, releases: set<Version>)
    requires Inv(o, s) && QuarantineFree(o, s) && s.launcher.RollingBack? && s.launcher.step == 0 &&
             s.launcher.failed in releases
    ensures |Unfailed(Next(o, s, RollbackStep), releases)| + 1 == |Unfailed(s, releases)|
  {
    var t := Next(o, s, RollbackStep);
    var failed := s.launcher.failed;
    assert failed in Unfailed(s, releases);
    assert Unfailed(t, releases) == Unfailed(s, releases) - {failed};
  }

  lemma StepTracked(o: Ordering, s: State, a: Action, releases: set<Version>, failing: set<Version>)
    requires Inv(o, s) && Tracked(o, s, releases, failing) && Enabled(o, s, a) && Within(s, a, releases, failing)
    ensures Tracked(o, Next(o, s, a), releases, failing) && Orderly(o, a)
  {
    match a
    case CheckFinds(v) =>
    case StageStep =>
    case RollbackStep =>
      var RollingBack(failed, prev, step) := s.launcher;
      if step == 2 { QuarantineRemembersAll(s.disk.quarantine, failed, failing); }
    case _ =>
  }

  function Ticks(b: bool): nat { if b then 1 else 0 }

  lemma FailedGrows(o: Ordering, s: State, a: Action, releases: set<Version>, failing: set<Version>)
    requires Inv(o, s) && Tracked(o, s, releases, failing) && Enabled(o, s, a) && Within(s, a, releases, failing)
    ensures Failed(Next(o, s, a)) == Failed(s) + (if IsRollback(s, a) then {s.launcher.failed} else {})
  {
    if a.RollbackStep? {
      if s.launcher.step == 2 { QuarantineRemembersAll(s.disk.quarantine, s.launcher.failed, failing); }
    } else {
      assert Next(o, s, a).disk.quarantine == s.disk.quarantine;
    }
  }

  lemma SwitchLowersMeasure(o: Ordering, s: State, a: Action, releases: set<Version>, failing: set<Version>)
    requires Inv(o, s) && Tracked(o, s, releases, failing) && Enabled(o, s, a) && IsSwitch(s, a)
    ensures Measure(o, Next(o, s, a), releases) < Measure(o, s, releases)
  {
    SwitchShrinksAbove(o, releases, s.disk.current.value, s.launcher.next);
    assert Unfailed(Next(o, s, a), releases) == Unfailed(s, releases);
  }

  lemma RollbackLowersMeasure(o: Ordering, s: State, a: Action, releases: set<Version>, failing: set<Version>)
    requires Inv(o, s) && QuarantineFree(o, s) && Tracked(o, s, releases, failing) && Enabled(o, s, a) &&
             IsRollback(s, a)
    ensures Measure(o, Next(o, s, a), releases) < Measure(o, s, releases)
  {
    RollbackShrinksUnfailed(o, s, releases);
    SubsetCardinality(Above(o, releases, s.launcher.prev), releases);
  }

  lemma OtherStepsKeepMeasure(o: Ordering, s: State, a: Action, releases: set<Version>, failing: set<Version>)
    requires Inv(o, s) && Tracked(o, s, releases, failing) && Enabled(o, s, a) && Within(s, a, releases, failing)
    requires !IsSwitch(s, a) && !IsRollback(s, a)
    ensures Next(o, s, a).disk.current.Some? && Measure(o, Next(o, s, a), releases) == Measure(o, s, releases)
  {
    FailedGrows(o, s, a, releases, failing);
    assert Unfailed(Next(o, s, a), releases) == Unfailed(s, releases);
    assert Next(o, s, a).disk.current == s.disk.current;
  }

  /** Each switch and each rollback lowers the measure; nothing raises it. */
  lemma StepLowersMeasure(o: Ordering, s: State, a: Action, releases: set<Version>, failing: set<Version>)
    requires Inv(o, s) && QuarantineFree(o, s) && Tracked(o, s, releases, failing) && Enabled(o, s, a) &&
             Within(s, a, releases, failing)
    ensures Next(o, s, a).disk.current.Some?
    ensures Measure(o, Next(o, s, a), releases) + Ticks(IsSwitch(s, a)) + Ticks(IsRollback(s, a)) <=
            Measure(o, s, releases)
  {
    if IsSwitch(s, a) {
      SwitchLowersMeasure(o, s, a, releases, failing);
    } else if IsRollback(s, a) {
      RollbackLowersMeasure(o, s, a, releases, failing);
    } else {
      OtherStepsKeepMeasure(o, s, a, releases, failing);
    }
  }

  /**
    In every run without bundled cores, support clearing the list or a cut at one of three writes, and with at most 20
    failing versions, switches and rollbacks together are bounded by the measure at the start.
   */
  lemma {:induction false} UpdatesSettle(o: Ordering, s: State, run: seq<Action>, releases: set<Version>,
                                         failing: set<Version>)
    requires Inv(o, s) && QuarantineFree(o, s) && Tracked(o, s, releases, failing)
    requires Runs(o, s, run) && AllWithin(o, s, run, releases, failing)
    ensures var t := After(o, s, run);
            Inv(o, t) && QuarantineFree(o, t) && Tracked(o, t, releases, failing) && Failed(s) <= Failed(t) &&
            Measure(o, t, releases) + Switches(o, s, run) + Rollbacks(o, s, run) <= Measure(o, s, releases)
    decreases |run|
  {
    if run != [] {
      var a := run[0];
      StepTracked(o, s, a, releases, failing);
      StepKeepsInv(o, s, a);
      StepKeepsQuarantineFree(o, s, a);
      FailedGrows(o, s, a, releases, failing);
      StepLowersMeasure(o, s, a, releases, failing);
      UpdatesSettle(o, Next(o, s, a), run[1..], releases, failing);
    }
  }

  /** A version once rolled back from never runs again in such a run. */
  lemma FailedNeverReturns(o: Ordering, s: State, run: seq<Action>, releases: set<Version>, failing: set<Version>,
                           v: Version)
    requires Inv(o, s) && QuarantineFree(o, s) && Tracked(o, s, releases, failing)
    requires Runs(o, s, run) && AllWithin(o, s, run, releases, failing) && v in Failed(s)
    ensures After(o, s, run).disk.current != Some(v)
  {
    UpdatesSettle(o, s, run, releases, failing);
    var t := After(o, s, run);
    assert v in Failed(t) && Inv(o, t) && QuarantineFree(o, t);
  }

  lemma {:induction false} MulNatIsProduct(a: nat, b: nat)
    ensures MulNat(a, b) == a * b
  {
    if a > 0 {
      MulNatIsProduct(a - 1, b);
      assert a * b == b + (a - 1) * b;
    }
  }

  lemma {:induction false} MulNatMonotone(a: nat, a': nat, b: nat)
    requires a <= a'
    ensures MulNat(a, b) <= MulNat(a', b)
  {
    if a < a' { MulNatMonotone(a, a' - 1, b); }
  }

  lemma MeasureBounded(o: Ordering, s: State, releases: set<Version>)
    requires s.disk.current.Some?
    ensures Measure(o, s, releases) <= Lex(|releases|, |releases|, |releases|)
  {
    SubsetCardinality(Unfailed(s, releases), releases);
    SubsetCardinality(Above(o, releases, s.disk.current.value), releases);
    MulNatMonotone(|Unfailed(s, releases)|, |releases|, |releases| + 1);
  }

  /** With n releases there are at most n * (n + 1) + n switches and rollbacks in such a run. */
  lemma UpdatesBounded(o: Ordering, s: State, run: seq<Action>, releases: set<Version>, failing: set<Version>)
    requires Inv(o, s) && QuarantineFree(o, s) && Tracked(o, s, releases, failing)
    requires Runs(o, s, run) && AllWithin(o, s, run, releases, failing)
    ensures Switches(o, s, run) + Rollbacks(o, s, run) <= |releases| * (|releases| + 1) + |releases|
  {
    UpdatesSettle(o, s, run, releases, failing);
    MeasureBounded(o, s, releases);
    MulNatIsProduct(|releases|, |releases| + 1);
  }
}
