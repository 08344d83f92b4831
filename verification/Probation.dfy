/**
  What one trip round the supervision loop leaves behind, told from the outside: a switch opens a
  window of full length, two crashes of runs begun in it lead back, and quick exits wait longer and longer.
 */
module Probation {
  import opened Common
  import opened UpdateProtocol
  import opened DataFolder
  import opened Supervision

  // ----- a switch opens a window -----

  lemma OneMoreTrip(m: Memory, trips: seq<Trip>, t: Trip, probation: int)
    ensures IterateAll(m, trips + [t], probation) == Iterate(IterateAll(m, trips, probation), t, probation)
  {
    assert (trips + [t])[..|trips|] == trips;
  }

  /** A child asks for a restart and the release it staged is there. */
  predicate Switches(m: Memory, t: Trip) {
    var d := During(m, t).disk;
    m.current in m.disk.installed && t.exit.Restart? && d.pending.Some? && d.pending.value in d.installed
  }

  /**
    However the loop came here, a handoff to a staged release leaves it current, the old version to go back to, both
    counters at zero, and a probation window, in memory and on disk, of exactly the given length from the end of the
    run.
   */
  lemma SwitchOpensProbation(m: Memory, trips: seq<Trip>, t: Trip, probation: int)
    requires Switches(IterateAll(m, trips, probation), t)
    ensures var before := IterateAll(m, trips, probation);
            var next := During(before, t).disk.pending.value;
            var r := IterateAll(m, trips + [t], probation);
            r.current == next && r.disk.current == Some(next) && r.disk.previous == Some(before.current) &&
            r.disk.pending.None? && r.crashes == 0 && r.stamps == [] && r.backoff == 1 &&
            r.disk.probation == Some(Window(next, t.ended + probation, 0)) &&
            forall x :: InProbation(r, x) <==> x < t.ended + probation
  {
    OneMoreTrip(m, trips, t, probation);
  }

  /** Without a staged release a restart leaves everything as the run left it, but for a pending pointer to nothing. */
  lemma RestartWithoutRelease(m: Memory, trips: seq<Trip>, t: Trip, probation: int)
    requires var before := IterateAll(m, trips, probation);
             t.exit.Restart? && before.current in before.disk.installed && !Switches(before, t)
    ensures var d := During(IterateAll(m, trips, probation), t);
            IterateAll(m, trips + [t], probation) == d.(disk := d.disk.(pending := None))
  {
    OneMoreTrip(m, trips, t, probation);
    var d := During(IterateAll(m, trips, probation), t);
    assert d.disk.pending.None? ==> d.disk.(pending := None) == d.disk;
  }

  // ----- a rollback -----

  /** The binary is gone, the self-check fails, or the child crashes once too often. */
  predicate Fails(m: Memory, t: Trip) {
    m.current !in m.disk.installed || t.exit.Unhealthy? ||
    (t.exit == Exited(true) &&
     ((InProbation(m, t.started) && m.crashes >= 1) || |RecordStamp(m, t.ended).stamps| >= 3))
  }

  /** What the launcher finds on disk when the trip has failed. */
  function AtFailure(m: Memory, t: Trip): Disk { if m.current !in m.disk.installed then m.disk else During(m, t).disk }

  /**
    A failed trip goes back to the previous version if one is usable: that version is current, the failed one is on the
    quarantine list, nothing is pending, probation is over and the counters start afresh. Otherwise the version stays.
   */
  lemma FailedTripGoesBack(m: Memory, t: Trip, probation: int)
    requires Possible(m, t) && Fails(m, t)
    ensures var (d, r) := (AtFailure(m, t), Iterate(m, t, probation));
            if d.previous.Some? && d.previous.value != m.current && d.previous.value in d.installed then
              Some(r.current) == d.previous == r.disk.current == r.disk.previous && r.disk.pending.None? &&
              r.disk.quarantine == Quarantine(d.quarantine, m.current) && m.current in r.disk.quarantine &&
              r.disk.installed == d.installed && r.disk.probation.None? &&
              r.until.None? && r.crashes == 0 && r.stamps == []
            else
              r.current == m.current && r.disk.current == d.current && r.disk.previous == d.previous &&
              r.disk.pending == d.pending && r.disk.quarantine == d.quarantine && r.until == m.until
  {
    DuringFrame(m, t);
    var m' := During(m, t);
    if m.current in m.disk.installed && t.exit == Exited(true) {
      CrashGoesBack(m', t);
    }
  }

  lemma CrashGoesBack(m: Memory, t: Trip)
    requires (InProbation(m, t.started) && m.crashes >= 1) || |RecordStamp(m, t.ended).stamps| >= 3
    ensures Usable(m.disk, m.current) ==> AfterCrash(m, t) == RolledBack(m)
    ensures !Usable(m.disk, m.current) ==>
            var r := AfterCrash(m, t);
            r.current == m.current && r.until == m.until && r.disk == m.disk.(probation := r.disk.probation)
  {
    var m' := CountProbationCrash(m, t);
    assert RecordStamp(m', t.ended).stamps == RecordStamp(m, t.ended).stamps;
    assert Usable(m'.disk, m'.current) == Usable(m.disk, m.current);
    if Usable(m.disk, m.current) {
      assert AfterCrash(m, t) == RolledBack(m') || AfterCrash(m, t) == RolledBack(RecordStamp(m', t.ended));
    }
  }

  // ----- two crashes in probation -----

  /** No trip ends in a rollback or a switch. */
  predicate NoResets(m: Memory, trips: seq<Trip>, probation: int) {
    trips == [] ||
    (var front := trips[..|trips| - 1];
     NoResets(m, front, probation) && !Resets(IterateAll(m, front, probation), trips[|trips| - 1], probation))
  }

  lemma NoResetKeeps(m: Memory, t: Trip, probation: int)
    requires Possible(m, t) && !Resets(m, t, probation)
    ensures var r := Iterate(m, t, probation);
            r.current == m.current && r.until == m.until && r.disk.previous == m.disk.previous &&
            r.crashes == m.crashes + (if Crashes(m, t) && InProbation(m, t.started) then 1 else 0)
  {
    DuringFrame(m, t);
    TripCounts(m, t, probation);
    if Crashes(m, t) { CrashKeepsUnlessBack(During(m, t), t); }
  }

  lemma CrashKeepsUnlessBack(m: Memory, t: Trip)
    requires AfterCrash(m, t).current == m.current
    ensures AfterCrash(m, t).until == m.until && AfterCrash(m, t).disk.previous == m.disk.previous
  {
    AfterCrashDecides(m, t);
  }

  /** A crash of a run begun in the window. */
  predicate ProbationCrash(m: Memory, trips: seq<Trip>, probation: int, i: nat)
    requires i < |trips|
  {
    Crashes(IterateAll(m, trips[..i], probation), trips[i]) && InProbation(m, trips[i].started)
  }

  lemma {:induction false} NoResetsKeep(m: Memory, trips: seq<Trip>, probation: int, start: int)
    requires Follows(m, trips, probation, start) && NoResets(m, trips, probation)
    ensures var r := IterateAll(m, trips, probation);
            r.current == m.current && r.until == m.until && r.disk.previous == m.disk.previous
    ensures (exists i: nat :: i < |trips| && ProbationCrash(m, trips, probation, i)) ==>
            IterateAll(m, trips, probation).crashes >= 1
  {
    if trips != [] {
      var n := |trips| - 1;
      var front, t := trips[..n], trips[n];
      NoResetsKeep(m, front, probation, start);
      NoResetKeeps(IterateAll(m, front, probation), t, probation);
      if i: nat :| i < |trips| && ProbationCrash(m, trips, probation, i) {
        assert trips[..i] == front[..i];
        if i < n { assert ProbationCrash(m, front, probation, i); }
      }
    }
  }

  /**
    After a switch to a new version, two crashes of runs begun before the window's end, with no rollback and no other
    switch between, lead back to the version that was replaced, whenever that is still usable.
   */
  lemma TwoProbationCrashesGoBack(m: Memory, trips: seq<Trip>, t: Trip, later: seq<Trip>, i: nat, second: Trip,
                                  probation: int)
    requires Switches(IterateAll(m, trips, probation), t)
    requires var s := IterateAll(m, trips + [t], probation);
             Follows(s, later, probation, t.ended) && NoResets(s, later, probation) &&
             i < |later| && Crashes(IterateAll(s, later[..i], probation), later[i]) &&
             Possible(IterateAll(s, later, probation), second) && Crashes(IterateAll(s, later, probation), second) &&
             CanGoBack(IterateAll(s, later, probation), second)
    requires later[i].started < t.ended + probation && second.started < t.ended + probation
    ensures var r := Iterate(IterateAll(IterateAll(m, trips + [t], probation), later, probation), second, probation);
            r.current == IterateAll(m, trips, probation).current && r.disk.current == Some(r.current) &&
            During(IterateAll(m, trips, probation), t).disk.pending.value in r.disk.quarantine
  {
    var s := IterateAll(m, trips + [t], probation);
    SwitchOpensProbation(m, trips, t, probation);
    assert ProbationCrash(s, later, probation, i);
    NoResetsKeep(s, later, probation, t.ended);
    var u := IterateAll(s, later, probation);
    DuringFrame(u, second);
    FailedTripGoesBack(u, second, probation);
  }

  // ----- backoff -----

  /** `wait` doubled `n` times. */
  function Doubled(wait: int, n: nat): int { if n == 0 then wait else 2 * Doubled(wait, n - 1) }

  /** The child ran for at most two minutes and stopped by itself, and no crash loop was seen. */
  predicate Quick(m: Memory, t: Trip) {
    m.current in m.disk.installed && t.exit.Exited? && t.ended - t.started <= 120 &&
    (t.exit.crashed ==> |RecordStamp(m, t.ended).stamps| < 3)
  }

  predicate AllQuick(m: Memory, trips: seq<Trip>, probation: int) {
    trips == [] ||
    (var front := trips[..|trips| - 1];
     AllQuick(m, front, probation) && Quick(IterateAll(m, front, probation), trips[|trips| - 1]))
  }

  lemma QuickDoubles(m: Memory, t: Trip, probation: int)
    requires Possible(m, t) && Quick(m, t) && !Resets(m, t, probation)
    ensures Iterate(m, t, probation).backoff == if m.backoff >= 30 then 60 else 2 * m.backoff
  {
    DuringFrame(m, t);
  }

  /** Each quick exit doubles the wait before the next start, up to a minute. */
  lemma {:induction false} QuickExitsDoubleWait(m: Memory, trips: seq<Trip>, probation: int, start: int)
    requires Follows(m, trips, probation, start) && NoResets(m, trips, probation) && AllQuick(m, trips, probation)
    requires 1 <= m.backoff <= 60
    ensures var wait := Doubled(m.backoff, |trips|);
            wait >= 1 && IterateAll(m, trips, probation).backoff == if wait < 60 then wait else 60
  {
    if trips != [] {
      var front, t := trips[..|trips| - 1], trips[|trips| - 1];
      QuickExitsDoubleWait(m, front, probation, start);
      FollowsLast(m, trips, probation, start);
      QuickDoubles(IterateAll(m, front, probation), t, probation);
    }
  }

  lemma FollowsLast(m: Memory, trips: seq<Trip>, probation: int, start: int)
    requires trips != [] && Follows(m, trips, probation, start)
    ensures Follows(m, trips[..|trips| - 1], probation, start)
    ensures Possible(IterateAll(m, trips[..|trips| - 1], probation), trips[|trips| - 1])
  {
  }

  /** A run of more than two minutes starts the wait over; a crash loop with nowhere to go back to makes it a minute. */
  lemma LongRunsAndCrashLoops(m: Memory, t: Trip, probation: int)
    requires Possible(m, t) && m.current in m.disk.installed && t.exit.Exited? && !Resets(m, t, probation)
    ensures t.ended - t.started > 120 ==> Iterate(m, t, probation).backoff == 2
    ensures t.ended - t.started <= 120 && t.exit.crashed && |RecordStamp(m, t.ended).stamps| >= 3 ==>
            Iterate(m, t, probation).backoff == 60
  {
    DuringFrame(m, t);
  }

  // ----- a committed update -----

  /** A probation that ends while the child runs, staging nothing, ends on disk too, and only named versions remain. */
  lemma CommitPrunes(m: Memory, t: Trip)
    requires t.committed && t.before == [] && t.after == []
    ensures var d := During(m, t).disk;
            d.probation.None? && d.current == m.disk.current && d.previous == m.disk.previous &&
            d.pending == m.disk.pending &&
            forall v :: v in d.installed <==>
              v in m.disk.installed &&
              (m.disk.current == Some(v) || m.disk.previous == Some(v) || m.disk.pending == Some(v))
  {
  }
}
