/**
  The operations on the data folder the launcher and the core share. Each states every durable state
  it passes through, so a power cut inside it is covered by UpdateProtocol.
 */
module DataFolder {
  import opened Common
  import V = Version
  import opened UpdateProtocol

  datatype Pointer = Current | Previous | Pending

  function Pointed(d: Disk, p: Pointer, v: Version): Disk {
    match p
    case Current => d.(current := Some(v))
    case Previous => d.(previous := Some(v))
    case Pending => d.(pending := Some(v))
  }

  // ----- the durable states each operation passes through, last one included -----

  function SwitchTrail(d: Disk, cur: Version, next: Version): seq<Disk> {
    var d0 := SwitchWrite(d, cur, next, 0, 0);
    var d1 := SwitchWrite(d0, cur, next, 1, 0);
    [d0, d1, SwitchWrite(d1, cur, next, 2, 0)]
  }

  function RollbackTrail(d: Disk, failed: Version, prev: Version): seq<Disk> {
    var d0 := RollbackWrite(d, failed, prev, 0);
    var d1 := RollbackWrite(d0, failed, prev, 1);
    var d2 := RollbackWrite(d1, failed, prev, 2);
    [d0, d1, d2, RollbackWrite(d2, failed, prev, 3)]
  }

  function StageTrail(d: Disk, v: Version): seq<Disk> {
    var d0 := StageWrite(d, v, 0);
    var d1 := StageWrite(d0, v, 1);
    [d0, d1, StageWrite(d1, v, 2)]
  }

  function UpgradeTrail(d: Disk, v: Version): seq<Disk>
    requires d.current.Some?
  {
    var d0 := AdoptWrite(d, d.current.value, v, 0);
    var d1 := AdoptWrite(d0, d.current.value, v, 1);
    [d0, d1, AdoptWrite(d1, d.current.value, v, 2)]
  }

  /** Adopting bundled core `v`: fresh install, upgrade, stored only, or nothing to do. */
  function BootstrapTrail(o: Ordering, d: Disk, v: Version): seq<Disk> {
    if v in d.installed then
      if d.current.None? then [d.(current := Some(v))] else []
    else
      var d' := d.(installed := d.installed + {v});
      if d.current.None? then [d', d'.(current := Some(v))]
      else if o.compare(v, d.current.value) > 0 then [d'] + UpgradeTrail(d', v)
      else [d']
  }

  /** The state an operation ends in. */
  function Last(d: Disk, trail: seq<Disk>): Disk { if trail == [] then d else trail[|trail| - 1] }

  predicate Usable(d: Disk, failed: Version) {
    d.previous.Some? && d.previous.value != failed && d.previous.value in d.installed
  }

  class DataDir {
    var current: Option<Version>
    var previous: Option<Version>
    var pending: Option<Version>
    var installed: set<Version>
    var quarantine: seq<Version>
    var probation: Option<Window>
    /** Every durable state so far. */
    ghost var trail: seq<Disk>

    ghost function View(): Disk reads this { Disk(current, previous, pending, installed, quarantine, probation) }

    /** Pointer files hold valid versions: they are only written by `Write`. */
    ghost predicate Readable() reads this {
      (current.Some? ==> V.Valid(current.value)) && (previous.Some? ==> V.Valid(previous.value)) &&
      (pending.Some? ==> V.Valid(pending.value))
    }

    constructor (d: Disk)
      ensures View() == d && trail == [d]
    {
      current, previous, pending := d.current, d.previous, d.pending;
      installed, quarantine, probation := d.installed, d.quarantine, d.probation;
      trail := [d];
    }

    /** Atomic replacement of one pointer file; an invalid version is refused. */
    method Write(p: Pointer, v: Version) returns (ok: bool)
      requires Readable()
      modifies this
      ensures Readable() && (ok <==> V.Valid(v))
      ensures ok ==> View() == Pointed(old(View()), p, v) && trail == old(trail) + [View()]
      ensures !ok ==> View() == old(View()) && trail == old(trail)
    {
      if !V.Valid(v) { return false; }
      match p {
        case Current => current := Some(v);
        case Previous => previous := Some(v);
        case Pending => pending := Some(v);
      }
      trail := trail + [View()];
      return true;
    }

    method DeletePending()
      requires Readable()
      modifies this
      ensures Readable() && View() == old(View()).(pending := None) && trail == old(trail) + [View()]
    {
      pending := None;
      trail := trail + [View()];
    }

    method WriteProbation(w: Option<Window>)
      requires Readable()
      modifies this
      ensures Readable() && View() == old(View()).(probation := w) && trail == old(trail) + [View()]
    {
      probation := w;
      trail := trail + [View()];
    }

    /** The saved window for the current version, if still open; any other is cleaned up. */
    method ReadProbation(cur: Version, now: int) returns (w: Option<Window>)
      requires Readable() && current == Some(cur)
      modifies this
      ensures Readable() && w == OpenWindow(old(View()), now) && View() == old(View()).(probation := w)
    {
      if probation.None? { return None; }
      if probation.value.version != cur || !(now < probation.value.until) {
        WriteProbation(None);
        return None;
      }
      return probation;
    }

    method SwitchTo(next: Version, cur: Version) returns (ok: bool)
      requires Readable()
      modifies this
      ensures Readable() && (ok <==> V.Valid(cur) && V.Valid(next))
      ensures ok ==> var steps := SwitchTrail(old(View()), cur, next);
                     trail == old(trail) + steps && View() == Last(old(View()), steps)
      ensures !ok ==> View() == if V.Valid(cur) then old(View()).(previous := Some(cur)) else old(View())
    {
      ok := Write(Previous, cur);
      if !ok { return; }
      ok := Write(Current, next);
      if !ok { return; }
      DeletePending();
    }

    method IsVersionQuarantined(v: Version) returns (found: bool)
      ensures found <==> v in quarantine
    {
      for i := 0 to |quarantine|
        invariant v !in quarantine[..i]
      {
        if quarantine[i] == v { return true; }
      }
      return false;
    }

    /** Appends once, then keeps the newest entries. */
    method QuarantineVersion(v: Version)
      requires Readable()
      modifies this
      ensures Readable() && View() == old(View()).(quarantine := Quarantine(old(quarantine), v)) &&
              trail == old(trail) + [View()]
    {
      var found := IsVersionQuarantined(v);
      if !found {
        var list := quarantine + [v];
        quarantine := if |list| > QUARANTINE_LIMIT then list[|list| - QUARANTINE_LIMIT..] else list;
      }
      trail := trail + [View()];
    }

    /** Points current back at previous and quarantines what failed; None when there is no usable previous version. */
    method Rollback(failed: Version) returns (target: Option<Version>)
      requires Readable()
      modifies this
      ensures Readable() && (target.Some? <==> Usable(old(View()), failed))
      ensures target.Some? ==> target == old(previous)
      ensures target.Some? ==> var steps := RollbackTrail(old(View()), failed, target.value);
                               trail == old(trail) + steps && View() == Last(old(View()), steps)
      ensures target.None? ==> View() == old(View()) && trail == old(trail)
    {
      if previous.None? || previous.value == failed || previous.value !in installed { return None; }
      target := previous;
      var ok := Write(Current, target.value);
      DeletePending();
      QuarantineVersion(failed);
      WriteProbation(None);
    }

    /** Extracts an artifact into its version folder and marks it for the next handoff. */
    method Stage(v: Version, extracts: bool) returns (ok: bool)
      requires Readable()
      modifies this
      ensures Readable() && (ok <==> V.Valid(v) && old(current) != Some(v) && extracts)
      ensures ok ==> var steps := StageTrail(old(View()), v);
                     trail == old(trail) + steps && View() == Last(old(View()), steps)
      ensures !ok ==> View() == old(View()) && trail == old(trail)
    {
      if !V.Valid(v) || current == Some(v) || !extracts { return false; }
      installed := installed - {v};
      trail := trail + [View()];
      installed := installed + {v};
      trail := trail + [View()];
      ok := Write(Pending, v);
    }

    /** One write of the core process while it stages `v`. */
    method CoreWrite(v: Version, step: nat)
      requires Readable() && V.Valid(v)
      modifies this
      ensures Readable() && View() == StageWrite(old(View()), v, step) && trail == old(trail) + [View()]
    {
      if step >= 2 {
        var ok := Write(Pending, v);
        return;
      }
      installed := if step == 0 then installed - {v} else installed + {v};
      trail := trail + [View()];
    }

    /** Copies the bundled core into place by a rename. */
    method InstallVersion(v: Version)
      requires Readable()
      modifies this
      ensures Readable() && View() == old(View()).(installed := old(installed) + {v}) && trail == old(trail) + [View()]
    {
      installed := installed + {v};
      trail := trail + [View()];
    }

    /** The bundled core replaces an older current version. */
    method Upgrade(v: Version, cur: Version)
      requires Readable() && V.Valid(v) && current == Some(cur)
      modifies this
      ensures Readable()
      ensures var steps := UpgradeTrail(old(View()), v);
              trail == old(trail) + steps && View() == Last(old(View()), steps)
    {
      var ok := Write(Previous, cur);
      DeletePending();
      ok := Write(Current, v);
    }

    method IsNewer(v: Version, than: Version) returns (newer: bool)
      ensures newer <==> Semver().compare(v, than) > 0
    {
      var c := V.Compare(v, than);
      newer := c > 0;
    }

    method Bootstrap(v: Version)
      requires Readable() && V.Valid(v)
      modifies this
      ensures Readable()
      ensures var steps := BootstrapTrail(Semver(), old(View()), v);
              trail == old(trail) + steps && View() == Last(old(View()), steps)
    {
      if v in installed {
        if current.None? { var ok := Write(Current, v); }
        return;
      }
      Adopt(v);
    }

    /** Stores a bundled core and makes it current when there is none or only an older one. */
    method Adopt(v: Version)
      requires Readable() && V.Valid(v) && v !in installed
      modifies this
      ensures Readable()
      ensures var steps := BootstrapTrail(Semver(), old(View()), v);
              trail == old(trail) + steps && View() == Last(old(View()), steps)
    {
      InstallVersion(v);
      ghost var d := View();
      if current.None? {
        var ok := Write(Current, v);
        assert trail == old(trail) + [d, View()];
        return;
      }
      var newer := IsNewer(v, current.value);
      if newer {
        Upgrade(v, current.value);
        assert trail == old(trail) + ([d] + UpgradeTrail(d, v));
      }
    }

    method PruneEntry(e: Version, keep: set<Version>) returns (ghost step: seq<Disk>)
      requires Readable()
      modifies this
      ensures Readable() &&
              View() == old(View()).(installed := if e in keep then old(installed) else old(installed) - {e})
      ensures trail == old(trail) + step && (step == [] || step == [View()])
    {
      if e in keep { return []; }
      installed := installed - {e};
      trail := trail + [View()];
      return [View()];
    }

    /**
      Deletes, one folder at a time, every installed version no pointer names. Every state on the
      way has lost only such versions, so a cut inside it is as safe as one after it.
     */
    method PruneVersions() returns (ghost steps: seq<Disk>)
      requires Readable()
      modifies this
      ensures Readable() && View() == Prune(old(View()))
      ensures trail == old(trail) + steps && AllPartlyPruned(old(View()), steps)
    {
      ghost var before := View();
      steps := [];
      var entries := installed;
      var keep := (if current.Some? then {current.value} else {}) + (if previous.Some? then {previous.value} else {}) +
                  (if pending.Some? then {pending.value} else {});
      while entries != {}
        invariant Readable() && PartlyPruned(before, View()) && installed <= keep + entries && keep == Kept(before)
        invariant trail == old(trail) + steps && AllPartlyPruned(before, steps)
        decreases entries
      {
        var e :| e in entries;
        entries := entries - {e};
        ghost var d := View();
        ghost var step := PruneEntry(e, keep);
        EntryPruned(before, d, e, View());
        steps := steps + step;
      }
    }
  }

  lemma EntryPruned(before: Disk, d: Disk, e: Version, d': Disk)
    requires PartlyPruned(before, d) &&
             d' == d.(installed := if e in Kept(before) then d.installed else d.installed - {e})
    ensures PartlyPruned(before, d')
  {
  }

  predicate PartlyPruned(before: Disk, d: Disk) {
    d == before.(installed := d.installed) && before.installed * Kept(before) <= d.installed <= before.installed
  }

  predicate AllPartlyPruned(before: Disk, steps: seq<Disk>) {
    forall i :: 0 <= i < |steps| ==> PartlyPruned(before, steps[i])
  }

  // ----- each operation is an uncut stretch of the protocol -----

  predicate AllConsistent(o: Ordering, trail: seq<Disk>) { forall i :: 0 <= i < |trail| ==> Consistent(o, trail[i]) }

  /** Cut anywhere, a prune leaves the pointers consistent. */
  lemma PartlyPrunedConsistent(o: Ordering, before: Disk, d: Disk)
    requires Consistent(o, before) && PartlyPruned(before, d)
    ensures Consistent(o, d)
  {
  }

  /** Cut anywhere, a switch leaves the pointers consistent. */
  lemma SwitchTrailConsistent(o: Ordering, s: State)
    requires Inv(o, s) && s.launcher.Switching? && s.launcher.step == 0
    ensures AllConsistent(o, SwitchTrail(s.disk, s.disk.current.value, s.launcher.next))
  {
    var next := s.launcher.next;
    var d0 := s.disk.(previous := s.disk.current);
    var d1 := d0.(current := Some(next));
    AfterSwitchStep(o, s, 0);
    AfterSwitchStep(o, State(d0, Switching(next, 1), Stopped), 0);
    AfterSwitchStep(o, State(d1, Switching(next, 2), Stopped), 0);
    assert SwitchTrail(s.disk, s.disk.current.value, next) == [d0, d1, d1.(pending := None)];
  }

  /** Cut anywhere, a rollback leaves the pointers consistent. */
  lemma RollbackTrailConsistent(o: Ordering, s: State)
    requires Inv(o, s) && s.launcher.RollingBack? && s.launcher.step == 0
    ensures AllConsistent(o, RollbackTrail(s.disk, s.launcher.failed, s.launcher.prev))
  {
    var a := RollbackStep;
    AfterRollbackStep(o, s);
    AfterRollbackStep(o, Next(o, s, a));
    AfterRollbackStep(o, Next(o, Next(o, s, a), a));
    AfterRollbackStep(o, Next(o, Next(o, Next(o, s, a), a), a));
  }

  /** Cut anywhere, staging leaves the pointers consistent. */
  lemma StageTrailConsistent(o: Ordering, s: State)
    requires Inv(o, s) && s.core.Staging? && s.core.step == 0
    ensures AllConsistent(o, StageTrail(s.disk, s.core.v))
  {
    var a := StageStep;
    AfterStageStep(o, s);
    AfterStageStep(o, Next(o, s, a));
    AfterStageStep(o, Next(o, Next(o, s, a), a));
  }

  /** Cut anywhere, adopting the bundled core leaves the pointers consistent. */
  lemma BootstrapTrailConsistent(o: Ordering, s: State, v: Version)
    requires Inv(o, s) && s.launcher.Off? && o.orderly(v)
    ensures AllConsistent(o, BootstrapTrail(o, s.disk, v))
  {
    var d := s.disk;
    if v in d.installed {
      if d.current.None? { AfterAdoptStep(o, State(d, Adopting(v, 2), Stopped)); }
    } else {
      var d' := d.(installed := d.installed + {v});
      AfterAdoptStep(o, State(d, Installing(v), Stopped));
      if d.current.None? {
        AfterAdoptStep(o, State(d', Adopting(v, 2), Stopped));
      } else if o.compare(v, d.current.value) > 0 {
        UpgradeTrailConsistent(o, State(d', Adopting(v, 0), Stopped));
      }
    }
  }

  lemma UpgradeTrailConsistent(o: Ordering, s: State)
    requires Inv(o, s) && s.launcher.Adopting? && s.launcher.step == 0
    ensures AllConsistent(o, UpgradeTrail(s.disk, s.launcher.v))
  {
    var a := AdoptStep;
    AfterAdoptStep(o, s);
    AfterAdoptStep(o, Next(o, s, a));
    AfterAdoptStep(o, Next(o, Next(o, s, a), a));
  }

  /** What each operation leaves behind when nothing cuts it. */
  lemma TrailEnds(d: Disk, cur: Version, v: Version)
    ensures Last(d, SwitchTrail(d, cur, v)) == d.(current := Some(v), previous := Some(cur), pending := None)
    ensures Last(d, StageTrail(d, v)) == d.(installed := d.installed + {v}, pending := Some(v))
    ensures var r := Last(d, RollbackTrail(d, cur, v));
            r == d.(current := Some(v), pending := None, quarantine := r.quarantine, probation := None) &&
            cur in r.quarantine
    ensures d.current.Some? ==>
              Last(d, UpgradeTrail(d, v)) == d.(current := Some(v), previous := d.current, pending := None)
  {
    assert d.installed - {v} + {v} == d.installed + {v};
  }
}
