/**
  The unattended-update protocol as a transition system. The core process stages releases
  and asks for a handoff; the launcher adopts, switches, rolls back, quarantines and prunes.
  Every durable write is one step, and the power may fail between any two of them.
 */
module UpdateProtocol {
  import opened Common
  import V = Version

  type Version = string

  /** How two versions compare, and which versions it orders consistently. */
  datatype Comparison = Comparison(compare: (Version, Version) -> int, orderly: Version -> bool) {
    predicate Leq(a: Version, b: Version) { compare(a, b) <= 0 }
  }

  predicate Chain(o: Comparison, a: Version, b: Version, c: Version) {
    o.orderly(a) && o.orderly(b) && o.orderly(c) && o.Leq(a, b) && o.Leq(b, c)
  }

  ghost predicate Antisymmetric(o: Comparison) {
    forall a: Version, b: Version :: o.compare(a, b) == -o.compare(b, a)
  }

  ghost predicate Transitive(o: Comparison) {
    forall a: Version, b: Version, c: Version :: Chain(o, a, b, c) ==>
      o.compare(a, c) <= 0 && (o.compare(a, c) == 0 ==> o.compare(a, b) == 0 && o.compare(b, c) == 0)
  }

  /** Antisymmetric everywhere, transitive on orderly versions. */
  ghost predicate Lawful(o: Comparison) { Antisymmetric(o) && Transitive(o) }

  /** The protocol is safe for any such comparison; `Semver` below is the one the program uses. */
  type Ordering = o: Comparison | Lawful(o) ghost witness Comparison((a, b) => 0, v => true)

  ghost predicate IsSemver(o: Comparison) {
    (forall a: Version, b: Version :: o.compare(a, b) == V.Order(a, b)) &&
      (forall v: Version :: o.orderly(v) == V.Orderly(v))
  }

  lemma SemverTransitive(o: Comparison)
    requires IsSemver(o)
    ensures Transitive(o)
  {
    forall a: Version, b: Version, c: Version | Chain(o, a, b, c)
      ensures o.compare(a, c) <= 0 && (o.compare(a, c) == 0 ==> o.compare(a, b) == 0 && o.compare(b, c) == 0)
    {
      SemverTransitiveAt(o, a, b, c);
    }
  }

  lemma SemverTransitiveAt(o: Comparison, a: Version, b: Version, c: Version)
    requires IsSemver(o) && Chain(o, a, b, c)
    ensures o.compare(a, c) <= 0 && (o.compare(a, c) == 0 ==> o.compare(a, b) == 0 && o.compare(b, c) == 0)
  {
    V.OrderTransitive(a, b, c);
  }

  lemma SemverAntisymmetric(o: Comparison)
    requires IsSemver(o)
    ensures Antisymmetric(o)
  {
    forall a: Version, b: Version ensures o.compare(a, b) == -o.compare(b, a) { V.OrderAntisymmetric(a, b); }
  }

  /** The program's own comparison is lawful, with `Version.Orderly` for its orderly versions. */
  lemma SemverIsLawful(o: Comparison)
    requires IsSemver(o)
    ensures Lawful(o)
  {
    SemverAntisymmetric(o);
    SemverTransitive(o);
  }

  function Semver(): (o: Ordering)
    ensures IsSemver(o)
  {
    var o := Comparison((a, b) => V.Order(a, b), v => V.Orderly(v));
    SemverIsLawful(o);
    o
  }

  /** A probation window as recorded on disk. */
  datatype Window = Window(version: Version, until: int, crashes: nat)

  /** Everything that survives a power cut. */
  datatype Disk = Disk(
    current: Option<Version>,
    previous: Option<Version>,
    pending: Option<Version>,
    installed: set<Version>,
    quarantine: seq<Version>,
    probation: Option<Window>)

  const QUARANTINE_LIMIT := 20

  /** Where the launcher is between two writes. */
  datatype Launcher =
    | Off
    | Installing(v: Version)                     // bundled core copied, not yet renamed into place
    | Adopting(v: Version, step: nat)            // 0: write previous, 1: delete pending, 2: write current
    | Starting                                   // bootstrap done, current not yet read
    | LoopHead
    | Supervising                                // a child runs the current version
    | Switching(next: Version, step: nat)        // 0: previous, 1: current, 2: delete pending, 3: probation
    | RollingBack(failed: Version, prev: Version, step: nat)  // 0: current, 1: delete pending, 2: list, 3: probation

  /** Where the core is while its process runs. */
  datatype Core =
    | Stopped
    | Ticking
    | Staging(v: Version, step: nat)             // 0: remove old copy, 1: rename into place, 2: write pending

  datatype State = State(disk: Disk, launcher: Launcher, core: Core)

  datatype Action =
    | Boot(bundled: Option<Version>)             // the launcher starts, with or without a bundled core
    | AdoptStep
    | Enter(now: int)                            // read current, drop a stale probation window
    | Launch
    | CheckFinds(release: Version)               // the control plane offers a newer release
    | StageStep
    | HandOff                                    // the child exits with code 42
    | ChildFails(rollback: bool)                 // any other exit; the launcher may decide to roll back
    | NoteCrash(until: int, crashes: nat)        // a crash in probation is counted on disk
    | Commit                                     // probation survived: clear the window and prune
    | SwitchStep(until: int)
    | RollbackStep
    | ClearQuarantine                            // support deletes the list
    | PowerCut

  const EMPTY := State(Disk(None, None, None, {}, [], None), Off, Stopped)

  // ----- single writes -----

  function Quarantine(list: seq<Version>, v: Version): (r: seq<Version>)
    ensures v in r
    ensures forall w :: w in r ==> w in list || w == v
  {
    if v in list then list
    else
      var longer := list + [v];
      if |longer| > QUARANTINE_LIMIT then
        assert longer[|longer| - 1] == v && longer[|longer| - QUARANTINE_LIMIT..][QUARANTINE_LIMIT - 1] == v;
        longer[|longer| - QUARANTINE_LIMIT..]
      else
        assert longer[|longer| - 1] == v;
        longer
  }

  function Kept(d: Disk): set<Version> {
    (if d.current.Some? then {d.current.value} else {}) +
    (if d.previous.Some? then {d.previous.value} else {}) +
    (if d.pending.Some? then {d.pending.value} else {})
  }

  /** Deletes every installed version no pointer names. */
  function Prune(d: Disk): Disk { d.(installed := d.installed * Kept(d)) }

  function SwitchWrite(d: Disk, cur: Version, next: Version, step: nat, until: int): Disk {
    if step == 0 then d.(previous := Some(cur))
    else if step == 1 then d.(current := Some(next))
    else if step == 2 then d.(pending := None)
    else d.(probation := Some(Window(next, until, 0)))
  }

  function RollbackWrite(d: Disk, failed: Version, prev: Version, step: nat): Disk {
    if step == 0 then d.(current := Some(prev))
    else if step == 1 then d.(pending := None)
    else if step == 2 then d.(quarantine := Quarantine(d.quarantine, failed))
    else d.(probation := None)
  }

  function AdoptWrite(d: Disk, cur: Version, v: Version, step: nat): Disk {
    if step == 0 then d.(previous := Some(cur))
    else if step == 1 then d.(pending := None)
    else d.(current := Some(v))
  }

  function StageWrite(d: Disk, v: Version, step: nat): Disk {
    if step == 0 then d.(installed := d.installed - {v})
    else if step == 1 then d.(installed := d.installed + {v})
    else d.(pending := Some(v))
  }

  // ----- the transition function -----

  /** A staged update is ready when pending names an installed version. */
  predicate Staged(d: Disk) { d.pending.Some? && d.pending.value in d.installed }

  /** There is a version to go back to. */
  predicate CanRollBack(d: Disk) {
    d.current.Some? && d.previous.Some? && d.previous != d.current && d.previous.value in d.installed
  }

  /** The recorded window, if it is for the current version and still open. */
  function OpenWindow(d: Disk, now: int): Option<Window> {
    if d.probation.Some? && d.current == Some(d.probation.value.version) && now < d.probation.value.until
    then d.probation else None
  }

  function StartRollback(d: Disk): Launcher
    requires d.current.Some?
  {
    if CanRollBack(d) then RollingBack(d.current.value, d.previous.value, 0) else LoopHead
  }

  predicate Enabled(o: Ordering, s: State, a: Action) {
    match a
    case Boot(_) => s.launcher.Off?
    case AdoptStep => s.launcher.Installing? || s.launcher.Adopting?
    case Enter(_) => s.launcher.Starting?
    case Launch => s.launcher.LoopHead? && s.disk.current.Some?
    case CheckFinds(v) =>
      s.core.Ticking? && !Staged(s.disk) && s.disk.current.Some? && V.Valid(v) &&
      o.compare(v, s.disk.current.value) > 0 && v !in s.disk.quarantine
    case StageStep => s.core.Staging?
    case HandOff => s.launcher.Supervising? && s.disk.current.Some?
    case ChildFails(_) => s.launcher.Supervising? && s.disk.current.Some?
    case NoteCrash(_, _) => s.launcher.Supervising? && s.disk.current.Some?
    case Commit => s.launcher.Supervising?
    case SwitchStep(_) => s.launcher.Switching? && s.disk.current.Some?
    case RollbackStep => s.launcher.RollingBack?
    case ClearQuarantine => true
    case PowerCut => true
  }

  function Next(o: Ordering, s: State, a: Action): State
    requires Enabled(o, s, a)
  {
    var d := s.disk;
    match a
    case Boot(None) => State(d, Starting, Stopped)
    case Boot(Some(v)) =>
      if v !in d.installed then State(d, Installing(v), Stopped)
      else if d.current.None? then State(d, Adopting(v, 2), Stopped)
      else State(d, Starting, Stopped)
    case AdoptStep =>
      if s.launcher.Installing? then
        var v := s.launcher.v;
        var d' := d.(installed := d.installed + {v});
        if d.current.None? then State(d', Adopting(v, 2), Stopped)
        else if o.compare(v, d.current.value) > 0 then State(d', Adopting(v, 0), Stopped)
        else State(d', Starting, Stopped)
      else
        var Adopting(v, step) := s.launcher;
        var d' := AdoptWrite(d, if d.current.Some? then d.current.value else v, v, step);
        State(d', if step < 2 then Adopting(v, step + 1) else Starting, Stopped)
    case Enter(now) =>
      if d.current.None? then State(d, Off, Stopped) else State(d.(probation := OpenWindow(d, now)), LoopHead, Stopped)
    case Launch =>
      if d.current.value in d.installed then State(d, Supervising, Ticking)
      else State(d, StartRollback(d), Stopped)
    case CheckFinds(v) => s.(core := Staging(v, 0))
    case StageStep =>
      var Staging(v, step) := s.core;
      State(StageWrite(d, v, step), s.launcher, if step < 2 then Staging(v, step + 1) else Ticking)
    case HandOff =>
      if d.pending.None? then State(d, LoopHead, Stopped)
      else if d.pending.value !in d.installed then State(d.(pending := None), LoopHead, Stopped)
      else State(d, Switching(d.pending.value, 0), Stopped)
    case ChildFails(rollback) => State(d, if rollback then StartRollback(d) else LoopHead, Stopped)
    case NoteCrash(until, crashes) =>
      State(d.(probation := Some(Window(d.current.value, until, crashes))), Supervising, Stopped)
    case Commit => s.(disk := Prune(d).(probation := None))
    case SwitchStep(until) =>
      var Switching(next, step) := s.launcher;
      State(SwitchWrite(d, d.current.value, next, step, until),
        if step < 3 then Switching(next, step + 1) else LoopHead, Stopped)
    case RollbackStep =>
      var RollingBack(failed, prev, step) := s.launcher;
      State(RollbackWrite(d, failed, prev, step),
        if step < 3 then RollingBack(failed, prev, step + 1) else LoopHead, Stopped)
    case ClearQuarantine => s.(disk := d.(quarantine := []))
    case PowerCut => State(d, Off, Stopped)
  }

  /** `run` can be executed from `s`. */
  predicate Runs(o: Ordering, s: State, run: seq<Action>)
    decreases |run|
  {
    run == [] || (Enabled(o, s, run[0]) && Runs(o, Next(o, s, run[0]), run[1..]))
  }

  function After(o: Ordering, s: State, run: seq<Action>): State
    requires Runs(o, s, run)
    decreases |run|
  {
    if run == [] then s else After(o, Next(o, s, run[0]), run[1..])
  }

  // ----- crash consistency -----

  /** Versions from outside are ordered consistently. */
  predicate Orderly(o: Ordering, a: Action) {
    match a
    case Boot(Some(v)) => o.orderly(v)
    case CheckFinds(v) => o.orderly(v)
    case _ => true
  }

  predicate OrderlyPointer(o: Ordering, p: Option<Version>) { p.Some? ==> o.orderly(p.value) }

  /** No pointer dangles below current, and previous <= current <= pending. */
  predicate Consistent(o: Ordering, d: Disk) {
    && OrderlyPointer(o, d.current) && OrderlyPointer(o, d.previous) && OrderlyPointer(o, d.pending)
    && (d.current.None? ==> d.previous.None? && d.pending.None?)
    && (d.current.Some? ==> d.current.value in d.installed)
    && (d.previous.Some? ==> d.previous.value in d.installed && o.Leq(d.previous.value, d.current.value))
    && (d.pending.Some? ==> o.Leq(d.current.value, d.pending.value))
  }

  predicate LauncherConsistent(o: Ordering, d: Disk, l: Launcher) {
    match l
    case Off => true
    case Installing(v) => o.orderly(v) && v !in d.installed
    case Adopting(v, step) =>
      && step <= 2 && o.orderly(v) && v in d.installed
      && (d.current.None? ==> step == 2)
      && (d.current.Some? ==> o.compare(v, d.current.value) > 0)
      && (d.current.Some? && step >= 1 ==> d.previous == d.current)
      && (step == 2 ==> d.pending.None?)
    case Starting => true
    case LoopHead => d.current.Some?
    case Supervising => d.current.Some?
    case Switching(next, step) =>
      && step <= 3 && d.current.Some? && o.orderly(next) && next in d.installed
      && (step <= 2 ==> d.pending == Some(next)) && (step == 3 ==> d.pending.None?)
      && (step == 1 ==> d.previous == d.current)
      && (step >= 2 ==> d.current == Some(next))
    case RollingBack(failed, prev, step) =>
      && step <= 3 && d.current.Some? && d.previous == Some(prev) && prev != failed
      && (step == 0 ==> d.current == Some(failed)) && (step >= 1 ==> d.current == Some(prev))
      && (step >= 2 ==> d.pending.None?)
  }

  predicate CoreConsistent(o: Ordering, d: Disk, l: Launcher, c: Core) {
    (c.Stopped? || l.Supervising?) &&
    (c.Staging? ==> c.step <= 2 && o.orderly(c.v) && d.current.Some? && o.compare(c.v, d.current.value) > 0)
  }

  predicate Inv(o: Ordering, s: State) {
    Consistent(o, s.disk) && LauncherConsistent(o, s.disk, s.launcher) && CoreConsistent(o, s.disk, s.launcher, s.core)
  }

  lemma AfterSwitchStep(o: Ordering, s: State, until: int)
    requires Inv(o, s) && Enabled(o, s, SwitchStep(until))
    ensures Inv(o, Next(o, s, SwitchStep(until)))
  {
  }

  lemma AfterRollbackStep(o: Ordering, s: State)
    requires Inv(o, s) && Enabled(o, s, RollbackStep)
    ensures Inv(o, Next(o, s, RollbackStep))
  {
  }

  lemma AfterAdoptStep(o: Ordering, s: State)
    requires Inv(o, s) && Enabled(o, s, AdoptStep)
    ensures Inv(o, Next(o, s, AdoptStep))
  {
  }

  lemma AfterStageStep(o: Ordering, s: State)
    requires Inv(o, s) && Enabled(o, s, StageStep)
    ensures Inv(o, Next(o, s, StageStep))
  {
    StageSparesNeededBinaries(o, s);
  }

  /** A release being staged is neither the version to run nor the version to go back to. */
  lemma StageSparesNeededBinaries(o: Ordering, s: State)
    requires Inv(o, s) && s.core.Staging?
    ensures Some(s.core.v) != s.disk.current && Some(s.core.v) != s.disk.previous
  {
  }

  lemma StepKeepsInv(o: Ordering, s: State, a: Action)
    requires Inv(o, s) && Enabled(o, s, a) && Orderly(o, a)
    ensures Inv(o, Next(o, s, a))
  {
    match a
    case Boot(_) =>
    case AdoptStep => AfterAdoptStep(o, s);
    case SwitchStep(until) => AfterSwitchStep(o, s, until);
    case RollbackStep => AfterRollbackStep(o, s);
    case StageStep => AfterStageStep(o, s);
    case _ =>
  }

  /**
    Crash consistency: after every run, with power cuts anywhere, current and previous name
    installed versions and previous <= current <= pending.
   */
  lemma {:induction false} EveryRunIsConsistent(o: Ordering, s: State, run: seq<Action>)
    requires Inv(o, s) && Runs(o, s, run)
    requires forall a :: a in run ==> Orderly(o, a)
    ensures Inv(o, After(o, s, run))
    ensures Consistent(o, After(o, s, run).disk)
    decreases |run|
  {
    if run != [] {
      StepKeepsInv(o, s, run[0]);
      EveryRunIsConsistent(o, Next(o, s, run[0]), run[1..]);
    }
  }

  /** From an empty data folder every reachable state is consistent. */
  lemma FreshFolderStaysConsistent(o: Ordering, run: seq<Action>)
    requires Runs(o, EMPTY, run) && forall a :: a in run ==> Orderly(o, a)
    ensures Consistent(o, After(o, EMPTY, run).disk)
  {
    EveryRunIsConsistent(o, EMPTY, run);
  }

  // ----- what a power cut can cost -----

  /** `run` takes `s` to `t`. */
  predicate Leads(o: Ordering, s: State, run: seq<Action>, t: State) { Runs(o, s, run) && After(o, s, run) == t }

  lemma Then(o: Ordering, s: State, a: Action, rest: seq<Action>, t: State)
    requires Enabled(o, s, a) && Leads(o, Next(o, s, a), rest, t)
    ensures Leads(o, s, [a] + rest, t)
  {
    assert ([a] + rest)[1..] == rest;
  }

  /** The launcher comes back after a cut, with no newer bundled core, and runs on from `rest`. */
  lemma ThenReboot(o: Ordering, s: State, now: int, rest: seq<Action>, t: State)
    requires s.disk.current.Some?
    requires Leads(o, State(s.disk.(probation := OpenWindow(s.disk, now)), LoopHead, Stopped), rest, t)
    ensures Leads(o, s, [PowerCut, Boot(None), Enter(now)] + rest, t)
  {
    var off := State(s.disk, Off, Stopped);
    var starting := State(s.disk, Starting, Stopped);
    Then(o, starting, Enter(now), rest, t);
    Then(o, off, Boot(None), [Enter(now)] + rest, t);
    Then(o, s, PowerCut, [Boot(None)] + ([Enter(now)] + rest), t);
    assert [PowerCut, Boot(None), Enter(now)] + rest == [PowerCut] + ([Boot(None)] + ([Enter(now)] + rest));
  }

  /**
    A cut after current was written but before pending was deleted: the next handoff makes
    previous equal to current, so there is nothing to roll back to, though current still runs.
   */
  lemma CutCanLoseRollbackTarget(o: Ordering, s: State, now: int, until: int)
    requires Inv(o, s) && s.launcher.Switching? && s.launcher.step == 2
    ensures var run := [PowerCut, Boot(None), Enter(now)] +
            [Launch, HandOff, SwitchStep(until), SwitchStep(until), SwitchStep(until)];
            Runs(o, s, run) &&
            var d := After(o, s, run).disk;
            d.previous == d.current == Some(s.launcher.next) && !CanRollBack(d) && s.launcher.next in d.installed
  {
    var next := s.launcher.next;
    var d := s.disk.(probation := OpenWindow(s.disk, now));
    var d' := d.(previous := d.current);
    var done := State(d'.(pending := None), Switching(next, 3), Stopped);
    assert Leads(o, done, [], done);
    Then(o, State(d', Switching(next, 2), Stopped), SwitchStep(until), [], done);
    Then(o, State(d', Switching(next, 1), Stopped), SwitchStep(until), [SwitchStep(until)], done);
    Then(o, State(d, Switching(next, 0), Stopped), SwitchStep(until), [SwitchStep(until), SwitchStep(until)], done);
    Then(o, State(d, Supervising, Ticking), HandOff, [SwitchStep(until), SwitchStep(until), SwitchStep(until)], done);
    Then(o, State(d, LoopHead, Stopped), Launch, [HandOff, SwitchStep(until), SwitchStep(until), SwitchStep(until)],
      done);
    ThenReboot(o, s, now, [Launch, HandOff, SwitchStep(until), SwitchStep(until), SwitchStep(until)], done);
  }

  /** The write that would lose the rollback target: a cut between writing current and deleting pending. */
  predicate CutsOffPending(s: State, a: Action) { a.PowerCut? && s.launcher.Switching? && s.launcher.step == 2 }

  /** A pending version is strictly newer than current, but while a switch has yet to delete it. */
  predicate PendingAhead(o: Ordering, s: State) {
    s.disk.current.Some? && s.disk.pending.Some? && !(s.launcher.Switching? && s.launcher.step == 2) ==>
      o.compare(s.disk.current.value, s.disk.pending.value) < 0
  }

  lemma RollbackKeepsPendingAhead(o: Ordering, s: State)
    requires Inv(o, s) && PendingAhead(o, s) && Enabled(o, s, RollbackStep)
    ensures PendingAhead(o, Next(o, s, RollbackStep))
  {
    if s.launcher.step == 0 && s.disk.pending.Some? {
      assert Chain(o, s.launcher.prev, s.disk.current.value, s.disk.pending.value);
    }
  }

  lemma StepKeepsPendingAhead(o: Ordering, s: State, a: Action)
    requires Inv(o, s) && PendingAhead(o, s) && Enabled(o, s, a) && !CutsOffPending(s, a)
    ensures PendingAhead(o, Next(o, s, a))
  {
    match a
    case RollbackStep => RollbackKeepsPendingAhead(o, s);
    case StageStep => assert Antisymmetric(o);
    case _ =>
  }

  predicate NeverCutsOffPending(o: Ordering, s: State, run: seq<Action>)
    requires Runs(o, s, run)
    decreases |run|
  {
    run == [] || (!CutsOffPending(s, run[0]) && NeverCutsOffPending(o, Next(o, s, run[0]), run[1..]))
  }

  /** Only that cut can bring pending level with current: in a run without it, pending stays ahead. */
  lemma {:induction false} PendingStaysAhead(o: Ordering, s: State, run: seq<Action>)
    requires Inv(o, s) && PendingAhead(o, s) && Runs(o, s, run) && NeverCutsOffPending(o, s, run)
    requires forall a :: a in run ==> Orderly(o, a)
    ensures Inv(o, After(o, s, run)) && PendingAhead(o, After(o, s, run))
    decreases |run|
  {
    if run != [] {
      StepKeepsInv(o, s, run[0]);
      StepKeepsPendingAhead(o, s, run[0]);
      PendingStaysAhead(o, Next(o, s, run[0]), run[1..]);
    }
  }

  /** A switch leaves a version to roll back to exactly when the version it switches to is not current already. */
  lemma SwitchKeepsTargetIff(o: Ordering, s: State, until: int)
    requires Inv(o, s) && s.launcher.Switching? && s.launcher.step == 0
    ensures var run := [SwitchStep(until)] + ([SwitchStep(until)] + [SwitchStep(until)]);
            Runs(o, s, run) && (CanRollBack(After(o, s, run).disk) <==> s.disk.pending != s.disk.current)
  {
    var a := SwitchStep(until);
    var s1 := Next(o, s, a);
    var s2 := Next(o, s1, a);
    var s3 := Next(o, s2, a);
    assert Leads(o, s3, [], s3);
    Then(o, s2, a, [], s3);
    Then(o, s1, a, [a], s3);
    Then(o, s, a, [a] + [a], s3);
    assert [a] + [] == [a];
  }

  /** So, from an empty folder and with no such cut, every switch leaves a version to roll back to. */
  lemma SwitchesKeepTargets(o: Ordering, run: seq<Action>, until: int)
    requires Runs(o, EMPTY, run) && NeverCutsOffPending(o, EMPTY, run) && forall a :: a in run ==> Orderly(o, a)
    requires After(o, EMPTY, run).launcher.Switching? && After(o, EMPTY, run).launcher.step == 0
    ensures var s, more := After(o, EMPTY, run), [SwitchStep(until)] + ([SwitchStep(until)] + [SwitchStep(until)]);
            Runs(o, s, more) && CanRollBack(After(o, s, more).disk)
  {
    PendingStaysAhead(o, EMPTY, run);
    var s := After(o, EMPTY, run);
    assert s.disk.pending != s.disk.current by { assert Antisymmetric(o); }
    SwitchKeepsTargetIff(o, s, until);
  }

  /** What a start after a cut finds: the same pointers, and the window only if it is still open for current. */
  lemma Reboot(o: Ordering, s: State, now: int)
    requires s.disk.current.Some?
    ensures var run := [PowerCut, Boot(None), Enter(now)];
            Leads(o, s, run, State(s.disk.(probation := OpenWindow(s.disk, now)), LoopHead, Stopped))
  {
    var t := State(s.disk.(probation := OpenWindow(s.disk, now)), LoopHead, Stopped);
    assert Leads(o, t, [], t);
    ThenReboot(o, s, now, [], t);
    assert [PowerCut, Boot(None), Enter(now)] + [] == [PowerCut, Boot(None), Enter(now)];
  }

  /**
    Wherever a switch is cut, the version being switched to runs next without probation exactly when it was already
    current and has no open window; unless a window for it is on disk or it was current before, that is from the
    third write on.
   */
  lemma ProbationLostIff(o: Ordering, s: State, now: int)
    requires Inv(o, s) && s.launcher.Switching?
    ensures var run := [PowerCut, Boot(None), Enter(now)];
            Runs(o, s, run) &&
            var d := After(o, s, run).disk;
            (d.current == Some(s.launcher.next) && d.probation.None? <==>
               s.disk.current == Some(s.launcher.next) && OpenWindow(s.disk, now).None?) &&
            (PendingAhead(o, s) && (s.disk.probation.Some? ==> s.disk.probation.value.version != s.launcher.next) ==>
               (d.current == Some(s.launcher.next) && d.probation.None? <==> s.launcher.step >= 2))
  {
    Reboot(o, s, now);
    assert Antisymmetric(o);
  }

  /** A cut after current was written but before the window was recorded: the new version runs with no probation. */
  lemma CutCanLoseProbation(o: Ordering, s: State, now: int)
    requires Inv(o, s) && s.launcher.Switching? && s.launcher.step >= 2
    requires s.disk.probation.Some? ==> s.disk.probation.value.version != s.launcher.next
    ensures var run := [PowerCut, Boot(None), Enter(now)];
            Runs(o, s, run) && After(o, s, run).disk.current == Some(s.launcher.next) &&
              After(o, s, run).disk.probation.None?
  {
    ProbationLostIff(o, s, now);
  }

  // ----- bundled cores -----

  /** Adopting a bundled core goes on to make it current. */
  predicate Activates(o: Ordering, d: Disk, v: Version) {
    d.current.None? || (v !in d.installed && o.compare(v, d.current.value) > 0)
  }

  /** A start with bundled core `v`, run until bootstrap is done. */
  function Adoption(o: Ordering, d: Disk, v: Version): seq<Action> {
    [Boot(Some(v))] +
    (if v in d.installed then (if d.current.None? then [AdoptStep] else [])
     else if d.current.None? then [AdoptStep, AdoptStep]
     else if o.compare(v, d.current.value) > 0 then [AdoptStep, AdoptStep, AdoptStep, AdoptStep]
     else [AdoptStep])
  }

  /** Where it leads. */
  function Adopted(o: Ordering, d: Disk, v: Version): Disk {
    var d' := d.(installed := d.installed + {v});
    if d.current.None? then d'.(current := Some(v))
    else if Activates(o, d, v) then d'.(previous := d.current, pending := None, current := Some(v))
    else d'
  }

  lemma UpgradeRun(o: Ordering, d: Disk, v: Version)
    requires d.current.Some?
    ensures Leads(o, State(d, Adopting(v, 0), Stopped), [AdoptStep, AdoptStep, AdoptStep],
                  State(d.(previous := d.current, pending := None, current := Some(v)), Starting, Stopped))
  {
    var d1 := d.(previous := d.current);
    var d2 := d1.(pending := None);
    var t := State(d2.(current := Some(v)), Starting, Stopped);
    assert Leads(o, t, [], t);
    Then(o, State(d2, Adopting(v, 2), Stopped), AdoptStep, [], t);
    Then(o, State(d1, Adopting(v, 1), Stopped), AdoptStep, [AdoptStep], t);
    Then(o, State(d, Adopting(v, 0), Stopped), AdoptStep, [AdoptStep, AdoptStep], t);
  }

  lemma FreshRun(o: Ordering, d: Disk, v: Version)
    requires d.current.None?
    ensures Leads(o, State(d, Adopting(v, 2), Stopped), [AdoptStep], State(d.(current := Some(v)), Starting, Stopped))
  {
    var t := State(d.(current := Some(v)), Starting, Stopped);
    assert Leads(o, t, [], t);
    Then(o, State(d, Adopting(v, 2), Stopped), AdoptStep, [], t);
  }

  lemma AdoptionRun(o: Ordering, d: Disk, v: Version)
    ensures Leads(o, State(d, Off, Stopped), Adoption(o, d, v), State(Adopted(o, d, v), Starting, Stopped))
  {
    var off, t := State(d, Off, Stopped), State(Adopted(o, d, v), Starting, Stopped);
    var d' := d.(installed := d.installed + {v});
    assert Leads(o, t, [], t);
    if v in d.installed {
      assert d' == d;
      if d.current.None? {
        FreshRun(o, d, v);
        Then(o, off, Boot(Some(v)), [AdoptStep], t);
      } else {
        Then(o, off, Boot(Some(v)), [], t);
      }
    } else {
      var installing := State(d, Installing(v), Stopped);
      if d.current.None? {
        FreshRun(o, d', v);
        Then(o, installing, AdoptStep, [AdoptStep], t);
        Then(o, off, Boot(Some(v)), [AdoptStep, AdoptStep], t);
      } else if o.compare(v, d.current.value) > 0 {
        UpgradeRun(o, d', v);
        Then(o, installing, AdoptStep, [AdoptStep, AdoptStep, AdoptStep], t);
        Then(o, off, Boot(Some(v)), [AdoptStep, AdoptStep, AdoptStep, AdoptStep], t);
      } else {
        Then(o, installing, AdoptStep, [], t);
        Then(o, off, Boot(Some(v)), [AdoptStep], t);
      }
    }
  }

  /**
    An uncut start makes its bundled core current exactly when nothing is current, or the core is new here
    and newer than current.
   */
  lemma BundleBecomesCurrentIff(o: Ordering, s: State, v: Version)
    requires s.launcher.Off? && s.core.Stopped? && s.disk.current != Some(v)
    ensures Runs(o, s, Adoption(o, s.disk, v)) && After(o, s, Adoption(o, s.disk, v)).launcher.Starting?
    ensures After(o, s, Adoption(o, s.disk, v)).disk.current == Some(v) <==> Activates(o, s.disk, v)
  {
    AdoptionRun(o, s.disk, v);
  }

  /**
    Cut during an adoption, the same bundle is taken up again exactly when it was not yet copied in or
    nothing is current.
   */
  lemma BundleResumesIff(o: Ordering, s: State)
    requires Inv(o, s) && (s.launcher.Installing? || s.launcher.Adopting?)
    ensures var v, run := s.launcher.v, [PowerCut] + [Boot(Some(s.launcher.v))];
            Runs(o, s, run) && After(o, s, run).disk == s.disk &&
            (After(o, s, run).launcher.Installing? || After(o, s, run).launcher.Adopting? <==>
              s.launcher.Installing? || s.disk.current.None?)
  {
    var off := State(s.disk, Off, Stopped);
    var t := Next(o, off, Boot(Some(s.launcher.v)));
    assert Leads(o, t, [], t);
    Then(o, off, Boot(Some(s.launcher.v)), [], t);
    Then(o, s, PowerCut, [Boot(Some(s.launcher.v))], t);
    assert [Boot(Some(s.launcher.v))] + [] == [Boot(Some(s.launcher.v))];
  }

  /** A cut after the bundled core was copied in: the same bundle does not become current at the next start. */
  lemma CutCanLoseBundledUpgrade(o: Ordering, s: State)
    requires Inv(o, s) && s.launcher.Adopting? && s.disk.current.Some?
    ensures var run := [PowerCut] + [Boot(Some(s.launcher.v))];
            Runs(o, s, run) && After(o, s, run) == State(s.disk, Starting, Stopped) &&
              s.disk.current != Some(s.launcher.v)
  {
    var t := State(s.disk, Starting, Stopped);
    assert Leads(o, t, [], t);
    Then(o, State(s.disk, Off, Stopped), Boot(Some(s.launcher.v)), [], t);
    Then(o, s, PowerCut, [Boot(Some(s.launcher.v))], t);
    assert s.disk.current != Some(s.launcher.v) by { assert Antisymmetric(o); }
  }

  /**
    A bundle that was copied in but is not current is taken up by a later start exactly when a prune has deleted it
    meanwhile, and a prune deletes it exactly when no pointer names it.
   */
  lemma PrunedBundleIsTakenUpIff(o: Ordering, s: State, v: Version)
    requires s.launcher.Supervising? && s.disk.current.Some? && v in s.disk.installed &&
             o.compare(v, s.disk.current.value) > 0
    ensures v !in Prune(s.disk).installed <==> v !in Kept(s.disk)
    ensures var run := [Commit] + ([PowerCut] + Adoption(o, Prune(s.disk).(probation := None), v));
            Runs(o, s, run) && After(o, s, run).launcher.Starting? &&
            (After(o, s, run).disk.current == Some(v) <==> v !in Kept(s.disk))
  {
    var d := Prune(s.disk).(probation := None);
    var t := State(Adopted(o, d, v), Starting, Stopped);
    assert Some(v) != s.disk.current by { assert Antisymmetric(o); }
    AdoptionRun(o, d, v);
    Then(o, s.(disk := d), PowerCut, Adoption(o, d, v), t);
    Then(o, s, Commit, [PowerCut] + Adoption(o, d, v), t);
  }

  /** Without a prune the bundle is not taken up, however often the launcher starts with it. */
  lemma KeptBundleStaysStored(o: Ordering, s: State, v: Version)
    requires s.launcher.Off? && s.core.Stopped? && s.disk.current.Some? && v in s.disk.installed
    ensures Leads(o, s, Adoption(o, s.disk, v), State(s.disk, Starting, Stopped))
  {
    AdoptionRun(o, s.disk, v);
    assert s.disk.installed + {v} == s.disk.installed;
  }

  // ----- cuts in a rollback -----

  /** A cut between writing current and writing the quarantine. */
  predicate ForgetsFailed(s: State, a: Action) { a.PowerCut? && s.launcher.RollingBack? && 1 <= s.launcher.step <= 2 }

  /** A rollback under way has put the failed version on the list exactly when it has got past that write. */
  predicate ListsFailed(s: State) {
    s.launcher.RollingBack? ==> (s.launcher.failed in s.disk.quarantine <==> s.launcher.step == 3)
  }

  /** So it is in every run in which nobody clears the list during a rollback and no quarantined bundle is activated. */
  lemma StepKeepsListsFailed(o: Ordering, s: State, a: Action)
    requires Inv(o, s) && QuarantineFree(o, s) && ListsFailed(s) && Enabled(o, s, a)
    requires !(a.ClearQuarantine? && s.launcher.RollingBack?)
    ensures ListsFailed(Next(o, s, a))
  {
  }

  /**
    After a cut in a rollback, current is back at the previous version with the failed one off the list exactly when
    the cut fell between those two writes.
   */
  lemma RollbackForgottenIff(o: Ordering, s: State, now: int)
    requires Inv(o, s) && ListsFailed(s) && s.launcher.RollingBack?
    ensures var run := [PowerCut, Boot(None), Enter(now)];
            Runs(o, s, run) &&
            (After(o, s, run).disk.current == Some(s.launcher.prev) &&
              s.launcher.failed !in After(o, s, run).disk.quarantine <==>
               1 <= s.launcher.step <= 2)
  {
    Reboot(o, s, now);
  }

  /** The control plane's offer of the same bad release is then taken again, once nothing is staged. */
  lemma ForgottenIsOfferedAgain(o: Ordering, s: State, now: int)
    requires Inv(o, s) && ListsFailed(s) && s.launcher.RollingBack? && 1 <= s.launcher.step <= 2 && !Staged(s.disk)
    requires V.Valid(s.launcher.failed) && o.compare(s.launcher.failed, s.launcher.prev) > 0
    ensures var run := [PowerCut, Boot(None), Enter(now)] + [Launch];
            Runs(o, s, run) && Enabled(o, After(o, s, run), CheckFinds(s.launcher.failed))
  {
    var d := s.disk.(probation := OpenWindow(s.disk, now));
    var t := State(d, Supervising, Ticking);
    assert Leads(o, t, [], t);
    Then(o, State(d, LoopHead, Stopped), Launch, [], t);
    ThenReboot(o, s, now, [Launch], t);
  }

  // ----- staging completes -----

  /** Staging left alone makes the release ready to be handed over to. */
  lemma StagingMakesReady(o: Ordering, s: State)
    requires s.core.Staging? && s.core.step == 0
    ensures var run := [StageStep] + ([StageStep] + ([StageStep] + []));
            var d := s.disk.(installed := s.disk.installed + {s.core.v}, pending := Some(s.core.v));
            Leads(o, s, run, State(d, s.launcher, Ticking)) && Staged(d)
  {
    var s1 := Next(o, s, StageStep);
    var s2 := Next(o, s1, StageStep);
    var s3 := Next(o, s2, StageStep);
    assert s.disk.installed - {s.core.v} + {s.core.v} == s.disk.installed + {s.core.v};
    assert Leads(o, s3, [], s3);
    Then(o, s2, StageStep, [], s3);
    Then(o, s1, StageStep, [StageStep] + [], s3);
    Then(o, s, StageStep, [StageStep] + ([StageStep] + []), s3);
  }

  // ----- a prune during staging -----

  /**
    A prune between the rename and the pending write leaves the release ready exactly when pending named it
    already and it is there.
   */
  lemma PruneKeepsStagedIff(o: Ordering, s: State)
    requires Inv(o, s) && s.core.Staging? && s.core.step == 2
    ensures Runs(o, s, [Commit] + [StageStep])
    ensures After(o, s, [Commit] + [StageStep]).disk.pending == Some(s.core.v)
    ensures Staged(After(o, s, [Commit] + [StageStep]).disk) <==>
            s.disk.pending == Some(s.core.v) && s.core.v in s.disk.installed
  {
    StageSparesNeededBinaries(o, s);
    var d := Prune(s.disk).(probation := None);
    var t := State(d.(pending := Some(s.core.v)), s.launcher, Ticking);
    assert Leads(o, t, [], t);
    Then(o, s.(disk := d), StageStep, [], t);
    Then(o, s, Commit, [StageStep], t);
    assert [StageStep] + [] == [StageStep];
  }

  /**
    A prune between the rename and the pending write leaves pending naming no installed version;
    the handoff that finds it so deletes it and changes nothing else.
   */
  lemma PruneCanOrphanPending(o: Ordering, s: State)
    requires Inv(o, s) && s.core.Staging? && s.core.step == 2 && Some(s.core.v) != s.disk.pending
    ensures var run := [Commit] + [StageStep];
            Runs(o, s, run) && After(o, s, run).disk.pending == Some(s.core.v) && !Staged(After(o, s, run).disk) &&
            Enabled(o, After(o, s, run), HandOff) &&
            Next(o, After(o, s, run), HandOff) ==
              State(Prune(s.disk).(probation := None, pending := None), LoopHead, Stopped)
  {
    StageSparesNeededBinaries(o, s);
    var d := Prune(s.disk).(probation := None);
    var t := State(d.(pending := Some(s.core.v)), s.launcher, Ticking);
    assert Leads(o, t, [], t);
    Then(o, s.(disk := d), StageStep, [], t);
    Then(o, s, Commit, [StageStep], t);
  }

  // ----- quarantined versions -----

  predicate Clear(p: Option<Version>, list: seq<Version>) { p.Some? ==> p.value !in list }

  /** No pointer, and nothing about to become one, is quarantined. */
  predicate QuarantineFree(o: Ordering, s: State) {
    var q := s.disk.quarantine;
    && Clear(s.disk.current, q) && Clear(s.disk.previous, q) && Clear(s.disk.pending, q)
    && (s.core.Staging? ==> s.core.v !in q)
    && (s.launcher.Installing? && Activates(o, s.disk, s.launcher.v) ==> s.launcher.v !in q)
    && (s.launcher.Adopting? ==> s.launcher.v !in q)
    && (s.launcher.Switching? ==> s.launcher.next !in q)
  }

  /** The installer ships a version that already failed here, and the start will make it current. */
  predicate BundlesFailed(o: Ordering, s: State, a: Action) {
    a.Boot? && a.bundled.Some? && a.bundled.value in s.disk.quarantine && Activates(o, s.disk, a.bundled.value)
  }

  lemma QuarantineLeavesOthers(p: Option<Version>, list: seq<Version>, failed: Version)
    requires Clear(p, list) && p != Some(failed)
    ensures Clear(p, Quarantine(list, failed))
  {
  }

  lemma RollbackKeepsQuarantineFree(o: Ordering, s: State)
    requires Inv(o, s) && QuarantineFree(o, s) && Enabled(o, s, RollbackStep)
    ensures QuarantineFree(o, Next(o, s, RollbackStep))
  {
    if s.launcher.step == 2 {
      QuarantineLeavesOthers(s.disk.current, s.disk.quarantine, s.launcher.failed);
      assert Next(o, s, RollbackStep).disk == s.disk.(quarantine := Quarantine(s.disk.quarantine, s.launcher.failed));
    }
  }

  lemma StepKeepsQuarantineFree(o: Ordering, s: State, a: Action)
    requires Inv(o, s) && QuarantineFree(o, s) && Enabled(o, s, a) && !BundlesFailed(o, s, a)
    ensures QuarantineFree(o, Next(o, s, a))
  {
    if a.RollbackStep? {
      RollbackKeepsQuarantineFree(o, s);
    } else {
      assert Next(o, s, a).disk.quarantine == if a.ClearQuarantine? then [] else s.disk.quarantine;
    }
  }

  predicate NeverBundlesFailed(o: Ordering, s: State, run: seq<Action>)
    requires Runs(o, s, run)
    decreases |run|
  {
    run == [] || (!BundlesFailed(o, s, run[0]) && NeverBundlesFailed(o, Next(o, s, run[0]), run[1..]))
  }

  /** On the update path no pointer ever names a quarantined version, wherever the power is cut. */
  lemma {:induction false} PointersNeverQuarantined(o: Ordering, s: State, run: seq<Action>)
    requires Inv(o, s) && QuarantineFree(o, s) && Runs(o, s, run) && NeverBundlesFailed(o, s, run)
    requires forall a :: a in run ==> Orderly(o, a)
    ensures QuarantineFree(o, After(o, s, run))
    decreases |run|
  {
    if run != [] {
      StepKeepsInv(o, s, run[0]);
      StepKeepsQuarantineFree(o, s, run[0]);
      PointersNeverQuarantined(o, Next(o, s, run[0]), run[1..]);
    }
  }

  /**
    The bundled core is the one way round the quarantine, because adoption does not consult it: a start that bundles
    a quarantined version ends with a quarantined pointer exactly when nothing was current, or the version is new
    here and newer than current.
   */
  lemma BundledCoreSkipsQuarantineIff(o: Ordering, s: State, v: Version)
    requires QuarantineFree(o, s) && s.launcher.Off? && s.core.Stopped? && v in s.disk.quarantine
    ensures Runs(o, s, Adoption(o, s.disk, v))
    ensures QuarantineFree(o, After(o, s, Adoption(o, s.disk, v))) <==> !Activates(o, s.disk, v)
    ensures Activates(o, s.disk, v) ==> After(o, s, Adoption(o, s.disk, v)).disk.current == Some(v)
  {
    AdoptionRun(o, s.disk, v);
  }

  // ----- a bad release cannot flap -----

  /** The write that makes a staged release current. */
  predicate IsSwitch(s: State, a: Action) { a.SwitchStep? && s.launcher.Switching? && s.launcher.step == 1 }

  /** The write that makes a bundled core current. */
  predicate IsAdoption(s: State, a: Action) { a.AdoptStep? && s.launcher.Adopting? && s.launcher.step == 2 }

  /** The write that makes the previous version current again. */
  predicate IsRollback(s: State, a: Action) { a.RollbackStep? && s.launcher.RollingBack? && s.launcher.step == 0 }

  function Rollbacks(o: Ordering, s: State, run: seq<Action>): nat
    requires Runs(o, s, run)
    decreases |run|
  {
    if run == [] then 0 else (if IsRollback(s, run[0]) then 1 else 0) + Rollbacks(o, Next(o, s, run[0]), run[1..])
  }

  function Switches(o: Ordering, s: State, run: seq<Action>): nat
    requires Runs(o, s, run)
    decreases |run|
  {
    if run == [] then 0 else (if IsSwitch(s, run[0]) then 1 else 0) + Switches(o, Next(o, s, run[0]), run[1..])
  }

  function Adoptions(o: Ordering, s: State, run: seq<Action>): nat
    requires Runs(o, s, run)
    decreases |run|
  {
    if run == [] then 0 else (if IsAdoption(s, run[0]) then 1 else 0) + Adoptions(o, Next(o, s, run[0]), run[1..])
  }

  /** One when there is a version to return to, zero when previous is unset or is current itself. */
  function Returnable(d: Disk): nat { if d.previous.Some? && d.previous != d.current then 1 else 0 }

  lemma StepReturnable(o: Ordering, s: State, a: Action)
    requires Inv(o, s) && Enabled(o, s, a)
    ensures Returnable(Next(o, s, a).disk) + (if IsRollback(s, a) then 1 else 0)
            <= Returnable(s.disk) + (if IsSwitch(s, a) || IsAdoption(s, a) then 1 else 0)
  {
  }

  /**
    Between two rollbacks a switch or an adoption intervenes, in every run with any power cuts:
    a run starting with nothing to return to has no more rollbacks than forward moves.
   */
  lemma {:induction false} RollbacksNeedForwardMoves(o: Ordering, s: State, run: seq<Action>)
    requires Inv(o, s) && Runs(o, s, run)
    requires forall a :: a in run ==> Orderly(o, a)
    ensures Rollbacks(o, s, run) <= Switches(o, s, run) + Adoptions(o, s, run) + Returnable(s.disk)
    decreases |run|
  {
    if run != [] {
      StepKeepsInv(o, s, run[0]);
      StepReturnable(o, s, run[0]);
      RollbacksNeedForwardMoves(o, Next(o, s, run[0]), run[1..]);
    }
  }
}
