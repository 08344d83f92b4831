/**
  The supervision loop: one trip per child process, with its probation window, crash counters,
  backoff and rollback decisions.
 */
module Supervision {
  import opened Common
  import V = Version
  import opened UpdateProtocol
  import opened DataFolder
  import opened CrashLoop

  // Seconds.
  const CRASH_LOOP_CRASHES := 3
  const CRASH_LOOP_WINDOW := 600
  const MAX_BACKOFF := 60
  const STABLE_RUN := 120

  /** What the loop remembers between trips, and what is on disk. */
  datatype Memory = Memory(disk: Disk, current: Version, backoff: int, until: Option<int>, crashes: nat,
                           stamps: seq<int>)

  datatype Exit = Unhealthy | Restart | Exited(crashed: bool)

  /** One durable write by the child, which stages releases while it runs. */
  datatype Write = Write(v: Version, step: nat)

  /**
    One child process: when it ran, how it ended, whether its probation ended while it ran, and
    what it staged before and after that moment.
   */
  datatype Trip = Trip(started: int, ended: int, exit: Exit, committed: bool, before: seq<Write>, after: seq<Write>)

  function Written(d: Disk, writes: seq<Write>): Disk {
    if writes == [] then d
    else StageWrite(Written(d, writes[..|writes| - 1]), writes[|writes| - 1].v, writes[|writes| - 1].step)
  }

  predicate AllValid(writes: seq<Write>) { forall i :: 0 <= i < |writes| ==> V.Valid(writes[i].v) }

  predicate InProbation(m: Memory, now: int) { m.until.Some? && now < m.until.value }

  /** Health is only watched, and probation only ends, in a run that started inside the window. */
  predicate Possible(m: Memory, t: Trip) {
    t.started <= t.ended &&
    (t.exit.Unhealthy? || t.committed ==> InProbation(m, t.started)) &&
    (t.committed ==> m.until.Some? && m.until.value <= t.ended) &&
    AllValid(t.before) && AllValid(t.after)
  }

  function RolledBack(m: Memory): Memory
    requires Usable(m.disk, m.current)
  {
    var prev := m.disk.previous.value;
    Memory(Last(m.disk, RollbackTrail(m.disk, m.current, prev)), prev, m.backoff, None, 0, [])
  }

  /** Rolls back when there is a usable previous version, otherwise changes nothing. */
  function TryRollback(m: Memory): Memory { if Usable(m.disk, m.current) then RolledBack(m) else m }

  function AfterHandOff(m: Memory, now: int, probation: int): Memory {
    if m.disk.pending.None? then m
    else
      var next := m.disk.pending.value;
      if next !in m.disk.installed then m.(disk := m.disk.(pending := None))
      else
        var d := Last(m.disk, SwitchTrail(m.disk, m.current, next));
        Memory(d.(probation := Some(Window(next, now + probation, 0))), next, 1, Some(now + probation), 0, [])
  }

  /** A crash of a run that started inside the window is counted on disk and in memory. */
  function CountProbationCrash(m: Memory, t: Trip): Memory {
    if InProbation(m, t.started) then
      m.(crashes := m.crashes + 1, disk := m.disk.(probation := Some(Window(m.current, m.until.value, m.crashes + 1))))
    else m
  }

  function RecordStamp(m: Memory, at: int): Memory { m.(stamps := Later(m.stamps + [at], at - CRASH_LOOP_WINDOW)) }

  /** Backoff after an exit that did not end in a rollback. */
  function BackOff(m: Memory, t: Trip): Memory {
    var b := if t.ended - t.started > STABLE_RUN then 1 else m.backoff;
    m.(backoff := if 2 * b > MAX_BACKOFF then MAX_BACKOFF else 2 * b)
  }

  predicate SecondProbationCrash(m: Memory, t: Trip) { InProbation(m, t.started) && m.crashes + 1 >= 2 }

  /** The crash-loop decision, once the crash is on the detector. */
  function AfterStamp(m: Memory, t: Trip): Memory {
    if |m.stamps| < CRASH_LOOP_CRASHES then BackOff(m, t)
    else if Usable(m.disk, m.current) then RolledBack(m)
    else BackOff(m.(backoff := MAX_BACKOFF), t)
  }

  function AfterCrash(m: Memory, t: Trip): Memory {
    var m' := CountProbationCrash(m, t);
    if SecondProbationCrash(m, t) && Usable(m'.disk, m'.current) then RolledBack(m')
    else AfterStamp(RecordStamp(m', t.ended), t)
  }

  function Commit(m: Memory, t: Trip): Memory {
    if t.committed then m.(disk := Prune(m.disk).(probation := None)) else m
  }

  function Stages(m: Memory, writes: seq<Write>): Memory { m.(disk := Written(m.disk, writes)) }

  /** The child's whole run up to its exit. */
  function During(m: Memory, t: Trip): Memory { Stages(Commit(Stages(m, t.before), t), t.after) }

  /** One trip round the loop. */
  function Iterate(m: Memory, t: Trip, probation: int): Memory {
    if m.current !in m.disk.installed then TryRollback(m)
    else
      var m' := During(m, t);
      match t.exit
      case Unhealthy => TryRollback(m')
      case Restart => AfterHandOff(m', t.ended, probation)
      case Exited(crashed) => if crashed then AfterCrash(m', t) else BackOff(m', t)
  }

  function IterateAll(m: Memory, trips: seq<Trip>, probation: int): Memory {
    if trips == [] then m else Iterate(IterateAll(m, trips[..|trips| - 1], probation), trips[|trips| - 1], probation)
  }

  /** Trips follow one another on a clock that does not go back. */
  predicate Follows(m: Memory, trips: seq<Trip>, probation: int, start: int) {
    trips == [] ||
    (var front, t := trips[..|trips| - 1], trips[|trips| - 1];
     Follows(m, front, probation, start) && Possible(IterateAll(m, front, probation), t) &&
       EndOf(front, start) <= t.started)
  }

  function EndOf(trips: seq<Trip>, start: int): int { if trips == [] then start else trips[|trips| - 1].ended }

  lemma {:induction false} FollowsEach(m: Memory, trips: seq<Trip>, probation: int, start: int, i: nat)
    requires Follows(m, trips, probation, start) && i < |trips|
    ensures Possible(IterateAll(m, trips[..i], probation), trips[i])
    ensures IterateAll(m, trips[..i + 1], probation) ==
            Iterate(IterateAll(m, trips[..i], probation), trips[i], probation)
  {
    var front := trips[..|trips| - 1];
    assert trips[..i + 1][..i] == trips[..i];
    if i < |trips| - 1 {
      FollowsEach(m, front, probation, start, i);
      assert front[..i] == trips[..i] && front[..i + 1] == trips[..i + 1];
    }
  }

  /** A launcher starting on data folder `d`, whose current version is `v`. */
  function Started(d: Disk, v: Version, now: int): Memory {
    var w := OpenWindow(d, now);
    Memory(d.(probation := w), v, 1, if w.Some? then Some(w.value.until) else None,
      if w.Some? then w.value.crashes else 0, [])
  }

  class Supervisor {
    const probation: int
    const dir: DataDir
    const detector: CrashLoopDetector
    var current: Version
    var backoff: int
    var probationUntil: Option<int>
    var probationCrashes: nat

    ghost predicate Valid()
      reads this, dir, detector
    {
      dir.Readable() && detector.Valid() && V.Valid(current) &&
      detector.maxCrashes == CRASH_LOOP_CRASHES && detector.window == CRASH_LOOP_WINDOW
    }

    ghost function View(): Memory
      requires Valid()
      reads this, dir, detector, detector.buffer
    {
      Memory(dir.View(), current, backoff, probationUntil, probationCrashes, detector.Timestamps())
    }

    constructor (dir: DataDir, cur: Version, now: int, probation: int)
      requires dir.Readable() && dir.current == Some(cur)
      modifies dir
      ensures Valid() && this.dir == dir && this.probation == probation && fresh(detector) && fresh(detector.buffer)
      ensures View() == Started(old(dir.View()), cur, now)
    {
      this.dir, this.probation := dir, probation;
      detector := new CrashLoopDetector(CRASH_LOOP_CRASHES, CRASH_LOOP_WINDOW);
      current, backoff, probationUntil, probationCrashes := cur, 1, None, 0;
      new;
      var w := dir.ReadProbation(cur, now);
      if w.Some? { probationUntil, probationCrashes := Some(w.value.until), w.value.crashes; }
    }

    method Rollback() returns (ok: bool)
      requires Valid()
      modifies this, dir, detector
      ensures Valid() && (detector.buffer == old(detector.buffer) || fresh(detector.buffer))
      ensures ok <==> Usable(old(View()).disk, old(current))
      ensures View() == TryRollback(old(View()))
    {
      var prev := dir.Rollback(current);
      if prev.None? { return false; }
      detector.Reset();
      current, probationUntil, probationCrashes := prev.value, None, 0;
      return true;
    }

    method HandOver(now: int)
      requires Valid()
      modifies this, dir, detector
      ensures Valid() && (detector.buffer == old(detector.buffer) || fresh(detector.buffer))
      ensures View() == AfterHandOff(old(View()), now, probation)
      ensures old(Staged(dir.View())) ==>
                Some(current) == old(dir.pending) == dir.current && dir.previous == Some(old(current)) &&
                probationUntil == Some(now + probation) && probationCrashes == 0 &&
                dir.probation == Some(Window(current, now + probation, 0))
    {
      if dir.pending.None? { return; }
      var next := dir.pending.value;
      if next !in dir.installed {
        dir.DeletePending();
        return;
      }
      var ok := dir.SwitchTo(next, current);
      current := next;
      detector.Reset();
      probationUntil, probationCrashes := Some(now + probation), 0;
      dir.WriteProbation(Some(Window(current, now + probation, 0)));
      backoff := 1;
    }

    method Wait(t: Trip)
      requires Valid()
      modifies this
      ensures Valid() && View() == BackOff(old(View()), t)
    {
      if t.ended - t.started > STABLE_RUN { backoff := 1; }
      backoff := 2 * backoff;
      if backoff > MAX_BACKOFF { backoff := MAX_BACKOFF; }
    }

    method CountCrash()
      requires Valid() && probationUntil.Some?
      modifies this, dir
      ensures Valid() && detector.buffer == old(detector.buffer)
      ensures var m := old(View());
              View() == m.(crashes := m.crashes + 1,
                           disk := m.disk.(probation := Some(Window(m.current, m.until.value, m.crashes + 1))))
    {
      probationCrashes := probationCrashes + 1;
      dir.WriteProbation(Some(Window(current, probationUntil.value, probationCrashes)));
    }

    method NoteStamp(at: int) returns (loop: bool)
      requires Valid()
      modifies detector, detector.buffer
      ensures Valid() && (detector.buffer == old(detector.buffer) || fresh(detector.buffer))
      ensures View() == RecordStamp(old(View()), at) && (loop <==> |View().stamps| >= CRASH_LOOP_CRASHES)
    {
      loop := detector.RecordCrash(at);
    }

    method CheckCrashLoop(t: Trip)
      requires Valid()
      modifies this, dir, detector, detector.buffer
      ensures Valid() && (detector.buffer == old(detector.buffer) || fresh(detector.buffer))
      ensures View() == AfterStamp(RecordStamp(old(View()), t.ended), t)
    {
      var loop := NoteStamp(t.ended);
      if loop {
        var ok := Rollback();
        if ok { return; }
        backoff := MAX_BACKOFF;
      }
      Wait(t);
    }

    method Crashed(t: Trip, inProbation: bool)
      requires Valid() && inProbation == InProbation(View(), t.started)
      modifies this, dir, detector, detector.buffer
      ensures Valid() && (detector.buffer == old(detector.buffer) || fresh(detector.buffer))
      ensures View() == AfterCrash(old(View()), t)
    {
      if inProbation {
        CountCrash();
        if probationCrashes >= 2 {
          var ok := Rollback();
          if ok { return; }
        }
      }
      CheckCrashLoop(t);
    }

    /** The child's own writes, as they reach the shared folder. */
    method Child(writes: seq<Write>)
      requires Valid() && AllValid(writes)
      modifies dir
      ensures Valid() && View() == Stages(old(View()), writes)
    {
      for i := 0 to |writes|
        invariant Valid() && View() == Stages(old(View()), writes[..i])
      {
        assert writes[..i + 1][..i] == writes[..i];
        dir.CoreWrite(writes[i].v, writes[i].step);
      }
      assert writes[..|writes|] == writes;
    }

    /** Waits for the child; a probation that ends meanwhile clears the window and prunes. */
    method RunChild(t: Trip)
      requires Valid() && Possible(View(), t)
      modifies dir
      ensures Valid() && View() == During(old(View()), t)
    {
      Child(t.before);
      if t.committed {
        dir.WriteProbation(None);
        ghost var steps := dir.PruneVersions();
      }
      Child(t.after);
    }

    method Once(t: Trip)
      requires Valid() && Possible(View(), t)
      modifies this, dir, detector, detector.buffer
      ensures Valid() && (detector.buffer == old(detector.buffer) || fresh(detector.buffer))
      ensures View() == Iterate(old(View()), t, probation)
    {
      if current !in dir.installed {
        var ok := Rollback();
        return;
      }
      var inProbation := probationUntil.Some? && t.started < probationUntil.value;
      RunChild(t);
      match t.exit {
        case Unhealthy => var ok := Rollback();
        case Restart => HandOver(t.ended);
        case Exited(crashed) => if crashed { Crashed(t, inProbation); } else { Wait(t); }
      }
    }

    /** The loop, over the child processes it gets to run. */
    method Run(trips: seq<Trip>, start: int)
      requires Valid() && Follows(View(), trips, probation, start)
      modifies this, dir, detector, detector.buffer
      ensures Valid() && View() == IterateAll(old(View()), trips, probation)
    {
      ghost var m := View();
      for i := 0 to |trips|
        invariant Valid() && (detector.buffer == old(detector.buffer) || fresh(detector.buffer))
        invariant View() == IterateAll(m, trips[..i], probation)
      {
        FollowsEach(m, trips, probation, start, i);
        Once(trips[i]);
      }
      assert trips[..|trips|] == trips;
    }
  }

  // ----- each trip is a run of the update protocol -----

  function AtHead(d: Disk): State { State(d, LoopHead, Stopped) }

  function Four(a: Action): seq<Action> { [a, a, a, a] }

  /** Versions offered from outside during `run` are ordered consistently. */
  predicate AllOrderly(o: Ordering, run: seq<Action>) { forall a :: a in run ==> Orderly(o, a) }

  lemma RollbackRun(o: Ordering, s: State)
    requires s.launcher.RollingBack? && s.launcher.step == 0 && s.core.Stopped?
    ensures Leads(o, s, Four(RollbackStep),
            AtHead(Last(s.disk, RollbackTrail(s.disk, s.launcher.failed, s.launcher.prev))))
  {
    var a := RollbackStep;
    var s1 := Next(o, s, a);
    var s2 := Next(o, s1, a);
    var s3 := Next(o, s2, a);
    var s4 := Next(o, s3, a);
    assert Leads(o, s4, [], s4);
    Then(o, s3, a, [], s4);
    Then(o, s2, a, [a], s4);
    Then(o, s1, a, [a, a], s4);
    Then(o, s, a, [a, a, a], s4);
  }

  lemma SwitchRun(o: Ordering, s: State, until: int)
    requires s.launcher.Switching? && s.launcher.step == 0 && s.core.Stopped? && s.disk.current.Some?
    ensures var next := s.launcher.next;
            var d := Last(s.disk, SwitchTrail(s.disk, s.disk.current.value, next));
            Leads(o, s, Four(SwitchStep(until)), AtHead(d.(probation := Some(Window(next, until, 0)))))
  {
    var a := SwitchStep(until);
    var s1 := Next(o, s, a);
    var s2 := Next(o, s1, a);
    var s3 := Next(o, s2, a);
    var s4 := Next(o, s3, a);
    assert Leads(o, s4, [], s4);
    Then(o, s3, a, [], s4);
    Then(o, s2, a, [a], s4);
    Then(o, s1, a, [a, a], s4);
    Then(o, s, a, [a, a, a], s4);
  }

  /** The child fails and the launcher tries to roll back. */
  lemma FailureRun(o: Ordering, s: State, m: Memory) returns (run: seq<Action>)
    requires s.launcher.Supervising? && s.disk == m.disk && m.disk.current == Some(m.current)
    ensures Leads(o, s, run, AtHead(TryRollback(m).disk)) && AllOrderly(o, run)
  {
    var t := Next(o, s, ChildFails(true));
    assert Usable(m.disk, m.current) == CanRollBack(m.disk);
    if Usable(m.disk, m.current) {
      RollbackRun(o, t);
      run := [ChildFails(true)] + Four(RollbackStep);
      Then(o, s, ChildFails(true), Four(RollbackStep), AtHead(TryRollback(m).disk));
    } else {
      assert Leads(o, t, [], t);
      run := [ChildFails(true)] + [];
      Then(o, s, ChildFails(true), [], t);
    }
  }

  lemma HandOffRun(o: Ordering, s: State, m: Memory, now: int, probation: int) returns (run: seq<Action>)
    requires s.launcher.Supervising? && s.disk == m.disk && m.disk.current == Some(m.current)
    ensures Leads(o, s, run, AtHead(AfterHandOff(m, now, probation).disk)) && AllOrderly(o, run)
  {
    var t := Next(o, s, HandOff);
    var target := AtHead(AfterHandOff(m, now, probation).disk);
    if Staged(m.disk) {
      SwitchRun(o, t, now + probation);
      run := [HandOff] + Four(SwitchStep(now + probation));
      Then(o, s, HandOff, Four(SwitchStep(now + probation)), target);
    } else {
      assert Leads(o, t, [], t);
      run := [HandOff] + [];
      Then(o, s, HandOff, [], target);
    }
  }

  lemma PlainExitRun(o: Ordering, s: State)
    requires s.launcher.Supervising? && s.disk.current.Some?
    ensures Leads(o, s, [ChildFails(false)] + [], AtHead(s.disk))
  {
    assert Leads(o, AtHead(s.disk), [], AtHead(s.disk));
    Then(o, s, ChildFails(false), [], AtHead(s.disk));
  }

  lemma CrashRun(o: Ordering, s: State, m: Memory, t: Trip) returns (run: seq<Action>)
    requires s.launcher.Supervising? && s.disk == m.disk && m.disk.current == Some(m.current)
    ensures Leads(o, s, run, AtHead(AfterCrash(m, t).disk)) && AllOrderly(o, run)
  {
    var m' := CountProbationCrash(m, t);
    var s' := if InProbation(m, t.started) then Next(o, s, NoteCrash(m.until.value, m.crashes + 1)) else s;
    assert s'.disk == m'.disk && s'.launcher.Supervising? && Enabled(o, s', ChildFails(true));
    var attempted := SecondProbationCrash(m, t) || |RecordStamp(m', t.ended).stamps| >= CRASH_LOOP_CRASHES;
    assert AfterCrash(m, t).disk == if attempted then TryRollback(m').disk else m'.disk;
    if attempted { run := FailureRun(o, s', m'); } else { PlainExitRun(o, s'); run := [ChildFails(false)] + []; }
    if InProbation(m, t.started) {
      Then(o, s, NoteCrash(m.until.value, m.crashes + 1), run, AtHead(AfterCrash(m, t).disk));
      run := [NoteCrash(m.until.value, m.crashes + 1)] + run;
    }
  }

  /** What the child's exit leads to. */
  function Ended(m: Memory, t: Trip, probation: int): Memory {
    match t.exit
    case Unhealthy => TryRollback(m)
    case Restart => AfterHandOff(m, t.ended, probation)
    case Exited(crashed) => if crashed then AfterCrash(m, t) else BackOff(m, t)
  }

  lemma ExitRun(o: Ordering, s: State, m: Memory, t: Trip, probation: int) returns (run: seq<Action>)
    requires s.launcher.Supervising? && s.disk == m.disk && m.disk.current == Some(m.current)
    ensures Leads(o, s, run, AtHead(Ended(m, t, probation).disk)) && AllOrderly(o, run)
  {
    match t.exit
    case Unhealthy => run := FailureRun(o, s, m);
    case Restart => run := HandOffRun(o, s, m, t.ended, probation);
    case Exited(crashed) =>
      if crashed { run := CrashRun(o, s, m, t); } else { PlainExitRun(o, s); run := [ChildFails(false)] + []; }
  }

  /** The child's writes are those of the protocol's core while it runs these actions. */
  predicate ByProtocol(o: Ordering, d: Disk, core: Core, acts: seq<Action>, writes: seq<Write>, core': Core) {
    Leads(o, State(d, Supervising, core), acts, State(Written(d, writes), Supervising, core'))
  }

  lemma {:induction false} LeadsOn(o: Ordering, s: State, r1: seq<Action>, t: State, r2: seq<Action>, u: State)
    requires Leads(o, s, r1, t) && Leads(o, t, r2, u)
    ensures Leads(o, s, r1 + r2, u)
    decreases |r1|
  {
    if r1 == [] {
      assert r1 + r2 == r2;
    } else {
      LeadsOn(o, Next(o, s, r1[0]), r1[1..], t, r2, u);
      assert (r1 + r2)[1..] == r1[1..] + r2;
    }
  }

  lemma {:induction false} WrittenFrame(d: Disk, writes: seq<Write>)
    ensures var e := Written(d, writes);
            e.current == d.current && e.previous == d.previous && e.probation == d.probation &&
              e.quarantine == d.quarantine
  {
    if writes != [] { WrittenFrame(d, writes[..|writes| - 1]); }
  }

  /** What a child run keeps: the launcher's own pointers and memory. */
  lemma DuringFrame(m: Memory, t: Trip)
    ensures var m' := During(m, t);
            m' == m.(disk := m'.disk) && m'.disk.current == m.disk.current && m'.disk.previous == m.disk.previous &&
            m'.disk.probation == if t.committed then None else m.disk.probation
  {
    WrittenFrame(m.disk, t.before);
    WrittenFrame(Commit(Stages(m, t.before), t).disk, t.after);
  }

  lemma CommitRun(o: Ordering, s: State, m: Memory, t: Trip) returns (run: seq<Action>)
    requires s.launcher.Supervising? && s.disk == m.disk
    ensures Leads(o, s, run, s.(disk := Commit(m, t).disk)) && AllOrderly(o, run)
  {
    var target := s.(disk := Commit(m, t).disk);
    assert Leads(o, target, [], target);
    if t.committed {
      Then(o, s, UpdateProtocol.Commit, [], target);
      run := [UpdateProtocol.Commit] + [];
    } else {
      run := [];
    }
  }

  lemma DuringRun(o: Ordering, m: Memory, t: Trip, before: seq<Action>, c1: Core, after: seq<Action>, c2: Core)
    returns (run: seq<Action>)
    requires ByProtocol(o, m.disk, Ticking, before, t.before, c1)
    requires ByProtocol(o, Commit(Stages(m, t.before), t).disk, c1, after, t.after, c2)
    requires AllOrderly(o, before) && AllOrderly(o, after)
    ensures Leads(o, State(m.disk, Supervising, Ticking), run, State(During(m, t).disk, Supervising, c2)) &&
            AllOrderly(o, run)
  {
    var m1 := Stages(m, t.before);
    var s0, s1 := State(m.disk, Supervising, Ticking), State(m1.disk, Supervising, c1);
    var s2 := State(Commit(m1, t).disk, Supervising, c1);
    var s3 := State(During(m, t).disk, Supervising, c2);
    var commit := CommitRun(o, s1, m1, t);
    LeadsOn(o, s0, before, s1, commit, s2);
    LeadsOn(o, s0, before + commit, s2, after, s3);
    run := before + commit + after;
  }

  /**
    Every trip round the loop, with any staging the protocol allows the core, is an uncut run of
    the protocol, so its invariants hold throughout.
   */
  lemma TripIsRun(o: Ordering, m: Memory, t: Trip, probation: int, before: seq<Action>, c1: Core, after: seq<Action>,
                  c2: Core)
    returns (run: seq<Action>)
    requires m.disk.current == Some(m.current)
    requires ByProtocol(o, m.disk, Ticking, before, t.before, c1)
    requires ByProtocol(o, Commit(Stages(m, t.before), t).disk, c1, after, t.after, c2)
    requires AllOrderly(o, before) && AllOrderly(o, after)
    ensures Leads(o, AtHead(m.disk), run, AtHead(Iterate(m, t, probation).disk)) && AllOrderly(o, run)
  {
    var target := AtHead(Iterate(m, t, probation).disk);
    var s := Next(o, AtHead(m.disk), Launch);
    if m.current !in m.disk.installed {
      assert Usable(m.disk, m.current) == CanRollBack(m.disk);
      if Usable(m.disk, m.current) { RollbackRun(o, s); run := Four(RollbackStep); } else { run := []; }
    } else {
      var m' := During(m, t);
      DuringFrame(m, t);
      var s' := State(m'.disk, Supervising, c2);
      var during := DuringRun(o, m, t, before, c1, after, c2);
      var exit := ExitRun(o, s', m', t, probation);
      LeadsOn(o, s, during, s', exit, target);
      run := during + exit;
    }
    Then(o, AtHead(m.disk), Launch, run, target);
    run := [Launch] + run;
  }

  // ----- whole runs of the loop -----

  /** What the child stages during the trip is what the protocol lets the core stage. */
  ghost predicate StagesByProtocol(o: Ordering, m: Memory, t: Trip) {
    exists before, c1, after, c2 ::
      ByProtocol(o, m.disk, Ticking, before, t.before, c1) &&
      ByProtocol(o, Commit(Stages(m, t.before), t).disk, c1, after, t.after, c2) &&
      AllOrderly(o, before) && AllOrderly(o, after)
  }

  ghost predicate AllByProtocol(o: Ordering, m: Memory, trips: seq<Trip>, probation: int) {
    forall i :: 0 <= i < |trips| ==> StagesByProtocol(o, IterateAll(m, trips[..i], probation), trips[i])
  }

  /** The version in memory is the one the current pointer names. */
  predicate Tracks(m: Memory) { m.disk.current == Some(m.current) }

  lemma RollbackKeepsCurrent(m: Memory)
    requires Tracks(m)
    ensures Tracks(TryRollback(m))
  {
  }

  lemma HandOffKeepsCurrent(m: Memory, now: int, probation: int)
    requires Tracks(m)
    ensures Tracks(AfterHandOff(m, now, probation))
  {
  }

  lemma CrashKeepsCurrent(m: Memory, t: Trip)
    requires Tracks(m)
    ensures Tracks(AfterCrash(m, t))
  {
    RollbackKeepsCurrent(CountProbationCrash(m, t));
  }

  lemma TripKeepsCurrent(m: Memory, t: Trip, probation: int)
    requires m.disk.current == Some(m.current)
    ensures Iterate(m, t, probation).disk.current == Some(Iterate(m, t, probation).current)
  {
    DuringFrame(m, t);
    var m' := During(m, t);
    RollbackKeepsCurrent(m);
    RollbackKeepsCurrent(m');
    HandOffKeepsCurrent(m', t.ended, probation);
    CrashKeepsCurrent(m', t);
  }

  lemma TripKeepsInv(o: Ordering, m: Memory, t: Trip, probation: int)
    requires m.disk.current == Some(m.current) && Inv(o, AtHead(m.disk)) && StagesByProtocol(o, m, t)
    ensures Inv(o, AtHead(Iterate(m, t, probation).disk))
  {
    var before, c1, after, c2 :|
      ByProtocol(o, m.disk, Ticking, before, t.before, c1) &&
      ByProtocol(o, Commit(Stages(m, t.before), t).disk, c1, after, t.after, c2) &&
      AllOrderly(o, before) && AllOrderly(o, after);
    var run := TripIsRun(o, m, t, probation, before, c1, after, c2);
    EveryRunIsConsistent(o, AtHead(m.disk), run);
  }

  /**
    However many children the loop runs, and whatever the protocol lets them stage, the data folder is
    consistent at its head.
   */
  lemma {:induction false} LoopHeadsConsistent(o: Ordering, m: Memory, trips: seq<Trip>, probation: int)
    requires m.disk.current == Some(m.current) && Inv(o, AtHead(m.disk)) && AllByProtocol(o, m, trips, probation)
    ensures var r := IterateAll(m, trips, probation);
            r.disk.current == Some(r.current) && Inv(o, AtHead(r.disk)) && Consistent(o, r.disk)
  {
    if trips != [] {
      var n := |trips| - 1;
      var front := trips[..n];
      assert forall i :: 0 <= i < n ==> front[..i] == trips[..i] && front[i] == trips[i];
      LoopHeadsConsistent(o, m, front, probation);
      TripKeepsCurrent(IterateAll(m, front, probation), trips[n], probation);
      TripKeepsInv(o, IterateAll(m, front, probation), trips[n], probation);
    }
  }

  // ----- probation survives a restart -----

  /** An open window in memory is on disk for the current version with the same count, and no other open window is. */
  predicate Synced(m: Memory, now: int) {
    m.disk.current == Some(m.current) &&
    (InProbation(m, now) ==> m.disk.probation == Some(Window(m.current, m.until.value, m.crashes))) &&
    (m.disk.probation.Some? && now < m.disk.probation.value.until ==>
       m.disk.probation == Some(Window(m.current, m.disk.probation.value.until, m.crashes)) &&
         m.until == Some(m.disk.probation.value.until))
  }

  lemma StartIsSynced(d: Disk, v: Version, now: int)
    requires d.current == Some(v)
    ensures Synced(Started(d, v, now), now)
  {
  }

  lemma DuringKeepsSynced(m: Memory, t: Trip)
    requires Synced(m, t.started) && Possible(m, t)
    ensures Synced(During(m, t), t.ended)
  {
    DuringFrame(m, t);
  }

  lemma CrashKeepsSynced(m: Memory, t: Trip)
    requires Synced(m, t.ended) && t.started <= t.ended
    ensures Synced(AfterCrash(m, t), t.ended)
  {
    var m' := CountProbationCrash(m, t);
    assert Synced(m', t.ended);
  }

  lemma TripKeepsSynced(m: Memory, t: Trip, probation: int)
    requires Synced(m, t.started) && Possible(m, t)
    ensures Synced(Iterate(m, t, probation), t.ended)
  {
    DuringKeepsSynced(m, t);
    if m.current in m.disk.installed && t.exit == Exited(true) { CrashKeepsSynced(During(m, t), t); }
  }

  lemma {:induction false} LoopHeadsSynced(m: Memory, trips: seq<Trip>, probation: int, start: int)
    requires Synced(m, start) && Follows(m, trips, probation, start)
    ensures Synced(IterateAll(m, trips, probation), EndOf(trips, start))
  {
    if trips != [] {
      var front := trips[..|trips| - 1];
      LoopHeadsSynced(m, front, probation, start);
      TripKeepsSynced(IterateAll(m, front, probation), trips[|trips| - 1], probation);
    }
  }

  /**
    Stopping the launcher at the top of its loop, after any trips since any start, and starting it
    again at any later time restores the same open window and crash count, or none if it has closed.
   */
  lemma RestartKeepsProbation(d: Disk, v: Version, start: int, trips: seq<Trip>, probation: int, now: int)
    requires d.current == Some(v) && Follows(Started(d, v, start), trips, probation, start) &&
             EndOf(trips, start) <= now
    ensures var m := IterateAll(Started(d, v, start), trips, probation);
            var r := Started(m.disk, m.current, now);
            (InProbation(m, now) ==> r.until == m.until && r.crashes == m.crashes) &&
            (!InProbation(m, now) ==> r.until.None? && r.crashes == 0)
  {
    StartIsSynced(d, v, start);
    LoopHeadsSynced(Started(d, v, start), trips, probation, start);
  }

  /** A window for another version, or one that has closed, is never applied and is cleaned up. */
  lemma ForeignWindowIgnored(d: Disk, v: Version, now: int)
    requires d.current == Some(v) && d.probation.Some?
    ensures var r := Started(d, v, now);
            (r.until.Some? <==> d.probation.value.version == v && now < d.probation.value.until) &&
            (r.until.None? ==> r.crashes == 0 && r.disk.probation.None?)
  {
  }

  // ----- when a crash rolls back -----

  /** How many of the crashes lie in the ten minutes ending now. */
  function CrashesInWindow(recorded: seq<int>, now: int): nat { CountLater(recorded, now - 600) }

  predicate Loops(m: Memory, t: Trip) { |RecordStamp(m, t.ended).stamps| >= CRASH_LOOP_CRASHES }

  lemma AfterCrashDecides(m: Memory, t: Trip)
    ensures AfterCrash(m, t).current != m.current <==>
            Usable(m.disk, m.current) && (SecondProbationCrash(m, t) || Loops(m, t))
    ensures AfterCrash(m, t).current == m.current ==> AfterCrash(m, t).stamps == RecordStamp(m, t.ended).stamps
    ensures AfterCrash(m, t).current != m.current ==>
            AfterCrash(m, t).stamps == [] && AfterCrash(m, t).current == m.disk.previous.value
  {
    var m' := CountProbationCrash(m, t);
    var stamps := RecordStamp(m, t.ended).stamps;
    assert RecordStamp(m', t.ended) == m'.(stamps := stamps);
    assert Usable(m'.disk, m'.current) == Usable(m.disk, m.current);
  }

  /** The version to go back to is still there when the child has ended. */
  predicate CanGoBack(m: Memory, t: Trip) { Usable(During(m, t).disk, m.current) }

  /** `r` follows from a crash that rolls back exactly if `back`. */
  predicate Decided(m: Memory, t: Trip, r: Memory, back: bool) {
    if back then r.current != m.current && Some(r.current) == m.disk.previous && r.stamps == []
    else r.current == m.current && r.stamps == RecordStamp(m, t.ended).stamps
  }

  lemma CrashTripDecides(m: Memory, t: Trip, probation: int)
    requires m.current in m.disk.installed && Possible(m, t) && t.exit == Exited(true)
    ensures Decided(m, t, Iterate(m, t, probation), CanGoBack(m, t) && (SecondProbationCrash(m, t) || Loops(m, t)))
  {
    var m' := During(m, t);
    DuringFrame(m, t);
    assert SecondProbationCrash(m', t) == SecondProbationCrash(m, t);
    assert m'.stamps == m.stamps && m'.current == m.current;
    AfterCrashDecides(m', t);
  }

  // ----- the crashes of a run -----

  /** The trip ends with the detector reset: a rollback, or a switch. */
  predicate Resets(m: Memory, t: Trip, probation: int) {
    if m.current !in m.disk.installed then Usable(m.disk, m.current)
    else
      match t.exit
      case Unhealthy => CanGoBack(m, t)
      case Restart => Staged(During(m, t).disk)
      case Exited(crashed) => crashed && Iterate(m, t, probation).current != m.current
  }

  /** A child ran and crashed. */
  predicate Crashes(m: Memory, t: Trip) { m.current in m.disk.installed && t.exit == Exited(true) }

  /** When the crashes since the last reset happened. */
  function CrashTimes(m: Memory, trips: seq<Trip>, probation: int): seq<int> {
    if trips == [] then []
    else
      var front, t := trips[..|trips| - 1], trips[|trips| - 1];
      var before := IterateAll(m, front, probation);
      if Resets(before, t, probation) then []
      else if Crashes(before, t) then CrashTimes(m, front, probation) + [t.ended]
      else CrashTimes(m, front, probation)
  }

  /** How many of them ended a run that began in probation, counting on from what the launcher found on disk. */
  function ProbationCrashes(m: Memory, trips: seq<Trip>, probation: int): nat {
    if trips == [] then m.crashes
    else
      var front, t := trips[..|trips| - 1], trips[|trips| - 1];
      var before := IterateAll(m, front, probation);
      if Resets(before, t, probation) then 0
      else
        ProbationCrashes(m, front, probation) +
        (if Crashes(before, t) && InProbation(before, t.started) then 1 else 0)
  }

  lemma CrashCounts(m: Memory, t: Trip)
    ensures AfterCrash(m, t).current != m.current ==> AfterCrash(m, t).crashes == 0
    ensures AfterCrash(m, t).current == m.current ==>
            AfterCrash(m, t).crashes == m.crashes + (if InProbation(m, t.started) then 1 else 0)
  {
  }

  /** What one trip does to the counters, in terms of whether it resets them and whether it crashes. */
  lemma TripCounts(m: Memory, t: Trip, probation: int)
    requires Possible(m, t)
    ensures Iterate(m, t, probation).stamps ==
              if Resets(m, t, probation) then [] else if Crashes(m, t) then RecordStamp(m, t.ended).stamps else m.stamps
    ensures Iterate(m, t, probation).crashes ==
              if Resets(m, t, probation) then 0
              else m.crashes + (if Crashes(m, t) && InProbation(m, t.started) then 1 else 0)
  {
    DuringFrame(m, t);
    if Crashes(m, t) {
      CrashTripDecides(m, t, probation);
      CrashCounts(During(m, t), t);
    }
  }

  lemma {:induction false} OneMoreStamp(m: Memory, recorded: seq<int>, at: int)
    requires m.stamps == Held(recorded, CRASH_LOOP_WINDOW)
    ensures RecordStamp(m, at).stamps == Held(recorded + [at], CRASH_LOOP_WINDOW)
  {
    HeldStep(recorded, at, CRASH_LOOP_WINDOW);
  }

  predicate UpTo(times: seq<int>, end: int) { forall i :: 0 <= i < |times| ==> times[i] <= end }

  /** On a clock that does not go back the crash times are in order. */
  lemma {:induction false} CrashTimesInOrder(m: Memory, trips: seq<Trip>, probation: int, start: int)
    requires Follows(m, trips, probation, start)
    ensures Sorted(CrashTimes(m, trips, probation)) && UpTo(CrashTimes(m, trips, probation), EndOf(trips, start))
  {
    if trips != [] { CrashTimesInOrder(m, trips[..|trips| - 1], probation, start); }
  }

  /** The counters in memory are those of the run. */
  lemma {:induction false} CountersTrackCrashes(m: Memory, trips: seq<Trip>, probation: int, start: int)
    requires m.stamps == [] && Follows(m, trips, probation, start)
    ensures IterateAll(m, trips, probation).stamps == Held(CrashTimes(m, trips, probation), CRASH_LOOP_WINDOW)
    ensures IterateAll(m, trips, probation).crashes == ProbationCrashes(m, trips, probation)
  {
    if trips != [] {
      var front, t := trips[..|trips| - 1], trips[|trips| - 1];
      CountersTrackCrashes(m, front, probation, start);
      TripCounts(IterateAll(m, front, probation), t, probation);
      OneMoreStamp(IterateAll(m, front, probation), CrashTimes(m, front, probation), t.ended);
    }
  }

  lemma {:induction false} WindowSize(recorded: seq<int>, now: int)
    requires Sorted(recorded) && UpTo(recorded, now)
    ensures |Held(recorded + [now], CRASH_LOOP_WINDOW)| == CrashesInWindow(recorded + [now], now)
  {
    HeldIsTheWindow(recorded + [now], CRASH_LOOP_WINDOW);
    LaterCounts(recorded + [now], now - CRASH_LOOP_WINDOW);
  }

  /**
    In any run of the loop since the launcher started, a crash leads to a rollback exactly when there is a usable
    previous version and either this is at least the second crash of runs that began in probation, or at least three
    of the crashes since the last rollback or switch, this one included, lie in the ten minutes ending now.
   */
  lemma {:induction false} CrashRollsBackIff(d: Disk, v: Version, start: int, trips: seq<Trip>, t: Trip, probation: int)
    requires Follows(Started(d, v, start), trips, probation, start)
    requires var m := IterateAll(Started(d, v, start), trips, probation);
             Possible(m, t) && EndOf(trips, start) <= t.started && Crashes(m, t)
    ensures var s := Started(d, v, start);
            var m := IterateAll(s, trips, probation);
            Iterate(m, t, probation).current != m.current <==>
              CanGoBack(m, t) &&
              ((InProbation(m, t.started) && ProbationCrashes(s, trips, probation) >= 1) ||
               CrashesInWindow(CrashTimes(s, trips, probation) + [t.ended], t.ended) >= 3)
  {
    var s := Started(d, v, start);
    var m := IterateAll(s, trips, probation);
    CountersTrackCrashes(s, trips, probation, start);
    CrashTimesInOrder(s, trips, probation, start);
    CrashTripDecides(m, t, probation);
    OneMoreStamp(m, CrashTimes(s, trips, probation), t.ended);
    WindowSize(CrashTimes(s, trips, probation), t.ended);
  }

  /**
    A run that starts inside the window and crashes long after it closed still counts, and the second such
    crash rolls back.
   */
  lemma LateProbationCrashCounts(m: Memory, t: Trip, probation: int)
    requires m.current in m.disk.installed && Possible(m, t) && t.exit == Exited(true)
    requires InProbation(m, t.started) && !InProbation(m, t.ended) && m.crashes == 1 && CanGoBack(m, t)
    ensures Some(Iterate(m, t, probation).current) == m.disk.previous && Iterate(m, t, probation).current != m.current
  {
    CrashTripDecides(m, t, probation);
  }
}
