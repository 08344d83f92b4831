/** The crash-loop detector: a slice of crash times, filtered in place. */
module CrashLoop {
  /** The times of `s` later than `cutoff`, in order. */
  function Later(s: seq<int>, cutoff: int): seq<int> {
    if s == [] then []
    else Later(s[..|s| - 1], cutoff) + (if s[|s| - 1] > cutoff then [s[|s| - 1]] else [])
  }

  /** How many of the times are later than the cutoff. */
  function CountLater(s: seq<int>, cutoff: int): nat { |set i: nat | i < |s| && s[i] > cutoff| }

  lemma {:induction false} LaterCounts(s: seq<int>, cutoff: int)
    ensures |Later(s, cutoff)| == CountLater(s, cutoff)
    ensures forall t :: t in Later(s, cutoff) <==> t in s && t > cutoff
  {
    if s != [] {
      var n := |s| - 1;
      LaterCounts(s[..n], cutoff);
      assert s == s[..n] + [s[n]];
      var front, all := (set i: nat | i < n && s[..n][i] > cutoff), (set i: nat | i < |s| && s[i] > cutoff);
      assert all == front + if s[n] > cutoff then {n} else {};
    }
  }

  predicate Sorted(s: seq<int>) { forall i, j :: 0 <= i < j < |s| ==> s[i] <= s[j] }

  class CrashLoopDetector {
    const maxCrashes: int
    const window: int
    var buffer: array<int>
    var count: nat

    ghost predicate Valid() reads this { count <= buffer.Length }

    ghost function Timestamps(): seq<int>
      requires Valid()
      reads this, buffer
    {
      buffer[..count]
    }

    constructor (maxCrashes: int, window: int)
      ensures Valid() && fresh(buffer) && Timestamps() == []
      ensures this.maxCrashes == maxCrashes && this.window == window
    {
      this.maxCrashes, this.window := maxCrashes, window;
      buffer, count := new int[0], 0;
    }

    /** Appends, growing the buffer when it is full. */
    method Append(at: int)
      requires Valid()
      modifies this, buffer
      ensures Valid() && (buffer == old(buffer) || fresh(buffer))
      ensures Timestamps() == old(Timestamps()) + [at]
    {
      if count == buffer.Length {
        var bigger := new int[2 * count + 1];
        for i := 0 to count
          invariant unchanged(this) && unchanged(buffer)
          invariant bigger[..i] == buffer[..i]
        {
          bigger[i] := buffer[i];
        }
        buffer := bigger;
      }
      buffer[count] := at;
      count := count + 1;
    }

    /** Drops the times up to `cutoff`, in place. */
    method Filter(cutoff: int)
      requires Valid()
      modifies this, buffer
      ensures Valid() && buffer == old(buffer) && Timestamps() == Later(old(Timestamps()), cutoff)
    {
      ghost var all := Timestamps();
      var kept := 0;
      for i := 0 to count
        invariant kept <= i && count == |all| <= buffer.Length && buffer == old(buffer)
        invariant buffer[..kept] == Later(all[..i], cutoff)
        invariant forall k :: i <= k < count ==> buffer[k] == all[k]
      {
        LaterStep(all, i, cutoff);
        if buffer[i] > cutoff {
          buffer[kept] := buffer[i];
          kept := kept + 1;
        }
      }
      count := kept;
      assert all[..|all|] == all;
    }

    /** Keeps the times inside the window ending at this crash, and says whether they are a crash loop. */
    method RecordCrash(at: int) returns (loop: bool)
      requires Valid()
      modifies this, buffer
      ensures Valid() && (buffer == old(buffer) || fresh(buffer))
      ensures Timestamps() == Later(old(Timestamps()) + [at], at - window)
      ensures loop <==> |Timestamps()| >= maxCrashes
    {
      Append(at);
      Filter(at - window);
      return count >= maxCrashes;
    }

    method Reset()
      requires Valid()
      modifies this
      ensures Valid() && fresh(buffer) && Timestamps() == []
    {
      buffer, count := new int[0], 0;
    }
  }

  lemma LaterStep(s: seq<int>, i: nat, cutoff: int)
    requires i < |s|
    ensures Later(s[..i + 1], cutoff) == Later(s[..i], cutoff) + (if s[i] > cutoff then [s[i]] else [])
  {
    assert s[..i + 1][..i] == s[..i];
  }

  /** What the detector holds after the crashes `recorded` since the last reset, one call each. */
  function Held(recorded: seq<int>, window: int): seq<int> {
    if recorded == [] then []
    else
      var at := recorded[|recorded| - 1];
      Later(Held(recorded[..|recorded| - 1], window) + [at], at - window)
  }

  /** Time `i` survives every crash from its own on: the window of each later one still reaches back to it. */
  predicate Survives(recorded: seq<int>, window: int, i: int)
    requires 0 <= i < |recorded|
  {
    forall j :: i <= j < |recorded| ==> recorded[i] > recorded[j] - window
  }

  /** No crash inside the last one's window was dropped by an earlier, later-stamped one. */
  predicate NothingDroppedEarly(recorded: seq<int>, window: int)
    requires recorded != []
  {
    forall i :: 0 <= i < |recorded| && recorded[i] > recorded[|recorded| - 1] - window ==> Survives(recorded, window, i)
  }

  function If(keep: bool, t: int): seq<int> { if keep then [t] else [] }

  /** The surviving times among the first `n`, in order. */
  function Survivors(recorded: seq<int>, window: int, n: nat): seq<int>
    requires n <= |recorded|
  {
    if n == 0 then []
    else Survivors(recorded, window, n - 1) + If(Survives(recorded, window, n - 1), recorded[n - 1])
  }

  lemma {:induction false} SurvivorsFiltered(front: seq<int>, at: int, window: int, n: nat)
    requires n <= |front|
    ensures Survivors(front + [at], window, n) == Later(Survivors(front, window, n), at - window)
  {
    if n > 0 {
      var all := front + [at];
      SurvivorsFiltered(front, at, window, n - 1);
      SurvivesStep(front, at, window, n - 1);
      LaterIf(Survivors(front, window, n - 1), front[n - 1], Survives(front, window, n - 1), at - window);
    }
  }

  lemma LaterIf(s: seq<int>, t: int, keep: bool, cutoff: int)
    ensures Later(s + If(keep, t), cutoff) == Later(s, cutoff) + If(keep && t > cutoff, t)
  {
    if keep { LaterOneMore(s, t, cutoff); } else { assert s + [] == s; }
  }

  lemma {:induction false} SurvivesStep(front: seq<int>, at: int, window: int, i: nat)
    requires i < |front|
    ensures Survives(front + [at], window, i) <==> Survives(front, window, i) && front[i] > at - window
  {
    var all := front + [at];
    assert forall j :: 0 <= j < |front| ==> all[j] == front[j];
    if Survives(all, window, i) { assert all[i] > all[|front|] - window; }
  }

  /** The detector holds exactly the times that survived every crash since. */
  lemma {:induction false} HeldIsSurvivors(recorded: seq<int>, window: int)
    ensures Held(recorded, window) == Survivors(recorded, window, |recorded|)
  {
    if recorded != [] {
      var n := |recorded| - 1;
      var front, at := recorded[..n], recorded[n];
      assert recorded == front + [at];
      HeldIsSurvivors(front, window);
      OneMoreHeld(front, at, window);
    }
  }

  lemma {:induction false} OneMoreHeld(front: seq<int>, at: int, window: int)
    requires Held(front, window) == Survivors(front, window, |front|)
    ensures Held(front + [at], window) == Survivors(front + [at], window, |front| + 1)
  {
    var n := |front|;
    HeldStep(front, at, window);
    LaterIf(Survivors(front, window, n), at, true, at - window);
    SurvivorsFiltered(front, at, window, n);
    LastSurvives(front, at, window);
  }

  lemma {:induction false} HeldStep(front: seq<int>, at: int, window: int)
    ensures Held(front + [at], window) == Later(Held(front, window) + [at], at - window)
  {
    assert (front + [at])[..|front|] == front;
  }

  lemma {:induction false} LastSurvives(front: seq<int>, at: int, window: int)
    ensures var all := front + [at];
            Survivors(all, window, |front| + 1) == Survivors(all, window, |front|) + If(at > at - window, at)
  {
    assert (front + [at])[|front|] == at;
  }

  lemma {:induction false} SurvivorsInWindow(recorded: seq<int>, window: int, n: nat)
    requires n <= |recorded| && recorded != []
    ensures |Survivors(recorded, window, n)| <= |Later(recorded[..n], recorded[|recorded| - 1] - window)|
    ensures Survivors(recorded, window, n) == Later(recorded[..n], recorded[|recorded| - 1] - window) <==>
            forall i :: 0 <= i < n && recorded[i] > recorded[|recorded| - 1] - window ==> Survives(recorded, window, i)
    ensures |Survivors(recorded, window, n)| == |Later(recorded[..n], recorded[|recorded| - 1] - window)| ==>
            Survivors(recorded, window, n) == Later(recorded[..n], recorded[|recorded| - 1] - window)
  {
    if n > 0 {
      SurvivorsInWindow(recorded, window, n - 1);
      LaterStep(recorded, n - 1, recorded[|recorded| - 1] - window);
    }
  }

  /**
    The detector holds exactly the crashes inside the window if and only if none of them was dropped early. The
    times are arbitrary here; the launcher's come from a clock that does not go back.
   */
  lemma {:induction false} HeldIsTheWindowIff(recorded: seq<int>, window: int)
    requires recorded != []
    ensures Held(recorded, window) == Later(recorded, recorded[|recorded| - 1] - window) <==>
            NothingDroppedEarly(recorded, window)
  {
    HeldIsSurvivors(recorded, window);
    SurvivorsInWindow(recorded, window, |recorded|);
    assert recorded[..|recorded|] == recorded;
  }

  /** A clock that does not go back drops nothing early: exactly the window remains. */
  lemma {:induction false} HeldIsTheWindow(recorded: seq<int>, window: int)
    requires Sorted(recorded) && recorded != []
    ensures Held(recorded, window) == Later(recorded, recorded[|recorded| - 1] - window)
  {
    HeldIsTheWindowIff(recorded, window);
  }

  lemma LaterOneMore(s: seq<int>, at: int, cutoff: int)
    ensures Later(s + [at], cutoff) == Later(s, cutoff) + (if at > cutoff then [at] else [])
  {
    assert (s + [at])[..|s|] == s;
  }

  /**
    A time inside the last call's window is forgotten when some call since came a window later: only a
    clock that goes back does that.
   */
  lemma {:induction false} DroppedEarly(recorded: seq<int>, window: int, i: nat, j: nat)
    requires i <= j < |recorded| && recorded[i] > recorded[|recorded| - 1] - window &&
             recorded[i] <= recorded[j] - window
    ensures |Held(recorded, window)| < |Later(recorded, recorded[|recorded| - 1] - window)|
  {
    assert !Survives(recorded, window, i);
    HeldIsSurvivors(recorded, window);
    SurvivorsInWindow(recorded, window, |recorded|);
    assert recorded[..|recorded|] == recorded;
  }
}
