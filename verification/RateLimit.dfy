/** The webhook's fixed-window rate limiter. */
module RateLimit {
  datatype Bucket = Bucket(start: int, n: int)

  datatype Config = Config(burst: int, window: int, maxKeys: nat)

  type Table = map<string, Bucket>

  function Purged(c: Config, seen: Table, now: int): Table {
    map k | k in seen && now - seen[k].start < c.window :: seen[k]
  }

  /** The table a request is judged against: a full table is purged of finished windows first. */
  function Considered(c: Config, seen: Table, now: int): Table {
    if |seen| >= c.maxKeys then Purged(c, seen, now) else seen
  }

  predicate Refused(c: Config, seen: Table, key: string, now: int) {
    |seen| >= c.maxKeys && |Purged(c, seen, now)| >= c.maxKeys && key !in Purged(c, seen, now)
  }

  predicate Opens(c: Config, seen: Table, key: string, now: int) {
    var t := Considered(c, seen, now);
    key !in t || now - t[key].start >= c.window
  }

  /** The table after one request. */
  function After(c: Config, seen: Table, key: string, now: int): Table {
    var t := Considered(c, seen, now);
    if Refused(c, seen, key, now) then t
    else if Opens(c, seen, key, now) then t[key := Bucket(now, 1)]
    else t[key := Bucket(t[key].start, t[key].n + 1)]
  }

  predicate Allowed(c: Config, seen: Table, key: string, now: int) {
    !Refused(c, seen, key, now) && (Opens(c, seen, key, now) || Considered(c, seen, now)[key].n + 1 <= c.burst)
  }

  class Limiter {
    const c: Config
    var seen: Table

    constructor (c: Config)
      ensures this.c == c && seen == map[]
    {
      this.c, seen := c, map[];
    }

    /** Deletes the buckets whose window is over, in no particular order. */
    method Purge(now: int)
      modifies this
      ensures seen == Purged(c, old(seen), now)
    {
      var left := seen.Keys;
      while left != {}
        invariant left <= seen.Keys <= old(seen).Keys
        invariant forall k :: k in seen ==> seen[k] == old(seen)[k]
        invariant forall k :: k in old(seen) && k !in left ==> (k in seen <==> now - old(seen)[k].start < c.window)
        decreases left
      {
        var k :| k in left;
        if now - seen[k].start >= c.window { seen := seen - {k}; }
        left := left - {k};
      }
    }

    method Allow(key: string, now: int) returns (ok: bool)
      modifies this
      ensures seen == After(c, old(seen), key, now)
      ensures ok <==> Allowed(c, old(seen), key, now)
    {
      if |seen| >= c.maxKeys {
        Purge(now);
        if |seen| >= c.maxKeys && key !in seen { return false; }
      }
      if key !in seen || now - seen[key].start >= c.window {
        seen := seen[key := Bucket(now, 1)];
        return true;
      }
      seen := seen[key := Bucket(seen[key].start, seen[key].n + 1)];
      return seen[key].n <= c.burst;
    }
  }

  // ----- runs -----

  datatype Request = Request(key: string, at: int)

  function TableAfter(c: Config, run: seq<Request>): Table {
    if run == [] then map[] else After(c, TableAfter(c, run[..|run| - 1]), run[|run| - 1].key, run[|run| - 1].at)
  }

  predicate ClockForward(run: seq<Request>) { forall i, j :: 0 <= i < j < |run| ==> run[i].at <= run[j].at }

  /** An allowed request and the start of the window it was counted in. */
  datatype Grant = Grant(at: int, start: int)

  /** The allowed requests of one key. */
  function Grants(c: Config, run: seq<Request>, key: string): seq<Grant> {
    if run == [] then []
    else
      var front, r := run[..|run| - 1], run[|run| - 1];
      var seen := TableAfter(c, front);
      Grants(c, front, key) +
      (if r.key == key && Allowed(c, seen, key, r.at) then [Grant(r.at, GrantStart(c, seen, key, r.at))] else [])
  }

  function GrantStart(c: Config, seen: Table, key: string, now: int): int {
    if Opens(c, seen, key, now) then now else Considered(c, seen, now)[key].start
  }

  // ----- the table stays small -----

  lemma {:induction false} TableBounded(c: Config, run: seq<Request>)
    requires c.maxKeys > 0
    ensures |TableAfter(c, run)| <= c.maxKeys
  {
    if run != [] {
      var front, r := run[..|run| - 1], run[|run| - 1];
      TableBounded(c, front);
      var seen := TableAfter(c, front);
      var t := Considered(c, seen, r.at);
      PurgedSmaller(c, seen, r.at);
      var next := After(c, seen, r.key, r.at);
      assert next.Keys == t.Keys || next.Keys == t.Keys + {r.key};
      assert |t.Keys + {r.key}| <= |t.Keys| + (if r.key in t then 0 else 1);
    }
  }

  lemma PurgedSmaller(c: Config, seen: Table, now: int)
    ensures |Purged(c, seen, now)| <= |seen|
  {
    assert Purged(c, seen, now).Keys <= seen.Keys;
    assert seen.Keys == Purged(c, seen, now).Keys + (seen.Keys - Purged(c, seen, now).Keys);
  }

  // ----- one request -----

  /** The keys whose window is still open. */
  function LiveKeys(c: Config, seen: Table, now: int): set<string> {
    set k | k in seen && now - seen[k].start < c.window
  }

  /**
    What happens to one request. A key whose window is open is counted on, in a full table too, and allowed up to the
    burst; any other key starts a window, unless the table is full of open ones. Other open windows are untouched.
   */
  lemma RequestOutcome(c: Config, seen: Table, key: string, now: int)
    requires c.window > 0
    ensures var live, next := LiveKeys(c, seen, now), After(c, seen, key, now);
            (key in live ==>
               key in next && next[key] == Bucket(seen[key].start, seen[key].n + 1) &&
               (Allowed(c, seen, key, now) <==> seen[key].n < c.burst)) &&
            (key !in live && (|seen| < c.maxKeys || |live| < c.maxKeys) ==>
               key in next && next[key] == Bucket(now, 1) && Allowed(c, seen, key, now)) &&
            (key !in live && |seen| >= c.maxKeys && |live| >= c.maxKeys ==>
               key !in next && !Allowed(c, seen, key, now)) &&
            forall k :: k in live && k != key ==> k in next && next[k] == seen[k]
  {
    assert Purged(c, seen, now).Keys == LiveKeys(c, seen, now);
  }

  /** How many of the requests are by the key. */
  function Own(run: seq<Request>, key: string): nat {
    if run == [] then 0 else Own(run[..|run| - 1], key) + (if run[|run| - 1].key == key then 1 else 0)
  }

  /** All the requests come before the window that began at `start` is over. */
  predicate Inside(c: Config, run: seq<Request>, start: int) { forall r :: r in run ==> r.at < start + c.window }

  /**
    Once a key has started a window, its requests before the window's end are counted in it whatever other keys do, and
    exactly as many as the burst allows are let through, that first one included.
   */
  lemma {:induction false} WindowAdmitsBurst(c: Config, run: seq<Request>, key: string, start: int, later: seq<Request>)
    requires c.window > 0 && Inside(c, later, start)
    requires key in TableAfter(c, run) && TableAfter(c, run)[key] == Bucket(start, 1)
    ensures key in TableAfter(c, run + later) && TableAfter(c, run + later)[key] == Bucket(start, 1 + Own(later, key))
    ensures |Grants(c, run + later, key)| - |Grants(c, run, key)| ==
            if Own(later, key) < c.burst then Own(later, key) else if c.burst >= 1 then c.burst - 1 else 0
  {
    if later == [] {
      assert run + later == run;
    } else {
      var front, r := later[..|later| - 1], later[|later| - 1];
      assert (run + later)[..|run + later| - 1] == run + front;
      WindowAdmitsBurst(c, run, key, start, front);
      assert r in later;
      var seen := TableAfter(c, run + front);
      assert key in LiveKeys(c, seen, r.at);
      RequestOutcome(c, seen, r.key, r.at);
    }
  }

  // ----- counting -----

  function Count(log: seq<Grant>, p: Grant -> bool): nat {
    if log == [] then 0 else Count(log[..|log| - 1], p) + (if p(log[|log| - 1]) then 1 else 0)
  }

  lemma CountAppend(log: seq<Grant>, g: Grant, p: Grant -> bool)
    ensures Count(log + [g], p) == Count(log, p) + (if p(g) then 1 else 0)
  {
    assert (log + [g])[..|log|] == log;
  }

  lemma {:induction false} CountImplies(log: seq<Grant>, p: Grant -> bool, q: Grant -> bool)
    requires forall g :: g in log && p(g) ==> q(g)
    ensures Count(log, p) <= Count(log, q)
    ensures (exists g :: g in log && q(g) && !p(g)) ==> Count(log, p) < Count(log, q)
  {
    if log != [] {
      var front, last := log[..|log| - 1], log[|log| - 1];
      assert log == front + [last];
      CountImplies(front, p, q);
    }
  }

  lemma {:induction false} CountSplit(log: seq<Grant>, p: Grant -> bool, a: Grant -> bool)
    ensures Count(log, p) == Count(log, (g: Grant) => p(g) && a(g)) + Count(log, (g: Grant) => p(g) && !a(g))
  {
    if log != [] { CountSplit(log[..|log| - 1], p, a); }
  }

  // ----- windows of one key -----

  function StartIs(s: int): Grant -> bool { (g: Grant) => g.start == s }

  function Cap(c: Config): nat { if c.burst < 1 then 1 else c.burst }

  predicate Apart(c: Config, s: int, t: int) { s == t || s + c.window <= t || t + c.window <= s }

  /** Each grant lies in its window, windows do not overlap, each was opened by a grant and holds at most the cap. */
  ghost predicate Windows(c: Config, log: seq<Grant>) {
    (forall g :: g in log ==> g.start <= g.at < g.start + c.window) &&
    (forall g, h :: g in log && h in log ==> Apart(c, g.start, h.start)) &&
    (forall g :: g in log ==> Grant(g.start, g.start) in log) &&
    (forall g :: g in log ==> Count(log, StartIs(g.start)) <= Cap(c))
  }

  /** How the key's bucket relates to its grants so far. */
  ghost predicate Tracks(c: Config, seen: Table, key: string, log: seq<Grant>, now: int) {
    if key in seen then
      var b := seen[key];
      b.start <= now && b.n >= 1 && Count(log, StartIs(b.start)) <= b.n && Grant(b.start, b.start) in log &&
      forall g :: g in log ==> g.start == b.start || g.start + c.window <= b.start
    else
      forall g :: g in log ==> g.start + c.window <= now
  }

  lemma TracksLater(c: Config, seen: Table, key: string, log: seq<Grant>, now: int, later: int)
    requires Tracks(c, seen, key, log, now) && now <= later
    ensures Tracks(c, seen, key, log, later)
  {
  }

  lemma TracksConsidered(c: Config, seen: Table, key: string, log: seq<Grant>, now: int)
    requires Tracks(c, seen, key, log, now) && c.window > 0
    ensures Tracks(c, Considered(c, seen, now), key, log, now)
  {
  }

  lemma {:induction false} NoSuchStart(log: seq<Grant>, s: int)
    requires forall g :: g in log ==> g.start != s
    ensures Count(log, StartIs(s)) == 0
  {
    if log != [] {
      assert log == log[..|log| - 1] + [log[|log| - 1]];
      NoSuchStart(log[..|log| - 1], s);
    }
  }

  lemma OpenWindow(c: Config, log: seq<Grant>, now: int)
    requires Windows(c, log) && c.window > 0 && forall g :: g in log ==> g.start + c.window <= now
    ensures var log' := log + [Grant(now, now)]; Windows(c, log') && Count(log', StartIs(now)) == 1
  {
    var g0 := Grant(now, now);
    var log' := log + [g0];
    NoSuchStart(log, now);
    CountAppend(log, g0, StartIs(now));
    forall g | g in log' ensures Count(log', StartIs(g.start)) <= Cap(c) && Grant(g.start, g.start) in log' {
      if g in log { CountAppend(log, g0, StartIs(g.start)); }
    }
  }

  lemma StayInWindow(c: Config, log: seq<Grant>, s: int, n: int, now: int)
    requires Windows(c, log) && s <= now < s + c.window && Grant(s, s) in log && Count(log, StartIs(s)) <= n &&
             n + 1 <= c.burst
    requires forall g :: g in log ==> g.start == s || g.start + c.window <= s
    ensures var log' := log + [Grant(now, s)]; Windows(c, log') && Count(log', StartIs(s)) <= n + 1
  {
    var g0 := Grant(now, s);
    var log' := log + [g0];
    CountAppend(log, g0, StartIs(s));
    forall g | g in log' ensures Count(log', StartIs(g.start)) <= Cap(c) && Grant(g.start, g.start) in log' {
      CountAppend(log, g0, StartIs(g.start));
      if g in log { assert Grant(g.start, g.start) in log; } else { assert g == g0; }
    }
  }

  lemma OtherRequest(c: Config, seen: Table, key: string, log: seq<Grant>, r: Request)
    requires c.window > 0 && Tracks(c, seen, key, log, r.at) && (r.key != key || Refused(c, seen, key, r.at))
    ensures Tracks(c, After(c, seen, r.key, r.at), key, log, r.at)
  {
    TracksConsidered(c, seen, key, log, r.at);
    var t, next := Considered(c, seen, r.at), After(c, seen, r.key, r.at);
    assert (key in next <==> key in t) && (key in t ==> next[key] == t[key]);
  }

  lemma OwnRequest(c: Config, seen: Table, key: string, log: seq<Grant>, now: int)
    requires c.window > 0 && Windows(c, log) && Tracks(c, seen, key, log, now) && !Refused(c, seen, key, now)
    ensures var log' := if Allowed(c, seen, key, now) then log + [Grant(now, GrantStart(c, seen, key, now))] else log;
            Windows(c, log') && Tracks(c, After(c, seen, key, now), key, log', now)
  {
    var t := Considered(c, seen, now);
    TracksConsidered(c, seen, key, log, now);
    if Opens(c, seen, key, now) {
      OpenWindow(c, log, now);
    } else if Allowed(c, seen, key, now) {
      StayInWindow(c, log, t[key].start, t[key].n, now);
    }
  }

  lemma OneRequest(c: Config, seen: Table, key: string, log: seq<Grant>, r: Request)
    requires c.window > 0 && Windows(c, log) && Tracks(c, seen, key, log, r.at)
    ensures var log' := log +
            (if r.key == key && Allowed(c, seen, key, r.at) then [Grant(r.at, GrantStart(c, seen, key, r.at))] else []);
            Windows(c, log') && Tracks(c, After(c, seen, r.key, r.at), key, log', r.at)
  {
    assert log + [] == log;
    if r.key == key && !Refused(c, seen, key, r.at) {
      OwnRequest(c, seen, key, log, r.at);
    } else {
      OtherRequest(c, seen, key, log, r);
    }
  }

  lemma {:induction false} RunTracked(c: Config, run: seq<Request>, key: string, now: int)
    requires c.window > 0 && ClockForward(run) && (run != [] ==> run[|run| - 1].at <= now)
    ensures Windows(c, Grants(c, run, key)) && Tracks(c, TableAfter(c, run), key, Grants(c, run, key), now)
  {
    if run != [] {
      var front, r := run[..|run| - 1], run[|run| - 1];
      RunTracked(c, front, key, r.at);
      OneRequest(c, TableAfter(c, front), key, Grants(c, front, key), r);
      TracksLater(c, TableAfter(c, run), key, Grants(c, run, key), r.at, now);
    }
  }

  // ----- at most 2 * burst - 1 in any window -----

  function Within(x: int, w: int): Grant -> bool { (g: Grant) => x <= g.at < x + w }

  lemma AtMostOneWindow(c: Config, log: seq<Grant>, p: Grant -> bool)
    requires Windows(c, log) && forall g, h :: g in log && h in log && p(g) && p(h) ==> g.start == h.start
    ensures Count(log, p) <= Cap(c)
    ensures (forall g :: g in log && p(g) ==> !p(Grant(g.start, g.start))) ==> Count(log, p) <= Cap(c) - 1
  {
    if g :| g in log && p(g) {
      assert Grant(g.start, g.start) in log;
      CountImplies(log, p, StartIs(g.start));
    } else {
      CountImplies(log, p, (g: Grant) => false);
      CountNone(log);
    }
  }

  lemma {:induction false} CountNone(log: seq<Grant>)
    ensures Count(log, (g: Grant) => false) == 0
  {
    if log != [] { CountNone(log[..|log| - 1]); }
  }

  /**
    Any interval as long as the window admits at most 2 * burst - 1 requests of a key, in every run, across
    purges and refusals.
   */
  lemma AnyIntervalBounded(c: Config, run: seq<Request>, key: string, x: int)
    requires c.window > 0 && ClockForward(run)
    ensures Count(Grants(c, run, key), Within(x, c.window)) <= 2 * Cap(c) - 1
  {
    var log := Grants(c, run, key);
    RunTracked(c, run, key, if run == [] then 0 else run[|run| - 1].at);
    var p := Within(x, c.window);
    var early := (g: Grant) => g.start < x;
    CountSplit(log, p, early);
    AtMostOneWindow(c, log, (g: Grant) => p(g) && early(g));
    AtMostOneWindow(c, log, (g: Grant) => p(g) && !early(g));
  }

  // ----- the bound is reached -----

  /** One request at time 0, then a burst just before the window ends, then a burst at its end. */
  function Squeeze(c: Config, key: string, n: nat): seq<Request> {
    if n == 0 then [Request(key, 0)] else Squeeze(c, key, n - 1) + [Request(key, SqueezeTime(c, n))]
  }

  function SqueezeBucket(c: Config, n: nat): Bucket {
    if n < c.burst then Bucket(0, n + 1) else Bucket(c.window, n - c.burst + 1)
  }

  lemma AloneInTable(c: Config, seen: Table, key: string, b: Bucket, now: int)
    requires c.maxKeys > 1 && seen == map[key := b]
    ensures After(c, seen, key, now) ==
            map[key := if now - b.start >= c.window then Bucket(now, 1) else Bucket(b.start, b.n + 1)]
    ensures Allowed(c, seen, key, now) <==> now - b.start >= c.window || b.n + 1 <= c.burst
  {
    assert |seen| == 1;
    assert Considered(c, seen, now) == seen;
  }

  function SqueezeTime(c: Config, n: nat): int { if n == 0 then 0 else if n < c.burst then c.window - 1 else c.window }

  lemma SqueezeNext(c: Config, seen: Table, key: string, n: nat)
    requires c.window > 1 && c.burst > 0 && c.maxKeys > 1 && 0 < n < 2 * c.burst &&
             seen == map[key := SqueezeBucket(c, n - 1)]
    ensures Allowed(c, seen, key, SqueezeTime(c, n)) &&
            After(c, seen, key, SqueezeTime(c, n)) == map[key := SqueezeBucket(c, n)]
  {
    AloneInTable(c, seen, key, SqueezeBucket(c, n - 1), SqueezeTime(c, n));
  }

  lemma GrantsLast(c: Config, front: seq<Request>, r: Request, x: int)
    requires Allowed(c, TableAfter(c, front), r.key, r.at) && x <= r.at < x + c.window
    ensures TableAfter(c, front + [r]) == After(c, TableAfter(c, front), r.key, r.at)
    ensures Count(Grants(c, front + [r], r.key), Within(x, c.window)) ==
            Count(Grants(c, front, r.key), Within(x, c.window)) + 1
  {
    assert (front + [r])[..|front|] == front;
    CountAppend(Grants(c, front, r.key), Grant(r.at, GrantStart(c, TableAfter(c, front), r.key, r.at)),
      Within(x, c.window));
  }

  lemma SqueezeStart(c: Config, key: string)
    requires c.window > 1 && c.burst > 0 && c.maxKeys > 1
    ensures TableAfter(c, [Request(key, 0)]) == map[key := Bucket(0, 1)]
    ensures Count(Grants(c, [Request(key, 0)], key), Within(1, c.window)) == 0
  {
    var run := [Request(key, 0)];
    assert run[..0] == [];
    var none: Table := map[];
    assert Considered(c, none, 0) == none && Opens(c, none, key, 0);
    assert Grants(c, run, key) == [Grant(0, 0)];
  }

  lemma {:induction false} SqueezeState(c: Config, key: string, n: nat)
    requires c.window > 1 && c.burst > 0 && c.maxKeys > 1 && n < 2 * c.burst
    ensures TableAfter(c, Squeeze(c, key, n)) == map[key := SqueezeBucket(c, n)]
    ensures Count(Grants(c, Squeeze(c, key, n), key), Within(1, c.window)) == n
  {
    if n == 0 {
      SqueezeStart(c, key);
    } else {
      var front := Squeeze(c, key, n - 1);
      SqueezeState(c, key, n - 1);
      SqueezeNext(c, TableAfter(c, front), key, n);
      GrantsLast(c, front, Request(key, SqueezeTime(c, n)), 1);
    }
  }

  lemma {:induction false} SqueezeForward(c: Config, key: string, n: nat)
    requires c.window > 1
    ensures ClockForward(Squeeze(c, key, n)) && |Squeeze(c, key, n)| == n + 1
    ensures Squeeze(c, key, n)[n].at == SqueezeTime(c, n)
  {
    if n > 0 { SqueezeForward(c, key, n - 1); }
  }

  /** No smaller bound holds: some run admits exactly 2 * burst - 1 requests of one key within a window's length. */
  lemma BoundIsReached(c: Config, key: string)
    requires c.window > 1 && c.burst > 0 && c.maxKeys > 1
    ensures exists run :: ClockForward(run) && Count(Grants(c, run, key), Within(1, c.window)) == 2 * Cap(c) - 1
  {
    SqueezeState(c, key, 2 * c.burst - 1);
    SqueezeForward(c, key, 2 * c.burst - 1);
  }

  /** Every interval of one window length stays within the burst, as the windows do, exactly when the burst is one. */
  ghost predicate IntervalsWithinBurst(c: Config) {
    forall run, key, x :: ClockForward(run) ==> Count(Grants(c, run, key), Within(x, c.window)) <= Cap(c)
  }

  lemma BurstBoundsIntervalsIff(c: Config)
    requires c.window > 1 && c.burst > 0 && c.maxKeys > 1
    ensures IntervalsWithinBurst(c) <==> c.burst == 1
  {
    BoundIsReached(c, "");
    if c.burst == 1 {
      forall run, key, x | ClockForward(run) ensures Count(Grants(c, run, key), Within(x, c.window)) <= Cap(c) {
        AnyIntervalBounded(c, run, key, x);
      }
    }
  }
}
