/** The outbox of messages to the owner: queueing once per key, sending, and giving up. */
module Outbox {
  import opened Common

  datatype Status = Queued | Sent | Failed

  datatype Draft = Draft(kind: string, key: string, channel: string, recipient: string, body: string)

  datatype Message = Message(draft: Draft, status: Status, attempts: nat, lastError: Option<string>)

  const MAX_ATTEMPTS: nat := 5
  const BATCH_SIZE: nat := 20

  /** How each send of a message in one pass ends: None when it is delivered. */
  type Sends = nat -> Option<string>

  predicate HasKey(messages: seq<Message>, key: string) {
    exists i :: 0 <= i < |messages| && messages[i].draft.key == key
  }

  function Fresh(d: Draft): Message {
    Message(if d.channel == "" then d.(channel := "whatsapp") else d, Queued, 0, None)
  }

  /** Ids are positions; a key already present adds nothing. */
  function WithQueued(messages: seq<Message>, d: Draft): seq<Message> {
    if HasKey(messages, d.key) then messages else messages + [Fresh(d)]
  }

  function Attempted(m: Message, error: Option<string>, maxAttempts: nat): Message {
    match error
    case None => m.(status := Sent, attempts := m.attempts + 1, lastError := None)
    case Some(_) =>
      m.(status := if m.attempts + 1 >= maxAttempts then Failed else Queued,
         attempts := m.attempts + 1, lastError := error)
  }

  /** Queued ids below `n`, oldest first. */
  function QueuedIds(messages: seq<Message>, n: nat): (ids: seq<nat>)
    requires n <= |messages|
    ensures forall i :: 0 <= i < |ids| ==> ids[i] < n
  {
    if n == 0 then [] else QueuedIds(messages, n - 1) + (if messages[n - 1].status == Queued then [n - 1] else [])
  }

  function Pending(messages: seq<Message>, limit: nat): (ids: seq<nat>)
    ensures forall i :: 0 <= i < |ids| ==> ids[i] < |messages|
  {
    var ids := QueuedIds(messages, |messages|);
    if limit < |ids| then ids[..limit] else ids
  }

  predicate Within(ids: seq<nat>, n: nat) { forall i :: 0 <= i < |ids| ==> ids[i] < n }

  function AttemptAll(messages: seq<Message>, ids: seq<nat>, sends: Sends): (r: seq<Message>)
    requires Within(ids, |messages|)
    ensures |r| == |messages|
  {
    if ids == [] then messages
    else
      var id, before := ids[|ids| - 1], AttemptAll(messages, ids[..|ids| - 1], sends);
      before[id := Attempted(before[id], sends(id), MAX_ATTEMPTS)]
  }

  function Drained(messages: seq<Message>, sends: Sends): seq<Message> {
    AttemptAll(messages, Pending(messages, BATCH_SIZE), sends)
  }

  function Delivered(ids: seq<nat>, sends: Sends): nat {
    if ids == [] then 0 else Delivered(ids[..|ids| - 1], sends) + (if sends(ids[|ids| - 1]).None? then 1 else 0)
  }

  /** The sends that succeed, by position. */
  function Successes(ids: seq<nat>, sends: Sends): set<nat> { set k: nat | k < |ids| && sends(ids[k]).None? }

  lemma {:induction false} DeliveredCounts(ids: seq<nat>, sends: Sends)
    ensures Delivered(ids, sends) == |Successes(ids, sends)|
  {
    if ids != [] {
      var n := |ids| - 1;
      DeliveredCounts(ids[..n], sends);
      assert Successes(ids, sends) == Successes(ids[..n], sends) + if sends(ids[n]).None? then {n} else {};
    }
  }

  // ----- what a tick has to say -----

  datatype Settings = Settings(enabled: bool, recipient: string, summaryHour: int, alerts: bool)

  /** What the station knows at one tick; an overdue list or an ingest age that cannot be read is None. */
  datatype Facts = Facts(today: string, hour: int, score: int, overdue: Option<nat>, hoursSinceIngest: Option<int>,
                         bodies: map<string, string>)

  function DayKey(kind: string, today: string): string { kind + ":" + today }

  function Due(s: Settings, f: Facts): seq<string> {
    (if f.hour >= s.summaryHour then ["daily_summary"] else []) +
    (if s.alerts && 0 < f.score < 70 then ["score_drop"] else []) +
    (if s.alerts && f.overdue.Some? && f.overdue.value > 0 then ["credit_overdue"] else []) +
    (if s.alerts && f.hoursSinceIngest.Some? && f.hoursSinceIngest.value >= 6 then ["ingest_stalled"] else [])
  }

  function DraftOf(s: Settings, f: Facts, channel: string, kind: string): Draft {
    Draft(kind, DayKey(kind, f.today), channel, s.recipient, if kind in f.bodies then f.bodies[kind] else "")
  }

  function Composed(messages: seq<Message>, s: Settings, f: Facts, channel: string, kinds: seq<string>): seq<Message> {
    if kinds == [] then messages
    else WithQueued(Composed(messages, s, f, channel, kinds[..|kinds| - 1]), DraftOf(s, f, channel, kinds[|kinds| - 1]))
  }

  /** One tick: compose what is due, then send if the channel is ready. Nothing happens while messaging is off. */
  function Ticked(messages: seq<Message>, s: Settings, f: Facts, channel: string, ready: bool,
                  sends: Sends): seq<Message> {
    if !s.enabled || s.recipient == "" then messages
    else
      var composed := Composed(messages, s, f, channel, Due(s, f));
      if ready then Drained(composed, sends) else composed
  }

  class Store {
    var messages: seq<Message>

    /** The new message's id, or None for a duplicate. */
    method QueueMessage(d: Draft) returns (id: Option<nat>)
      modifies this
      ensures messages == WithQueued(old(messages), d)
      ensures id == if HasKey(old(messages), d.key) then None else Some(|old(messages)|)
    {
      if HasKey(messages, d.key) { return None; }
      messages := messages + [Fresh(d)];
      return Some(|messages| - 1);
    }

    method MarkMessageSent(id: nat)
      requires id < |messages|
      modifies this
      ensures messages == old(messages)[id := Attempted(old(messages)[id], None, MAX_ATTEMPTS)]
    {
      var m := messages[id];
      messages := messages[id := m.(status := Sent, attempts := m.attempts + 1, lastError := None)];
    }

    method MarkMessageAttempt(id: nat, error: string, maxAttempts: nat)
      requires id < |messages|
      modifies this
      ensures messages == old(messages)[id := Attempted(old(messages)[id], Some(error), maxAttempts)]
    {
      var m := messages[id];
      var status := if m.attempts + 1 >= maxAttempts then Failed else Queued;
      messages := messages[id := m.(status := status, attempts := m.attempts + 1, lastError := Some(error))];
    }

    method Drain(ready: bool, sends: Sends) returns (sent: nat, failed: nat)
      modifies this
      ensures messages == if ready then Drained(old(messages), sends) else old(messages)
      ensures sent == if ready then |Successes(Pending(old(messages), BATCH_SIZE), sends)| else 0
      ensures sent + failed == if ready then |Pending(old(messages), BATCH_SIZE)| else 0
    {
      sent, failed := 0, 0;
      if !ready { return; }
      ghost var start := messages;
      var pending := Pending(messages, BATCH_SIZE);
      for k := 0 to |pending|
        invariant messages == AttemptAll(start, pending[..k], sends)
        invariant sent == Delivered(pending[..k], sends) && sent + failed == k
      {
        assert pending[..k + 1][..k] == pending[..k];
        var result := sends(pending[k]);
        if result.Some? {
          failed := failed + 1;
          MarkMessageAttempt(pending[k], result.value, MAX_ATTEMPTS);
        } else {
          sent := sent + 1;
          MarkMessageSent(pending[k]);
        }
      }
      assert pending[..|pending|] == pending;
      DeliveredCounts(pending, sends);
    }

    method Compose(s: Settings, f: Facts, channel: string)
      modifies this
      ensures messages == Composed(old(messages), s, f, channel, Due(s, f))
    {
      var due := Due(s, f);
      for k := 0 to |due|
        invariant messages == Composed(old(messages), s, f, channel, due[..k])
      {
        assert due[..k + 1][..k] == due[..k];
        var id := QueueMessage(DraftOf(s, f, channel, due[k]));
      }
      assert due[..|due|] == due;
    }

    method Once(s: Settings, f: Facts, channel: string, ready: bool, sends: Sends)
      modifies this
      ensures messages == Ticked(old(messages), s, f, channel, ready, sends)
    {
      if !s.enabled || s.recipient == "" { return; }
      Compose(s, f, channel);
      var sent, failed := Drain(ready, sends);
    }
  }

  // ----- runs -----

  /** One queue attempt, or one pass over a ready channel. */
  datatype Step = Queue(d: Draft) | Pass(sends: Sends)

  function Apply(messages: seq<Message>, step: Step): seq<Message> {
    match step
    case Queue(d) => WithQueued(messages, d)
    case Pass(sends) => Drained(messages, sends)
  }

  function After(messages: seq<Message>, run: seq<Step>): seq<Message> {
    if run == [] then messages else Apply(After(messages, run[..|run| - 1]), run[|run| - 1])
  }

  function Passes(run: seq<Step>): nat {
    if run == [] then 0 else Passes(run[..|run| - 1]) + (if run[|run| - 1].Pass? then 1 else 0)
  }

  // ----- one pass attempts each of the oldest queued messages once -----

  /** Queued messages older than `i`. */
  function Ahead(messages: seq<Message>, i: nat): nat
    requires i <= |messages|
  {
    |QueuedIds(messages, i)|
  }

  lemma {:induction false} QueuedIdsAt(messages: seq<Message>, n: nat, i: nat)
    requires i < n <= |messages|
    ensures Ahead(messages, i) <= Ahead(messages, n)
    ensures messages[i].status == Queued ==>
            Ahead(messages, i) < Ahead(messages, n) && QueuedIds(messages, n)[Ahead(messages, i)] == i
  {
    if i < n - 1 { QueuedIdsAt(messages, n - 1, i); }
  }

  lemma {:induction false} QueuedIdsAreQueued(messages: seq<Message>, n: nat, k: nat)
    requires n <= |messages| && k < Ahead(messages, n)
    ensures var i := QueuedIds(messages, n)[k]; messages[i].status == Queued && Ahead(messages, i) == k
  {
    if k < Ahead(messages, n - 1) { QueuedIdsAreQueued(messages, n - 1, k); }
  }

  predicate InTurn(messages: seq<Message>, i: nat)
    requires i < |messages|
  {
    messages[i].status == Queued && Ahead(messages, i) < BATCH_SIZE
  }

  lemma PendingIff(messages: seq<Message>, i: nat)
    requires i < |messages|
    ensures i in Pending(messages, BATCH_SIZE) <==> InTurn(messages, i)
  {
    QueuedIdsAt(messages, |messages|, i);
    var ids := Pending(messages, BATCH_SIZE);
    if InTurn(messages, i) {
      assert ids[Ahead(messages, i)] == i;
    } else if i in ids {
      var k :| 0 <= k < |ids| && ids[k] == i;
      QueuedIdsAreQueued(messages, |messages|, k);
    }
  }

  lemma PendingDistinct(messages: seq<Message>, j: nat, k: nat)
    requires j < k < |Pending(messages, BATCH_SIZE)|
    ensures Pending(messages, BATCH_SIZE)[j] != Pending(messages, BATCH_SIZE)[k]
  {
    QueuedIdsAreQueued(messages, |messages|, j);
    QueuedIdsAreQueued(messages, |messages|, k);
  }

  lemma {:induction false} AttemptAllAt(messages: seq<Message>, ids: seq<nat>, sends: Sends, i: nat)
    requires Within(ids, |messages|) && i < |messages| && forall j, k :: 0 <= j < k < |ids| ==> ids[j] != ids[k]
    ensures AttemptAll(messages, ids, sends)[i] ==
            if i in ids then Attempted(messages[i], sends(i), MAX_ATTEMPTS) else messages[i]
  {
    if ids != [] {
      var front, last := ids[..|ids| - 1], ids[|ids| - 1];
      assert ids == front + [last];
      AttemptAllAt(messages, front, sends, i);
    }
  }

  /** A pass attempts exactly the twenty oldest queued messages, each once, and touches nothing else. */
  lemma DrainedAt(messages: seq<Message>, sends: Sends, i: nat)
    requires i < |messages|
    ensures |Drained(messages, sends)| == |messages|
    ensures Drained(messages, sends)[i] ==
            if InTurn(messages, i) then Attempted(messages[i], sends(i), MAX_ATTEMPTS) else messages[i]
  {
    var ids := Pending(messages, BATCH_SIZE);
    forall j, k | 0 <= j < k < |ids| ensures ids[j] != ids[k] { PendingDistinct(messages, j, k); }
    AttemptAllAt(messages, ids, sends, i);
    PendingIff(messages, i);
  }

  // ----- what every run keeps -----

  /** Queued messages have attempts left, failed ones used all, a delivered one needed at least one. */
  predicate Fits(m: Message) {
    match m.status
    case Queued => m.attempts < MAX_ATTEMPTS && (m.attempts == 0 <==> m.lastError.None?)
    case Sent => 1 <= m.attempts <= MAX_ATTEMPTS && m.lastError.None?
    case Failed => m.attempts == MAX_ATTEMPTS && m.lastError.Some?
  }

  predicate OnePerKey(messages: seq<Message>) {
    forall i, j :: 0 <= i < j < |messages| ==> messages[i].draft.key != messages[j].draft.key
  }

  predicate Wf(messages: seq<Message>) { OnePerKey(messages) && forall i :: 0 <= i < |messages| ==> Fits(messages[i]) }

  lemma StepKeepsWf(messages: seq<Message>, step: Step)
    requires Wf(messages)
    ensures Wf(Apply(messages, step))
  {
    var next := Apply(messages, step);
    if step.Pass? {
      forall i | 0 <= i < |next|
        ensures Fits(next[i]) && next[i].draft == messages[i].draft
      {
        DrainedAt(messages, step.sends, i);
      }
    }
  }

  lemma {:induction false} EveryRunIsWf(run: seq<Step>)
    ensures Wf(After([], run))
  {
    if run != [] {
      EveryRunIsWf(run[..|run| - 1]);
      StepKeepsWf(After([], run[..|run| - 1]), run[|run| - 1]);
    }
  }

  /** What one step may do to a message: nothing, or one attempt while it is queued. */
  lemma StepAt(messages: seq<Message>, step: Step, i: nat)
    requires i < |messages|
    ensures |messages| <= |Apply(messages, step)|
    ensures Apply(messages, step)[i] ==
            if step.Pass? && InTurn(messages, i) then Attempted(messages[i], step.sends(i), MAX_ATTEMPTS)
            else messages[i]
  {
    if step.Pass? { DrainedAt(messages, step.sends, i); }
  }

  /** Sent and failed are final, and nothing ever rewrites what a message says or to whom. */
  lemma {:induction false} SettledIsFinal(messages: seq<Message>, run: seq<Step>, i: nat)
    requires i < |messages|
    ensures |messages| <= |After(messages, run)| && After(messages, run)[i].draft == messages[i].draft
    ensures messages[i].status != Queued ==> After(messages, run)[i] == messages[i]
  {
    if run != [] {
      SettledIsFinal(messages, run[..|run| - 1], i);
      StepAt(After(messages, run[..|run| - 1]), run[|run| - 1], i);
    }
  }

  // ----- every queued message settles in its turn -----

  /** No step puts anything in front of a message already there. */
  lemma {:induction false} AheadShrinks(messages: seq<Message>, step: Step, i: nat)
    requires i <= |messages|
    ensures |messages| <= |Apply(messages, step)| && Ahead(Apply(messages, step), i) <= Ahead(messages, i)
  {
    if messages != [] { StepAt(messages, step, 0); }
    if i > 0 {
      AheadShrinks(messages, step, i - 1);
      StepAt(messages, step, i - 1);
    } else if step.Pass? {
      assert |Drained(messages, step.sends)| == |messages|;
    }
  }

  /** A message within the batch is attempted by every pass until it settles. */
  lemma {:induction false} InTurnProgress(messages: seq<Message>, run: seq<Step>, i: nat)
    requires Wf(messages) && i < |messages| && InTurn(messages, i)
    ensures |messages| <= |After(messages, run)| && Wf(After(messages, run))
    ensures var m := After(messages, run)[i];
            m.status == Queued ==> m.attempts == messages[i].attempts + Passes(run) && InTurn(After(messages, run), i)
  {
    if run != [] {
      var before, step := After(messages, run[..|run| - 1]), run[|run| - 1];
      InTurnProgress(messages, run[..|run| - 1], i);
      StepKeepsWf(before, step);
      StepAt(before, step, i);
      AheadShrinks(before, step, i);
    }
  }

  lemma {:induction false} RunKeepsWf(messages: seq<Message>, run: seq<Step>)
    requires Wf(messages)
    ensures Wf(After(messages, run)) && |messages| <= |After(messages, run)|
  {
    if run != [] {
      RunKeepsWf(messages, run[..|run| - 1]);
      StepKeepsWf(After(messages, run[..|run| - 1]), run[|run| - 1]);
      AheadShrinks(After(messages, run[..|run| - 1]), run[|run| - 1], 0);
    }
  }

  lemma {:induction false} AfterSplit(messages: seq<Message>, run: seq<Step>, k: nat)
    requires k <= |run|
    ensures After(messages, run) == After(After(messages, run[..k]), run[k..])
    ensures Passes(run) == Passes(run[..k]) + Passes(run[k..])
  {
    if k == |run| {
      assert run[..k] == run;
    } else {
      var front := run[..|run| - 1];
      AfterSplit(messages, front, k);
      assert front[..k] == run[..k] && run[k..][..|run[k..]| - 1] == front[k..];
    }
  }

  lemma {:induction false} FindPasses(run: seq<Step>, n: nat) returns (k: nat)
    requires n <= Passes(run)
    ensures k <= |run| && Passes(run[..k]) == n
  {
    if Passes(run) == n {
      k := |run|;
      assert run[..k] == run;
    } else {
      k := FindPasses(run[..|run| - 1], n);
      assert run[..|run| - 1][..k] == run[..k];
    }
  }

  /** Five passes settle the twenty messages in front. */
  lemma {:induction false} FivePasses(messages: seq<Message>, run: seq<Step>, i: nat)
    requires Wf(messages) && Passes(run) >= MAX_ATTEMPTS && i <= |messages|
    ensures |messages| <= |After(messages, run)|
    ensures var now := Ahead(After(messages, run), i); now + BATCH_SIZE <= Ahead(messages, i) || now == 0
  {
    RunKeepsWf(messages, run);
    if i > 0 {
      FivePasses(messages, run, i - 1);
      SettledIsFinal(messages, run, i - 1);
      if InTurn(messages, i - 1) { InTurnProgress(messages, run, i - 1); }
    }
  }

  /** Passes that settle a message with `ahead` older ones queued. */
  function Wait(ahead: nat): nat { MAX_ATTEMPTS * (ahead / BATCH_SIZE + 1) }

  lemma WaitShrinks(now: nat, before: nat)
    requires now + BATCH_SIZE <= before || (now == 0 && before >= BATCH_SIZE)
    ensures Wait(now) + MAX_ATTEMPTS <= Wait(before)
  {
    assert (now + BATCH_SIZE) / BATCH_SIZE == now / BATCH_SIZE + 1;
    assert (now + BATCH_SIZE) / BATCH_SIZE <= before / BATCH_SIZE;
  }

  /**
    With k older messages queued, a message is delivered or given up within 5 * (k / 20 + 1) passes, whatever fails
    and whatever arrives meanwhile.
   */
  lemma {:induction false} SettlesInTurn(messages: seq<Message>, run: seq<Step>, i: nat)
    requires Wf(messages) && i < |messages| && Passes(run) >= Wait(Ahead(messages, i))
    ensures |messages| <= |After(messages, run)| && After(messages, run)[i].status != Queued
    decreases Ahead(messages, i)
  {
    SettledIsFinal(messages, run, i);
    if messages[i].status != Queued {
    } else if Ahead(messages, i) < BATCH_SIZE {
      InTurnProgress(messages, run, i);
    } else {
      var k := FindPasses(run, MAX_ATTEMPTS);
      AfterSplit(messages, run, k);
      var mid := After(messages, run[..k]);
      RunKeepsWf(messages, run[..k]);
      FivePasses(messages, run[..k], i);
      WaitShrinks(Ahead(mid, i), Ahead(messages, i));
      SettlesInTurn(mid, run[k..], i);
    }
  }

  /** n queued messages are all settled within 5 * ceil(n / 20) passes. */
  lemma QueueEmpties(messages: seq<Message>, run: seq<Step>, i: nat)
    requires Wf(messages) && i < |messages|
    requires Passes(run) >= MAX_ATTEMPTS * ((|QueuedIds(messages, |messages|)| + BATCH_SIZE - 1) / BATCH_SIZE)
    ensures |messages| <= |After(messages, run)| && After(messages, run)[i].status != Queued
  {
    SettledIsFinal(messages, run, i);
    if messages[i].status == Queued {
      QueuedIdsAt(messages, |messages|, i);
      SettlesInTurn(messages, run, i);
    }
  }

  // ----- once a day -----

  predicate NoColon(s: string) { forall i :: 0 <= i < |s| ==> s[i] != ':' }

  /** A day's key names its kind and day. */
  lemma DayKeysDiffer(kind: string, today: string, otherKind: string, otherDay: string)
    requires NoColon(kind) && NoColon(otherKind) && DayKey(kind, today) == DayKey(otherKind, otherDay)
    ensures kind == otherKind && today == otherDay
  {
    var key := DayKey(kind, today);
    assert key[|kind|] == ':' && key[|otherKind|] == ':';
    assert key[..|kind|] == kind && key[..|kind|] == otherKind;
    assert key[|kind| + 1..] == today && key[|kind| + 1..] == otherDay;
  }

  lemma {:induction false} ComposedHas(messages: seq<Message>, s: Settings, f: Facts, channel: string,
                                       kinds: seq<string>, kind: string)
    ensures messages <= Composed(messages, s, f, channel, kinds)
    ensures kind in kinds ==> HasKey(Composed(messages, s, f, channel, kinds), DayKey(kind, f.today))
  {
    if kinds != [] {
      var front, last := kinds[..|kinds| - 1], kinds[|kinds| - 1];
      assert kinds == front + [last];
      ComposedHas(messages, s, f, channel, front, kind);
      var before, d := Composed(messages, s, f, channel, front), DraftOf(s, f, channel, last);
      QueuedHas(before, d, DayKey(kind, f.today));
    }
  }

  lemma QueuedHas(messages: seq<Message>, d: Draft, key: string)
    ensures HasKey(WithQueued(messages, d), d.key)
    ensures HasKey(messages, key) ==> HasKey(WithQueued(messages, d), key)
  {
    var next := WithQueued(messages, d);
    if !HasKey(messages, d.key) { assert next[|messages|].draft.key == d.key; }
    if HasKey(messages, key) {
      var i :| 0 <= i < |messages| && messages[i].draft.key == key;
      assert next[i].draft.key == key;
    }
  }

  /** Message `i` is the one with this key. */
  predicate OnlyOne(messages: seq<Message>, i: int, key: string) {
    0 <= i < |messages| && forall j :: 0 <= j < |messages| ==> (messages[j].draft.key == key <==> j == i)
  }

  // ----- what is due -----

  /** When each message is called for: the summary from its hour on, the alerts, if wanted, when they are true. */
  predicate Called(s: Settings, f: Facts, kind: string) {
    (kind == "daily_summary" && f.hour >= s.summaryHour) ||
    (s.alerts &&
     ((kind == "score_drop" && 1 <= f.score <= 69) ||
      (kind == "credit_overdue" && f.overdue.Some? && f.overdue.value >= 1) ||
      (kind == "ingest_stalled" && f.hoursSinceIngest.Some? && f.hoursSinceIngest.value >= 6)))
  }

  lemma DueIff(s: Settings, f: Facts, kind: string)
    ensures kind in Due(s, f) <==> Called(s, f, kind)
  {
    var summary := if f.hour >= s.summaryHour then ["daily_summary"] else [];
    var score := if s.alerts && 0 < f.score < 70 then ["score_drop"] else [];
    var credit := if s.alerts && f.overdue.Some? && f.overdue.value > 0 then ["credit_overdue"] else [];
    var stalled := if s.alerts && f.hoursSinceIngest.Some? && f.hoursSinceIngest.value >= 6 then ["ingest_stalled"]
                   else [];
    assert Due(s, f) == summary + score + credit + stalled;
    assert kind in Due(s, f) <==> kind in summary || kind in score || kind in credit || kind in stalled;
  }

  /** The day's message of this kind, as yet untried. */
  predicate IsNotice(m: Message, s: Settings, f: Facts, channel: string, kind: string) {
    m.status == Queued && m.attempts == 0 && m.lastError.None? &&
    m.draft.kind == kind && m.draft.key == kind + ":" + f.today && m.draft.recipient == s.recipient &&
    m.draft.channel == (if channel == "" then "whatsapp" else channel) &&
    m.draft.body == (if kind in f.bodies then f.bodies[kind] else "")
  }

  ghost predicate IsNews(m: Message, messages: seq<Message>, s: Settings, f: Facts, channel: string,
                         kinds: seq<string>) {
    exists kind :: kind in kinds && IsNotice(m, s, f, channel, kind) && !HasKey(messages, kind + ":" + f.today)
  }

  lemma {:induction false} ComposedAdds(messages: seq<Message>, s: Settings, f: Facts, channel: string,
                                        kinds: seq<string>, i: nat)
    requires |messages| <= i < |Composed(messages, s, f, channel, kinds)|
    ensures IsNews(Composed(messages, s, f, channel, kinds)[i], messages, s, f, channel, kinds)
  {
    var front, last := kinds[..|kinds| - 1], kinds[|kinds| - 1];
    assert kinds == front + [last];
    var before := Composed(messages, s, f, channel, front);
    ComposedHas(messages, s, f, channel, front, last);
    if i < |before| {
      ComposedAdds(messages, s, f, channel, front, i);
      var kind :| kind in front && IsNotice(before[i], s, f, channel, kind) && !HasKey(messages, kind + ":" + f.today);
      assert kind in kinds;
    } else {
      var m := Composed(messages, s, f, channel, kinds)[i];
      var d := DraftOf(s, f, channel, last);
      assert m == Fresh(d) && IsNotice(m, s, f, channel, last);
    }
  }

  /**
    Composing keeps every message and adds exactly the day's messages called for and not yet there, untried, to the
    recipient of the settings.
   */
  lemma ComposeAddsWhatIsCalled(messages: seq<Message>, s: Settings, f: Facts, channel: string, kind: string, i: nat)
    requires i < |Composed(messages, s, f, channel, Due(s, f))|
    ensures var next := Composed(messages, s, f, channel, Due(s, f));
            (i < |messages| ==> next[i] == messages[i]) &&
            (Called(s, f, kind) ==> HasKey(next, kind + ":" + f.today)) &&
            (i >= |messages| ==>
               exists k ::
                 Called(s, f, k) && IsNotice(next[i], s, f, channel, k) && !HasKey(messages, k + ":" + f.today))
  {
    var kinds := Due(s, f);
    DueIff(s, f, kind);
    ComposedHas(messages, s, f, channel, kinds, kind);
    if i >= |messages| {
      var next := Composed(messages, s, f, channel, kinds);
      ComposedAdds(messages, s, f, channel, kinds, i);
      var k :| k in kinds && IsNotice(next[i], s, f, channel, k) && !HasKey(messages, k + ":" + f.today);
      DueIff(s, f, k);
    }
  }

  /** One attempt: sent if the send succeeds, and otherwise queued again until five have failed. */
  predicate IsAttempt(m: Message, error: Option<string>, r: Message) {
    r.draft == m.draft && r.attempts == m.attempts + 1 && r.lastError == error &&
    (r.status == Sent <==> error.None?) && (r.status == Failed <==> error.Some? && m.attempts + 1 >= 5)
  }

  lemma {:induction false} AheadInPrefix(messages: seq<Message>, longer: seq<Message>, n: nat)
    requires messages <= longer && n <= |messages|
    ensures Ahead(longer, n) == Ahead(messages, n)
  {
    if n > 0 { AheadInPrefix(messages, longer, n - 1); }
  }

  /**
    What one tick does to a message already there: one attempt when messaging is on, the channel ready and the message
    among the twenty oldest queued ones, and otherwise nothing; and with messaging off nothing is added either.
   */
  lemma TickAt(messages: seq<Message>, s: Settings, f: Facts, channel: string, ready: bool, sends: Sends, i: nat)
    requires i < |messages|
    ensures var next := Ticked(messages, s, f, channel, ready, sends);
            i < |next| &&
            (if s.enabled && s.recipient != "" && ready && messages[i].status == Queued && Ahead(messages, i) < 20
             then IsAttempt(messages[i], sends(i), next[i]) else next[i] == messages[i]) &&
            (!s.enabled || s.recipient == "" ==> next == messages)
  {
    if s.enabled && s.recipient != "" {
      var kinds := Due(s, f);
      var composed := Composed(messages, s, f, channel, kinds);
      ComposedHas(messages, s, f, channel, kinds, "");
      AheadInPrefix(messages, composed, i);
      DrainedAt(composed, sends, i);
    }
  }

  /**
    Every kind called for is in the outbox after composing, once, however often the station restarts and composes
    the same day.
   */
  lemma OnceADay(messages: seq<Message>, s: Settings, f: Facts, channel: string, kind: string)
    requires Wf(messages) && Called(s, f, kind)
    ensures var next := Composed(messages, s, f, channel, Due(s, f));
            Wf(next) && exists i :: OnlyOne(next, i, kind + ":" + f.today)
  {
    DueIff(s, f, kind);
    ComposedHas(messages, s, f, channel, Due(s, f), kind);
    ComposedWf(messages, s, f, channel, Due(s, f));
    var next := Composed(messages, s, f, channel, Due(s, f));
    var i :| 0 <= i < |next| && next[i].draft.key == DayKey(kind, f.today);
    assert OnlyOne(next, i, DayKey(kind, f.today));
  }

  lemma {:induction false} ComposedWf(messages: seq<Message>, s: Settings, f: Facts, channel: string,
                                      kinds: seq<string>)
    requires Wf(messages)
    ensures Wf(Composed(messages, s, f, channel, kinds))
  {
    if kinds != [] {
      ComposedWf(messages, s, f, channel, kinds[..|kinds| - 1]);
      StepKeepsWf(Composed(messages, s, f, channel, kinds[..|kinds| - 1]),
        Queue(DraftOf(s, f, channel, kinds[|kinds| - 1])));
    }
  }
}
