/**
 From the end of a File Run to the devices that hear of it: the transactions of
 the store, read as steps of the event log, and the delivery of every outcome.
*/
module FileRunNotices {
  import opened Wrappers
  import A = ActivityLog
  import opened FileRuns

  /** What one transaction, leading from `s` to `t`, does to the event log. */
  function LogSteps(s: Store, t: Store, step: Step): seq<A.Step> {
    match step
    case PruneStep(now) => [A.CleanupStep(now)]
    case ActivityStep(a) => [a]
    case _ =>
      if t.log != s.log && t.log.lastSequence in t.log.events then [A.InsertStep(t.log.events[t.log.lastSequence])] else []
  }

  function Activity(steps: seq<Step>): seq<A.Step> {
    if steps == [] then []
    else
      var front := steps[..|steps| - 1];
      Activity(front) + LogSteps(Run(front).store, Run(steps).store, steps[|steps| - 1])
  }

  /** The event log with all that was ever inserted and received. */
  function Delivered(steps: seq<Step>): A.History {
    A.Run(A.BEGINNING, Activity(steps))
  }

  lemma LogIgnoresHistory(h: A.History, a: A.Step)
    ensures A.After(A.History(h.log, map[], map[]), a).log == A.After(h, a).log
  {
  }

  lemma TransitionLogs(h: A.History, s: Store, id: RunId, expected: set<RunState>, p: Patch)
    requires h.log == s.log
    ensures var t := Transitioned(s, id, expected, p);
            A.Run(h, LogSteps(s, t, TransitionStep(id, expected, p))).log == t.log
  {
    var t := Transitioned(s, id, expected, p);
    if t.log != s.log {
      var x := A.InsertStep(t.log.events[t.log.lastSequence]);
      assert LogSteps(s, t, TransitionStep(id, expected, p)) == [x] && [x][..0] == [];
    }
  }

  lemma StepLogs(h: A.History, s: Store, step: Step)
    requires h.log == s.log
    ensures A.Run(h, LogSteps(s, NextStore(s, step), step)).log == NextStore(s, step).log
  {
    var t := NextStore(s, step);
    match step
    case TransitionStep(id, expected, p) => TransitionLogs(h, s, id, expected, p);
    case PruneStep(now) => assert [A.CleanupStep(now)][..0] == [];
    case ActivityStep(a) =>
      assert [a][..0] == [];
      LogIgnoresHistory(h, a);
    case _ => assert t.log == s.log;
  }

  /** Read as steps of the log, the transactions leave exactly the log of the store. */
  lemma {:induction false} ActivityFollows(steps: seq<Step>)
    ensures Delivered(steps).log == Run(steps).store.log
  {
    if steps != [] {
      var front, last := steps[..|steps| - 1], steps[|steps| - 1];
      ActivityFollows(front);
      StepLogs(Delivered(front), Run(front).store, last);
      A.RunConcat(A.BEGINNING, Activity(front), LogSteps(Run(front).store, Run(steps).store, last));
    }
  }

  lemma {:induction false} ActivityPrefix(steps: seq<Step>, n: nat)
    requires n <= |steps|
    ensures Activity(steps[..n]) <= Activity(steps)
    decreases |steps|
  {
    if n == |steps| {
      assert steps[..n] == steps;
    } else {
      var front := steps[..|steps| - 1];
      assert front[..n] == steps[..n];
      ActivityPrefix(front, n);
    }
  }

  lemma ActivityGrows(steps: seq<Step>)
    requires steps != []
    ensures Activity(steps[..|steps| - 1]) <= Activity(steps)
    ensures |Activity(steps)| <= |Activity(steps[..|steps| - 1])| + 1
  {
  }

  lemma ShorterCut<T>(a: seq<T>, b: seq<T>, m: nat)
    requires a <= b && m <= |a|
    ensures b[..m] == a[..m]
  {
  }

  /** Every prefix of the log's steps is the log's part of a prefix of the transactions. */
  lemma {:induction false} CutAt(steps: seq<Step>, m: nat) returns (n: nat)
    requires m <= |Activity(steps)|
    ensures n <= |steps| && Activity(steps)[..m] == Activity(steps[..n])
  {
    if m == |Activity(steps)| {
      n := |steps|;
      assert steps[..n] == steps && Activity(steps)[..m] == Activity(steps);
    } else {
      var front := steps[..|steps| - 1];
      ActivityGrows(steps);
      n := CutAt(front, m);
      ShorterCut(Activity(front), Activity(steps), m);
      assert front[..n] == steps[..n];
    }
  }

  /** The poll by which a device registers, and its staying registered, seen in the transactions. */
  predicate HearsFrom(steps: seq<Step>, j: nat, d: A.DeviceId) {
    && j < |steps| && steps[j].ActivityStep? && steps[j].step.PollStep? && steps[j].step.id == d
    && d !in Run(steps[..j]).store.log.devices
    && forall n :: j < n <= |steps| ==> d in Run(steps[..n]).store.log.devices
  }

  lemma ActivityAt(steps: seq<Step>, j: nat)
    requires j < |steps| && steps[j].ActivityStep?
    ensures |Activity(steps[..j])| < |Activity(steps)| && Activity(steps)[|Activity(steps[..j])|] == steps[j].step
    ensures Activity(steps)[..|Activity(steps[..j])|] == Activity(steps[..j])
  {
    var upTo := steps[..j + 1];
    assert upTo[..|upTo| - 1] == steps[..j];
    assert Activity(upTo) == Activity(steps[..j]) + [steps[j].step];
    ActivityPrefix(steps, j + 1);
  }

  lemma HearsAsRegistered(steps: seq<Step>, j: nat, d: A.DeviceId)
    requires HearsFrom(steps, j, d)
    ensures A.RegistersAt(Activity(steps), |Activity(steps[..j])|, d)
    ensures A.StaysRegistered(Activity(steps), |Activity(steps[..j])|, d)
  {
    var all, k := Activity(steps), |Activity(steps[..j])|;
    ActivityAt(steps, j);
    ActivityFollows(steps[..j]);
    forall m | k < m <= |all| ensures d in A.Run(A.BEGINNING, all[..m]).log.devices {
      var n := CutAt(steps, m);
      if n <= j {
        assert steps[..j][..n] == steps[..n];
        ActivityPrefix(steps[..j], n);
      }
      ActivityFollows(steps[..n]);
    }
  }

  lemma InsertedStays(steps: seq<Step>, n: nat, e: nat)
    requires n <= |steps| && e in Delivered(steps[..n]).inserted
    ensures e in Delivered(steps).inserted && Delivered(steps).inserted[e] == Delivered(steps[..n]).inserted[e]
  {
    ActivityPrefix(steps, n);
    var rest := Activity(steps)[|Activity(steps[..n])|..];
    assert Activity(steps) == Activity(steps[..n]) + rest;
    A.InsertedForGood(Activity(steps[..n]), rest, e);
  }

  lemma LoggedIsInserted(steps: seq<Step>, e: nat)
    ensures e in Run(steps).store.log.events
            ==> e in Delivered(steps).inserted && Delivered(steps).inserted[e] == Run(steps).store.log.events[e]
    ensures e in Delivered(steps).inserted ==> e <= Run(steps).store.log.lastSequence
  {
    ActivityFollows(steps);
    A.LogIsInserted(Activity(steps), e);
  }

  /** The event a run's end writes is new, and is never lost from the record of insertions. */
  lemma EndIsInserted(steps: seq<Step>, k: nat, id: RunId) returns (e: nat)
    requires AllLawful(steps) && EndsAt(steps, k, id)
    ensures e in Delivered(steps).inserted && e !in Delivered(steps[..k]).inserted
    ensures Delivered(steps).inserted[e].subject == A.FileRunSubject(id)
    ensures Tells(Run(steps[..k + 1]).store.runs[id], Delivered(steps).inserted[e])
  {
    e := Run(steps[..k]).store.log.lastSequence + 1;
    EndingIsLogged(steps, k, id);
    LoggedIsInserted(steps[..k], e);
    LoggedIsInserted(steps[..k + 1], e);
    InsertedStays(steps, k + 1, e);
  }

  /** The runs everyone is told about. */
  predicate Notable(life: Lifecycle) {
    || life.state in {Stopped, Failed, Lost}
    || (life.state == Finished
        && (life.exitCode != Some(0)
            || (life.startedAt.Some? && life.endedAt.Some? && life.endedAt.value - life.startedAt.value >= 30)))
  }

  /** Received, or pruned, or outstanding and newer than everything received. */
  ghost predicate Heard(h: A.History, d: A.DeviceId, e: nat) {
    || e in A.Received(h, d)
    || e !in h.log.events
    || (d in h.log.devices && e in A.Unclaimed(h.log, d) && forall r :: r in A.Received(h, d) ==> r < e)
  }

  /**
   Whoever registered before a run failed, was stopped, was lost or took half a
   minute, and has stayed registered, hears of it: the run's event has been
   received, was pruned, or is outstanding and the next ones to come.
  */
  lemma NotableEndsAreHeard(steps: seq<Step>, j: nat, d: A.DeviceId, k: nat, id: RunId) returns (e: nat)
    requires AllLawful(steps) && HearsFrom(steps, j, d) && j < k && EndsAt(steps, k, id)
    requires Notable(Run(steps[..k + 1]).store.runs[id].life)
    ensures var h := Delivered(steps);
            e in h.inserted && h.inserted[e].subject == A.FileRunSubject(id) && Heard(h, d, e)
  {
    e := EndIsInserted(steps, k, id);
    if e in Delivered(steps[..j]).inserted {
      assert steps[..k][..j] == steps[..j];
      InsertedStays(steps[..k], j, e);
    }
    HearsAsRegistered(steps, j, d);
    ActivityAt(steps, j);
    A.LaterEventsAreDelivered(Activity(steps), |Activity(steps[..j])|, d, e);
  }

  lemma ReceivedIsNotify(steps: seq<Step>, d: A.DeviceId, e: nat)
    requires e in Delivered(steps).inserted && !Delivered(steps).inserted[e].notify
    ensures e !in A.Received(Delivered(steps), d)
  {
    A.RunKeepsGood(A.BEGINNING, Activity(steps));
  }

  /** A run that succeeded within half a minute is announced to nobody. */
  lemma OtherEndsAreNotHeard(steps: seq<Step>, k: nat, id: RunId, d: A.DeviceId) returns (e: nat)
    requires AllLawful(steps) && EndsAt(steps, k, id) && !Notable(Run(steps[..k + 1]).store.runs[id].life)
    ensures var h := Delivered(steps);
            e in h.inserted && h.inserted[e].subject == A.FileRunSubject(id) && e !in A.Received(h, d)
  {
    e := EndIsInserted(steps, k, id);
    ReceivedIsNotify(steps, d, e);
  }

  /** A step after which an event of this time is still kept. */
  predicate KeepsEventsOf(step: Step, occurredAt: int) {
    && (step.PruneStep? ==> occurredAt >= step.now - 2592000)
    && (step.ActivityStep? && step.step.CleanupStep? ==> occurredAt >= step.step.now - 2592000)
  }

  predicate AllKeep(steps: seq<Step>, n: nat, occurredAt: int) {
    forall i :: n <= i < |steps| ==> KeepsEventsOf(steps[i], occurredAt)
  }

  lemma AllKeepStep(front: seq<Step>, last: Step, n: nat, occurredAt: int)
    requires n <= |front|
    ensures AllKeep(front + [last], n, occurredAt) <==> AllKeep(front, n, occurredAt) && KeepsEventsOf(last, occurredAt)
  {
    var steps := front + [last];
    assert steps[|front|] == last && forall i :: n <= i < |front| ==> steps[i] == front[i];
  }

  /** One transaction keeps an event, or drops it for good. */
  lemma StepKeepsEventIff(s: Store, step: Step, e: nat, event: A.Event)
    requires e <= s.log.lastSequence && (e in s.log.events ==> s.log.events[e] == event)
    ensures e in NextStore(s, step).log.events <==> e in s.log.events && KeepsEventsOf(step, event.occurredAt)
    ensures e in NextStore(s, step).log.events ==> NextStore(s, step).log.events[e] == event
  {
  }

  /** An event stays in the log exactly until a prune or a poll's cleanup more than thirty days after the run's end. */
  lemma {:induction false} EventsAreKeptIff(steps: seq<Step>, n: nat, e: nat, event: A.Event)
    requires n <= |steps| && e in Run(steps[..n]).store.log.events && Run(steps[..n]).store.log.events[e] == event
    ensures e in Run(steps).store.log.events <==> AllKeep(steps, n, event.occurredAt)
    ensures e in Run(steps).store.log.events ==> Run(steps).store.log.events[e] == event
    decreases |steps|
  {
    if n == |steps| {
      assert steps[..n] == steps;
    } else {
      var front, last := steps[..|steps| - 1], steps[|steps| - 1];
      assert front[..n] == steps[..n] && steps == front + [last];
      EventsAreKeptIff(front, n, e, event);
      LoggedIsInserted(steps[..n], e);
      InsertedStays(front, n, e);
      LoggedIsInserted(front, e);
      StepKeepsEventIff(Run(front).store, last, e, event);
      AllKeepStep(front, last, n, event.occurredAt);
    }
  }
}
