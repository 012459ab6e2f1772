/**
 The File Run manager (`termroom/file_runs.py`): `start`, `reconcile`, `stop` and
 `kill` as sequences of store transactions.

 Between two transactions anything else may run: `Interfere` stands for any
 number of lawful transactions of other threads. The manager keeps the ghost
 trace of all transactions and every method shows that what it adds is lawful,
 so the results of module `FileRuns` hold over every interleaving of its calls.
 Answers of the backends are inputs.
*/
module FileRunManagers {
  import opened Wrappers
  import opened FileRuns
  import A = ActivityLog

  datatype Observation = Observation(
    state: Option<RunState>,
    startedAt: Option<int>,
    endedAt: Option<int>,
    exitCode: Option<int>,
    errorCode: Option<string>,
    errorDetail: Option<string>)

  /**
   What asking a backend about a run yields. `InvalidReply` is a `ValueError`, as
   the reconciliation inside a local inspection raises for a bad window list.
  */
  datatype Reply = Observed(o: Observation) | Offline | BackendRaised | InvalidReply

  datatype Report = Report(run: FileRun, online: bool)

  datatype Started = Started(id: RunId, run: FileRun)

  datatype StopReport = StopReport(run: FileRun, needsForce: bool)

  datatype ManagerError =
    | UnknownRun
    | BackendError
    | InvalidObservation
    | NotRunnable
    | SlotOccupied(active: FileRun)
    | PayloadMismatch
    | DuplicateRunId
    | InterruptUnconfirmed

  datatype Inspection = Runnable(request: Request) | NoRunner | InspectionRaised

  datatype Confirmation = Confirmed | SourceChanged | ConfirmationRaised

  datatype Dispatch = Launched(terminal: TerminalId) | Refused | DispatchRaised

  function OrElse(a: Option<int>, b: Option<int>): Option<int> {
    if a.Some? then a else b
  }

  const FAIL_SOURCE := NO_CHANGE.(state := Set(Failed), errorCode := Set(Some("source_changed")))
  const FAIL_START := NO_CHANGE.(state := Set(Failed), errorCode := Set(Some("start_failed")))
  const START_UNKNOWN := NO_CHANGE.(state := Set(Preparing), errorCode := Set(Some("start_status_unknown")))
  const FORCE := NO_CHANGE.(state := Set(Stopped), errorCode := Set(Some("forced")))
  const ACTIVE_STATES := {Preparing, Running}

  /** The run was stored in exactly this form after some transaction `n >= from` of the trace. */
  ghost predicate Seen(trace: seq<Step>, from: nat, id: RunId, run: FileRun) {
    exists n: nat :: StoredAt(trace, from, n, id, run)
  }

  ghost predicate StoredAt(trace: seq<Step>, from: nat, n: nat, id: RunId, run: FileRun) {
    from <= n <= |trace| && id in Run(trace[..n]).store.runs && Run(trace[..n]).store.runs[id] == run
  }

  /** Some transaction `n >= from` of the trace created this run for this request. */
  ghost predicate CreatedSince(trace: seq<Step>, from: nat, id: RunId, ws: WorkspaceId, key: string) {
    exists n: nat :: CreatedAt(trace, from, n, id, ws, key)
  }

  ghost predicate CreatedAt(trace: seq<Step>, from: nat, n: nat, id: RunId, ws: WorkspaceId, key: string) {
    && from <= n < |trace|
    && trace[n].ClaimStep? && trace[n].id == id && trace[n].ws == ws && trace[n].key == key
    && !KeyTaken(Run(trace[..n]).store.runs, ws, key)
    && id !in Run(trace[..n]).born
    && id in Run(trace[..n + 1]).store.runs
  }

  lemma SeenLater(trace: seq<Step>, more: seq<Step>, from: nat, id: RunId, run: FileRun)
    requires Seen(trace, from, id, run) && trace <= more
    ensures Seen(more, from, id, run)
  {
    var n: nat :| StoredAt(trace, from, n, id, run);
    assert more[..n] == trace[..n];
    assert StoredAt(more, from, n, id, run);
  }

  lemma CreatedAtLater(trace: seq<Step>, more: seq<Step>, from: nat, n: nat, id: RunId, ws: WorkspaceId, key: string)
    requires CreatedAt(trace, from, n, id, ws, key) && trace <= more
    ensures CreatedAt(more, from, n, id, ws, key)
  {
    assert more[..n] == trace[..n] && more[..n + 1] == trace[..n + 1];
  }

  lemma CreatedLater(trace: seq<Step>, more: seq<Step>, from: nat, id: RunId, ws: WorkspaceId, key: string)
    requires CreatedSince(trace, from, id, ws, key) && trace <= more
    ensures CreatedSince(more, from, id, ws, key)
  {
    var n: nat :| CreatedAt(trace, from, n, id, ws, key);
    CreatedAtLater(trace, more, from, n, id, ws, key);
  }

  lemma ClaimStoresTheKey(h: History, step: Step)
    requires step.ClaimStep? && h.store.runs.Keys <= h.born && step.id !in h.born
    requires step.id in After(h, step).store.runs
    ensures var run := After(h, step).store.runs[step.id]; run.workspace == step.ws && run.key == step.key
  {
  }

  lemma StoredIsBorn(trace: seq<Step>, n: nat)
    requires AllLawful(trace) && n <= |trace|
    ensures Run(trace[..n]).store.runs.Keys <= Run(trace[..n]).born
  {
    PrefixIsLawful(trace, n);
    EveryRunIsGood(trace[..n]);
  }

  lemma RunAt(trace: seq<Step>, i: nat)
    requires i < |trace|
    ensures Run(trace[..i + 1]) == After(Run(trace[..i]), trace[i])
  {
    RunExtended(trace[..i], trace[i]);
    assert trace[..i + 1] == trace[..i] + [trace[i]];
  }

  lemma CreatedRunIsStored(trace: seq<Step>, from: nat, i: nat, id: RunId, ws: WorkspaceId, key: string)
    requires AllLawful(trace) && CreatedAt(trace, from, i, id, ws, key)
    ensures id in Run(trace[..i + 1]).store.runs
    ensures var run := Run(trace[..i + 1]).store.runs[id]; run.workspace == ws && run.key == key
  {
    StoredIsBorn(trace, i);
    RunAt(trace, i);
    ClaimStoresTheKey(Run(trace[..i]), trace[i]);
  }

  /** A run holds the key it was created with for as long as it is stored. */
  lemma CreatedRunHoldsItsKey(trace: seq<Step>, from: nat, i: nat, id: RunId, ws: WorkspaceId, key: string)
    requires AllLawful(trace) && CreatedAt(trace, from, i, id, ws, key)
    ensures id in Run(trace).born
    ensures id in Run(trace).store.runs ==> Run(trace).store.runs[id].workspace == ws && Run(trace).store.runs[id].key == key
  {
    CreatedRunIsStored(trace, from, i, id, ws, key);
    BornStaysBorn(trace, i + 1, id);
    if id in Run(trace).store.runs {
      LifecycleOnlyMovesForward(trace, i + 1, id);
    }
  }

  /**
   Two launches for one idempotency key are launches of different runs, and the
   first run had left the table before the second was claimed.
  */
  lemma SecondLaunchFindsTheKeyFree(trace: seq<Step>, from: nat, i: nat, first: RunId, j: nat, second: RunId,
                                    ws: WorkspaceId, key: string)
    requires AllLawful(trace) && i < j
    requires CreatedAt(trace, from, i, first, ws, key) && CreatedAt(trace, from, j, second, ws, key)
    ensures first != second && first !in Run(trace[..j]).store.runs
  {
    PrefixIsLawful(trace, j);
    assert trace[..j][..i] == trace[..i] && trace[..j][..i + 1] == trace[..i + 1];
    CreatedRunHoldsItsKey(trace[..j], from, i, first, ws, key);
  }

  /** The same for two calls of `start` that both dispatched, the second after the first. */
  lemma DispatchedTwice(trace: seq<Step>, more: seq<Step>, from: nat, first: RunId, second: RunId, ws: WorkspaceId,
                        key: string)
    returns (j: nat)
    requires AllLawful(more) && trace <= more && from <= |trace|
    requires CreatedSince(trace, from, first, ws, key) && CreatedSince(more, |trace|, second, ws, key)
    ensures first != second && CreatedAt(more, |trace|, j, second, ws, key) && first !in Run(more[..j]).store.runs
  {
    var i: nat :| CreatedAt(trace, from, i, first, ws, key);
    CreatedAtLater(trace, more, from, i, first, ws, key);
    j :| CreatedAt(more, |trace|, j, second, ws, key);
    SecondLaunchFindsTheKeyFree(more, from, i, first, j, second, ws, key);
  }

  lemma SeenIsBorn(trace: seq<Step>, from: nat, id: RunId, run: FileRun)
    requires AllLawful(trace) && Seen(trace, from, id, run)
    ensures id in Run(trace).born
  {
    var n: nat :| StoredAt(trace, from, n, id, run);
    BornStaysBorn(trace, n, id);
  }

  /** A compare-and-set whose target, and every state it does not expect, is at least of some rank. */
  predicate Lifts(expected: set<RunState>, p: Patch, rank: nat) {
    && p.state.Set? && Rank(p.state.value) >= rank
    && (Preparing in expected || rank == 0) && (Running in expected || rank <= 1)
  }

  lemma TransitionLifts(s: Store, id: RunId, expected: set<RunState>, p: Patch, rank: nat)
    requires Lifts(expected, p, rank) && id in Transitioned(s, id, expected, p).runs
    ensures rank <= 2 ==> Rank(Transitioned(s, id, expected, p).runs[id].life.state) >= rank
  {
  }

  lemma RunExtended(before: seq<Step>, step: Step)
    ensures Run(before + [step]) == After(Run(before), step)
  {
    assert (before + [step])[..|before|] == before;
  }

  /** After such a compare-and-set the run is never below that rank again. */
  lemma NeverBelow(before: seq<Step>, later: seq<Step>, id: RunId, expected: set<RunState>, p: Patch, rank: nat)
    requires AllLawful(later) && before + [TransitionStep(id, expected, p)] <= later
    requires Lifts(expected, p, rank) && rank <= 2
    requires id in Run(before).born && id in Run(later).store.runs
    ensures Rank(Run(later).store.runs[id].life.state) >= rank
  {
    var upTo := before + [TransitionStep(id, expected, p)];
    RunExtended(before, TransitionStep(id, expected, p));
    assert later[..|upTo|] == upTo;
    if id !in Run(upTo).store.runs {
      GoneStaysGone(later, |upTo|, id);
    } else {
      TransitionLifts(Run(before).store, id, expected, p, rank);
      LifecycleOnlyMovesForward(later, |upTo|, id);
    }
  }

  /** What an observation changes: nothing once the run is terminal or while the backend only prepares it. */
  function ObservationPatch(run: FileRun, o: Observation, now: int): Option<Patch> {
    if o.state.None? || IsTerminal(run.life.state) || o.state.value == Preparing then None
    else if o.state.value == Running then
      Some(NO_CHANGE.(state := Set(Running), startedAt := Set(OrElse(OrElse(o.startedAt, run.life.startedAt), Some(now))),
                      errorCode := Set(None), errorDetail := Set(None)))
    else
      Some(Patch(Set(o.state.value), Set(OrElse(o.startedAt, run.life.startedAt)), Keep,
                 Set(OrElse(o.endedAt, Some(now))), Set(o.exitCode), Set(o.errorCode), Set(o.errorDetail)))
  }

  /** An applied observation records the observed state, with the times that state must have. */
  lemma ObservationIsRecorded(run: FileRun, life: Lifecycle, o: Observation, now: int)
    requires ObservationPatch(run, o, now).Some?
    ensures var after := Patched(life, ObservationPatch(run, o, now).value);
            && Some(after.state) == o.state && after.state != Preparing && after.stopRequestedAt == life.stopRequestedAt
            && (after.state == Running ==> after.startedAt.Some? && after.endedAt == life.endedAt
                                           && after.exitCode == life.exitCode && after.errorCode.None?)
            && (IsTerminal(after.state) ==> after.endedAt.Some? && after.exitCode == o.exitCode
                                            && after.errorCode == o.errorCode)
            && (o.startedAt.Some? ==> after.startedAt == o.startedAt)
  {
  }

  lemma ObservedIsReached(before: seq<Step>, later: seq<Step>, id: RunId, run: FileRun, o: Observation, now: int)
    requires AllLawful(later) && IsActive(run) && id in Run(before).born && id in Run(later).store.runs
    requires match ObservationPatch(run, o, now)
             case None => true
             case Some(p) => before + [TransitionStep(id, ACTIVE_STATES, p)] <= later
    ensures Rank(Run(later).store.runs[id].life.state) >= ReplyRank(Observed(o))
  {
    match ObservationPatch(run, o, now)
    case None =>
    case Some(p) => NeverBelow(before, later, id, ACTIVE_STATES, p, Rank(o.state.value));
  }

  /** How far an answer moves a run at least. */
  function ReplyRank(reply: Reply): nat {
    if reply.Observed? && reply.o.state.Some? then Rank(reply.o.state.value) else 0
  }

  /** The step is among the transactions since `from`. */
  ghost predicate Includes(trace: seq<Step>, from: nat, step: Step) {
    exists k :: from <= k < |trace| && trace[k] == step
  }

  lemma IncludesLast(before: seq<Step>, more: seq<Step>, from: nat, step: Step)
    requires from <= |before| && before + [step] <= more
    ensures Includes(more, from, step)
  {
    assert more[|before|] == step;
  }

  lemma StillIncluded(trace: seq<Step>, more: seq<Step>, from: nat, step: Step)
    requires Includes(trace, from, step) && trace <= more
    ensures Includes(more, from, step)
  {
    var k :| from <= k < |trace| && trace[k] == step;
    assert more[k] == trace[k];
  }

  lemma LinkedLater(trace: seq<Step>, more: seq<Step>, from: nat, id: RunId, terminal: TerminalId, asked: Option<FileRun>)
    requires trace <= more && Includes(trace, from, TerminalStep(id, terminal))
    requires asked.Some? ==> Seen(trace, from, id, asked.value)
    ensures Includes(more, from, TerminalStep(id, terminal))
    ensures asked.Some? ==> Seen(more, from, id, asked.value)
  {
    StillIncluded(trace, more, from, TerminalStep(id, terminal));
    if asked.Some? {
      SeenLater(trace, more, from, id, asked.value);
    }
  }

  /** How `start` settles a run it did not dispatch, or whose backend refused the source. */
  function LaunchPatch(confirmation: Confirmation, dispatch: Dispatch, now: int): Option<Patch> {
    if confirmation == SourceChanged || (confirmation == Confirmed && dispatch == Refused)
    then Some(FAIL_SOURCE.(endedAt := Set(Some(now))))
    else if confirmation == ConfirmationRaised then Some(FAIL_START.(endedAt := Set(Some(now))))
    else None
  }

  /** How a failed dispatch is settled; None means by one more observation, or not at all if that is invalid. */
  function RecoverPatch(remote: bool, recovery: Reply, now: int): Option<Patch> {
    if !remote || (recovery.Observed? && recovery.o.state == Some(Lost))
    then Some(FAIL_START.(endedAt := Set(Some(now))))
    else if recovery.Offline? || recovery.BackendRaised? then Some(START_UNKNOWN)
    else None
  }

  /** The compare-and-set an observation of a run asks for, if any. */
  function ObservationSteps(id: RunId, run: FileRun, o: Observation, now: int): seq<Step> {
    match ObservationPatch(run, o, now)
    case None => []
    case Some(p) => [TransitionStep(id, ACTIVE_STATES, p)]
  }

  /** What `reconcile` itself performs; `asked` is the active run it asked the backend about, if it did. */
  function ReconcileSteps(id: RunId, asked: Option<FileRun>, reply: Reply, now: int): seq<Step> {
    if asked.Some? && reply.Observed? then ObservationSteps(id, asked.value, reply.o, now) else []
  }

  /** What recovering from a failed start performs; `again` is the run read before the one more observation. */
  function RecoverSteps(id: RunId, remote: bool, recovery: Reply, again: Option<FileRun>, now: int): seq<Step> {
    match RecoverPatch(remote, recovery, now)
    case Some(p) => [TransitionStep(id, {Preparing}, p)]
    case None => if recovery.Observed? && again.Some? then ObservationSteps(id, again.value, recovery.o, now) else []
  }

  function SourceStep(id: RunId, now: int): Step {
    TransitionStep(id, {Preparing}, FAIL_SOURCE.(endedAt := Set(Some(now))))
  }

  /** What the handlers perform after the first observation of a started run. */
  function AfterReportSteps(id: RunId, report: Result<Report, ManagerError>, remote: bool, recovery: Reply,
                            again: Option<FileRun>, now: int): seq<Step>
  {
    if report == Err(InvalidObservation) then [SourceStep(id, now)]
    else if report == Err(BackendError) then RecoverSteps(id, remote, recovery, again, now)
    else []
  }

  /** Everything `start` performs after its claim created the run. */
  function LaunchSteps(id: RunId, confirmation: Confirmation, dispatch: Dispatch, remote: bool, reply: Reply,
                       recovery: Reply, asked: Option<FileRun>, again: Option<FileRun>, now: int): seq<Step>
  {
    match LaunchPatch(confirmation, dispatch, now)
    case Some(p) => [TransitionStep(id, {Preparing}, p)]
    case None => DispatchSteps(id, dispatch, remote, reply, recovery, asked, again, now)
  }

  function DispatchSteps(id: RunId, dispatch: Dispatch, remote: bool, reply: Reply, recovery: Reply,
                         asked: Option<FileRun>, again: Option<FileRun>, now: int): seq<Step>
  {
    if dispatch.Launched? then
      [TerminalStep(id, dispatch.terminal)] + ReconcileSteps(id, asked, reply, now)
      + (if asked.Some? && reply.InvalidReply? then [SourceStep(id, now)]
         else if asked.Some? && reply.BackendRaised? then RecoverSteps(id, remote, recovery, again, now)
         else [])
    else RecoverSteps(id, remote, recovery, again, now)
  }

  /** The two halves of a launched start perform together what `DispatchSteps` says. */
  lemma LaunchedSteps(before: seq<Step>, id: RunId, terminal: TerminalId, remote: bool, reply: Reply, recovery: Reply,
                      asked: Option<FileRun>, again: Option<FileRun>, report: Result<Report, ManagerError>, now: int)
    requires report == Err(BackendError) <==> asked.Some? && reply.BackendRaised?
    requires report == Err(InvalidObservation) <==> asked.Some? && reply.InvalidReply?
    ensures before + [TerminalStep(id, terminal)] + ReconcileSteps(id, asked, reply, now)
            + AfterReportSteps(id, report, remote, recovery, again, now)
            == before + DispatchSteps(id, Launched(terminal), remote, reply, recovery, asked, again, now)
  {
    var link, seen := [TerminalStep(id, terminal)], ReconcileSteps(id, asked, reply, now);
    var rest := AfterReportSteps(id, report, remote, recovery, again, now);
    assert DispatchSteps(id, Launched(terminal), remote, reply, recovery, asked, again, now) == link + seen + rest;
    assert before + link + seen + rest == before + (link + seen + rest);
  }

  /**
   When a start is settled as a changed source: the confirmation or the backend
   said so, or the first observation of the started run, still active, was invalid.
  */
  predicate SourceFails(confirmation: Confirmation, dispatch: Dispatch, reply: Reply, asked: Option<FileRun>) {
    || confirmation == SourceChanged
    || (confirmation == Confirmed && (dispatch == Refused || (dispatch.Launched? && reply.InvalidReply? && asked.Some?)))
  }

  lemma ObservationIsNoSourceStep(id: RunId, run: FileRun, o: Observation, now: int, other: RunId)
    ensures SourceStep(other, now) !in ObservationSteps(id, run, o, now)
  {
    assert Running in ACTIVE_STATES && Running !in {Preparing};
  }

  lemma RecoveryIsNoSourceStep(id: RunId, remote: bool, recovery: Reply, again: Option<FileRun>, now: int)
    ensures SourceStep(id, now) !in RecoverSteps(id, remote, recovery, again, now)
  {
    if recovery.Observed? && again.Some? {
      ObservationIsNoSourceStep(id, again.value, recovery.o, now, id);
    }
  }

  lemma DispatchFailsSourceIff(id: RunId, dispatch: Dispatch, remote: bool, reply: Reply, recovery: Reply,
                               asked: Option<FileRun>, again: Option<FileRun>, now: int)
    ensures SourceStep(id, now) in DispatchSteps(id, dispatch, remote, reply, recovery, asked, again, now)
            <==> dispatch.Launched? && reply.InvalidReply? && asked.Some?
  {
    RecoveryIsNoSourceStep(id, remote, recovery, again, now);
    if asked.Some? && reply.Observed? {
      ObservationIsNoSourceStep(id, asked.value, reply.o, now, id);
    }
  }

  /** Exactly when a start requests that its run be recorded as failed for a changed source. */
  lemma LaunchFailsSourceIff(id: RunId, confirmation: Confirmation, dispatch: Dispatch, remote: bool, reply: Reply,
                             recovery: Reply, asked: Option<FileRun>, again: Option<FileRun>, now: int)
    ensures SourceStep(id, now) in LaunchSteps(id, confirmation, dispatch, remote, reply, recovery, asked, again, now)
            <==> SourceFails(confirmation, dispatch, reply, asked)
  {
    if LaunchPatch(confirmation, dispatch, now).None? {
      DispatchFailsSourceIff(id, dispatch, remote, reply, recovery, asked, again, now);
    }
  }

  lemma InEither(a: seq<Step>, b: seq<Step>, step: Step)
    ensures step in a + b <==> step in a || step in b
    ensures forall c: seq<Step> :: c + a + b == c + (a + b)
  {
    forall c: seq<Step> ensures c + a + b == c + (a + b) {
    }
  }

  /** The request is granted exactly to a run that is still preparing. */
  lemma SourceFailureIsRecordedIff(s: Store, id: RunId, now: int)
    requires id in s.runs && IsActive(s.runs[id])
    ensures var life := NextStore(s, SourceStep(id, now)).runs[id].life;
            && (life.state == Failed && life.errorCode == Some("source_changed") <==> s.runs[id].life.state == Preparing)
            && (s.runs[id].life.state == Preparing ==> life.endedAt == Some(now))
            && (s.runs[id].life.state != Preparing ==> life == s.runs[id].life)
  {
  }

  /** And then it stands, whatever the backend goes on to do. */
  lemma SourceFailureIsFinal(before: seq<Step>, later: seq<Step>, id: RunId, now: int)
    requires AllLawful(later) && before + [SourceStep(id, now)] <= later
    requires id in Run(before).store.runs && Run(before).store.runs[id].life.state == Preparing
    requires id in Run(later).store.runs
    ensures var life := Run(later).store.runs[id].life; life.state == Failed && life.errorCode == Some("source_changed")
  {
    var upTo := before + [SourceStep(id, now)];
    RunExtended(before, SourceStep(id, now));
    SourceFailureIsRecordedIff(Run(before).store, id, now);
    assert later[..|upTo|] == upTo;
    LifecycleOnlyMovesForward(later, |upTo|, id);
  }

  /** A request to stop this run, noting this time and changing nothing else, is among the transactions since `from`. */
  ghost predicate StopRequested(trace: seq<Step>, from: nat, id: RunId, at: int) {
    exists k :: from <= k < |trace| && IsStopRequest(trace[k], id, at)
  }

  predicate IsStopRequest(step: Step, id: RunId, at: int) {
    step == TransitionStep(id, {Preparing, Running}, Patch(Keep, Keep, Set(Some(at)), Keep, Keep, Keep, Keep))
  }

  lemma StillRequested(trace: seq<Step>, more: seq<Step>, from: nat, id: RunId, at: int)
    requires StopRequested(trace, from, id, at) && trace <= more
    ensures StopRequested(more, from, id, at)
  {
    var k :| from <= k < |trace| && IsStopRequest(trace[k], id, at);
    assert more[k] == trace[k];
  }

  /** The time a stop request notes: an earlier request's, if the run has one. */
  function RequestTime(run: FileRun, now: int): int {
    if run.life.stopRequestedAt.Some? then run.life.stopRequestedAt.value else now
  }

  /** The life of a run after a forced stop. */
  function ForcedLife(life: Lifecycle, now: int): Lifecycle {
    if life.state in {Preparing, Running}
    then life.(state := Stopped, endedAt := Some(now), errorCode := Some("forced"), revision := life.revision + 1)
    else life
  }

  /** The run as a forced stop leaves it: stopped at this moment, unless it had ended by itself. */
  ghost predicate ForcedAt(trace: seq<Step>, n: nat, id: RunId, now: int, run: FileRun) {
    n <= |trace| && id in Run(trace[..n]).store.runs && run.life == ForcedLife(Run(trace[..n]).store.runs[id].life, now)
  }

  ghost predicate Forced(trace: seq<Step>, from: nat, id: RunId, now: int, run: FileRun) {
    exists n: nat :: from <= n && ForcedAt(trace, n, id, now, run)
  }

  lemma ForceEnds(s: Store, id: RunId, now: int)
    requires id in s.runs
    ensures var after := Transitioned(s, id, ACTIVE_STATES, FORCE.(endedAt := Set(Some(now)))).runs[id].life;
            after == ForcedLife(s.runs[id].life, now) && IsTerminal(after.state)
  {
  }

  lemma EndedStays(later: seq<Step>, n: nat, id: RunId)
    requires AllLawful(later) && n <= |later| && id in Run(later).store.runs
    requires id in Run(later[..n]).store.runs && !IsActive(Run(later[..n]).store.runs[id])
    ensures Run(later).store.runs[id].life == Run(later[..n]).store.runs[id].life
  {
    LifecycleOnlyMovesForward(later, n, id);
  }

  lemma StillStored(later: seq<Step>, n: nat, id: RunId)
    requires AllLawful(later) && n <= |later| && id in Run(later[..n]).born && id in Run(later).store.runs
    ensures id in Run(later[..n]).store.runs
  {
    if id !in Run(later[..n]).store.runs {
      GoneStaysGone(later, n, id);
    }
  }

  function ForceStep(id: RunId, now: int): Step {
    TransitionStep(id, ACTIVE_STATES, FORCE.(endedAt := Set(Some(now))))
  }

  lemma ForceLeaves(h: History, id: RunId, now: int)
    requires id in h.store.runs
    ensures id in After(h, ForceStep(id, now)).store.runs && !IsActive(After(h, ForceStep(id, now)).store.runs[id])
    ensures After(h, ForceStep(id, now)).store.runs[id].life == ForcedLife(h.store.runs[id].life, now)
  {
    ForceEnds(h.store, id, now);
  }

  lemma ForceAt(later: seq<Step>, n: nat, id: RunId, now: int)
    requires n < |later| && later[n] == ForceStep(id, now) && id in Run(later[..n]).store.runs
    ensures id in Run(later[..n + 1]).store.runs && !IsActive(Run(later[..n + 1]).store.runs[id])
    ensures Run(later[..n + 1]).store.runs[id].life == ForcedLife(Run(later[..n]).store.runs[id].life, now)
  {
    StepAt(later, n);
    ForceLeaves(Run(later[..n]), id, now);
  }

  lemma ForcedAtStep(later: seq<Step>, n: nat, id: RunId, now: int)
    requires AllLawful(later) && n < |later| && later[n] == ForceStep(id, now)
    requires id in Run(later[..n]).store.runs && id in Run(later).store.runs
    ensures ForcedAt(later, n, id, now, Run(later).store.runs[id])
  {
    ForceAt(later, n, id, now);
    EndedStays(later, n + 1, id);
  }

  /** What a forced stop leaves is what the run is from then on. */
  lemma ForcedStays(before: seq<Step>, later: seq<Step>, id: RunId, now: int)
    requires AllLawful(later) && id in Run(before).born && id in Run(later).store.runs
    requires before + [ForceStep(id, now)] <= later
    ensures Forced(later, |before|, id, now, Run(later).store.runs[id])
  {
    assert later[..|before|] == before && later[|before|] == ForceStep(id, now);
    StillStored(later, |before|, id);
    ForcedAtStep(later, |before|, id, now);
  }

  lemma ForcedLater(trace: seq<Step>, from: nat, earlier: nat, id: RunId, now: int, run: FileRun)
    requires Forced(trace, from, id, now, run) && earlier <= from
    ensures Forced(trace, earlier, id, now, run)
  {
    var n: nat :| from <= n && ForcedAt(trace, n, id, now, run);
    assert ForcedAt(trace, n, id, now, run);
  }

  /** What a start answers to each outcome of its claim. */
  predicate AnswersClaim(claim: ClaimResult, newId: RunId, r: Result<Started, ManagerError>) {
    match claim
    case Created(_) => r.Ok? ==> r.value.id == newId
    case Idempotent(id, _) => r.Ok? ==> r.value.id == id
    case Occupied(_, run) => r == Err(SlotOccupied(run))
    case KeyReused => r == Err(PayloadMismatch)
    case DuplicateId => r == Err(DuplicateRunId)
  }

  lemma IdentityIsKept(now: seq<Step>, upTo: seq<Step>, id: RunId)
    requires AllLawful(upTo) && now <= upTo && id in Run(now).store.runs && id in Run(upTo).store.runs
    ensures var a, b := Run(now).store.runs[id], Run(upTo).store.runs[id];
            b.workspace == a.workspace && b.key == a.key && b.request == a.request
  {
    assert upTo[..|now|] == now;
    LifecycleOnlyMovesForward(upTo, |now|, id);
  }

  /** A run stored now, and seen again later, kept the identity it was claimed with. */
  lemma SameIdentity(now: seq<Step>, later: seq<Step>, from: nat, id: RunId, claimed: FileRun, run: FileRun)
    requires AllLawful(later) && now <= later && from <= |now|
    requires id in Run(now).store.runs && Run(now).store.runs[id] == claimed && Seen(later, |now|, id, run)
    ensures run.workspace == claimed.workspace && run.key == claimed.key && run.request == claimed.request
    ensures Seen(later, from, id, run)
  {
    var n: nat :| StoredAt(later, |now|, n, id, run);
    PrefixIsLawful(later, n);
    IdentityIsKept(now, later[..n], id);
    assert StoredAt(later, from, n, id, run);
  }

  lemma BornLater(trace: seq<Step>, more: seq<Step>, id: RunId)
    requires AllLawful(trace) && trace <= more && (id in Run(trace).store.runs || id in Run(trace).born)
    ensures id in Run(more).born
  {
    EveryRunIsGood(trace);
    assert more[..|trace|] == trace;
    BornNeverForgotten(more, |trace|, id);
  }

  /**
   The methods take the ghost index `from` of a transaction at or before the
   call, and promise that what they report was stored at or after it.
  */
  class FileRunManager {
    const store: FileRunStore
    ghost var trace: seq<Step>
    /** The transactions of the call in progress, as opposed to those of other threads. */
    ghost var mine: seq<Step>

    ghost predicate Valid()
      reads this, store, store.activity
    {
      AllLawful(trace) && store.Contents() == Run(trace).store
    }

    constructor ()
      ensures Valid() && trace == mine == [] && fresh(store) && fresh(store.activity)
    {
      store := new FileRunStore();
      trace, mine := [], [];
    }

    /** Other threads perform any number of lawful transactions; the caller learns nothing else. */
    method Interfere()
      requires Valid()
      modifies this`trace, store, store.activity
      ensures Valid() && old(trace) <= trace
    {
    }

    /** Interference by threads that do not hold this freshly generated id. */
    method InterfereElsewhere(newId: RunId)
      requires Valid()
      modifies this`trace, store, store.activity
      ensures Valid() && old(trace) <= trace
      ensures newId !in Run(old(trace)).born ==> newId !in Run(trace).born
    {
    }

    ghost method Record(step: Step)
      requires AllLawful(trace) && Lawful(Run(trace), step)
      requires store.Contents() == NextStore(Run(trace).store, step)
      modifies this
      ensures Valid() && trace == old(trace) + [step] && mine == old(mine) + [step]
    {
      assert (trace + [step])[..|trace|] == trace;
      trace := trace + [step];
      mine := mine + [step];
    }

    method Get(id: RunId, ghost from: nat) returns (r: Result<FileRun, ManagerError>)
      requires Valid() && from <= |trace|
      ensures r.Ok? ==> Seen(trace, from, id, r.value) && id in store.runs && store.runs[id] == r.value
      ensures r.Err? ==> r.error == UnknownRun && id !in store.runs
    {
      if id !in store.runs {
        return Err(UnknownRun);
      }
      assert trace[..|trace|] == trace;
      assert StoredAt(trace, from, |trace|, id, store.runs[id]);
      return Ok(store.runs[id]);
    }

    /** One lawful compare-and-set. */
    method Transition(id: RunId, expected: set<RunState>, p: Patch)
      requires Valid() && LawfulPatch(expected, p) && p != NO_CHANGE
      modifies this, store, store.activity
      ensures Valid() && trace == old(trace) + [TransitionStep(id, expected, p)]
      ensures mine == old(mine) + [TransitionStep(id, expected, p)]
    {
      var _ := store.Transition(id, expected, p);
      Record(TransitionStep(id, expected, p));
    }

    /** `_apply_observation`. */
    method ApplyObservation(id: RunId, run: FileRun, o: Observation, now: int)
      requires Valid()
      modifies this, store, store.activity
      ensures Valid()
      ensures trace == old(trace) + ObservationSteps(id, run, o, now)
      ensures mine == old(mine) + ObservationSteps(id, run, o, now)
    {
      if !(o.state.None? || IsTerminal(run.life.state) || o.state.value == Preparing) {
        var started := OrElse(o.startedAt, run.life.startedAt);
        var p;
        if o.state.value == Running {
          p := NO_CHANGE.(state := Set(Running), startedAt := Set(OrElse(started, Some(now))),
                          errorCode := Set(None), errorDetail := Set(None));
        } else {
          p := Patch(Set(o.state.value), Set(started), Keep, Set(OrElse(o.endedAt, Some(now))),
                     Set(o.exitCode), Set(o.errorCode), Set(o.errorDetail));
        }
        Transition(id, ACTIVE_STATES, p);
      }
    }

    /** Apply an answer about an active run and read the run again. */
    method ApplyAndRead(id: RunId, run: FileRun, o: Observation, now: int, ghost from: nat)
      returns (r: Result<FileRun, ManagerError>)
      requires Valid() && from <= |trace| && id in Run(trace).born && IsActive(run)
      modifies this, store, store.activity
      ensures Valid() && old(trace) <= trace
      ensures r.Ok? ==> Seen(trace, from, id, r.value) && Rank(r.value.life.state) >= ReplyRank(Observed(o))
      ensures r.Err? ==> r.error == UnknownRun
      ensures mine == old(mine) + ObservationSteps(id, run, o, now)
    {
      ghost var before := trace;
      ApplyObservation(id, run, o, now);
      Interfere();
      r := Get(id, from);
      if r.Ok? {
        ObservedIsReached(before, trace, id, run, o, now);
      }
    }

    /** `reconcile`: report a terminal run as it is, otherwise ask the backend and apply its answer. */
    method Reconcile(id: RunId, reply: Reply, now: int, ghost from: nat)
      returns (r: Result<Report, ManagerError>, ghost asked: Option<FileRun>)
      requires Valid() && from <= |trace|
      modifies this, store, store.activity
      ensures Valid() && old(trace) <= trace
      ensures r.Ok? ==> Seen(trace, from, id, r.value.run)
      ensures r.Ok? && !r.value.online ==> reply == Offline && IsActive(r.value.run)
      ensures r.Ok? ==> Rank(r.value.run.life.state) >= ReplyRank(reply)
      ensures r.Ok? && (reply.BackendRaised? || reply.InvalidReply?) ==> !IsActive(r.value.run)
      // `asked` is the run as it was when the backend was asked about it.
      ensures asked.Some? ==> Seen(trace, from, id, asked.value) && IsActive(asked.value)
      ensures asked.None? ==> r == Err(UnknownRun) || (r.Ok? && !IsActive(r.value.run))
      ensures r == Err(BackendError) <==> asked.Some? && reply.BackendRaised?
      ensures r == Err(InvalidObservation) <==> asked.Some? && reply.InvalidReply?
      ensures mine == old(mine) + ReconcileSteps(id, asked, reply, now)
    {
      asked := None;
      var initial := Get(id, from);
      if initial.Err? {
        r := Err(initial.error);
      } else {
        Interfere();
        r, asked := ReconcileCurrent(id, reply, now, from);
      }
    }

    /** `reconcile` inside the lock of the Workspace: read the run again and decide. */
    method ReconcileCurrent(id: RunId, reply: Reply, now: int, ghost from: nat)
      returns (r: Result<Report, ManagerError>, ghost asked: Option<FileRun>)
      requires Valid() && from <= |trace|
      modifies this, store, store.activity
      ensures Valid() && old(trace) <= trace
      ensures r.Ok? ==> Seen(trace, from, id, r.value.run)
      ensures r.Ok? && !r.value.online ==> reply == Offline && IsActive(r.value.run)
      ensures r.Ok? ==> Rank(r.value.run.life.state) >= ReplyRank(reply)
      ensures r.Ok? && (reply.BackendRaised? || reply.InvalidReply?) ==> !IsActive(r.value.run)
      // `asked` is the run as it was when the backend was asked about it.
      ensures asked.Some? ==> Seen(trace, from, id, asked.value) && IsActive(asked.value)
      ensures asked.None? ==> r == Err(UnknownRun) || (r.Ok? && !IsActive(r.value.run))
      ensures r == Err(BackendError) <==> asked.Some? && reply.BackendRaised?
      ensures r == Err(InvalidObservation) <==> asked.Some? && reply.InvalidReply?
      ensures mine == old(mine) + ReconcileSteps(id, asked, reply, now)
    {
      asked := None;
      var current := Get(id, from);
      if current.Err? {
        r := Err(current.error);
      } else if !IsActive(current.value) {
        r := Ok(Report(current.value, true));
      } else {
        asked := Some(current.value);
        r := ReconcileActive(id, current.value, reply, now, from);
      }
    }

    /** The part of `reconcile` that asks the backend about an active run. */
    method ReconcileActive(id: RunId, run: FileRun, reply: Reply, now: int, ghost from: nat)
      returns (r: Result<Report, ManagerError>)
      requires Valid() && from <= |trace| && IsActive(run) && Seen(trace, from, id, run)
      modifies this, store, store.activity
      ensures Valid() && old(trace) <= trace
      ensures r.Ok? ==> reply.Offline? || reply.Observed?
      ensures r.Ok? ==> Seen(trace, from, id, r.value.run) && Rank(r.value.run.life.state) >= ReplyRank(reply)
      ensures r.Ok? && reply.Offline? ==> r.value == Report(run, false)
      ensures r.Ok? && reply.Observed? ==> r.value.online
      ensures r == Err(BackendError) <==> reply.BackendRaised?
      ensures r == Err(InvalidObservation) <==> reply.InvalidReply?
      ensures Seen(trace, from, id, run) && mine == old(mine) + ReconcileSteps(id, Some(run), reply, now)
    {
      Interfere();
      SeenLater(old(trace), trace, from, id, run);
      match reply
      case Offline => r := Ok(Report(run, false));
      case BackendRaised => r := Err(BackendError);
      case InvalidReply => r := Err(InvalidObservation);
      case Observed(o) =>
        SeenIsBorn(trace, from, id, run);
        ghost var before := trace;
        var after := ApplyAndRead(id, run, o, now, from);
        SeenLater(before, trace, from, id, run);
        r := if after.Err? then Err(after.error) else Ok(Report(after.value, true));
    }

    /** `stop`: interrupt an active run and say whether it still has to be killed. */
    method Stop(id: RunId, first: Reply, sent: bool, second: Reply, now: int, ghost from: nat)
      returns (r: Result<StopReport, ManagerError>, ghost found: Option<FileRun>)
      requires Valid() && from <= |trace|
      modifies this, store, store.activity
      ensures Valid() && old(trace) <= trace
      ensures r.Ok? ==> Seen(trace, from, id, r.value.run)
      // `found` is the active run the backend was asked to interrupt.
      ensures found.Some? ==> Seen(trace, from, id, found.value) && IsActive(found.value)
      ensures found.Some? && sent ==> StopRequested(trace, from, id, RequestTime(found.value, now))
      ensures r.Ok? ==> (r.value.needsForce <==> IsActive(r.value.run))
      ensures r.Ok? ==> Rank(r.value.run.life.state) >= ReplyRank(second)
      ensures r.Ok? && r.value.needsForce ==> sent && found.Some?
    {
      found := None;
      var report, _ := Reconcile(id, first, now, from);
      if report.Err? {
        r := Err(report.error);
      } else if !IsActive(report.value.run) {
        r := Ok(StopReport(report.value.run, false));
      } else {
        found := Some(report.value.run);
        var after := AfterRequest(id, report.value.run, sent, second, now, from);
        if after.Err? {
          r := Err(after.error);
        } else if !sent && IsActive(after.value.run) {
          r := Err(InterruptUnconfirmed);
        } else {
          r := Ok(StopReport(after.value.run, IsActive(after.value.run)));
        }
      }
    }

    /** The common second half of `stop` and `kill`: note the request if the backend took it, and observe again. */
    method AfterRequest(id: RunId, run: FileRun, sent: bool, second: Reply, now: int, ghost from: nat)
      returns (after: Result<Report, ManagerError>)
      requires Valid() && from <= |trace| && Seen(trace, from, id, run)
      modifies this, store, store.activity
      ensures Valid() && old(trace) <= trace && Seen(trace, from, id, run)
      ensures sent ==> StopRequested(trace, from, id, RequestTime(run, now))
      ensures after.Ok? ==> Seen(trace, from, id, after.value.run)
      ensures after.Ok? ==> Rank(after.value.run.life.state) >= ReplyRank(second)
    {
      if sent {
        RequestStop(id, OrElse(run.life.stopRequestedAt, Some(now)), RequestTime(run, now), from);
      }
      ghost var requested := trace;
      Interfere();
      ghost var asked;
      after, asked := Reconcile(id, second, now, from);
      if sent {
        StillRequested(requested, trace, from, id, RequestTime(run, now));
      }
      SeenLater(old(trace), trace, from, id, run);
    }

    method RequestStop(id: RunId, requestedAt: Option<int>, ghost at: int, ghost from: nat)
      requires Valid() && requestedAt == Some(at) && from <= |trace|
      modifies this, store, store.activity
      ensures Valid() && old(trace) <= trace && StopRequested(trace, from, id, at)
    {
      Interfere();
      Transition(id, ACTIVE_STATES, NO_CHANGE.(stopRequestedAt := Set(requestedAt)));
      assert IsStopRequest(trace[|trace| - 1], id, at);
    }

    /** `kill`: once the backend confirms, the reported run is terminal whatever else happened meanwhile. */
    method Kill(id: RunId, first: Reply, killed: bool, second: Reply, now: int, ghost from: nat)
      returns (r: Result<FileRun, ManagerError>, ghost found: Option<FileRun>, ghost forced: bool)
      requires Valid() && from <= |trace|
      modifies this, store, store.activity
      ensures Valid() && old(trace) <= trace
      ensures r.Ok? ==> Seen(trace, from, id, r.value)
      ensures r.Ok? && killed ==> !IsActive(r.value)
      // `found` is the active run the backend was asked to kill.
      ensures found.Some? ==> Seen(trace, from, id, found.value) && IsActive(found.value)
      ensures found.Some? && killed ==> StopRequested(trace, from, id, RequestTime(found.value, now))
      // A run the backend killed but still calls active is recorded as stopped by force.
      ensures forced ==> killed && found.Some?
      ensures forced && r.Ok? ==> Forced(trace, from, id, now, r.value)
      ensures r.Ok? && killed && !forced && found.Some? ==> Rank(r.value.life.state) >= ReplyRank(second)
    {
      found, forced := None, false;
      var report, _ := Reconcile(id, first, now, from);
      if report.Err? {
        r := Err(report.error);
      } else if !IsActive(report.value.run) {
        r := Ok(report.value.run);
      } else {
        found := Some(report.value.run);
        var after := AfterRequest(id, report.value.run, killed, second, now, from);
        if after.Err? {
          r := Err(after.error);
        } else if killed && IsActive(after.value.run) {
          forced := true;
          ghost var requested := trace;
          r := Force(id, now, after.value.run, from);
          SeenLater(requested, trace, from, id, found.value);
          StillRequested(requested, trace, from, id, RequestTime(found.value, now));
        } else {
          r := Ok(after.value.run);
        }
      }
    }

    /** The last resort of `kill`: the compare-and-set to stopped leaves no active row behind. */
    method Force(id: RunId, now: int, ghost run: FileRun, ghost from: nat) returns (r: Result<FileRun, ManagerError>)
      requires Valid() && from <= |trace| && Seen(trace, from, id, run)
      modifies this, store, store.activity
      ensures Valid() && old(trace) <= trace
      ensures r.Ok? ==> Seen(trace, from, id, r.value) && !IsActive(r.value)
      ensures r.Ok? ==> Forced(trace, from, id, now, r.value)
    {
      Interfere();
      SeenLater(old(trace), trace, from, id, run);
      SeenIsBorn(trace, from, id, run);
      var p := FORCE.(endedAt := Set(Some(now)));
      ghost var before := trace;
      Transition(id, ACTIVE_STATES, p);
      Interfere();
      r := Get(id, from);
      if r.Ok? {
        NeverBelow(before, trace, id, ACTIVE_STATES, p, 2);
        ForcedStays(before, trace, id, now);
        ForcedLater(trace, |before|, from, id, now, r.value);
      }
    }

    /**
     `start`: claim the slot, confirm the source, dispatch at most once, and
     settle the run by what the backend says.
    */
    method Start(newId: RunId, ws: WorkspaceId, key: string, cleanup: bool, inspection: Inspection,
                 confirmation: Confirmation, dispatch: Dispatch, remote: bool, reply: Reply,
                 recovery: Reply, now: int, monotonic: int, ghost from: nat)
      returns (r: Result<Started, ManagerError>, dispatched: bool, ghost created: bool, ghost asked: Option<FileRun>,
               ghost own: seq<Step>, ghost claim: Option<ClaimResult>)
      requires Valid() && newId !in Run(trace).born && from <= |trace|
      modifies this, store, store.activity
      ensures Valid() && old(trace) <= trace
      ensures created ==> CreatedSince(trace, from, newId, ws, key)
      ensures dispatched <==> created && confirmation == Confirmed
      // `claim` is what the store made of the call; without a runnable file it is not asked.
      ensures created <==> claim.Some? && claim.value.Created?
      ensures if inspection.Runnable? then claim.Some? && AnswersClaim(claim.value, newId, r)
              else claim.None? && r == Err(if inspection.NoRunner? then NotRunnable else BackendError)
      // The call itself asks for a failure as a changed source exactly in these cases.
      ensures mine == old(mine) + own
      ensures SourceStep(newId, now) in own <==> created && SourceFails(confirmation, dispatch, reply, asked)
      ensures r.Ok? ==> Seen(trace, from, r.value.id, r.value.run)
      ensures r.Ok? ==> inspection.Runnable? && r.value.run.workspace == ws && r.value.run.key == key
                        && r.value.run.request == inspection.request
    {
      CleanUp(cleanup, now, monotonic);
      own := if cleanup then [PruneStep(now)] else [];
      InterfereElsewhere(newId);
      if inspection.Runnable? {
        ghost var first := own;
        ghost var made;
        r, dispatched, created, asked, own, made := ClaimAndLaunch(
          newId, ws, key, inspection.request, confirmation, dispatch, remote, reply, recovery, now, from);
        claim := Some(made);
        InEither(first, own, SourceStep(newId, now));
        own := first + own;
      } else {
        r, dispatched, created, asked :=
          Err(if inspection.NoRunner? then NotRunnable else BackendError), false, false, None;
        claim := None;
      }
    }

    /** `cleanup_history`, when it is due. */
    method CleanUp(due: bool, now: int, monotonic: int)
      requires Valid()
      modifies this, store, store.activity
      ensures Valid() && trace == old(trace) + (if due then [PruneStep(now)] else [])
      ensures mine == old(mine) + (if due then [PruneStep(now)] else [])
      ensures Run(trace).born == Run(old(trace)).born
    {
      if due {
        ghost var before := trace;
        var _ := store.Prune(now, monotonic);
        Record(PruneStep(now));
        EveryRunIsGood(before);
        RunExtended(before, PruneStep(now));
      }
    }

    /** `start` from its claim on. */
    method ClaimAndLaunch(newId: RunId, ws: WorkspaceId, key: string, request: Request, confirmation: Confirmation,
                          dispatch: Dispatch, remote: bool, reply: Reply, recovery: Reply, now: int, ghost from: nat)
      returns (r: Result<Started, ManagerError>, dispatched: bool, ghost created: bool, ghost asked: Option<FileRun>,
               ghost own: seq<Step>, ghost made: ClaimResult)
      requires Valid() && newId !in Run(trace).born && from <= |trace|
      modifies this, store, store.activity
      ensures Valid() && old(trace) <= trace
      ensures created ==> CreatedSince(trace, from, newId, ws, key)
      ensures dispatched <==> created && confirmation == Confirmed
      ensures (created <==> made.Created?) && AnswersClaim(made, newId, r)
      ensures made.Occupied? ==> Seen(trace, from, made.id, made.run) && IsActive(made.run) && made.run.workspace == ws
      ensures mine == old(mine) + own
      ensures SourceStep(newId, now) in own <==> created && SourceFails(confirmation, dispatch, reply, asked)
      ensures r.Ok? ==> Seen(trace, from, r.value.id, r.value.run)
      ensures r.Ok? ==> r.value.run.workspace == ws && r.value.run.key == key && r.value.run.request == request
    {
      var claim := ClaimRun(newId, ws, key, request, now, from);
      ghost var first := [ClaimStep(newId, ws, key, request, now)];
      created, made := claim.Created?, claim;
      if claim.Created? {
        ghost var claimed := trace;
        r, dispatched, asked, own := LaunchCreated(newId, claim.run, confirmation, dispatch, remote, reply, recovery, now, from);
        CreatedLater(claimed, trace, from, newId, ws, key);
      } else if claim.Idempotent? {
        dispatched := false;
        r, asked, own := ReplayClaimed(newId, claim.id, claim.run, reply, now, from);
      } else {
        dispatched, asked, own := false, None, [];
        r := Err(if claim.Occupied? then SlotOccupied(claim.run)
                 else if claim.KeyReused? then PayloadMismatch else DuplicateRunId);
      }
      InEither(first, own, SourceStep(newId, now));
      own := first + own;
    }

    /** The launch of a claimed run, as the steps the call performs. */
    method LaunchCreated(id: RunId, run: FileRun, confirmation: Confirmation, dispatch: Dispatch, remote: bool,
                         reply: Reply, recovery: Reply, now: int, ghost from: nat)
      returns (r: Result<Started, ManagerError>, dispatched: bool, ghost asked: Option<FileRun>, ghost own: seq<Step>)
      requires Valid() && from <= |trace| && id in store.runs && store.runs[id] == run
      modifies this, store, store.activity
      ensures Valid() && old(trace) <= trace && mine == old(mine) + own
      ensures dispatched <==> confirmation == Confirmed
      ensures SourceStep(id, now) in own <==> SourceFails(confirmation, dispatch, reply, asked)
      ensures r.Ok? ==> r.value.id == id && Seen(trace, from, id, r.value.run)
      ensures r.Ok? ==> r.value.run.workspace == run.workspace && r.value.run.key == run.key
                        && r.value.run.request == run.request
    {
      ghost var again;
      r, dispatched, asked, again := Launch(id, run, confirmation, dispatch, remote, reply, recovery, now, from);
      own := LaunchSteps(id, confirmation, dispatch, remote, reply, recovery, asked, again, now);
      LaunchFailsSourceIff(id, confirmation, dispatch, remote, reply, recovery, asked, again, now);
    }

    /** The replay of an existing run asks for no failure of the run that was not created. */
    method ReplayClaimed(newId: RunId, id: RunId, run: FileRun, reply: Reply, now: int, ghost from: nat)
      returns (r: Result<Started, ManagerError>, ghost asked: Option<FileRun>, ghost own: seq<Step>)
      requires Valid() && from <= |trace| && id in store.runs && store.runs[id] == run
      modifies this, store, store.activity
      ensures Valid() && old(trace) <= trace && mine == old(mine) + own
      ensures SourceStep(newId, now) !in own
      ensures r.Ok? ==> r.value.id == id && Seen(trace, from, id, r.value.run)
      ensures r.Ok? ==> r.value.run.workspace == run.workspace && r.value.run.key == run.key
                        && r.value.run.request == run.request
    {
      r, asked := Replay(id, run, reply, now, from);
      own := ReconcileSteps(id, asked, reply, now);
      if asked.Some? && reply.Observed? {
        ObservationIsNoSourceStep(id, asked.value, reply.o, now, newId);
      }
    }

    method ClaimRun(newId: RunId, ws: WorkspaceId, key: string, request: Request, now: int, ghost from: nat)
      returns (claim: ClaimResult)
      requires Valid() && newId !in Run(trace).born && from <= |trace|
      modifies this, store
      ensures Valid() && old(trace) <= trace && mine == old(mine) + [ClaimStep(newId, ws, key, request, now)]
      ensures claim.Created? ==> CreatedSince(trace, from, newId, ws, key)
      ensures claim.Created? ==> newId in store.runs && store.runs[newId] == claim.run
      ensures claim.Idempotent? ==> claim.id in store.runs && store.runs[claim.id] == claim.run
      ensures claim.Occupied? ==> Seen(trace, from, claim.id, claim.run) && IsActive(claim.run) && claim.run.workspace == ws
      ensures claim.Created? || claim.Idempotent? ==>
        claim.run.workspace == ws && claim.run.key == key && claim.run.request == request
    {
      ghost var before := trace;
      ghost var runs := store.runs;
      claim := store.Claim(newId, ws, key, request, now);
      Record(ClaimStep(newId, ws, key, request, now));
      assert trace[..|before|] == before && trace[..|before| + 1] == trace;
      if claim.Created? {
        assert !KeyTaken(runs, ws, key);
        assert CreatedAt(trace, from, |before|, newId, ws, key);
      } else if claim.Occupied? {
        assert trace[..|trace|] == trace;
        assert StoredAt(trace, from, |trace|, claim.id, claim.run);
      }
    }

    /** The idempotent answer: the run already claimed with this key, brought up to date if still active. */
    method Replay(id: RunId, run: FileRun, reply: Reply, now: int, ghost from: nat)
      returns (r: Result<Started, ManagerError>, ghost asked: Option<FileRun>)
      requires Valid() && from <= |trace| && id in store.runs && store.runs[id] == run
      modifies this, store, store.activity
      ensures Valid() && old(trace) <= trace
      ensures r.Ok? ==> r.value.id == id && Seen(trace, from, id, r.value.run)
      ensures r.Ok? ==> r.value.run.workspace == run.workspace && r.value.run.key == run.key
                        && r.value.run.request == run.request
      ensures mine == old(mine) + ReconcileSteps(id, asked, reply, now)
    {
      ghost var at := |trace|;
      asked := None;
      Interfere();
      var found;
      if IsActive(run) {
        var report;
        report, asked := Reconcile(id, reply, now, at);
        found := if report.Err? then Err(report.error) else Ok(report.value.run);
      } else {
        found := Get(id, at);
      }
      if found.Err? {
        r := Err(found.error);
      } else {
        SameIdentity(old(trace), trace, from, id, run, found.value);
        r := Ok(Started(id, found.value));
      }
    }

    /** The part of `start` after its claim created the run. */
    method Launch(id: RunId, run: FileRun, confirmation: Confirmation, dispatch: Dispatch, remote: bool,
                  reply: Reply, recovery: Reply, now: int, ghost from: nat)
      returns (r: Result<Started, ManagerError>, dispatched: bool, ghost asked: Option<FileRun>,
               ghost again: Option<FileRun>)
      requires Valid() && from <= |trace| && id in store.runs && store.runs[id] == run
      modifies this, store, store.activity
      ensures Valid() && old(trace) <= trace
      ensures dispatched <==> confirmation == Confirmed
      ensures r.Ok? && !Undecided(confirmation, dispatch, remote, reply) ==> r.value.run.life.state != Preparing
      // `asked` is the active run the first observation was about; without one that observation is not made.
      ensures asked.Some? ==> Seen(trace, |old(trace)|, id, asked.value) && IsActive(asked.value)
      ensures (dispatched && dispatch.Launched? && asked.None?
               ==> r == Err(UnknownRun) || (r.Ok? && !IsActive(r.value.run)))
      ensures mine == old(mine) + LaunchSteps(id, confirmation, dispatch, remote, reply, recovery, asked, again, now)
      ensures var p := LaunchPatch(confirmation, dispatch, now);
              p.Some? ==> Includes(trace, |old(trace)|, TransitionStep(id, {Preparing}, p.value))
      ensures SourceFails(confirmation, dispatch, reply, asked) ==> Includes(trace, |old(trace)|, SourceStep(id, now))
      ensures (dispatched && dispatch.Launched?
               ==> Includes(trace, |old(trace)|, TerminalStep(id, dispatch.terminal)))
      ensures r.Ok? ==> r.value.id == id && Seen(trace, from, id, r.value.run)
      ensures r.Ok? ==> r.value.run.workspace == run.workspace && r.value.run.key == run.key
                        && r.value.run.request == run.request
    {
      ghost var at := |trace|;
      Interfere();
      BornLater(old(trace), trace, id);
      dispatched := confirmation == Confirmed;
      var settled;
      settled, asked, again := SettleOrDispatch(id, confirmation, dispatch, remote, reply, recovery, now, at);
      if settled.Err? {
        r := Err(settled.error);
      } else {
        SameIdentity(old(trace), trace, from, id, run, settled.value);
        r := Ok(Started(id, settled.value));
      }
    }

    /** Confirm the source, then either settle the run at once or ask the backend to start it. */
    method SettleOrDispatch(id: RunId, confirmation: Confirmation, dispatch: Dispatch, remote: bool, reply: Reply,
                            recovery: Reply, now: int, ghost from: nat)
      returns (r: Result<FileRun, ManagerError>, ghost asked: Option<FileRun>, ghost again: Option<FileRun>)
      requires Valid() && from <= |trace| && id in Run(trace).born
      modifies this, store, store.activity
      ensures Valid() && old(trace) <= trace
      ensures r.Ok? ==> Seen(trace, from, id, r.value)
      ensures r.Ok? && !Undecided(confirmation, dispatch, remote, reply) ==> r.value.life.state != Preparing
      ensures asked.Some? ==> Seen(trace, from, id, asked.value) && IsActive(asked.value)
      ensures (confirmation == Confirmed && dispatch.Launched? && asked.None?
               ==> r == Err(UnknownRun) || (r.Ok? && !IsActive(r.value)))
      ensures mine == old(mine) + LaunchSteps(id, confirmation, dispatch, remote, reply, recovery, asked, again, now)
      ensures var p := LaunchPatch(confirmation, dispatch, now);
              p.Some? ==> Includes(trace, from, TransitionStep(id, {Preparing}, p.value))
      ensures SourceFails(confirmation, dispatch, reply, asked) ==> Includes(trace, from, SourceStep(id, now))
      ensures (confirmation == Confirmed && dispatch.Launched?
               ==> Includes(trace, from, TerminalStep(id, dispatch.terminal)))
    {
      asked, again := None, None;
      if confirmation == SourceChanged || (confirmation == Confirmed && dispatch == Refused) {
        r := Settle(id, FAIL_SOURCE.(endedAt := Set(Some(now))), from);
      } else if confirmation != Confirmed {
        r := Settle(id, FAIL_START.(endedAt := Set(Some(now))), from);
      } else {
        r, asked, again := AfterDispatch(id, dispatch, remote, reply, recovery, now, from);
      }
    }

    /** A transition out of preparing followed by a fresh read. */
    method Settle(id: RunId, p: Patch, ghost from: nat) returns (r: Result<FileRun, ManagerError>)
      requires Valid() && from <= |trace| && p.state.Set? && LawfulPatch({Preparing}, p) && id in Run(trace).born
      modifies this, store, store.activity
      ensures Valid() && old(trace) <= trace
      ensures r.Ok? ==> Seen(trace, from, id, r.value)
      ensures r.Ok? && p.state.value != Preparing ==> r.value.life.state != Preparing
      ensures Includes(trace, from, TransitionStep(id, {Preparing}, p))
      ensures mine == old(mine) + [TransitionStep(id, {Preparing}, p)]
    {
      ghost var before := trace;
      Transition(id, {Preparing}, p);
      Interfere();
      IncludesLast(before, trace, from, TransitionStep(id, {Preparing}, p));
      r := Get(id, from);
      if r.Ok? && p.state.value != Preparing {
        NeverBelow(before, trace, id, {Preparing}, p, 1);
      }
    }

    /** The backend has been asked to start the run; every further step only observes. */
    method AfterDispatch(id: RunId, dispatch: Dispatch, remote: bool, reply: Reply,
                         recovery: Reply, now: int, ghost from: nat)
      returns (r: Result<FileRun, ManagerError>, ghost asked: Option<FileRun>, ghost again: Option<FileRun>)
      requires Valid() && from <= |trace| && dispatch != Refused && id in Run(trace).born
      modifies this, store, store.activity
      ensures Valid() && old(trace) <= trace
      ensures r.Ok? ==> Seen(trace, from, id, r.value)
      ensures r.Ok? && !remote && (dispatch.DispatchRaised? || reply.BackendRaised?) ==> r.value.life.state != Preparing
      ensures r.Ok? && dispatch.Launched? && reply.InvalidReply? ==> r.value.life.state != Preparing
      ensures dispatch.Launched? ==> Includes(trace, from, TerminalStep(id, dispatch.terminal))
      ensures dispatch.DispatchRaised? && RecoverPatch(remote, recovery, now).Some? ==>
                Includes(trace, from, TransitionStep(id, {Preparing}, RecoverPatch(remote, recovery, now).value))
      ensures asked.Some? ==> Seen(trace, from, id, asked.value) && IsActive(asked.value)
      ensures dispatch.Launched? && asked.None? ==> r == Err(UnknownRun) || (r.Ok? && !IsActive(r.value))
      ensures mine == old(mine) + DispatchSteps(id, dispatch, remote, reply, recovery, asked, again, now)
      ensures dispatch.Launched? && reply.InvalidReply? && asked.Some? ==> Includes(trace, from, SourceStep(id, now))
    {
      if dispatch.Launched? {
        r, asked, again := AfterLaunch(id, dispatch.terminal, remote, reply, recovery, now, from);
      } else {
        asked := None;
        r, again := Recover(id, remote, recovery, now, from);
      }
    }

    /** The backend returned a Terminal: link it, observe once, and handle what that raises. */
    method AfterLaunch(id: RunId, terminal: TerminalId, remote: bool, reply: Reply, recovery: Reply, now: int,
                       ghost from: nat)
      returns (r: Result<FileRun, ManagerError>, ghost asked: Option<FileRun>, ghost again: Option<FileRun>)
      requires Valid() && from <= |trace| && id in Run(trace).born
      modifies this, store, store.activity
      ensures Valid() && old(trace) <= trace
      ensures r.Ok? ==> Seen(trace, from, id, r.value)
      ensures r.Ok? && !remote && reply.BackendRaised? ==> r.value.life.state != Preparing
      ensures r.Ok? && reply.InvalidReply? ==> r.value.life.state != Preparing
      ensures Includes(trace, from, TerminalStep(id, terminal))
      ensures asked.Some? ==> Seen(trace, from, id, asked.value) && IsActive(asked.value)
      ensures asked.None? ==> r == Err(UnknownRun) || (r.Ok? && !IsActive(r.value))
      ensures mine == old(mine) + DispatchSteps(id, Launched(terminal), remote, reply, recovery, asked, again, now)
      ensures reply.InvalidReply? && asked.Some? ==> Includes(trace, from, SourceStep(id, now))
    {
      var report;
      report, asked := LinkAndReconcile(id, terminal, reply, now, from);
      BornLater(old(trace), trace, id);
      ghost var linked := trace;
      r, again := AfterReport(id, report, remote, recovery, now, from);
      LaunchedSteps(old(mine), id, terminal, remote, reply, recovery, asked, again, report, now);
      LinkedLater(linked, trace, from, id, terminal, asked);
    }

    /** What the handlers make of the observation right after a start. */
    method AfterReport(id: RunId, report: Result<Report, ManagerError>, remote: bool, recovery: Reply, now: int,
                       ghost from: nat)
      returns (r: Result<FileRun, ManagerError>, ghost again: Option<FileRun>)
      requires Valid() && from <= |trace| && id in Run(trace).born
      requires report.Ok? ==> Seen(trace, from, id, report.value.run)
      modifies this, store, store.activity
      ensures Valid() && old(trace) <= trace
      ensures r.Ok? ==> Seen(trace, from, id, r.value)
      ensures report.Ok? ==> r == Ok(report.value.run)
      ensures r.Ok? && report.Err? && !(remote && report.error == BackendError) ==> r.value.life.state != Preparing
      // The handler for a changed source catches an invalid observation too.
      ensures report == Err(InvalidObservation) ==>
        Includes(trace, from, TransitionStep(id, {Preparing}, FAIL_SOURCE.(endedAt := Set(Some(now)))))
      ensures report == Err(BackendError) && RecoverPatch(remote, recovery, now).Some? ==>
        Includes(trace, from, TransitionStep(id, {Preparing}, RecoverPatch(remote, recovery, now).value))
      // Any other error is passed on.
      ensures report.Err? && report.error != InvalidObservation && report.error != BackendError ==> r == Err(report.error)
      ensures mine == old(mine) + AfterReportSteps(id, report, remote, recovery, again, now)
    {
      again := None;
      if report.Ok? {
        r := Ok(report.value.run);
      } else if report.error == InvalidObservation {
        r := Settle(id, FAIL_SOURCE.(endedAt := Set(Some(now))), from);
      } else if report.error == BackendError {
        r, again := Recover(id, remote, recovery, now, from);
      } else {
        r := Err(report.error);
      }
    }

    /** After a start that returned: remember its Terminal and observe the run once. */
    method LinkAndReconcile(id: RunId, terminal: TerminalId, reply: Reply, now: int, ghost from: nat)
      returns (report: Result<Report, ManagerError>, ghost asked: Option<FileRun>)
      requires Valid() && from <= |trace|
      modifies this, store, store.activity
      ensures Valid() && old(trace) <= trace && Includes(trace, from, TerminalStep(id, terminal))
      ensures report.Ok? ==> Seen(trace, from, id, report.value.run)
      ensures report.Ok? && (reply.BackendRaised? || reply.InvalidReply?) ==> !IsActive(report.value.run)
      ensures asked.Some? ==> Seen(trace, from, id, asked.value) && IsActive(asked.value)
      ensures asked.None? ==> report == Err(UnknownRun) || (report.Ok? && !IsActive(report.value.run))
      ensures report == Err(BackendError) <==> asked.Some? && reply.BackendRaised?
      ensures report == Err(InvalidObservation) <==> asked.Some? && reply.InvalidReply?
      ensures mine == old(mine) + [TerminalStep(id, terminal)] + ReconcileSteps(id, asked, reply, now)
    {
      ghost var before := trace;
      var _ := store.SetTerminal(id, terminal);
      Record(TerminalStep(id, terminal));
      Interfere();
      report, asked := Reconcile(id, reply, now, from);
      IncludesLast(before, trace, from, TerminalStep(id, terminal));
    }

    /** A failed dispatch: only a remote backend that does not report the run as lost leaves it undecided. */
    method Recover(id: RunId, remote: bool, recovery: Reply, now: int, ghost from: nat)
      returns (r: Result<FileRun, ManagerError>, ghost again: Option<FileRun>)
      requires Valid() && from <= |trace| && id in Run(trace).born
      modifies this, store, store.activity
      ensures Valid() && old(trace) <= trace
      ensures r.Ok? ==> Seen(trace, from, id, r.value)
      ensures r.Ok? && (!remote || (recovery.Observed? && recovery.o.state == Some(Lost)))
              ==> r.value.life.state != Preparing
      ensures r.Ok? && remote && recovery.Observed? ==> Rank(r.value.life.state) >= RecoveryRank(recovery.o)
      ensures remote && recovery.InvalidReply? ==> r == Err(InvalidObservation) && trace == old(trace)
      ensures var p := RecoverPatch(remote, recovery, now);
              p.Some? ==> Includes(trace, from, TransitionStep(id, {Preparing}, p.value))
      ensures mine == old(mine) + RecoverSteps(id, remote, recovery, again, now)
    {
      again := None;
      if !remote || (recovery.Observed? && recovery.o.state == Some(Lost)) {
        r := Settle(id, FAIL_START.(endedAt := Set(Some(now))), from);
      } else if recovery.Observed? {
        r, again := ObserveOnce(id, recovery.o, now, from);
      } else if recovery.InvalidReply? {
        r := Err(InvalidObservation);
      } else {
        r := Settle(id, START_UNKNOWN, from);
      }
    }

    /** Read the run, apply one observation, and read it again. */
    method ObserveOnce(id: RunId, o: Observation, now: int, ghost from: nat)
      returns (r: Result<FileRun, ManagerError>, ghost again: Option<FileRun>)
      requires Valid() && from <= |trace| && id in Run(trace).born
      modifies this, store, store.activity
      ensures Valid() && old(trace) <= trace
      ensures r.Ok? ==> Seen(trace, from, id, r.value) && Rank(r.value.life.state) >= ReplyRank(Observed(o))
      ensures mine == old(mine) + if again.Some? then ObservationSteps(id, again.value, o, now) else []
    {
      again := None;
      r := Get(id, from);
      if r.Ok? {
        again := Some(r.value);
        if IsActive(r.value) {
          r := ApplyAndRead(id, r.value, o, now, from);
        } else {
          r := RereadTerminal(id, r.value, from);
        }
      }
    }

    /** An observation of a run that is already terminal changes nothing. */
    method RereadTerminal(id: RunId, run: FileRun, ghost from: nat) returns (r: Result<FileRun, ManagerError>)
      requires Valid() && from <= |trace| && id in store.runs && store.runs[id] == run && !IsActive(run)
      modifies this, store, store.activity
      ensures Valid() && old(trace) <= trace
      ensures r.Ok? ==> Seen(trace, from, id, r.value) && r.value.life == run.life
      ensures mine == old(mine)
    {
      Interfere();
      r := Get(id, from);
      if r.Ok? {
        assert trace[..|old(trace)|] == old(trace) && trace[..|trace|] == trace;
        LifecycleOnlyMovesForward(trace, |old(trace)|, id);
      }
    }
  }

  /**
   A start that the backend carried out and that is recorded as a changed source:
   its run is claimed and linked to the started Terminal, and the first
   observation is invalid while the run is still preparing.
  */
  lemma StartedRunMayFailAsChangedSource(id: RunId, ws: WorkspaceId, key: string, request: Request,
                                         terminal: TerminalId, now: int)
    ensures var trace := [ClaimStep(id, ws, key, request, now), TerminalStep(id, terminal)] + [SourceStep(id, now)];
            && AllLawful(trace) && id in Run(trace).store.runs
            && Run(trace).store.runs[id].terminal == Some(terminal)
            && Run(trace).store.runs[id].life.state == Failed
            && Run(trace).store.runs[id].life.errorCode == Some("source_changed")
    ensures var run := FileRun(ws, key, request, now, Some(terminal), FRESH_LIFE);
            [TerminalStep(id, terminal)] + [SourceStep(id, now)]
            == LaunchSteps(id, Confirmed, Launched(terminal), false, InvalidReply, Offline, Some(run), None, now)
            && IsActive(run)
            && Run([ClaimStep(id, ws, key, request, now), TerminalStep(id, terminal)]).store.runs == map[id := run]
  {
    var claim, link := ClaimStep(id, ws, key, request, now), TerminalStep(id, terminal);
    var claimed, linked := [claim], [claim, link];
    assert claimed == [] + [claim] && linked == claimed + [link];
    RunExtended([], claim);
    RunExtended(claimed, link);
    RunExtended(linked, SourceStep(id, now));
    assert linked[..1] == claimed && claimed[..0] == [];
    assert (linked + [SourceStep(id, now)])[..2] == linked;
    LawfulExtended([], claim);
    LawfulExtended(claimed, link);
    LawfulExtended(linked, SourceStep(id, now));
    assert Run(claimed).store.runs == map[id := FileRun(ws, key, request, now, None, FRESH_LIFE)];
  }

  lemma LawfulExtended(before: seq<Step>, step: Step)
    requires AllLawful(before) && Lawful(Run(before), step)
    ensures AllLawful(before + [step])
  {
    assert (before + [step])[..|before|] == before;
  }

  /** A failure is applied as such, so it moves a preparing run at most out of preparing. */
  function RecoveryRank(o: Observation): nat {
    if o.state == Some(Lost) then 1 else ReplyRank(Observed(o))
  }

  /** The starts that may leave a run preparing: dispatched, and not refused or failed in a way that decides it. */
  predicate Undecided(confirmation: Confirmation, dispatch: Dispatch, remote: bool, reply: Reply) {
    && confirmation == Confirmed && dispatch != Refused
    && !(dispatch.Launched? && reply.InvalidReply?)
    && (remote || (dispatch.Launched? && !reply.BackendRaised?))
  }
}
