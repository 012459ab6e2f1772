/**
 The `file_runs` table: claiming the single active slot of a Workspace,
 compare-and-set lifecycle transitions that emit one Activity event, and pruning.

 `Store` is the content of the tables involved, the functions on it are the SQL
 transactions, and class `FileRunStore` performs them. `Run` plays any
 interleaving of transactions; its invariants are the safety of the lifecycle.
*/
module FileRuns {
  import opened Wrappers
  import A = ActivityLog

  type RunId = string
  type WorkspaceId = string
  type TerminalId = string

  datatype RunState = Preparing | Running | Finished | Stopped | Failed | Lost

  predicate IsTerminal(s: RunState) {
    s != Preparing && s != Running
  }

  function Rank(s: RunState): nat {
    match s case Preparing => 0 case Running => 1 case _ => 2
  }

  /** What a retry with the same idempotency key must repeat exactly. */
  datatype Request = Request(path: string, digest: string, runnerId: string, runnerVersion: int, argv: seq<string>)

  /** The columns `transition_file_run` may assign, and the revision it counts. */
  datatype Lifecycle = Lifecycle(
    state: RunState,
    revision: nat,
    startedAt: Option<int>,
    stopRequestedAt: Option<int>,
    endedAt: Option<int>,
    exitCode: Option<int>,
    errorCode: Option<string>,
    errorDetail: Option<string>)

  datatype FileRun = FileRun(
    workspace: WorkspaceId,
    key: string,
    request: Request,
    createdAt: int,
    terminal: Option<TerminalId>,
    life: Lifecycle)

  datatype Store = Store(runs: map<RunId, FileRun>, log: A.Log, managed: set<RunId>)

  // ----------------------------------------------------------------- claims

  predicate IsActive(run: FileRun) {
    !IsTerminal(run.life.state)
  }

  predicate KeyTaken(runs: map<RunId, FileRun>, ws: WorkspaceId, key: string) {
    exists id :: id in runs && runs[id].workspace == ws && runs[id].key == key
  }

  predicate SlotTaken(runs: map<RunId, FileRun>, ws: WorkspaceId) {
    exists id :: id in runs && runs[id].workspace == ws && IsActive(runs[id])
  }

  const FRESH_LIFE := Lifecycle(Preparing, 0, None, None, None, None, None, None)

  function Claimed(s: Store, id: RunId, ws: WorkspaceId, key: string, request: Request, now: int): Store {
    if KeyTaken(s.runs, ws, key) || SlotTaken(s.runs, ws) || id in s.runs then s
    else s.(runs := s.runs[id := FileRun(ws, key, request, now, None, FRESH_LIFE)])
  }

  datatype ClaimResult =
    | Created(run: FileRun)
    | Idempotent(id: RunId, run: FileRun)
    | Occupied(id: RunId, run: FileRun)
    | KeyReused
    | DuplicateId

  // ------------------------------------------------------------ transitions

  datatype Change<T> = Keep | Set(value: T)

  datatype Patch = Patch(
    state: Change<RunState>,
    startedAt: Change<Option<int>>,
    stopRequestedAt: Change<Option<int>>,
    endedAt: Change<Option<int>>,
    exitCode: Change<Option<int>>,
    errorCode: Change<Option<string>>,
    errorDetail: Change<Option<string>>)

  const NO_CHANGE := Patch(Keep, Keep, Keep, Keep, Keep, Keep, Keep)

  function Pick<T>(change: Change<T>, current: T): T {
    match change case Keep => current case Set(v) => v
  }

  function Patched(life: Lifecycle, p: Patch): Lifecycle {
    Lifecycle(
      Pick(p.state, life.state), life.revision + 1,
      Pick(p.startedAt, life.startedAt), Pick(p.stopRequestedAt, life.stopRequestedAt),
      Pick(p.endedAt, life.endedAt), Pick(p.exitCode, life.exitCode),
      Pick(p.errorCode, life.errorCode), Pick(p.errorDetail, life.errorDetail))
  }

  /** A column is assigned or left alone. */
  predicate Assigned<T(==)>(change: Change<T>, before: T, after: T) {
    (change.Keep? ==> after == before) && (change.Set? ==> after == change.value)
  }

  /** What a successful transition writes. */
  ghost predicate Writes(p: Patch, before: Lifecycle, after: Lifecycle) {
    && after.revision == before.revision + 1
    && Assigned(p.state, before.state, after.state)
    && Assigned(p.startedAt, before.startedAt, after.startedAt)
    && Assigned(p.stopRequestedAt, before.stopRequestedAt, after.stopRequestedAt)
    && Assigned(p.endedAt, before.endedAt, after.endedAt)
    && Assigned(p.exitCode, before.exitCode, after.exitCode)
    && Assigned(p.errorCode, before.errorCode, after.errorCode)
    && Assigned(p.errorDetail, before.errorDetail, after.errorDetail)
  }

  predicate Applies(s: Store, id: RunId, expected: set<RunState>, p: Patch) {
    p != NO_CHANGE && id in s.runs && s.runs[id].life.state in expected
  }

  function Duration(life: Lifecycle): Option<int> {
    if life.startedAt.None? || life.endedAt.None? then None
    else
      var d := life.endedAt.value - life.startedAt.value;
      Some(if d < 0 then 0 else d)
  }

  /**
   What an event says of the ended run it names: everyone is notified of a run
   that did not succeed, and of one that took half a minute to succeed.
  */
  ghost predicate Tells(run: FileRun, e: A.Event) {
    var life := run.life;
    && e.revision == life.revision
    && life.endedAt == Some(e.occurredAt)
    && (life.state in {Stopped, Failed, Lost} ==> e.notify)
    && (life.state == Finished && life.exitCode != Some(0) ==> e.notify)
    && (life.state == Finished && life.exitCode == Some(0)
        ==> (e.notify <==> life.startedAt.Some? && e.occurredAt - life.startedAt.value >= 30))
  }

  /** The notify flag and time `_insert_file_run_event` derives from a terminal run. */
  function EventFor(id: RunId, run: FileRun): A.Event
    requires !IsActive(run)
  {
    var life := run.life;
    var notify :=
      if life.state == Finished then
        life.exitCode != Some(0) || (Duration(life).Some? && Duration(life).value >= 30)
      else true;
    var occurredAt := if life.endedAt.Some? then life.endedAt.value else run.createdAt;
    A.Event(A.FileRunSubject(id), life.revision, notify, occurredAt)
  }

  function Transitioned(s: Store, id: RunId, expected: set<RunState>, p: Patch): Store {
    if !Applies(s, id, expected, p) then s
    else
      var before := s.runs[id];
      var after := before.(life := Patched(before.life, p));
      var log := if IsActive(before) && !IsActive(after) then A.InsertEvent(s.log, EventFor(id, after)) else s.log;
      s.(runs := s.runs[id := after], log := log)
  }

  function WithTerminal(s: Store, id: RunId, terminal: TerminalId): Store {
    if id in s.runs && IsActive(s.runs[id])
    then s.(runs := s.runs[id := s.runs[id].(terminal := Some(terminal))])
    else s
  }

  // ----------------------------------------------------------------- pruning

  predicate HasRunEvent(log: A.Log, id: RunId) {
    exists e :: e in log.events && log.events[e].subject == A.FileRunSubject(id)
  }

  predicate Expired(id: RunId, run: FileRun, log: A.Log, managed: set<RunId>, now: int) {
    && !IsActive(run)
    && (if run.life.endedAt.Some? then run.life.endedAt.value else run.createdAt) < now - A.EVENT_RETENTION
    && id !in managed
    && !HasRunEvent(log, id)
  }

  function Pruned(s: Store, now: int): Store {
    var log := A.Cleanup(s.log, now);
    s.(log := log, runs := map id | id in s.runs && !Expired(id, s.runs[id], log, s.managed, now) :: s.runs[id])
  }

  function WithoutWorkspace(s: Store, ws: WorkspaceId): Store {
    s.(runs := map id | id in s.runs && s.runs[id].workspace != ws :: s.runs[id])
  }

  /** Terminal rows appear, disappear and change owner; a removed row is unlinked from its run. */
  function WithTerminals(s: Store, managed: set<RunId>, removed: set<TerminalId>): Store {
    s.(managed := managed,
       runs := map id | id in s.runs ::
         var run := s.runs[id];
         if run.terminal.Some? && run.terminal.value in removed then run.(terminal := None) else run)
  }

  // --------------------------------------------------------- the store class

  class FileRunStore {
    var runs: map<RunId, FileRun>
    var managed: set<RunId>
    const activity: A.ActivityStore

    ghost function Contents(): Store
      reads this, activity
    {
      Store(runs, activity.Contents(), managed)
    }

    constructor ()
      ensures Contents() == START.store && fresh(activity)
    {
      runs, managed := map[], {};
      activity := new A.ActivityStore();
    }

    /** `claim_file_run`, with the caller's fresh run id. */
    method Claim(id: RunId, ws: WorkspaceId, key: string, request: Request, now: int) returns (result: ClaimResult)
      modifies this
      ensures Contents() == Claimed(old(Contents()), id, ws, key, request, now)
      ensures runs == if result.Created? then old(runs)[id := result.run] else old(runs)
      ensures match result
              case Created(run) => id !in old(runs) && id in runs && runs[id] == run && run.life == FRESH_LIFE
                && run == FileRun(ws, key, request, now, None, Lifecycle(Preparing, 0, None, None, None, None, None, None))
                && (forall e :: e in old(runs) && old(runs)[e].workspace == ws ==>
                      old(runs)[e].key != key && old(runs)[e].life.state !in {Preparing, Running})
              case Idempotent(e, run) => e in old(runs) && old(runs)[e] == run
                && run.workspace == ws && run.key == key && run.request == request
              case Occupied(e, run) => e in old(runs) && old(runs)[e] == run && run.workspace == ws && IsActive(run)
                && !KeyTaken(old(runs), ws, key)
              case KeyReused =>
                exists e :: e in old(runs) && old(runs)[e].workspace == ws && old(runs)[e].key == key
                  && old(runs)[e].request != request
              case DuplicateId => id in old(runs) && !KeyTaken(old(runs), ws, key) && !SlotTaken(old(runs), ws)
    {
      if e :| e in runs && runs[e].workspace == ws && runs[e].key == key {
        return if runs[e].request != request then KeyReused else Idempotent(e, runs[e]);
      }
      if e :| e in runs && runs[e].workspace == ws && IsActive(runs[e]) {
        return Occupied(e, runs[e]);
      }
      if id in runs {
        return DuplicateId;
      }
      var run := FileRun(ws, key, request, now, None, FRESH_LIFE);
      runs := runs[id := run];
      return Created(run);
    }

    /** `transition_file_run`; an empty expectation is an error, a lost race is `Ok(false)`. */
    method Transition(id: RunId, expected: set<RunState>, p: Patch) returns (r: Result<bool, string>)
      modifies this, activity
      ensures expected == {} ==> r.Err? && Contents() == old(Contents())
      ensures expected != {} ==>
        r == Ok(old(Applies(Contents(), id, expected, p))) && Contents() == Transitioned(old(Contents()), id, expected, p)
      ensures r == Ok(true) <==> expected != {} && p != NO_CHANGE && id in old(runs) && old(runs)[id].life.state in expected
      ensures r != Ok(true) ==> Contents() == old(Contents())
      ensures r == Ok(true) ==>
        && id in runs && runs == old(runs)[id := old(runs)[id].(life := runs[id].life)]
        && Writes(p, old(runs)[id].life, runs[id].life)
    {
      if expected == {} {
        return Err("Invalid expected File Run states");
      }
      if p == NO_CHANGE {
        return Ok(false);
      }
      if id !in runs || runs[id].life.state !in expected {
        return Ok(false);
      }
      var before := runs[id];
      var after := before.(life := Patched(before.life, p));
      runs := runs[id := after];
      if IsActive(before) && !IsActive(after) {
        activity.Insert(EventFor(id, after));
      }
      return Ok(true);
    }

    /** `set_file_run_terminal`. */
    method SetTerminal(id: RunId, terminal: TerminalId) returns (ok: bool)
      modifies this
      ensures ok == (id in old(runs) && IsActive(old(runs)[id]))
      ensures Contents() == WithTerminal(old(Contents()), id, terminal)
      ensures runs == if id in old(runs) && old(runs)[id].life.state in {Preparing, Running}
                      then old(runs)[id := old(runs)[id].(terminal := Some(terminal))] else old(runs)
    {
      ok := id in runs && IsActive(runs[id]);
      if ok {
        runs := runs[id := runs[id].(terminal := Some(terminal))];
      }
    }

    /** `prune_history`: events and devices first, then the runs nothing refers to any more. */
    method Prune(now: int, monotonic: int) returns (removed: set<RunId>)
      modifies this, activity
      ensures Contents() == Pruned(old(Contents()), now)
      ensures removed == old(runs).Keys - runs.Keys && forall id :: id in runs ==> id in old(runs) && runs[id] == old(runs)[id]
      ensures forall id :: id in removed <==>
        && id in old(runs) && old(runs)[id].life.state in {Finished, Stopped, Failed, Lost} && id !in managed
        && (if old(runs)[id].life.endedAt.Some? then old(runs)[id].life.endedAt.value else old(runs)[id].createdAt) < now - 2592000
        && !(exists e :: e in activity.events && activity.events[e].subject == A.FileRunSubject(id))
    {
      ghost var s := Contents();
      activity.CleanupHistory(now, monotonic, true);
      var events := activity.events;
      removed := set id | id in runs
        && !IsActive(runs[id])
        && (if runs[id].life.endedAt.Some? then runs[id].life.endedAt.value else runs[id].createdAt) < now - A.EVENT_RETENTION
        && id !in managed
        && !(exists e :: e in events && events[e].subject == A.FileRunSubject(id));
      ghost var log := A.Cleanup(s.log, now);
      assert forall id :: id in s.runs ==> (id in removed <==> Expired(id, s.runs[id], log, s.managed, now));
      runs := map id | id in runs && id !in removed :: runs[id];
      assert runs == Pruned(s, now).runs;
    }
  }

  // ---------------------------------------------------- runs of transactions

  datatype Step =
    | ClaimStep(id: RunId, ws: WorkspaceId, key: string, request: Request, now: int)
    | TransitionStep(id: RunId, expected: set<RunState>, patch: Patch)
    | TerminalStep(id: RunId, terminal: TerminalId)
    | PruneStep(now: int)
    | TerminalsStep(managed: set<RunId>, removed: set<TerminalId>)
    | RemoveWorkspaceStep(ws: WorkspaceId)
    | ActivityStep(step: A.Step)

  /**
   A store, every run id it ever issued, every File Run event ever written, and
   the runs that were deleted together with their Workspace.
  */
  datatype History = History(store: Store, born: set<RunId>, emitted: multiset<RunId>, orphaned: set<RunId>)

  const START := History(Store(map[], A.EMPTY_LOG, {}), {}, multiset{}, {})

  function NextStore(s: Store, step: Step): Store {
    match step
    case ClaimStep(id, ws, key, request, now) => Claimed(s, id, ws, key, request, now)
    case TransitionStep(id, expected, p) => Transitioned(s, id, expected, p)
    case TerminalStep(id, terminal) => WithTerminal(s, id, terminal)
    case PruneStep(now) => Pruned(s, now)
    case TerminalsStep(managed, removed) => WithTerminals(s, managed, removed)
    case RemoveWorkspaceStep(ws) => WithoutWorkspace(s, ws)
    case ActivityStep(a) => s.(log := A.After(A.History(s.log, map[], map[]), a).log)
  }

  function After(h: History, step: Step): History {
    var store := NextStore(h.store, step);
    History(
      store,
      h.born + store.runs.Keys,
      // A transition that changes the log has inserted the event of its run.
      if step.TransitionStep? && store.log != h.store.log then h.emitted + multiset{step.id} else h.emitted,
      if step.RemoveWorkspaceStep? then h.orphaned + (h.store.runs.Keys - store.runs.Keys) else h.orphaned)
  }

  function Run(steps: seq<Step>): History {
    if steps == [] then START else After(Run(steps[..|steps| - 1]), steps[|steps| - 1])
  }

  /** The transitions the File Run manager ever requests. */
  predicate LawfulPatch(expected: set<RunState>, p: Patch) {
    && expected != {}
    && expected <= {Preparing, Running}
    && (p.state.Set? && p.state.value == Preparing ==> expected == {Preparing})
    && (p.state.Set? && IsTerminal(p.state.value) ==> p.endedAt.Set? && p.endedAt.value.Some?)
  }

  /**
   Run ids are fresh, transitions are the manager's, and only transitions write
   File Run events.
  */
  predicate Lawful(h: History, step: Step) {
    match step
    case ClaimStep(id, _, _, _, _) => id !in h.born
    case TransitionStep(_, expected, p) => LawfulPatch(expected, p)
    case ActivityStep(a) => a.InsertStep? ==> a.event.subject.RemoteRunSubject?
    case _ => true
  }

  predicate AllLawful(steps: seq<Step>) {
    steps == [] || (AllLawful(steps[..|steps| - 1]) && Lawful(Run(steps[..|steps| - 1]), steps[|steps| - 1]))
  }

  // -------------------------------------------------------------- invariants

  ghost predicate OneActivePerWorkspace(runs: map<RunId, FileRun>) {
    forall a, b :: (a in runs && b in runs && runs[a].workspace == runs[b].workspace
                    && IsActive(runs[a]) && IsActive(runs[b])) ==> a == b
  }

  ghost predicate OneRunPerKey(runs: map<RunId, FileRun>) {
    forall a, b :: (a in runs && b in runs && runs[a].workspace == runs[b].workspace
                    && runs[a].key == runs[b].key) ==> a == b
  }

  /** An active run has written no event, a finished one exactly one; no id ever writes two. */
  ghost predicate OneEventPerRun(h: History) {
    && (forall id :: id in h.store.runs ==> h.emitted[id] == if IsActive(h.store.runs[id]) then 0 else 1)
    && (forall id :: h.emitted[id] <= 1)
    && (forall id :: id !in h.born ==> h.emitted[id] == 0)
  }

  /** The File Run events in the log were written by the history, for the revision the run stopped at. */
  ghost predicate EventsMatchRuns(h: History) {
    forall e, id :: e in h.store.log.events && h.store.log.events[e].subject == A.FileRunSubject(id) ==>
      h.emitted[id] == 1
      && (id in h.store.runs ==> h.store.log.events[e].revision == h.store.runs[id].life.revision)
  }

  /** Every File Run event names a finished run that is still there, unless its whole Workspace went. */
  ghost predicate EventsHaveRuns(h: History) {
    forall e, id :: e in h.store.log.events && h.store.log.events[e].subject == A.FileRunSubject(id) ==>
      id in h.orphaned || (id in h.store.runs && !IsActive(h.store.runs[id]))
  }

  ghost predicate Good(h: History) {
    && EventsHaveRuns(h)
    && h.store.runs.Keys <= h.born
    && OneActivePerWorkspace(h.store.runs)
    && OneRunPerKey(h.store.runs)
    && OneEventPerRun(h)
    && EventsMatchRuns(h)
  }

  /** What no step ever does to a run that is retained across it. */
  ghost predicate Evolves(a: FileRun, b: FileRun) {
    && b.workspace == a.workspace && b.key == a.key && b.request == a.request && b.createdAt == a.createdAt
    && Rank(a.life.state) <= Rank(b.life.state)
    && (!IsActive(a) ==> b.life == a.life)
    && a.life.revision <= b.life.revision
    && (b.life != a.life ==> a.life.revision < b.life.revision)
  }

  // ------------------------------------------------------- single-step lemmas

  lemma ClaimKeepsGood(h: History, step: Step)
    requires Good(h) && Lawful(h, step) && step.ClaimStep?
    ensures Good(After(h, step))
  {
  }

  /** A transition that leaves the run active writes no event. */
  lemma ActiveTransitionKeepsGood(h: History, id: RunId, expected: set<RunState>, p: Patch)
    requires Good(h) && LawfulPatch(expected, p) && Applies(h.store, id, expected, p)
    requires IsActive(Transitioned(h.store, id, expected, p).runs[id])
    ensures Good(After(h, TransitionStep(id, expected, p)))
  {
    var h' := After(h, TransitionStep(id, expected, p));
    assert h'.store.log == h.store.log && h'.emitted == h.emitted && h'.store.runs.Keys == h.store.runs.Keys;
    assert h.born + h'.store.runs.Keys == h.born;
  }

  /** A transition that ends the run writes its one event. */
  lemma EndingTransitionKeepsGood(h: History, id: RunId, expected: set<RunState>, p: Patch)
    requires Good(h) && LawfulPatch(expected, p) && Applies(h.store, id, expected, p)
    requires !IsActive(Transitioned(h.store, id, expected, p).runs[id])
    ensures Good(After(h, TransitionStep(id, expected, p)))
  {
    var h' := After(h, TransitionStep(id, expected, p));
    var after := h'.store.runs[id];
    assert IsActive(h.store.runs[id]) && h.emitted[id] == 0;
    assert !A.HasEvent(h.store.log.events, A.FileRunSubject(id), after.life.revision);
    assert h'.store.log != h.store.log;
    assert h'.emitted == h.emitted + multiset{id};
    assert h.born + h'.store.runs.Keys == h.born;
  }

  lemma TransitionKeepsGood(h: History, id: RunId, expected: set<RunState>, p: Patch)
    requires Good(h) && LawfulPatch(expected, p)
    ensures Good(After(h, TransitionStep(id, expected, p)))
  {
    if Applies(h.store, id, expected, p) {
      if IsActive(Transitioned(h.store, id, expected, p).runs[id]) {
        ActiveTransitionKeepsGood(h, id, expected, p);
      } else {
        EndingTransitionKeepsGood(h, id, expected, p);
      }
    } else {
      assert h.born + h.store.runs.Keys == h.born;
    }
  }

  /** No File Run event was added. */
  ghost predicate OnlyOldRunEvents(log: A.Log, log': A.Log) {
    forall e, id :: e in log'.events && log'.events[e].subject == A.FileRunSubject(id) ==>
      e in log.events && log.events[e] == log'.events[e]
  }

  lemma FewerEventsKeepGood(h: History, h': History)
    requires Good(h) && OnlyOldRunEvents(h.store.log, h'.store.log)
    requires h' == h.(store := h.store.(log := h'.store.log))
    ensures Good(h')
  {
  }

  /** Dropping finished runs that no event names. */
  lemma FewerRunsKeepGood(h: History, h': History)
    requires Good(h) && h' == h.(store := h.store.(runs := h'.store.runs))
    requires forall id :: id in h'.store.runs ==> id in h.store.runs && h'.store.runs[id] == h.store.runs[id]
    requires forall id :: id in h.store.runs && id !in h'.store.runs ==> !HasRunEvent(h.store.log, id)
    ensures Good(h')
  {
    forall e, id | e in h'.store.log.events && h'.store.log.events[e].subject == A.FileRunSubject(id)
      ensures id in h'.orphaned || id in h'.store.runs
    {
      assert HasRunEvent(h.store.log, id);
    }
  }

  lemma PruneKeepsGood(h: History, now: int)
    requires Good(h)
    ensures Good(After(h, PruneStep(now)))
  {
    var cleaned := h.(store := h.store.(log := A.Cleanup(h.store.log, now)));
    FewerEventsKeepGood(h, cleaned);
    var h' := After(h, PruneStep(now));
    assert h.born + h'.store.runs.Keys == h.born;
    FewerRunsKeepGood(cleaned, h');
  }

  lemma WorkspaceRemovalKeepsGood(h: History, ws: WorkspaceId)
    requires Good(h)
    ensures Good(After(h, RemoveWorkspaceStep(ws)))
  {
  }

  lemma TerminalChangeKeepsGood(h: History, step: Step)
    requires Good(h) && (step.TerminalStep? || step.TerminalsStep?)
    ensures Good(After(h, step))
  {
    var h' := After(h, step);
    assert h'.store.log == h.store.log && h'.emitted == h.emitted && h'.store.runs.Keys == h.store.runs.Keys;
    assert forall id :: id in h.store.runs ==>
      h'.store.runs[id].(terminal := None) == h.store.runs[id].(terminal := None);
  }

  /** Inserting events of Remote Runs, polling and cleaning leave no new File Run event. */
  lemma ActivityOnlyDropsRunEvents(h: History, step: Step, e: nat, id: RunId)
    requires Lawful(h, step) && step.ActivityStep?
    requires e in After(h, step).store.log.events
    requires After(h, step).store.log.events[e].subject == A.FileRunSubject(id)
    ensures e in h.store.log.events && h.store.log.events[e] == After(h, step).store.log.events[e]
  {
  }

  lemma ActivityKeepsGood(h: History, step: Step)
    requires Good(h) && Lawful(h, step) && step.ActivityStep?
    ensures Good(After(h, step))
  {
    var h' := After(h, step);
    assert h.born + h'.store.runs.Keys == h.born;
    forall e, id | e in h'.store.log.events && h'.store.log.events[e].subject == A.FileRunSubject(id)
      ensures e in h.store.log.events && h.store.log.events[e] == h'.store.log.events[e]
    {
      ActivityOnlyDropsRunEvents(h, step, e, id);
    }
    FewerEventsKeepGood(h, h');
  }

  lemma StepKeepsGood(h: History, step: Step)
    requires Good(h) && Lawful(h, step)
    ensures Good(After(h, step))
  {
    match step
    case ClaimStep(_, _, _, _, _) => ClaimKeepsGood(h, step);
    case TransitionStep(id, expected, p) => TransitionKeepsGood(h, id, expected, p);
    case PruneStep(now) => PruneKeepsGood(h, now);
    case ActivityStep(_) => ActivityKeepsGood(h, step);
    case RemoveWorkspaceStep(ws) => WorkspaceRemovalKeepsGood(h, ws);
    case _ => TerminalChangeKeepsGood(h, step);
  }

  lemma TransitionEvolves(s: Store, id: RunId, expected: set<RunState>, p: Patch, other: RunId)
    requires LawfulPatch(expected, p) && other in s.runs
    ensures other in Transitioned(s, id, expected, p).runs
    ensures Evolves(s.runs[other], Transitioned(s, id, expected, p).runs[other])
  {
  }

  lemma StepEvolves(h: History, step: Step, id: RunId)
    requires Good(h) && Lawful(h, step) && id in h.store.runs && id in After(h, step).store.runs
    ensures Evolves(h.store.runs[id], After(h, step).store.runs[id])
  {
    if step.TransitionStep? {
      TransitionEvolves(h.store, step.id, step.expected, step.patch, id);
    }
  }

  /** An id, once issued, never returns to the table after it has left it. */
  lemma StepNeverRevives(h: History, step: Step, id: RunId)
    requires Good(h) && Lawful(h, step) && id in h.born && id !in h.store.runs
    ensures id !in After(h, step).store.runs && id in After(h, step).born
  {
  }

  // ------------------------------------------------------------ the results

  /**
   Over every interleaving of lawful transactions: at most one active run per
   Workspace, at most one retained run per idempotency key, no event for an
   active run and exactly one for a finished one.
  */
  lemma {:induction false} EveryRunIsGood(steps: seq<Step>)
    requires AllLawful(steps)
    ensures Good(Run(steps))
  {
    if steps != [] {
      EveryRunIsGood(steps[..|steps| - 1]);
      StepKeepsGood(Run(steps[..|steps| - 1]), steps[|steps| - 1]);
    }
  }

  lemma {:induction false} PrefixIsLawful(steps: seq<Step>, n: nat)
    requires AllLawful(steps) && n <= |steps|
    ensures AllLawful(steps[..n])
    decreases |steps|
  {
    if n == |steps| {
      assert steps[..n] == steps;
    } else {
      var front := steps[..|steps| - 1];
      PrefixIsLawful(front, n);
      assert front[..n] == steps[..n];
    }
  }

  /**
   Absorption and monotonicity over any number of steps: while a run is
   retained its identity is fixed, its state never goes back, its revision grows
   with every change, and once terminal its lifecycle fields never change again.
  */
  lemma {:induction false} LifecycleOnlyMovesForward(steps: seq<Step>, n: nat, id: RunId)
    requires AllLawful(steps) && n <= |steps|
    requires id in Run(steps[..n]).store.runs && id in Run(steps).store.runs
    ensures Evolves(Run(steps[..n]).store.runs[id], Run(steps).store.runs[id])
    decreases |steps|
  {
    if n == |steps| {
      assert steps[..n] == steps;
    } else {
      var front := steps[..|steps| - 1];
      assert front[..n] == steps[..n];
      EveryRunIsGood(front);
      BornStaysBorn(front, n, id);
      if id !in Run(front).store.runs {
        StepNeverRevives(Run(front), steps[|steps| - 1], id);
      }
      LifecycleOnlyMovesForward(front, n, id);
      StepEvolves(Run(front), steps[|steps| - 1], id);
    }
  }

  lemma {:induction false} BornNeverForgotten(steps: seq<Step>, n: nat, id: RunId)
    requires n <= |steps| && id in Run(steps[..n]).born
    ensures id in Run(steps).born
    decreases |steps|
  {
    if n == |steps| {
      assert steps[..n] == steps;
    } else {
      var front := steps[..|steps| - 1];
      assert front[..n] == steps[..n];
      BornNeverForgotten(front, n, id);
    }
  }

  lemma BornStaysBorn(steps: seq<Step>, n: nat, id: RunId)
    requires AllLawful(steps) && n <= |steps| && id in Run(steps[..n]).store.runs
    ensures id in Run(steps).born
  {
    PrefixIsLawful(steps, n);
    EveryRunIsGood(steps[..n]);
    BornNeverForgotten(steps, n, id);
  }

  /** A run that was pruned, or went with its Workspace, never comes back under the same id. */
  lemma {:induction false} GoneStaysGone(steps: seq<Step>, n: nat, id: RunId)
    requires AllLawful(steps) && n <= |steps|
    requires id in Run(steps[..n]).born && id !in Run(steps[..n]).store.runs
    ensures id !in Run(steps).store.runs
    decreases |steps|
  {
    if n == |steps| {
      assert steps[..n] == steps;
    } else {
      var front := steps[..|steps| - 1];
      assert front[..n] == steps[..n];
      EveryRunIsGood(front);
      BornNeverForgotten(front, n, id);
      GoneStaysGone(front, n, id);
      StepNeverRevives(Run(front), steps[|steps| - 1], id);
    }
  }

  /**
   In every reachable state each File Run event opens its exact result: the run
   it names is still there, finished, at the revision of the event, unless it
   was deleted with its Workspace.
  */
  lemma EventsOpenTheirRuns(steps: seq<Step>, e: nat, id: RunId)
    requires AllLawful(steps)
    requires var log := Run(steps).store.log; e in log.events && log.events[e].subject == A.FileRunSubject(id)
    ensures var h := Run(steps);
            || id in h.orphaned
            || (id in h.store.runs && !IsActive(h.store.runs[id])
                && h.store.log.events[e].revision == h.store.runs[id].life.revision)
  {
    EveryRunIsGood(steps);
  }

  /** Runs that went with their Workspace are gone for good, so the exception is about nothing else. */
  lemma {:induction false} OrphanedRunsAreGone(steps: seq<Step>, id: RunId)
    requires AllLawful(steps) && id in Run(steps).orphaned
    ensures id in Run(steps).born && id !in Run(steps).store.runs
  {
    var front, step := steps[..|steps| - 1], steps[|steps| - 1];
    EveryRunIsGood(front);
    if id in Run(front).orphaned {
      OrphanedRunsAreGone(front, id);
      StepNeverRevives(Run(front), step, id);
    }
  }

  /**
   Pruning a reachable state drops only finished runs that no Terminal manages,
   and no run that a surviving event names.
  */
  lemma PruningIsSafe(steps: seq<Step>, now: int, id: RunId)
    requires AllLawful(steps) && id in Run(steps).store.runs
    ensures var s, s' := Run(steps).store, Pruned(Run(steps).store, now);
            && (id !in s'.runs ==> !IsActive(s.runs[id]) && id !in s.managed && !HasRunEvent(s'.log, id))
            && (forall e :: e in s'.log.events && s'.log.events[e].subject == A.FileRunSubject(id) ==>
                  id in s'.runs && s'.runs[id] == s.runs[id] && s'.log.events[e].revision == s.runs[id].life.revision)
  {
    EveryRunIsGood(steps);
  }

  /** A finished run whose event has been pruned is dropped by the next prune that finds it old and unmanaged. */
  lemma PruningIsComplete(s: Store, now: int, id: RunId)
    requires id in s.runs && !IsActive(s.runs[id]) && id !in s.managed
    requires s.runs[id].life.endedAt.Some? && s.runs[id].life.endedAt.value < now - A.EVENT_RETENTION
    ensures id in Pruned(s, now).runs <==>
      exists e :: e in s.log.events && s.log.events[e].subject == A.FileRunSubject(id)
        && s.log.events[e].occurredAt >= now - A.EVENT_RETENTION
  {
    var log := A.Cleanup(s.log, now);
    assert id in Pruned(s, now).runs <==> HasRunEvent(log, id);
    if HasRunEvent(log, id) {
      var e :| e in log.events && log.events[e].subject == A.FileRunSubject(id);
      assert e in s.log.events && s.log.events[e].occurredAt >= now - A.EVENT_RETENTION;
    }
    if e :| (e in s.log.events && s.log.events[e].subject == A.FileRunSubject(id)
             && s.log.events[e].occurredAt >= now - A.EVENT_RETENTION) {
      assert e in log.events;
    }
  }

  // ------------------------------------------------------ what events tell

  lemma EndingTells(s: Store, id: RunId, expected: set<RunState>, p: Patch, e: nat)
    requires LawfulPatch(expected, p) && Applies(s, id, expected, p)
    requires var s' := Transitioned(s, id, expected, p);
             && !IsActive(s'.runs[id]) && e in s'.log.events && s'.log.events[e].subject == A.FileRunSubject(id)
             && !(e in s.log.events && s.log.events[e] == s'.log.events[e])
    ensures var s' := Transitioned(s, id, expected, p); Tells(s'.runs[id], s'.log.events[e])
  {
  }

  lemma OthersWriteNoRunEvent(h: History, step: Step, e: nat, id: RunId)
    requires Good(h) && Lawful(h, step)
    requires e in After(h, step).store.log.events && After(h, step).store.log.events[e].subject == A.FileRunSubject(id)
    requires !(e in h.store.log.events && h.store.log.events[e] == After(h, step).store.log.events[e])
    ensures step.TransitionStep? && step.id == id && Applies(h.store, id, step.expected, step.patch)
    ensures !IsActive(After(h, step).store.runs[id])
  {
    if step.ActivityStep? {
      ActivityOnlyDropsRunEvents(h, step, e, id);
    }
  }

  /** In every reachable state a File Run event tells the outcome, and the time, of the run it names. */
  lemma {:induction false} EventsTellTheOutcome(steps: seq<Step>, e: nat, id: RunId)
    requires AllLawful(steps) && id in Run(steps).store.runs
    requires e in Run(steps).store.log.events && Run(steps).store.log.events[e].subject == A.FileRunSubject(id)
    ensures Tells(Run(steps).store.runs[id], Run(steps).store.log.events[e])
  {
    var front, step := steps[..|steps| - 1], steps[|steps| - 1];
    var h := Run(front);
    EveryRunIsGood(front);
    if e in h.store.log.events && h.store.log.events[e] == Run(steps).store.log.events[e] {
      assert h.emitted[id] == 1;
      if id !in h.store.runs {
        StepNeverRevives(h, step, id);
      }
      EventsTellTheOutcome(front, e, id);
      StepEvolves(h, step, id);
    } else {
      OthersWriteNoRunEvent(h, step, e, id);
      EndingTells(h.store, id, step.expected, step.patch, e);
    }
  }

  /** Step `k` ends the run. */
  predicate EndsAt(steps: seq<Step>, k: nat, id: RunId) {
    && k < |steps|
    && id in Run(steps[..k]).store.runs && IsActive(Run(steps[..k]).store.runs[id])
    && id in Run(steps[..k + 1]).store.runs && !IsActive(Run(steps[..k + 1]).store.runs[id])
  }

  lemma OnlyTransitionsEnd(h: History, step: Step, id: RunId)
    requires Good(h) && Lawful(h, step) && id in h.store.runs && IsActive(h.store.runs[id])
    requires id in After(h, step).store.runs && !IsActive(After(h, step).store.runs[id])
    ensures step.TransitionStep? && step.id == id && Applies(h.store, id, step.expected, step.patch)
    ensures !A.HasEvent(h.store.log.events, A.FileRunSubject(id), After(h, step).store.runs[id].life.revision)
  {
  }

  /** The log has grown by one event of this run. */
  ghost predicate LogsEnd(log: A.Log, log': A.Log, id: RunId) {
    var e := log.lastSequence + 1;
    && e in log'.events && log'.events[e].subject == A.FileRunSubject(id)
    && log' == log.(events := log.events[e := log'.events[e]], lastSequence := e)
  }

  lemma EndingGrowsLog(h: History, step: Step, id: RunId)
    requires Good(h) && Lawful(h, step) && id in h.store.runs && IsActive(h.store.runs[id])
    requires id in After(h, step).store.runs && !IsActive(After(h, step).store.runs[id])
    ensures LogsEnd(h.store.log, After(h, step).store.log, id)
    ensures Tells(After(h, step).store.runs[id], After(h, step).store.log.events[h.store.log.lastSequence + 1])
  {
    OnlyTransitionsEnd(h, step, id);
  }

  lemma StepAt(steps: seq<Step>, k: nat)
    requires k < |steps|
    ensures Run(steps[..k + 1]) == After(Run(steps[..k]), steps[k])
    ensures AllLawful(steps) ==> AllLawful(steps[..k]) && Lawful(Run(steps[..k]), steps[k])
  {
    var upTo := steps[..k + 1];
    assert upTo[..|upTo| - 1] == steps[..k] && upTo[|upTo| - 1] == steps[k];
    if AllLawful(steps) {
      PrefixIsLawful(steps, k);
      PrefixIsLawful(steps, k + 1);
    }
  }

  /** The step that ends a run writes its event, as the newest of the log, and nothing else to the log. */
  lemma EndingIsLogged(steps: seq<Step>, k: nat, id: RunId)
    requires AllLawful(steps) && EndsAt(steps, k, id)
    ensures LogsEnd(Run(steps[..k]).store.log, Run(steps[..k + 1]).store.log, id)
    ensures Tells(Run(steps[..k + 1]).store.runs[id],
                  Run(steps[..k + 1]).store.log.events[Run(steps[..k]).store.log.lastSequence + 1])
  {
    StepAt(steps, k);
    EveryRunIsGood(steps[..k]);
    EndingGrowsLog(Run(steps[..k]), steps[k], id);
  }

  /** Removing a Workspace takes exactly its runs, and leaves their events in the log. */
  lemma WorkspaceRemovalTakesItsRuns(s: Store, ws: WorkspaceId)
    ensures var t := NextStore(s, RemoveWorkspaceStep(ws));
            && t.log == s.log && t.managed == s.managed
            && (forall id :: id in t.runs <==> id in s.runs && s.runs[id].workspace != ws)
            && (forall id :: id in t.runs ==> t.runs[id] == s.runs[id])
  {
  }

  /** A removed Terminal row is unlinked from its run, and nothing else of any run changes. */
  lemma TerminalRemovalUnlinks(s: Store, managed: set<RunId>, removed: set<TerminalId>)
    ensures var t := NextStore(s, TerminalsStep(managed, removed));
            && t.log == s.log && t.managed == managed && t.runs.Keys == s.runs.Keys
            && forall id :: id in s.runs ==>
                 && t.runs[id].(terminal := None) == s.runs[id].(terminal := None)
                 && (t.runs[id].terminal.Some? <==> s.runs[id].terminal.Some? && s.runs[id].terminal.value !in removed)
                 && (t.runs[id].terminal.Some? ==> t.runs[id].terminal == s.runs[id].terminal)
  {
  }
}
