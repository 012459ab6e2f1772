/**
 `refresh_terminal_activity_provider`: callers that want some Workspaces of one
 provider refreshed share the provider's task in flight, and start one for
 what it does not cover.

 A step runs one coroutine from one await to the next. A task that has finished
 stays in the registry until its done callback or a resumed waiter clears it.
*/
module SingleFlight {
  import opened Wrappers

  type Provider = string
  type Workspace = string
  type TaskId = nat
  type CallerId = nat

  datatype Task = Task(provider: Provider, covered: set<Workspace>, done: bool)

  datatype Phase = Waiting(task: TaskId) | Owning(task: TaskId) | Returned | Cancelled

  /**
   One call: what it asked for, which task was registered when it began and
   whether that task had already finished, the first task id not yet used then,
   what it still wants, and for each Workspace settled the refresh it relied on.
  */
  datatype Caller = Caller(
    provider: Provider,
    asked: set<Workspace>,
    found: Option<TaskId>,
    foundDone: bool,
    since: TaskId,
    requested: set<Workspace>,
    relied: map<Workspace, TaskId>,
    phase: Phase)

  /** `tasks` is a dense list, so a task's id is its place in the order of creation. */
  datatype Refreshes = Refreshes(tasks: seq<Task>, registry: map<Provider, TaskId>, callers: map<CallerId, Caller>)

  function Idle(): Refreshes {
    Refreshes([], map[], map[])
  }

  /** `clear`. */
  function Clear(r: Refreshes, t: TaskId): Refreshes
    requires t < |r.tasks|
  {
    var p := r.tasks[t].provider;
    if p in r.registry && r.registry[p] == t then r.(registry := r.registry - {p}) else r
  }

  /** One pass of the loop, up to its await or the end of the call. */
  function Pass(r: Refreshes, id: CallerId, c: Caller): Refreshes {
    if c.requested == {} then r.(callers := r.callers[id := c.(phase := Returned)])
    else if c.provider in r.registry
    then r.(callers := r.callers[id := c.(phase := Waiting(r.registry[c.provider]))])
    else
      var t := |r.tasks|;
      Refreshes(r.tasks + [Task(c.provider, c.requested, false)], r.registry[c.provider := t],
                r.callers[id := c.(phase := Owning(t))])
  }

  function Arrival(r: Refreshes, p: Provider, asked: set<Workspace>): Caller {
    var found := if p in r.registry then Some(r.registry[p]) else None;
    Caller(p, asked, found, found.Some? && found.value < |r.tasks| && r.tasks[found.value].done, |r.tasks|, asked, map[],
           Returned)
  }

  function Call(r: Refreshes, id: CallerId, p: Provider, asked: set<Workspace>): Refreshes {
    if id in r.callers then r else Pass(r, id, Arrival(r, p, asked))
  }

  function Rely(c: Caller, covered: set<Workspace>, t: TaskId): Caller {
    c.(requested := c.requested - covered,
       relied := map w | w in c.relied.Keys + (c.requested * covered) :: if w in c.relied then c.relied[w] else t)
  }

  predicate CanResume(r: Refreshes, id: CallerId) {
    && id in r.callers && (r.callers[id].phase.Waiting? || r.callers[id].phase.Owning?)
    && r.callers[id].phase.task < |r.tasks| && r.tasks[r.callers[id].phase.task].done
  }

  /** A caller whose awaited task has finished. */
  function Resume(r: Refreshes, id: CallerId): Refreshes {
    if !CanResume(r, id) then r
    else
      var c := r.callers[id];
      var t := c.phase.task;
      var settled := Rely(c, r.tasks[t].covered, t);
      if c.phase.Owning?
      then Clear(r, t).(callers := r.callers[id := settled.(phase := Returned)])
      else Pass(Clear(r, t), id, settled)
  }

  /** The refresh is shielded from the cancellation of a caller. */
  function Cancel(r: Refreshes, id: CallerId): Refreshes {
    if id in r.callers && (r.callers[id].phase.Waiting? || r.callers[id].phase.Owning?)
    then r.(callers := r.callers[id := r.callers[id].(phase := Cancelled)])
    else r
  }

  function Finish(r: Refreshes, t: TaskId): Refreshes {
    if t < |r.tasks| then r.(tasks := r.tasks[t := r.tasks[t].(done := true)]) else r
  }

  /** The done callback of a finished task. */
  function Callback(r: Refreshes, t: TaskId): Refreshes {
    if t < |r.tasks| && r.tasks[t].done then Clear(r, t) else r
  }

  datatype Step =
    | Calling(id: CallerId, provider: Provider, asked: set<Workspace>)
    | Resuming(id: CallerId) | Cancelling(id: CallerId)
    | Finishing(task: TaskId) | CallingBack(task: TaskId)

  function Apply(r: Refreshes, step: Step): Refreshes {
    match step
    case Calling(id, provider, asked) => Call(r, id, provider, asked)
    case Resuming(id) => Resume(r, id)
    case Cancelling(id) => Cancel(r, id)
    case Finishing(t) => Finish(r, t)
    case CallingBack(t) => Callback(r, t)
  }

  function Play(steps: seq<Step>): Refreshes {
    if steps == [] then Idle() else Apply(Play(steps[..|steps| - 1]), steps[|steps| - 1])
  }

  // -------------------------------------------------------------- invariant

  /** Registered tasks belong to their provider, and every unfinished task is registered. */
  ghost predicate RegistryOk(tasks: seq<Task>, registry: map<Provider, TaskId>) {
    && (forall p :: p in registry ==> registry[p] < |tasks| && tasks[registry[p]].provider == p)
    && (forall t :: 0 <= t < |tasks| && !tasks[t].done
                    ==> tasks[t].provider in registry && registry[tasks[t].provider] == t)
  }

  /** A task the caller may rely on: registered when it called, or started later. */
  predicate MayRely(c: Caller, t: TaskId) {
    t >= c.since || c.found == Some(t)
  }

  ghost predicate ReliedOk(tasks: seq<Task>, c: Caller) {
    && c.requested + c.relied.Keys == c.asked && c.requested !! c.relied.Keys
    && (forall w :: w in c.relied ==>
          && MayRely(c, c.relied[w]) && c.relied[w] < |tasks|
          && w in tasks[c.relied[w]].covered && tasks[c.relied[w]].done)
  }

  /** Unless it still waits for it, a caller has settled all that the refresh it found covers with that task. */
  ghost predicate FoundOk(tasks: seq<Task>, c: Caller) {
    c.found.Some? ==>
      && c.found.value < c.since
      && (c.phase == Waiting(c.found.value) || c.phase == Cancelled
          || (c.found.value < |tasks| && c.requested !! tasks[c.found.value].covered))
      && (forall w :: w in c.relied && c.found.value < |tasks|
                      ==> (w in tasks[c.found.value].covered <==> c.relied[w] == c.found.value))
      && (c.phase == Waiting(c.found.value) ==> c.relied == map[])
  }

  predicate PhaseOk(tasks: seq<Task>, c: Caller) {
    && c.since <= |tasks|
    && (c.phase.Waiting? || c.phase.Owning? ==> c.phase.task < |tasks| && tasks[c.phase.task].provider == c.provider)
    && (c.phase.Waiting? ==> c.phase.task < |tasks| && MayRely(c, c.phase.task))
    && (c.phase.Owning? ==> c.since <= c.phase.task < |tasks| && c.requested <= tasks[c.phase.task].covered)
    && (c.phase.Returned? ==> c.requested == {})
  }

  /** What is registered is what the caller found, or newer; and newer once it has stopped waiting for what it found. */
  predicate LinkOk(registry: map<Provider, TaskId>, c: Caller) {
    c.provider in registry ==>
      && MayRely(c, registry[c.provider])
      && (c.phase.Waiting? && c.found.Some? && c.phase.task != c.found.value ==> registry[c.provider] != c.found.value)
  }

  ghost predicate CallerOk(r: Refreshes, c: Caller) {
    ReliedOk(r.tasks, c) && FoundOk(r.tasks, c) && PhaseOk(r.tasks, c) && LinkOk(r.registry, c)
  }

  ghost predicate Good(r: Refreshes) {
    RegistryOk(r.tasks, r.registry) && forall id :: id in r.callers ==> CallerOk(r, r.callers[id])
  }

  /** Later tasks and finished tasks leave what callers relied on in place. */
  ghost predicate Extends(tasks: seq<Task>, more: seq<Task>) {
    && |tasks| <= |more|
    && forall t :: 0 <= t < |tasks| ==>
         more[t].provider == tasks[t].provider && more[t].covered == tasks[t].covered && (tasks[t].done ==> more[t].done)
  }

  /** What a step may do to the shared state: add tasks, finish them, register new ones, clear old ones. */
  ghost predicate Grows(r: Refreshes, q: Refreshes) {
    && Extends(r.tasks, q.tasks)
    && forall p :: p in q.registry ==> q.registry[p] >= |r.tasks| || (p in r.registry && q.registry[p] == r.registry[p])
  }

  lemma GrowthKeepsCaller(r: Refreshes, q: Refreshes, c: Caller)
    requires CallerOk(r, c) && Grows(r, q)
    ensures CallerOk(q, c)
  {
    assert c.found.Some? && c.found.value < |r.tasks| ==>
      q.tasks[c.found.value].covered == r.tasks[c.found.value].covered;
  }

  /** Only the caller `id` of a step changes, so it is the only one left to look at. */
  lemma GrowthKeepsOthers(r: Refreshes, q: Refreshes, id: CallerId)
    requires Good(r) && Grows(r, q) && RegistryOk(q.tasks, q.registry)
    requires q.callers - {id} == r.callers - {id} && (id in q.callers ==> CallerOk(q, q.callers[id]))
    ensures Good(q)
  {
    forall k | k in q.callers ensures CallerOk(q, q.callers[k]) {
      if k != id {
        assert k in q.callers - {id};
        assert r.callers[k] == (r.callers - {id})[k] == q.callers[k];
        GrowthKeepsCaller(r, q, r.callers[k]);
      }
    }
  }

  lemma ClearKeeps(r: Refreshes, t: TaskId)
    requires RegistryOk(r.tasks, r.registry) && t < |r.tasks| && r.tasks[t].done
    ensures RegistryOk(r.tasks, Clear(r, t).registry) && Grows(r, Clear(r, t))
    ensures Clear(r, t).tasks == r.tasks && Clear(r, t).callers == r.callers
    ensures r.tasks[t].provider in Clear(r, t).registry ==> Clear(r, t).registry[r.tasks[t].provider] != t
  {
  }

  /** A caller about to pass through the loop: newly arrived, or done with the refresh it found. */
  ghost predicate Ready(r: Refreshes, c: Caller) {
    && ReliedOk(r.tasks, c) && c.since <= |r.tasks|
    && (c.provider in r.registry ==> MayRely(c, r.registry[c.provider]))
    && (c.found.Some? ==>
          && c.found.value < c.since
          && (|| (c.provider in r.registry && r.registry[c.provider] == c.found.value && c.relied == map[])
              || (&& (c.provider in r.registry ==> r.registry[c.provider] != c.found.value)
                  && c.requested !! r.tasks[c.found.value].covered
                  && (forall w :: w in c.relied ==>
                        (w in r.tasks[c.found.value].covered <==> c.relied[w] == c.found.value)))))
  }

  lemma PassGrows(r: Refreshes, id: CallerId, c: Caller)
    requires RegistryOk(r.tasks, r.registry)
    ensures Grows(r, Pass(r, id, c)) && RegistryOk(Pass(r, id, c).tasks, Pass(r, id, c).registry)
    ensures Pass(r, id, c).callers - {id} == r.callers - {id} && id in Pass(r, id, c).callers
  {
  }

  lemma PassKeepsCaller(r: Refreshes, id: CallerId, c: Caller)
    requires RegistryOk(r.tasks, r.registry) && Ready(r, c)
    ensures CallerOk(Pass(r, id, c), Pass(r, id, c).callers[id])
  {
    var q := Pass(r, id, c);
    assert Extends(r.tasks, q.tasks);
  }

  lemma CallKeepsGood(r: Refreshes, id: CallerId, p: Provider, asked: set<Workspace>)
    requires Good(r)
    ensures Good(Call(r, id, p, asked))
  {
    if id !in r.callers {
      var c := Arrival(r, p, asked);
      PassGrows(r, id, c);
      PassKeepsCaller(r, id, c);
      GrowthKeepsOthers(r, Pass(r, id, c), id);
    }
  }

  lemma RelyKeepsRelied(tasks: seq<Task>, c: Caller, t: TaskId)
    requires ReliedOk(tasks, c) && t < |tasks| && tasks[t].done && MayRely(c, t)
    ensures ReliedOk(tasks, Rely(c, tasks[t].covered, t))
  {
  }

  lemma ResumedIsReady(r: Refreshes, id: CallerId)
    requires Good(r) && CanResume(r, id) && r.callers[id].phase.Waiting?
    requires r.tasks[r.callers[id].phase.task].provider == r.callers[id].provider
    ensures var t := r.callers[id].phase.task; Ready(Clear(r, t), Rely(r.callers[id], r.tasks[t].covered, t))
  {
    var c := r.callers[id];
    var t := c.phase.task;
    assert CallerOk(r, c);
    ClearKeeps(r, t);
    RelyKeepsRelied(r.tasks, c, t);
  }

  lemma OwnerResumed(r: Refreshes, id: CallerId)
    requires Good(r) && CanResume(r, id) && r.callers[id].phase.Owning?
    ensures Good(Resume(r, id))
  {
    var c := r.callers[id];
    var t := c.phase.task;
    assert CallerOk(r, c);
    ClearKeeps(r, t);
    RelyKeepsRelied(r.tasks, c, t);
    GrowthKeepsOthers(r, Resume(r, id), id);
  }

  lemma WaiterResumed(r: Refreshes, id: CallerId)
    requires Good(r) && CanResume(r, id) && r.callers[id].phase.Waiting?
    ensures Good(Resume(r, id))
  {
    var c := r.callers[id];
    var t := c.phase.task;
    assert CallerOk(r, c);
    var cleared, settled := Clear(r, t), Rely(c, r.tasks[t].covered, t);
    ClearKeeps(r, t);
    ResumedIsReady(r, id);
    forall k | k in cleared.callers ensures CallerOk(cleared, cleared.callers[k]) {
      GrowthKeepsCaller(r, cleared, r.callers[k]);
    }
    PassGrows(cleared, id, settled);
    PassKeepsCaller(cleared, id, settled);
    GrowthKeepsOthers(cleared, Pass(cleared, id, settled), id);
  }

  lemma SharedStepKeepsGood(r: Refreshes, q: Refreshes)
    requires Good(r) && Grows(r, q) && RegistryOk(q.tasks, q.registry) && q.callers == r.callers
    ensures Good(q)
  {
    forall k | k in q.callers ensures CallerOk(q, q.callers[k]) {
      GrowthKeepsCaller(r, q, r.callers[k]);
    }
  }

  lemma CancelKeepsGood(r: Refreshes, id: CallerId)
    requires Good(r)
    ensures Good(Cancel(r, id))
  {
    forall k | k in r.callers ensures CallerOk(Cancel(r, id), Cancel(r, id).callers[k]) {
      assert CallerOk(r, r.callers[k]);
    }
  }

  lemma CallbackKeepsGood(r: Refreshes, t: TaskId)
    requires Good(r)
    ensures Good(Callback(r, t))
  {
    if t < |r.tasks| && r.tasks[t].done {
      ClearKeeps(r, t);
      SharedStepKeepsGood(r, Callback(r, t));
    }
  }

  lemma StepKeepsGood(r: Refreshes, step: Step)
    requires Good(r)
    ensures Good(Apply(r, step))
  {
    match step
    case Calling(id, provider, asked) => CallKeepsGood(r, id, provider, asked);
    case Resuming(id) =>
      if CanResume(r, id) {
        if r.callers[id].phase.Owning? {
          OwnerResumed(r, id);
        } else {
          WaiterResumed(r, id);
        }
      }
    case Cancelling(id) => CancelKeepsGood(r, id);
    case Finishing(t) => SharedStepKeepsGood(r, Finish(r, t));
    case CallingBack(t) => CallbackKeepsGood(r, t);
  }

  lemma {:induction false} EveryStateIsGood(steps: seq<Step>)
    ensures var r := Play(steps);
            RegistryOk(r.tasks, r.registry) && forall id :: id in r.callers ==> CallerOk(r, r.callers[id])
  {
    if steps != [] {
      EveryStateIsGood(steps[..|steps| - 1]);
      StepKeepsGood(Play(steps[..|steps| - 1]), steps[|steps| - 1]);
    }
  }

  // ---------------------------------------------------------------- results

  /** At most one refresh of a provider is in flight. */
  lemma AtMostOneInFlight(steps: seq<Step>, t: TaskId, u: TaskId)
    requires t < |Play(steps).tasks| && u < |Play(steps).tasks|
    requires !Play(steps).tasks[t].done && !Play(steps).tasks[u].done
    requires Play(steps).tasks[t].provider == Play(steps).tasks[u].provider
    ensures t == u
  {
    EveryStateIsGood(steps);
  }

  /** The refreshes a step clears: those of the resumed waiter or of the callback. */
  function Cleared(r: Refreshes, step: Step): set<TaskId> {
    match step
    case Resuming(id) => if CanResume(r, id) then {r.callers[id].phase.task} else {}
    case CallingBack(t) => {t}
    case _ => {}
  }

  lemma ClearingStep(r: Refreshes, step: Step, p: Provider)
    requires RegistryOk(r.tasks, r.registry) && p in r.registry
    ensures var q := Apply(r, step);
            || (p in q.registry && q.registry[p] == r.registry[p])
            || (r.registry[p] in Cleared(r, step) && r.tasks[r.registry[p]].done)
  {
  }

  /** A registration goes only when the very task it names, finished, is cleared; a newer one stays. */
  lemma ClearingKeepsNewerTasks(steps: seq<Step>, step: Step, p: Provider)
    requires p in Play(steps).registry
    ensures var r := Play(steps);
            var t := r.registry[p];
            var q := Apply(r, step);
            (p in q.registry && q.registry[p] == t) || (t in Cleared(r, step) && t < |r.tasks| && r.tasks[t].done)
  {
    EveryStateIsGood(steps);
    ClearingStep(Play(steps), step, p);
  }

  /**
   When a call returns normally, every Workspace it asked for was covered by a
   finished task that was registered when the call began or was created later.
  */
  lemma ReturnedCallIsCovered(steps: seq<Step>, id: CallerId)
    requires id in Play(steps).callers && Play(steps).callers[id].phase.Returned?
    ensures var r := Play(steps);
            var c := r.callers[id];
            && c.relied.Keys == c.asked
            && forall w :: w in c.asked ==> MayRely(c, c.relied[w]) && c.relied[w] < |r.tasks|
                                            && w in r.tasks[c.relied[w]].covered && r.tasks[c.relied[w]].done
  {
    EveryStateIsGood(steps);
    assert CallerOk(Play(steps), Play(steps).callers[id]);
  }

  lemma PlayStep(steps: seq<Step>, step: Step)
    ensures Play(steps + [step]) == Apply(Play(steps), step)
  {
    assert (steps + [step])[..|steps|] == steps;
  }

  /** What a caller does next, still wanting these Workspaces: return, share the task in flight, or start its own. */
  ghost predicate GoesOn(r: Refreshes, q: Refreshes, id: CallerId, wanted: set<Workspace>) {
    && id in q.callers && q.callers[id].requested == wanted
    && var c := q.callers[id];
       if wanted == {} then c.phase == Returned && q.tasks == r.tasks && q.registry == r.registry
       else if c.provider in r.registry
       then c.phase == Waiting(r.registry[c.provider]) && q.tasks == r.tasks && q.registry == r.registry
       else && c.phase == Owning(|r.tasks|) && q.tasks == r.tasks + [Task(c.provider, wanted, false)]
            && q.registry == r.registry[c.provider := |r.tasks|]
  }

  /** A new call shares the provider's task in flight, or starts one for exactly what it asks. */
  lemma CallsShareOrStart(steps: seq<Step>, id: CallerId, p: Provider, asked: set<Workspace>)
    requires id !in Play(steps).callers
    ensures var r, q := Play(steps), Play(steps + [Calling(id, p, asked)]);
            && GoesOn(r, q, id, asked) && q.callers[id].provider == p && q.callers[id].asked == asked
            && forall other :: other in r.callers ==> other in q.callers && q.callers[other] == r.callers[other]
  {
    PlayStep(steps, Calling(id, p, asked));
  }

  /** The registry without one task, if it names it. */
  function WithoutTask(registry: map<Provider, TaskId>, t: TaskId): map<Provider, TaskId> {
    map p | p in registry && registry[p] != t :: registry[p]
  }

  /**
   A caller whose task has finished relies on it for what it covers. Its owner
   returns; a waiter goes on with what is left, and the task is cleared.
  */
  lemma FinishedTasksSettleCallers(steps: seq<Step>, id: CallerId, t: TaskId)
    requires var r := Play(steps);
             && id in r.callers && (r.callers[id].phase == Waiting(t) || r.callers[id].phase == Owning(t))
             && t < |r.tasks| && r.tasks[t].done
    ensures var r, q := Play(steps), Play(steps + [Resuming(id)]);
            var cleared := r.(registry := WithoutTask(r.registry, t));
            var c := r.callers[id];
            && id in q.callers
            && (c.phase.Owning? ==> q.callers[id].phase == Returned && q.tasks == r.tasks && q.registry == cleared.registry)
            && (c.phase.Waiting? ==> GoesOn(cleared, q, id, c.requested - r.tasks[t].covered))
            && forall w :: w in c.requested && w in r.tasks[t].covered && w !in c.relied ==>
                 w in q.callers[id].relied && q.callers[id].relied[w] == t
  {
    PlayStep(steps, Resuming(id));
    EveryStateIsGood(steps);
    ClearedIsWithout(Play(steps), t);
  }

  lemma ClearedIsWithout(r: Refreshes, t: TaskId)
    requires RegistryOk(r.tasks, r.registry) && t < |r.tasks|
    ensures Clear(r, t) == r.(registry := WithoutTask(r.registry, t))
  {
    assert Clear(r, t).registry == WithoutTask(r.registry, t);
  }

  /** A cancelled caller leaves at once, and its task runs on for the others. */
  lemma CancellingLeavesTheTask(steps: seq<Step>, id: CallerId)
    requires id in Play(steps).callers && (Play(steps).callers[id].phase.Waiting? || Play(steps).callers[id].phase.Owning?)
    ensures var r, q := Play(steps), Play(steps + [Cancelling(id)]);
            && id in q.callers && q.callers[id] == r.callers[id].(phase := Cancelled)
            && q.tasks == r.tasks && q.registry == r.registry
  {
    PlayStep(steps, Cancelling(id));
  }

  /** A task that finishes is done and nothing else changes; its callback clears it from the registry. */
  lemma FinishingAndCallingBack(steps: seq<Step>, t: TaskId)
    requires t < |Play(steps).tasks|
    ensures var r, q := Play(steps), Play(steps + [Finishing(t)]);
            && |q.tasks| == |r.tasks| && q.tasks[t] == r.tasks[t].(done := true) && q.registry == r.registry
            && (forall u :: 0 <= u < |r.tasks| && u != t ==> q.tasks[u] == r.tasks[u]) && q.callers == r.callers
    ensures Play(steps).tasks[t].done ==>
              Play(steps + [CallingBack(t)]) == Play(steps).(registry := WithoutTask(Play(steps).registry, t))
  {
    PlayStep(steps, Finishing(t));
    PlayStep(steps, CallingBack(t));
    EveryStateIsGood(steps);
    ClearedIsWithout(Play(steps), t);
  }

  /** The refresh relied on was running when the call began, or started after that. */
  predicate IsFresh(c: Caller, t: TaskId) {
    t >= c.since || !c.foundDone
  }

  /**
   Exactly when the coverage is fresh: unless the refresh registered at the call
   covers the Workspace and had already finished, its clearing still pending.
  */
  lemma CoverageIsFreshIff(steps: seq<Step>, id: CallerId, w: Workspace)
    requires id in Play(steps).callers && Play(steps).callers[id].phase.Returned?
    requires w in Play(steps).callers[id].asked
    ensures var r := Play(steps);
            var c := r.callers[id];
            && w in c.relied && (c.found.Some? ==> c.found.value < |r.tasks|)
            && (IsFresh(c, c.relied[w])
                <==> !(c.found.Some? && c.foundDone && w in r.tasks[c.found.value].covered))
  {
    EveryStateIsGood(steps);
    var r := Play(steps);
    assert CallerOk(r, r.callers[id]);
    FoundDoneNeedsFound(steps, id);
  }

  lemma ArrivalsAreRecorded(r: Refreshes, step: Step, id: CallerId)
    requires id in Apply(r, step).callers
    ensures var c := Apply(r, step).callers[id];
            if id in r.callers then c.found == r.callers[id].found && c.foundDone == r.callers[id].foundDone
            else c.foundDone ==> c.found.Some?
  {
  }

  lemma {:induction false} FoundDoneNeedsFound(steps: seq<Step>, id: CallerId)
    requires id in Play(steps).callers
    ensures Play(steps).callers[id].foundDone ==> Play(steps).callers[id].found.Some?
  {
    var front := steps[..|steps| - 1];
    ArrivalsAreRecorded(Play(front), steps[|steps| - 1], id);
    if id in Play(front).callers {
      FoundDoneNeedsFound(front, id);
    }
  }

  const STALE: seq<Step> := [Calling(1, "p", {"w"}), Finishing(0), Calling(2, "p", {"w"}), Resuming(2)]

  /** A call that comes between the end of a task and its clearing is given the finished snapshot. */
  lemma FinishedTaskCanCover()
    ensures var r := Play(STALE);
            && 2 in r.callers && r.callers[2].phase == Returned && "w" in r.callers[2].relied
            && !IsFresh(r.callers[2], r.callers[2].relied["w"])
  {
    var s := STALE;
    assert s[..3][..2] == s[..2] && s[..2][..1] == s[..1] && s[..1][..0] == [];
    var r1 := Play(s[..1]);
    assert s[..1] == [Calling(1, "p", {"w"})];
    assert Play(s[..1][..0]) == Idle();
    assert r1 == Call(Idle(), 1, "p", {"w"});
    var r2 := Play(s[..2]);
    assert r2 == Finish(r1, 0) && r2.tasks == [Task("p", {"w"}, true)] && r2.registry == map["p" := 0];
    var r3 := Play(s[..3]);
    assert r3 == Call(r2, 2, "p", {"w"});
    assert r3.callers[2].phase == Waiting(0);
    assert Play(s) == Resume(r3, 2);
  }

  // ----------------------------------------------------------- mutable form

  class ActivityRefreshes {
    var tasks: seq<Task>
    var registry: map<Provider, TaskId>
    var callers: map<CallerId, Caller>

    ghost function View(): Refreshes
      reads this
    {
      Refreshes(tasks, registry, callers)
    }

    constructor ()
      ensures View() == Idle()
    {
      tasks, registry, callers := [], map[], map[];
    }

    /** The closure `clear`. */
    method ClearTask(t: TaskId)
      requires t < |tasks|
      modifies this`registry
      ensures View() == Clear(old(View()), t)
    {
      var p := tasks[t].provider;
      if p in registry && registry[p] == t {
        registry := registry - {p};
      }
    }

    /** The loop from one await to the next. */
    method Continue(id: CallerId, c: Caller)
      modifies this
      ensures View() == Pass(old(View()), id, c)
    {
      var phase := Returned;
      if c.requested != {} {
        if c.provider in registry {
          phase := Waiting(registry[c.provider]);
        } else {
          var t := |tasks|;
          tasks := tasks + [Task(c.provider, c.requested, false)];
          registry := registry[c.provider := t];
          phase := Owning(t);
        }
      }
      callers := callers[id := c.(phase := phase)];
    }

    method Enter(id: CallerId, p: Provider, asked: set<Workspace>)
      requires Good(View()) && id !in callers
      modifies this
      ensures Good(View()) && View() == Call(old(View()), id, p, asked)
    {
      CallKeepsGood(View(), id, p, asked);
      Continue(id, Arrival(Refreshes(tasks, registry, callers), p, asked));
    }

    method Wake(id: CallerId)
      requires Good(View()) && CanResume(View(), id)
      modifies this
      ensures Good(View()) && View() == Resume(old(View()), id)
    {
      StepKeepsGood(View(), Resuming(id));
      var c := callers[id];
      var t := c.phase.task;
      var settled := Rely(c, tasks[t].covered, t);
      ClearTask(t);
      if c.phase.Owning? {
        callers := callers[id := settled.(phase := Returned)];
      } else {
        Continue(id, settled);
      }
    }
  }
}
