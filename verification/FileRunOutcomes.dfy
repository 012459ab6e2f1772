/**
 What a call of the File Run manager leaves in the store when nothing comes in
 between, column by column: the counterpart of its transactions.
*/
module FileRunOutcomes {
  import opened Wrappers
  import opened FileRuns
  import opened FileRunManagers

  /** The store after some transactions. */
  function Performed(s: Store, steps: seq<Step>): Store
    decreases |steps|
  {
    if steps == [] then s else Performed(NextStore(s, steps[0]), steps[1..])
  }

  lemma PerformedNone(s: Store)
    ensures Performed(s, []) == s
  {
  }

  lemma PerformedOne(s: Store, step: Step)
    ensures Performed(s, [step]) == NextStore(s, step)
  {
    assert [step][1..] == [];
  }

  lemma {:induction false} PerformedConcat(s: Store, a: seq<Step>, b: seq<Step>)
    ensures Performed(s, a + b) == Performed(Performed(s, a), b)
    decreases |a|
  {
    if a == [] {
      assert a + b == b;
    } else {
      assert (a + b)[1..] == a[1..] + b;
      PerformedConcat(NextStore(s, a[0]), a[1..], b);
    }
  }

  // ------------------------------------------------------ single outcomes

  ghost predicate FailedAs(before: Lifecycle, after: Lifecycle, code: string, now: int) {
    after == before.(state := Failed, errorCode := Some(code), endedAt := Some(now), revision := before.revision + 1)
  }

  /** What an observation makes of an active run. */
  ghost predicate ObservedAs(before: Lifecycle, after: Lifecycle, o: Observation, now: int) {
    if o.state.None? || o.state.value == Preparing then after == before
    else if o.state.value == Running then
      after == before.(
        state := Running, revision := before.revision + 1, errorCode := None, errorDetail := None,
        startedAt := if o.startedAt.Some? then o.startedAt else if before.startedAt.Some? then before.startedAt else Some(now))
    else
      after == before.(
        state := o.state.value, revision := before.revision + 1,
        startedAt := if o.startedAt.Some? then o.startedAt else before.startedAt,
        endedAt := if o.endedAt.Some? then o.endedAt else Some(now),
        exitCode := o.exitCode, errorCode := o.errorCode, errorDetail := o.errorDetail)
  }

  /** What a start leaves whose backend call failed: undecided only if a remote backend cannot be asked. */
  ghost predicate RecoveredAs(before: Lifecycle, after: Lifecycle, remote: bool, recovery: Reply, now: int) {
    if !remote then FailedAs(before, after, "start_failed", now)
    else match recovery
      case Observed(o) =>
        if o.state == Some(Lost) then FailedAs(before, after, "start_failed", now) else ObservedAs(before, after, o, now)
      case InvalidReply => after == before
      case _ => after == before.(errorCode := Some("start_status_unknown"), revision := before.revision + 1)
  }

  /** What a start leaves of the run it created. */
  ghost predicate StartedAs(before: FileRun, after: FileRun, confirmation: Confirmation, dispatch: Dispatch, remote: bool,
                            reply: Reply, recovery: Reply, now: int) {
    && after.(life := before.life, terminal := before.terminal) == before
    && after.terminal == (if confirmation == Confirmed && dispatch.Launched? then Some(dispatch.terminal) else before.terminal)
    && if confirmation == SourceChanged || (confirmation == Confirmed && dispatch == Refused)
       then FailedAs(before.life, after.life, "source_changed", now)
       else if confirmation == ConfirmationRaised then FailedAs(before.life, after.life, "start_failed", now)
       else if dispatch.DispatchRaised? then RecoveredAs(before.life, after.life, remote, recovery, now)
       else match reply
         case Observed(o) => ObservedAs(before.life, after.life, o, now)
         case Offline => after.life == before.life
         case InvalidReply => FailedAs(before.life, after.life, "source_changed", now)
         case BackendRaised => RecoveredAs(before.life, after.life, remote, recovery, now)
  }

  lemma Settled(s: Store, id: RunId, code: string, p: Patch, now: int)
    requires id in s.runs && s.runs[id].life.state == Preparing
    requires p == NO_CHANGE.(state := Set(Failed), errorCode := Set(Some(code)), endedAt := Set(Some(now)))
    ensures var t := Performed(s, [TransitionStep(id, {Preparing}, p)]);
            && id in t.runs && t.runs[id] == s.runs[id].(life := t.runs[id].life)
            && FailedAs(s.runs[id].life, t.runs[id].life, code, now)
  {
    PerformedOne(s, TransitionStep(id, {Preparing}, p));
  }

  /** The observation of an active run, in one transaction or none. */
  lemma ObservationLeaves(s: Store, id: RunId, run: FileRun, o: Observation, now: int)
    requires id in s.runs && s.runs[id].life == run.life && IsActive(run)
    ensures var t := Performed(s, ObservationSteps(id, run, o, now));
            && id in t.runs && t.runs[id] == s.runs[id].(life := t.runs[id].life)
            && ObservedAs(s.runs[id].life, t.runs[id].life, o, now)
  {
    match ObservationPatch(run, o, now)
    case None =>
    case Some(p) => PerformedOne(s, TransitionStep(id, ACTIVE_STATES, p));
  }

  /** What `reconcile` leaves of an active run: exactly the observed state, or nothing. */
  lemma UninterruptedReconcile(s: Store, id: RunId, reply: Reply, now: int)
    requires id in s.runs && IsActive(s.runs[id])
    ensures var t := Performed(s, ReconcileSteps(id, Some(s.runs[id]), reply, now));
            && id in t.runs && t.runs[id] == s.runs[id].(life := t.runs[id].life)
            && (reply.Observed? ==> ObservedAs(s.runs[id].life, t.runs[id].life, reply.o, now))
            && (!reply.Observed? ==> t == s)
  {
    if reply.Observed? {
      ObservationLeaves(s, id, s.runs[id], reply.o, now);
    }
  }

  lemma RecoveryLeaves(s: Store, id: RunId, run: FileRun, remote: bool, recovery: Reply, now: int)
    requires id in s.runs && s.runs[id].life == run.life && run.life.state == Preparing
    ensures var t := Performed(s, RecoverSteps(id, remote, recovery, Some(run), now));
            && id in t.runs && t.runs[id] == s.runs[id].(life := t.runs[id].life)
            && RecoveredAs(s.runs[id].life, t.runs[id].life, remote, recovery, now)
  {
    if !remote || (recovery.Observed? && recovery.o.state == Some(Lost)) {
      Settled(s, id, "start_failed", FAIL_START.(endedAt := Set(Some(now))), now);
    } else if recovery.Observed? {
      ObservationLeaves(s, id, run, recovery.o, now);
    } else if !recovery.InvalidReply? {
      PerformedOne(s, TransitionStep(id, {Preparing}, START_UNKNOWN));
    }
  }

  lemma LaunchedLeaves(s: Store, id: RunId, run: FileRun, terminal: TerminalId, remote: bool, reply: Reply, recovery: Reply,
                       now: int)
    requires id in s.runs && s.runs[id].life == run.life && run.life.state == Preparing
    ensures var t := Performed(s, DispatchSteps(id, Launched(terminal), remote, reply, recovery, Some(run), Some(run), now));
            id in t.runs && StartedAs(s.runs[id], t.runs[id], Confirmed, Launched(terminal), remote, reply, recovery, now)
  {
    var link := [TerminalStep(id, terminal)];
    var seen := ReconcileSteps(id, Some(run), reply, now);
    var rest := if reply.InvalidReply? then [SourceStep(id, now)]
                else if reply.BackendRaised? then RecoverSteps(id, remote, recovery, Some(run), now) else [];
    assert DispatchSteps(id, Launched(terminal), remote, reply, recovery, Some(run), Some(run), now) == link + seen + rest;
    PerformedConcat(s, link + seen, rest);
    PerformedConcat(s, link, seen);
    PerformedOne(s, link[0]);
    var linked := Performed(s, link);
    assert linked.runs[id] == s.runs[id].(terminal := Some(terminal));
    if reply.Observed? {
      ObservationLeaves(linked, id, run, reply.o, now);
      PerformedNone(Performed(linked, seen));
    } else {
      PerformedNone(linked);
      if reply.InvalidReply? {
        Settled(linked, id, "source_changed", FAIL_SOURCE.(endedAt := Set(Some(now))), now);
      } else if reply.BackendRaised? {
        RecoveryLeaves(linked, id, run, remote, recovery, now);
      }
    }
  }

  /**
   A start that nothing interrupts: for every combination of what the source,
   the backend and the observations say, the run it created ends in the stated
   state with the stated code and times, linked to the Terminal of its launch.
  */
  lemma UninterruptedStart(s: Store, id: RunId, confirmation: Confirmation, dispatch: Dispatch, remote: bool, reply: Reply,
                           recovery: Reply, now: int)
    requires id in s.runs && s.runs[id].life.state == Preparing
    ensures var run := s.runs[id];
            var t := Performed(s, LaunchSteps(id, confirmation, dispatch, remote, reply, recovery, Some(run), Some(run), now));
            id in t.runs && StartedAs(run, t.runs[id], confirmation, dispatch, remote, reply, recovery, now)
  {
    var run := s.runs[id];
    if confirmation == SourceChanged || (confirmation == Confirmed && dispatch == Refused) {
      Settled(s, id, "source_changed", FAIL_SOURCE.(endedAt := Set(Some(now))), now);
    } else if confirmation == ConfirmationRaised {
      Settled(s, id, "start_failed", FAIL_START.(endedAt := Set(Some(now))), now);
    } else if dispatch.Launched? {
      LaunchedLeaves(s, id, run, dispatch.terminal, remote, reply, recovery, now);
    } else {
      RecoveryLeaves(s, id, run, remote, recovery, now);
    }
  }
}
