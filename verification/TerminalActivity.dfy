/**
 Activity revisions of Terminals: caching what tmux reports, baselining,
 summarising and acknowledging. All of it shares the `terminals` rows with
 reconciliation, which adds, removes and re-purposes the rows underneath.
*/
module TerminalActivity {
  import opened Wrappers
  import opened Terminals

  datatype Db = Db(rows: Table, acks: map<TerminalId, nat>)

  const EMPTY_DB := Db(map[], map[])
  const SQLITE_MAX: int := 0x7fff_ffff_ffff_ffff

  datatype StoreError =
    | InvalidWindows
    | InvalidActivity
    | IntegrityError
    | UnknownTerminal
    | ActivityUnavailable
    | RevisionTooNew

  // ------------------------------------------------------------ transactions

  /** ON DELETE CASCADE of `terminal_activity_reads`. */
  function WithRows(db: Db, rows: Table): Db {
    Db(rows, map id | id in db.acks && id in rows :: db.acks[id])
  }

  /** Validated observations: Workspace, then window, then revision. */
  type Observations = map<WorkspaceId, map<string, nat>>

  function ObservedRow(row: Row, o: Observations): Row {
    if row.role == Shell && row.workspace in o && row.window in o[row.workspace] then
      var revision := o[row.workspace][row.window];
      row.(activity := MaxActivity(Some(if row.activity.Some? then row.activity.value else 0), Some(revision)))
    else row
  }

  function Observed(db: Db, o: Observations): Db {
    db.(rows := map id | id in db.rows :: ObservedRow(db.rows[id], o))
  }

  datatype Scope = Scope(workspace: Option<WorkspaceId>, workspaces: Option<set<WorkspaceId>>, terminal: Option<TerminalId>)

  /** The WHERE clause both statements of a summary share. */
  predicate InScope(rows: Table, scope: Scope, id: TerminalId) {
    && id in rows && rows[id].role == Shell && rows[id].activity.Some?
    && (scope.workspace.Some? ==> rows[id].workspace == scope.workspace.value)
    && (scope.workspaces.Some? ==> rows[id].workspace in scope.workspaces.value)
    && (scope.terminal.Some? ==> id == scope.terminal.value)
  }

  /** INSERT ... ON CONFLICT DO NOTHING: a Terminal without a read row starts out read. */
  function Baselined(db: Db, scope: Scope): Db {
    db.(acks := db.acks + map id | id in db.rows && InScope(db.rows, scope, id) && id !in db.acks
                                  :: db.rows[id].activity.value)
  }

  predicate CanAcknowledge(db: Db, id: TerminalId, revision: nat) {
    && id in db.rows && db.rows[id].role == Shell && db.rows[id].activity.Some?
    && revision <= db.rows[id].activity.value
  }

  function Acknowledged(db: Db, id: TerminalId, revision: nat): Db {
    if !CanAcknowledge(db, id, revision) then db
    else db.(acks := db.acks[id := if id in db.acks && db.acks[id] > revision then db.acks[id] else revision])
  }

  // -------------------------------------------------------------- invariants

  /** An acknowledged revision belongs to a row whose activity has reached it. */
  ghost predicate AcknowledgedWithinActivity(db: Db) {
    forall id :: id in db.acks ==>
      id in db.rows && db.rows[id].activity.Some? && db.acks[id] <= db.rows[id].activity.value
  }

  ghost predicate NotLess(a: Option<nat>, b: Option<nat>) {
    a.Some? ==> b.Some? && a.value <= b.value
  }

  /** For a surviving row, activity and acknowledgement only grow. */
  ghost predicate Grows(a: Db, b: Db, id: TerminalId) {
    id in a.rows && id in b.rows ==>
      && NotLess(a.rows[id].activity, b.rows[id].activity)
      && (id in a.acks ==> id in b.acks && a.acks[id] <= b.acks[id])
  }

  // ------------------------------------------------------ steps and their runs

  datatype Step =
    | ReconcileStep(ws: WorkspaceId, claimed: set<TerminalId>, ids: seq<TerminalId>, items: seq<Item>, now: int)
    | ObserveStep(o: Observations)
    | SummaryStep(scope: Scope)
    | AcknowledgeStep(id: TerminalId, revision: nat)
    | CreateStep(id: TerminalId, row: Row)
    | DeleteStep(gone: set<TerminalId>)
    | RenameStep(id: TerminalId, name: string)

  ghost predicate Possible(db: Db, step: Step) {
    match step
    case ReconcileStep(ws, claimed, ids, items, now) => |ids| == |items| && Plan(db.rows, ws, claimed, ids)
    case CreateStep(id, row) => id !in db.rows
    case _ => true
  }

  function After(db: Db, step: Step): Db {
    match step
    case ReconcileStep(ws, claimed, ids, items, now) =>
      if |ids| == |items| then WithRows(db, Reconciled(db.rows, ws, ids, items, now)) else db
    case ObserveStep(o) => Observed(db, o)
    case SummaryStep(scope) => Baselined(db, scope)
    case AcknowledgeStep(id, revision) => Acknowledged(db, id, revision)
    case CreateStep(id, row) => db.(rows := db.rows[id := row])
    case DeleteStep(gone) => WithRows(db, map id | id in db.rows && id !in gone :: db.rows[id])
    case RenameStep(id, name) => if id in db.rows then db.(rows := db.rows[id := db.rows[id].(name := name)]) else db
  }

  ghost predicate PossibleRun(db: Db, steps: seq<Step>)
    decreases |steps|
  {
    steps == [] || (Possible(db, steps[0]) && PossibleRun(After(db, steps[0]), steps[1..]))
  }

  function Run(db: Db, steps: seq<Step>): Db
    decreases |steps|
  {
    if steps == [] then db else Run(After(db, steps[0]), steps[1..])
  }

  /** The row is there before and after every step. */
  predicate Survives(db: Db, steps: seq<Step>, id: TerminalId)
    decreases |steps|
  {
    id in db.rows && (steps == [] || Survives(After(db, steps[0]), steps[1..], id))
  }

  /** Deleting, creating and renaming touch exactly the rows they name, and a deleted row's read state goes with it. */
  lemma RowStepsAreExact(db: Db, gone: set<TerminalId>, id: TerminalId, row: Row, name: string)
    ensures var d := After(db, DeleteStep(gone));
            && d.rows == db.rows - gone && d.acks.Keys == set x | x in db.acks && x in db.rows && x !in gone
    ensures forall x :: x in After(db, DeleteStep(gone)).acks ==> After(db, DeleteStep(gone)).acks[x] == db.acks[x]
    ensures After(db, CreateStep(id, row)) == Db(db.rows[id := row], db.acks)
    ensures After(db, RenameStep(id, name)).acks == db.acks
    ensures id in db.rows ==> After(db, RenameStep(id, name)).rows == db.rows[id := db.rows[id].(name := name)]
    ensures id !in db.rows ==> After(db, RenameStep(id, name)).rows == db.rows
  {
  }

  lemma ReconcileKeepsActivity(db: Db, ws: WorkspaceId, claimed: set<TerminalId>, ids: seq<TerminalId>,
                               items: seq<Item>, now: int, id: TerminalId)
    requires |ids| == |items| && Plan(db.rows, ws, claimed, ids) && AcknowledgedWithinActivity(db)
    ensures var db' := WithRows(db, Reconciled(db.rows, ws, ids, items, now));
            AcknowledgedWithinActivity(db') && Grows(db, db', id)
  {
  }

  lemma StepKeepsActivity(db: Db, step: Step, id: TerminalId)
    requires AcknowledgedWithinActivity(db) && Possible(db, step)
    ensures AcknowledgedWithinActivity(After(db, step)) && Grows(db, After(db, step), id)
  {
    match step
    case ReconcileStep(ws, claimed, ids, items, now) => ReconcileKeepsActivity(db, ws, claimed, ids, items, now, id);
    case _ =>
  }

  /**
   Over every run of reconcile, observe, summary, acknowledge, create, delete and
   rename: no acknowledgement exceeds the activity of its row, and for a row that
   survives, activity and acknowledgement never shrink.
  */
  lemma {:induction false} ActivityOnlyGrows(db: Db, steps: seq<Step>, id: TerminalId)
    requires AcknowledgedWithinActivity(db) && PossibleRun(db, steps)
    ensures AcknowledgedWithinActivity(Run(db, steps))
    ensures Survives(db, steps, id) ==> id in Run(db, steps).rows && Grows(db, Run(db, steps), id)
    decreases |steps|
  {
    if steps != [] {
      StepKeepsActivity(db, steps[0], id);
      ActivityOnlyGrows(After(db, steps[0]), steps[1..], id);
    }
  }

  /** Step `step` on `db` recorded revision `v` as read: by a first summary, or by an acknowledgement. */
  predicate Records(db: Db, step: Step, id: TerminalId, v: nat) {
    match step
    case SummaryStep(scope) => InScope(db.rows, scope, id) && id !in db.acks && db.rows[id].activity == Some(v)
    case AcknowledgeStep(other, revision) => other == id && revision == v && CanAcknowledge(db, id, v)
    case _ => false
  }

  lemma AckComesFromStep(db: Db, step: Step, id: TerminalId)
    requires id in After(db, step).acks
    ensures (id in db.acks && db.acks[id] == After(db, step).acks[id]) || Records(db, step, id, After(db, step).acks[id])
  {
  }

  /** Every acknowledged revision was recorded by some step of the run. */
  lemma {:induction false} AckWasRecorded(db: Db, steps: seq<Step>, id: TerminalId) returns (k: nat)
    requires id in Run(db, steps).acks
    ensures var v := Run(db, steps).acks[id];
            (id in db.acks && db.acks[id] == v) || (k < |steps| && Records(Run(db, steps[..k]), steps[k], id, v))
    decreases |steps|
  {
    k := 0;
    if steps != [] {
      var next := After(db, steps[0]);
      var later := AckWasRecorded(next, steps[1..], id);
      if id in next.acks && next.acks[id] == Run(db, steps).acks[id] {
        AckComesFromStep(db, steps[0], id);
        assert steps[..0] == [];
      } else {
        k := later + 1;
        assert steps[..k][0] == steps[0] && steps[..k][1..] == steps[1..][..later];
      }
    }
  }

  /** A first summary of a Terminal never reports it unread, whatever list of the rows in scope it makes. */
  lemma FirstSummaryIsRead(db: Db, scope: Scope, id: TerminalId, entries: seq<Entry>)
    requires InScope(db.rows, scope, id) && id !in db.acks && EntriesOf(Baselined(db, scope), scope, entries)
    ensures exists k :: 0 <= k < |entries| && entries[k].id == id
    ensures forall k :: 0 <= k < |entries| && entries[k].id == id ==> !Unread(entries[k])
  {
    assert ListsEntry(entries, id);
  }

  /**
   What a summary reports as unread, in any reachable state, was recorded as
   read earlier in the run, and its activity has grown since.
  */
  lemma UnreadWasReadBefore(steps: seq<Step>, scope: Scope, id: TerminalId) returns (k: nat, v: nat)
    requires PossibleRun(EMPTY_DB, steps)
    requires var db := Baselined(Run(EMPTY_DB, steps), scope);
             InScope(db.rows, scope, id) && id in db.acks && Unread(EntryOf(db.rows, db.acks, id))
    ensures k < |steps| && Records(Run(EMPTY_DB, steps[..k]), steps[k], id, v)
    ensures v < Run(EMPTY_DB, steps).rows[id].activity.value
  {
    var db := Run(EMPTY_DB, steps);
    ActivityOnlyGrows(EMPTY_DB, steps, id);
    assert id in db.acks;
    v := db.acks[id];
    k := AckWasRecorded(EMPTY_DB, steps, id);
  }

  predicate Acknowledges(step: Step, id: TerminalId) {
    step.AcknowledgeStep? && step.id == id
  }

  lemma UnacknowledgedStep(db: Db, step: Step, id: TerminalId)
    requires AcknowledgedWithinActivity(db) && Possible(db, step) && !Acknowledges(step, id)
    requires id in db.acks && id in After(db, step).rows
    ensures id in After(db, step).acks && After(db, step).acks[id] == db.acks[id]
  {
  }

  /** Only an acknowledgement moves what was read; a later summary, for one, does not. */
  lemma {:induction false} OnlyAcknowledgingReads(db: Db, steps: seq<Step>, id: TerminalId)
    requires AcknowledgedWithinActivity(db) && PossibleRun(db, steps) && Survives(db, steps, id) && id in db.acks
    requires forall k :: 0 <= k < |steps| ==> !Acknowledges(steps[k], id)
    ensures id in Run(db, steps).acks && Run(db, steps).acks[id] == db.acks[id]
    decreases |steps|
  {
    if steps != [] {
      StepKeepsActivity(db, steps[0], id);
      UnacknowledgedStep(db, steps[0], id);
      OnlyAcknowledgingReads(After(db, steps[0]), steps[1..], id);
    }
  }

  /** An observed shell row keeps the newer of two revisions, another row is left alone. */
  ghost predicate RaisesRow(row: Row, after: Row, o: Observations) {
    if row.role == Shell && row.workspace in o && row.window in o[row.workspace] then
      && after == row.(activity := after.activity) && after.activity.Some?
      && after.activity.value >= o[row.workspace][row.window] && NotLess(row.activity, after.activity)
      && (after.activity.value == o[row.workspace][row.window] || after.activity == row.activity)
    else after == row
  }

  /** What an observation makes of the table, row by row. */
  ghost predicate RaisesObserved(before: Table, after: Table, o: Observations) {
    after.Keys == before.Keys && forall id :: id in before ==> RaisesRow(before[id], after[id], o)
  }

  lemma ObservedRowIsRaised(row: Row, o: Observations)
    ensures RaisesRow(row, ObservedRow(row, o), o)
  {
  }

  lemma ObservingRaises(db: Db, o: Observations)
    ensures RaisesObserved(db.rows, Observed(db, o).rows, o) && Observed(db, o).acks == db.acks
  {
    forall id | id in db.rows ensures RaisesRow(db.rows[id], Observed(db, o).rows[id], o) {
      ObservedRowIsRaised(db.rows[id], o);
    }
  }

  /**
   An observed revision newer than what was read is reported unread by every
   later summary of a run, until the Terminal goes or is acknowledged.
  */
  lemma ObservedActivityIsUnread(db: Db, o: Observations, steps: seq<Step>, id: TerminalId, scope: Scope, entries: seq<Entry>)
    requires AcknowledgedWithinActivity(db) && PossibleRun(Observed(db, o), steps) && Survives(Observed(db, o), steps, id)
    requires id in db.acks && id in db.rows && db.rows[id].role == Shell
    requires db.rows[id].workspace in o && db.rows[id].window in o[db.rows[id].workspace]
    requires o[db.rows[id].workspace][db.rows[id].window] > db.acks[id]
    requires forall k :: 0 <= k < |steps| ==> !Acknowledges(steps[k], id)
    requires EntriesOf(Baselined(Run(Observed(db, o), steps), scope), scope, entries)
    ensures forall k :: 0 <= k < |entries| && entries[k].id == id ==> Unread(entries[k])
  {
    var seen := Observed(db, o);
    ObservingRaises(db, o);
    assert RaisesRow(db.rows[id], seen.rows[id], o);
    StepKeepsActivity(db, ObserveStep(o), id);
    ActivityOnlyGrows(seen, steps, id);
    OnlyAcknowledgingReads(seen, steps, id);
    var last := Run(seen, steps);
    StepKeepsActivity(last, SummaryStep(scope), id);
    UnacknowledgedStep(last, SummaryStep(scope), id);
  }

  /** Acknowledging the cached revision marks the Terminal read; an older one leaves newer activity unread. */
  lemma AcknowledgeReadsExactlyTheObserved(db: Db, id: TerminalId, revision: nat)
    requires AcknowledgedWithinActivity(db) && CanAcknowledge(db, id, revision)
    ensures var db' := Acknowledged(db, id, revision);
            && id in db'.acks && revision <= db'.acks[id]
            && (revision == db.rows[id].activity.value ==> db'.acks[id] == revision)
            && (id !in db.acks || db.acks[id] <= revision ==> db'.acks[id] == revision)
  {
  }

  // ------------------------------------------------------------- the summary

  datatype Entry = Entry(id: TerminalId, workspace: WorkspaceId, activity: nat, acknowledged: nat)

  predicate Unread(e: Entry) {
    e.activity > e.acknowledged
  }

  datatype WorkspaceSummary = WorkspaceSummary(
    workspace: WorkspaceId, terminals: nat, unread: nat, latestUnread: Option<TerminalId>)

  datatype Summary = Summary(
    entries: seq<Entry>, workspaces: seq<WorkspaceSummary>, unread: nat, latestUnread: Option<TerminalId>)

  function CountUnread(entries: seq<Entry>): nat {
    if entries == [] then 0
    else CountUnread(entries[..|entries| - 1]) + if Unread(entries[|entries| - 1]) then 1 else 0
  }

  /** The entries of one Workspace, in their order. */
  function OfWorkspace(entries: seq<Entry>, ws: WorkspaceId): seq<Entry> {
    if entries == [] then []
    else
      var last := entries[|entries| - 1];
      OfWorkspace(entries[..|entries| - 1], ws) + if last.workspace == ws then [last] else []
  }

  /** The Workspaces of the entries, each once, in the order of their first entries. */
  function Appearing(entries: seq<Entry>): seq<WorkspaceId> {
    if entries == [] then []
    else WithName(Appearing(entries[..|entries| - 1]), entries[|entries| - 1].workspace)
  }

  function WithName(names: seq<WorkspaceId>, ws: WorkspaceId): seq<WorkspaceId> {
    if ws in names then names else names + [ws]
  }

  function SumUnread(workspaces: seq<WorkspaceSummary>): nat {
    if workspaces == [] then 0
    else SumUnread(workspaces[..|workspaces| - 1]) + workspaces[|workspaces| - 1].unread
  }

  lemma {:induction false} SumAfterUpdate(s: seq<WorkspaceSummary>, k: nat, w: WorkspaceSummary)
    requires k < |s|
    ensures SumUnread(s[k := w]) == SumUnread(s) - s[k].unread + w.unread
  {
    var last := |s| - 1;
    if k == last {
      assert s[k := w][..last] == s[..last];
    } else {
      assert s[k := w][..last] == s[..last][k := w];
      SumAfterUpdate(s[..last], k, w);
    }
  }

  /** The first unread entry, if any: the rows are ordered newest activity first. */
  ghost predicate IsLatestUnread(entries: seq<Entry>, latest: Option<TerminalId>) {
    match latest
    case None => forall i :: 0 <= i < |entries| ==> !Unread(entries[i])
    case Some(id) => exists i :: 0 <= i < |entries| && entries[i].id == id && Unread(entries[i])
                       && forall j :: 0 <= j < i ==> !Unread(entries[j])
  }

  function EntryOf(rows: Table, acks: map<TerminalId, nat>, id: TerminalId): Entry
    requires id in rows && rows[id].activity.Some? && id in acks
  {
    Entry(id, rows[id].workspace, rows[id].activity.value, acks[id])
  }

  ghost predicate ListsEntry(entries: seq<Entry>, id: TerminalId) {
    exists k :: 0 <= k < |entries| && entries[k].id == id
  }

  /** The entries are the rows in scope outside `rest`, by falling activity, none older than a row in `rest`. */
  ghost predicate PartialEntries(db: Db, scope: Scope, entries: seq<Entry>, rest: set<TerminalId>) {
    && (forall id :: id in rest ==> InScope(db.rows, scope, id) && id in db.acks)
    && (forall k :: 0 <= k < |entries| ==>
          && InScope(db.rows, scope, entries[k].id) && entries[k].id in db.acks && entries[k].id !in rest
          && entries[k] == EntryOf(db.rows, db.acks, entries[k].id))
    && (forall id :: InScope(db.rows, scope, id) && id !in rest ==> ListsEntry(entries, id))
    && (forall j, k :: 0 <= j < k < |entries| ==>
          entries[j].id != entries[k].id && entries[j].activity >= entries[k].activity)
    && (forall k, id :: 0 <= k < |entries| && id in rest && id in db.rows && db.rows[id].activity.Some? ==>
          entries[k].activity >= db.rows[id].activity.value)
  }

  /** Every Terminal in scope exactly once, newest activity first. */
  ghost predicate EntriesOf(db: Db, scope: Scope, entries: seq<Entry>) {
    PartialEntries(db, scope, entries, {})
  }

  predicate IsNewest(rows: Table, rest: set<TerminalId>, id: TerminalId)
    requires id in rows && rest <= rows.Keys
  {
    forall o :: o in rest && rows[o].activity.Some? && rows[id].activity.Some? ==>
      rows[id].activity.value >= rows[o].activity.value
  }

  lemma {:induction false} NewestExists(rows: Table, rest: set<TerminalId>)
    requires rest != {} && rest <= rows.Keys && forall id :: id in rest ==> rows[id].activity.Some?
    ensures exists id :: id in rest && IsNewest(rows, rest, id)
    decreases rest
  {
    var id :| id in rest;
    if !IsNewest(rows, rest, id) {
      var newer :| newer in rest && rows[newer].activity.value > rows[id].activity.value;
      var fewer := rest - {id};
      assert newer in fewer;
      NewestExists(rows, fewer);
      var newest :| newest in fewer && IsNewest(rows, fewer, newest);
      assert rows[newest].activity.value >= rows[newer].activity.value;
      assert forall o :: o in rest ==> o == id || o in fewer;
      assert IsNewest(rows, rest, newest);
    }
  }

  lemma PartialEntriesStep(db: Db, scope: Scope, entries: seq<Entry>, rest: set<TerminalId>, id: TerminalId)
    requires rest <= db.rows.Keys && id in rest && PartialEntries(db, scope, entries, rest) && IsNewest(db.rows, rest, id)
    ensures id in db.acks && db.rows[id].activity.Some?
    ensures PartialEntries(db, scope, entries + [EntryOf(db.rows, db.acks, id)], rest - {id})
  {
    var more := entries + [EntryOf(db.rows, db.acks, id)];
    forall x | InScope(db.rows, scope, x) && x !in rest - {id} ensures ListsEntry(more, x) {
      if x == id {
        assert more[|entries|].id == x;
      } else {
        var k :| 0 <= k < |entries| && entries[k].id == x;
        assert more[k].id == x;
      }
    }
  }

  /** Some entry of the first Workspace comes before all entries of the second. */
  ghost predicate SeenBefore(entries: seq<Entry>, a: WorkspaceId, b: WorkspaceId) {
    exists i :: 0 <= i < |entries| && entries[i].workspace == a && forall j :: 0 <= j <= i ==> entries[j].workspace != b
  }

  lemma StillSeenBefore(entries: seq<Entry>, e: Entry, a: WorkspaceId, b: WorkspaceId)
    requires SeenBefore(entries, a, b)
    ensures SeenBefore(entries + [e], a, b)
  {
    var i :| 0 <= i < |entries| && entries[i].workspace == a && forall j :: 0 <= j <= i ==> entries[j].workspace != b;
    assert (entries + [e])[i] == entries[i];
  }

  ghost predicate HasEntry(entries: seq<Entry>, ws: WorkspaceId) {
    exists i :: 0 <= i < |entries| && entries[i].workspace == ws
  }

  lemma HasEntryStep(front: seq<Entry>, e: Entry, ws: WorkspaceId)
    ensures HasEntry(front + [e], ws) <==> HasEntry(front, ws) || e.workspace == ws
  {
    var all := front + [e];
    assert all[|front|] == e;
    if i :| 0 <= i < |front| && front[i].workspace == ws {
      assert all[i].workspace == ws;
    }
  }

  lemma {:induction false} AppearingIffEntry(entries: seq<Entry>, ws: WorkspaceId)
    ensures ws in Appearing(entries) <==> HasEntry(entries, ws)
    ensures ws in Appearing(entries) <==> OfWorkspace(entries, ws) != []
  {
    if entries != [] {
      var front, last := entries[..|entries| - 1], entries[|entries| - 1];
      AppearingIffEntry(front, ws);
      HasEntryStep(front, last, ws);
      assert entries == front + [last];
    }
  }

  lemma {:induction false} AppearingOnce(entries: seq<Entry>)
    ensures forall j, k :: 0 <= j < k < |Appearing(entries)| ==> Appearing(entries)[j] != Appearing(entries)[k]
  {
    if entries != [] {
      AppearingOnce(entries[..|entries| - 1]);
    }
  }

  /** Each Workspace with an entry is listed once, the one with the newest activity first. */
  lemma {:induction false} AppearingOnceInOrder(entries: seq<Entry>)
    ensures forall ws :: ws in Appearing(entries) <==> HasEntry(entries, ws)
    ensures forall j, k :: 0 <= j < k < |Appearing(entries)| ==>
              Appearing(entries)[j] != Appearing(entries)[k] && SeenBefore(entries, Appearing(entries)[j], Appearing(entries)[k])
  {
    forall ws ensures ws in Appearing(entries) <==> HasEntry(entries, ws) {
      AppearingIffEntry(entries, ws);
    }
    if entries != [] {
      var front, last := entries[..|entries| - 1], entries[|entries| - 1];
      AppearingOnceInOrder(front);
      assert entries == front + [last];
      forall j, k | 0 <= j < k < |Appearing(entries)|
        ensures Appearing(entries)[j] != Appearing(entries)[k]
        ensures SeenBefore(entries, Appearing(entries)[j], Appearing(entries)[k])
      {
        if k == |Appearing(front)| {
          NewNameComesLast(front, last, Appearing(front)[j]);
        } else {
          StillSeenBefore(front, last, Appearing(front)[j], Appearing(front)[k]);
        }
      }
    }
  }

  lemma NewNameComesLast(front: seq<Entry>, last: Entry, a: WorkspaceId)
    requires a in Appearing(front) && last.workspace !in Appearing(front)
    ensures a != last.workspace && SeenBefore(front + [last], a, last.workspace)
  {
    AppearingIffEntry(front, a);
    AppearingIffEntry(front, last.workspace);
    var i :| 0 <= i < |front| && front[i].workspace == a;
    assert forall j :: 0 <= j < |front| ==> front[j].workspace != last.workspace;
    assert SeenBefore(front, a, last.workspace);
    StillSeenBefore(front, last, a, last.workspace);
  }

  /** The summary of one Workspace: how many entries it has, how many of them are unread, and the first of those. */
  ghost predicate Summarizes(entries: seq<Entry>, w: WorkspaceSummary) {
    var own := OfWorkspace(entries, w.workspace);
    w.terminals == |own| && w.unread == CountUnread(own) && IsLatestUnread(own, w.latestUnread)
  }

  ghost predicate AllSummarize(entries: seq<Entry>, workspaces: seq<WorkspaceSummary>) {
    forall k :: 0 <= k < |workspaces| ==> Summarizes(entries, workspaces[k])
  }

  /** The summaries are those of these Workspaces, in this order. */
  ghost predicate Named(workspaces: seq<WorkspaceSummary>, names: seq<WorkspaceId>) {
    |workspaces| == |names| && forall k :: 0 <= k < |names| ==> workspaces[k].workspace == names[k]
  }

  /** The shell Terminals with activity in scope, with what is cached and read of each, newest activity first. */
  ghost predicate ListsScope(rows: Table, acks: map<TerminalId, nat>, scope: Scope, entries: seq<Entry>) {
    && (forall id :: ListsEntry(entries, id) <==>
          && id in rows && rows[id].role == Shell && rows[id].activity.Some?
          && (scope.workspace.Some? ==> rows[id].workspace == scope.workspace.value)
          && (scope.workspaces.Some? ==> rows[id].workspace in scope.workspaces.value)
          && (scope.terminal.Some? ==> id == scope.terminal.value))
    && (forall k :: 0 <= k < |entries| ==>
          && entries[k].id in rows && entries[k].id in acks && rows[entries[k].id].activity == Some(entries[k].activity)
          && entries[k].workspace == rows[entries[k].id].workspace && entries[k].acknowledged == acks[entries[k].id])
    && (forall j, k :: 0 <= j < k < |entries| ==>
          entries[j].id != entries[k].id && entries[j].activity >= entries[k].activity)
  }

  lemma EntriesListScope(db: Db, scope: Scope, entries: seq<Entry>)
    requires EntriesOf(db, scope, entries)
    ensures ListsScope(db.rows, db.acks, scope, entries)
  {
    forall id ensures ListsEntry(entries, id) <==> InScope(db.rows, scope, id) {
      if ListsEntry(entries, id) {
        var k :| 0 <= k < |entries| && entries[k].id == id;
      }
    }
  }

  /** A first summary takes what is cached as read; what was read before stays. */
  ghost predicate Baselines(rows: Table, before: map<TerminalId, nat>, after: map<TerminalId, nat>, scope: Scope,
                            entries: seq<Entry>) {
    && (forall id :: id in after <==> id in before || ListsEntry(entries, id))
    && (forall id :: id in before ==> after[id] == before[id])
    && (forall id :: id in after && id !in before && id in rows ==> rows[id].activity == Some(after[id]))
  }

  lemma SummaryBaselines(db: Db, scope: Scope, entries: seq<Entry>)
    requires EntriesOf(Baselined(db, scope), scope, entries)
    ensures Baselines(db.rows, db.acks, Baselined(db, scope).acks, scope, entries)
  {
    EntriesListScope(Baselined(db, scope), scope, entries);
  }

  /** What the counting loop maintains after the first entries. */
  ghost predicate Counted(entries: seq<Entry>, workspaces: seq<WorkspaceSummary>) {
    && Named(workspaces, Appearing(entries))
    && AllSummarize(entries, workspaces)
    && SumUnread(workspaces) == CountUnread(entries)
  }

  /** A Workspace with no entry so far is summarized by zeros. */
  lemma NoneCounted(entries: seq<Entry>, workspaces: seq<WorkspaceSummary>, ws: WorkspaceId)
    requires Counted(entries, workspaces) && ws !in Appearing(entries)
    ensures var more := workspaces + [WorkspaceSummary(ws, 0, 0, None)];
            && Named(more, Appearing(entries) + [ws]) && AllSummarize(entries, more) && SumUnread(more) == CountUnread(entries)
  {
    AppearingIffEntry(entries, ws);
    var more := workspaces + [WorkspaceSummary(ws, 0, 0, None)];
    assert more[..|workspaces|] == workspaces;
    assert Summarizes(entries, more[|workspaces|]);
  }

  /** `setdefault`: the summary of the entry's Workspace, added when it is the first one. */
  method FindOrAdd(ghost entries: seq<Entry>, workspaces: seq<WorkspaceSummary>, ws: WorkspaceId)
    returns (more: seq<WorkspaceSummary>, k: nat)
    requires Counted(entries, workspaces)
    ensures Named(more, WithName(Appearing(entries), ws)) && AllSummarize(entries, more)
    ensures SumUnread(more) == CountUnread(entries) && k < |more| && more[k].workspace == ws
  {
    k := 0;
    while k < |workspaces| && workspaces[k].workspace != ws
      invariant k <= |workspaces| && forall j :: 0 <= j < k ==> workspaces[j].workspace != ws
    {
      k := k + 1;
    }
    more := workspaces;
    if k == |workspaces| {
      assert forall j :: 0 <= j < |workspaces| ==> Appearing(entries)[j] != ws;
      NoneCounted(entries, workspaces, ws);
      more := workspaces + [WorkspaceSummary(ws, 0, 0, None)];
    } else {
      assert Appearing(entries)[k] == ws;
    }
  }

  function Count(w: WorkspaceSummary, e: Entry): WorkspaceSummary {
    var w' := w.(terminals := w.terminals + 1);
    if Unread(e) then w'.(unread := w.unread + 1, latestUnread := if w.latestUnread.None? then Some(e.id) else w.latestUnread)
    else w'
  }

  lemma OfWorkspaceStep(entries: seq<Entry>, e: Entry, ws: WorkspaceId)
    ensures OfWorkspace(entries + [e], ws)
            == if e.workspace == ws then OfWorkspace(entries, ws) + [e] else OfWorkspace(entries, ws)
  {
    assert (entries + [e])[..|entries|] == entries;
  }

  lemma SummarizesStep(entries: seq<Entry>, e: Entry, w: WorkspaceSummary)
    requires Summarizes(entries, w)
    ensures Summarizes(entries + [e], if w.workspace == e.workspace then Count(w, e) else w)
  {
    OfWorkspaceStep(entries, e, w.workspace);
    if w.workspace == e.workspace {
      var own := OfWorkspace(entries, w.workspace);
      assert (own + [e])[..|own|] == own;
      LatestStep(own, e, w.latestUnread);
    }
  }

  lemma AllSummarizeStep(entries: seq<Entry>, workspaces: seq<WorkspaceSummary>, k: nat, e: Entry)
    requires AllSummarize(entries, workspaces) && k < |workspaces|
    requires forall j :: 0 <= j < |workspaces| ==> (workspaces[j].workspace == e.workspace <==> j == k)
    ensures AllSummarize(entries + [e], workspaces[k := Count(workspaces[k], e)])
  {
    var updated := workspaces[k := Count(workspaces[k], e)];
    forall j | 0 <= j < |updated| ensures Summarizes(entries + [e], updated[j]) {
      SummarizesStep(entries, e, workspaces[j]);
    }
  }

  lemma OneSummaryEach(names: seq<WorkspaceId>, workspaces: seq<WorkspaceSummary>, k: nat)
    requires Named(workspaces, names) && k < |names|
    requires forall i, j :: 0 <= i < j < |names| ==> names[i] != names[j]
    ensures forall j :: 0 <= j < |workspaces| ==> (workspaces[j].workspace == names[k] <==> j == k)
  {
  }

  lemma AppearingStep(entries: seq<Entry>, e: Entry)
    ensures Appearing(entries + [e]) == WithName(Appearing(entries), e.workspace)
    ensures CountUnread(entries + [e]) == CountUnread(entries) + if Unread(e) then 1 else 0
  {
    assert (entries + [e])[..|entries|] == entries;
  }

  lemma NamedStep(names: seq<WorkspaceId>, workspaces: seq<WorkspaceSummary>, k: nat, w: WorkspaceSummary)
    requires Named(workspaces, names) && k < |names| && w.workspace == names[k]
    ensures Named(workspaces[k := w], names)
  {
  }

  lemma CountedStep(entries: seq<Entry>, workspaces: seq<WorkspaceSummary>, k: nat, e: Entry)
    requires Named(workspaces, WithName(Appearing(entries), e.workspace)) && AllSummarize(entries, workspaces)
    requires SumUnread(workspaces) == CountUnread(entries) && k < |workspaces| && workspaces[k].workspace == e.workspace
    ensures Counted(entries + [e], workspaces[k := Count(workspaces[k], e)])
  {
    var w := Count(workspaces[k], e);
    AppearingStep(entries, e);
    AppearingOnce(entries + [e]);
    var names := Appearing(entries + [e]);
    assert names[k] == e.workspace && w.workspace == e.workspace;
    OneSummaryEach(names, workspaces, k);
    NamedStep(names, workspaces, k, w);
    AllSummarizeStep(entries, workspaces, k, e);
    SumAfterUpdate(workspaces, k, w);
    assert SumUnread(workspaces[k := w]) == CountUnread(entries + [e]);
  }

  /** The counters of one summary. */
  method Tally(w: WorkspaceSummary, e: Entry) returns (r: WorkspaceSummary)
    ensures r == Count(w, e)
  {
    r := w.(terminals := w.terminals + 1);
    if Unread(e) {
      r := r.(unread := r.unread + 1);
      if r.latestUnread.None? {
        r := r.(latestUnread := Some(e.id));
      }
    }
  }

  /** One turn of the loop over `terminal_rows`: count one entry for its Workspace. */
  method CountEntry(ghost entries: seq<Entry>, e: Entry, workspaces: seq<WorkspaceSummary>)
    returns (r: seq<WorkspaceSummary>)
    requires Counted(entries, workspaces)
    ensures Counted(entries + [e], r)
  {
    var more, k := FindOrAdd(entries, workspaces, e.workspace);
    var w := Tally(more[k], e);
    CountedStep(entries, more, k, e);
    r := more[k := w];
  }

  /** The loop that builds the summaries of the Workspaces. */
  method SummarizeWorkspaces(entries: seq<Entry>) returns (workspaces: seq<WorkspaceSummary>)
    ensures Counted(entries, workspaces)
  {
    workspaces := [];
    for i := 0 to |entries|
      invariant Counted(entries[..i], workspaces)
    {
      workspaces := CountEntry(entries[..i], entries[i], workspaces);
      assert entries[..i + 1] == entries[..i] + [entries[i]];
    }
    assert entries[..|entries|] == entries;
  }

  /** `unread_rows`: their number and the first of them. */
  method UnreadOf(entries: seq<Entry>) returns (unread: nat, latest: Option<TerminalId>)
    ensures unread == CountUnread(entries) && IsLatestUnread(entries, latest)
  {
    unread, latest := 0, None;
    for i := 0 to |entries|
      invariant unread == CountUnread(entries[..i]) && IsLatestUnread(entries[..i], latest)
    {
      LatestStep(entries[..i], entries[i], latest);
      AppearingStep(entries[..i], entries[i]);
      assert entries[..i + 1] == entries[..i] + [entries[i]];
      if Unread(entries[i]) {
        unread := unread + 1;
        latest := if latest.None? then Some(entries[i].id) else latest;
      }
    }
    assert entries[..|entries|] == entries;
  }

  /** What is computed from `terminal_rows`. */
  method Summarize(entries: seq<Entry>)
    returns (workspaces: seq<WorkspaceSummary>, unread: nat, latest: Option<TerminalId>)
    ensures unread == CountUnread(entries) == SumUnread(workspaces)
    ensures Named(workspaces, Appearing(entries)) && AllSummarize(entries, workspaces)
    ensures IsLatestUnread(entries, latest)
  {
    workspaces := SummarizeWorkspaces(entries);
    unread, latest := UnreadOf(entries);
  }

  lemma LatestStep(entries: seq<Entry>, e: Entry, latest: Option<TerminalId>)
    requires IsLatestUnread(entries, latest)
    ensures IsLatestUnread(entries + [e], if latest.None? && Unread(e) then Some(e.id) else latest)
  {
    var all := entries + [e];
    if latest.Some? {
      var i :| 0 <= i < |entries| && entries[i].id == latest.value && Unread(entries[i])
               && forall j :: 0 <= j < i ==> !Unread(entries[j]);
      assert all[i] == entries[i];
    } else if Unread(e) {
      assert all[|entries|] == e;
    }
  }
}
