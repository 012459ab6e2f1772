/**
 The `terminals` table and the projection of live tmux windows onto it
 (`reconcile_terminals`): the matching of reported windows to stored rows, and
 the tables after each of its delete, park and rewrite statements.
*/
module Terminals {
  import opened Wrappers

  type TerminalId = string
  type WorkspaceId = string

  datatype Role = Shell | FileRunRole | RemoteRunRole

  datatype Row = Row(
    workspace: WorkspaceId,
    name: string,
    window: string,
    role: Role,
    run: Option<string>,
    activity: Option<nat>,
    createdAt: int)

  type Table = map<TerminalId, Row>

  /** One reported window after validation. */
  datatype Item = Item(window: string, name: string, role: Role, run: Option<string>, activity: Option<nat>)

  /** A stored row as the SELECT returns it. */
  datatype Stored = Stored(id: TerminalId, row: Row)

  // -------------------------------------------------------------- constraints

  /** UNIQUE(workspace_id, tmux_window). */
  ghost predicate UniqueWindows(t: Table) {
    forall a, b :: (a in t && b in t && t[a].workspace == t[b].workspace && t[a].window == t[b].window) ==> a == b
  }

  /** UNIQUE(workspace_id, role) WHERE role != 'shell'. */
  ghost predicate UniqueRoles(t: Table) {
    forall a, b :: (a in t && b in t && t[a].workspace == t[b].workspace
                    && t[a].role == t[b].role && t[a].role != Shell) ==> a == b
  }

  ghost predicate Constraints(t: Table) {
    UniqueWindows(t) && UniqueRoles(t)
  }

  /** Whether writing one row keeps both constraints: what SQLite checks on INSERT and UPDATE. */
  predicate Admits(t: Table, id: TerminalId, row: Row) {
    forall other :: other in t && other != id && t[other].workspace == row.workspace ==>
      t[other].window != row.window && (row.role == Shell || t[other].role != row.role)
  }

  lemma WriteKeepsConstraints(t: Table, id: TerminalId, row: Row)
    requires Constraints(t)
    ensures Constraints(t[id := row]) <==> Admits(t, id, row)
  {
    var t' := t[id := row];
    if Constraints(t') {
      forall other | other in t && other != id && t[other].workspace == row.workspace
        ensures t[other].window != row.window && (row.role == Shell || t[other].role != row.role)
      {
        assert t'[other] == t[other] && t'[id] == row;
      }
    }
  }

  // ------------------------------------------------------- the reported items

  ghost predicate DistinctItems(items: seq<Item>) {
    && (forall i, j :: 0 <= i < j < |items| ==> items[i].window != items[j].window)
    && (forall i, j :: 0 <= i < j < |items| && items[i].role != Shell ==> items[i].role != items[j].role)
  }

  /** `stored` lists exactly the Workspace's rows, each once. */
  ghost predicate Lists(t: Table, ws: WorkspaceId, stored: seq<Stored>) {
    && (forall k :: 0 <= k < |stored| ==>
          stored[k].id in t && t[stored[k].id] == stored[k].row && stored[k].row.workspace == ws)
    && (forall id :: id in t && t[id].workspace == ws ==> exists k :: 0 <= k < |stored| && stored[k].id == id)
    && (forall j, k :: 0 <= j < k < |stored| ==> stored[j].id != stored[k].id)
  }

  // ------------------------------------------------------------- the matching

  /** `claimed_ids` and `assigned_by_window`. */
  datatype Matching = Matching(claimed: set<TerminalId>, byWindow: map<string, TerminalId>)

  function Take(m: Matching, item: Item, id: TerminalId): Matching {
    Matching(m.claimed + {id}, m.byWindow[item.window := id])
  }

  /** The first listed row with this property, as `next(...)` finds it. */
  function First(stored: seq<Stored>, p: Stored -> bool): (r: Option<TerminalId>)
    ensures r.Some? ==> exists k :: 0 <= k < |stored| && stored[k].id == r.value && p(stored[k])
    ensures r.None? ==> forall k :: 0 <= k < |stored| ==> !p(stored[k])
  {
    if stored == [] then None
    else if p(stored[0]) then Some(stored[0].id)
    else First(stored[1..], p)
  }

  function ByRole(stored: seq<Stored>, role: Role): Option<TerminalId> {
    First(stored, (s: Stored) => s.row.role == role)
  }

  function ShellByWindow(stored: seq<Stored>, window: string): Option<TerminalId> {
    First(stored, (s: Stored) => s.row.role == Shell && s.row.window == window)
  }

  /** A managed role is matched by role, or adopts the shell row of the same window. */
  function ManagedStep(stored: seq<Stored>, m: Matching, item: Item): Matching {
    if item.role == Shell then m
    else
      var byRole := ByRole(stored, item.role);
      var candidate := if byRole.Some? then byRole else ShellByWindow(stored, item.window);
      if candidate.Some? && candidate.value !in m.claimed then Take(m, item, candidate.value) else m
  }

  function FreeShell(stored: seq<Stored>, claimed: set<TerminalId>): Option<TerminalId> {
    First(stored, (s: Stored) => s.row.role == Shell && s.id !in claimed)
  }

  /** A row without a name counts as one called "shell". */
  function ShownName(row: Row): string {
    if row.name == "" then "shell" else row.name
  }

  function FreeShellNamed(stored: seq<Stored>, claimed: set<TerminalId>, name: string): Option<TerminalId> {
    First(stored, (s: Stored) => s.row.role == Shell && s.id !in claimed && ShownName(s.row) == name)
  }

  /** A shell window follows its own row, else a free shell row of the same name, else any free shell row. */
  function ShellStep(stored: seq<Stored>, m: Matching, item: Item): Matching {
    if item.role != Shell then m
    else
      var exact := ShellByWindow(stored, item.window);
      if exact.Some? && exact.value !in m.claimed then Take(m, item, exact.value)
      else
        var named := FreeShellNamed(stored, m.claimed, item.name);
        var candidate := if named.Some? then named else FreeShell(stored, m.claimed);
        if candidate.Some? then Take(m, item, candidate.value) else m
  }

  function AfterManaged(stored: seq<Stored>, items: seq<Item>): Matching {
    if items == [] then Matching({}, map[])
    else ManagedStep(stored, AfterManaged(stored, items[..|items| - 1]), items[|items| - 1])
  }

  /** `m` is the result of the managed pass. */
  function AfterShells(stored: seq<Stored>, items: seq<Item>, m: Matching): Matching {
    if items == [] then m
    else ShellStep(stored, AfterShells(stored, items[..|items| - 1], m), items[|items| - 1])
  }

  function Matched(stored: seq<Stored>, items: seq<Item>): Matching {
    AfterShells(stored, items, AfterManaged(stored, items))
  }

  // ------------------------------------------------ properties of the matching

  /** Claimed ids are rows of the Workspace, and no two windows share one. */
  ghost predicate Proper(t: Table, ws: WorkspaceId, m: Matching) {
    && m.claimed == m.byWindow.Values
    && (forall v, w :: v in m.byWindow && w in m.byWindow && m.byWindow[v] == m.byWindow[w] ==> v == w)
    && (forall id :: id in m.claimed ==> id in t && t[id].workspace == ws)
  }

  ghost predicate WindowIn(items: seq<Item>, w: string) {
    exists i :: 0 <= i < |items| && items[i].window == w
  }

  /** A step leaves the matching alone or gives the item's window one unclaimed row. */
  ghost predicate StepTakes(t: Table, ws: WorkspaceId, m: Matching, item: Item, m': Matching) {
    m' == m || exists id :: TakesRow(t, ws, m, item, m', id)
  }

  ghost predicate TakesRow(t: Table, ws: WorkspaceId, m: Matching, item: Item, m': Matching, id: TerminalId) {
    && m' == Take(m, item, id)
    && id !in m.claimed && id in t && t[id].workspace == ws
    && (t[id].role == Shell || t[id].role == item.role)
  }

  lemma ManagedStepTakes(t: Table, ws: WorkspaceId, stored: seq<Stored>, m: Matching, item: Item)
    requires Lists(t, ws, stored)
    ensures StepTakes(t, ws, m, item, ManagedStep(stored, m, item))
  {
    var m' := ManagedStep(stored, m, item);
    if m' != m {
      var byRole := ByRole(stored, item.role);
      var id := if byRole.Some? then byRole.value else ShellByWindow(stored, item.window).value;
      assert TakesRow(t, ws, m, item, m', id);
    }
  }

  lemma ShellStepTakes(t: Table, ws: WorkspaceId, stored: seq<Stored>, m: Matching, item: Item)
    requires Lists(t, ws, stored)
    ensures StepTakes(t, ws, m, item, ShellStep(stored, m, item))
    ensures item.role == Shell && ShellStep(stored, m, item) == m ==>
              forall id :: id in t && t[id].workspace == ws && t[id].role == Shell ==> id in m.claimed
  {
    var m' := ShellStep(stored, m, item);
    if item.role == Shell {
      var exact := ShellByWindow(stored, item.window);
      var named := FreeShellNamed(stored, m.claimed, item.name);
      var free := FreeShell(stored, m.claimed);
      if exact.Some? && exact.value !in m.claimed {
        assert TakesRow(t, ws, m, item, m', exact.value);
      } else if named.Some? {
        assert TakesRow(t, ws, m, item, m', named.value);
      } else if free.Some? {
        assert TakesRow(t, ws, m, item, m', free.value);
      }
    }
  }

  lemma TakeKeepsProper(t: Table, ws: WorkspaceId, m: Matching, item: Item, m': Matching)
    requires Proper(t, ws, m) && item.window !in m.byWindow && StepTakes(t, ws, m, item, m')
    ensures Proper(t, ws, m')
  {
    if m' != m {
      var id :| TakesRow(t, ws, m, item, m', id);
      forall x ensures x in m'.claimed <==> x in m'.byWindow.Values {
        if x in m.claimed {
          var w :| w in m.byWindow && m.byWindow[w] == x;
          assert m'.byWindow[w] == x;
        }
        if x == id {
          assert m'.byWindow[item.window] == x;
        }
      }
    }
  }

  // The parts of the pass invariants, one predicate each.

  /** Windows still to be matched, and in the managed pass all shell windows, have no row yet. */
  ghost predicate Unmatched(items: seq<Item>, n: nat, managedOnly: bool, m: Matching) {
    forall i :: 0 <= i < |items| && (if managedOnly then i >= n || items[i].role == Shell
                                     else i >= n && items[i].role == Shell)
      ==> items[i].window !in m.byWindow
  }

  /** A window is matched to a row of its own role or to a shell row. */
  ghost predicate RolesFit(t: Table, items: seq<Item>, m: Matching) {
    forall i :: 0 <= i < |items| && items[i].window in m.byWindow ==>
      var id := m.byWindow[items[i].window];
      id in t && (t[id].role == Shell || t[id].role == items[i].role)
  }

  /** A reported role that some row of the Workspace already has is matched to that row. */
  ghost predicate RolesKept(t: Table, ws: WorkspaceId, items: seq<Item>, n: nat, m: Matching) {
    forall i, id :: 0 <= i < n && i < |items| && items[i].role != Shell
      && id in t && t[id].workspace == ws && t[id].role == items[i].role
      ==> items[i].window in m.byWindow && m.byWindow[items[i].window] == id
  }

  /** Rows of roles still to come are unclaimed. */
  ghost predicate LaterRolesFree(t: Table, items: seq<Item>, n: nat, m: Matching) {
    forall i, id :: n <= i < |items| && items[i].role != Shell && id in m.claimed && id in t
      ==> t[id].role != items[i].role
  }

  ghost predicate KeysAreWindows(items: seq<Item>, m: Matching) {
    forall w :: w in m.byWindow ==> WindowIn(items, w)
  }

  /** Every stored shell row of the Workspace is claimed. */
  ghost predicate NoShellLeft(t: Table, ws: WorkspaceId, m: Matching) {
    forall id :: id in t && t[id].workspace == ws && t[id].role == Shell ==> id in m.claimed
  }

  /** A shell window already seen that got no row means that none was left. */
  ghost predicate ShellsExhausted(t: Table, ws: WorkspaceId, items: seq<Item>, n: nat, m: Matching) {
    forall i :: 0 <= i < n && i < |items| && items[i].role == Shell && items[i].window !in m.byWindow
      ==> NoShellLeft(t, ws, m)
  }

  lemma TakeKeepsRest(t: Table, ws: WorkspaceId, items: seq<Item>, n: nat, m: Matching, m': Matching)
    requires DistinctItems(items) && n < |items| && StepTakes(t, ws, m, items[n], m')
    requires RolesFit(t, items, m) && KeysAreWindows(items, m)
    ensures RolesFit(t, items, m') && KeysAreWindows(items, m')
  {
    assert WindowIn(items, items[n].window);
    if m' != m {
      var id :| TakesRow(t, ws, m, items[n], m', id);
      forall i | 0 <= i < |items| && items[i].window in m'.byWindow
        ensures var r := m'.byWindow[items[i].window];
                r in t && (t[r].role == Shell || t[r].role == items[i].role)
      {
        assert i != n ==> items[i].window != items[n].window;
      }
    }
  }

  ghost predicate ManagedInvariant(t: Table, ws: WorkspaceId, items: seq<Item>, n: nat, m: Matching) {
    && Proper(t, ws, m) && RolesFit(t, items, m) && KeysAreWindows(items, m)
    && Unmatched(items, n, true, m)
    && RolesKept(t, ws, items, n, m)
    && LaterRolesFree(t, items, n, m)
  }

  lemma RoleIsTaken(t: Table, ws: WorkspaceId, stored: seq<Stored>, items: seq<Item>, n: nat, m: Matching, id: TerminalId)
    requires UniqueRoles(t) && Lists(t, ws, stored) && n < |items| && items[n].role != Shell
    requires LaterRolesFree(t, items, n, m)
    requires id in t && t[id].workspace == ws && t[id].role == items[n].role
    ensures ManagedStep(stored, m, items[n]) == Take(m, items[n], id)
  {
    var k :| 0 <= k < |stored| && stored[k].id == id;
    var found := ByRole(stored, items[n].role);
    assert found.Some?;
    var j :| 0 <= j < |stored| && stored[j].id == found.value && stored[j].row.role == items[n].role;
    assert found.value == id;
  }

  lemma ManagedStepKeepsRoles(t: Table, ws: WorkspaceId, stored: seq<Stored>, items: seq<Item>, n: nat, m: Matching)
    requires Constraints(t) && Lists(t, ws, stored) && DistinctItems(items) && n < |items|
    requires RolesKept(t, ws, items, n, m) && LaterRolesFree(t, items, n, m) && Unmatched(items, n, true, m)
    ensures RolesKept(t, ws, items, n + 1, ManagedStep(stored, m, items[n]))
    ensures LaterRolesFree(t, items, n + 1, ManagedStep(stored, m, items[n]))
    ensures Unmatched(items, n + 1, true, ManagedStep(stored, m, items[n]))
  {
    var m' := ManagedStep(stored, m, items[n]);
    ManagedStepTakes(t, ws, stored, m, items[n]);
    forall i, id | 0 <= i < n + 1 && items[i].role != Shell
      && id in t && t[id].workspace == ws && t[id].role == items[i].role
      ensures items[i].window in m'.byWindow && m'.byWindow[items[i].window] == id
    {
      if i == n {
        RoleIsTaken(t, ws, stored, items, n, m, id);
      } else {
        assert items[i].window != items[n].window;
      }
    }
    if items[n].role != Shell && m' != m {
      var id :| TakesRow(t, ws, m, items[n], m', id);
    }
  }

  lemma {:induction false} ManagedPass(t: Table, ws: WorkspaceId, stored: seq<Stored>, items: seq<Item>, n: nat)
    requires Constraints(t) && Lists(t, ws, stored) && DistinctItems(items) && n <= |items|
    ensures ManagedInvariant(t, ws, items, n, AfterManaged(stored, items[..n]))
  {
    if n > 0 {
      ManagedPass(t, ws, stored, items, n - 1);
      assert items[..n][..n - 1] == items[..n - 1];
      var m := AfterManaged(stored, items[..n - 1]);
      ManagedStepTakes(t, ws, stored, m, items[n - 1]);
      TakeKeepsProper(t, ws, m, items[n - 1], ManagedStep(stored, m, items[n - 1]));
      TakeKeepsRest(t, ws, items, n - 1, m, ManagedStep(stored, m, items[n - 1]));
      ManagedStepKeepsRoles(t, ws, stored, items, n - 1, m);
    }
  }

  ghost predicate ShellInvariant(t: Table, ws: WorkspaceId, items: seq<Item>, n: nat, m: Matching) {
    && Proper(t, ws, m) && RolesFit(t, items, m) && KeysAreWindows(items, m)
    && Unmatched(items, n, false, m)
    && RolesKept(t, ws, items, |items|, m)
    && ShellsExhausted(t, ws, items, n, m)
  }

  lemma ShellStepKeepsInvariant(t: Table, ws: WorkspaceId, stored: seq<Stored>, items: seq<Item>, n: nat, m: Matching)
    requires Constraints(t) && Lists(t, ws, stored) && DistinctItems(items) && n < |items|
    requires Unmatched(items, n, false, m) && RolesKept(t, ws, items, |items|, m) && ShellsExhausted(t, ws, items, n, m)
    ensures Unmatched(items, n + 1, false, ShellStep(stored, m, items[n]))
    ensures RolesKept(t, ws, items, |items|, ShellStep(stored, m, items[n]))
    ensures ShellsExhausted(t, ws, items, n + 1, ShellStep(stored, m, items[n]))
  {
    var m' := ShellStep(stored, m, items[n]);
    ShellStepTakes(t, ws, stored, m, items[n]);
    if m' != m {
      var id :| TakesRow(t, ws, m, items[n], m', id);
      assert forall i :: 0 <= i < |items| && i != n ==> items[i].window != items[n].window;
      assert NoShellLeft(t, ws, m) ==> NoShellLeft(t, ws, m');
    }
  }

  lemma {:induction false} ShellPass(t: Table, ws: WorkspaceId, stored: seq<Stored>, items: seq<Item>, n: nat)
    requires Constraints(t) && Lists(t, ws, stored) && DistinctItems(items) && n <= |items|
    ensures ShellInvariant(t, ws, items, n, AfterShells(stored, items[..n], AfterManaged(stored, items)))
  {
    var managed := AfterManaged(stored, items);
    if n == 0 {
      ManagedPass(t, ws, stored, items, |items|);
      assert items[..|items|] == items;
    } else {
      ShellPass(t, ws, stored, items, n - 1);
      assert items[..n][..n - 1] == items[..n - 1];
      var m := AfterShells(stored, items[..n - 1], managed);
      var m' := ShellStep(stored, m, items[n - 1]);
      ShellStepTakes(t, ws, stored, m, items[n - 1]);
      if m' != m {
        TakeKeepsProper(t, ws, m, items[n - 1], m');
        TakeKeepsRest(t, ws, items, n - 1, m, m');
      }
      ShellStepKeepsInvariant(t, ws, stored, items, n - 1, m);
    }
  }

  /** The complete matching of distinct items to the rows of a constrained table. */
  lemma MatchingIsSound(t: Table, ws: WorkspaceId, stored: seq<Stored>, items: seq<Item>)
    requires Constraints(t) && Lists(t, ws, stored) && DistinctItems(items)
    ensures ShellInvariant(t, ws, items, |items|, Matched(stored, items))
  {
    ShellPass(t, ws, stored, items, |items|);
    assert items[..|items|] == items;
  }

  // ------------------------------------------- the tables along the statements

  const PARKING: string := "__termroom_sync__"

  function ParkingName(id: TerminalId): string {
    PARKING + id
  }

  predicate IsParkingName(window: string) {
    PARKING <= window
  }

  lemma ParkingNamesDiffer(a: TerminalId, b: TerminalId)
    ensures ParkingName(a) == ParkingName(b) ==> a == b
    ensures IsParkingName(ParkingName(a))
  {
    assert ParkingName(a)[|PARKING|..] == a && ParkingName(b)[|PARKING|..] == b;
  }

  function Position(ids: seq<TerminalId>, id: TerminalId): (p: nat)
    ensures p <= |ids|
    ensures p < |ids| ==> ids[p] == id
    ensures p == |ids| <==> id !in ids
    ensures forall k :: 0 <= k < p ==> ids[k] != id
  {
    if ids == [] then 0 else if ids[0] == id then 0 else 1 + Position(ids[1..], id)
  }

  ghost predicate Distinct(ids: seq<TerminalId>) {
    forall i, j :: 0 <= i < j < |ids| ==> ids[i] != ids[j]
  }

  /** The row each item ends up in: the matched one, or a new one under a fresh id. */
  function RowIds(items: seq<Item>, m: Matching, newIds: seq<TerminalId>): (ids: seq<TerminalId>)
    requires |newIds| == |items|
    ensures |ids| == |items|
    ensures forall i :: 0 <= i < |items| ==>
      ids[i] == if items[i].window in m.byWindow then m.byWindow[items[i].window] else newIds[i]
  {
    seq(|items|, i requires 0 <= i < |items| =>
      if items[i].window in m.byWindow then m.byWindow[items[i].window] else newIds[i])
  }

  function MaxActivity(stored: Option<nat>, reported: Option<nat>): Option<nat> {
    if reported.None? then stored
    else if stored.None? || stored.value < reported.value then reported
    else stored
  }

  function ParkedRow(id: TerminalId, row: Row): Row {
    row.(window := ParkingName(id), role := Shell, run := None)
  }

  /** The rewritten row of a matched item, or the inserted row of an unmatched one. */
  function NewRow(t: Table, ws: WorkspaceId, id: TerminalId, item: Item, now: int): Row {
    if id in t
    then t[id].(name := item.name, window := item.window, role := item.role, run := item.run,
                activity := MaxActivity(t[id].activity, item.activity))
    else Row(ws, item.name, item.window, item.role, item.run, item.activity, now)
  }

  /** After all deletions and the first `k` park updates. */
  function Parked(t: Table, ws: WorkspaceId, claimed: set<TerminalId>, ids: seq<TerminalId>, k: nat): Table {
    map id | id in t && (t[id].workspace != ws || id in claimed) ::
      if Position(ids, id) < k && Position(ids, id) < |ids| then ParkedRow(id, t[id]) else t[id]
  }

  /** After the first `k` rewrites and inserts on top of the parked table. */
  function Written(parked: Table, t: Table, ws: WorkspaceId, ids: seq<TerminalId>, items: seq<Item>, k: nat, now: int): Table
    requires |ids| == |items| && k <= |ids|
  {
    map id | id in parked.Keys + (set x | x in ids[..k]) ::
      if Position(ids, id) < k then NewRow(t, ws, id, items[Position(ids, id)], now) else parked[id]
  }

  /** The table a successful reconcile leaves behind. */
  function Reconciled(t: Table, ws: WorkspaceId, ids: seq<TerminalId>, items: seq<Item>, now: int): Table
    requires |ids| == |items|
  {
    map id | id in (set x | x in ids) + (set x | x in t && t[x].workspace != ws) ::
      if id in ids then NewRow(t, ws, id, items[Position(ids, id)], now) else t[id]
  }

  /** What a reconcile may rely on: matching rows are stored rows of the Workspace, new ids are new. */
  ghost predicate Plan(t: Table, ws: WorkspaceId, claimed: set<TerminalId>, ids: seq<TerminalId>) {
    && Distinct(ids)
    && (forall id :: id in claimed ==> id in t && t[id].workspace == ws && id in ids)
    && (forall id :: id in ids && id in t ==> id in claimed)
  }

  /** No reported and no stored window of the Workspace looks like a parking name. */
  ghost predicate Clean(t: Table, ws: WorkspaceId, items: seq<Item>) {
    && (forall i :: 0 <= i < |items| ==> !IsParkingName(items[i].window))
    && (forall id :: id in t && t[id].workspace == ws ==> !IsParkingName(t[id].window))
  }

  /** None of the first `k` rows is parked on the window of a row that is parked later. */
  ghost predicate NoParkClash(t: Table, ids: seq<TerminalId>, k: nat) {
    forall i, j :: 0 <= i < k <= j < |ids| && ids[i] in t && ids[j] in t ==> t[ids[j]].window != ParkingName(ids[i])
  }

  /** None of the first `k` reported windows is the parking name of a row that is still parked. */
  ghost predicate NoWriteClash(t: Table, ids: seq<TerminalId>, items: seq<Item>, k: nat)
    requires |ids| == |items|
  {
    forall i, j :: 0 <= i < k <= j < |ids| && ids[j] in t ==> items[i].window != ParkingName(ids[j])
  }

  /** No statement of the reconcile meets a parking name that is in use. */
  ghost predicate NoClash(t: Table, ids: seq<TerminalId>, items: seq<Item>)
    requires |ids| == |items|
  {
    forall i, j :: 0 <= i < j < |ids| && ids[j] in t ==>
      items[i].window != ParkingName(ids[j]) && (ids[i] in t ==> t[ids[j]].window != ParkingName(ids[i]))
  }

  lemma NoClashAtAnyStep(t: Table, ids: seq<TerminalId>, items: seq<Item>)
    requires |ids| == |items|
    ensures NoClash(t, ids, items)
            <==> (forall k: nat :: k <= |ids| ==> NoParkClash(t, ids, k)) && (forall k: nat :: k <= |ids| ==> NoWriteClash(t, ids, items, k))
  {
    if (forall k: nat :: k <= |ids| ==> NoParkClash(t, ids, k)) && (forall k: nat :: k <= |ids| ==> NoWriteClash(t, ids, items, k)) {
      forall i, j | 0 <= i < j < |ids| && ids[j] in t
        ensures items[i].window != ParkingName(ids[j]) && (ids[i] in t ==> t[ids[j]].window != ParkingName(ids[i]))
      {
        assert NoParkClash(t, ids, i + 1) && NoWriteClash(t, ids, items, i + 1);
      }
    }
  }

  lemma CleanHasNoClash(t: Table, ws: WorkspaceId, claimed: set<TerminalId>, ids: seq<TerminalId>, items: seq<Item>)
    requires |ids| == |items| && Plan(t, ws, claimed, ids) && Clean(t, ws, items)
    ensures NoClash(t, ids, items)
  {
    forall i, j | 0 <= i < j < |ids| && ids[j] in t
      ensures items[i].window != ParkingName(ids[j]) && (ids[i] in t ==> t[ids[j]].window != ParkingName(ids[i]))
    {
      ParkingNamesDiffer(ids[j], ids[i]);
      ParkingNamesDiffer(ids[i], ids[j]);
      assert ids[j] in ids;
    }
  }

  /** The clash exists: two stored shell rows, the second on the parking name of the first, both reported unchanged. */
  lemma ParkingNameInUse()
    ensures var a, b := Row("w", "shell", "@1", Shell, None, None, 0), Row("w", "shell", ParkingName("a"), Shell, None, None, 1);
            var t := map["a" := a, "b" := b];
            var stored := [Stored("a", a), Stored("b", b)];
            var items := [Item("@1", "shell", Shell, None, None), Item(ParkingName("a"), "shell", Shell, None, None)];
            && Constraints(t) && Lists(t, "w", stored) && DistinctItems(items)
            && RowIds(items, Matched(stored, items), ["c", "d"]) == ["a", "b"]
            && !NoClash(t, ["a", "b"], items)
  {
    var a, b := Row("w", "shell", "@1", Shell, None, None, 0), Row("w", "shell", ParkingName("a"), Shell, None, None, 1);
    var stored := [Stored("a", a), Stored("b", b)];
    var items := [Item("@1", "shell", Shell, None, None), Item(ParkingName("a"), "shell", Shell, None, None)];
    assert ParkingName("a")[0] == '_' && "@1"[0] == '@';
    assert stored[0].id == "a" && stored[1].id == "b";
    var start := Matching({}, map[]);
    assert items[..1] == [items[0]] && [items[0]][..0] == [] && items[..|items| - 1] == items[..1];
    assert AfterManaged(stored, items[..1]) == start;
    assert AfterManaged(stored, items) == start;
    assert ShellByWindow(stored, "@1") == Some("a") && ShellByWindow(stored, ParkingName("a")) == Some("b");
    var half := Take(start, items[0], "a");
    assert AfterShells(stored, items[..1], start) == half;
    assert "b" !in half.claimed;
    assert AfterShells(stored, items, start) == Take(half, items[1], "b");
  }

  lemma PositionOf(ids: seq<TerminalId>, i: nat, id: TerminalId)
    requires Distinct(ids) && i < |ids|
    ensures Position(ids, id) == i <==> id == ids[i]
    ensures id in ids[..i + 1] <==> id in ids[..i] || id == ids[i]
  {
    assert ids[..i + 1] == ids[..i] + [ids[i]];
  }

  /** Deleting rows never breaks a constraint. */
  lemma SubtableKeepsConstraints(t: Table, s: Table)
    requires Constraints(t) && forall id :: id in s ==> id in t && s[id] == t[id]
    ensures Constraints(s)
  {
  }

  lemma ParkedRowsOf(t: Table, ws: WorkspaceId, claimed: set<TerminalId>, ids: seq<TerminalId>, k: nat, id: TerminalId)
    requires Plan(t, ws, claimed, ids) && k <= |ids| && id in Parked(t, ws, claimed, ids, k)
    ensures var s := Parked(t, ws, claimed, ids, k);
            && id in t && s[id].workspace == t[id].workspace
            && (if t[id].workspace == ws && Position(ids, id) < k then s[id] == ParkedRow(id, t[id]) else s[id] == t[id])
            && (t[id].workspace == ws ==> Position(ids, id) < |ids|)
  {
  }

  lemma ParkedWithoutClash(t: Table, ws: WorkspaceId, claimed: set<TerminalId>, ids: seq<TerminalId>, k: nat)
    requires Constraints(t) && Plan(t, ws, claimed, ids) && NoParkClash(t, ids, k) && k <= |ids|
    ensures Constraints(Parked(t, ws, claimed, ids, k))
  {
    var s := Parked(t, ws, claimed, ids, k);
    forall a, b | a in s && b in s && s[a].workspace == s[b].workspace && s[a].window == s[b].window ensures a == b {
      ParkedRowsOf(t, ws, claimed, ids, k, a);
      ParkedRowsOf(t, ws, claimed, ids, k, b);
      ParkingNamesDiffer(a, b);
    }
    forall a, b | a in s && b in s && s[a].workspace == s[b].workspace && s[a].role == s[b].role && s[a].role != Shell
      ensures a == b
    {
      ParkedRowsOf(t, ws, claimed, ids, k, a);
      ParkedRowsOf(t, ws, claimed, ids, k, b);
    }
  }

  /** Both constraints hold after the deletions and `k` park updates exactly when no parking name was in use. */
  lemma ParkedKeepsConstraints(t: Table, ws: WorkspaceId, claimed: set<TerminalId>, ids: seq<TerminalId>, k: nat)
    requires Constraints(t) && Plan(t, ws, claimed, ids) && k <= |ids|
    ensures Constraints(Parked(t, ws, claimed, ids, k)) <==> NoParkClash(t, ids, k)
  {
    var s := Parked(t, ws, claimed, ids, k);
    if NoParkClash(t, ids, k) {
      ParkedWithoutClash(t, ws, claimed, ids, k);
    }
    if Constraints(s) {
      forall i, j | 0 <= i < k <= j < |ids| && ids[i] in t && ids[j] in t
        ensures t[ids[j]].window != ParkingName(ids[i])
      {
        assert ids[i] in ids && ids[j] in ids && ids[i] in s && ids[j] in s;
        PositionOf(ids, i, ids[i]);
        PositionOf(ids, j, ids[j]);
        assert s[ids[i]].window == ParkingName(ids[i]) && s[ids[j]] == t[ids[j]];
      }
    }
  }

  /** Every row of the table is a rewritten item, a parked row, or a row of another Workspace. */
  ghost predicate WrittenOrParked(t: Table, ws: WorkspaceId, ids: seq<TerminalId>, items: seq<Item>, k: nat, now: int,
                                  s: Table, id: TerminalId)
    requires |ids| == |items| && k <= |ids| && id in s
  {
    || (Position(ids, id) < k && s[id].workspace == ws && s[id].window == items[Position(ids, id)].window
        && s[id].role == items[Position(ids, id)].role)
    || (id in t && Position(ids, id) >= k && t[id].workspace == ws && s[id] == ParkedRow(id, t[id]))
    || (id in t && t[id].workspace != ws && s[id] == t[id])
  }

  lemma WrittenRowKinds(t: Table, ws: WorkspaceId, claimed: set<TerminalId>, ids: seq<TerminalId>,
                        items: seq<Item>, k: nat, now: int, id: TerminalId)
    requires Plan(t, ws, claimed, ids) && |ids| == |items| && k <= |ids|
    requires id in Written(Parked(t, ws, claimed, ids, |ids|), t, ws, ids, items, k, now)
    ensures WrittenOrParked(t, ws, ids, items, k, now, Written(Parked(t, ws, claimed, ids, |ids|), t, ws, ids, items, k, now), id)
  {
  }

  lemma WrittenKeepsWindows(t: Table, ws: WorkspaceId, ids: seq<TerminalId>, items: seq<Item>, k: nat, now: int, s: Table)
    requires UniqueWindows(t) && DistinctItems(items) && |ids| == |items| && k <= |ids|
    requires NoWriteClash(t, ids, items, k) && forall id :: id in s && id in t && t[id].workspace == ws ==> id in ids
    requires forall id :: id in s ==> WrittenOrParked(t, ws, ids, items, k, now, s, id)
    ensures UniqueWindows(s)
  {
    forall a, b | a in s && b in s && s[a].workspace == s[b].workspace && s[a].window == s[b].window ensures a == b {
      assert WrittenOrParked(t, ws, ids, items, k, now, s, a) && WrittenOrParked(t, ws, ids, items, k, now, s, b);
      ParkingNamesDiffer(a, b);
    }
  }

  lemma WrittenKeepsRoles(t: Table, ws: WorkspaceId, ids: seq<TerminalId>, items: seq<Item>, k: nat, now: int, s: Table)
    requires UniqueRoles(t) && DistinctItems(items) && |ids| == |items| && k <= |ids|
    requires forall id :: id in s ==> WrittenOrParked(t, ws, ids, items, k, now, s, id)
    ensures UniqueRoles(s)
  {
    forall a, b | a in s && b in s && s[a].workspace == s[b].workspace && s[a].role == s[b].role && s[a].role != Shell
      ensures a == b
    {
      assert WrittenOrParked(t, ws, ids, items, k, now, s, a) && WrittenOrParked(t, ws, ids, items, k, now, s, b);
    }
  }

  lemma WrittenWithoutClash(t: Table, ws: WorkspaceId, claimed: set<TerminalId>, ids: seq<TerminalId>,
                            items: seq<Item>, k: nat, now: int)
    requires Constraints(t) && Plan(t, ws, claimed, ids) && DistinctItems(items)
    requires |ids| == |items| && k <= |ids| && NoWriteClash(t, ids, items, k)
    ensures Constraints(Written(Parked(t, ws, claimed, ids, |ids|), t, ws, ids, items, k, now))
  {
    var s := Written(Parked(t, ws, claimed, ids, |ids|), t, ws, ids, items, k, now);
    forall id | id in s ensures WrittenOrParked(t, ws, ids, items, k, now, s, id) {
      WrittenRowKinds(t, ws, claimed, ids, items, k, now, id);
    }
    WrittenKeepsWindows(t, ws, ids, items, k, now, s);
    WrittenKeepsRoles(t, ws, ids, items, k, now, s);
  }

  /** Both constraints hold after `k` writes exactly when no written window was the name of a row still parked. */
  lemma WrittenKeepsConstraints(t: Table, ws: WorkspaceId, claimed: set<TerminalId>, ids: seq<TerminalId>,
                                items: seq<Item>, k: nat, now: int)
    requires Constraints(t) && Plan(t, ws, claimed, ids) && DistinctItems(items)
    requires |ids| == |items| && k <= |ids|
    ensures Constraints(Written(Parked(t, ws, claimed, ids, |ids|), t, ws, ids, items, k, now))
            <==> NoWriteClash(t, ids, items, k)
  {
    if NoWriteClash(t, ids, items, k) {
      WrittenWithoutClash(t, ws, claimed, ids, items, k, now);
    }
    var s := Written(Parked(t, ws, claimed, ids, |ids|), t, ws, ids, items, k, now);
    if Constraints(s) {
      forall i, j | 0 <= i < k <= j < |ids| && ids[j] in t ensures items[i].window != ParkingName(ids[j]) {
        WrittenAt(t, ws, claimed, ids, items, k, now, i);
        WrittenAt(t, ws, claimed, ids, items, k, now, j);
      }
    }
  }

  /** The row of item `i` after `k` writes: written, or parked if it is stored. */
  lemma WrittenAt(t: Table, ws: WorkspaceId, claimed: set<TerminalId>, ids: seq<TerminalId>, items: seq<Item>, k: nat,
                  now: int, i: nat)
    requires Plan(t, ws, claimed, ids) && |ids| == |items| && k <= |ids| && i < |ids| && (i < k || ids[i] in t)
    ensures var s := Written(Parked(t, ws, claimed, ids, |ids|), t, ws, ids, items, k, now);
            && ids[i] in s && s[ids[i]].workspace == ws
            && s[ids[i]].window == if i < k then items[i].window else ParkingName(ids[i])
  {
    PositionOf(ids, i, ids[i]);
    assert ids[i] in ids;
    if i < k {
      assert ids[..k][i] == ids[i];
    }
  }

  ghost predicate NewIds(t: Table, newIds: seq<TerminalId>) {
    Distinct(newIds) && forall k :: 0 <= k < |newIds| ==> newIds[k] !in t
  }

  /** The matching and fresh ids give every item its own row, and every claimed row an item. */
  lemma MatchingGivesPlan(t: Table, ws: WorkspaceId, items: seq<Item>, m: Matching, newIds: seq<TerminalId>)
    requires DistinctItems(items) && |newIds| == |items| && NewIds(t, newIds)
    requires Proper(t, ws, m) && KeysAreWindows(items, m)
    ensures Plan(t, ws, m.claimed, RowIds(items, m, newIds))
  {
    var ids := RowIds(items, m, newIds);
    forall id | id in m.claimed ensures id in ids {
      var w :| w in m.byWindow && m.byWindow[w] == id;
      assert WindowIn(items, w);
      var i :| 0 <= i < |items| && items[i].window == w;
      assert ids[i] == id;
    }
    forall i, j | 0 <= i < j < |ids| ensures ids[i] != ids[j] {
      if items[i].window in m.byWindow {
        assert ids[i] in m.byWindow.Values;
      }
      if items[j].window in m.byWindow {
        assert ids[j] in m.byWindow.Values;
      }
    }
    forall id | id in ids && id in t ensures id in m.claimed {
      var i :| 0 <= i < |ids| && ids[i] == id;
      assert items[i].window in m.byWindow;
      assert id in m.byWindow.Values;
    }
  }

  lemma StatementsReachReconciled(t: Table, ws: WorkspaceId, claimed: set<TerminalId>, ids: seq<TerminalId>,
                                  items: seq<Item>, now: int)
    requires Plan(t, ws, claimed, ids) && |ids| == |items|
    ensures Written(Parked(t, ws, claimed, ids, |ids|), t, ws, ids, items, |ids|, now) == Reconciled(t, ws, ids, items, now)
  {
    assert ids[..|ids|] == ids;
    var a := Written(Parked(t, ws, claimed, ids, |ids|), t, ws, ids, items, |ids|, now);
    var b := Reconciled(t, ws, ids, items, now);
    assert a.Keys == b.Keys;
  }

  // -------------------------------------------------------------- the results

  ghost predicate Projects(row: Row, item: Item) {
    row.window == item.window && row.name == item.name && row.role == item.role && row.run == item.run
  }

  /**
   The Workspace's rows are in bijection with the reported windows: item i is
   row ids[i], the ids are distinct, there are no other rows, and no other
   Workspace is touched.
  */
  lemma ReconciledIsABijection(t: Table, ws: WorkspaceId, claimed: set<TerminalId>, ids: seq<TerminalId>,
                               items: seq<Item>, now: int)
    requires Plan(t, ws, claimed, ids) && |ids| == |items|
    ensures var t' := Reconciled(t, ws, ids, items, now);
            && Distinct(ids)
            && (forall i :: 0 <= i < |ids| ==> ids[i] in t' && t'[ids[i]].workspace == ws && Projects(t'[ids[i]], items[i]))
            && (forall id :: id in t' && t'[id].workspace == ws ==> id in ids)
            && (forall id :: id in t && t[id].workspace != ws ==> id in t' && t'[id] == t[id])
  {
    var t' := Reconciled(t, ws, ids, items, now);
    forall i | 0 <= i < |ids| ensures ids[i] in t' && t'[ids[i]].workspace == ws && Projects(t'[ids[i]], items[i]) {
      assert ids[i] in ids && Position(ids, ids[i]) == i;
    }
  }

  lemma MatchedRowsAreStored(t: Table, ws: WorkspaceId, m: Matching)
    requires Proper(t, ws, m)
    ensures forall w :: w in m.byWindow ==> m.byWindow[w] in t && t[m.byWindow[w]].workspace == ws
  {
    forall w | w in m.byWindow ensures m.byWindow[w] in t && t[m.byWindow[w]].workspace == ws {
      assert m.byWindow[w] in m.byWindow.Values;
    }
  }

  /** The row a reported item ends in, for a given listing of the stored rows. */
  function RowOf(stored: seq<Stored>, items: seq<Item>, newIds: seq<TerminalId>, i: nat): TerminalId
    requires |newIds| == |items| && i < |items|
  {
    RowIds(items, Matched(stored, items), newIds)[i]
  }

  /** A stored managed role that is still reported keeps its row id, whatever window it is in now. */
  lemma ManagedRoleKeepsItsRow(t: Table, ws: WorkspaceId, stored: seq<Stored>, items: seq<Item>,
                               newIds: seq<TerminalId>, i: nat, id: TerminalId)
    requires Constraints(t) && Lists(t, ws, stored) && DistinctItems(items) && |newIds| == |items| && i < |items|
    requires items[i].role != Shell && id in t && t[id].workspace == ws && t[id].role == items[i].role
    ensures RowOf(stored, items, newIds, i) == id
  {
    MatchingIsSound(t, ws, stored, items);
  }

  /** No shell window ever takes over a stored managed row. */
  lemma ShellNeverTakesManagedRow(t: Table, ws: WorkspaceId, stored: seq<Stored>, items: seq<Item>,
                                  newIds: seq<TerminalId>, i: nat)
    requires Constraints(t) && Lists(t, ws, stored) && DistinctItems(items)
    requires |newIds| == |items| && NewIds(t, newIds) && i < |items| && items[i].role == Shell
    ensures var id := RowOf(stored, items, newIds, i); id in t ==> t[id].role == Shell && t[id].workspace == ws
  {
    MatchingIsSound(t, ws, stored, items);
    var m := Matched(stored, items);
    MatchedRowsAreStored(t, ws, m);
  }

  /** A shell row is inserted only if no stored shell row is deleted. */
  lemma NoShellInsertedWhileOneIsDeleted(t: Table, ws: WorkspaceId, stored: seq<Stored>, items: seq<Item>,
                                         newIds: seq<TerminalId>, i: nat, id: TerminalId)
    requires Constraints(t) && Lists(t, ws, stored) && DistinctItems(items)
    requires |newIds| == |items| && NewIds(t, newIds)
    requires i < |items| && items[i].role == Shell && RowOf(stored, items, newIds, i) !in t
    requires id in t && t[id].workspace == ws && t[id].role == Shell
    ensures id in RowIds(items, Matched(stored, items), newIds)
  {
    MatchingIsSound(t, ws, stored, items);
    var m := Matched(stored, items);
    MatchedRowsAreStored(t, ws, m);
    assert NoShellLeft(t, ws, m);
    MatchingGivesPlan(t, ws, items, m, newIds);
  }

  /** Item i is already row ids[i] of the table. */
  ghost predicate Settled(t: Table, ws: WorkspaceId, ids: seq<TerminalId>, items: seq<Item>) {
    && |ids| == |items|
    && forall i :: 0 <= i < |ids| ==>
         ids[i] in t && t[ids[i]].workspace == ws && t[ids[i]].window == items[i].window && t[ids[i]].role == items[i].role
  }

  /** The matching only ever repeats the settled assignment, and has done so for the items in `done`. */
  ghost predicate Repeats(ids: seq<TerminalId>, items: seq<Item>, m: Matching)
    requires |ids| == |items|
  {
    && (forall i :: 0 <= i < |items| && items[i].window in m.byWindow ==> m.byWindow[items[i].window] == ids[i])
    && (forall i :: 0 <= i < |items| && ids[i] in m.claimed ==> items[i].window in m.byWindow)
  }

  lemma SettledShellStep(t: Table, ws: WorkspaceId, stored: seq<Stored>, ids: seq<TerminalId>, items: seq<Item>,
                         n: nat, m: Matching)
    requires Constraints(t) && Lists(t, ws, stored) && DistinctItems(items) && Settled(t, ws, ids, items)
    requires n < |items| && items[n].role == Shell && items[n].window !in m.byWindow && Repeats(ids, items, m)
    ensures ShellStep(stored, m, items[n]) == Take(m, items[n], ids[n])
  {
    var exact := ShellByWindow(stored, items[n].window);
    var k :| 0 <= k < |stored| && stored[k].id == ids[n];
    assert exact.Some?;
    var j :| 0 <= j < |stored| && stored[j].id == exact.value
             && stored[j].row.role == Shell && stored[j].row.window == items[n].window;
    assert exact.value == ids[n];
  }

  lemma TakeRepeats(ids: seq<TerminalId>, items: seq<Item>, n: nat, m: Matching)
    requires |ids| == |items| && DistinctItems(items) && Distinct(ids) && n < |items| && Repeats(ids, items, m)
    ensures Repeats(ids, items, Take(m, items[n], ids[n]))
  {
    var m' := Take(m, items[n], ids[n]);
    forall i | 0 <= i < |items| && items[i].window in m'.byWindow ensures m'.byWindow[items[i].window] == ids[i] {
      assert i != n ==> items[i].window != items[n].window;
    }
  }

  lemma LaterRolesAreFree(t: Table, ws: WorkspaceId, stored: seq<Stored>, items: seq<Item>, n: nat)
    requires Constraints(t) && Lists(t, ws, stored) && DistinctItems(items) && n <= |items|
    ensures LaterRolesFree(t, items, n, AfterManaged(stored, items[..n]))
  {
    ManagedPass(t, ws, stored, items, n);
  }

  lemma {:induction false} SettledManagedPass(t: Table, ws: WorkspaceId, stored: seq<Stored>, ids: seq<TerminalId>,
                                              items: seq<Item>, n: nat)
    requires Constraints(t) && Lists(t, ws, stored) && DistinctItems(items) && Settled(t, ws, ids, items) && Distinct(ids)
    requires n <= |items|
    ensures Repeats(ids, items, AfterManaged(stored, items[..n]))
  {
    if n > 0 {
      SettledManagedPass(t, ws, stored, ids, items, n - 1);
      LaterRolesAreFree(t, ws, stored, items, n - 1);
      assert items[..n][..n - 1] == items[..n - 1];
      var m := AfterManaged(stored, items[..n - 1]);
      if items[n - 1].role != Shell {
        RoleIsTaken(t, ws, stored, items, n - 1, m, ids[n - 1]);
        TakeRepeats(ids, items, n - 1, m);
      }
    }
  }

  lemma ShellNotYetMatched(t: Table, ws: WorkspaceId, stored: seq<Stored>, items: seq<Item>, n: nat)
    requires Constraints(t) && Lists(t, ws, stored) && DistinctItems(items) && n < |items| && items[n].role == Shell
    ensures items[n].window !in AfterShells(stored, items[..n], AfterManaged(stored, items)).byWindow
  {
    ShellPass(t, ws, stored, items, n);
  }

  lemma {:induction false} SettledShellPass(t: Table, ws: WorkspaceId, stored: seq<Stored>, ids: seq<TerminalId>,
                                            items: seq<Item>, n: nat)
    requires Constraints(t) && Lists(t, ws, stored) && DistinctItems(items) && Settled(t, ws, ids, items) && Distinct(ids)
    requires n <= |items|
    ensures var m := AfterShells(stored, items[..n], AfterManaged(stored, items));
            && Repeats(ids, items, m)
            && forall i :: 0 <= i < n && items[i].role == Shell ==> items[i].window in m.byWindow
  {
    if n == 0 {
      SettledManagedPass(t, ws, stored, ids, items, |items|);
      assert items[..|items|] == items;
    } else {
      SettledShellPass(t, ws, stored, ids, items, n - 1);
      assert items[..n][..n - 1] == items[..n - 1];
      var m := AfterShells(stored, items[..n - 1], AfterManaged(stored, items));
      if items[n - 1].role == Shell {
        ShellNotYetMatched(t, ws, stored, items, n - 1);
        SettledShellStep(t, ws, stored, ids, items, n - 1, m);
        TakeRepeats(ids, items, n - 1, m);
      }
    }
  }

  /** When every reported window already has its row, the matching assigns exactly those rows. */
  lemma SettledMatching(t: Table, ws: WorkspaceId, stored: seq<Stored>, ids: seq<TerminalId>, items: seq<Item>,
                        newIds: seq<TerminalId>)
    requires Constraints(t) && Lists(t, ws, stored) && DistinctItems(items) && Settled(t, ws, ids, items) && Distinct(ids)
    requires |newIds| == |items|
    ensures RowIds(items, Matched(stored, items), newIds) == ids
  {
    SettledShellPass(t, ws, stored, ids, items, |items|);
    MatchingIsSound(t, ws, stored, items);
    assert items[..|items|] == items;
    var m := Matched(stored, items);
    forall i | 0 <= i < |items| ensures items[i].window in m.byWindow {
      if items[i].role != Shell {
        assert RolesKept(t, ws, items, |items|, m);
      }
    }
  }

  lemma ReapplyingChangesNothing(t: Table, ws: WorkspaceId, claimed: set<TerminalId>, ids: seq<TerminalId>,
                                 items: seq<Item>, now: int, later: int)
    requires Plan(t, ws, claimed, ids) && |ids| == |items|
    ensures var t' := Reconciled(t, ws, ids, items, now); Reconciled(t', ws, ids, items, later) == t'
  {
    var t' := Reconciled(t, ws, ids, items, now);
    var t'' := Reconciled(t', ws, ids, items, later);
    assert forall id :: id in t' <==> id in t'' by {
      ReconciledIsABijection(t, ws, claimed, ids, items, now);
    }
    forall id | id in t' ensures t''[id] == t'[id] {
      if id in ids {
        assert t'[id] == NewRow(t, ws, id, items[Position(ids, id)], now);
        assert t''[id] == NewRow(t', ws, id, items[Position(ids, id)], later);
      }
    }
  }

  /**
   Reconciling the same windows again, whatever the row order, the fresh ids and
   the clock, changes nothing at all.
  */
  lemma ReconcileIsIdempotent(t: Table, ws: WorkspaceId, claimed: set<TerminalId>, ids: seq<TerminalId>,
                              items: seq<Item>, now: int, stored: seq<Stored>, newIds: seq<TerminalId>, later: int)
    requires Plan(t, ws, claimed, ids) && |ids| == |items| && DistinctItems(items) && |newIds| == |items|
    requires var t' := Reconciled(t, ws, ids, items, now); Constraints(t') && Lists(t', ws, stored)
    ensures var t' := Reconciled(t, ws, ids, items, now);
            && RowIds(items, Matched(stored, items), newIds) == ids
            && Reconciled(t', ws, ids, items, later) == t'
  {
    ReconciledIsABijection(t, ws, claimed, ids, items, now);
    SettledMatching(Reconciled(t, ws, ids, items, now), ws, stored, ids, items, newIds);
    ReapplyingChangesNothing(t, ws, claimed, ids, items, now, later);
  }

  // ------------------------------------------------ unchanged shell windows

  /** What is assigned stays assigned. */
  ghost predicate Extends(m: Matching, m': Matching) {
    m.claimed <= m'.claimed && forall w :: w in m.byWindow ==> w in m'.byWindow && m'.byWindow[w] == m.byWindow[w]
  }

  lemma StepExtends(t: Table, ws: WorkspaceId, m: Matching, item: Item, m': Matching)
    requires StepTakes(t, ws, m, item, m') && (m' != m ==> item.window !in m.byWindow)
    ensures Extends(m, m')
  {
  }

  lemma {:induction false} LaterShellsKeep(t: Table, ws: WorkspaceId, stored: seq<Stored>, items: seq<Item>, n: nat, k: nat)
    requires Constraints(t) && Lists(t, ws, stored) && DistinctItems(items) && n <= k <= |items|
    ensures Extends(MatchedBefore(stored, items, n), MatchedBefore(stored, items, k))
  {
    if n < k {
      LaterShellsKeep(t, ws, stored, items, n, k - 1);
      AfterOneMoreShell(stored, items, k - 1);
      var m := MatchedBefore(stored, items, k - 1);
      ShellStepTakes(t, ws, stored, m, items[k - 1]);
      if items[k - 1].role == Shell {
        ShellNotYetMatched(t, ws, stored, items, k - 1);
      }
      StepExtends(t, ws, m, items[k - 1], MatchedBefore(stored, items, k));
    }
  }

  /** The matching of the items before `n`, with the managed pass complete. */
  function MatchedBefore(stored: seq<Stored>, items: seq<Item>, n: nat): Matching
    requires n <= |items|
  {
    AfterShells(stored, items[..n], AfterManaged(stored, items))
  }

  /** Row `id` is a stored shell row whose window is reported as a shell by item `n`. */
  predicate Unchanged(t: Table, ws: WorkspaceId, items: seq<Item>, n: nat, id: TerminalId) {
    && n < |items| && items[n].role == Shell
    && id in t && t[id].workspace == ws && t[id].role == Shell && t[id].window == items[n].window
  }

  lemma ExactShellIsTaken(t: Table, ws: WorkspaceId, stored: seq<Stored>, items: seq<Item>, n: nat, id: TerminalId, m: Matching)
    requires Constraints(t) && Lists(t, ws, stored) && Unchanged(t, ws, items, n, id) && id !in m.claimed
    ensures ShellStep(stored, m, items[n]) == Take(m, items[n], id)
  {
    var exact := ShellByWindow(stored, items[n].window);
    var k :| 0 <= k < |stored| && stored[k].id == id;
    assert exact.Some?;
    var j :| 0 <= j < |stored| && stored[j].id == exact.value
             && stored[j].row.role == Shell && stored[j].row.window == items[n].window;
    assert exact.value == id;
  }

  lemma AfterOneMoreShell(stored: seq<Stored>, items: seq<Item>, n: nat)
    requires n < |items|
    ensures MatchedBefore(stored, items, n + 1) == ShellStep(stored, MatchedBefore(stored, items, n), items[n])
    ensures MatchedBefore(stored, items, |items|) == Matched(stored, items)
  {
    assert items[..n + 1][..n] == items[..n];
    assert items[..|items|] == items;
  }

  /** A row claimed before item `n` belongs to another window for good. */
  lemma ClaimedRowIsLost(t: Table, ws: WorkspaceId, stored: seq<Stored>, items: seq<Item>, newIds: seq<TerminalId>,
                         n: nat, id: TerminalId)
    requires Constraints(t) && Lists(t, ws, stored) && DistinctItems(items)
    requires |newIds| == |items| && NewIds(t, newIds) && Unchanged(t, ws, items, n, id)
    requires id in MatchedBefore(stored, items, n).claimed
    ensures RowOf(stored, items, newIds, n) != id
  {
    var m := MatchedBefore(stored, items, n);
    ShellPass(t, ws, stored, items, n);
    ShellNotYetMatched(t, ws, stored, items, n);
    var w :| w in m.byWindow && m.byWindow[w] == id;
    LaterShellsKeep(t, ws, stored, items, n, |items|);
    AfterOneMoreShell(stored, items, n);
    MatchingIsSound(t, ws, stored, items);
    assert w != items[n].window;
  }

  /**
   Exactly when an unchanged shell window keeps its Terminal id: unless its row
   was claimed before its turn came.
  */
  lemma UnchangedShellKeepsItsRowIff(t: Table, ws: WorkspaceId, stored: seq<Stored>, items: seq<Item>,
                                     newIds: seq<TerminalId>, n: nat, id: TerminalId)
    requires Constraints(t) && Lists(t, ws, stored) && DistinctItems(items)
    requires |newIds| == |items| && NewIds(t, newIds) && Unchanged(t, ws, items, n, id)
    ensures RowOf(stored, items, newIds, n) == id <==> id !in MatchedBefore(stored, items, n).claimed
  {
    if id in MatchedBefore(stored, items, n).claimed {
      ClaimedRowIsLost(t, ws, stored, items, newIds, n, id);
    } else {
      ExactShellIsTaken(t, ws, stored, items, n, id, MatchedBefore(stored, items, n));
      AfterOneMoreShell(stored, items, n);
      LaterShellsKeep(t, ws, stored, items, n + 1, |items|);
    }
  }

  /** Shell rows claimed so far belong to windows among the first `k` items or reported as managed. */
  ghost predicate OwnShellsOnly(t: Table, items: seq<Item>, k: nat, m: Matching) {
    forall id :: id in m.claimed && id in t && t[id].role == Shell ==>
      exists j :: 0 <= j < |items| && (j < k || items[j].role != Shell) && items[j].window == t[id].window
  }

  lemma ManagedTakesOwnWindow(t: Table, ws: WorkspaceId, stored: seq<Stored>, m: Matching, item: Item)
    requires Lists(t, ws, stored)
    ensures forall id :: id in ManagedStep(stored, m, item).claimed && id !in m.claimed && id in t && t[id].role == Shell
                         ==> item.role != Shell && t[id].window == item.window
  {
  }

  lemma {:induction false} ManagedPassTakesOwnWindows(t: Table, ws: WorkspaceId, stored: seq<Stored>, items: seq<Item>, n: nat)
    requires Lists(t, ws, stored) && n <= |items|
    ensures OwnShellsOnly(t, items, 0, AfterManaged(stored, items[..n]))
  {
    if n > 0 {
      ManagedPassTakesOwnWindows(t, ws, stored, items, n - 1);
      assert items[..n][..n - 1] == items[..n - 1];
      ManagedTakesOwnWindow(t, ws, stored, AfterManaged(stored, items[..n - 1]), items[n - 1]);
    }
  }

  /** Every shell window listed before item `n` still has its own stored shell row. */
  ghost predicate NothingNewBefore(t: Table, ws: WorkspaceId, items: seq<Item>, n: nat) {
    forall i :: 0 <= i < n && i < |items| && items[i].role == Shell ==> exists id :: Unchanged(t, ws, items, i, id)
  }

  lemma {:induction false} UnchangedShellsTakeTheirOwn(t: Table, ws: WorkspaceId, stored: seq<Stored>, items: seq<Item>, n: nat)
    requires Constraints(t) && Lists(t, ws, stored) && DistinctItems(items) && n <= |items|
    requires NothingNewBefore(t, ws, items, n)
    ensures OwnShellsOnly(t, items, n, MatchedBefore(stored, items, n))
  {
    if n == 0 {
      ManagedPassTakesOwnWindows(t, ws, stored, items, |items|);
      assert items[..|items|] == items;
    } else {
      UnchangedShellsTakeTheirOwn(t, ws, stored, items, n - 1);
      AfterOneMoreShell(stored, items, n - 1);
      if items[n - 1].role == Shell {
        var id :| Unchanged(t, ws, items, n - 1, id);
        OwnRowIsFree(t, ws, items, n - 1, id, MatchedBefore(stored, items, n - 1));
        ExactShellIsTaken(t, ws, stored, items, n - 1, id, MatchedBefore(stored, items, n - 1));
      }
    }
  }

  lemma OwnRowIsFree(t: Table, ws: WorkspaceId, items: seq<Item>, n: nat, id: TerminalId, m: Matching)
    requires DistinctItems(items) && Unchanged(t, ws, items, n, id) && OwnShellsOnly(t, items, n, m)
    ensures id !in m.claimed
  {
  }

  /**
   What a caller can look at beforehand: if every shell window listed before an
   unchanged one still has its own stored row, the unchanged window keeps its id.
  */
  lemma NothingNewBeforeKeepsTheRow(t: Table, ws: WorkspaceId, stored: seq<Stored>, items: seq<Item>,
                                    newIds: seq<TerminalId>, n: nat, id: TerminalId)
    requires Constraints(t) && Lists(t, ws, stored) && DistinctItems(items)
    requires |newIds| == |items| && NewIds(t, newIds) && Unchanged(t, ws, items, n, id)
    requires NothingNewBefore(t, ws, items, n)
    ensures RowOf(stored, items, newIds, n) == id
  {
    UnchangedShellsTakeTheirOwn(t, ws, stored, items, n);
    OwnRowIsFree(t, ws, items, n, id, MatchedBefore(stored, items, n));
    UnchangedShellKeepsItsRowIff(t, ws, stored, items, newIds, n, id);
  }

  // ------------------------------------------ which row a window gets instead

  lemma {:induction false} FirstIsFirst(stored: seq<Stored>, p: Stored -> bool) returns (k: nat)
    requires First(stored, p).Some?
    ensures k < |stored| && stored[k].id == First(stored, p).value && p(stored[k])
    ensures forall j :: 0 <= j < k ==> !p(stored[j])
  {
    if p(stored[0]) {
      k := 0;
    } else {
      var i := FirstIsFirst(stored[1..], p);
      k := i + 1;
    }
  }

  /** No managed window, and no shell window before item `n`, ends in row `id`. */
  predicate FreeAt(stored: seq<Stored>, items: seq<Item>, newIds: seq<TerminalId>, n: nat, id: TerminalId)
    requires |newIds| == |items|
  {
    forall j :: 0 <= j < |items| && (j < n || items[j].role != Shell) ==> RowOf(stored, items, newIds, j) != id
  }

  /** The matching is final for all windows before item `n` and for managed ones, and has not begun for the others. */
  lemma MatchedBeforeIsFinal(t: Table, ws: WorkspaceId, stored: seq<Stored>, items: seq<Item>, newIds: seq<TerminalId>,
                             n: nat, j: nat)
    requires Constraints(t) && Lists(t, ws, stored) && DistinctItems(items) && |newIds| == |items| && NewIds(t, newIds)
    requires n <= |items| && j < |items|
    ensures var m := MatchedBefore(stored, items, n);
            && (items[j].window in m.byWindow ==> RowOf(stored, items, newIds, j) == m.byWindow[items[j].window])
            && (j >= n && items[j].role == Shell ==> items[j].window !in m.byWindow)
            && KeysAreWindows(items, m) && m.claimed == m.byWindow.Values
  {
    ShellPass(t, ws, stored, items, n);
    LaterShellsKeep(t, ws, stored, items, n, |items|);
    AfterMatchingAll(stored, items);
  }

  lemma AfterMatchingAll(stored: seq<Stored>, items: seq<Item>)
    ensures MatchedBefore(stored, items, |items|) == Matched(stored, items)
  {
    assert items[..|items|] == items;
  }

  lemma FreeIffUnclaimed(t: Table, ws: WorkspaceId, stored: seq<Stored>, items: seq<Item>, newIds: seq<TerminalId>,
                         n: nat, id: TerminalId)
    requires Constraints(t) && Lists(t, ws, stored) && DistinctItems(items) && |newIds| == |items| && NewIds(t, newIds)
    requires n <= |items| && id in t
    ensures FreeAt(stored, items, newIds, n, id) <==> id !in MatchedBefore(stored, items, n).claimed
  {
    var m := MatchedBefore(stored, items, n);
    if id in m.claimed {
      ShellPass(t, ws, stored, items, n);
      var w :| w in m.byWindow && m.byWindow[w] == id;
      assert WindowIn(items, w);
      var j :| 0 <= j < |items| && items[j].window == w;
      MatchedBeforeIsFinal(t, ws, stored, items, newIds, n, j);
    } else {
      forall j | 0 <= j < |items| && (j < n || items[j].role != Shell) ensures RowOf(stored, items, newIds, j) != id {
        UnclaimedIsNotTaken(t, ws, stored, items, newIds, n, j, id);
      }
    }
  }

  /** A row given to one of these windows at all was claimed before item `n`. */
  lemma UnclaimedIsNotTaken(t: Table, ws: WorkspaceId, stored: seq<Stored>, items: seq<Item>, newIds: seq<TerminalId>,
                            n: nat, j: nat, id: TerminalId)
    requires Constraints(t) && Lists(t, ws, stored) && DistinctItems(items) && |newIds| == |items| && NewIds(t, newIds)
    requires n <= |items| && j < |items| && (j < n || items[j].role != Shell)
    requires id in t && id !in MatchedBefore(stored, items, n).claimed
    ensures RowOf(stored, items, newIds, j) != id
  {
    var m, all := MatchedBefore(stored, items, n), Matched(stored, items);
    MatchedBeforeIsFinal(t, ws, stored, items, newIds, n, j);
    if items[j].window in m.byWindow {
      assert m.byWindow[items[j].window] in m.byWindow.Values;
    } else {
      NeverMatchedLater(t, ws, stored, items, n, |items|, j);
      AfterMatchingAll(stored, items);
    }
  }

  lemma ShellStepLeavesOthers(stored: seq<Stored>, m: Matching, item: Item, w: string)
    requires item.role != Shell || item.window != w
    ensures w in ShellStep(stored, m, item).byWindow <==> w in m.byWindow
  {
  }

  /** A window whose turn is over without a row gets none. */
  lemma {:induction false} NeverMatchedLater(t: Table, ws: WorkspaceId, stored: seq<Stored>, items: seq<Item>, n: nat, k: nat,
                                             j: nat)
    requires Lists(t, ws, stored) && DistinctItems(items) && n <= k <= |items| && j < |items|
    requires j < n || items[j].role != Shell
    requires items[j].window !in MatchedBefore(stored, items, n).byWindow
    ensures items[j].window !in MatchedBefore(stored, items, k).byWindow
  {
    if n < k {
      NeverMatchedLater(t, ws, stored, items, n, k - 1, j);
      AfterOneMoreShell(stored, items, k - 1);
      assert j < k - 1 || items[k - 1].role != Shell || j > k - 1;
      assert j != k - 1 ==> items[j].window != items[k - 1].window;
      ShellStepLeavesOthers(stored, MatchedBefore(stored, items, k - 1), items[k - 1], items[j].window);
    }
  }

  /** A free shell row, of this name if one is asked for. */
  predicate IsCandidate(stored: seq<Stored>, items: seq<Item>, newIds: seq<TerminalId>, n: nat, s: Stored,
                        name: Option<string>)
    requires |newIds| == |items|
  {
    && s.row.role == Shell && FreeAt(stored, items, newIds, n, s.id)
    && (name.Some? ==> (if s.row.name == "" then "shell" else s.row.name) == name.value)
  }

  /** Row `id` is the first listed candidate. */
  predicate FirstCandidate(stored: seq<Stored>, items: seq<Item>, newIds: seq<TerminalId>, n: nat, name: Option<string>,
                           id: TerminalId)
    requires |newIds| == |items|
  {
    exists k :: 0 <= k < |stored| && stored[k].id == id && IsCandidate(stored, items, newIds, n, stored[k], name)
      && forall j :: 0 <= j < k ==> !IsCandidate(stored, items, newIds, n, stored[j], name)
  }

  predicate NoCandidate(stored: seq<Stored>, items: seq<Item>, newIds: seq<TerminalId>, n: nat, name: Option<string>)
    requires |newIds| == |items|
  {
    forall k :: 0 <= k < |stored| ==> !IsCandidate(stored, items, newIds, n, stored[k], name)
  }

  lemma CandidatesAreUnclaimed(t: Table, ws: WorkspaceId, stored: seq<Stored>, items: seq<Item>, newIds: seq<TerminalId>,
                               n: nat, k: nat, name: Option<string>)
    requires Constraints(t) && Lists(t, ws, stored) && DistinctItems(items) && |newIds| == |items| && NewIds(t, newIds)
    requires n <= |items| && k < |stored|
    ensures IsCandidate(stored, items, newIds, n, stored[k], name) <==>
              && stored[k].row.role == Shell && stored[k].id !in MatchedBefore(stored, items, n).claimed
              && (name.Some? ==> ShownName(stored[k].row) == name.value)
  {
    FreeIffUnclaimed(t, ws, stored, items, newIds, n, stored[k].id);
  }

  lemma SearchFindsFirst(t: Table, ws: WorkspaceId, stored: seq<Stored>, items: seq<Item>, newIds: seq<TerminalId>,
                         n: nat, name: Option<string>)
    requires Constraints(t) && Lists(t, ws, stored) && DistinctItems(items) && |newIds| == |items| && NewIds(t, newIds)
    requires n <= |items|
    ensures var claimed := MatchedBefore(stored, items, n).claimed;
            var found := if name.Some? then FreeShellNamed(stored, claimed, name.value) else FreeShell(stored, claimed);
            if found.Some? then FirstCandidate(stored, items, newIds, n, name, found.value)
            else NoCandidate(stored, items, newIds, n, name)
  {
    var claimed := MatchedBefore(stored, items, n).claimed;
    forall k | 0 <= k < |stored|
      ensures IsCandidate(stored, items, newIds, n, stored[k], name) <==>
                && stored[k].row.role == Shell && stored[k].id !in claimed
                && (name.Some? ==> ShownName(stored[k].row) == name.value)
    {
      CandidatesAreUnclaimed(t, ws, stored, items, newIds, n, k, name);
    }
    if name.Some? {
      if FreeShellNamed(stored, claimed, name.value).Some? {
        var _ := FirstIsFirst(stored, (s: Stored) => s.row.role == Shell && s.id !in claimed && ShownName(s.row) == name.value);
      }
    } else if FreeShell(stored, claimed).Some? {
      var _ := FirstIsFirst(stored, (s: Stored) => s.row.role == Shell && s.id !in claimed);
    }
  }

  lemma OwnRowIsNotFree(t: Table, ws: WorkspaceId, stored: seq<Stored>, items: seq<Item>, newIds: seq<TerminalId>, n: nat)
    requires Constraints(t) && Lists(t, ws, stored) && DistinctItems(items) && |newIds| == |items| && NewIds(t, newIds)
    requires n < |items| && items[n].role == Shell
    requires forall id :: Unchanged(t, ws, items, n, id) ==> !FreeAt(stored, items, newIds, n, id)
    ensures var exact := ShellByWindow(stored, items[n].window);
            exact.Some? ==> exact.value in MatchedBefore(stored, items, n).claimed
  {
    var exact := ShellByWindow(stored, items[n].window);
    if exact.Some? {
      var k :| 0 <= k < |stored| && stored[k].id == exact.value && stored[k].row.role == Shell
               && stored[k].row.window == items[n].window;
      FreeIffUnclaimed(t, ws, stored, items, newIds, n, exact.value);
      assert Unchanged(t, ws, items, n, exact.value);
    }
  }

  /** What its turn in the shell pass gives a shell window is what it ends with. */
  lemma ShellRowIsFinal(t: Table, ws: WorkspaceId, stored: seq<Stored>, items: seq<Item>, newIds: seq<TerminalId>, n: nat)
    requires Constraints(t) && Lists(t, ws, stored) && DistinctItems(items) && |newIds| == |items| && NewIds(t, newIds)
    requires n < |items| && items[n].role == Shell
    ensures var m := ShellStep(stored, MatchedBefore(stored, items, n), items[n]);
            RowOf(stored, items, newIds, n)
            == if items[n].window in m.byWindow then m.byWindow[items[n].window] else newIds[n]
    ensures items[n].window !in MatchedBefore(stored, items, n).byWindow
  {
    AfterOneMoreShell(stored, items, n);
    ShellNotYetMatched(t, ws, stored, items, n);
    MatchedBeforeIsFinal(t, ws, stored, items, newIds, n + 1, n);
    if items[n].window !in MatchedBefore(stored, items, n + 1).byWindow {
      NeverMatchedLater(t, ws, stored, items, n + 1, |items|, n);
      AfterMatchingAll(stored, items);
    }
  }

  /**
   A shell window whose own row is gone or taken gets the oldest free shell row
   of its name, else the oldest free shell row, and a new row only without any.
  */
  lemma OtherShellsGoByNameThenAge(t: Table, ws: WorkspaceId, stored: seq<Stored>, items: seq<Item>,
                                   newIds: seq<TerminalId>, n: nat)
    requires Constraints(t) && Lists(t, ws, stored) && DistinctItems(items) && |newIds| == |items| && NewIds(t, newIds)
    requires n < |items| && items[n].role == Shell
    requires forall id :: Unchanged(t, ws, items, n, id) ==> !FreeAt(stored, items, newIds, n, id)
    ensures var id, name := RowOf(stored, items, newIds, n), Some(items[n].name);
            if !NoCandidate(stored, items, newIds, n, name) then FirstCandidate(stored, items, newIds, n, name, id)
            else if !NoCandidate(stored, items, newIds, n, None) then FirstCandidate(stored, items, newIds, n, None, id)
            else id !in t
  {
    var claimed := MatchedBefore(stored, items, n).claimed;
    SearchFindsFirst(t, ws, stored, items, newIds, n, Some(items[n].name));
    SearchFindsFirst(t, ws, stored, items, newIds, n, None);
    OwnRowIsNotFree(t, ws, stored, items, newIds, n);
    ShellRowIsFinal(t, ws, stored, items, newIds, n);
    var named, free := FreeShellNamed(stored, claimed, items[n].name), FreeShell(stored, claimed);
    if named.None? && free.Some? {
      SomeIsCandidate(stored, items, newIds, n, None, free.value);
    }
    if named.Some? {
      SomeIsCandidate(stored, items, newIds, n, Some(items[n].name), named.value);
    }
  }

  lemma SomeIsCandidate(stored: seq<Stored>, items: seq<Item>, newIds: seq<TerminalId>, n: nat, name: Option<string>,
                        id: TerminalId)
    requires |newIds| == |items| && FirstCandidate(stored, items, newIds, n, name, id)
    ensures !NoCandidate(stored, items, newIds, n, name)
  {
  }

  lemma {:induction false} LaterManagedKeep(t: Table, ws: WorkspaceId, stored: seq<Stored>, items: seq<Item>, n: nat, k: nat)
    requires Lists(t, ws, stored) && DistinctItems(items) && n < k <= |items|
    ensures var m, m' := AfterManaged(stored, items[..n + 1]), AfterManaged(stored, items[..k]);
            && (items[n].window in m'.byWindow <==> items[n].window in m.byWindow)
            && (items[n].window in m.byWindow ==> m'.byWindow[items[n].window] == m.byWindow[items[n].window])
  {
    if n + 1 < k {
      LaterManagedKeep(t, ws, stored, items, n, k - 1);
      assert items[..k][..k - 1] == items[..k - 1];
      ManagedStepTakes(t, ws, stored, AfterManaged(stored, items[..k - 1]), items[k - 1]);
      assert items[k - 1].window != items[n].window;
    }
  }

  /** What the managed pass gives a managed window is what it ends with. */
  lemma ManagedRowIsFinal(t: Table, ws: WorkspaceId, stored: seq<Stored>, items: seq<Item>, newIds: seq<TerminalId>, n: nat)
    requires Constraints(t) && Lists(t, ws, stored) && DistinctItems(items) && |newIds| == |items| && NewIds(t, newIds)
    requires n < |items| && items[n].role != Shell
    ensures var m := AfterManaged(stored, items[..n + 1]);
            RowOf(stored, items, newIds, n)
            == if items[n].window in m.byWindow then m.byWindow[items[n].window] else newIds[n]
  {
    LaterManagedKeep(t, ws, stored, items, n, |items|);
    assert items[..|items|] == items && items[..0] == [];
    MatchedBeforeIsFinal(t, ws, stored, items, newIds, 0, n);
    if items[n].window !in MatchedBefore(stored, items, 0).byWindow {
      NeverMatchedLater(t, ws, stored, items, 0, |items|, n);
      AfterMatchingAll(stored, items);
    }
  }

  lemma OwnShellIsUnclaimed(t: Table, ws: WorkspaceId, stored: seq<Stored>, items: seq<Item>, n: nat, id: TerminalId)
    requires Lists(t, ws, stored) && DistinctItems(items) && n < |items|
    requires id in t && t[id].role == Shell && t[id].window == items[n].window
    ensures id !in AfterManaged(stored, items[..n]).claimed
  {
    ManagedPassTakesOwnWindows(t, ws, stored, items[..n], n);
    assert items[..n][..n] == items[..n];
  }

  lemma ShellOfWindow(t: Table, ws: WorkspaceId, stored: seq<Stored>, window: string, id: TerminalId)
    requires Constraints(t) && Lists(t, ws, stored)
    requires id in t && t[id].workspace == ws && t[id].role == Shell && t[id].window == window
    ensures ShellByWindow(stored, window) == Some(id)
  {
    var k :| 0 <= k < |stored| && stored[k].id == id;
    var shell := ShellByWindow(stored, window);
    assert shell.Some?;
    var j :| 0 <= j < |stored| && stored[j].id == shell.value && stored[j].row.role == Shell && stored[j].row.window == window;
    assert shell.value == id;
  }

  /** A managed window without a stored row of its role adopts the shell row of its window, and gets a new row otherwise. */
  lemma NewManagedWindowAdoptsItsShellRow(t: Table, ws: WorkspaceId, stored: seq<Stored>, items: seq<Item>,
                                          newIds: seq<TerminalId>, n: nat)
    requires Constraints(t) && Lists(t, ws, stored) && DistinctItems(items) && |newIds| == |items| && NewIds(t, newIds)
    requires n < |items| && items[n].role != Shell
    requires forall id :: id in t && t[id].workspace == ws ==> t[id].role != items[n].role
    ensures forall id :: id in t && t[id].workspace == ws && t[id].role == Shell && t[id].window == items[n].window
                         ==> RowOf(stored, items, newIds, n) == id
    ensures (forall id :: id in t && t[id].workspace == ws && t[id].role == Shell ==> t[id].window != items[n].window)
            ==> RowOf(stored, items, newIds, n) !in t
  {
    var m := AfterManaged(stored, items[..n]);
    assert items[..n + 1][..n] == items[..n];
    ManagedRowIsFinal(t, ws, stored, items, newIds, n);
    ManagedPass(t, ws, stored, items, n);
    assert ByRole(stored, items[n].role).None?;
    assert items[n].window !in m.byWindow;
    forall id | id in t && t[id].workspace == ws && t[id].role == Shell && t[id].window == items[n].window
      ensures RowOf(stored, items, newIds, n) == id
    {
      ShellOfWindow(t, ws, stored, items[n].window, id);
      OwnShellIsUnclaimed(t, ws, stored, items, n, id);
    }
  }

  /**
   An unchanged shell window does not always keep its row: the fallback runs in
   list order, so a new window listed first takes it.
  */
  lemma FallbackMayTakeAnUnchangedWindow()
    ensures var old1 := Stored("A", Row("w", "shell", "@1", Shell, None, None, 0));
            var items := [Item("@5", "shell", Shell, None, None), Item("@1", "shell", Shell, None, None)];
            Matched([old1], items).byWindow == map["@5" := "A"]
  {
    var stored := [Stored("A", Row("w", "shell", "@1", Shell, None, None, 0))];
    var items := [Item("@5", "shell", Shell, None, None), Item("@1", "shell", Shell, None, None)];
    var start := Matching({}, map[]);
    assert items[..1] == [items[0]] && [items[0]][..0] == [] && items[..2] == items;
    assert items[..|items| - 1] == items[..1];
    assert AfterManaged(stored, items[..1]) == start;
    assert AfterManaged(stored, items) == start;
    assert ShellByWindow(stored, "@5").None? && ShellByWindow(stored, "@1") == Some("A");
    assert FreeShellNamed(stored, {}, "shell") == Some("A");
    assert AfterShells(stored, items[..1], start) == Take(start, items[0], "A");
    assert FreeShellNamed(stored, {"A"}, "shell").None? && FreeShell(stored, {"A"}).None?;
  }
}
