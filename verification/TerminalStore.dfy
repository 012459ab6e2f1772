/**
 The Terminal tables as the application changes them, statement by statement:
 validation of what tmux reports, `reconcile_terminals`, and the activity
 operations, with both uniqueness constraints kept by every single statement.
*/
module TerminalStores {
  import opened Wrappers
  import opened Terminals
  import opened TerminalActivity

  // ------------------------------------------------------------ raw reports

  /** A window as tmux reports it; absent fields are empty. */
  datatype RawWindow = RawWindow(window: string, name: string, role: string, run: string, activity: Option<int>)

  predicate ValidRevision(a: Option<int>) {
    a.Some? ==> 0 <= a.value <= SQLITE_MAX
  }

  function ParseRole(role: string): Option<Role> {
    if role == "" || role == "shell" then Some(Shell)
    else if role == "file_run" then Some(FileRunRole)
    else if role == "remote_run" then Some(RemoteRunRole)
    else None
  }

  function ItemOf(raw: RawWindow): Item
    requires ParseRole(raw.role).Some? && ValidRevision(raw.activity)
  {
    var role := ParseRole(raw.role).value;
    Item(raw.window, if raw.name == "" then "shell" else raw.name, role,
         if role == Shell || raw.run == "" then None else Some(raw.run),
         if raw.activity.None? then None else Some(raw.activity.value))
  }

  function ManagedRole(raw: RawWindow): Option<Role> {
    if ParseRole(raw.role) == Some(Shell) then None else ParseRole(raw.role)
  }

  /** The i-th window is well formed and repeats no earlier window and no earlier managed role. */
  ghost predicate AcceptableAt(raw: seq<RawWindow>, i: nat)
    requires i < |raw|
  {
    && raw[i].window != "" && raw[i].role in {"", "shell", "file_run", "remote_run"}
    && (raw[i].activity.Some? ==> 0 <= raw[i].activity.value <= 0x7fff_ffff_ffff_ffff)
    && forall j :: 0 <= j < i ==>
         raw[j].window != raw[i].window && (IsManaged(raw[i]) ==> raw[j].role != raw[i].role)
  }

  ghost predicate IsManaged(raw: RawWindow) {
    raw.role == "file_run" || raw.role == "remote_run"
  }

  ghost predicate Acceptable(raw: seq<RawWindow>) {
    forall i :: 0 <= i < |raw| ==> AcceptableAt(raw, i)
  }

  function ItemsOf(raw: seq<RawWindow>): (items: seq<Item>)
    requires Acceptable(raw)
    ensures |items| == |raw| && forall i :: 0 <= i < |raw| ==> AcceptableAt(raw, i) && items[i] == ItemOf(raw[i])
  {
    seq(|raw|, i requires 0 <= i < |raw| && AcceptableAt(raw, i) => ItemOf(raw[i]))
  }

  lemma AcceptableIsDistinct(raw: seq<RawWindow>)
    requires Acceptable(raw)
    ensures DistinctItems(ItemsOf(raw))
  {
    var items := ItemsOf(raw);
    forall i, j | 0 <= i < j < |items|
      ensures items[i].window != items[j].window
      ensures items[i].role != Shell ==> items[i].role != items[j].role
    {
      assert AcceptableAt(raw, i) && AcceptableAt(raw, j);
    }
  }

  /** A row as the report says it should be: a shell window has no run, and an unnamed one is called "shell". */
  ghost predicate Shows(row: Row, raw: RawWindow) {
    && row.window == raw.window
    && row.name == (if raw.name == "" then "shell" else raw.name)
    && (row.role == FileRunRole <==> raw.role == "file_run")
    && (row.role == RemoteRunRole <==> raw.role == "remote_run")
    && row.run == if IsManaged(raw) && raw.run != "" then Some(raw.run) else None
  }

  /** The row keeps its age and the newer of the two activities; a new row is of this moment. */
  ghost predicate Continues(t: Table, id: TerminalId, row: Row, raw: RawWindow, now: int) {
    var before := if id in t then t[id].activity else None;
    && row.createdAt == (if id in t then t[id].createdAt else now)
    && (raw.activity.None? ==> row.activity == before)
    && (raw.activity.Some? ==>
          && row.activity.Some? && row.activity.value >= raw.activity.value && NotLess(before, row.activity)
          && (row.activity.value == raw.activity.value || row.activity == before))
  }

  /** Some listed row of the Workspace is the reported window. */
  ghost predicate IsShown(t: Table, found: seq<Stored>, raw: RawWindow, now: int) {
    exists k :: 0 <= k < |found| && Shows(found[k].row, raw) && Continues(t, found[k].id, found[k].row, raw, now)
  }

  /** One row for each reported window, and no others. */
  ghost predicate ShowsReport(t: Table, found: seq<Stored>, raw: seq<RawWindow>, now: int) {
    |found| == |raw| && forall i :: 0 <= i < |raw| ==> IsShown(t, found, raw[i], now)
  }

  lemma NewRowShows(t: Table, ws: WorkspaceId, id: TerminalId, raw: RawWindow, now: int)
    requires raw.role in {"", "shell", "file_run", "remote_run"}
    requires raw.activity.Some? ==> 0 <= raw.activity.value <= 0x7fff_ffff_ffff_ffff
    ensures Shows(NewRow(t, ws, id, ItemOf(raw), now), raw)
    ensures Continues(t, id, NewRow(t, ws, id, ItemOf(raw), now), raw, now)
  {
  }

  lemma WindowIsShown(t: Table, ws: WorkspaceId, claimed: set<TerminalId>, ids: seq<TerminalId>, raw: seq<RawWindow>,
                      now: int, found: seq<Stored>, i: nat)
    requires Acceptable(raw) && |ids| == |raw| && Plan(t, ws, claimed, ids) && i < |raw|
    requires Lists(Reconciled(t, ws, ids, ItemsOf(raw), now), ws, found)
    ensures IsShown(t, found, raw[i], now)
  {
    var after := Reconciled(t, ws, ids, ItemsOf(raw), now);
    ReconciledIsABijection(t, ws, claimed, ids, ItemsOf(raw), now);
    PositionOf(ids, i, ids[i]);
    assert ids[i] in ids && after[ids[i]] == NewRow(t, ws, ids[i], ItemsOf(raw)[i], now);
    assert AcceptableAt(raw, i);
    NewRowShows(t, ws, ids[i], raw[i], now);
    var k :| 0 <= k < |found| && found[k].id == ids[i];
    assert found[k].row == after[ids[i]];
  }

  lemma ListedIds(after: Table, ws: WorkspaceId, ids: seq<TerminalId>, found: seq<Stored>)
    requires Distinct(ids) && Lists(after, ws, found)
    requires forall id :: (id in after && after[id].workspace == ws) <==> id in ids
    ensures |found| == |ids|
  {
    var listed := seq(|found|, k requires 0 <= k < |found| => found[k].id);
    assert forall k :: 0 <= k < |found| ==> listed[k] in ids;
    forall id | id in ids ensures id in listed {
      var k :| 0 <= k < |found| && found[k].id == id;
      assert listed[k] == id;
    }
    SameIdsSameLength(listed, ids);
  }

  function IdSet(ids: seq<TerminalId>): set<TerminalId> {
    set id | id in ids
  }

  lemma {:induction false} DistinctSize(ids: seq<TerminalId>)
    requires Distinct(ids)
    ensures |IdSet(ids)| == |ids|
  {
    if ids != [] {
      var front, last := ids[..|ids| - 1], ids[|ids| - 1];
      DistinctSize(front);
      assert IdSet(ids) == IdSet(front) + {last};
      forall id | id in front ensures id != last {
        var i :| 0 <= i < |front| && front[i] == id;
        assert ids[i] != ids[|ids| - 1];
      }
    }
  }

  lemma SameIdsSameLength(a: seq<TerminalId>, b: seq<TerminalId>)
    requires Distinct(a) && Distinct(b) && forall id :: id in a <==> id in b
    ensures |a| == |b|
  {
    DistinctSize(a);
    DistinctSize(b);
    assert IdSet(a) == IdSet(b);
  }

  /** What a successful reconcile returns, in terms of what tmux reported. */
  lemma ReconciledShows(t: Table, ws: WorkspaceId, claimed: set<TerminalId>, ids: seq<TerminalId>, raw: seq<RawWindow>,
                        now: int, found: seq<Stored>)
    requires Acceptable(raw) && |ids| == |raw| && Plan(t, ws, claimed, ids)
    requires Lists(Reconciled(t, ws, ids, ItemsOf(raw), now), ws, found)
    ensures ShowsReport(t, found, raw, now)
  {
    var after := Reconciled(t, ws, ids, ItemsOf(raw), now);
    ReconciledIsABijection(t, ws, claimed, ids, ItemsOf(raw), now);
    forall id | id in ids ensures id in after && after[id].workspace == ws {
      var i :| 0 <= i < |ids| && ids[i] == id;
    }
    ListedIds(after, ws, ids, found);
    forall i | 0 <= i < |raw| ensures IsShown(t, found, raw[i], now) {
      WindowIsShown(t, ws, claimed, ids, raw, now, found, i);
    }
  }

  function WindowsOf(raw: seq<RawWindow>): set<string> {
    set k | 0 <= k < |raw| :: raw[k].window
  }

  function ManagedRolesOf(raw: seq<RawWindow>): set<Option<Role>> {
    set k | 0 <= k < |raw| && ManagedRole(raw[k]).Some? :: ManagedRole(raw[k])
  }

  lemma SeenSoFar(raw: seq<RawWindow>, i: nat)
    requires i < |raw|
    ensures raw[i].window in WindowsOf(raw[..i]) <==> exists j :: 0 <= j < i && raw[j].window == raw[i].window
    ensures ManagedRole(raw[i]) in ManagedRolesOf(raw[..i]) <==>
              ManagedRole(raw[i]).Some? && exists j :: 0 <= j < i && ManagedRole(raw[j]) == ManagedRole(raw[i])
    ensures WindowsOf(raw[..i + 1]) == WindowsOf(raw[..i]) + {raw[i].window}
    ensures ManagedRolesOf(raw[..i + 1])
         == ManagedRolesOf(raw[..i]) + if ManagedRole(raw[i]).Some? then {ManagedRole(raw[i])} else {}
  {
    var a, b := raw[..i], raw[..i + 1];
    assert b == a + [raw[i]];
    if j :| 0 <= j < i && raw[j].window == raw[i].window {
      assert a[j].window in WindowsOf(a);
    }
    if j :| 0 <= j < i && ManagedRole(raw[j]) == ManagedRole(raw[i]) && ManagedRole(raw[i]).Some? {
      assert ManagedRole(a[j]) in ManagedRolesOf(a);
    }
    assert forall w :: w in WindowsOf(a) ==> w in WindowsOf(b) by {
      forall k | 0 <= k < |a| ensures a[k].window in WindowsOf(b) { assert b[k].window in WindowsOf(b); }
    }
    assert b[i].window in WindowsOf(b);
    assert forall r :: r in ManagedRolesOf(a) ==> r in ManagedRolesOf(b) by {
      forall k | 0 <= k < |a| && ManagedRole(a[k]).Some? ensures ManagedRole(a[k]) in ManagedRolesOf(b) {
        assert ManagedRole(b[k]) in ManagedRolesOf(b);
      }
    }
    if ManagedRole(raw[i]).Some? {
      assert ManagedRole(b[i]) in ManagedRolesOf(b);
    }
  }

  /** The validation loop at the start of `reconcile_terminals`. */
  method Normalize(raw: seq<RawWindow>) returns (r: Result<seq<Item>, StoreError>)
    ensures r.Ok? <==> Acceptable(raw)
    ensures r.Ok? ==> r.value == ItemsOf(raw)
  {
    var desired: seq<Item> := [];
    var windows: set<string> := {};
    var roles: set<Option<Role>> := {};
    for i := 0 to |raw|
      invariant |desired| == i
      invariant forall k :: 0 <= k < i ==> AcceptableAt(raw, k) && desired[k] == ItemOf(raw[k])
      invariant windows == WindowsOf(raw[..i]) && roles == ManagedRolesOf(raw[..i])
    {
      SeenSoFar(raw, i);
      if raw[i].window == "" || raw[i].window in windows || ParseRole(raw[i].role).None?
         || !ValidRevision(raw[i].activity) || ManagedRole(raw[i]) in roles {
        assert !AcceptableAt(raw, i);
        return Err(InvalidWindows);
      }
      assert AcceptableAt(raw, i);
      windows := windows + {raw[i].window};
      if ManagedRole(raw[i]).Some? {
        roles := roles + {ManagedRole(raw[i])};
      }
      desired := desired + [ItemOf(raw[i])];
    }
    return Ok(desired);
  }

  lemma {:induction false} OldestExists(rows: Table, rest: set<TerminalId>)
    requires rest != {} && rest <= rows.Keys
    ensures exists id :: id in rest && IsOldest(rows, rest, id)
    decreases rest
  {
    var id :| id in rest;
    if !IsOldest(rows, rest, id) {
      var older :| older in rest && rows[older].createdAt < rows[id].createdAt;
      var fewer := rest - {id};
      assert older in fewer;
      OldestExists(rows, fewer);
      var oldest :| oldest in fewer && IsOldest(rows, fewer, oldest);
      assert rows[oldest].createdAt <= rows[older].createdAt;
      assert forall o :: o in rest ==> o == id || o in fewer;
      assert IsOldest(rows, rest, oldest);
    }
  }

  predicate IsOldest(rows: Table, rest: set<TerminalId>, id: TerminalId)
    requires id in rows && rest <= rows.Keys
  {
    forall o :: o in rest ==> rows[id].createdAt <= rows[o].createdAt
  }

  ghost predicate InOrder(stored: seq<Stored>) {
    forall j, k :: 0 <= j < k < |stored| ==> stored[j].row.createdAt <= stored[k].row.createdAt
  }

  /** `stored` lists the Workspace's rows outside `rest`, none of them newer than a row in `rest`. */
  ghost predicate PartialList(rows: Table, ws: WorkspaceId, stored: seq<Stored>, rest: set<TerminalId>) {
    && (forall id :: id in rest ==> id in rows && rows[id].workspace == ws)
    && (forall k :: 0 <= k < |stored| ==>
          stored[k].id in rows && rows[stored[k].id] == stored[k].row && stored[k].row.workspace == ws)
    && (forall k :: 0 <= k < |stored| ==> stored[k].id !in rest)
    && (forall id :: id in rows && rows[id].workspace == ws && id !in rest ==> Listed(stored, id))
    && (forall j, k :: 0 <= j < k < |stored| ==> stored[j].id != stored[k].id)
    && (forall k, id :: 0 <= k < |stored| && id in rest && id in rows ==> stored[k].row.createdAt <= rows[id].createdAt)
  }

  ghost predicate Listed(stored: seq<Stored>, id: TerminalId) {
    exists k :: 0 <= k < |stored| && stored[k].id == id
  }

  lemma ListedStep(stored: seq<Stored>, s: Stored, id: TerminalId)
    ensures Listed(stored + [s], id) <==> Listed(stored, id) || s.id == id
  {
    var more := stored + [s];
    assert more[|stored|] == s;
    if k :| 0 <= k < |stored| && stored[k].id == id {
      assert more[k].id == id;
    }
  }

  lemma PartialListStep(rows: Table, ws: WorkspaceId, stored: seq<Stored>, rest: set<TerminalId>, id: TerminalId)
    requires PartialList(rows, ws, stored, rest) && InOrder(stored) && id in rest && IsOldest(rows, rest, id)
    ensures PartialList(rows, ws, stored + [Stored(id, rows[id])], rest - {id})
    ensures InOrder(stored + [Stored(id, rows[id])])
  {
    var more := stored + [Stored(id, rows[id])];
    forall x | x in rows && rows[x].workspace == ws && x !in rest - {id} ensures Listed(more, x) {
      ListedStep(stored, Stored(id, rows[id]), x);
    }
    forall k | 0 <= k < |more| ensures more[k].id !in rest - {id} {
    }
  }

  // ------------------------------------------------------------ the store

  class TerminalStore {
    var rows: Table
    var acks: map<TerminalId, nat>

    ghost function Contents(): Db
      reads this
    {
      Db(rows, acks)
    }

    ghost predicate Valid()
      reads this
    {
      Constraints(rows) && AcknowledgedWithinActivity(Contents())
    }

    constructor ()
      ensures Valid() && Contents() == EMPTY_DB
    {
      rows, acks := map[], map[];
    }

    // Single statements. Each either keeps both uniqueness constraints or
    // fails without changing the table.

    method WriteRow(id: TerminalId, row: Row) returns (ok: bool)
      requires Constraints(rows)
      modifies this`rows
      ensures Constraints(rows)
      ensures ok <==> Constraints(old(rows)[id := row])
      ensures rows == if ok then old(rows)[id := row] else old(rows)
    {
      WriteKeepsConstraints(rows, id, row);
      ok := Admits(rows, id, row);
      if ok {
        rows := rows[id := row];
      }
    }

    method DeleteRow(id: TerminalId)
      requires Constraints(rows)
      modifies this
      ensures Constraints(rows)
      ensures Contents() == WithRows(old(Contents()), old(rows) - {id})
    {
      SubtableKeepsConstraints(rows, rows - {id});
      rows := rows - {id};
      acks := map x | x in acks && x in rows :: acks[x];
    }

    /** SELECT * FROM terminals WHERE workspace_id = ? ORDER BY created_at. */
    method SelectWorkspace(ws: WorkspaceId) returns (stored: seq<Stored>)
      ensures Lists(rows, ws, stored)
      ensures InOrder(stored)
    {
      var rest := set id | id in rows && rows[id].workspace == ws;
      stored := [];
      while rest != {}
        invariant PartialList(rows, ws, stored, rest) && InOrder(stored)
        decreases rest
      {
        OldestExists(rows, rest);
        var id :| id in rest && IsOldest(rows, rest, id);
        PartialListStep(rows, ws, stored, rest, id);
        stored := stored + [Stored(id, rows[id])];
        rest := rest - {id};
      }
    }

    /** `create_terminal`. */
    method CreateTerminal(id: TerminalId, row: Row) returns (r: Result<(), StoreError>)
      requires Valid() && id !in rows && (row.role == Shell ==> row.run == None)
      modifies this
      ensures Valid()
      ensures r.Ok? <==> Constraints(old(rows)[id := row])
      ensures r.Ok? ==> Contents() == After(old(Contents()), CreateStep(id, row))
      ensures r.Err? ==> Contents() == old(Contents())
    {
      var ok := WriteRow(id, row);
      return if ok then Ok(()) else Err(IntegrityError);
    }

    /** `acknowledge_terminal_activity`. */
    method Acknowledge(id: TerminalId, revision: nat) returns (r: Result<nat, StoreError>)
      requires Valid()
      modifies this
      ensures Valid() && Contents() == Acknowledged(old(Contents()), id, revision)
      ensures r.Ok? <==> CanAcknowledge(old(Contents()), id, revision)
      ensures r.Ok? ==> id in acks && r.value == acks[id]
      // Up to the cached revision of a shell Terminal, and never backwards.
      ensures r.Ok? <==> (id in rows && rows[id].role == Shell && rows[id].activity.Some?
                          && revision <= rows[id].activity.value)
      ensures r.Ok? ==> r.value >= revision && (id in old(acks) ==> r.value >= old(acks)[id])
                        && (r.value == revision || (id in old(acks) && r.value == old(acks)[id]))
      ensures rows == old(rows) && acks == if r.Ok? then old(acks)[id := r.value] else old(acks)
      ensures r.Err? ==>
        r.error == if id !in rows || rows[id].role != Shell then UnknownTerminal
                   else if rows[id].activity.None? then ActivityUnavailable else RevisionTooNew
    {
      if id !in rows || rows[id].role != Shell {
        return Err(UnknownTerminal);
      }
      if rows[id].activity.None? {
        return Err(ActivityUnavailable);
      }
      if revision > rows[id].activity.value {
        return Err(RevisionTooNew);
      }
      if id in acks {
        acks := acks[id := if acks[id] > revision then acks[id] else revision];
      } else {
        acks := acks[id := revision];
      }
      return Ok(acks[id]);
    }

    /** The UPDATE of `observe_terminal_activity_batch`, for validated observations. */
    method Observe(o: Observations)
      requires Valid()
      modifies this
      ensures Valid() && Contents() == Observed(old(Contents()), o)
      ensures RaisesObserved(old(rows), rows, o) && acks == old(acks)
    {
      ObservedIsValid(Contents(), o);
      ObservingRaises(Contents(), o);
      rows := map id | id in rows :: ObservedRow(rows[id], o);
    }

    /** The rows an observation of one Workspace returns: its observed shell rows, oldest first. */
    method SelectObserved(ws: WorkspaceId, windows: set<string>) returns (found: seq<Stored>)
      ensures ObservedRows(rows, ws, windows, found) && InOrder(found)
    {
      var listed := SelectWorkspace(ws);
      found := [];
      ghost var from: seq<nat> := [];
      for i := 0 to |listed|
        invariant Picks(listed, i, windows, found, from)
      {
        PicksStep(listed, i, windows, found, from);
        if IsObserved(listed[i], windows) {
          found := found + [listed[i]];
          from := from + [i];
        }
      }
      PicksAreObserved(rows, ws, listed, windows, found, from);
    }

    /** `observe_terminal_activity_batch`, for validated observations; Workspaces without any are left out. */
    method ObserveBatch(o: Observations) returns (result: map<WorkspaceId, seq<Stored>>)
      requires Valid()
      modifies this
      ensures Valid() && Contents() == Observed(old(Contents()), o)
      ensures RaisesObserved(old(rows), rows, o) && acks == old(acks)
      ensures result.Keys == set ws | ws in o && o[ws] != map[]
      ensures forall ws :: ws in result ==> ObservedRows(rows, ws, o[ws].Keys, result[ws]) && InOrder(result[ws])
    {
      Observe(o);
      result := SelectAllObserved(o);
    }

    method SelectAllObserved(o: Observations) returns (result: map<WorkspaceId, seq<Stored>>)
      ensures result.Keys == set ws | ws in o && o[ws] != map[]
      ensures forall ws :: ws in result ==> ObservedRows(rows, ws, o[ws].Keys, result[ws]) && InOrder(result[ws])
    {
      result := map[];
      var rest := set ws | ws in o && o[ws] != map[];
      while rest != {}
        invariant rest <= o.Keys && result.Keys == (set ws | ws in o && o[ws] != map[]) - rest
        invariant forall ws :: ws in rest ==> o[ws] != map[]
        invariant forall ws :: ws in result ==> ObservedRows(rows, ws, o[ws].Keys, result[ws]) && InOrder(result[ws])
      {
        var ws :| ws in rest;
        var found := SelectObserved(ws, o[ws].Keys);
        result := result[ws := found];
        rest := rest - {ws};
      }
    }

    /** `terminal_activity_summary`: baseline what is in scope, then list and count it. */
    method ActivitySummary(scope: Scope) returns (s: Summary)
      requires Valid()
      modifies this
      ensures Valid() && Contents() == Baselined(old(Contents()), scope)
      ensures EntriesOf(Contents(), scope, s.entries)
      ensures ListsScope(rows, acks, scope, s.entries) && Baselines(rows, old(acks), acks, scope, s.entries)
      ensures rows == old(rows)
      ensures s.unread == CountUnread(s.entries) == SumUnread(s.workspaces)
      ensures Named(s.workspaces, Appearing(s.entries)) && AllSummarize(s.entries, s.workspaces)
      ensures IsLatestUnread(s.entries, s.latestUnread)
      // A first summary never reports a Terminal unread.
      ensures forall k :: 0 <= k < |s.entries| && s.entries[k].id !in old(acks) ==> !Unread(s.entries[k])
    {
      var entries := BaselineAndList(scope);
      var workspaces, unread, latest := Summarize(entries);
      return Summary(entries, workspaces, unread, latest);
    }

    /** The two statements of a summary. */
    method BaselineAndList(scope: Scope) returns (entries: seq<Entry>)
      requires Valid()
      modifies this
      ensures Valid() && Contents() == Baselined(old(Contents()), scope) && EntriesOf(Contents(), scope, entries)
      ensures rows == old(rows)
      ensures ListsScope(rows, acks, scope, entries) && Baselines(rows, old(acks), acks, scope, entries)
    {
      Baseline(scope);
      entries := SelectEntries(scope);
      EntriesListScope(Contents(), scope, entries);
      SummaryBaselines(old(Contents()), scope, entries);
    }

    method Baseline(scope: Scope)
      requires Valid()
      modifies this`acks
      ensures Valid() && Contents() == Baselined(old(Contents()), scope)
      ensures forall id :: InScope(rows, scope, id) ==> id in acks
    {
      acks := acks + map id | id in rows && InScope(rows, scope, id) && id !in acks :: rows[id].activity.value;
    }

    /** The joined SELECT, newest activity first. */
    method SelectEntries(scope: Scope) returns (entries: seq<Entry>)
      requires Valid() && forall id :: InScope(rows, scope, id) ==> id in acks
      ensures EntriesOf(Contents(), scope, entries)
    {
      var rest := set id | id in rows && InScope(rows, scope, id);
      entries := [];
      while rest != {}
        invariant rest <= rows.Keys && PartialEntries(Contents(), scope, entries, rest)
        decreases rest
      {
        NewestExists(rows, rest);
        var id :| id in rest && IsNewest(rows, rest, id);
        PartialEntriesStep(Contents(), scope, entries, rest, id);
        entries := entries + [EntryOf(rows, acks, id)];
        rest := rest - {id};
      }
    }

    // ------------------------------------------------------- reconciliation

    /** The two matching loops, mutating `claimed_ids` and `assigned_by_window`. */
    method Match(stored: seq<Stored>, items: seq<Item>) returns (m: Matching)
      ensures m == Matched(stored, items)
    {
      m := Matching({}, map[]);
      for i := 0 to |items|
        invariant m == AfterManaged(stored, items[..i])
      {
        assert items[..i + 1][..i] == items[..i];
        if items[i].role != Shell {
          var candidate := ByRole(stored, items[i].role);
          if candidate.None? {
            candidate := ShellByWindow(stored, items[i].window);
          }
          if candidate.Some? && candidate.value !in m.claimed {
            m := Take(m, items[i], candidate.value);
          }
        }
      }
      assert items[..|items|] == items;
      ghost var managed := m;
      for i := 0 to |items|
        invariant m == AfterShells(stored, items[..i], managed)
      {
        assert items[..i + 1][..i] == items[..i];
        if items[i].role == Shell {
          var candidate := ShellByWindow(stored, items[i].window);
          if candidate.None? || candidate.value in m.claimed {
            candidate := FreeShellNamed(stored, m.claimed, items[i].name);
            if candidate.None? {
              candidate := FreeShell(stored, m.claimed);
            }
          }
          if candidate.Some? {
            m := Take(m, items[i], candidate.value);
          }
        }
      }
    }

    /** One more deletion within a transaction that began with `before`. */
    method DeleteFurther(ghost before: Db, id: TerminalId)
      requires Constraints(rows) && Contents() == WithRows(before, rows)
      modifies this
      ensures Constraints(rows) && rows == old(rows) - {id} && Contents() == WithRows(before, rows)
    {
      CascadeTwice(before, rows, rows - {id});
      DeleteRow(id);
    }

    /** DELETE every stored row the matching left unclaimed. */
    method DeleteUnclaimed(ws: WorkspaceId, stored: seq<Stored>, claimed: set<TerminalId>, ghost ids: seq<TerminalId>)
      requires Valid() && Lists(rows, ws, stored) && Plan(rows, ws, claimed, ids)
      modifies this
      ensures Constraints(rows)
      ensures rows == Parked(old(rows), ws, claimed, ids, 0)
      ensures Contents() == WithRows(old(Contents()), rows)
    {
      ghost var t, before := rows, Contents();
      ghost var dropped: set<TerminalId> := {};
      for k := 0 to |stored|
        invariant Constraints(rows) && rows == t - dropped
        invariant Contents() == WithRows(before, rows)
        invariant forall id :: id in dropped ==> id in t && t[id].workspace == ws && id !in claimed
        invariant forall j :: 0 <= j < k ==> stored[j].id in claimed || stored[j].id in dropped
      {
        if stored[k].id !in claimed {
          DeleteFurther(before, stored[k].id);
          dropped := dropped + {stored[k].id};
        }
      }
      DroppedIsUnclaimed(t, ws, stored, claimed, ids, dropped);
    }

    /** Move every matched row to its parking window and out of its role. */
    method ParkMatched(ghost t: Table, ws: WorkspaceId, m: Matching, ids: seq<TerminalId>, items: seq<Item>)
      returns (ok: bool)
      requires Constraints(t) && Plan(t, ws, m.claimed, ids) && |ids| == |items|
      requires forall i :: 0 <= i < |items| ==> (items[i].window in m.byWindow <==> ids[i] in t)
      requires Constraints(rows) && rows == Parked(t, ws, m.claimed, ids, 0)
      modifies this`rows
      ensures Constraints(rows)
      ensures ok <==> forall k: nat :: k <= |ids| ==> NoParkClash(t, ids, k)
      ensures ok ==> rows == Parked(t, ws, m.claimed, ids, |ids|)
    {
      ok := true;
      var i := 0;
      while i < |items| && ok
        invariant i <= |items| && Constraints(rows)
        invariant ok ==> rows == Parked(t, ws, m.claimed, ids, i) && forall k: nat :: k <= i ==> NoParkClash(t, ids, k)
        invariant !ok ==> !NoParkClash(t, ids, i)
      {
        ok := ParkOne(t, ws, m.claimed, ids, i, items[i].window in m.byWindow);
        i := i + 1;
      }
    }

    method ParkOne(ghost t: Table, ws: WorkspaceId, ghost claimed: set<TerminalId>, ids: seq<TerminalId>, i: nat,
                   matched: bool)
      returns (ok: bool)
      requires Constraints(t) && Plan(t, ws, claimed, ids) && i < |ids| && (matched <==> ids[i] in t)
      requires Constraints(rows) && rows == Parked(t, ws, claimed, ids, i)
      modifies this`rows
      ensures Constraints(rows)
      ensures ok <==> NoParkClash(t, ids, i + 1)
      ensures ok ==> rows == Parked(t, ws, claimed, ids, i + 1)
    {
      ParkedKeepsConstraints(t, ws, claimed, ids, i + 1);
      if matched {
        ParkedStep(t, ws, claimed, ids, i);
        ok := WriteRow(ids[i], ParkedRow(ids[i], rows[ids[i]]));
      } else {
        ParkedSkip(t, ws, claimed, ids, i);
        ok := true;
      }
    }

    /** Write every item: update the matched row, or insert a new one. */
    method WriteItems(ghost t: Table, ws: WorkspaceId, m: Matching, ids: seq<TerminalId>, items: seq<Item>, now: int)
      returns (ok: bool)
      requires Constraints(t) && Plan(t, ws, m.claimed, ids) && |ids| == |items| && DistinctItems(items)
      requires forall i :: 0 <= i < |items| ==> (items[i].window in m.byWindow <==> ids[i] in t)
      requires Constraints(rows) && rows == Parked(t, ws, m.claimed, ids, |ids|)
      modifies this`rows
      ensures Constraints(rows)
      ensures ok <==> forall k: nat :: k <= |ids| ==> NoWriteClash(t, ids, items, k)
      ensures ok ==> rows == Reconciled(t, ws, ids, items, now)
    {
      ok := true;
      ghost var parked := rows;
      assert rows == Written(parked, t, ws, ids, items, 0, now);
      var i := 0;
      while i < |items| && ok
        invariant i <= |items| && Constraints(rows)
        invariant ok ==> rows == Written(parked, t, ws, ids, items, i, now)
        invariant ok ==> forall k: nat :: k <= i ==> NoWriteClash(t, ids, items, k)
        invariant !ok ==> !NoWriteClash(t, ids, items, i)
      {
        ok := WriteItem(t, ws, m.claimed, ids, items, i, now, items[i].window in m.byWindow);
        i := i + 1;
      }
      StatementsReachReconciled(t, ws, m.claimed, ids, items, now);
    }

    method WriteItem(ghost t: Table, ws: WorkspaceId, ghost claimed: set<TerminalId>, ids: seq<TerminalId>,
                     items: seq<Item>, i: nat, now: int, matched: bool)
      returns (ok: bool)
      requires Constraints(t) && Plan(t, ws, claimed, ids) && |ids| == |items| && DistinctItems(items) && i < |ids|
      requires matched <==> ids[i] in t
      requires Constraints(rows)
      requires rows == Written(Parked(t, ws, claimed, ids, |ids|), t, ws, ids, items, i, now)
      modifies this`rows
      ensures Constraints(rows)
      ensures ok <==> NoWriteClash(t, ids, items, i + 1)
      ensures ok ==> rows == Written(Parked(t, ws, claimed, ids, |ids|), t, ws, ids, items, i + 1, now)
    {
      WrittenStep(t, ws, claimed, ids, items, i, now);
      WrittenKeepsConstraints(t, ws, claimed, ids, items, i + 1, now);
      var item := items[i];
      var row := if matched
                 then rows[ids[i]].(name := item.name, window := item.window, role := item.role, run := item.run,
                                    activity := MaxActivity(rows[ids[i]].activity, item.activity))
                 else Row(ws, item.name, item.window, item.role, item.run, item.activity, now);
      assert row == NewRow(t, ws, ids[i], item, now);
      ok := WriteRow(ids[i], row);
    }

    method ParkAndWrite(ghost t: Table, ws: WorkspaceId, m: Matching, ids: seq<TerminalId>, items: seq<Item>, now: int)
      returns (ok: bool)
      requires Constraints(t) && Plan(t, ws, m.claimed, ids) && |ids| == |items| && DistinctItems(items)
      requires forall i :: 0 <= i < |items| ==> (items[i].window in m.byWindow <==> ids[i] in t)
      requires Constraints(rows) && rows == Parked(t, ws, m.claimed, ids, 0)
      modifies this`rows
      ensures Constraints(rows)
      ensures ok <==> NoClash(t, ids, items)
      ensures ok ==> rows == Reconciled(t, ws, ids, items, now)
    {
      NoClashAtAnyStep(t, ids, items);
      ok := ParkMatched(t, ws, m, ids, items);
      if ok {
        ok := WriteItems(t, ws, m, ids, items, now);
      }
    }

    /** Delete, park and write as one transaction: a violated constraint rolls everything back. */
    method Rewrite(ws: WorkspaceId, stored: seq<Stored>, items: seq<Item>, m: Matching, newIds: seq<TerminalId>, now: int)
      returns (ok: bool)
      requires Valid() && Lists(rows, ws, stored) && DistinctItems(items) && m == Matched(stored, items)
      requires |newIds| == |items| && NewIds(rows, newIds)
      modifies this
      ensures Valid() && Plan(old(rows), ws, m.claimed, RowIds(items, m, newIds))
      ensures ok <==> NoClash(old(rows), RowIds(items, m, newIds), items)
      ensures Contents() == if ok then After(old(Contents()), ReconcileStep(ws, m.claimed, RowIds(items, m, newIds), items, now))
                            else old(Contents())
    {
      var savedRows, savedAcks := rows, acks;
      ghost var t := rows;
      var ids := RowIds(items, m, newIds);
      MatchingIsAPlan(t, ws, stored, items, newIds);
      DeleteUnclaimed(ws, stored, m.claimed, ids);
      ok := ParkAndWrite(t, ws, m, ids, items, now);
      if ok {
        ReconciledAcks(Db(savedRows, savedAcks), ws, m.claimed, ids, items, now);
      } else {
        rows, acks := savedRows, savedAcks;
      }
    }

    /**
     `reconcile_terminals`. Bad input is refused, a constraint violation happens
     exactly when a parking name is in use, either changes nothing, and success
     returns the rows the Workspace now has.
    */
    method Reconcile(ws: WorkspaceId, raw: seq<RawWindow>, newIds: seq<TerminalId>, now: int)
      returns (r: Result<seq<Stored>, StoreError>, m: Matching, ghost stored: seq<Stored>)
      requires Valid() && |newIds| == |raw| && NewIds(rows, newIds)
      modifies this
      ensures Valid()
      ensures r == Err(InvalidWindows) <==> !Acceptable(raw)
      ensures Acceptable(raw) ==> Lists(old(rows), ws, stored) && m == Matched(stored, ItemsOf(raw))
      ensures Acceptable(raw) ==>
        (r == Err(IntegrityError) <==> !NoClash(old(rows), RowIds(ItemsOf(raw), m, newIds), ItemsOf(raw)))
      ensures r.Err? ==> (r.error == InvalidWindows || r.error == IntegrityError) && Contents() == old(Contents())
      ensures r.Ok? ==>
        && Acceptable(raw) && Plan(old(rows), ws, m.claimed, RowIds(ItemsOf(raw), m, newIds))
        && Contents() == After(old(Contents()),
             ReconcileStep(ws, m.claimed, RowIds(ItemsOf(raw), m, newIds), ItemsOf(raw), now))
        && Lists(rows, ws, r.value) && InOrder(r.value)
      // In terms of the report and of the table alone.
      ensures r.Ok? ==> ShowsReport(old(rows), r.value, raw, now)
      ensures r.Ok? ==> forall id :: id in old(rows) && old(rows)[id].workspace != ws ==> id in rows && rows[id] == old(rows)[id]
      ensures r.Ok? ==> forall id :: id in acks <==> id in old(acks) && id in rows
      ensures r.Ok? ==> forall id :: id in acks ==> acks[id] == old(acks)[id]
    {
      m, stored := Matching({}, map[]), [];
      var normalized := Normalize(raw);
      if normalized.Err? {
        r := Err(InvalidWindows);
      } else {
        var items := normalized.value;
        AcceptableIsDistinct(raw);
        var listed := SelectWorkspace(ws);
        stored := listed;
        m := Match(listed, items);
        var ok := Rewrite(ws, listed, items, m, newIds, now);
        if ok {
          var current := SelectWorkspace(ws);
          r := Ok(current);
          ReconciledShows(old(rows), ws, m.claimed, RowIds(items, m, newIds), raw, now, current);
        } else {
          r := Err(IntegrityError);
        }
      }
    }
  }

  lemma ObservedIsValid(db: Db, o: Observations)
    requires Constraints(db.rows) && AcknowledgedWithinActivity(db)
    ensures Constraints(Observed(db, o).rows) && AcknowledgedWithinActivity(Observed(db, o))
  {
    assert forall id :: id in db.rows ==>
      ObservedRow(db.rows[id], o).(activity := None) == db.rows[id].(activity := None);
    if id :| id in db.acks {
      StepKeepsActivity(db, ObserveStep(o), id);
    }
  }

  predicate IsObserved(s: Stored, windows: set<string>) {
    s.row.role == Shell && s.row.window in windows
  }

  /** Exactly the observed shell rows of the Workspace, each once. */
  ghost predicate ObservedRows(rows: Table, ws: WorkspaceId, windows: set<string>, found: seq<Stored>) {
    && (forall k :: 0 <= k < |found| ==>
          found[k].id in rows && rows[found[k].id] == found[k].row && found[k].row.workspace == ws
          && found[k].row.role == Shell && found[k].row.window in windows)
    && (forall id :: id in rows && rows[id].workspace == ws && rows[id].role == Shell && rows[id].window in windows
          ==> Listed(found, id))
    && (forall j, k :: 0 <= j < k < |found| ==> found[j].id != found[k].id)
  }

  /** The picked rows are listed at the places `from`, before the place `n`. */
  ghost predicate PickedPlaces(listed: seq<Stored>, n: nat, found: seq<Stored>, from: seq<nat>) {
    |from| == |found| && forall k :: 0 <= k < |from| ==> from[k] < n <= |listed| && listed[from[k]] == found[k]
  }

  ghost predicate PickedInOrder(from: seq<nat>) {
    forall j, k :: 0 <= j < k < |from| ==> from[j] < from[k]
  }

  ghost predicate AllObserved(windows: set<string>, found: seq<Stored>) {
    forall s :: s in found ==> IsObserved(s, windows)
  }

  ghost predicate NoneMissed(listed: seq<Stored>, n: nat, windows: set<string>, found: seq<Stored>)
    requires n <= |listed|
  {
    forall s :: s in listed[..n] && IsObserved(s, windows) ==> s in found
  }

  /** `found` are the observed ones among the first `n` listed rows, picked in order from the places `from`. */
  ghost predicate Picks(listed: seq<Stored>, n: nat, windows: set<string>, found: seq<Stored>, from: seq<nat>) {
    && n <= |listed|
    && PickedPlaces(listed, n, found, from)
    && PickedInOrder(from)
    && AllObserved(windows, found)
    && NoneMissed(listed, n, windows, found)
  }

  lemma PickedPlacesStep(listed: seq<Stored>, n: nat, found: seq<Stored>, from: seq<nat>)
    requires n < |listed| && PickedPlaces(listed, n, found, from)
    ensures PickedPlaces(listed, n + 1, found, from)
    ensures PickedPlaces(listed, n + 1, found + [listed[n]], from + [n])
  {
  }

  lemma PickedInOrderStep(listed: seq<Stored>, n: nat, found: seq<Stored>, from: seq<nat>)
    requires PickedPlaces(listed, n, found, from) && PickedInOrder(from)
    ensures PickedInOrder(from + [n])
  {
  }

  lemma NoneMissedStep(listed: seq<Stored>, n: nat, windows: set<string>, found: seq<Stored>)
    requires n < |listed| && NoneMissed(listed, n, windows, found)
    ensures NoneMissed(listed, n + 1, windows, found + [listed[n]])
    ensures !IsObserved(listed[n], windows) ==> NoneMissed(listed, n + 1, windows, found)
  {
    assert listed[..n + 1] == listed[..n] + [listed[n]];
  }

  lemma PicksStep(listed: seq<Stored>, n: nat, windows: set<string>, found: seq<Stored>, from: seq<nat>)
    requires n < |listed| && Picks(listed, n, windows, found, from)
    ensures if IsObserved(listed[n], windows) then Picks(listed, n + 1, windows, found + [listed[n]], from + [n])
            else Picks(listed, n + 1, windows, found, from)
  {
    PickedPlacesStep(listed, n, found, from);
    PickedInOrderStep(listed, n, found, from);
    NoneMissedStep(listed, n, windows, found);
  }

  /** Every observed row of the Workspace is picked. */
  lemma ObservedIsPicked(rows: Table, ws: WorkspaceId, listed: seq<Stored>, windows: set<string>, found: seq<Stored>,
                         id: TerminalId)
    requires Lists(rows, ws, listed) && NoneMissed(listed, |listed|, windows, found)
    requires id in rows && rows[id].workspace == ws && IsObserved(Stored(id, rows[id]), windows)
    ensures Listed(found, id)
  {
    var i :| 0 <= i < |listed| && listed[i].id == id;
    assert listed[i] in listed[..|listed|];
    var k :| 0 <= k < |found| && found[k] == listed[i];
    assert found[k].id == id;
  }

  lemma PicksAreObserved(rows: Table, ws: WorkspaceId, listed: seq<Stored>, windows: set<string>, found: seq<Stored>,
                         from: seq<nat>)
    requires Lists(rows, ws, listed) && InOrder(listed) && Picks(listed, |listed|, windows, found, from)
    ensures ObservedRows(rows, ws, windows, found) && InOrder(found)
  {
    forall k | 0 <= k < |found|
      ensures found[k].id in rows && rows[found[k].id] == found[k].row && found[k].row.workspace == ws
              && IsObserved(found[k], windows)
    {
      assert listed[from[k]] == found[k] && found[k] in found;
    }
    forall id | id in rows && rows[id].workspace == ws && IsObserved(Stored(id, rows[id]), windows) ensures Listed(found, id) {
      ObservedIsPicked(rows, ws, listed, windows, found, id);
    }
    forall j, k | 0 <= j < k < |found|
      ensures found[j].id != found[k].id && found[j].row.createdAt <= found[k].row.createdAt
    {
      assert listed[from[j]].id != listed[from[k]].id;
    }
  }

  lemma MatchingIsAPlan(t: Table, ws: WorkspaceId, stored: seq<Stored>, items: seq<Item>, newIds: seq<TerminalId>)
    requires Constraints(t) && Lists(t, ws, stored) && DistinctItems(items) && |newIds| == |items| && NewIds(t, newIds)
    ensures var m := Matched(stored, items);
            && Plan(t, ws, m.claimed, RowIds(items, m, newIds))
            && forall i :: 0 <= i < |items| ==> (items[i].window in m.byWindow <==> RowIds(items, m, newIds)[i] in t)
  {
    var m := Matched(stored, items);
    MatchingIsSound(t, ws, stored, items);
    MatchingGivesPlan(t, ws, items, m, newIds);
    MatchedRowsAreStored(t, ws, m);
  }

  lemma ParkedSkip(t: Table, ws: WorkspaceId, claimed: set<TerminalId>, ids: seq<TerminalId>, i: nat)
    requires Plan(t, ws, claimed, ids) && i < |ids| && ids[i] !in t
    ensures Parked(t, ws, claimed, ids, i + 1) == Parked(t, ws, claimed, ids, i)
  {
    forall id | id in t ensures Position(ids, id) != i {
      PositionOf(ids, i, id);
    }
  }

  lemma ParkedStep(t: Table, ws: WorkspaceId, claimed: set<TerminalId>, ids: seq<TerminalId>, i: nat)
    requires Plan(t, ws, claimed, ids) && i < |ids| && ids[i] in t
    ensures ids[i] in Parked(t, ws, claimed, ids, i) && Parked(t, ws, claimed, ids, i)[ids[i]] == t[ids[i]]
    ensures Parked(t, ws, claimed, ids, i + 1) == Parked(t, ws, claimed, ids, i)[ids[i] := ParkedRow(ids[i], t[ids[i]])]
  {
    PositionOf(ids, i, ids[i]);
    forall id ensures Position(ids, id) == i <==> id == ids[i] {
      PositionOf(ids, i, id);
    }
  }

  /** What one more write does to one row. */
  lemma WrittenStepAt(parked: Table, t: Table, ws: WorkspaceId, ids: seq<TerminalId>, items: seq<Item>, i: nat, now: int,
                      id: TerminalId)
    requires Distinct(ids) && |ids| == |items| && i < |ids|
    ensures var s := Written(parked, t, ws, ids, items, i, now);
            var s' := Written(parked, t, ws, ids, items, i + 1, now);
            && (id in s' <==> id in s || id == ids[i])
            && (id in s' ==> s'[id] == if id == ids[i] then NewRow(t, ws, id, items[i], now) else s[id])
  {
    PositionOf(ids, i, id);
    PositionOf(ids, i, ids[i]);
  }

  lemma WrittenStep(t: Table, ws: WorkspaceId, claimed: set<TerminalId>, ids: seq<TerminalId>, items: seq<Item>,
                    i: nat, now: int)
    requires Plan(t, ws, claimed, ids) && |ids| == |items| && i < |ids|
    ensures var parked := Parked(t, ws, claimed, ids, |ids|);
            Written(parked, t, ws, ids, items, i + 1, now)
              == Written(parked, t, ws, ids, items, i, now)[ids[i] := NewRow(t, ws, ids[i], items[i], now)]
    ensures ids[i] in t ==>
              var s := Written(Parked(t, ws, claimed, ids, |ids|), t, ws, ids, items, i, now);
              ids[i] in s && s[ids[i]] == ParkedRow(ids[i], t[ids[i]])
  {
    var parked := Parked(t, ws, claimed, ids, |ids|);
    var s' := Written(parked, t, ws, ids, items, i + 1, now);
    var want := Written(parked, t, ws, ids, items, i, now)[ids[i] := NewRow(t, ws, ids[i], items[i], now)];
    forall id ensures id in s' <==> id in want {
      WrittenStepAt(parked, t, ws, ids, items, i, now, id);
    }
    forall id | id in s' ensures s'[id] == want[id] {
      WrittenStepAt(parked, t, ws, ids, items, i, now, id);
    }
    if ids[i] in t {
      StillParked(t, ws, claimed, ids, items, i, now);
    }
  }

  lemma StillParked(t: Table, ws: WorkspaceId, claimed: set<TerminalId>, ids: seq<TerminalId>, items: seq<Item>,
                    i: nat, now: int)
    requires Plan(t, ws, claimed, ids) && |ids| == |items| && i < |ids| && ids[i] in t
    ensures var s := Written(Parked(t, ws, claimed, ids, |ids|), t, ws, ids, items, i, now);
            ids[i] in s && s[ids[i]] == ParkedRow(ids[i], t[ids[i]])
  {
    PositionOf(ids, i, ids[i]);
    assert ids[i] in ids;
  }

  lemma CascadeTwice(db: Db, fewer: Table, evenFewer: Table)
    requires forall id :: id in evenFewer ==> id in fewer
    ensures WithRows(WithRows(db, fewer), evenFewer) == WithRows(db, evenFewer)
  {
  }

  lemma DroppedIsUnclaimed(t: Table, ws: WorkspaceId, stored: seq<Stored>, claimed: set<TerminalId>,
                           ids: seq<TerminalId>, dropped: set<TerminalId>)
    requires Lists(t, ws, stored) && Plan(t, ws, claimed, ids)
    requires forall id :: id in dropped ==> id in t && t[id].workspace == ws && id !in claimed
    requires forall j :: 0 <= j < |stored| ==> stored[j].id in claimed || stored[j].id in dropped
    ensures t - dropped == Parked(t, ws, claimed, ids, 0)
  {
    forall id | id in t && t[id].workspace == ws ensures id in claimed || id in dropped {
      var k :| 0 <= k < |stored| && stored[k].id == id;
    }
  }

  /** Deleting, parking and rewriting leave exactly the acknowledgements of the surviving rows. */
  lemma ReconciledAcks(db: Db, ws: WorkspaceId, claimed: set<TerminalId>, ids: seq<TerminalId>, items: seq<Item>, now: int)
    requires Plan(db.rows, ws, claimed, ids) && |ids| == |items| && AcknowledgedWithinActivity(db)
    ensures var t' := Reconciled(db.rows, ws, ids, items, now);
            && WithRows(db, Parked(db.rows, ws, claimed, ids, 0)).acks == WithRows(db, t').acks
            && AcknowledgedWithinActivity(WithRows(db, t'))
  {
    if id :| id in db.acks {
      ReconcileKeepsActivity(db, ws, claimed, ids, items, now, id);
    }
  }
}
