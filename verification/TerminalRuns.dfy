/**
 Between the Terminals and the File Runs: a run that tmux reports in a managed
 window is recorded in its row, and no prune drops it while it is.
*/
module TerminalRuns {
  import opened Wrappers
  import opened Terminals
  import opened TerminalStores
  import F = FileRuns
  import A = ActivityLog

  /** The runs some Terminal row names: what a prune looks up in the table. */
  function ManagedRuns(rows: Table): set<string> {
    set id | id in rows && rows[id].run.Some? :: rows[id].run.value
  }

  /** A reported managed run is a managed run of the table a reconcile returns. */
  lemma ReportedRunIsManaged(before: Table, rows: Table, ws: WorkspaceId, found: seq<Stored>, raw: seq<RawWindow>, i: nat,
                             now: int)
    requires i < |raw| && ShowsReport(before, found, raw, now) && Lists(rows, ws, found)
    ensures raw[i].role in {"file_run", "remote_run"} && raw[i].run != "" ==> raw[i].run in ManagedRuns(rows)
  {
    assert IsShown(before, found, raw[i], now);
    var k :| 0 <= k < |found| && Shows(found[k].row, raw[i]);
    if raw[i].role in {"file_run", "remote_run"} && raw[i].run != "" {
      assert found[k].id in rows && rows[found[k].id].run == Some(raw[i].run);
    }
  }

  /** A managed run of the table comes from some row, and a reported shell window names none. */
  lemma ShellWindowsNameNoRun(before: Table, found: seq<Stored>, raw: seq<RawWindow>, i: nat, now: int)
    requires i < |raw| && ShowsReport(before, found, raw, now) && raw[i].role in {"", "shell"}
    ensures exists k :: 0 <= k < |found| && found[k].row.window == raw[i].window && found[k].row.run.None?
  {
    assert IsShown(before, found, raw[i], now);
    var k :| 0 <= k < |found| && Shows(found[k].row, raw[i]);
    assert found[k].row.window == raw[i].window;
  }

  /** A run reported in a managed window survives every prune of a store that looks it up in that table. */
  lemma ReportedRunSurvivesPruning(before: Table, rows: Table, ws: WorkspaceId, found: seq<Stored>, raw: seq<RawWindow>,
                                   i: nat, now: int, s: F.Store, later: int)
    requires i < |raw| && ShowsReport(before, found, raw, now) && Lists(rows, ws, found)
    requires raw[i].role in {"file_run", "remote_run"} && raw[i].run in s.runs && raw[i].run != ""
    requires s.managed == ManagedRuns(rows)
    ensures raw[i].run in F.Pruned(s, later).runs && F.Pruned(s, later).runs[raw[i].run] == s.runs[raw[i].run]
  {
    ReportedRunIsManaged(before, rows, ws, found, raw, i, now);
  }
}
