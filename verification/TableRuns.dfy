/** Uniqueness of both keys over runs with commits of any batches. The shape of the paths, on which the file
    theorems rest, plays no part in it. */
module TableRuns {
  import opened Text
  import opened PathNames
  import opened Template
  import opened Registry
  import opened Files
  import opened Lifecycle
  import opened Commit
  import Runs
  import PortCheck

  /** A step of the lifecycle in which a commit may bring paths of any shape. */
  ghost predicate LooseStep(w: World, e: Event, w': World) {
    if e.ImportCommit? then AnyCommitStep(w, w', e.drafts, e.out) else Step(w, e, w')
  }

  lemma InsertKeepsKeys(t: Table, r: Row)
    requires KeyedTable(t) && !NameTaken(t.rows, r.host, r.name, 0) && !PathTaken(t.rows, r.host, r.path, 0)
    ensures KeyedTable(Insert(t, r))
  {
    assert t.next !in t.rows && forall id :: id in t.rows ==> id != 0;
  }

  lemma ReplaceKeepsKeys(t: Table, id: int, r: Row)
    requires KeyedTable(t) && id in t.rows && !NameTaken(t.rows, r.host, r.name, id) && !PathTaken(t.rows, r.host, r.path, id)
    ensures KeyedTable(Replace(t, id, r))
  {
  }

  lemma CreateKeepsKeys(w: World, w': World, host: string, f: Fields, out: Outcome)
    requires KeyedTable(w.table) && CreateStep(w, w', host, f, out)
    ensures KeyedTable(w'.table)
  {
    hide KeyedTable, RenderService, PortCheck.ScanConflict, NameTaken, PathTaken, PortTaken;
    if out.Done? {
      var r := RenderService(f).value;
      InsertKeepsKeys(w.table, NewRow(RequestDraft(host, f, r, r.configName)));
    }
  }

  lemma UpdateKeepsKeys(
    w: World, w': World, host: string, name: string, f: Fields, stamp: string, stamp2: string, out: Outcome)
    requires KeyedTable(w.table) && UpdateStep(w, w', host, name, f, stamp, stamp2, out)
    ensures KeyedTable(w'.table)
  {
    hide KeyedTable, RenderService, PortCheck.ScanConflict, NameTaken, PathTaken, PortTaken, TargetPath, UpdatedRow, Updated,
      UpdateCut, UndoCut, Undone, Bak;
    if out.Done? {
      assert Registered(w.table.rows, host, name);
      var id := IdOf(w.table.rows, host, name);
      var row, r := w.table.rows[id], RenderService(f).value;
      Runs.UpdatedRowKeeps(row, RequestDraft(host, f, r, TargetPath(row.path, r.configName)), w.disks[host][row.path]);
      ReplaceKeepsKeys(w.table, id, w'.table.rows[id]);
    }
  }

  /** The events that neither insert nor rewrite: every row left has the keys it had. */
  lemma OthersKeepKeys(w: World, e: Event, w': World)
    requires KeyedTable(w.table) && Step(w, e, w') && (e.Archive? || e.Restore? || e.Delete? || e.Refresh?)
    ensures KeyedTable(w'.table)
  {
    hide ArchiveCut, RestoreCut, BackedUp, Restored, HostOk, Bak, NameTaken, IdOf, KeyedTable, SetByName, Remove;
    var t := w.table;
    if e.Archive? {
      FlagKeepsKeys(t, e.host, e.name, true, Runtime("STOPPED", None, None));
    } else if e.Restore? {
      forall rt ensures KeyedTable(SetByName(t, e.host, e.name, false, rt)) { FlagKeepsKeys(t, e.host, e.name, false, rt); }
    } else if e.Delete? {
      forall id ensures KeyedTable(Remove(t, id)) { SameKeysKeep(t, Remove(t, id)) by { RemoveRows(t, id); } }
    } else {
      SameKeysKeep(t, w'.table);
    }
  }

  lemma RemoveRows(t: Table, id: int)
    ensures var t' := Remove(t, id); t'.next == t.next && t'.rows.Keys <= t.rows.Keys && forall i :: i in t'.rows ==> t'.rows[i] == t.rows[i]
  {
  }

  lemma FlagKeepsKeys(t: Table, host: string, name: string, archived: bool, runtime: Runtime)
    requires KeyedTable(t)
    ensures KeyedTable(SetByName(t, host, name, archived, runtime))
  {
    hide KeyedTable;
    SameKeysKeep(t, SetByName(t, host, name, archived, runtime));
  }

  lemma SameKeysKeep(t: Table, t': Table)
    requires KeyedTable(t) && t'.next == t.next && t'.rows.Keys <= t.rows.Keys
    requires forall id :: id in t'.rows ==>
               t'.rows[id].host == t.rows[id].host && t'.rows[id].path == t.rows[id].path && t'.rows[id].name == t.rows[id].name
    ensures KeyedTable(t')
  {
  }

  lemma StepKeepsKeys(w: World, e: Event, w': World)
    requires KeyedTable(w.table) && LooseStep(w, e, w')
    ensures KeyedTable(w'.table)
  {
    hide KeyedTable, CreateStep, UpdateStep, ArchiveStep, RestoreStep, DeleteStep, RefreshStep, Accepted, Upserts;
    match e
    case Create(host, f, out) => CreateKeepsKeys(w, w', host, f, out);
    case Update(host, name, f, stamp, stamp2, out) => UpdateKeepsKeys(w, w', host, name, f, stamp, stamp2, out);
    case ImportCommit(ds, out) => if out.Done? { UpsertsKeepKeys(w.table, ds); }
    case _ => OthersKeepKeys(w, e, w');
  }

  ghost predicate LooseRun(ws: seq<World>, es: seq<Event>) {
    |ws| == |es| + 1 && forall k :: 0 <= k < |es| ==> LooseStep(ws[k], es[k], ws[k + 1])
  }

  /** Over every run of create, update with rename, archive, restore, delete, sync and any COMMIT at all, stopped
      by failure anywhere and with any stamps, (host, configPath) and (host, contentProgramName) stay unique. */
  lemma {:induction false} KeysUniqueOverRuns(ws: seq<World>, es: seq<Event>, n: nat)
    requires LooseRun(ws, es) && n < |ws| && KeyedTable(ws[0].table)
    ensures KeyedTable(ws[n].table)
    ensures UniqueNames(ws[n].table.rows) && UniquePaths(ws[n].table.rows)
  {
    hide LooseStep, UniqueNames, UniquePaths;
    if n > 0 {
      KeysUniqueOverRuns(ws, es, n - 1);
      StepKeepsKeys(ws[n - 1], es[n - 1], ws[n]);
    }
  }

  /** Hence the by-name write of an archive or restore touches exactly one row at every moment of such a run. */
  lemma ByNameTouchesOne(ws: seq<World>, es: seq<Event>, n: nat, id: int, archived: bool, runtime: Runtime)
    requires LooseRun(ws, es) && n < |ws| && KeyedTable(ws[0].table) && id in ws[n].table.rows
    ensures var t := ws[n].table; var row := t.rows[id];
            SetByName(t, row.host, row.name, archived, runtime) == Replace(t, id, row.(archived := archived, runtime := runtime))
  {
    hide LooseRun, KeyedTable;
    KeysUniqueOverRuns(ws, es, n);
    SetByNameTouchesOne(ws[n].table, id, archived, runtime);
  }
}
