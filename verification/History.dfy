/** Statements that compare different moments of a run: archive flags, archived bytes, file contents. */
module History {
  import opened Text
  import opened PathNames
  import opened Template
  import opened Files
  import opened PortCheck
  import opened Registry
  import opened Lifecycle
  import opened Safety
  import opened Runs
  import opened Ports
  import Commit

  // ---------------------------------------------------------------- flags

  /** The event is a completed archive of row `id`. */
  ghost predicate Archives(w: World, e: Event, id: int) {
    e.Archive? && e.out.Done? && Registered(w.table.rows, e.host, e.name) && IdOf(w.table.rows, e.host, e.name) == id
  }

  /** The event is a completed restore of row `id`. */
  ghost predicate Restores(w: World, e: Event, id: int) {
    e.Restore? && e.out.Done? && Registered(w.table.rows, e.host, e.name) && IdOf(w.table.rows, e.host, e.name) == id
  }

  ghost predicate Deletes(w: World, e: Event, id: int) {
    e.Delete? && e.out.Done? && Registered(w.table.rows, e.host, e.name) && IdOf(w.table.rows, e.host, e.name) == id
  }

  /** A row disappears only by a hard delete, and only while archived; its flag goes up only by a completed
      archive and down only by a completed restore; an archived row keeps host and path. */
  lemma StepFlags(w: World, e: Event, w': World, id: int)
    requires Inv(w) && Step(w, e, w') && id in w.table.rows
    ensures id !in w'.table.rows <==> Deletes(w, e, id)
    ensures id !in w'.table.rows ==> w.table.rows[id].archived
    ensures id in w'.table.rows ==>
              var r, r' := w.table.rows[id], w'.table.rows[id];
              (Archives(w, e, id) <==> !r.archived && r'.archived)
              && (Restores(w, e, id) <==> r.archived && !r'.archived)
              && (r.archived ==> r'.host == r.host && r'.path == r.path)
  {
    hide Canonical, RenderService, TargetPath, UpdatedRow, AllHeld, UpdateCut, UndoCut, ArchiveCut, RestoreCut,
      Updated, Undone, ScanConflict, UniqueNames, UniquePaths, Commit.Upserts, Commit.Accepted, Commit.CanonicalDrafts,
      BackedUp, Restored, SetByName, HostOk, NoConflict, UpdateGuard;
    match e
    case Update(host, name, f, stamp, stamp2, out) =>
      if out.Done? { UpdateFlags(w, e, w', id); }
    case Archive(host, name, stamp, out) =>
      if out.Done? { ArchiveFlags(w, e, w', id); }
    case Restore(host, name, stamp, out) =>
      if out.Done? { RestoreFlags(w, e, w', id); }
    case ImportCommit(drafts, out) =>
      if out.Done? { Commit.CommitKeepsRows(w.table, drafts); }
    case Create(host, f, out) =>
    case Delete(host, name, gone, out) =>
    case Refresh =>
  }

  lemma ArchiveFlags(w: World, e: Event, w': World, id: int)
    requires ValidTable(w.table) && Step(w, e, w') && id in w.table.rows && e.Archive? && e.out.Done?
    ensures id in w'.table.rows && w'.table.rows[id].host == w.table.rows[id].host && w'.table.rows[id].path == w.table.rows[id].path
    ensures if Archives(w, e, id) then !w.table.rows[id].archived && w'.table.rows[id].archived
            else w'.table.rows[id].archived == w.table.rows[id].archived
  {
    hide Canonical, UniqueNames, UniquePaths, BackedUp, SetByName, HostOk;
    SetByNameTouchesOne(w.table, IdOf(w.table.rows, e.host, e.name), true, Runtime("STOPPED", None, None));
  }

  lemma RestoreFlags(w: World, e: Event, w': World, id: int)
    requires ValidTable(w.table) && Step(w, e, w') && id in w.table.rows && e.Restore? && e.out.Done?
    ensures id in w'.table.rows && w'.table.rows[id].host == w.table.rows[id].host && w'.table.rows[id].path == w.table.rows[id].path
    ensures if Restores(w, e, id) then w.table.rows[id].archived && !w'.table.rows[id].archived
            else w'.table.rows[id].archived == w.table.rows[id].archived
  {
    hide Canonical, UniqueNames, UniquePaths, Restored, SetByName, HostOk;
    var rt :| w'.table == SetByName(w.table, e.host, e.name, false, rt);
    SetByNameTouchesOne(w.table, IdOf(w.table.rows, e.host, e.name), false, rt);
  }

  lemma UpdateFlags(w: World, e: Event, w': World, id: int)
    requires ValidTable(w.table) && Step(w, e, w') && id in w.table.rows && e.Update? && e.out.Done?
    ensures id in w'.table.rows && w'.table.rows[id].archived == w.table.rows[id].archived
    ensures w.table.rows[id].archived ==> w'.table.rows[id] == w.table.rows[id]
  {
    hide Canonical, RenderService, TargetPath, UpdatedRow, UpdateCut, UndoCut, Updated, Undone, ScanConflict,
      UniqueNames, UniquePaths, NoConflict;
    var id0 := IdOf(w.table.rows, e.host, e.name);
    var row := w.table.rows[id0];
    var r := RenderService(e.fields).value;
    UpdatedRowKeeps(row, RequestDraft(e.host, e.fields, r, TargetPath(row.path, r.configName)),
                    w.disks[e.host][row.path]);
  }

  ghost function ArchiveCount(ws: seq<World>, es: seq<Event>, id: int, n: nat): nat
    requires |ws| == |es| + 1 && n <= |es|
  {
    if n == 0 then 0 else ArchiveCount(ws, es, id, n - 1) + if Archives(ws[n - 1], es[n - 1], id) then 1 else 0
  }

  ghost function RestoreCount(ws: seq<World>, es: seq<Event>, id: int, n: nat): nat
    requires |ws| == |es| + 1 && n <= |es|
  {
    if n == 0 then 0 else RestoreCount(ws, es, id, n - 1) + if Restores(ws[n - 1], es[n - 1], id) then 1 else 0
  }

  ghost predicate Alive(ws: seq<World>, id: int, n: nat)
    requires n < |ws|
  {
    forall i :: 0 <= i <= n ==> id in ws[i].table.rows
  }

  /** Archive and restore alternate: at every moment a row that started unarchived has been archived exactly
      as often as restored, once more while it is archived. */
  lemma {:induction false} ArchiveAlternates(ws: seq<World>, es: seq<Event>, id: int, n: nat)
    requires Run(ws, es) && Inv(ws[0]) && n < |ws| && Alive(ws, id, n) && !ws[0].table.rows[id].archived
    ensures ArchiveCount(ws, es, id, n) == RestoreCount(ws, es, id, n) + if ws[n].table.rows[id].archived then 1 else 0
  {
    hide Inv, Step, StampsOk, Archives, Restores;
    if n > 0 {
      ArchiveAlternates(ws, es, id, n - 1);
      RunKeepsInv(ws, es, n - 1);
      StepFlags(ws[n - 1], es[n - 1], ws[n], id);
    }
  }

  // ---------------------------------------------------------------- archived bytes come back

  ghost predicate ArchivedThrough(ws: seq<World>, id: int, a: nat, b: nat)
    requires a <= b < |ws|
  {
    forall i :: a <= i <= b ==> id in ws[i].table.rows && ws[i].table.rows[id].archived
  }

  /** Only a completed archive of an unarchived row writes the history, at that row's id. */
  lemma SnapsWritten(w: World, e: Event, w': World)
    requires Step(w, e, w')
    ensures w'.snaps == w.snaps
            || (e.Archive? && Registered(w.table.rows, e.host, e.name)
                && var id := IdOf(w.table.rows, e.host, e.name);
                   !w.table.rows[id].archived && id in w'.snaps && w'.snaps == w.snaps[id := w'.snaps[id]])
  {
    hide RenderService, TargetPath, UpdateGuard, CreateGuard, UpdatedRow, ArchiveCut, RestoreCut, UpdateCut, UndoCut,
      Updated, Undone, BackedUp, Restored, RefreshStep, CommitStep, DeleteStep, Bak;
    match e
    case Delete(host, name, gone, out) => DeleteSnaps(w, w', host, name, gone, out);
    case ImportCommit(drafts, out) => CommitSnaps(w, w', drafts, out);
    case Refresh => RefreshSnaps(w, w');
    case _ =>
  }

  lemma DeleteSnaps(w: World, w': World, host: string, name: string, gone: set<string>, out: Outcome)
    requires DeleteStep(w, w', host, name, gone, out)
    ensures w'.snaps == w.snaps
  {
  }

  lemma CommitSnaps(w: World, w': World, drafts: seq<Draft>, out: Outcome)
    requires CommitStep(w, w', drafts, out)
    ensures w'.snaps == w.snaps
  {
    hide Commit.Accepted, Commit.Upserts;
  }

  lemma RefreshSnaps(w: World, w': World)
    requires RefreshStep(w, w')
    ensures w'.snaps == w.snaps
  {
  }

  lemma SnapStays(w: World, e: Event, w': World, id: int)
    requires Inv(w) && Step(w, e, w') && id in w.table.rows && w.table.rows[id].archived && id in w'.table.rows
    ensures id in w'.snaps && id in w.snaps && w'.snaps[id] == w.snaps[id]
    ensures w'.table.rows[id].host == w.table.rows[id].host && w'.table.rows[id].path == w.table.rows[id].path
  {
    StepFlags(w, e, w', id);
    SnapsWritten(w, e, w');
    hide ValidTable, Step, Registered;
    assert HeldAt(w.disks, w.snaps, id, w.table.rows[id]);
  }

  lemma {:induction false} SnapThrough(ws: seq<World>, es: seq<Event>, id: int, a: nat, b: nat)
    requires Run(ws, es) && Inv(ws[0]) && a <= b < |ws| && ArchivedThrough(ws, id, a, b)
    ensures id in ws[a].snaps && id in ws[b].snaps && ws[b].snaps[id] == ws[a].snaps[id]
    ensures ws[b].table.rows[id].host == ws[a].table.rows[id].host && ws[b].table.rows[id].path == ws[a].table.rows[id].path
    decreases b - a
  {
    hide Step, StampsOk, ValidTable;
    RunKeepsInv(ws, es, a);
    assert HeldAt(ws[a].disks, ws[a].snaps, id, ws[a].table.rows[id]);
    if a < b {
      SnapThrough(ws, es, id, a, b - 1);
      RunKeepsInv(ws, es, b - 1);
      SnapStays(ws[b - 1], es[b - 1], ws[b], id);
    }
  }

  /** The bytes a config file held when its row was archived are the bytes the next completed restore puts
      back at the same path, whatever ran or failed in between. */
  lemma RestoreReturnsArchivedBytes(ws: seq<World>, es: seq<Event>, id: int, a: nat, b: nat)
    requires Run(ws, es) && Inv(ws[0]) && a < b < |es|
    requires Archives(ws[a], es[a], id) && Restores(ws[b], es[b], id)
    requires ArchivedThrough(ws, id, a + 1, b)
    ensures var row := ws[a].table.rows[id];
            row.host in ws[a].disks && row.path in ws[a].disks[row.host]
            && row.host in ws[b + 1].disks && row.path in ws[b + 1].disks[row.host]
            && ws[b + 1].disks[row.host][row.path] == ws[a].disks[row.host][row.path]
  {
    hide Step, StampsOk, Inv, Archives, Restores;
    RunKeepsInv(ws, es, a);
    RunKeepsInv(ws, es, b);
    SnapThrough(ws, es, id, a + 1, b);
    ArchiveTakes(ws[a], es[a], ws[a + 1], id);
    RestoreGives(ws[b], es[b], ws[b + 1], id);
  }

  lemma ArchiveTakes(w: World, e: Event, w': World, id: int)
    requires Inv(w) && Step(w, e, w') && Archives(w, e, id)
    ensures id in w.table.rows && id in w'.table.rows
    ensures var row := w.table.rows[id];
            w'.table.rows[id].host == row.host && w'.table.rows[id].path == row.path
            && row.host in w.disks && row.path in w.disks[row.host]
            && id in w'.snaps && w'.snaps[id] == w.disks[row.host][row.path]
  {
    hide Canonical, UniqueNames, UniquePaths, AllHeld;
    SetByNameTouchesOne(w.table, id, true, Runtime("STOPPED", None, None));
  }

  lemma RestoreGives(w: World, e: Event, w': World, id: int)
    requires Inv(w) && Step(w, e, w') && Restores(w, e, id)
    ensures id in w.table.rows && id in w.snaps
    ensures var row := w.table.rows[id];
            row.host in w'.disks && row.path in w'.disks[row.host] && w'.disks[row.host][row.path] == w.snaps[id]
  {
    hide ValidTable;
    assert HeldAt(w.disks, w.snaps, id, w.table.rows[id]);
  }

  // ---------------------------------------------------------------- contents survive

  ghost predicate DisksConserved(w: World, w': World) {
    forall host :: host in w.disks ==> host in w'.disks && Conserved(w.disks[host], w'.disks[host])
  }

  lemma OneDisk(w: World, w': World, host: string, fs': FileMap)
    requires host in w.disks && Conserved(w.disks[host], fs') && w'.disks == w.disks[host := fs']
    ensures DisksConserved(w, w')
  {
  }

  lemma CreateConserves(w: World, w': World, host: string, f: Fields, out: Outcome)
    requires CreateStep(w, w', host, f, out)
    ensures DisksConserved(w, w')
  {
    hide RenderService, ScanConflict, NoConflict, Conserved;
    SameConserved();
    if !out.Refused? {
      var r := RenderService(f).value;
      NewFileConserves(w.disks[host], r.configName, r.content);
    }
  }

  lemma UpdateStepConserves(w: World, w': World, host: string, name: string, f: Fields, stamp: string, stamp2: string, out: Outcome)
    requires ValidTable(w.table) && UpdateStep(w, w', host, name, f, stamp, stamp2, out)
    requires RotatesFreely(w, host, name, stamp) && SetsAsideFreely(w, host, name, stamp2)
    ensures DisksConserved(w, w')
  {
    hide Canonical, RenderService, TargetPath, UpdatedRow, UpdateCut, UndoCut, Fresh, AsideFree, Updated, Undone, ScanConflict,
      NoConflict, UniqueNames, UniquePaths, IniFile, IsStamp, Bak, Conserved;
    SameConserved();
    if !out.Refused? {
      var id := IdOf(w.table.rows, host, name);
      var row := w.table.rows[id];
      var r := RenderService(f).value;
      var target := TargetPath(row.path, r.configName);
      var fs := w.disks[host];
      var fs' := w'.disks[host];
      assert Fresh(fs, row.path, stamp) && AsideFree(fs, row.path, stamp2);
      RowPath(w.table, id);
      UpdatePath(f, row.path);
      IsUpdateCut(fs, row.path, target, r.content, stamp);
      if out.Compensated? {
        UndoConserves(fs, fs', row.path, target, r.content, stamp, stamp2);
      } else {
        UpdateConserves(fs, fs', row.path, target, r.content, stamp);
      }
      OneDisk(w, w', host, fs');
    }
  }

  lemma ArchiveStepConserves(w: World, w': World, host: string, name: string, stamp: string, out: Outcome)
    requires ValidTable(w.table) && ArchiveStep(w, w', host, name, stamp, out)
    requires RotatesFreely(w, host, name, stamp)
    ensures DisksConserved(w, w')
  {
    hide Canonical, UniqueNames, UniquePaths, IniFile, Fresh, IsStamp, BackedUp, Conserved, Bak, ArchiveCut;
    SameConserved();
    if !out.Refused? {
      var row := w.table.rows[IdOf(w.table.rows, host, name)];
      var fs := w.disks[host];
      assert Fresh(fs, row.path, stamp);
      RowPath(w.table, IdOf(w.table.rows, host, name));
      if out.Done? { IsArchiveCut(fs, row.path, stamp); }
      ArchiveConserves(fs, w'.disks[host], row.path, stamp);
      OneDisk(w, w', host, w'.disks[host]);
    }
  }

  lemma RestoreStepConserves(w: World, w': World, host: string, name: string, stamp: string, out: Outcome)
    requires ValidTable(w.table) && RestoreStep(w, w', host, name, stamp, out)
    requires SetsAsideFreely(w, host, name, stamp)
    ensures DisksConserved(w, w')
  {
    hide Canonical, UniqueNames, UniquePaths, IniFile, AsideFree, IsStamp, Restored, Conserved, Bak, RestoreCut;
    SameConserved();
    if !out.Refused? {
      var row := w.table.rows[IdOf(w.table.rows, host, name)];
      var fs := w.disks[host];
      assert AsideFree(fs, row.path, stamp);
      RowPath(w.table, IdOf(w.table.rows, host, name));
      IsRestoreCut(fs, row.path, stamp);
      RestoreConserves(fs, w'.disks[host], row.path, stamp);
      OneDisk(w, w', host, w'.disks[host]);
    }
  }

  lemma SameDisks(w: World, w': World)
    requires w'.disks == w.disks
    ensures DisksConserved(w, w')
  {
  }

  /** Wherever a create, update, archive, restore or their compensation stops, every file content of before
      is still held by some file; only a hard delete discards content. */
  lemma StepConserves(w: World, e: Event, w': World)
    requires Inv(w) && Step(w, e, w') && FreshStamps(w, e) && !e.Delete?
    ensures DisksConserved(w, w')
  {
    hide ValidTable, AllHeld, CreateStep, UpdateStep, ArchiveStep, RestoreStep, RotatesFreely, SetsAsideFreely, DisksConserved, Commit.Accepted,
      Commit.Upserts;
    match e
    case Create(host, f, out) => CreateConserves(w, w', host, f, out);
    case Update(host, name, f, stamp, stamp2, out) => UpdateStepConserves(w, w', host, name, f, stamp, stamp2, out);
    case Archive(host, name, stamp, out) => ArchiveStepConserves(w, w', host, name, stamp, out);
    case Restore(host, name, stamp, out) => RestoreStepConserves(w, w', host, name, stamp, out);
    case Delete(host, name, gone, out) =>
    case ImportCommit(drafts, out) => SameDisks(w, w');
    case Refresh => SameDisks(w, w');
  }

  lemma SameConserved()
    ensures forall fs: FileMap :: Conserved(fs, fs)
  {
  }

  lemma NewFileConserves(fs: FileMap, path: string, content: string)
    requires path !in fs
    ensures Conserved(fs, fs[path := content])
  {
    var fs' := fs[path := content];
    forall f | f in fs ensures exists g :: g in fs' && fs'[g] == fs[f] { assert fs'[f] == fs[f]; }
    ConservedByFiles(fs, fs');
  }

  lemma ArchiveConserves(fs: FileMap, fs': FileMap, path: string, stamp: string)
    requires IniFile(path) && Fresh(fs, path, stamp) && ArchiveCut(fs, fs', path, stamp)
    ensures Conserved(fs, fs')
  {
    hide IniFile, FileOf, Bak, Fresh, Conserved;
    SameConserved();
    RotateConserves(fs, path, stamp);
    if path in fs { BackupConserves(fs, path, stamp); }
  }

  /** Over a run without hard deletes no file content is ever lost. */
  lemma {:induction false} RunConserves(ws: seq<World>, es: seq<Event>, n: nat)
    requires Run(ws, es) && Inv(ws[0]) && n < |ws|
    requires forall i :: 0 <= i < n ==> !es[i].Delete? && FreshStamps(ws[i], es[i])
    ensures DisksConserved(ws[0], ws[n])
  {
    hide Step, StampsOk, FreshStamps, Inv;
    if n > 0 {
      RunConserves(ws, es, n - 1);
      RunKeepsInv(ws, es, n - 1);
      StepConserves(ws[n - 1], es[n - 1], ws[n]);
    }
  }

  // ---------------------------------------------------------------- compensation

  /** A failed database write whose compensation completes: the registry is untouched, after a create the
      whole state is as before, after an update the live `.ini` files are those from before the request. */
  lemma CompensationIsExact(w: World, e: Event, w': World)
    requires Inv(w) && Step(w, e, w') && StampsOk(e)
    requires (e.Create? || e.Update?) && e.out == Compensated(true)
    ensures w'.table == w.table && w'.snaps == w.snaps
    ensures e.Create? ==> w' == w
    ensures e.Update? ==> e.host in w.disks && w'.disks == w.disks[e.host := w'.disks[e.host]]
                          && LiveFiles(w'.disks[e.host]) == LiveFiles(w.disks[e.host])
  {
    hide Canonical, RenderService, TargetPath, UpdateCut, UndoCut, Fresh, Updated, Undone, ScanConflict, NoConflict,
      UniqueNames, UniquePaths, AllHeld, IniFile, IsStamp, Bak, LiveFiles;
    if e.Update? {
      var id := IdOf(w.table.rows, e.host, e.name);
      var row := w.table.rows[id];
      var r := RenderService(e.fields).value;
      var target := TargetPath(row.path, r.configName);
      var fs := w.disks[e.host];
      RowPath(w.table, id);
      UpdatePath(e.fields, row.path);
      UndoIsExact(fs, row.path, target, r.content, e.stamp, e.stamp2);
    }
  }
}
