/** The safety theorems: one step, then every run. */
module Runs {
  import opened Text
  import opened PathNames
  import opened Template
  import opened Files
  import opened PortCheck
  import opened Registry
  import opened Lifecycle
  import opened Safety
  import Commit

  // ---------------------------------------------------------------- paths of requests

  lemma RowPath(t: Table, id: int)
    requires ValidTable(t) && id in t.rows
    ensures Canonical(t.rows[id].path) && IniFile(t.rows[id].path)
  {
    hide NormalizeConfigPath;
    CanonicalName(t.rows[id].path);
  }

  lemma RenderedNames(f: Fields)
    requires RenderService(f).Ok?
    ensures var r := RenderService(f).value;
            EnsureSafeName(f.name) == Ok(r.name) && r.name != "" && AllSafe(r.name)
            && NormalizeConfigName(f.fileName, r.name) == Ok(r.configName)
            && ValidPort(f.port)
  {
    hide Strip, NormalizeConfigName, JarName, Content, ValidIni, AllSafe;
  }

  lemma CreatePath(f: Fields)
    requires RenderService(f).Ok?
    ensures var c := RenderService(f).value.configName; Canonical(c) && Basename(c) == c && IniFile(c)
  {
    hide NormalizeConfigName, NormalizeConfigPath, RenderService, EnsureSafeName;
    RenderedNames(f);
    var r := RenderService(f).value;
    ConfigNameIsCanonical(f.fileName, r.name, r.configName);
    CanonicalName(r.configName);
  }

  lemma UpdatePath(f: Fields, path: string)
    requires RenderService(f).Ok? && Canonical(path)
    ensures var r := RenderService(f).value; var target := TargetPath(path, r.configName);
            Canonical(target) && Basename(target) == r.configName && IniFile(target)
  {
    hide NormalizeConfigName, NormalizeConfigPath, RenderService, TargetPath, EnsureSafeName;
    RenderedNames(f);
    var r := RenderService(f).value;
    TargetPathIsCanonical(path, f.fileName, r.name, r.configName);
    CanonicalName(TargetPath(path, r.configName));
  }

  // ---------------------------------------------------------------- other rows

  lemma OthersHeld(w: World, id0: int, host: string, fs': FileMap, path: string, target: string, stamps: set<string>)
    requires Inv(w) && host in w.disks && IniFile(path) && IniFile(target) && forall t :: t in stamps ==> IsStamp(t)
    requires SameElsewhere(w.disks[host], fs', path, target, stamps)
    requires forall id :: id in w.table.rows && id != id0 ==>
               w.table.rows[id].host != host || w.table.rows[id].path != path
    ensures forall id :: id in w.table.rows && id != id0 ==>
              HeldAt(w.disks[host := fs'], w.snaps, id, w.table.rows[id])
  {
    hide SameElsewhere, IniFile, ValidTable, HeldAt;
    forall id | id in w.table.rows && id != id0
      ensures HeldAt(w.disks[host := fs'], w.snaps, id, w.table.rows[id])
    {
      RowPath(w.table, id);
      HeldElsewhere(w.disks, w.snaps, id, w.table.rows[id], host, fs', path, target, stamps);
    }
  }

  lemma OnlyPath(t: Table, id0: int)
    requires ValidTable(t) && id0 in t.rows
    ensures forall id :: id in t.rows && id != id0 ==>
              t.rows[id].host != t.rows[id0].host || t.rows[id].path != t.rows[id0].path
  {
  }

  lemma FreePath(rows: Rows, host: string, path: string, except: int)
    requires !PathTaken(rows, host, path, except)
    ensures forall id :: id in rows && id != except ==> rows[id].host != host || rows[id].path != path
  {
  }

  // ---------------------------------------------------------------- the invariant, request by request

  lemma CreateKeepsInv(w: World, w': World, host: string, f: Fields, out: Outcome)
    requires Inv(w) && CreateStep(w, w', host, f, out)
    ensures Inv(w')
  {
    hide Canonical, RenderService, HeldAt, UniqueNames, UniquePaths, ScanConflict;
    if !out.Refused? {
      var r := RenderService(f).value;
      var c := r.configName;
      CreatePath(f);
      var d := RequestDraft(host, f, r, c);
      var fs' := w.disks[host][c := r.content];
      FreePath(w.table.rows, host, c, 0);
      OthersHeld(w, 0, host, fs', c, c, {});
      if out.Done? {
        InsertKeeps(w.table, NewRow(d));
        assert HeldAt(w'.disks, w'.snaps, w.table.next, NewRow(d)) by { NotArchivedIsHeld(w', w.table.next, NewRow(d)); }
      }
    }
  }

  lemma NotArchivedIsHeld(w: World, id: int, row: Row)
    requires !row.archived
    ensures HeldAt(w.disks, w.snaps, id, row)
  {
  }

  /** A request that only changes files, of one row that is not archived. */
  lemma FilesKeepInv(w: World, w': World, id: int, fs': FileMap, target: string, stamps: set<string>)
    requires Inv(w) && id in w.table.rows && !w.table.rows[id].archived
    requires IniFile(target) && forall t :: t in stamps ==> IsStamp(t)
    requires var row := w.table.rows[id];
             row.host in w.disks && SameElsewhere(w.disks[row.host], fs', row.path, target, stamps)
             && w' == w.(disks := w.disks[row.host := fs'])
    ensures Inv(w')
  {
    hide Canonical, HeldAt, UniqueNames, UniquePaths, SameElsewhere, IniFile;
    var row := w.table.rows[id];
    RowPath(w.table, id);
    OnlyPath(w.table, id);
    OthersHeld(w, id, row.host, fs', row.path, target, stamps);
    NotArchivedIsHeld(w', id, row);
  }

  lemma UpdateKeepsInv(w: World, w': World, host: string, name: string, f: Fields, stamp: string, stamp2: string, out: Outcome)
    requires Inv(w) && UpdateStep(w, w', host, name, f, stamp, stamp2, out) && IsStamp(stamp) && IsStamp(stamp2)
    ensures Inv(w')
  {
    hide Canonical, RenderService, HeldAt, UniqueNames, UniquePaths, ScanConflict, TargetPath, UpdateCut, UndoCut,
      Updated, Undone, IniFile, SameElsewhere, UpdatedRow, IsStamp, NameTaken, PathTaken, PortTaken, Bak;
    if !out.Refused? {
      var id := IdOf(w.table.rows, host, name);
      var row := w.table.rows[id];
      var r := RenderService(f).value;
      var target := TargetPath(row.path, r.configName);
      var fs := w.disks[host];
      var done := Updated(fs, row.path, target, r.content, stamp);
      RowPath(w.table, id);
      UpdatePath(f, row.path);
      IsUpdateCut(fs, row.path, target, r.content, stamp);
      UpdateFrame(fs, done, row.path, target, r.content, stamp);
      match out
      case Aborted =>
        var fs' :| UpdateCut(fs, fs', row.path, target, r.content, stamp) && w'.disks == w.disks[host := fs'];
        UpdateFrame(fs, fs', row.path, target, r.content, stamp);
        FilesKeepInv(w, w', id, fs', target, {stamp});
      case Compensated(complete) =>
        var fs' :| UndoCut(done, fs', row.path, target, stamp2) && w'.disks == w.disks[host := fs'];
        UndoFrame(done, fs', row.path, target, stamp2);
        FrameTransitive(fs, done, fs', row.path, target, {stamp}, {stamp2});
        FilesKeepInv(w, w', id, fs', target, {stamp} + {stamp2});
      case Done =>
        UpdateDoneKeepsInv(w, w', host, id, f, r, target, done, stamp);
    }
  }

  lemma UpdateDoneKeepsInv(
    w: World, w': World, host: string, id: int, f: Fields, r: Rendered, target: string, done: FileMap, stamp: string)
    requires Inv(w) && UpdateGuard(w, host, id, f, target) && RenderService(f) == Ok(r) && IsStamp(stamp)
    requires var row := w.table.rows[id];
             IniFile(row.path) && IniFile(target) && Canonical(target)
             && SameElsewhere(w.disks[host], done, row.path, target, {stamp})
             && w'.snaps == w.snaps && w'.disks == w.disks[host := done]
             && exists rt ::
                  w'.table == Replace(w.table, id, UpdatedRow(row, RequestDraft(host, f, r, target), rt, w.disks[host][row.path]))
    ensures Inv(w')
  {
    hide Canonical, RenderService, HeldAt, UniqueNames, UniquePaths, ScanConflict, TargetPath, IniFile, SameElsewhere,
      UpdatedRow, IsStamp, NameTaken, PathTaken, PortTaken, Bak;
    var row := w.table.rows[id];
    var row' := w'.table.rows[id];
    UpdatedRowKeeps(row, RequestDraft(host, f, r, target), w.disks[host][row.path]);
    ReplaceKeeps(w.table, id, row');
    OnlyPath(w.table, id);
    OthersHeld(w, id, host, done, row.path, target, {stamp});
    NotArchivedIsHeld(w', id, row');
  }

  lemma UpdatedRowKeeps(row: Row, d: Draft, current: string)
    ensures forall rt :: var r := UpdatedRow(row, d, rt, current);
              r.host == row.host && r.path == d.path && r.name == d.name && r.port == d.port && r.archived == row.archived && r.mode == d.mode
  {
  }

  lemma IsUpdateCut(fs: FileMap, path: string, target: string, content: string, stamp: string)
    requires path in fs
    ensures UpdateCut(fs, Updated(fs, path, target, content, stamp), path, target, content, stamp)
  {
  }

  lemma ArchiveKeepsInv(w: World, w': World, host: string, name: string, stamp: string, out: Outcome)
    requires Inv(w) && ArchiveStep(w, w', host, name, stamp, out) && IsStamp(stamp)
    ensures Inv(w')
  {
    hide Canonical, UniqueNames, UniquePaths, IniFile, SameElsewhere, IsStamp, HeldAt, FileOf, Rotated;
    if !out.Refused? {
      var id := IdOf(w.table.rows, host, name);
      var row := w.table.rows[id];
      var fs := w.disks[host];
      RowPath(w.table, id);
      if out.Done? {
        var fs' := BackedUp(fs, row.path, stamp) - {row.path};
        UpdateFrame(fs, fs', row.path, row.path, "", stamp);
        SetByNameTouchesOne(w.table, id, true, Runtime("STOPPED", None, None));
        OnlyPath(w.table, id);
        OthersHeld(w, id, host, fs', row.path, row.path, {stamp});
        forall i | i in w'.table.rows ensures HeldAt(w'.disks, w'.snaps, i, w'.table.rows[i]) {
          if i == id { FourNames(row.path, stamp); ArchivedIsHeld(w', id, row.path, fs[row.path]); }
          else { SnapElsewhere(w'.disks, w.snaps, id, fs[row.path], i, w.table.rows[i]); }
        }
      } else {
        var fs' :| ArchiveCut(fs, fs', row.path, stamp) && w'.disks == w.disks[host := fs'];
        UpdateFrame(fs, fs', row.path, row.path, "", stamp);
        FilesKeepInv(w, w', id, fs', row.path, {stamp});
      }
    }
  }

  lemma ArchivedIsHeld(w: World, id: int, path: string, bytes: string)
    requires id in w.table.rows && w.table.rows[id].path == path && w.table.rows[id].host in w.disks
    requires id in w.snaps && w.snaps[id] == bytes
    requires var fs := w.disks[w.table.rows[id].host]; Bak(path) in fs && fs[Bak(path)] == bytes
    ensures HeldAt(w.disks, w.snaps, id, w.table.rows[id])
  {
  }

  lemma SnapElsewhere(disks: map<string, FileMap>, snaps: map<int, string>, id: int, bytes: string, i: int, row: Row)
    requires HeldAt(disks, snaps, i, row) && i != id
    ensures HeldAt(disks, snaps[id := bytes], i, row)
  {
  }

  lemma RestoreKeepsInv(w: World, w': World, host: string, name: string, stamp: string, out: Outcome)
    requires Inv(w) && RestoreStep(w, w', host, name, stamp, out) && IsStamp(stamp)
    ensures Inv(w')
  {
    hide Canonical, UniqueNames, UniquePaths, IniFile, SameElsewhere, IsStamp, HeldAt, RestoreCut, Restored;
    if !out.Refused? {
      var id := IdOf(w.table.rows, host, name);
      var row := w.table.rows[id];
      var fs := w.disks[host];
      RowPath(w.table, id);
      OnlyPath(w.table, id);
      IsRestoreCut(fs, row.path, stamp);
      if out.Done? {
        var fs' := Restored(fs, row.path, stamp);
        var rt :| w'.table == SetByName(w.table, host, name, false, rt);
        RestoreFrame(fs, fs', row.path, stamp);
        SetByNameTouchesOne(w.table, id, false, rt);
        OthersHeld(w, id, host, fs', row.path, row.path, {stamp});
        NotArchivedIsHeld(w', id, w'.table.rows[id]);
      } else {
        var fs' :| RestoreCut(fs, fs', row.path, stamp) && w'.disks == w.disks[host := fs'];
        RestoreFrame(fs, fs', row.path, stamp);
        OthersHeld(w, id, host, fs', row.path, row.path, {stamp});
        RestoreKeepsBak(fs, fs', row.path, stamp);
        StillHeld(w, w', id, fs');
      }
    }
  }

  lemma IsRestoreCut(fs: FileMap, path: string, stamp: string)
    ensures Bak(path) in fs ==> RestoreCut(fs, Restored(fs, path, stamp), path, stamp)
  {
  }

  lemma RestoreKeepsBak(fs: FileMap, fs': FileMap, path: string, stamp: string)
    requires RestoreCut(fs, fs', path, stamp) && IniFile(path) && IsStamp(stamp)
    ensures Bak(path) in fs ==> Bak(path) in fs' && fs'[Bak(path)] == fs[Bak(path)]
  {
    hide IniFile, FileOf;
    FourNames(path, stamp);
  }

  lemma StillHeld(w: World, w': World, id: int, fs': FileMap)
    requires id in w.table.rows && w.table == w'.table && w.snaps == w'.snaps
    requires var row := w.table.rows[id];
             HeldAt(w.disks, w.snaps, id, row) && row.host in w.disks && w'.disks == w.disks[row.host := fs']
             && (Bak(row.path) in w.disks[row.host] ==>
                   Bak(row.path) in fs' && fs'[Bak(row.path)] == w.disks[row.host][Bak(row.path)])
    ensures HeldAt(w'.disks, w'.snaps, id, w.table.rows[id])
  {
  }

  lemma DeleteKeepsInv(w: World, w': World, host: string, name: string, gone: set<string>, out: Outcome)
    requires Inv(w) && DeleteStep(w, w', host, name, gone, out)
    ensures Inv(w')
  {
    hide Canonical, UniqueNames, UniquePaths, IniFile, HeldAt;
    if !out.Refused? {
      var id := IdOf(w.table.rows, host, name);
      var row := w.table.rows[id];
      RowPath(w.table, id);
      OnlyPath(w.table, id);
      RemoveKeeps(w.table, id);
      OthersHeld(w, id, host, w.disks[host] - gone, row.path, row.path, {});
    }
  }

  lemma CommitKeepsInv(w: World, w': World, drafts: seq<Draft>, out: Outcome)
    requires Inv(w) && CommitStep(w, w', drafts, out)
    ensures Inv(w')
  {
    hide Canonical, KeyedTable, Commit.Upserts, Commit.Accepted, Commit.CanonicalDrafts;
    if !out.Refused? {
      Commit.UpsertsKeep(w.table, drafts);
      Commit.CommitKeepsRows(w.table, drafts);
      forall id | id in w'.table.rows ensures HeldAt(w'.disks, w'.snaps, id, w'.table.rows[id]) {
        if id in w.table.rows { assert HeldAt(w.disks, w.snaps, id, w.table.rows[id]); }
      }
    }
  }

  lemma RefreshKeepsInv(w: World, w': World)
    requires Inv(w) && RefreshStep(w, w')
    ensures Inv(w')
  {
    hide Canonical;
    forall id | id in w'.table.rows ensures HeldAt(w'.disks, w'.snaps, id, w'.table.rows[id]) {
      assert HeldAt(w.disks, w.snaps, id, w.table.rows[id]);
    }
  }

  /** Whatever request runs and wherever it stops: ids, paths and names stay unique, registered paths stay
      normal, and every archived row's `.bak` still holds the bytes of its last archive. */
  lemma StepKeepsInv(w: World, e: Event, w': World)
    requires Inv(w) && Step(w, e, w') && StampsOk(e)
    ensures Inv(w')
  {
    hide Inv, CreateStep, UpdateStep, ArchiveStep, RestoreStep, DeleteStep, CommitStep, RefreshStep;
    match e
    case Create(host, f, out) => CreateKeepsInv(w, w', host, f, out);
    case Update(host, name, f, stamp, stamp2, out) => UpdateKeepsInv(w, w', host, name, f, stamp, stamp2, out);
    case Archive(host, name, stamp, out) => ArchiveKeepsInv(w, w', host, name, stamp, out);
    case Restore(host, name, stamp, out) => RestoreKeepsInv(w, w', host, name, stamp, out);
    case Delete(host, name, gone, out) => DeleteKeepsInv(w, w', host, name, gone, out);
    case ImportCommit(drafts, out) => CommitKeepsInv(w, w', drafts, out);
    case Refresh => RefreshKeepsInv(w, w');
  }
}
