/** What a completed request leaves behind, column by column and file by file. */
module Outcomes {
  import opened Text
  import opened PathNames
  import opened Template
  import opened Files
  import opened PortCheck
  import opened Registry
  import opened Lifecycle
  import Runs
  import RoundTrip
  import ParseBack

  /** The two paths differ in their last segment at most. */
  predicate SameDirectory(p: string, q: string) {
    var a, b := Split(p, '/'), Split(q, '/');
    |a| == |b| && forall i :: 0 <= i < |a| - 1 ==> a[i] == b[i]
  }

  /** The target of an update lies in the directory of the registered path and ends in the rendered name; the name kept,
      it is the registered path. */
  lemma TargetKeepsDirectory(base: string, configName: string, programName: string, name: string)
    requires Canonical(base) && AllSafe(programName) && NormalizeConfigName(configName, programName) == Ok(name)
    ensures var target := TargetPath(base, name);
            SameDirectory(base, target) && Basename(target) == name && (name == Basename(base) <==> target == base)
  {
    hide NormalizeConfigName, NormalizeConfigPath, Split, Join, CheckFileName, EnsureSafeName;
    ConfigNameIsCanonical(configName, programName, name);
    AcceptedParts(base, false, base);
    TargetPathIsCanonical(base, configName, programName, name);
    var parts := Split(base, '/');
    var n := |parts| - 1;
    var target := parts[..n] + [name];
    JoinLast(parts[..n], name);
    JoinLast(parts[..n], parts[n]);
    assert parts[..n] + [parts[n]] == parts;
    assert Join(target, '/') == TargetPath(base, name);
    forall i | 0 <= i < |target| ensures NoChar(target[i], '/') { if i < n { assert target[i] == parts[i]; } }
    SplitJoin(target, '/');
  }

  ghost predicate SameOthers(rows: Rows, rows': Rows, id: int) {
    forall i :: i != id ==> (i in rows <==> i in rows') && (i in rows ==> rows'[i] == rows[i])
  }

  /** Files other than the named ones are as before. */
  ghost predicate SameFilesBut(fs: FileMap, fs': FileMap, touched: set<string>) {
    forall g :: g !in touched ==> (g in fs <==> g in fs') && (g in fs ==> fs'[g] == fs[g])
  }

  ghost predicate SameHostsBut(w: World, w': World, host: string) {
    w'.disks.Keys == w.disks.Keys && forall h :: h in w.disks && h != host ==> w'.disks[h] == w.disks[h]
  }

  /** The row has the columns of a create or update request. */
  predicate HoldsRequest(row: Row, host: string, f: Fields, path: string, fileName: string, content: string) {
    && row.host == host && row.path == path && row.fileName == fileName && row.name == Strip(f.name)
    && row.mode == TemplateManaged && row.baseline == content && row.complete && row.warnings == []
    && row.port == Some(f.port) && row.meta.job == Some(f.job) && row.meta.moduleName == Some(f.moduleName)
    && row.meta.javaPath == Some(f.javaPath) && row.meta.active == Some(f.active) && row.meta.xms == Some(f.xms)
    && row.meta.xmx == Some(f.xmx) && row.meta.user == Some(f.user)
    && row.meta.jar == Some(if f.jar == "" then Strip(f.moduleName) + ".jar" else f.jar)
  }

  // ---------------------------------------------------------------- create

  ghost predicate CreateShows(w: World, w': World, host: string, f: Fields, r: Rendered) {
    var id := w.table.next;
    && host in w.disks && host in w'.disks && id !in w.table.rows && id in w'.table.rows && w'.table.next == id + 1
    && HoldsRequest(w'.table.rows[id], host, f, r.configName, r.configName, r.content)
    && !w'.table.rows[id].archived && w'.table.rows[id].runtime == Runtime("UNKNOWN", None, None)
    && SameOthers(w.table.rows, w'.table.rows, id)
    && r.configName !in w.disks[host] && w'.disks[host] == w.disks[host][r.configName := r.content]
    && SameHostsBut(w, w', host) && w'.snaps == w.snaps
  }

  lemma CreateShown(w: World, w': World, host: string, f: Fields)
    requires KeyedTable(w.table) && CreateStep(w, w', host, f, Done)
    ensures RenderService(f).Ok? && CreateShows(w, w', host, f, RenderService(f).value)
  {
    hide RenderService, NoConflict, ScanConflict, UniqueNames, UniquePaths, Strip;
    RequestColumns(host, f);
  }

  lemma RequestColumns(host: string, f: Fields)
    requires RenderService(f).Ok?
    ensures RenderService(f).value.name == Strip(f.name)
  {
    hide Strip, NormalizeConfigName, NormalizeConfigPath, RenderService, EnsureSafeName;
    Runs.RenderedNames(f);
    NameIsStripped(f.name);
  }

  lemma NameIsStripped(name: string)
    ensures EnsureSafeName(name).Ok? ==> EnsureSafeName(name).value == Strip(name)
  {
    hide Strip;
  }

  // ---------------------------------------------------------------- update

  ghost predicate UpdateShows(w: World, w': World, host: string, id: int, f: Fields, r: Rendered, stamp: string) {
    && id in w.table.rows && id in w'.table.rows && host in w.disks && host in w'.disks
    && var row, row', fs, fs' := w.table.rows[id], w'.table.rows[id], w.disks[host], w'.disks[host];
       HoldsRequest(row', host, f, row'.path, r.configName, r.content)
       && SameDirectory(row.path, row'.path) && Basename(row'.path) == r.configName
       && (r.configName == Basename(row.path) <==> row'.path == row.path)
       && !row.archived && !row'.archived && row'.detail.hasBackup && row'.detail.content == Some(r.content)
       && row.path in fs && row'.detail.backup == Some(fs[row.path])
       && row'.detail.syncStatus == "SUCCESS" && row'.detail.syncError == None
       && SameOthers(w.table.rows, w'.table.rows, id) && w'.table.next == w.table.next && w'.snaps == w.snaps
       && row'.path in fs' && fs'[row'.path] == r.content
       && row.path + ".bak" in fs' && fs'[row.path + ".bak"] == fs[row.path]
       && (row.path + ".bak" in fs ==>
             row.path + ".bak." + stamp in fs' && fs'[row.path + ".bak." + stamp] == fs[row.path + ".bak"])
       && (row'.path != row.path ==> row.path !in fs' && row'.path !in fs)
       && SameFilesBut(fs, fs', {row.path, row'.path, row.path + ".bak"}
                                + if row.path + ".bak" in fs then {row.path + ".bak." + stamp} else {})
       && LiveFiles(fs') == (LiveFiles(fs) - {row.path})[row'.path := r.content]
       && (r.configName == Basename(row.path) ==> LiveFiles(fs').Keys == LiveFiles(fs).Keys)
       && SameHostsBut(w, w', host)
  }

  lemma UpdateShown(w: World, w': World, host: string, name: string, f: Fields, stamp: string, stamp2: string, id: int)
    requires ValidTable(w.table) && UpdateStep(w, w', host, name, f, stamp, stamp2, Done) && IsStamp(stamp)
    requires id in w.table.rows && w.table.rows[id].host == host && w.table.rows[id].name == name
    ensures RenderService(f).Ok? && UpdateShows(w, w', host, id, f, RenderService(f).value, stamp)
  {
    hide RenderService, NoConflict, ScanConflict, KeyedTable, Strip, Split, NormalizeConfigPath, TargetPath, Updated, IniFile, LiveFiles,
      NormalizeConfigName, EnsureSafeName, AllSafe, Basename, UpdatedRow, SameDirectory;
    SameRow(w.table, host, name, id);
    var row, r := w.table.rows[id], RenderService(f).value;
    var target := TargetPath(row.path, r.configName);
    RequestColumns(host, f);
    Runs.RenderedNames(f);
    TargetKeepsDirectory(row.path, f.fileName, r.name, r.configName);
    Runs.RowPath(w.table, id);
    Runs.UpdatePath(f, row.path);
    UpdatedFilesShow(w.disks[host], row.path, target, r.content, stamp);
    UpdatedLiveFiles(w.disks[host], row.path, target, r.content, stamp);
    var rt :| w'.table == Replace(w.table, id, UpdatedRow(row, RequestDraft(host, f, r, target), rt, w.disks[host][row.path]));
    UpdatedColumns(row, host, f, r, target, rt, w.disks[host][row.path]);
  }

  lemma SameRow(t: Table, host: string, name: string, id: int)
    requires KeyedTable(t) && id in t.rows && t.rows[id].host == host && t.rows[id].name == name
    ensures Registered(t.rows, host, name) && IdOf(t.rows, host, name) == id
  {
    assert id != 0;
    var other := IdOf(t.rows, host, name);
  }

  lemma UpdatedColumns(row: Row, host: string, f: Fields, r: Rendered, target: string, rt: Runtime, current: string)
    requires row.host == host && r.name == Strip(f.name)
    ensures var row' := UpdatedRow(row, RequestDraft(host, f, r, target), rt, current);
            HoldsRequest(row', host, f, target, r.configName, r.content) && row'.archived == row.archived
            && row'.detail.hasBackup && row'.detail.content == Some(r.content) && row'.detail.backup == Some(current)
            && row'.detail.syncStatus == "SUCCESS" && row'.detail.syncError == None
  {
    hide Strip, Parse;
  }

  /** For readable fields the row also has the command line, the directory and the log file of the request. */
  lemma UpdatedOptions(row: Row, host: string, f: Fields, r: Rendered, jar: string, target: string, rt: Runtime, current: string)
    requires RoundTrip.Readable(f) && ValidPort(f.port) && RenderService(f) == Ok(r) && JarName(f) == Ok(jar) && EndsWith(jar, ".jar")
    ensures var detail := UpdatedRow(row, RequestDraft(host, f, r, target), rt, current).detail;
            detail.command == Some(ParseBack.CommandValue(f, jar)) && detail.directory == Some(ParseBack.DirectoryValue(f))
            && detail.stdoutLog == Some(ParseBack.LogFile(f))
  {
    hide RoundTrip.Readable, JarName, EndsWith, Content, Parse, ValidIni, NormalizeConfigName, EnsureSafeName, AllSafe,
      ParseBack.CommandValue, ParseBack.DirectoryValue, ParseBack.LogFile;
    Runs.RenderedNames(f);
    ParseBack.ParseOfRender(f, r.name, jar, r.configName);
  }

  lemma UpdatedFilesShow(fs: FileMap, path: string, target: string, content: string, stamp: string)
    requires IniFile(path) && IniFile(target) && IsStamp(stamp) && path in fs
    ensures var fs' := Updated(fs, path, target, content, stamp);
            target in fs' && fs'[target] == content && path + ".bak" in fs' && fs'[path + ".bak"] == fs[path]
            && (path + ".bak" in fs ==>
                  path + ".bak." + stamp in fs' && fs'[path + ".bak." + stamp] == fs[path + ".bak"])
            && (target != path ==> path !in fs')
            && SameFilesBut(fs, fs', {path, target, path + ".bak"} + if path + ".bak" in fs then {path + ".bak." + stamp} else {})
  {
    hide IniFile, FileOf, Bak;
    assert Bak(path) == path + ".bak" && FileOf(path, RotatedBackup(stamp)) == path + ".bak." + stamp by { Spelled(path, stamp); }
    FourNames(path, stamp);
    TargetIsApart(path, target, stamp);
  }

  lemma Spelled(path: string, stamp: string)
    ensures Bak(path) == path + ".bak" && FileOf(path, RotatedBackup(stamp)) == path + ".bak." + stamp
    ensures FileOf(path, SetAside(stamp)) == path + "." + stamp
  {
  }

  /** The live `.ini` files after an update: the written one replaces the old one, all others stay. */
  lemma UpdatedLiveFiles(fs: FileMap, path: string, target: string, content: string, stamp: string)
    requires IniFile(path) && IniFile(target) && IsStamp(stamp) && path in fs
    ensures LiveFiles(Updated(fs, path, target, content, stamp)) == (LiveFiles(fs) - {path})[target := content]
    ensures target == path ==> ((LiveFiles(fs) - {path})[target := content]).Keys == LiveFiles(fs).Keys
  {
    hide IniFile, FileOf, Bak;
    FourNames(path, stamp);
    TargetIsApart(path, target, stamp);
    StampedIsNotLive(path, Backup);
    StampedIsNotLive(path, RotatedBackup(stamp));
    LiveAndBackup(path);
  }

  // ---------------------------------------------------------------- archive and restore

  ghost predicate ArchiveShows(w: World, w': World, host: string, id: int, stamp: string) {
    && id in w.table.rows && id in w'.table.rows && host in w.disks && host in w'.disks
    && var row, fs, fs' := w.table.rows[id], w.disks[host], w'.disks[host];
       var bak := row.path + ".bak";
       !row.archived && w'.table.rows[id] == row.(archived := true, runtime := Runtime("STOPPED", None, None))
       && SameOthers(w.table.rows, w'.table.rows, id) && w'.table.next == w.table.next
       && row.path in fs && row.path !in fs' && bak in fs' && fs'[bak] == fs[row.path]
       && (bak in fs ==> bak + "." + stamp in fs' && fs'[bak + "." + stamp] == fs[bak])
       && SameFilesBut(fs, fs', {row.path, bak} + if bak in fs then {bak + "." + stamp} else {})
       && SameHostsBut(w, w', host)
  }

  lemma ArchiveShown(w: World, w': World, host: string, name: string, stamp: string, id: int)
    requires ValidTable(w.table) && ArchiveStep(w, w', host, name, stamp, Done) && IsStamp(stamp)
    requires id in w.table.rows && w.table.rows[id].host == host && w.table.rows[id].name == name
    ensures ArchiveShows(w, w', host, id, stamp)
  {
    hide KeyedTable, NormalizeConfigPath, IniFile, BackedUp, SetByName;
    SameRow(w.table, host, name, id);
    Runs.RowPath(w.table, id);
    SetByNameTouchesOne(w.table, id, true, Runtime("STOPPED", None, None));
    BackedUpShows(w.disks[host], w.table.rows[id].path, stamp);
  }

  lemma BackedUpShows(fs: FileMap, path: string, stamp: string)
    requires IniFile(path) && IsStamp(stamp) && path in fs
    ensures var fs', bak := BackedUp(fs, path, stamp) - {path}, path + ".bak";
            path !in fs' && bak in fs' && fs'[bak] == fs[path]
            && (bak in fs ==> bak + "." + stamp in fs' && fs'[bak + "." + stamp] == fs[bak])
            && SameFilesBut(fs, fs', {path, bak} + if bak in fs then {bak + "." + stamp} else {})
  {
    hide IniFile, FileOf, Bak;
    Spelled(path, stamp);
    assert path + ".bak" + "." + stamp == path + ".bak." + stamp;
    FourNames(path, stamp);
  }

  ghost predicate RestoreShows(w: World, w': World, host: string, id: int, stamp: string) {
    && id in w.table.rows && id in w'.table.rows && host in w.disks && host in w'.disks
    && var row, row', fs, fs' := w.table.rows[id], w'.table.rows[id], w.disks[host], w'.disks[host];
       var bak := row.path + ".bak";
       row.archived && row' == row.(archived := false, runtime := row'.runtime)
       && SameOthers(w.table.rows, w'.table.rows, id) && w'.table.next == w.table.next && w'.snaps == w.snaps
       && bak in fs && bak in fs' && fs'[bak] == fs[bak] && row.path in fs' && fs'[row.path] == fs[bak]
       && (row.path in fs ==> row.path + "." + stamp in fs' && fs'[row.path + "." + stamp] == fs[row.path])
       && SameFilesBut(fs, fs', {row.path} + if row.path in fs then {row.path + "." + stamp} else {})
       && SameHostsBut(w, w', host)
  }

  lemma RestoreShown(w: World, w': World, host: string, name: string, stamp: string, id: int)
    requires ValidTable(w.table) && RestoreStep(w, w', host, name, stamp, Done) && IsStamp(stamp)
    requires id in w.table.rows && w.table.rows[id].host == host && w.table.rows[id].name == name
    ensures RestoreShows(w, w', host, id, stamp)
  {
    hide KeyedTable, NormalizeConfigPath, IniFile, Restored, SetByName;
    SameRow(w.table, host, name, id);
    Runs.RowPath(w.table, id);
    var rt :| w'.table == SetByName(w.table, host, name, false, rt);
    SetByNameTouchesOne(w.table, id, false, rt);
    assert Bak(w.table.rows[id].path) == w.table.rows[id].path + ".bak";
    RestoredShows(w.disks[host], w.table.rows[id].path, stamp);
  }

  lemma RestoredShows(fs: FileMap, path: string, stamp: string)
    requires IniFile(path) && IsStamp(stamp) && Bak(path) in fs
    ensures var fs', bak := Restored(fs, path, stamp), path + ".bak";
            bak in fs && bak in fs' && fs'[bak] == fs[bak] && path in fs' && fs'[path] == fs[bak]
            && (path in fs ==> path + "." + stamp in fs' && fs'[path + "." + stamp] == fs[path])
            && SameFilesBut(fs, fs', {path} + if path in fs then {path + "." + stamp} else {})
  {
    hide IniFile, FileOf, Bak;
    Spelled(path, stamp);
    FourNames(path, stamp);
  }

  // ---------------------------------------------------------------- hard delete

  /** The archived row is gone; of the files only the live one and its backup may be. */
  ghost predicate DeleteShows(w: World, w': World, host: string, id: int) {
    && id in w.table.rows && id !in w'.table.rows && host in w.disks && host in w'.disks && w.table.rows[id].archived
    && SameOthers(w.table.rows, w'.table.rows, id) && w'.table.next == w.table.next && w'.snaps == w.snaps
    && SameFilesBut(w.disks[host], w'.disks[host], {w.table.rows[id].path, w.table.rows[id].path + ".bak"})
    && w'.disks[host].Keys <= w.disks[host].Keys && SameHostsBut(w, w', host)
  }

  lemma DeleteShown(w: World, w': World, host: string, name: string, gone: set<string>, id: int)
    requires ValidTable(w.table) && DeleteStep(w, w', host, name, gone, Done)
    requires id in w.table.rows && w.table.rows[id].host == host && w.table.rows[id].name == name
    ensures DeleteShows(w, w', host, id)
  {
    hide KeyedTable, NormalizeConfigPath, Basename;
    SameRow(w.table, host, name, id);
    assert Bak(w.table.rows[id].path) == w.table.rows[id].path + ".bak";
  }
}
