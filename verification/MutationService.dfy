/** app/services/supervisor_mutation_service.py: create, update and hard delete, step by step, each proved
    to be a step of the lifecycle whatever call fails. */
module MutationService {
  import opened Text
  import opened PathNames
  import opened Template
  import opened Files
  import opened PortCheck
  import opened Registry
  import opened Lifecycle
  import opened Sites
  import opened RegistryService
  import opened Guards
  import Runs
  import ConfigFileService
  import PortCheckService
  import RenderParses
  import Outcomes

  /** The registry never finds fault with the data a create or update request hands it. */
  lemma RequestIsNormal(host: string, f: Fields, r: Rendered, path: string)
    requires EnsureSafeHost(host) == Ok(host) && RenderService(f) == Ok(r)
    requires Canonical(path) && Basename(path) == r.configName
    ensures var d := RequestDraft(host, f, r, path); NormalizeDraft(d) == Ok(d)
  {
    hide NormalizeConfigName, NormalizeConfigPath, RenderService, EnsureSafeName, EnsureSafeHost, Strip, Split;
    Runs.RenderedNames(f);
    SafeNameFixed(f.name);
    ConfigNameIsCanonical(f.fileName, r.name, r.configName);
  }

  lemma IdIs(t: Table, id: int)
    requires ValidTable(t) && id in t.rows
    ensures var row := t.rows[id]; Registered(t.rows, row.host, row.name) && IdOf(t.rows, row.host, row.name) == id
  {
    hide Canonical;
    var row := t.rows[id];
    assert id != 0;
    var other := IdOf(t.rows, row.host, row.name);
  }

  lemma SameFiles(disks: map<string, FileMap>, host: string)
    requires host in disks
    ensures disks[host := disks[host]] == disks
  {
  }

  // ---------------------------------------------------------------- create

  method CheckCreate(site: Site, host: string, f: Fields, listening: set<int>) returns (r: Result<Rendered>)
    requires ValidTable(site.table) && EnsureSafeHost(host) == Ok(host) && host in site.disks
    ensures r.Ok? ==> CreateGuard(site.World(), host, f) && RenderService(f) == Ok(r.value) && f.port !in listening
    ensures r.Err? && site.Verdict(r.error) ==> !CreateGuard(site.World(), host, f) || f.port in listening
  {
    hide RenderService, EnsureSafeHost, ScanConflict, NoConflict, NormalizeDraft, Canonical, ValidTable, RequestDraft;
    var rendered :- RenderService(f);
    Runs.CreatePath(f);
    var d := RequestDraft(host, f, rendered, rendered.configName);
    RequestIsNormal(host, f, rendered, rendered.configName);
    var saveable := EnsureCanSave(site, d, 0);
    if saveable.Err? { return Err(saveable.error); }
    var found :- site.PathExists(host, rendered.configName);
    if found { return Err(ConfigAlreadyExists); }
    var free := PortCheckService.EnsureNoConflict(site, host, f.port, None, listening, true);
    if free.Err? { return Err(free.error); }
    r := Ok(rendered);
  }

  /** `_rollback_create`: whether the new file is gone again. */
  method RollbackCreate(site: Site, host: string, path: string) returns (complete: bool)
    requires host in site.disks && Canonical(path)
    modifies site`disks
    ensures site.disks == if complete then old(site.disks)[host := old(site.disks)[host] - {path}] else old(site.disks)
    ensures site.reliable ==> complete
  {
    hide NormalizeConfigPath;
    SameFiles(site.disks, host);
    var found := site.PathExists(host, path);
    if found.Err? { return false; }
    complete := true;
    if found.value {
      var deleted := ConfigFileService.DeleteByConfigPath(site, host, path);
      if deleted.Err? { return false; }
    } else {
      assert site.disks[host] - {path} == site.disks[host];
    }
    var reread := site.Command();
    if reread { var update := site.Command(); }
  }

  /** `create_service`; `listening` are the ports in use on the host. Only a failed call or a failed check
      refuses the request, and a refused request changes nothing; when no call fails, the request is carried
      out exactly when every check holds. */
  method CreateService(site: Site, host: string, f: Fields, listening: set<int>) returns (out: Outcome)
    requires ValidTable(site.table)
    modifies site`disks, site`table
    ensures CreateStep(old(site.World()), site.World(), Strip(host), f, out)
    ensures out.Refused? && site.Verdict(out.error) ==>
              !CreateGuard(old(site.World()), Strip(host), f) || f.port in listening
    ensures site.reliable ==> (out.Done? <==> Creatable(old(site.World()), Strip(host), f) && f.port !in listening)
    ensures out.Done? ==>
              RenderService(f).Ok?
              && Outcomes.CreateShows(old(site.World()), site.World(), Strip(host), f, RenderService(f).value)
  {
    hide Creatable, RenderService, EnsureSafeHost, ScanConflict, NoConflict, NormalizeDraft, Canonical, Strip, ValidTable, RequestDraft;
    CreatableIff(site.World(), Strip(host), f);
    var known := GetHost(site, host);
    if known.Err? { return Refused(known.error); }
    var h := known.value;
    var checked := CheckCreate(site, h, f, listening);
    if checked.Err? { return Refused(checked.error); }
    var r := checked.value;
    var path := r.configName;
    Runs.CreatePath(f);
    var d := RequestDraft(h, f, r, path);
    RequestIsNormal(h, f, r, path);
    assert d.path == path by { DraftPath(h, f, r, path); }
    var written := site.WriteText(h, path, r.content);
    if !written { return Aborted; }
    var reread := site.Command();
    if !reread { return Aborted; }
    var update := site.Command();
    if !update { return Aborted; }
    var created := RegistryService.Create(site, d);
    if created.Err? {
      var complete := RollbackCreate(site, h, path);
      assert old(site.disks)[h][path := r.content] - {path} == old(site.disks)[h];
      SameFiles(old(site.disks), h);
      return Compensated(complete);
    }
    ValidIsKeyed(old(site.table));
    Outcomes.CreateShown(old(site.World()), site.World(), h, f);
    return Done;
  }

  lemma DraftPath(host: string, f: Fields, r: Rendered, path: string)
    ensures RequestDraft(host, f, r, path).path == path
  {
  }

  // ---------------------------------------------------------------- update

  method CheckUpdate(site: Site, host: string, name: string, f: Fields, listening: set<int>) returns (r: Result<Plan>)
    requires ValidTable(site.table) && EnsureSafeHost(host) == Ok(host) && host in site.disks
    ensures r.Ok? ==> Planned(site.World(), host, Strip(name), f, r.value) && Updatable(site.World(), host, name, f, listening)
    ensures r.Err? && site.Verdict(r.error) ==> !Updatable(site.World(), host, name, f, listening)
  {
    hide RenderService, EnsureSafeHost, ScanConflict, NoConflict, NormalizeDraft, NormalizeConfigPath, ValidTable, RequestDraft,
      Strip, TargetPath;
    var id :- GetByName(site, host, name);
    IdIs(site.table, id);
    var row := site.table.rows[id];
    if row.archived { return Err(ArchiveState); }
    Runs.RowPath(site.table, id);
    var current := ConfigFileService.ReadByConfigPath(site, host, row.path);
    if current.Err? { return Err(current.error); }
    var rendered :- RenderService(f);
    var target := TargetPath(row.path, rendered.configName);
    Runs.UpdatePath(f, row.path);
    var d := RequestDraft(host, f, rendered, target);
    RequestIsNormal(host, f, rendered, target);
    var saveable := EnsureCanSave(site, d, id);
    if saveable.Err? { return Err(saveable.error); }
    if target != row.path {
      var found := ConfigFileService.ExistsByConfigPath(site, host, target);
      if found.Err? { return Err(found.error); }
      if found.value { return Err(ConfigAlreadyExists); }
    }
    var free := PortCheckService.EnsureNoConflict(site, host, f.port, Some(row.path), listening, row.port != Some(f.port));
    if free.Err? { return Err(free.error); }
    r := Ok(Plan(id, rendered, target, current.value));
    assert PortOpen(site.table.rows, id, f.port, listening);
  }

  /** The file steps of an update, in their order, up to the first that fails. */
  method RewriteFiles(site: Site, host: string, path: string, target: string, content: string, stamp: string) returns (ok: bool)
    requires host in site.disks && Canonical(path) && Canonical(target)
    modifies site`disks
    ensures host in site.disks && site.disks == old(site.disks)[host := site.disks[host]]
    ensures UpdateCut(old(site.disks)[host], site.disks[host], path, target, content, stamp)
    ensures ok ==> path in old(site.disks)[host]
                   && site.disks[host] == Updated(old(site.disks)[host], path, target, content, stamp)
    ensures site.reliable && path in old(site.disks)[host] ==> ok
  {
    hide NormalizeConfigPath, BackedUp;
    ghost var fs := site.disks[host];
    var backup := ConfigFileService.BackupByConfigPath(site, host, path, stamp);
    if backup.Err? { return false; }
    var written := ConfigFileService.WriteByConfigPath(site, host, target, content);
    if written.Err? { return false; }
    assert site.disks[host] == BackedUp(fs, path, stamp)[target := content];
    ConfigFileService.LiveStays(fs, path, stamp);
    if target != path {
      var removed := ConfigFileService.DeleteByConfigPath(site, host, path);
      if removed.Err? { return false; }
    }
    ok := true;
  }

  /** `_rollback_update` */
  method RollbackUpdate(site: Site, host: string, path: string, target: string, stamp: string) returns (complete: bool)
    requires host in site.disks && Canonical(path) && Canonical(target) && |stamp| == 15
    modifies site`disks
    ensures host in site.disks && site.disks == old(site.disks)[host := site.disks[host]]
    ensures UndoCut(old(site.disks)[host], site.disks[host], path, target, stamp)
    ensures complete ==> Bak(path) in old(site.disks)[host] && Bak(path) != target
                         && site.disks[host] == Undone(old(site.disks)[host], path, target, stamp)
  {
    hide NormalizeConfigPath, RestoreCut, Restored;
    SameFiles(site.disks, host);
    ghost var fs := site.disks[host];
    BackupIsNotLive(path, target);
    if target != path {
      var found := ConfigFileService.ExistsByConfigPath(site, host, target);
      if found.Err? { return false; }
      if found.value {
        var removed := ConfigFileService.DeleteByConfigPath(site, host, target);
        if removed.Err? { return false; }
      } else {
        assert fs - {target} == fs;
      }
    }
    assert site.disks[host] == Withdrawn(fs, path, target);
    var restored := ConfigFileService.RestoreByConfigPath(site, host, path, stamp);
    if restored.Err? { return false; }
    var reread := site.Command();
    if reread { var update := site.Command(); }
    complete := true;
  }

  lemma BackupIsNotLive(path: string, target: string)
    requires Canonical(path) && Canonical(target)
    ensures Bak(path) != target
  {
    hide Canonical;
    CanonicalName(path);
    CanonicalName(target);
    assert Bak(path)[|Bak(path)| - 1] == 'k';
    assert target[|target| - 4..][3] == target[|target| - 1];
  }

  /** Everything an update does on the host before it reads the state back. */
  method ChangeSite(site: Site, host: string, row: Row, r: Rendered, target: string, stamp: string) returns (ok: bool)
    requires host in site.disks && Canonical(row.path) && Canonical(target)
    modifies site`disks
    ensures host in site.disks && site.disks == old(site.disks)[host := site.disks[host]]
    ensures UpdateCut(old(site.disks)[host], site.disks[host], row.path, target, r.content, stamp)
    ensures ok ==> row.path in old(site.disks)[host]
                   && site.disks[host] == Updated(old(site.disks)[host], row.path, target, r.content, stamp)
    ensures site.reliable && row.path in old(site.disks)[host] ==> ok
  {
    hide Canonical, Updated, UpdateCut;
    SameFiles(site.disks, host);
    CutStart(site.disks[host], row.path, target, r.content, stamp);
    if r.name != row.name || target != row.path {
      var stopped := site.Command();
      if !stopped { return false; }
    }
    var rewritten := RewriteFiles(site, host, row.path, target, r.content, stamp);
    if !rewritten { return false; }
    var reread := site.Command();
    if !reread { return false; }
    ok := site.Command();
  }

  function SnapshotOf(read: Reading<Runtime>): Runtime {
    if read.Found? then read.value else Runtime("UNKNOWN", None, None)
  }

  /** `_query_runtime_snapshot`: UNKNOWN when the status cannot be read or lists nothing. */
  method QueryRuntime(site: Site) returns (runtime: Runtime, read: Reading<Runtime>)
    ensures read.Found? ==> runtime == read.value
    ensures !read.Found? ==> runtime == Runtime("UNKNOWN", None, None)
  {
    read := site.ReadStatus();
    runtime := if read.Found? then read.value else Runtime("UNKNOWN", None, None);
  }

  /** `update_service`; `stamp` and `stamp2` are the clock readings of the backup and of the compensation. */
  method UpdateService(
    site: Site, host: string, name: string, f: Fields, listening: set<int>, stamp: string, stamp2: string)
    returns (out: Outcome, read: Reading<Runtime>)
    requires ValidTable(site.table) && IsStamp(stamp) && IsStamp(stamp2)
    modifies site`disks, site`table
    ensures UpdateStep(old(site.World()), site.World(), Strip(host), Strip(name), f, stamp, stamp2, out)
    ensures out.Refused? && site.Verdict(out.error) ==> !Updatable(old(site.World()), Strip(host), name, f, listening)
    ensures site.reliable ==> (out.Done? <==> Updatable(old(site.World()), Strip(host), name, f, listening))
    ensures out.Done? ==>
              RenderService(f).Ok?
              && forall id :: id in old(site.table.rows) && Named(old(site.table.rows)[id], Strip(host), Strip(name)) ==>
                   Outcomes.UpdateShows(old(site.World()), site.World(), Strip(host), id, f, RenderService(f).value, stamp)
                   && site.table.rows[id].runtime == SnapshotOf(read)
    ensures site.reliable ==>
              forall id :: IsOrdinary(old(site.World()), Strip(host), id, Strip(name), f) ==> out.Done?
  {
    hide RenderService, EnsureSafeHost, ScanConflict, NoConflict, NormalizeDraft, Canonical, Strip, ValidTable,
      TargetPath, UpdateCut, UndoCut, Updated, Undone, Parse, RequestDraft, Overwritten, UpdatedRow, Updatable, NameTaken, IsOrdinary,
      Outcomes.UpdateShows;
    OrdinaryIsUpdatable(site.World(), Strip(host), name, f, listening);
    var known := GetHost(site, host);
    assert Updatable(site.World(), Strip(host), name, f, listening) ==> known.Ok? by {
      UpdatableHost(site.World(), Strip(host), name, f, listening);
    }
    if known.Err? { return Refused(known.error), Missing; }
    var h := known.value;
    var checked := CheckUpdate(site, h, name, f, listening);
    if checked.Err? { return Refused(checked.error), Missing; }
    var Plan(id, r, target, current) := checked.value;
    var row := site.table.rows[id];
    Runs.RowPath(site.table, id);
    Runs.UpdatePath(f, row.path);
    SameFiles(site.disks, h);
    var changed := ChangeSite(site, h, row, r, target, stamp);
    if !changed { return Aborted, Missing; }
    var runtime;
    runtime, read := QueryRuntime(site);
    assert Parse(r.content).Ok? by { RenderParses.RenderedParses(f); }
    var parsed := Parse(r.content).value;
    var d := RequestDraft(h, f, r, target);
    RequestIsNormal(h, f, r, target);
    var o := parsed.options;
    var detail := Detail(Lookup(o, "command"), Lookup(o, "directory"), Lookup(o, "stdout_logfile"), true,
                         Some(r.content), Some(current), "SUCCESS", None);
    RowWritten(row, h, f, r, target, runtime, current, detail);
    var saved := RegistryService.UpdateService(site, id, d, runtime, detail);
    if saved.Err? {
      var complete := RollbackUpdate(site, h, row.path, target, stamp2);
      return Compensated(complete), read;
    }
    UpdateEnds(old(site.World()), site.World(), h, Strip(name), f, stamp, stamp2, id);
    return Done, read;
  }

  ghost predicate IsOrdinary(w: World, host: string, id: int, name: string, f: Fields) {
    id in w.table.rows && w.table.rows[id].name == name && Ordinary(w, host, id, f)
  }

  lemma OrdinaryIsUpdatable(w: World, host: string, name: string, f: Fields, listening: set<int>)
    requires ValidTable(w.table)
    ensures forall id :: IsOrdinary(w, host, id, Strip(name), f) ==> Updatable(w, host, name, f, listening)
  {
    hide Ordinary, Updatable, ValidTable, Strip;
    forall id | IsOrdinary(w, host, id, Strip(name), f) ensures Updatable(w, host, name, f, listening) {
      OrdinaryPasses(w, host, name, id, f, listening);
    }
  }

  lemma UpdateEnds(w: World, w': World, host: string, name: string, f: Fields, stamp: string, stamp2: string, id: int)
    requires ValidTable(w.table) && UpdateStep(w, w', host, name, f, stamp, stamp2, Done) && IsStamp(stamp)
    requires id in w.table.rows && Named(w.table.rows[id], host, name)
    ensures RenderService(f).Ok? && Outcomes.UpdateShows(w, w', host, id, f, RenderService(f).value, stamp)
    ensures forall i :: i in w.table.rows && Named(w.table.rows[i], host, name) ==> i == id
  {
    hide UpdateStep, NormalizeConfigPath, Outcomes.UpdateShows;
    Outcomes.UpdateShown(w, w', host, name, f, stamp, stamp2, id);
  }

  /** The columns an update sends are those of the specified row. */
  lemma RowWritten(row: Row, host: string, f: Fields, r: Rendered, target: string, runtime: Runtime, current: string, detail: Detail)
    requires Parse(r.content).Ok?
    requires var o := Parse(r.content).value.options;
             detail == Detail(Lookup(o, "command"), Lookup(o, "directory"), Lookup(o, "stdout_logfile"), true,
                              Some(r.content), Some(current), "SUCCESS", None)
    ensures var d := RequestDraft(host, f, r, target);
            UpdatedRow(row, d, runtime, current) == Overwritten(row, d).(runtime := runtime, detail := detail)
  {
    hide Parse;
  }

  lemma CutStart(fs: FileMap, path: string, target: string, content: string, stamp: string)
    ensures UpdateCut(fs, fs, path, target, content, stamp)
  {
  }

  // ---------------------------------------------------------------- hard delete

  datatype CleanupStep = DeleteBackup | DeleteConfig | Reread | Reload

  /** `deletedRemotePaths`, `remoteCleanupStatus` and the steps that left a warning. */
  datatype Cleanup = Cleanup(deleted: seq<string>, success: bool, warnings: seq<CleanupStep>)

  predicate Accepted(path: string, allowBackups: bool) { NormalizeConfigPath(path, allowBackups).Ok? }

  predicate AcceptedAsIs(path: string, allowBackups: bool) {
    Accepted(path, allowBackups) ==> NormalizeConfigPath(path, allowBackups) == Ok(path)
  }

  /** The file was there and is gone, or was not there, or a warning says that the step failed. */
  predicate FileStep(fs: FileMap, fs': FileMap, path: string, step: CleanupStep, before: Cleanup, after: Cleanup) {
    || (path in fs && fs' == fs - {path} && after == before.(deleted := before.deleted + [path]))
    || (path !in fs && fs' == fs && after == before)
    || (fs' == fs && after == before.(warnings := before.warnings + [step]))
  }

  /** `_delete_remote_file_step` for a path the normaliser either rejects or leaves alone: a file that was
      never there counts as cleaned, a failure becomes a warning. */
  method DeleteFileStep(
    site: Site, host: string, path: string, allowBackups: bool, step: CleanupStep, before: Cleanup)
    returns (after: Cleanup)
    requires host in site.disks
    requires AcceptedAsIs(path, allowBackups)
    modifies site`disks
    ensures host in site.disks && site.disks == old(site.disks)[host := site.disks[host]]
    ensures FileStep(old(site.disks)[host], site.disks[host], path, step, before, after)
    ensures !Accepted(path, allowBackups) ==> after.warnings == before.warnings + [step]
    ensures site.reliable && Accepted(path, allowBackups) ==> after.warnings == before.warnings
  {
    hide NormalizeConfigPath;
    SameFiles(site.disks, host);
    var removed := ConfigFileService.RemoveOptional(site, host, path, allowBackups);
    if removed.Err? { return before.(warnings := before.warnings + [step]); }
    after := if removed.value then before.(deleted := before.deleted + [path]) else before;
    assert !removed.value ==> old(site.disks)[host] - {path} == old(site.disks)[host];
  }

  /** The two file steps of the cleanup. */
  method CleanFiles(site: Site, host: string, path: string) returns (c: Cleanup)
    requires host in site.disks && Canonical(path)
    modifies site`disks
    ensures host in site.disks && site.disks == old(site.disks)[host := site.disks[host]]
    ensures site.disks[host] == old(site.disks)[host] - (set f | f in c.deleted)
    ensures forall f :: f in c.deleted <==> f in old(site.disks)[host] && f !in site.disks[host]
    ensures forall f :: f in c.deleted ==> f == path || f == Bak(path)
    ensures DeleteBackup !in c.warnings ==> Bak(path) !in site.disks[host]
    ensures DeleteConfig !in c.warnings ==> path !in site.disks[host]
    ensures ".ini" <= TrimLeft(Basename(path)) ==> DeleteBackup in c.warnings
    ensures forall x :: x in c.warnings ==> x == DeleteBackup || x == DeleteConfig
    ensures site.reliable && !(".ini" <= TrimLeft(Basename(path))) ==> c.warnings == []
  {
    hide NormalizeConfigPath, Basename, TrimLeft, Bak, FileStep;
    BackupNameAgrees(path);
    ConfigFileService.NamesApart(path, "");
    ghost var fs := site.disks[host];
    ghost var start := Cleanup([], true, []);
    c := DeleteFileStep(site, host, Bak(path), true, DeleteBackup, Cleanup([], true, []));
    ghost var fs1, c1 := site.disks[host], c;
    c := DeleteFileStep(site, host, path, false, DeleteConfig, c);
    BothSteps(fs, fs1, site.disks[host], path, start, c1, c);
  }

  lemma BothSteps(
    fs: FileMap, fs1: FileMap, fs2: FileMap, path: string, start: Cleanup, c1: Cleanup, c: Cleanup)
    requires path != Bak(path) && start == Cleanup([], true, [])
    requires FileStep(fs, fs1, Bak(path), DeleteBackup, start, c1) && FileStep(fs1, fs2, path, DeleteConfig, c1, c)
    ensures fs2 == fs - (set f | f in c.deleted)
    ensures forall f :: f in c.deleted <==> f in fs && f !in fs2
    ensures forall f :: f in c.deleted ==> f == path || f == Bak(path)
    ensures DeleteBackup !in c.warnings ==> Bak(path) !in fs2
    ensures DeleteConfig !in c.warnings ==> path !in fs2
    ensures c1.warnings == [DeleteBackup] ==> DeleteBackup in c.warnings
    ensures forall x :: x in c.warnings ==> x == DeleteBackup || x == DeleteConfig
  {
    hide Bak;
  }

  /** `_cleanup_deleted_remote_files`. What it reports as deleted is what went away; it reports success
      exactly when no step failed, and then both files are gone and nothing else is. A file name that begins
      with ".ini" always leaves a warning, because its backup name does not pass the normaliser. */
  method CleanUp(site: Site, host: string, path: string) returns (c: Cleanup)
    requires host in site.disks && Canonical(path)
    modifies site`disks
    ensures host in site.disks && site.disks == old(site.disks)[host := site.disks[host]]
    ensures site.disks[host] == old(site.disks)[host] - (set f | f in c.deleted)
    ensures forall f :: f in c.deleted <==> f in old(site.disks)[host] && f !in site.disks[host]
    ensures forall f :: f in c.deleted ==> f == path || f == Bak(path)
    ensures DeleteBackup !in c.warnings ==> Bak(path) !in site.disks[host]
    ensures DeleteConfig !in c.warnings ==> path !in site.disks[host]
    ensures c.success <==> c.warnings == []
    ensures c.success ==> site.disks[host] == old(site.disks)[host] - {path, Bak(path)}
    ensures ".ini" <= TrimLeft(Basename(path)) ==> !c.success && DeleteBackup in c.warnings
    ensures Reread in c.warnings || Reload in c.warnings ==> path in c.deleted
    ensures site.reliable ==> (c.success <==> !(".ini" <= TrimLeft(Basename(path))))
  {
    hide Canonical, Basename, TrimLeft, Bak;
    c := CleanFiles(site, host, path);
    if path in c.deleted {
      var reread := site.Command();
      if !reread { c := c.(warnings := c.warnings + [Reread]); }
      var reload := site.Command();
      if !reload { c := c.(warnings := c.warnings + [Reload]); }
    }
    c := c.(success := c.warnings == []);
  }

  /** The name is well formed and its row has the archive flag the request needs. */
  ghost predicate Movable(w: World, host: string, name: string, archived: bool) {
    HostOk(w, host) && EnsureSafeName(name).Ok? && Registered(w.table.rows, host, Strip(name))
    && w.table.rows[IdOf(w.table.rows, host, Strip(name))].archived == archived
  }

  /** A row with that host, name and flag is all it takes. */
  lemma RowIsMovable(w: World, host: string, name: string, id: int)
    requires ValidTable(w.table) && host in w.disks && EnsureSafeHost(host) == Ok(host) && EnsureSafeName(name).Ok?
    requires id in w.table.rows && Named(w.table.rows[id], host, Strip(name))
    ensures Movable(w, host, name, w.table.rows[id].archived) && IdOf(w.table.rows, host, Strip(name)) == id
  {
    hide EnsureSafeHost, EnsureSafeName, Canonical, Strip, KeyedTable;
    IdIs(w.table, id);
  }

  lemma RowsAreMovable(w: World, host: string, name: string)
    requires ValidTable(w.table)
    ensures forall id :: Addressed(w, host, name, id) ==>
              Movable(w, host, name, w.table.rows[id].archived) && IdOf(w.table.rows, host, Strip(name)) == id
  {
    hide EnsureSafeHost, EnsureSafeName, ValidTable, Strip, Movable;
    forall id | Addressed(w, host, name, id)
      ensures Movable(w, host, name, w.table.rows[id].archived) && IdOf(w.table.rows, host, Strip(name)) == id
    {
      RowIsMovable(w, host, name, id);
    }
  }

  /** Host and name are well formed, the host is known, and row `id` is the one they mean. */
  ghost predicate Addressed(w: World, host: string, name: string, id: int) {
    host in w.disks && EnsureSafeHost(host) == Ok(host) && EnsureSafeName(name).Ok?
    && id in w.table.rows && Named(w.table.rows[id], host, Strip(name)) && Registered(w.table.rows, host, Strip(name))
  }

  /** Host, row and archive flag of a request by name. */
  method LoadRecord(site: Site, host: string, name: string, archived: bool) returns (r: Result<int>)
    requires ValidTable(site.table)
    ensures r.Ok? ==>
              Movable(site.World(), Strip(host), name, archived) && r.value in site.table.rows
              && r.value == IdOf(site.table.rows, Strip(host), Strip(name))
              && site.table.rows[r.value].host == Strip(host) && site.table.rows[r.value].name == Strip(name)
    ensures r.Err? && site.Verdict(r.error) ==> !Movable(site.World(), Strip(host), name, archived)
  {
    hide EnsureSafeHost, EnsureSafeName, Canonical, Strip, ValidTable, NameTaken;
    assert Movable(site.World(), Strip(host), name, archived) ==> EnsureSafeHost(Strip(host)) == Ok(Strip(host));
    var known := GetHost(site, host);
    if known.Err? { return Err(known.error); }
    var found := GetByName(site, known.value, name);
    if found.Err? { return Err(found.error); }
    IdIs(site.table, found.value);
    if site.table.rows[found.value].archived != archived { return Err(ArchiveState); }
    r := Ok(found.value);
  }

  lemma DeletesShown(w: World, w': World, host: string, name: string, gone: set<string>)
    requires ValidTable(w.table) && DeleteStep(w, w', host, name, gone, Done)
    ensures forall id :: id in w.table.rows && Named(w.table.rows[id], host, name) ==> Outcomes.DeleteShows(w, w', host, id)
  {
    hide DeleteStep, ValidTable, Outcomes.DeleteShows;
    forall id | id in w.table.rows && Named(w.table.rows[id], host, name) ensures Outcomes.DeleteShows(w, w', host, id) {
      Outcomes.DeleteShown(w, w', host, name, gone, id);
    }
  }

  /** `delete_service`: the row goes first, then its two files as far as they can. */
  method DeleteService(site: Site, host: string, name: string) returns (out: Outcome, c: Cleanup)
    requires ValidTable(site.table)
    modifies site`disks, site`table
    ensures DeleteStep(old(site.World()), site.World(), Strip(host), Strip(name), (set f | f in c.deleted), out)
    ensures out.Refused? ==> c == Cleanup([], false, [])
    ensures site.reliable ==>
              forall id :: Addressed(old(site.World()), Strip(host), name, id) ==>
                (out.Done? <==> old(site.table.rows)[id].archived)
    ensures out.Refused? && site.Verdict(out.error) ==> !Movable(old(site.World()), Strip(host), name, true)
    ensures out.Done? ==>
              forall id :: id in old(site.table.rows) && Named(old(site.table.rows)[id], Strip(host), Strip(name)) ==>
                Outcomes.DeleteShows(old(site.World()), site.World(), Strip(host), id)
    ensures out.Done? ==>
              var row := old(site.table.rows)[IdOf(old(site.table.rows), Strip(host), Strip(name))];
              var fs, fs' := old(site.disks)[Strip(host)], site.disks[Strip(host)];
              (forall f :: f in c.deleted <==> f in fs && f !in fs')
              && (c.success <==> c.warnings == [])
              && (c.success ==> fs' == fs - {row.path, Bak(row.path)})
              && (site.reliable ==> (c.success <==> !(".ini" <= TrimLeft(Basename(row.path)))))
  {
    hide EnsureSafeHost, EnsureSafeName, Canonical, Strip, ValidTable, Bak, NameTaken, Basename, TrimLeft, Addressed;
    RowsAreMovable(site.World(), Strip(host), name);
    c := Cleanup([], false, []);
    var loaded := LoadRecord(site, host, name, true);
    if loaded.Err? { return Refused(loaded.error), c; }
    var h, row := Strip(host), site.table.rows[loaded.value];
    Runs.RowPath(site.table, loaded.value);
    var deleted := RegistryService.DeleteService(site, loaded.value);
    if deleted.Err? { return Refused(deleted.error), c; }
    c := CleanUp(site, h, row.path);
    DeletesShown(old(site.World()), site.World(), h, Strip(name), set f | f in c.deleted);
    return Done, c;
  }
}
