/** Port uniqueness over whole runs. The database check ignores archived rows and the file scan skips the
    request's own files, so uniqueness rests on every row's port standing in one of its own scanned files. */
module Ports {
  import opened Text
  import opened PathNames
  import opened Template
  import opened Files
  import opened PortCheck
  import opened Registry
  import opened Lifecycle
  import opened Safety
  import opened Runs
  import RoundTrip

  // ---------------------------------------------------------------- what the scan sees

  /** A witnessed row's port is found in one of its own files. */
  lemma WitnessFile(w: World, id: int) returns (kind: Kind)
    requires ValidTable(w.table) && id in w.table.rows && w.table.rows[id].port.Some?
    requires Witness(w.disks, w.table.rows[id])
    ensures var row := w.table.rows[id];
            (kind.Live? || IsBackupKind(kind)) && row.host in w.disks
            && FileOf(row.path, kind) in w.disks[row.host]
            && Mentions(w.disks[row.host][FileOf(row.path, kind)], row.port.value)
            && Listed(FileOf(row.path, kind))
  {
    hide Mentions, Listed, Canonical, FileOf;
    var row := w.table.rows[id];
    RowPath(w.table, id);
    LiveAndBackup(row.path);
    var fs := w.disks[row.host];
    if BackupMentions(fs, row.path, row.port.value) {
      kind :| IsBackupKind(kind) && FileOf(row.path, kind) in fs && Mentions(fs[FileOf(row.path, kind)], row.port.value);
    } else {
      kind := Live;
    }
    OwnFilesAreListed(row.path, kind);
  }

  lemma NoHit(fs: FileMap, f: string, port: int, exclude: Option<string>)
    requires !ScanConflict(fs, port, exclude) && f in fs && Listed(f) && Mentions(fs[f], port)
    ensures Skipped(f, exclude)
  {
    hide Listed, Mentions;
    assert !Hit(fs, f, port, exclude);
  }

  /** A create request whose checks pass brings a port no row of the host has, archived or not. */
  lemma CreatePortIsNew(w: World, host: string, f: Fields, id: int)
    requires ValidTable(w.table) && AllWitnessed(w) && CreateGuard(w, host, f) && id in w.table.rows
    ensures w.table.rows[id].host != host || w.table.rows[id].port != Some(f.port)
  {
    hide Mentions, Listed, Canonical, FileOf, RenderService, NoConflict;
    var row := w.table.rows[id];
    assert Witness(w.disks, row);
    if row.host == host && row.port == Some(f.port) {
      var kind := WitnessFile(w, id);
      NoHit(w.disks[host], FileOf(row.path, kind), f.port, None);
    }
  }

  /** An archived row of the same host with the requested port, whose path extends `path + ".bak"`: its files
      are taken for backups of the row being updated. */
  ghost predicate Shadowed(rows: Rows, id: int, port: int)
    requires id in rows
  {
    exists i :: i in rows && i != id && rows[i].host == rows[id].host && rows[i].port == Some(port)
                && rows[i].archived && Bak(rows[id].path) <= rows[i].path
  }

  /** If an update passes its checks although another row has the port, that row is such an archived row. */
  lemma UpdateDuplicateIsShadowed(w: World, host: string, id: int, f: Fields, target: string, i: int)
    requires ValidTable(w.table) && AllWitnessed(w) && UpdateGuard(w, host, id, f, target)
    requires i in w.table.rows && i != id && w.table.rows[i].host == host && w.table.rows[i].port == Some(f.port)
    ensures w.table.rows[i].archived && Bak(w.table.rows[id].path) <= w.table.rows[i].path
  {
    hide Mentions, Listed, Canonical, FileOf, RenderService, Bak, IniFile;
    var row, other := w.table.rows[id], w.table.rows[i];
    RowPath(w.table, id);
    RowPath(w.table, i);
    OnlyPath(w.table, id);
    assert Witness(w.disks, other);
    var kind := WitnessFile(w, i);
    var g := FileOf(other.path, kind);
    NoHit(w.disks[host], g, f.port, Some(row.path));
    SkipMeansExtends(row.path, other.path, kind);
  }

  // ---------------------------------------------------------------- witnesses are kept

  lemma OthersWitnessed(w: World, id0: int, host: string, fs': FileMap, path: string, target: string, stamps: set<string>)
    requires ValidTable(w.table) && AllWitnessed(w) && host in w.disks
    requires IniFile(path) && IniFile(target) && forall t :: t in stamps ==> IsStamp(t)
    requires SameElsewhere(w.disks[host], fs', path, target, stamps)
    requires forall id :: id in w.table.rows && id != id0 ==>
               w.table.rows[id].host != host || (w.table.rows[id].path != path && w.table.rows[id].path != target)
    ensures forall id :: id in w.table.rows && id != id0 ==> Witness(w.disks[host := fs'], w.table.rows[id])
  {
    hide SameElsewhere, IniFile, ValidTable, Witness;
    forall id | id in w.table.rows && id != id0 ensures Witness(w.disks[host := fs'], w.table.rows[id]) {
      RowPath(w.table, id);
      WitnessElsewhere(w.disks, w.table.rows[id], host, fs', path, target, stamps);
    }
  }

  lemma CreateKeepsWitness(w: World, w': World, host: string, f: Fields, out: Outcome)
    requires ValidTable(w.table) && AllWitnessed(w) && CreateStep(w, w', host, f, out)
    ensures AllWitnessed(w')
  {
    hide Canonical, RenderService, Witness, UniqueNames, UniquePaths, ScanConflict, Mentions, BackupMentions;
    if !out.Refused? {
      var r := RenderService(f).value;
      var c := r.configName;
      CreatePath(f);
      var fs' := w.disks[host][c := r.content];
      FreePath(w.table.rows, host, c, 0);
      OthersWitnessed(w, 0, host, fs', c, c, {});
      if out.Done? {
        RoundTrip.RenderedMentionsPort(f);
        var row := NewRow(RequestDraft(host, f, r, c));
        LiveIsWitness(w'.disks, row);
      }
    }
  }

  lemma LiveIsWitness(disks: map<string, FileMap>, row: Row)
    requires !row.archived && row.host in disks
    requires row.port.Some? ==> OwnMention(disks[row.host], row.path, row.port.value)
    ensures Witness(disks, row)
  {
  }

  lemma BackupIsWitness(disks: map<string, FileMap>, row: Row)
    requires row.host in disks
    requires row.port.Some? ==> BackupMentions(disks[row.host], row.path, row.port.value)
    ensures Witness(disks, row)
  {
  }

  lemma WitnessMeans(disks: map<string, FileMap>, row: Row)
    requires Witness(disks, row)
    ensures row.port.Some? ==> row.host in disks && OwnMention(disks[row.host], row.path, row.port.value)
    ensures row.port.Some? && row.archived ==> BackupMentions(disks[row.host], row.path, row.port.value)
  {
  }

  /** A stop on the way of an update or its compensation leaves the row's own witness in place. */
  lemma UpdateStopKeepsOwn(fs: FileMap, fs': FileMap, path: string, target: string, content: string,
                           stamp: string, stamp2: string, port: int)
    requires IniFile(path) && IniFile(target) && path in fs && Fresh(fs, path, stamp) && IsStamp(stamp2)
    requires OwnMention(fs, path, port)
    requires UpdateCut(fs, fs', path, target, content, stamp)
             || UndoCut(Updated(fs, path, target, content, stamp), fs', path, target, stamp2)
    ensures OwnMention(fs', path, port)
  {
    hide Mentions, BackupMentions, IniFile, UpdateCut, UndoCut, Updated, FileOf, Bak;
    if UpdateCut(fs, fs', path, target, content, stamp) {
      UpdateKeepsOwn(fs, fs', path, target, content, stamp, port);
    } else {
      var done := Updated(fs, path, target, content, stamp);
      DoneMentions(fs, path, target, content, stamp, port);
      UndoAnywhere(done, fs', path, target, stamp2, port);
    }
  }

  lemma DoneMentions(fs: FileMap, path: string, target: string, content: string, stamp: string, port: int)
    requires IniFile(path) && IniFile(target) && path in fs && Fresh(fs, path, stamp) && OwnMention(fs, path, port)
    ensures BackupMentions(Updated(fs, path, target, content, stamp), path, port)
  {
    hide Mentions, BackupMentions, IniFile, FileOf, Bak;
    BackupCollects(fs, path, stamp, port);
    LiveKeepsBackups(BackedUp(fs, path, stamp), Updated(fs, path, target, content, stamp), path, path, target, port);
  }

  /** Compensation never removes a backup, even when its stamp is taken: it moves only the live file. */
  lemma UndoAnywhere(done: FileMap, fs': FileMap, path: string, target: string, stamp: string, port: int)
    requires IniFile(path) && IniFile(target) && IsStamp(stamp) && BackupMentions(done, path, port)
    requires UndoCut(done, fs', path, target, stamp)
    ensures BackupMentions(fs', path, port)
  {
    hide FileOf, Mentions, EndsWith;
    LiveAndBackup(path);
    LiveAndBackup(target);
    forall kind | IsBackupKind(kind) && FileOf(path, kind) in done
      ensures FileOf(path, kind) in fs' && fs'[FileOf(path, kind)] == done[FileOf(path, kind)]
    {
      NamesDiffer(path, kind, Live);
      NamesDiffer(path, kind, SetAside(stamp));
      if FileOf(path, kind) == target { FileOfInjective(path, kind, target, Live); }
    }
    BackupsStay(done, fs', path, port);
  }

  /** Only one row's files changed and its own witness is still there. */
  lemma FilesKeepWitness(w: World, w': World, id: int, fs': FileMap, target: string, stamps: set<string>)
    requires ValidTable(w.table) && AllWitnessed(w) && id in w.table.rows && !w.table.rows[id].archived
    requires IniFile(target) && forall t :: t in stamps ==> IsStamp(t)
    requires var row := w.table.rows[id];
             row.host in w.disks && SameElsewhere(w.disks[row.host], fs', row.path, target, stamps)
             && !PathTaken(w.table.rows, row.host, target, id)
             && w'.table == w.table && w'.disks == w.disks[row.host := fs']
             && (row.port.Some? && OwnMention(w.disks[row.host], row.path, row.port.value) ==>
                   OwnMention(fs', row.path, row.port.value))
    ensures AllWitnessed(w')
  {
    hide Canonical, Witness, UniqueNames, UniquePaths, SameElsewhere, IniFile, OwnMention;
    var row := w.table.rows[id];
    RowPath(w.table, id);
    OnlyPath(w.table, id);
    FreePath(w.table.rows, row.host, target, id);
    OthersWitnessed(w, id, row.host, fs', row.path, target, stamps);
    assert Witness(w.disks, row);
    WitnessMeans(w.disks, row);
    LiveIsWitness(w'.disks, row);
  }

  lemma UpdateKeepsWitness(w: World, w': World, host: string, name: string, f: Fields, stamp: string, stamp2: string, out: Outcome)
    requires ValidTable(w.table) && AllWitnessed(w) && UpdateStep(w, w', host, name, f, stamp, stamp2, out)
    requires RotatesFreely(w, host, name, stamp) && IsStamp(stamp) && IsStamp(stamp2)
    ensures AllWitnessed(w')
  {
    hide Canonical, RenderService, Witness, UniqueNames, UniquePaths, ScanConflict, TargetPath, UpdateCut, UndoCut,
      Updated, Undone, IniFile, SameElsewhere, UpdatedRow, IsStamp, OwnMention, Fresh, PathTaken, NameTaken, PortTaken;
    if !out.Refused? {
      var id := IdOf(w.table.rows, host, name) by { assert Registered(w.table.rows, host, name); }
      var row := w.table.rows[id];
      var r := RenderService(f).value;
      var target := TargetPath(row.path, r.configName);
      var fs := w.disks[host];
      var done := Updated(fs, row.path, target, r.content, stamp);
      assert Fresh(fs, row.path, stamp) && IsStamp(stamp2);
      RowPath(w.table, id);
      UpdatePath(f, row.path);
      IsUpdateCut(fs, row.path, target, r.content, stamp);
      UpdateFrame(fs, done, row.path, target, r.content, stamp);
      match out
      case Aborted =>
        var fs' :| UpdateCut(fs, fs', row.path, target, r.content, stamp) && w'.disks == w.disks[host := fs'];
        UpdateFrame(fs, fs', row.path, target, r.content, stamp);
        if row.port.Some? && OwnMention(fs, row.path, row.port.value) {
          UpdateStopKeepsOwn(fs, fs', row.path, target, r.content, stamp, stamp2, row.port.value);
        }
        FilesKeepWitness(w, w', id, fs', target, {stamp});
      case Compensated(complete) =>
        var fs' :| UndoCut(done, fs', row.path, target, stamp2) && w'.disks == w.disks[host := fs'];
        UndoFrame(done, fs', row.path, target, stamp2);
        FrameTransitive(fs, done, fs', row.path, target, {stamp}, {stamp2});
        if row.port.Some? && OwnMention(fs, row.path, row.port.value) {
          UpdateStopKeepsOwn(fs, fs', row.path, target, r.content, stamp, stamp2, row.port.value);
        }
        FilesKeepWitness(w, w', id, fs', target, {stamp} + {stamp2});
      case Done =>
        UpdatedHoldsTarget(fs, row.path, target, r.content, stamp);
        UpdateDoneKeepsWitness(w, w', host, id, f, r, target, done, stamp);
    }
  }

  lemma UpdateDoneKeepsWitness(
    w: World, w': World, host: string, id: int, f: Fields, r: Rendered, target: string, done: FileMap, stamp: string)
    requires ValidTable(w.table) && AllWitnessed(w) && UpdateGuard(w, host, id, f, target)
    requires RenderService(f) == Ok(r) && IsStamp(stamp) && target in done && done[target] == r.content
    requires var row := w.table.rows[id];
             IniFile(row.path) && IniFile(target)
             && SameElsewhere(w.disks[host], done, row.path, target, {stamp})
             && w'.disks == w.disks[host := done]
             && exists rt ::
                  w'.table == Replace(w.table, id, UpdatedRow(row, RequestDraft(host, f, r, target), rt, w.disks[host][row.path]))
    ensures AllWitnessed(w')
  {
    hide Canonical, RenderService, Witness, UniqueNames, UniquePaths, ScanConflict, TargetPath, IniFile, SameElsewhere,
      UpdatedRow, IsStamp, OwnMention, PathTaken, NameTaken, PortTaken, Mentions;
    var row := w.table.rows[id];
    var row' := w'.table.rows[id];
    UpdatedRowKeeps(row, RequestDraft(host, f, r, target), w.disks[host][row.path]);
    OnlyPath(w.table, id);
    FreePath(w.table.rows, host, target, id);
    OthersWitnessed(w, id, host, done, row.path, target, {stamp});
    RoundTrip.RenderedMentionsPort(f);
    TargetIsWitness(done, target, f.port);
    LiveIsWitness(w'.disks, row');
  }

  lemma UpdatedHoldsTarget(fs: FileMap, path: string, target: string, content: string, stamp: string)
    requires path in fs
    ensures var done := Updated(fs, path, target, content, stamp); target in done && done[target] == content
  {
  }

  lemma TargetIsWitness(fs: FileMap, path: string, port: int)
    requires path in fs && Mentions(fs[path], port)
    ensures OwnMention(fs, path, port)
  {
  }

  lemma ArchiveKeepsWitness(w: World, w': World, host: string, name: string, stamp: string, out: Outcome)
    requires ValidTable(w.table) && AllWitnessed(w) && ArchiveStep(w, w', host, name, stamp, out)
    requires RotatesFreely(w, host, name, stamp) && IsStamp(stamp)
    ensures AllWitnessed(w')
  {
    hide Canonical, UniqueNames, UniquePaths, IniFile, SameElsewhere, IsStamp, Witness, FileOf, ArchiveCut, BackedUp,
      OwnMention, PathTaken, Fresh, Bak;
    if !out.Refused? {
      var id := IdOf(w.table.rows, host, name);
      var row := w.table.rows[id];
      var fs := w.disks[host];
      assert Fresh(fs, row.path, stamp);
      RowPath(w.table, id);
      OnlyPath(w.table, id);
      WitnessMeans(w.disks, row);
      if out.Done? {
        var fs' := BackedUp(fs, row.path, stamp) - {row.path};
        IsArchiveCut(fs, row.path, stamp);
        UpdateFrame(fs, fs', row.path, row.path, "", stamp);
        SetByNameTouchesOne(w.table, id, true, Runtime("STOPPED", None, None));
        OthersWitnessed(w, id, host, fs', row.path, row.path, {stamp});
        if row.port.Some? { ArchivedMentions(fs, row.path, stamp, row.port.value); }
        BackupIsWitness(w'.disks, w'.table.rows[id]);
      } else {
        var fs' :| ArchiveCut(fs, fs', row.path, stamp) && w'.disks == w.disks[host := fs'];
        UpdateFrame(fs, fs', row.path, row.path, "", stamp);
        if row.port.Some? { UpdateKeepsOwn(fs, fs', row.path, row.path, "", stamp, row.port.value); }
        assert !PathTaken(w.table.rows, host, row.path, id) by { OwnPathIsFree(w.table, id); }
        FilesKeepWitness(w, w', id, fs', row.path, {stamp});
      }
    }
  }

  lemma OwnPathIsFree(t: Table, id: int)
    requires ValidTable(t) && id in t.rows
    ensures !PathTaken(t.rows, t.rows[id].host, t.rows[id].path, id)
  {
  }

  lemma IsArchiveCut(fs: FileMap, path: string, stamp: string)
    requires path in fs
    ensures ArchiveCut(fs, BackedUp(fs, path, stamp) - {path}, path, stamp)
  {
  }

  lemma ArchivedMentions(fs: FileMap, path: string, stamp: string, port: int)
    requires IniFile(path) && path in fs && Fresh(fs, path, stamp) && OwnMention(fs, path, port)
    ensures BackupMentions(BackedUp(fs, path, stamp) - {path}, path, port)
  {
    hide Mentions, BackupMentions, IniFile, FileOf, Bak;
    BackupCollects(fs, path, stamp, port);
    var b := BackedUp(fs, path, stamp);
    LiveKeepsBackups(b, b - {path}, path, path, path, port);
  }

  lemma RestoreKeepsWitness(w: World, w': World, host: string, name: string, stamp: string, out: Outcome)
    requires ValidTable(w.table) && AllWitnessed(w) && RestoreStep(w, w', host, name, stamp, out) && IsStamp(stamp)
    ensures AllWitnessed(w')
  {
    hide Canonical, UniqueNames, UniquePaths, IniFile, SameElsewhere, IsStamp, Witness, FileOf, RestoreCut, Restored,
      OwnMention, Fresh, Bak, BackupMentions;
    if !out.Refused? {
      var id := IdOf(w.table.rows, host, name);
      var row := w.table.rows[id];
      var fs := w.disks[host];
      RowPath(w.table, id);
      OnlyPath(w.table, id);
      IsRestoreCut(fs, row.path, stamp);
      WitnessMeans(w.disks, row);
      var fs' :| RestoreCut(fs, fs', row.path, stamp) && w'.disks == w.disks[host := fs'];
      RestoreFrame(fs, fs', row.path, stamp);
      OthersWitnessed(w, id, host, fs', row.path, row.path, {stamp});
      if row.port.Some? { RestoreKeepsBackups(fs, fs', row.path, stamp, row.port.value); }
      if out.Done? {
        var rt :| w'.table == SetByName(w.table, host, name, false, rt);
        SetByNameTouchesOne(w.table, id, false, rt);
      }
      BackupIsWitness(w'.disks, w'.table.rows[id]);
    }
  }

  lemma DeleteKeepsWitness(w: World, w': World, host: string, name: string, gone: set<string>, out: Outcome)
    requires ValidTable(w.table) && AllWitnessed(w) && DeleteStep(w, w', host, name, gone, out)
    ensures AllWitnessed(w')
  {
    hide Canonical, UniqueNames, UniquePaths, IniFile, Witness;
    if !out.Refused? {
      var id := IdOf(w.table.rows, host, name);
      var row := w.table.rows[id];
      RowPath(w.table, id);
      OnlyPath(w.table, id);
      OthersWitnessed(w, id, host, w.disks[host] - gone, row.path, row.path, {});
    }
  }

  // ---------------------------------------------------------------- one step

  /** Runs without import commits, and without refreshes that rewrite a port from what sync read. */
  ghost predicate Quiet(w: World, e: Event, w': World) {
    !e.ImportCommit?
    && (e.Refresh? ==> forall id :: id in w.table.rows && id in w'.table.rows ==>
                         w'.table.rows[id].port == w.table.rows[id].port)
  }

  lemma RefreshKeepsWitness(w: World, w': World)
    requires AllWitnessed(w) && RefreshStep(w, w') && Quiet(w, Refresh, w')
    ensures AllWitnessed(w')
  {
    hide Mentions, BackupMentions;
    forall id | id in w'.table.rows ensures Witness(w'.disks, w'.table.rows[id]) {
      assert Witness(w.disks, w.table.rows[id]);
    }
  }

  /** Every row's port keeps standing in its own scanned files, wherever a request stops. */
  lemma StepKeepsWitness(w: World, e: Event, w': World)
    requires ValidTable(w.table) && AllWitnessed(w) && Step(w, e, w') && Quiet(w, e, w')
    requires StampsOk(e) && FreshBackup(w, e)
    ensures AllWitnessed(w')
  {
    hide AllWitnessed, ValidTable, CreateStep, UpdateStep, ArchiveStep, RestoreStep, DeleteStep, CommitStep, RefreshStep,
      RotatesFreely, IsStamp;
    match e
    case Create(host, f, out) => CreateKeepsWitness(w, w', host, f, out);
    case Update(host, name, f, stamp, stamp2, out) => UpdateKeepsWitness(w, w', host, name, f, stamp, stamp2, out);
    case Archive(host, name, stamp, out) => ArchiveKeepsWitness(w, w', host, name, stamp, out);
    case Restore(host, name, stamp, out) => RestoreKeepsWitness(w, w', host, name, stamp, out);
    case Delete(host, name, gone, out) => DeleteKeepsWitness(w, w', host, name, gone, out);
    case Refresh => RefreshKeepsWitness(w, w');
    case ImportCommit(drafts, out) =>
  }

  /** The update that brings a second row with the same port: see `Shadowed`. */
  ghost predicate ShadowedUpdate(w: World, e: Event) {
    e.Update? && e.out.Done? && Registered(w.table.rows, e.host, e.name)
    && Shadowed(w.table.rows, IdOf(w.table.rows, e.host, e.name), e.fields.port)
  }

  lemma PortAdded(rows: Rows, id: int, r: Row)
    requires UniquePorts(rows)
    ensures UniquePorts(rows[id := r]) <==> forall i :: i in rows && i != id ==> !SamePort(r, rows[i])
  {
    var rows' := rows[id := r];
    if UniquePorts(rows') {
      forall i | i in rows && i != id ensures !SamePort(r, rows[i]) {
        assert SamePort(rows'[id], rows'[i]) ==> id == i;
      }
    }
  }

  lemma CreatePorts(w: World, w': World, host: string, f: Fields, out: Outcome)
    requires ValidTable(w.table) && AllWitnessed(w) && UniquePorts(w.table.rows) && CreateStep(w, w', host, f, out)
    ensures UniquePorts(w'.table.rows)
  {
    hide Canonical, RenderService, Witness, UniqueNames, UniquePaths, UniquePorts, ScanConflict, NoConflict;
    if out.Done? {
      var r := RenderService(f).value;
      var row := NewRow(RequestDraft(host, f, r, r.configName));
      PortAdded(w.table.rows, w.table.next, row);
      forall i | i in w.table.rows && i != w.table.next ensures !SamePort(row, w.table.rows[i]) {
        CreatePortIsNew(w, host, f, i);
      }
    }
  }

  lemma UpdatePorts(w: World, w': World, host: string, name: string, f: Fields, stamp: string, stamp2: string, out: Outcome)
    requires ValidTable(w.table) && AllWitnessed(w) && UniquePorts(w.table.rows)
    requires UpdateStep(w, w', host, name, f, stamp, stamp2, out)
    ensures UniquePorts(w'.table.rows) <==> !ShadowedUpdate(w, Update(host, name, f, stamp, stamp2, out))
  {
    hide Canonical, RenderService, Witness, UniqueNames, UniquePaths, UniquePorts, ScanConflict, TargetPath, UpdateCut,
      UndoCut, Updated, Undone, IniFile, UpdatedRow, NoConflict, Bak;
    if out.Done? {
      var id := IdOf(w.table.rows, host, name);
      var row := w.table.rows[id];
      var r := RenderService(f).value;
      var target := TargetPath(row.path, r.configName);
      var d := RequestDraft(host, f, r, target);
      UpdatedRowKeeps(row, d, w.disks[host][row.path]);
      var row' := w'.table.rows[id];
      PortAdded(w.table.rows, id, row');
      forall i | i in w.table.rows && i != id && SamePort(row', w.table.rows[i])
        ensures w.table.rows[i].archived && Bak(row.path) <= w.table.rows[i].path
      {
        UpdateDuplicateIsShadowed(w, host, id, f, target, i);
      }
    }
  }

  lemma FlagPorts(rows: Rows, rows': Rows)
    requires UniquePorts(rows) && rows'.Keys <= rows.Keys
    requires forall i :: i in rows' ==> rows'[i].host == rows[i].host && rows'[i].port == rows[i].port
    ensures UniquePorts(rows')
  {
    forall i, j | i in rows' && j in rows' && SamePort(rows'[i], rows'[j]) ensures i == j {
      assert SamePort(rows[i], rows[j]);
    }
  }

  /** One request on a registry of distinct ports leaves them distinct exactly when it is not a successful
      update whose new port belongs to an archived row at a path extending its own path + ".bak". */
  lemma StepPorts(w: World, e: Event, w': World)
    requires ValidTable(w.table) && AllWitnessed(w) && UniquePorts(w.table.rows) && Step(w, e, w') && Quiet(w, e, w')
    ensures UniquePorts(w'.table.rows) <==> !ShadowedUpdate(w, e)
  {
    hide AllWitnessed, ValidTable, CreateStep, UpdateStep, UniquePorts, Shadowed, ArchiveCut, RestoreCut;
    match e
    case Create(host, f, out) => CreatePorts(w, w', host, f, out);
    case Update(host, name, f, stamp, stamp2, out) => UpdatePorts(w, w', host, name, f, stamp, stamp2, out);
    case ImportCommit(drafts, out) =>
    case _ =>
      SamePorts(w, e, w');
      FlagPorts(w.table.rows, w'.table.rows);
  }

  /** The other events bring no row and change no port. */
  lemma SamePorts(w: World, e: Event, w': World)
    requires Step(w, e, w') && Quiet(w, e, w') && !e.Create? && !e.Update?
    ensures w'.table.rows.Keys <= w.table.rows.Keys
    ensures forall i :: i in w'.table.rows ==>
              w'.table.rows[i].host == w.table.rows[i].host && w'.table.rows[i].port == w.table.rows[i].port
  {
    hide CreateStep, UpdateStep, ArchiveCut, RestoreCut, BackedUp, Restored, HostOk, Bak;
  }

  // ---------------------------------------------------------------- every run

  /** A run of requests, one at a time. Rotation stamps may collide. */
  ghost predicate Run(ws: seq<World>, es: seq<Event>) {
    |ws| == |es| + 1
    && forall i :: 0 <= i < |es| ==> Step(ws[i], es[i], ws[i + 1]) && StampsOk(es[i])
  }

  /** No service is backed up twice within one second. */
  ghost predicate FreshBackups(ws: seq<World>, es: seq<Event>) {
    |ws| == |es| + 1 && forall i :: 0 <= i < |es| ==> FreshBackup(ws[i], es[i])
  }

  /** Over every run: unique ids, unique (host, configPath) and (host, contentProgramName), normal paths, and
      archived rows that hold their bytes. */
  lemma {:induction false} RunKeepsInv(ws: seq<World>, es: seq<Event>, n: nat)
    requires Run(ws, es) && Inv(ws[0]) && n < |ws|
    ensures Inv(ws[n])
  {
    hide Inv, Step, StampsOk;
    if n > 0 {
      RunKeepsInv(ws, es, n - 1);
      StepKeepsInv(ws[n - 1], es[n - 1], ws[n]);
    }
  }

  lemma {:induction false} RunKeepsWitness(ws: seq<World>, es: seq<Event>, n: nat)
    requires Run(ws, es) && Inv(ws[0]) && AllWitnessed(ws[0]) && n < |ws|
    requires FreshBackups(ws, es) && forall i :: 0 <= i < |es| ==> Quiet(ws[i], es[i], ws[i + 1])
    ensures Inv(ws[n]) && AllWitnessed(ws[n])
  {
    hide AllWitnessed, ValidTable, AllHeld, Step, StampsOk, FreshBackup, Quiet;
    RunKeepsInv(ws, es, n);
    if n > 0 {
      RunKeepsWitness(ws, es, n - 1);
      StepKeepsWitness(ws[n - 1], es[n - 1], ws[n]);
    }
  }

  lemma {:induction false} PortsUpTo(ws: seq<World>, es: seq<Event>, n: nat)
    requires Run(ws, es) && Inv(ws[0]) && AllWitnessed(ws[0]) && UniquePorts(ws[0].table.rows) && n < |ws|
    requires FreshBackups(ws, es) && forall i :: 0 <= i < |es| ==> Quiet(ws[i], es[i], ws[i + 1])
    ensures (forall i :: 0 <= i <= n ==> UniquePorts(ws[i].table.rows)) <==>
            (forall i :: 0 <= i < n ==> !ShadowedUpdate(ws[i], es[i]))
  {
    hide AllWitnessed, ValidTable, AllHeld, Step, StampsOk, FreshBackup, Quiet, UniquePorts, ShadowedUpdate;
    if n > 0 {
      PortsUpTo(ws, es, n - 1);
      RunKeepsWitness(ws, es, n - 1);
      if UniquePorts(ws[n - 1].table.rows) { StepPorts(ws[n - 1], es[n - 1], ws[n]); }
    }
  }

  /** In every run of create, update, archive, restore, delete and status refreshes, with any call failing
      anywhere, all rows of a host, archived or not, have distinct ports in every state, exactly when no step
      is a shadowed update. */
  lemma PortsUniqueOverRuns(ws: seq<World>, es: seq<Event>)
    requires Run(ws, es) && Inv(ws[0]) && AllWitnessed(ws[0]) && UniquePorts(ws[0].table.rows)
    requires FreshBackups(ws, es) && forall i :: 0 <= i < |es| ==> Quiet(ws[i], es[i], ws[i + 1])
    ensures (forall i :: 0 <= i < |ws| ==> UniquePorts(ws[i].table.rows)) <==>
            (forall i :: 0 <= i < |es| ==> !ShadowedUpdate(ws[i], es[i]))
  {
    hide AllWitnessed, ValidTable, AllHeld, Step, StampsOk, FreshBackup, Quiet, UniquePorts, ShadowedUpdate;
    PortsUpTo(ws, es, |es|);
  }

  /** An empty registry meets every starting condition. */
  lemma EmptyRegistryStarts(disks: map<string, FileMap>)
    ensures var w := World(disks, Table(map[], 1), map[]);
            Inv(w) && AllWitnessed(w) && UniquePorts(w.table.rows)
  {
  }

  /** No registered path extends another's path + ".bak": then no update is ever shadowed. */
  ghost predicate PathsApart(rows: Rows) {
    forall i, j :: i in rows && j in rows && rows[i].host == rows[j].host ==> !(Bak(rows[i].path) <= rows[j].path)
  }

  lemma ApartIsNeverShadowed(ws: seq<World>, es: seq<Event>)
    requires Run(ws, es) && Inv(ws[0]) && AllWitnessed(ws[0]) && UniquePorts(ws[0].table.rows)
    requires FreshBackups(ws, es) && forall i :: 0 <= i < |es| ==> Quiet(ws[i], es[i], ws[i + 1])
    requires forall i :: 0 <= i < |ws| ==> PathsApart(ws[i].table.rows)
    ensures forall i :: 0 <= i < |ws| ==> UniquePorts(ws[i].table.rows)
  {
    hide AllWitnessed, ValidTable, AllHeld, Step, StampsOk, FreshBackup, Quiet, UniquePorts;
    forall i | 0 <= i < |es| ensures !ShadowedUpdate(ws[i], es[i]) {
      assert PathsApart(ws[i].table.rows);
    }
    PortsUniqueOverRuns(ws, es);
  }
}
