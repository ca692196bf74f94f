/** The lifecycle of services over two stores: the file maps of the hosts and the registry table.
    Every request is a relation between the state before and the state after that allows the request to stop
    at any failed call; app/services/supervisor_mutation_service.py and supervisor_archive_service.py. */
module Lifecycle {
  import opened Text
  import opened PathNames
  import opened Template
  import opened Files
  import opened PortCheck
  import opened Registry
  import Commit

  /** Hosts' files, the registry, and a history variable no operation reads: the bytes the config file of a
      row held when the row was last archived. */
  datatype World = World(disks: map<string, FileMap>, table: Table, snaps: map<int, string>)

  /** Refused: a check said no before the first change. Aborted: a call failed on the way and nothing was
      compensated. Compensated: the database write failed and the rollback ran, completely or not. */
  datatype Outcome = Done | Refused(error: Error) | Aborted | Compensated(complete: bool)

  predicate HostOk(w: World, host: string) { host in w.disks && EnsureSafeHost(host) == Ok(host) }

  function SetFiles(w: World, host: string, fs: FileMap): World { w.(disks := w.disks[host := fs]) }

  // ---------------------------------------------------------------- requests

  /** `_build_registry_data` */
  function RequestDraft(host: string, f: Fields, r: Rendered, path: string): Draft {
    var jar := if f.jar != "" then f.jar else Strip(f.moduleName) + ".jar";
    Draft(host, path, r.configName, r.name, TemplateManaged, r.content, true, [], Some(f.port),
          Meta(Some(f.job), Some(f.moduleName), Some(f.javaPath), Some(f.active), Some(jar),
               Some(f.xms), Some(f.xmx), Some(f.user)))
  }

  ghost predicate Registered(rows: Rows, host: string, name: string) { NameTaken(rows, host, name, 0) }

  ghost function IdOf(rows: Rows, host: string, name: string): (id: int)
    requires Registered(rows, host, name)
    ensures id in rows && rows[id].host == host && rows[id].name == name
  {
    var id :| id in rows && id != 0 && rows[id].host == host && rows[id].name == name;
    id
  }

  /** Every check of a create request passes; `f` are the request's fields. */
  ghost predicate CreateGuard(w: World, host: string, f: Fields) {
    && HostOk(w, host) && RenderService(f).Ok?
    && var r := RenderService(f).value;
       NoConflict(w.table.rows, RequestDraft(host, f, r, r.configName), 0)
       && r.configName !in w.disks[host]
       && !ScanConflict(w.disks[host], f.port, None)
  }

  ghost predicate CreateStep(w: World, w': World, host: string, f: Fields, out: Outcome) {
    (out.Refused? ==> w' == w)
    && (!out.Refused? ==>
          CreateGuard(w, host, f)
          && var r := RenderService(f).value;
             var fs := w.disks[host];
             var written := SetFiles(w, host, fs[r.configName := r.content]);
             match out
             case Aborted => w' == w || w' == written
             case Compensated(complete) => w' == if complete then w else written
             case Done => w' == written.(table := Insert(w.table, NewRow(RequestDraft(host, f, r, r.configName))))
             case Refused(_) => true)
  }

  /** Every check of an update of row `id` passes, with `target` the path the new text goes to. */
  ghost predicate UpdateGuard(w: World, host: string, id: int, f: Fields, target: string) {
    && HostOk(w, host) && id in w.table.rows && RenderService(f).Ok?
    && var row := w.table.rows[id];
       var r := RenderService(f).value;
       row.host == host && !row.archived && row.path in w.disks[host]
       && target == TargetPath(row.path, r.configName)
       && NoConflict(w.table.rows, RequestDraft(host, f, r, target), id)
       && (target == row.path || target !in w.disks[host])
       && !ScanConflict(w.disks[host], f.port, Some(row.path))
  }

  /** The row an update writes: the request's columns and the site as just written. */
  function UpdatedRow(row: Row, d: Draft, runtime: Runtime, current: string): Row {
    var o := if Parse(d.baseline).Ok? then Parse(d.baseline).value.options else map[];
    Overwritten(row, d).(
      runtime := runtime,
      detail := Detail(Lookup(o, "command"), Lookup(o, "directory"), Lookup(o, "stdout_logfile"), true,
                       Some(d.baseline), Some(current), "SUCCESS", None))
  }

  ghost predicate UpdateStep(
    w: World, w': World, host: string, name: string, f: Fields, stamp: string, stamp2: string, out: Outcome)
  {
    (out.Refused? ==> w' == w)
    && (!out.Refused? ==>
          Registered(w.table.rows, host, name)
          && var id := IdOf(w.table.rows, host, name);
             RenderService(f).Ok?
             && var row := w.table.rows[id];
                var r := RenderService(f).value;
                var target := TargetPath(row.path, r.configName);
                UpdateGuard(w, host, id, f, target)
                && var fs := w.disks[host];
                   var done := Updated(fs, row.path, target, r.content, stamp);
                   match out
                   case Aborted =>
                     w'.table == w.table && w'.snaps == w.snaps
                     && exists fs' :: UpdateCut(fs, fs', row.path, target, r.content, stamp)
                                      && w'.disks == w.disks[host := fs']
                   case Compensated(complete) =>
                     w'.table == w.table && w'.snaps == w.snaps
                     && exists fs' :: UndoCut(done, fs', row.path, target, stamp2)
                                      && w'.disks == w.disks[host := fs']
                                      && (complete ==> Bak(row.path) in done && Bak(row.path) != target
                                                       && fs' == Undone(done, row.path, target, stamp2))
                   case Done =>
                     w'.snaps == w.snaps && w'.disks == w.disks[host := done]
                     && exists rt ::
                       w'.table == Replace(w.table, id,
                                           UpdatedRow(row, RequestDraft(host, f, r, target), rt, fs[row.path]))
                   case Refused(_) => true)
  }

  ghost predicate ArchiveStep(w: World, w': World, host: string, name: string, stamp: string, out: Outcome) {
    (out.Refused? ==> w' == w)
    && (!out.Refused? ==>
          HostOk(w, host) && Registered(w.table.rows, host, name)
          && var id := IdOf(w.table.rows, host, name);
             var row := w.table.rows[id];
             var fs := w.disks[host];
             !row.archived
             && if out.Done? then
                  row.path in fs
                  && w' == World(w.disks[host := BackedUp(fs, row.path, stamp) - {row.path}],
                                 SetByName(w.table, host, name, true, Runtime("STOPPED", None, None)),
                                 w.snaps[id := fs[row.path]])
                else
                  w'.table == w.table && w'.snaps == w.snaps
                  && exists fs' :: ArchiveCut(fs, fs', row.path, stamp) && w'.disks == w.disks[host := fs'])
  }

  ghost predicate RestoreStep(w: World, w': World, host: string, name: string, stamp: string, out: Outcome) {
    (out.Refused? ==> w' == w)
    && (!out.Refused? ==>
          HostOk(w, host) && Registered(w.table.rows, host, name)
          && var id := IdOf(w.table.rows, host, name);
             var row := w.table.rows[id];
             var fs := w.disks[host];
             row.archived
             && if out.Done? then
                  Bak(row.path) in fs && w'.snaps == w.snaps
                  && w'.disks == w.disks[host := Restored(fs, row.path, stamp)]
                  && exists rt :: w'.table == SetByName(w.table, host, name, false, rt)
                else
                  w'.table == w.table && w'.snaps == w.snaps
                  && exists fs' :: RestoreCut(fs, fs', row.path, stamp) && w'.disks == w.disks[host := fs'])
  }

  /** Hard delete: the row goes first; of its two files some may resist. */
  ghost predicate DeleteStep(w: World, w': World, host: string, name: string, gone: set<string>, out: Outcome) {
    (out.Refused? ==> w' == w)
    && (!out.Refused? ==>
          HostOk(w, host) && Registered(w.table.rows, host, name)
          && var id := IdOf(w.table.rows, host, name);
             var row := w.table.rows[id];
             out.Done? && row.archived && gone <= {row.path, Bak(row.path)}
             && w' == World(w.disks[host := w.disks[host] - gone], Remove(w.table, id), w.snaps))
  }

  /** COMMIT of an import batch, whatever the shape of its paths. */
  ghost predicate AnyCommitStep(w: World, w': World, drafts: seq<Draft>, out: Outcome) {
    (out.Refused? ==> w' == w)
    && (!out.Refused? ==>
          out.Done? && Commit.Accepted(w.table, drafts) && w' == w.(table := Commit.Upserts(w.table, drafts)))
  }

  /** COMMIT of a batch whose paths the normaliser leaves alone. */
  ghost predicate CommitStep(w: World, w': World, drafts: seq<Draft>, out: Outcome) {
    AnyCommitStep(w, w', drafts, out) && (out.Done? ==> Commit.CanonicalDrafts(drafts))
  }

  /** Sync, status refresh and runtime actions: descriptive columns only. */
  ghost predicate RefreshStep(w: World, w': World) {
    && w'.disks == w.disks && w'.snaps == w.snaps && w'.table.next == w.table.next
    && w'.table.rows.Keys == w.table.rows.Keys
    && forall id :: id in w.table.rows ==> SameIdentity(w.table.rows[id], w'.table.rows[id])
  }

  predicate SameIdentity(r: Row, r': Row) {
    r'.host == r.host && r'.path == r.path && r'.name == r.name && r'.archived == r.archived && r'.mode == r.mode
  }

  datatype Event =
    | Create(host: string, fields: Fields, out: Outcome)
    | Update(host: string, name: string, fields: Fields, stamp: string, stamp2: string, out: Outcome)
    | Archive(host: string, name: string, stamp: string, out: Outcome)
    | Restore(host: string, name: string, stamp: string, out: Outcome)
    | Delete(host: string, name: string, gone: set<string>, out: Outcome)
    | ImportCommit(drafts: seq<Draft>, out: Outcome)
    | Refresh

  ghost predicate Step(w: World, e: Event, w': World) {
    match e
    case Create(host, f, out) => CreateStep(w, w', host, f, out)
    case Update(host, name, f, stamp, stamp2, out) => UpdateStep(w, w', host, name, f, stamp, stamp2, out)
    case Archive(host, name, stamp, out) => ArchiveStep(w, w', host, name, stamp, out)
    case Restore(host, name, stamp, out) => RestoreStep(w, w', host, name, stamp, out)
    case Delete(host, name, gone, out) => DeleteStep(w, w', host, name, gone, out)
    case ImportCommit(drafts, out) => CommitStep(w, w', drafts, out)
    case Refresh => RefreshStep(w, w')
  }

  /** The clock readings of an event are readings. */
  predicate StampsOk(e: Event) {
    match e
    case Update(_, _, _, stamp, stamp2, _) => IsStamp(stamp) && IsStamp(stamp2)
    case Archive(_, _, stamp, _) => IsStamp(stamp)
    case Restore(_, _, stamp, _) => IsStamp(stamp)
    case _ => true
  }

  /** The backup of the named service rotates onto no existing file. */
  ghost predicate RotatesFreely(w: World, host: string, name: string, stamp: string) {
    host in w.disks && Registered(w.table.rows, host, name) ==>
      Fresh(w.disks[host], w.table.rows[IdOf(w.table.rows, host, name)].path, stamp)
  }

  /** The restore of the named service sets its live file aside onto no existing file. */
  ghost predicate SetsAsideFreely(w: World, host: string, name: string, stamp: string) {
    host in w.disks && Registered(w.table.rows, host, name) ==>
      AsideFree(w.disks[host], w.table.rows[IdOf(w.table.rows, host, name)].path, stamp)
  }

  /** Rotation names have one-second granularity: this says that the service at hand has no earlier backup of
      the same second. */
  ghost predicate FreshBackup(w: World, e: Event) {
    match e
    case Update(host, name, _, stamp, _, _) => RotatesFreely(w, host, name, stamp)
    case Archive(host, name, stamp, _) => RotatesFreely(w, host, name, stamp)
    case _ => true
  }

  /** And no live file of it was set aside in the same second either. */
  ghost predicate FreshStamps(w: World, e: Event) {
    FreshBackup(w, e)
    && match e
       case Update(host, name, _, _, stamp2, _) => SetsAsideFreely(w, host, name, stamp2)
       case Restore(host, name, stamp, _) => SetsAsideFreely(w, host, name, stamp)
       case _ => true
  }
}
