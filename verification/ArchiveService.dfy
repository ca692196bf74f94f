/** app/services/supervisor_archive_service.py: archive and restore, step by step. */
module ArchiveService {
  import opened Text
  import opened PathNames
  import opened Files
  import opened Registry
  import opened Lifecycle
  import opened Sites
  import opened RegistryService
  import opened Guards
  import opened MutationService
  import Runs
  import Outcomes
  import ConfigFileService

  /** The row a request by name means. */
  ghost function RowOf(w: World, host: string, name: string): Row
    requires Registered(w.table.rows, host, Strip(name))
  {
    w.table.rows[IdOf(w.table.rows, host, Strip(name))]
  }

  /** The host-side steps of an archive. */
  method TakeDown(site: Site, host: string, path: string, stamp: string) returns (ok: bool)
    requires host in site.disks && Canonical(path)
    modifies site`disks
    ensures host in site.disks && site.disks == old(site.disks)[host := site.disks[host]]
    ensures ArchiveCut(old(site.disks)[host], site.disks[host], path, stamp)
    ensures ok ==> path in old(site.disks)[host]
                   && site.disks[host] == BackedUp(old(site.disks)[host], path, stamp) - {path}
    ensures site.reliable && path in old(site.disks)[host] ==> ok
  {
    hide NormalizeConfigPath, BackedUp, Rotated;
    SameFiles(site.disks, host);
    var stopped := site.Command();
    if !stopped { return false; }
    var backup := ConfigFileService.BackupByConfigPath(site, host, path, stamp);
    if backup.Err? { return false; }
    ConfigFileService.LiveStays(old(site.disks)[host], path, stamp);
    var deleted := ConfigFileService.DeleteByConfigPath(site, host, path);
    if deleted.Err? { return false; }
    var reread := site.Command();
    if !reread { return false; }
    ok := site.Command();
  }

  /** `archive_service`. The history variable records the bytes the config file had. When no call fails, an
      unarchived service is archived exactly if its config file exists. */
  method ArchiveService(site: Site, host: string, name: string, stamp: string) returns (out: Outcome)
    requires ValidTable(site.table) && IsStamp(stamp)
    modifies site`disks, site`table, site`snaps
    ensures ArchiveStep(old(site.World()), site.World(), Strip(host), Strip(name), stamp, out)
    ensures out.Refused? && site.Verdict(out.error) ==> !Movable(old(site.World()), Strip(host), name, false)
    ensures site.reliable && Movable(old(site.World()), Strip(host), name, false) ==>
              (out.Done? <==> RowOf(old(site.World()), Strip(host), name).path in old(site.disks)[Strip(host)])
    ensures site.reliable ==>
              forall id :: Addressed(old(site.World()), Strip(host), name, id) ==>
                (out.Done? <==> !old(site.table.rows)[id].archived
                                && old(site.table.rows)[id].path in old(site.disks)[Strip(host)])
    ensures out.Done? ==>
              forall id :: id in old(site.table.rows) && Named(old(site.table.rows)[id], Strip(host), Strip(name)) ==>
                Outcomes.ArchiveShows(old(site.World()), site.World(), Strip(host), id, stamp)
  {
    hide EnsureSafeHost, EnsureSafeName, Canonical, Strip, ValidTable, NameTaken, ArchiveCut, BackedUp, SetByName, Addressed;
    RowsAreMovable(site.World(), Strip(host), name);
    var loaded := LoadRecord(site, host, name, false);
    if loaded.Err? { return Refused(loaded.error); }
    var id, h := loaded.value, Strip(host);
    var row := site.table.rows[id];
    Runs.RowPath(site.table, id);
    ghost var fs := site.disks[h];
    var down := TakeDown(site, h, row.path, stamp);
    if !down { return Aborted; }
    var marked := Mark(site, h, row.name, true, Runtime("STOPPED", None, None));
    if marked.Err? { return Aborted; }
    site.snaps := site.snaps[id := fs[row.path]];
    ArchiveEnds(old(site.World()), site.World(), h, Strip(name), stamp);
    return Done;
  }

  /** `restore_service`. When no call fails, an archived service is restored exactly if its `.bak` exists. */
  method RestoreService(site: Site, host: string, name: string, stamp: string) returns (out: Outcome, read: Reading<Runtime>)
    requires ValidTable(site.table) && IsStamp(stamp)
    modifies site`disks, site`table
    ensures RestoreStep(old(site.World()), site.World(), Strip(host), Strip(name), stamp, out)
    ensures out.Refused? && site.Verdict(out.error) ==> !Movable(old(site.World()), Strip(host), name, true)
    ensures site.reliable && Movable(old(site.World()), Strip(host), name, true) ==>
              (out.Done? <==> Bak(RowOf(old(site.World()), Strip(host), name).path) in old(site.disks)[Strip(host)])
    ensures site.reliable ==>
              forall id :: Addressed(old(site.World()), Strip(host), name, id) ==>
                (out.Done? <==> old(site.table.rows)[id].archived
                                && old(site.table.rows)[id].path + ".bak" in old(site.disks)[Strip(host)])
    ensures out.Done? ==>
              forall id :: id in old(site.table.rows) && Named(old(site.table.rows)[id], Strip(host), Strip(name)) ==>
                Outcomes.RestoreShows(old(site.World()), site.World(), Strip(host), id, stamp)
                && site.table.rows[id].runtime == SnapshotOf(read)
  {
    hide EnsureSafeHost, EnsureSafeName, NormalizeConfigPath, Strip, ValidTable, NameTaken, RestoreCut, Restored, SetByName, Addressed;
    RowsAreMovable(site.World(), Strip(host), name);
    var loaded := LoadRecord(site, host, name, true);
    if loaded.Err? { return Refused(loaded.error), Missing; }
    var id, h := loaded.value, Strip(host);
    var row := site.table.rows[id];
    Runs.RowPath(site.table, id);
    var restored := ConfigFileService.RestoreByConfigPath(site, h, row.path, stamp);
    if restored.Err? { return Aborted, Missing; }
    var reread := site.Command();
    if !reread { return Aborted, Missing; }
    var update := site.Command();
    if !update { return Aborted, Missing; }
    var runtime;
    runtime, read := QueryRuntime(site);
    var marked := Mark(site, h, row.name, false, runtime);
    if marked.Err? { return Aborted, Missing; }
    RestoreEnds(old(site.World()), site.World(), h, Strip(name), stamp);
    ValidIsKeyed(old(site.table));
    SetByNameTouchesOne(old(site.table), id, false, runtime);
    return Done, read;
  }

  lemma ArchiveEnds(w: World, w': World, host: string, name: string, stamp: string)
    requires ValidTable(w.table) && ArchiveStep(w, w', host, name, stamp, Done) && IsStamp(stamp)
    ensures forall id :: id in w.table.rows && Named(w.table.rows[id], host, name) ==>
              Outcomes.ArchiveShows(w, w', host, id, stamp)
  {
    hide ArchiveStep, ValidTable, Outcomes.ArchiveShows;
    forall id | id in w.table.rows && Named(w.table.rows[id], host, name) ensures Outcomes.ArchiveShows(w, w', host, id, stamp) {
      Outcomes.ArchiveShown(w, w', host, name, stamp, id);
    }
  }

  lemma RestoreEnds(w: World, w': World, host: string, name: string, stamp: string)
    requires ValidTable(w.table) && RestoreStep(w, w', host, name, stamp, Done) && IsStamp(stamp)
    ensures forall id :: id in w.table.rows && Named(w.table.rows[id], host, name) ==>
              Outcomes.RestoreShows(w, w', host, id, stamp)
  {
    hide RestoreStep, ValidTable, Outcomes.RestoreShows;
    forall id | id in w.table.rows && Named(w.table.rows[id], host, name) ensures Outcomes.RestoreShows(w, w', host, id, stamp) {
      Outcomes.RestoreShown(w, w', host, name, stamp, id);
    }
  }
}
