/** The mutable environment the stateless services work on: the files of every host and the database tables.
    The remote calls of app/executor/base.py and the single-row writes of the repositories may each fail;
    a failed call has no effect. */
module Sites {
  import opened Text
  import opened Files
  import opened Registry
  import PortCheck
  import Staging
  import Lifecycle
  import PathNames

  /** The outcome of one remote read: it failed with a message, found nothing, or found a value. */
  datatype Reading<T> = Failed(message: string) | Missing | Found(value: T)

  predicate IsConfig(f: string, includeBackups: bool) {
    if includeBackups then PortCheck.Listed(f) else EndsWith(PathNames.Basename(f), ".ini")
  }

  class Site {
    var disks: map<string, FileMap>
    var table: Table
    var staging: seq<Staging.StagedRow>
    ghost var snaps: map<int, string>

    /** On a reliable site no call fails that has what it needs; on any other every call may. */
    const reliable: bool

    constructor (disks: map<string, FileMap>, reliable: bool)
      ensures this.disks == disks && table == Table(map[], 1) && staging == [] && snaps == map[]
      ensures this.reliable == reliable
    {
      this.reliable := reliable;
      this.disks := disks;
      table := Table(map[], 1);
      staging := [];
      snaps := map[];
    }

    ghost function World(): Lifecycle.World
      reads this
    {
      Lifecycle.World(disks, table, snaps)
    }

    /** The error is the answer of a check and not that of a failed call. */
    predicate Verdict(e: Error) { reliable || !Fault(e) }

    /** Whether a call goes through. */
    method Attempt() returns (ok: bool)
      ensures reliable ==> ok
    {
      ok := true;
      if !reliable { ok := *; }
    }

    // -------------------------------------------------------------- executor

    method PathExists(host: string, path: string) returns (r: Result<bool>)
      requires host in disks
      ensures r.Ok? ==> r.value == (path in disks[host])
      ensures r.Err? ==> r.error == FileOperation && !reliable
    {
      var ok := Attempt();
      if !ok { return Err(FileOperation); }
      r := Ok(path in disks[host]);
    }

    method ReadText(host: string, path: string) returns (r: Result<string>)
      requires host in disks
      ensures r.Ok? ==> path in disks[host] && r.value == disks[host][path]
      ensures r.Err? ==> r.error == FileOperation && (reliable ==> path !in disks[host])
    {
      var ok := Attempt();
      if !ok { return Err(FileOperation); }
      if path !in disks[host] { return Err(FileOperation); }
      r := Ok(disks[host][path]);
    }

    method WriteText(host: string, path: string, content: string) returns (ok: bool)
      requires host in disks
      modifies `disks
      ensures disks == if ok then old(disks)[host := old(disks)[host][path := content]] else old(disks)
      ensures reliable ==> ok
    {
      ok := Attempt();
      if !ok { return; }
      disks := disks[host := disks[host][path := content]];
    }

    method MoveFile(host: string, source: string, target: string) returns (ok: bool)
      requires host in disks
      modifies `disks
      ensures ok ==> source in old(disks)[host]
      ensures reliable && source in old(disks)[host] ==> ok
      ensures disks == if ok
                       then old(disks)[host := (old(disks)[host] - {source})[target := old(disks)[host][source]]]
                       else old(disks)
    {
      ok := Attempt();
      if !ok { return; }
      if source !in disks[host] { return false; }
      var fs := disks[host];
      disks := disks[host := (fs - {source})[target := fs[source]]];
    }

    method CopyFile(host: string, source: string, target: string) returns (ok: bool)
      requires host in disks
      modifies `disks
      ensures ok ==> source in old(disks)[host]
      ensures reliable && source in old(disks)[host] ==> ok
      ensures disks == if ok then old(disks)[host := old(disks)[host][target := old(disks)[host][source]]] else old(disks)
    {
      ok := Attempt();
      if !ok { return; }
      if source !in disks[host] { return false; }
      disks := disks[host := disks[host][target := disks[host][source]]];
    }

    method RemoveFile(host: string, path: string, missingOk: bool) returns (ok: bool)
      requires host in disks
      modifies `disks
      ensures disks == if ok then old(disks)[host := old(disks)[host] - {path}] else old(disks)
      ensures ok && !missingOk ==> path in old(disks)[host]
      ensures reliable && (missingOk || path in old(disks)[host]) ==> ok
    {
      ok := Attempt();
      if !ok { return; }
      if path !in disks[host] && !missingOk { return false; }
      disks := disks[host := disks[host] - {path}];
    }

    /** The listing globs, below every sub-directory; its order is the executor's. With backups a file that
        meets two globs is listed twice. */
    method ListConfigs(host: string, includeBackups: bool) returns (r: Result<seq<string>>)
      requires host in disks
      ensures r.Ok? ==> forall f :: f in r.value <==> f in disks[host] && IsConfig(f, includeBackups)
      ensures r.Ok? && !includeBackups ==> forall i, j :: 0 <= i < j < |r.value| ==> r.value[i] != r.value[j]
      ensures r.Err? ==> r.error == FileOperation && !reliable
    {
      var ok := Attempt();
      if !ok { return Err(FileOperation); }
      var paths: seq<string> := [];
      hide EndsWith, Contains, PathNames.Basename;
      var rest := disks[host].Keys;
      while rest != {}
        invariant rest <= disks[host].Keys
        invariant forall f :: f in paths <==> f in disks[host] && f !in rest && IsConfig(f, includeBackups)
        invariant !includeBackups ==> forall i, j :: 0 <= i < j < |paths| ==> paths[i] != paths[j]
      {
        var f :| f in rest;
        rest := rest - {f};
        var base := PathNames.Basename(f);
        if EndsWith(base, ".ini") { paths := paths + [f]; }
        if includeBackups && EndsWith(base, ".ini.bak") { paths := paths + [f]; }
        if includeBackups && Contains(base, ".ini.bak.") { paths := paths + [f]; }
      }
      r := Ok(paths);
    }

    /** A supervisorctl or `ss` call: it changes neither files nor tables, and it may fail. */
    method Command() returns (ok: bool)
      ensures reliable ==> ok
    {
      ok := Attempt();
    }

    /** The first entry of supervisorctl's status list, if the call goes through and lists one. */
    method ReadStatus() returns (read: Reading<Runtime>)
      ensures reliable ==> !read.Failed?
    {
      var ok := Attempt();
      var message: string := *;
      if !ok { return Failed(message); }
      var listed: bool := *;
      if !listed { return Missing; }
      var entry: Runtime := *;
      read := Found(entry);
    }

    /** Whether a database statement goes through. */
    method Statement() returns (ok: bool)
      ensures reliable ==> ok
    {
      ok := Attempt();
    }
  }
}
