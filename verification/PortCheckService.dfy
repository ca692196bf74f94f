/** app/services/port_check_service.py: the scan itself. */
module PortCheckService {
  import opened Text
  import opened PathNames
  import opened Template
  import opened Files
  import opened PortCheck
  import opened Sites

  datatype RawConfig = RawConfig(path: string, content: string)

  datatype Conflict = InFile(path: string) | Listening(port: int)

  /** `list_raw_configs`: one unreadable file fails the whole listing. */
  method ListRawConfigs(site: Site, host: string) returns (r: Result<seq<RawConfig>>)
    requires host in site.disks
    ensures r.Ok? ==> forall c :: c in r.value <==> c.path in site.disks[host] && Listed(c.path)
                                                    && c.content == site.disks[host][c.path]
    ensures r.Err? ==> r.error == FileOperation && !site.reliable
  {
    hide Listed, Basename, EndsWith;
    var paths :- site.ListConfigs(host, true);
    var result: seq<RawConfig> := [];
    for i := 0 to |paths|
      invariant forall c :: c in result <==> c.path in paths[..i] && c.path in site.disks[host]
                                             && c.content == site.disks[host][c.path]
    {
      assert paths[..i + 1] == paths[..i] + [paths[i]];
      var text := site.ReadText(host, paths[i]);
      if text.Err? { return Err(FileOperation); }
      result := result + [RawConfig(paths[i], text.value)];
    }
    assert paths[..|paths|] == paths;
    r := Ok(result);
  }

  /** `find_conflicts`; `listening` are the ports that `ss -lnutp` shows. */
  method FindConflicts(site: Site, host: string, port: int, exclude: Option<string>, listening: set<int>, runtime: bool)
    returns (r: Result<seq<Conflict>>)
    requires host in site.disks
    ensures r.Ok? ==> forall f :: InFile(f) in r.value <==> Hit(site.disks[host], f, port, exclude)
    ensures r.Ok? ==> forall p :: Listening(p) in r.value <==> runtime && p == port && port in listening
    ensures r.Err? ==> (r.error == FileOperation || r.error == RemoteCommand) && !site.reliable
  {
    hide Listed, Skipped, Mentions;
    var configs :- ListRawConfigs(site, host);
    var conflicts: seq<Conflict> := [];
    for i := 0 to |configs|
      invariant forall x :: x in conflicts ==> x.InFile?
      invariant forall f :: InFile(f) in conflicts
                            <==> exists c :: c in configs[..i] && c.path == f && !Skipped(f, exclude) && Mentions(c.content, port)
    {
      var c := configs[i];
      assert configs[..i + 1] == configs[..i] + [c];
      if !Skipped(c.path, exclude) && Mentions(c.content, port) {
        conflicts := conflicts + [InFile(c.path)];
      }
    }
    assert configs[..|configs|] == configs;
    forall f ensures InFile(f) in conflicts <==> Hit(site.disks[host], f, port, exclude) {
      if Hit(site.disks[host], f, port, exclude) {
        assert RawConfig(f, site.disks[host][f]) in configs;
      }
    }
    if runtime {
      var read := site.Command();
      if !read { return Err(RemoteCommand); }
      if port in listening { conflicts := conflicts + [Listening(port)]; }
    }
    r := Ok(conflicts);
  }

  lemma NoneFound(fs: FileMap, conflicts: seq<Conflict>, port: int, exclude: Option<string>, live: bool)
    requires forall f :: InFile(f) in conflicts <==> Hit(fs, f, port, exclude)
    requires forall p :: Listening(p) in conflicts <==> p == port && live
    ensures conflicts == [] <==> !ScanConflict(fs, port, exclude) && !live
  {
    hide Hit;
    if ScanConflict(fs, port, exclude) {
      var f :| Hit(fs, f, port, exclude);
      assert InFile(f) in conflicts;
    }
    if live { assert Listening(port) in conflicts; }
    if conflicts != [] {
      assert conflicts[0] in conflicts;
      assert conflicts[0].InFile? ==> Hit(fs, conflicts[0].path, port, exclude);
    }
  }

  /** `ensure_no_conflict`: passes exactly when no scanned file mentions the port and nothing listens on it. */
  method EnsureNoConflict(site: Site, host: string, port: int, exclude: Option<string>, listening: set<int>, runtime: bool)
    returns (r: Result<()>)
    requires host in site.disks
    ensures r.Ok? ==> !ScanConflict(site.disks[host], port, exclude) && (runtime ==> port !in listening)
    ensures r.Err? && site.Verdict(r.error) ==>
              r.error == PortConflict && (ScanConflict(site.disks[host], port, exclude) || (runtime && port in listening))
  {
    hide Hit;
    var conflicts :- FindConflicts(site, host, port, exclude, listening, runtime);
    NoneFound(site.disks[host], conflicts, port, exclude, runtime && port in listening);
    if conflicts != [] { return Err(PortConflict); }
    r := Ok(());
  }
}
