/** app/services/supervisor_registry_service.py over app/database/repositories/supervisor.py, with the host
    whitelist of app/services/host_service.py. A database statement may fail; then nothing changes. */
module RegistryService {
  import opened Text
  import opened PathNames
  import opened Registry
  import opened Sites

  lemma SafeNameFixed(value: string)
    ensures EnsureSafeName(value).Ok? ==>
              var n := EnsureSafeName(value).value; n == Strip(value) && EnsureSafeName(n) == Ok(n)
  {
    hide Strip;
    var n := Strip(value);
    if n != "" && AllSafe(n) {
      SafeIsNotSpace(n[0]);
      SafeIsNotSpace(n[|n| - 1]);
      StripFixed(n);
    }
  }

  lemma SafeHostFixed(value: string)
    ensures EnsureSafeHost(value).Ok? ==>
              var h := EnsureSafeHost(value).value; h == Strip(value) && EnsureSafeHost(h) == Ok(h)
  {
    hide Strip;
    var h := Strip(value);
    if EnsureSafeHost(value).Ok? {
      SafeIsNotSpace(h[0]);
      SafeIsNotSpace(h[|h| - 1]);
      StripFixed(h);
    }
  }

  /** `get_host`: the enabled hosts are those with a file map. */
  method GetHost(site: Site, host: string) returns (r: Result<string>)
    ensures r.Ok? ==> r.value == Strip(host) && EnsureSafeHost(r.value) == Ok(r.value) && r.value in site.disks
    ensures r.Err? ==> r.error == ParamError || r.error == InvalidHost
    ensures EnsureSafeHost(Strip(host)) == Ok(Strip(host)) && Strip(host) in site.disks ==> r.Ok?
  {
    hide Strip;
    SafeHostFixed(host);
    assert EnsureSafeHost(host).Err? ==> EnsureSafeHost(Strip(host)) != Ok(Strip(host)) by { HostVerdict(host); }
    var safe :- EnsureSafeHost(host);
    r := if safe in site.disks then Ok(safe) else Err(InvalidHost);
  }

  lemma HostVerdict(host: string)
    ensures EnsureSafeHost(Strip(host)) == Ok(Strip(host)) ==> EnsureSafeHost(host).Ok?
  {
    hide Strip;
  }

  // ---------------------------------------------------------------- queries

  method FindByName(site: Site, host: string, name: string) returns (r: Result<Option<int>>)
    ensures r.Ok? ==> var rows := site.table.rows;
                      if r.value.Some? then r.value.value in rows && rows[r.value.value].host == host && rows[r.value.value].name == name
                      else forall id :: id in rows ==> rows[id].host != host || rows[id].name != name
    ensures r.Err? ==> r.error == Database && !site.reliable
  {
    var ok := site.Statement();
    if !ok { return Err(Database); }
    var rows := site.table.rows;
    if id :| id in rows && rows[id].host == host && rows[id].name == name {
      r := Ok(Some(id));
    } else {
      r := Ok(None);
    }
  }

  method FindByPath(site: Site, host: string, path: string) returns (r: Result<Option<int>>)
    ensures r.Ok? ==> var rows := site.table.rows;
                      if r.value.Some? then r.value.value in rows && rows[r.value.value].host == host && rows[r.value.value].path == path
                      else forall id :: id in rows ==> rows[id].host != host || rows[id].path != path
    ensures r.Err? ==> r.error == Database && !site.reliable
  {
    var ok := site.Statement();
    if !ok { return Err(Database); }
    var rows := site.table.rows;
    if id :| id in rows && rows[id].host == host && rows[id].path == path {
      r := Ok(Some(id));
    } else {
      r := Ok(None);
    }
  }

  method FindPortConflict(site: Site, host: string, port: int, except: int) returns (r: Result<bool>)
    ensures r.Ok? ==> r.value == PortTaken(site.table.rows, host, port, except)
    ensures r.Err? ==> r.error == Database && !site.reliable
  {
    var ok := site.Statement();
    if !ok { return Err(Database); }
    var rows := site.table.rows;
    r := Ok(exists id :: id in rows && id != except && rows[id].host == host && rows[id].port == Some(port) && !rows[id].archived);
  }

  /** `get_by_content_program_name` */
  method GetByName(site: Site, host: string, name: string) returns (r: Result<int>)
    requires EnsureSafeHost(host) == Ok(host) && ValidTable(site.table)
    ensures r.Ok? ==> r.value in site.table.rows && site.table.rows[r.value].host == host
                      && site.table.rows[r.value].name == Strip(name) && r.value != 0 && EnsureSafeName(name).Ok?
    ensures r.Err? && site.Verdict(r.error) ==> !NameTaken(site.table.rows, host, Strip(name), 0) || EnsureSafeName(name).Err?
  {
    hide Strip, NormalizeConfigPath;
    SafeNameFixed(name);
    var safe :- EnsureSafeName(name);
    var found :- FindByName(site, host, safe);
    r := if found.Some? then Ok(found.value) else Err(ConfigNotFound);
  }

  // ---------------------------------------------------------------- checks

  /** `_ensure_no_conflict` of a normalised draft: passes exactly when neither the name nor the path nor the
      port is taken, as far as the database answers. */
  method EnsureNoConflict(site: Site, d: Draft, except: int) returns (r: Result<()>)
    requires ValidTable(site.table)
    ensures r.Ok? ==> NoConflict(site.table.rows, d, except)
    ensures r.Err? && site.Verdict(r.error) ==> !NoConflict(site.table.rows, d, except)
    ensures r.Err? && r.error == PortConflict ==>
              !NameTaken(site.table.rows, d.host, d.name, except) && !PathTaken(site.table.rows, d.host, d.path, except)
  {
    hide NormalizeConfigPath;
    var existing :- FindByName(site, d.host, d.name);
    if existing.Some? && existing.value != except { return Err(ConfigAlreadyExists); }
    var pathExists :- FindByPath(site, d.host, d.path);
    if pathExists.Some? && pathExists.value != except { return Err(ConfigAlreadyExists); }
    if d.port.Some? {
      var conflict :- FindPortConflict(site, d.host, d.port.value, except);
      if conflict { return Err(PortConflict); }
    }
    r := Ok(());
  }

  /** `ensure_can_save` */
  method EnsureCanSave(site: Site, d: Draft, except: int) returns (r: Result<()>)
    requires ValidTable(site.table)
    ensures r.Ok? ==> NormalizeDraft(d).Ok? && NoConflict(site.table.rows, NormalizeDraft(d).value, except)
    ensures r.Err? && site.Verdict(r.error) ==>
              NormalizeDraft(d).Err? || !NoConflict(site.table.rows, NormalizeDraft(d).value, except)
  {
    hide NoConflict, NormalizeDraft;
    var normal :- NormalizeDraft(d);
    r := EnsureNoConflict(site, normal, except);
  }

  // ---------------------------------------------------------------- writes

  /** `create`: both checks again, then one insert. */
  method Create(site: Site, d: Draft) returns (r: Result<int>)
    requires ValidTable(site.table)
    modifies site`table
    ensures r.Err? ==> site.table == old(site.table)
    ensures r.Ok? ==>
              NormalizeDraft(d).Ok? && NoConflict(old(site.table.rows), NormalizeDraft(d).value, 0)
              && r.value == old(site.table.next) && site.table == Insert(old(site.table), NewRow(NormalizeDraft(d).value))
    ensures r.Err? && site.reliable ==> NormalizeDraft(d).Err? || !NoConflict(old(site.table.rows), NormalizeDraft(d).value, 0)
  {
    hide NoConflict, NormalizeDraft;
    var normal :- NormalizeDraft(d);
    var checked := EnsureNoConflict(site, normal, 0);
    if checked.Err? { return Err(checked.error); }
    var ok := site.Statement();
    if !ok { return Err(Database); }
    r := Ok(site.table.next);
    site.table := Insert(site.table, NewRow(normal));
  }

  /** `update_service` of the registry: one row gets the draft's columns and the site as just written. */
  method UpdateService(site: Site, id: int, d: Draft, runtime: Runtime, detail: Detail) returns (r: Result<()>)
    modifies site`table
    ensures r.Err? ==> site.table == old(site.table)
    ensures r.Ok? && id in old(site.table.rows) ==>
              NormalizeDraft(d).Ok?
              && site.table == Replace(old(site.table), id,
                                       Overwritten(old(site.table.rows)[id], NormalizeDraft(d).value).(runtime := runtime, detail := detail))
    ensures r.Err? && site.reliable ==> NormalizeDraft(d).Err?
  {
    hide NormalizeDraft;
    var normal :- NormalizeDraft(d);
    var ok := site.Statement();
    if !ok { return Err(Database); }
    if id in site.table.rows {
      var row := Overwritten(site.table.rows[id], normal);
      site.table := Replace(site.table, id, row.(runtime := runtime, detail := detail));
    }
    r := Ok(());
  }

  /** `mark_archived` and `mark_restored` */
  method Mark(site: Site, host: string, name: string, archived: bool, runtime: Runtime) returns (r: Result<()>)
    modifies site`table
    ensures site.table == if r.Ok? then SetByName(old(site.table), host, name, archived, runtime) else old(site.table)
    ensures site.reliable ==> r.Ok?
  {
    var ok := site.Statement();
    if !ok { return Err(Database); }
    site.table := SetByName(site.table, host, name, archived, runtime);
    r := Ok(());
  }

  method UpdateDetail(
    site: Site, host: string, name: string, runtime: Runtime, detail: Detail, meta: Meta, port: Option<int>) returns (r: Result<()>)
    modifies site`table
    ensures site.table == if r.Ok? then DescribeByName(old(site.table), host, name, runtime, detail, meta, port) else old(site.table)
    ensures site.reliable ==> r.Ok?
  {
    var ok := site.Statement();
    if !ok { return Err(Database); }
    site.table := DescribeByName(site.table, host, name, runtime, detail, meta, port);
    r := Ok(());
  }

  method DeleteService(site: Site, id: int) returns (r: Result<()>)
    modifies site`table
    ensures site.table == if r.Ok? then Remove(old(site.table), id) else old(site.table)
    ensures r.Err? ==> r.error == Database && !site.reliable
  {
    var ok := site.Statement();
    if !ok { return Err(Database); }
    site.table := Remove(site.table, id);
    r := Ok(());
  }
}
