/** The checks of create and update, as the services make them and spelled out on rows and files. */
module Guards {
  import opened Text
  import opened PathNames
  import opened Template
  import opened Files
  import opened PortCheck
  import opened Registry
  import opened Lifecycle
  import Outcomes
  import Runs

  predicate Named(row: Row, host: string, name: string) { row.host == host && row.name == name }

  /** What an update has settled before its first change. */
  datatype Plan = Plan(id: int, rendered: Rendered, target: string, current: string)

  ghost predicate Planned(w: World, host: string, name: string, f: Fields, p: Plan) {
    && Registered(w.table.rows, host, name) && p.id == IdOf(w.table.rows, host, name)
    && UpdateGuard(w, host, p.id, f, p.target) && RenderService(f) == Ok(p.rendered)
    && p.current == w.disks[host][w.table.rows[p.id].path]
  }

  /** A new port must not be in use; the row's own port is. */
  predicate PortOpen(rows: Rows, id: int, port: int, listening: set<int>)
    requires id in rows
  {
    rows[id].port == Some(port) || port !in listening
  }

  /** The name is well formed and the checks pass for the row that has it. */
  ghost predicate Updatable(w: World, host: string, name: string, f: Fields, listening: set<int>) {
    EnsureSafeName(name).Ok?
    && exists p: Plan :: Planned(w, host, Strip(name), f, p) && PortOpen(w.table.rows, p.id, f.port, listening)
  }

  lemma UpdatableHost(w: World, host: string, name: string, f: Fields, listening: set<int>)
    ensures Updatable(w, host, name, f, listening) ==> HostOk(w, host)
  {
    hide RenderService, ScanConflict, NoConflict, EnsureSafeHost, TargetPath, RequestDraft, Strip;
  }

  // ---------------------------------------------------------------- spelled out

  /** The last segment of the path matches `*.ini`, `*.ini.bak` or `*.ini.bak.*`. */
  predicate ScannedName(f: string) {
    var parts := Split(f, '/');
    var base := parts[|parts| - 1];
    || (|base| >= 4 && base[|base| - 4..] == ".ini")
    || (|base| >= 8 && base[|base| - 8..] == ".ini.bak")
    || (exists k :: 0 <= k <= |base| && BackupMark(base, k))
  }

  predicate BackupMark(base: string, k: nat) { k + 9 <= |base| && base[k..k + 9] == ".ini.bak." }

  lemma ListedMeans(f: string)
    ensures Listed(f) <==> ScannedName(f)
  {
    hide Split, Contains;
    MarkMeans(Basename(f));
  }

  lemma MarkMeans(base: string)
    ensures Contains(base, ".ini.bak.") <==> exists k :: 0 <= k <= |base| && BackupMark(base, k)
  {
    forall k | 0 <= k <= |base| ensures At(base, ".ini.bak.", k) <==> BackupMark(base, k) { }
  }

  /** No scanned file mentions the port, those of `path` and those whose name begins with `path` plus ".bak" aside. */
  ghost predicate PortUnseen(fs: FileMap, port: int, path: Option<string>) {
    forall g :: g in fs && ScannedName(g) && Mentions(fs[g], port) ==>
      path.Some? && (g == path.value || path.value + ".bak" <= g)
  }

  lemma PortUnseenMeans(fs: FileMap, port: int, path: Option<string>)
    requires path.Some? ==> path.value != ""
    ensures PortUnseen(fs, port, path) <==> !ScanConflict(fs, port, path)
  {
    hide Listed, ScannedName, Mentions;
    forall g ensures Listed(g) <==> ScannedName(g) { ListedMeans(g); }
    if !PortUnseen(fs, port, path) {
      var g :| g in fs && ScannedName(g) && Mentions(fs[g], port)
               && !(path.Some? && (g == path.value || path.value + ".bak" <= g));
      assert Hit(fs, g, port, path);
    }
    if ScanConflict(fs, port, path) {
      var g :| Hit(fs, g, port, path);
      assert g in fs && ScannedName(g) && Mentions(fs[g], port);
    }
  }

  /** No other row of the host has the name or the path, and none that is not archived has the port. */
  ghost predicate KeysFree(rows: Rows, host: string, name: string, path: string, port: int, except: int) {
    forall i :: i in rows && i != except && rows[i].host == host ==>
      rows[i].name != name && rows[i].path != path && (rows[i].port == Some(port) ==> rows[i].archived)
  }

  lemma KeysFreeMeans(rows: Rows, d: Draft, except: int)
    requires d.port.Some?
    ensures KeysFree(rows, d.host, d.name, d.path, d.port.value, except) <==> NoConflict(rows, d, except)
  {
    if NoConflict(rows, d, except) {
      forall i | i in rows && i != except && rows[i].host == d.host
        ensures rows[i].name != d.name && rows[i].path != d.path && (rows[i].port == Some(d.port.value) ==> rows[i].archived)
      {
      }
    }
  }

  // ---------------------------------------------------------------- create

  ghost predicate Creatable(w: World, host: string, f: Fields) {
    EnsureSafeHost(host) == Ok(host) && host in w.disks && RenderService(f).Ok?
    && var path := RenderService(f).value.configName;
       KeysFree(w.table.rows, host, Strip(f.name), path, f.port, 0)
       && path !in w.disks[host] && PortUnseen(w.disks[host], f.port, None)
  }

  /** The checks of a create request, on rows and files. */
  lemma CreatableIff(w: World, host: string, f: Fields)
    ensures CreateGuard(w, host, f) <==> Creatable(w, host, f)
  {
    hide RenderService, ScanConflict, NoConflict, KeysFree, PortUnseen, EnsureSafeHost, Strip;
    if RenderService(f).Ok? && host in w.disks {
      var r := RenderService(f).value;
      Outcomes.RequestColumns(host, f);
      KeysFreeMeans(w.table.rows, RequestDraft(host, f, r, r.configName), 0);
      PortUnseenMeans(w.disks[host], f.port, None);
    }
  }

  // ---------------------------------------------------------------- update

  /** `target` is the path in the row's directory with the rendered name. */
  ghost predicate Rewritable(w: World, host: string, id: int, f: Fields, target: string, listening: set<int>) {
    && EnsureSafeHost(host) == Ok(host) && host in w.disks && id in w.table.rows && RenderService(f).Ok?
    && var row, fs := w.table.rows[id], w.disks[host];
       row.host == host && !row.archived && row.path in fs
       && Outcomes.SameDirectory(row.path, target) && Basename(target) == RenderService(f).value.configName
       && KeysFree(w.table.rows, host, Strip(f.name), target, f.port, id)
       && (target == row.path || target !in fs)
       && PortUnseen(fs, f.port, Some(row.path))
       && (row.port == Some(f.port) || f.port !in listening)
  }

  lemma {:induction false} OneTarget(p: string, q: string)
    requires Split(p, '/') == Split(q, '/')
    ensures p == q
  {
    hide Split, Join;
    JoinSplit(p, '/');
    JoinSplit(q, '/');
  }

  lemma TargetMeans(base: string, target: string, name: string)
    requires Outcomes.SameDirectory(base, target) && Outcomes.SameDirectory(base, TargetPath(base, name))
    requires Basename(target) == name && Basename(TargetPath(base, name)) == name
    ensures target == TargetPath(base, name)
  {
    hide Split, TargetPath;
    var a, b := Split(target, '/'), Split(TargetPath(base, name), '/');
    assert forall i :: 0 <= i < |a| ==> a[i] == b[i];
    assert a == b;
    OneTarget(target, TargetPath(base, name));
  }

  /** The checks of an update request, on rows and files. */
  lemma RewritableIff(w: World, host: string, id: int, f: Fields, target: string, listening: set<int>)
    requires ValidTable(w.table)
    ensures (UpdateGuard(w, host, id, f, target) && PortOpen(w.table.rows, id, f.port, listening)) <==>
            Rewritable(w, host, id, f, target, listening)
  {
    hide RenderService, ScanConflict, NoConflict, KeysFree, PortUnseen, EnsureSafeHost, Strip, TargetPath, Basename,
      Outcomes.SameDirectory, NormalizeConfigPath, NormalizeConfigName, EnsureSafeName, AllSafe, KeyedTable;
    if RenderService(f).Ok? && host in w.disks && id in w.table.rows {
      var r, row := RenderService(f).value, w.table.rows[id];
      Outcomes.RequestColumns(host, f);
      Runs.RowPath(w.table, id);
      Runs.RenderedNames(f);
      Outcomes.TargetKeepsDirectory(row.path, f.fileName, r.name, r.configName);
      NotEmpty(row.path);
      PortUnseenMeans(w.disks[host], f.port, Some(row.path));
      KeysFreeMeans(w.table.rows, RequestDraft(host, f, r, target), id);
      if Outcomes.SameDirectory(row.path, target) && Basename(target) == r.configName {
        TargetMeans(row.path, target, r.configName);
      }
    }
  }

  lemma NotEmpty(path: string)
    requires IniFile(path)
    ensures path != ""
  {
  }

  /** An update that changes neither name nor file name nor port, for instance to raise the heap: the row is live and its
      file is there, no other unarchived row of the host has the port, and no file but its own mentions it. */
  ghost predicate Ordinary(w: World, host: string, id: int, f: Fields) {
    && EnsureSafeHost(host) == Ok(host) && host in w.disks && id in w.table.rows && RenderService(f).Ok?
    && var row, fs := w.table.rows[id], w.disks[host];
       row.host == host && !row.archived && row.path in fs
       && Strip(f.name) == row.name && RenderService(f).value.configName == Basename(row.path) && row.port == Some(f.port)
       && (forall i :: i in w.table.rows && i != id && w.table.rows[i].host == host && w.table.rows[i].port == Some(f.port)
                       ==> w.table.rows[i].archived)
       && forall g :: g in fs && g != row.path && !(row.path + ".bak" <= g) ==> !Mentions(fs[g], f.port)
  }

  /** Such an update passes every check, whatever ports are in use. */
  lemma OrdinaryPasses(w: World, host: string, name: string, id: int, f: Fields, listening: set<int>)
    requires ValidTable(w.table) && Ordinary(w, host, id, f) && Strip(name) == w.table.rows[id].name
    ensures Updatable(w, host, name, f, listening)
  {
    hide RenderService, EnsureSafeHost, Strip, Split, NormalizeConfigPath, Mentions, ScannedName, UpdateGuard, KeyedTable;
    var row := w.table.rows[id];
    OnlyOneName(w.table, id);
    SameSafeName(f, name);
    assert Outcomes.SameDirectory(row.path, row.path);
    assert KeysFree(w.table.rows, host, Strip(f.name), row.path, f.port, id);
    assert PortUnseen(w.disks[host], f.port, Some(row.path));
    RewritableIff(w, host, id, f, row.path, listening);
    Outcomes.SameRow(w.table, host, row.name, id);
    assert Planned(w, host, Strip(name), f, Plan(id, RenderService(f).value, row.path, w.disks[host][row.path]));
  }

  lemma OnlyOneName(t: Table, id: int)
    requires ValidTable(t) && id in t.rows
    ensures KeyedTable(t)
    ensures forall i :: i in t.rows && i != id && t.rows[i].host == t.rows[id].host ==>
              t.rows[i].name != t.rows[id].name && t.rows[i].path != t.rows[id].path
  {
    hide Canonical;
  }

  lemma SameSafeName(f: Fields, name: string)
    requires RenderService(f).Ok? && Strip(name) == Strip(f.name)
    ensures EnsureSafeName(name).Ok?
  {
    hide Strip, NormalizeConfigName, JarName, Content, ValidIni, AllSafe;
  }
}
