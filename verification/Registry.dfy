/** The registry table of app/database/repositories/supervisor.py and the checks of
    app/services/supervisor_registry_service.py, on values. */
module Registry {
  import opened Text
  import opened PathNames
  import Template

  datatype Mode = TemplateManaged | ImportedReadonly

  /** The descriptive columns. */
  datatype Meta = Meta(
    job: Option<string>, moduleName: Option<string>, javaPath: Option<string>, active: Option<string>,
    jar: Option<string>, xms: Option<string>, xmx: Option<string>, user: Option<string>)

  /** `SupervisorRegistryCreateData` */
  datatype Draft = Draft(
    host: string, path: string, fileName: string, name: string, mode: Mode, baseline: string,
    complete: bool, warnings: seq<Template.Warning>, port: Option<int>, meta: Meta)

  datatype Runtime = Runtime(status: string, pid: Option<string>, uptime: Option<string>)

  /** The columns that mirror the remote site. */
  datatype Detail = Detail(
    command: Option<string>, directory: Option<string>, stdoutLog: Option<string>, hasBackup: bool,
    content: Option<string>, backup: Option<string>, syncStatus: string, syncError: Option<string>)

  datatype Row = Row(
    host: string, path: string, fileName: string, name: string, mode: Mode, baseline: string,
    complete: bool, warnings: seq<Template.Warning>, port: Option<int>, meta: Meta,
    runtime: Runtime, detail: Detail, archived: bool)

  type Rows = map<int, Row>

  /** The table with its auto-increment counter. */
  datatype Table = Table(rows: Rows, next: int)

  const NEW_RUNTIME := Runtime("UNKNOWN", None, None)
  const NEW_DETAIL := Detail(None, None, None, false, None, None, "UNKNOWN", None)

  /** `_build_write_payload`: a new row. */
  function NewRow(d: Draft): Row {
    Row(d.host, d.path, d.fileName, d.name, d.mode, d.baseline, d.complete, d.warnings, d.port, d.meta,
        NEW_RUNTIME, NEW_DETAIL, false)
  }

  /** `_build_update_payload`: the columns an update or import overwrites; host, state and archive flag stay. */
  function Overwritten(r: Row, d: Draft): Row {
    r.(path := d.path, fileName := d.fileName, name := d.name, mode := d.mode, baseline := d.baseline,
       complete := d.complete, warnings := d.warnings, port := d.port, meta := d.meta)
  }

  // ---------------------------------------------------------------- table operations

  function Insert(t: Table, r: Row): Table { Table(t.rows[t.next := r], t.next + 1) }

  /** `update_by_id` */
  function Replace(t: Table, id: int, r: Row): Table {
    if id in t.rows then t.(rows := t.rows[id := r]) else t
  }

  /** `delete_by_id` */
  function Remove(t: Table, id: int): Table { t.(rows := t.rows - {id}) }

  /** `update_by_host_and_program`: every row with that host and name gets the new state. */
  function SetByName(t: Table, host: string, name: string, archived: bool, runtime: Runtime): Table {
    t.(rows := map id | id in t.rows ::
                 if t.rows[id].host == host && t.rows[id].name == name
                 then t.rows[id].(archived := archived, runtime := runtime) else t.rows[id])
  }

  /** `update_detail_sync_snapshot`: the descriptive columns of every row with that host and name. */
  function DescribeByName(t: Table, host: string, name: string, runtime: Runtime, detail: Detail, meta: Meta, port: Option<int>): Table {
    t.(rows := map id | id in t.rows ::
                 if t.rows[id].host == host && t.rows[id].name == name
                 then t.rows[id].(runtime := runtime, detail := detail, meta := meta, port := port) else t.rows[id])
  }

  // ---------------------------------------------------------------- table invariants

  ghost predicate UniqueNames(rows: Rows) {
    forall i, j :: i in rows && j in rows && rows[i].host == rows[j].host && rows[i].name == rows[j].name ==> i == j
  }

  ghost predicate UniquePaths(rows: Rows) {
    forall i, j :: i in rows && j in rows && rows[i].host == rows[j].host && rows[i].path == rows[j].path ==> i == j
  }

  predicate SamePort(r: Row, q: Row) { r.host == q.host && r.port == q.port && r.port.Some? }

  /** Ports within a host, archived rows included. */
  ghost predicate UniquePorts(rows: Rows) {
    forall i, j :: i in rows && j in rows && SamePort(rows[i], rows[j]) ==> i == j
  }

  /** Both keys are unique and the counter is ahead of every id. */
  ghost predicate KeyedTable(t: Table) {
    && t.next > 0
    && (forall id :: id in t.rows ==> 0 < id < t.next)
    && UniqueNames(t.rows) && UniquePaths(t.rows)
  }

  ghost predicate ValidTable(t: Table) {
    KeyedTable(t) && forall id :: id in t.rows ==> Canonical(t.rows[id].path)
  }

  lemma ValidIsKeyed(t: Table)
    requires ValidTable(t)
    ensures KeyedTable(t)
  {
  }

  // ---------------------------------------------------------------- checks

  /** `_normalize_write_data` */
  function NormalizeDraft(d: Draft): Result<Draft> {
    var host :- EnsureSafeHost(d.host);
    var name :- EnsureSafeName(d.name);
    var fileName :- NormalizeConfigName(d.fileName, name);
    var path :- NormalizeConfigPath(d.path, false);
    if Basename(path) != fileName then Err(ParamError)
    else if d.port.Some? && !Template.ValidPort(d.port.value) then Err(ParamError)
    else Ok(d.(host := host, name := name, fileName := fileName, path := path))
  }

  ghost predicate NameTaken(rows: Rows, host: string, name: string, except: int) {
    exists id :: id in rows && id != except && rows[id].host == host && rows[id].name == name
  }

  ghost predicate PathTaken(rows: Rows, host: string, path: string, except: int) {
    exists id :: id in rows && id != except && rows[id].host == host && rows[id].path == path
  }

  /** `find_port_conflict`: archived rows are ignored. */
  ghost predicate PortTaken(rows: Rows, host: string, port: int, except: int) {
    exists id :: id in rows && id != except && rows[id].host == host && rows[id].port == Some(port)
                 && !rows[id].archived
  }

  /** `_ensure_no_conflict` passes. */
  ghost predicate NoConflict(rows: Rows, d: Draft, except: int) {
    && !NameTaken(rows, d.host, d.name, except)
    && !PathTaken(rows, d.host, d.path, except)
    && (d.port.Some? ==> !PortTaken(rows, d.host, d.port.value, except))
  }

  // ---------------------------------------------------------------- what the operations keep

  lemma InsertKeeps(t: Table, r: Row)
    requires ValidTable(t) && Canonical(r.path)
    requires !NameTaken(t.rows, r.host, r.name, 0) && !PathTaken(t.rows, r.host, r.path, 0)
    ensures ValidTable(Insert(t, r))
  {
    hide Canonical;
    assert t.next !in t.rows;
    assert forall id :: id in t.rows ==> id != 0;
  }

  lemma ReplaceKeeps(t: Table, id: int, r: Row)
    requires ValidTable(t) && id in t.rows && Canonical(r.path)
    requires !NameTaken(t.rows, r.host, r.name, id) && !PathTaken(t.rows, r.host, r.path, id)
    ensures ValidTable(Replace(t, id, r))
  {
    hide Canonical;
  }

  lemma RemoveKeeps(t: Table, id: int)
    requires ValidTable(t)
    ensures ValidTable(Remove(t, id))
  {
    hide Canonical;
  }

  /** The by-name writes of archive and restore touch exactly the row they mean. */
  lemma SetByNameTouchesOne(t: Table, id: int, archived: bool, runtime: Runtime)
    requires KeyedTable(t) && id in t.rows
    ensures SetByName(t, t.rows[id].host, t.rows[id].name, archived, runtime)
         == Replace(t, id, t.rows[id].(archived := archived, runtime := runtime))
    ensures ValidTable(t) ==> ValidTable(SetByName(t, t.rows[id].host, t.rows[id].name, archived, runtime))
  {
    hide Canonical;
    var row := t.rows[id];
    var left := SetByName(t, row.host, row.name, archived, runtime);
    var right := Replace(t, id, row.(archived := archived, runtime := runtime));
    forall i | i in t.rows ensures left.rows[i] == right.rows[i] {
      if t.rows[i].host == row.host && t.rows[i].name == row.name { assert i == id; }
    }
    assert left.rows == right.rows;
    if ValidTable(t) { ReplaceKeeps(t, id, row.(archived := archived, runtime := runtime)); }
  }

  lemma DescribeByNameTouchesOne(t: Table, id: int, runtime: Runtime, detail: Detail, meta: Meta, port: Option<int>)
    requires KeyedTable(t) && id in t.rows
    ensures DescribeByName(t, t.rows[id].host, t.rows[id].name, runtime, detail, meta, port)
         == Replace(t, id, t.rows[id].(runtime := runtime, detail := detail, meta := meta, port := port))
  {
    var row := t.rows[id];
    var left := DescribeByName(t, row.host, row.name, runtime, detail, meta, port);
    forall i | i in t.rows && i != id ensures left.rows[i] == t.rows[i] { }
    assert left.rows == Replace(t, id, row.(runtime := runtime, detail := detail, meta := meta, port := port)).rows;
  }
}
