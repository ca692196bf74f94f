/** app/services/supervisor_sync_service.py: reading one service's status, config and backup back from its
    host into its row. */
module SyncService {
  import opened Text
  import opened PathNames
  import opened Template
  import opened Files
  import opened Registry
  import opened Lifecycle
  import opened Sites
  import opened RegistryService
  import opened Staging
  import MutationService
  import RoundTrip
  import ParseBack
  import Runs
  import ConfigFileService

  // ---------------------------------------------------------------- what a sync is to do

  /** The three reads of a sync and what the current text parses to. */
  datatype Readings = Readings(status: Reading<Runtime>, current: Reading<string>, parsed: Option<Parsed>, backup: Reading<string>)

  const STATUS_FAILED := "读取 Supervisor 状态失败: "
  const NO_ENTRY := "未读取到服务状态条目: "
  const CURRENT_FAILED := "读取当前配置失败: "
  const CURRENT_MISSING := "当前配置文件不存在: "
  const BACKUP_FAILED := "读取备份配置失败: "

  function StatusText(row: Row, r: Reading<Runtime>): Option<string> {
    match r case Failed(m) => Some(STATUS_FAILED + m) case Missing => Some(NO_ENTRY + row.name) case Found(_) => None
  }

  function CurrentText(row: Row, r: Reading<string>): Option<string> {
    match r case Failed(m) => Some(CURRENT_FAILED + m) case Missing => Some(CURRENT_MISSING + row.path) case Found(_) => None
  }

  /** A missing backup is no error. */
  function BackupText(r: Reading<string>): Option<string> {
    match r case Failed(m) => Some(BACKUP_FAILED + m) case Missing => None case Found(_) => None
  }

  function LastText(texts: seq<Option<string>>): Option<string> {
    if texts == [] then None
    else if texts[|texts| - 1].Some? then texts[|texts| - 1]
    else LastText(texts[..|texts| - 1])
  }

  /** The error text of the last read that went wrong. */
  function ErrorOf(row: Row, s: Readings): Option<string> {
    LastText([StatusText(row, s.status), CurrentText(row, s.current), BackupText(s.backup)])
  }

  /** `_prefer_new_text` */
  function Prefer(value: Option<string>, fallback: Option<string>): Option<string> {
    if value.Some? && Strip(value.value) != "" then Some(Strip(value.value)) else fallback
  }

  /** Python's `or` on texts. */
  function Or(a: Option<string>, b: Option<string>): Option<string> { if Present(a) then a else b }

  /** The columns `_merge_record` decides on. */
  datatype Merged = Merged(
    command: Option<string>, directory: Option<string>, stdoutLog: Option<string>, meta: Meta, port: Option<int>,
    content: Option<string>)

  /** `_merge_record` */
  function MergeRecord(row: Row, parsed: Option<Parsed>, current: Option<string>): Merged {
    var d, m := row.detail, ReadMeta(row.meta);
    var content := if current.Some? then current else Read(d.content);
    if parsed.None? then Merged(Read(d.command), Read(d.directory), Read(d.stdoutLog), m, row.port, content)
    else
      var p, o := parsed.value, parsed.value.options;
      Merged(
        Prefer(Lookup(o, "command"), Read(d.command)),
        Prefer(Lookup(o, "directory"), Read(d.directory)),
        Prefer(Lookup(o, "stdout_logfile"), Read(d.stdoutLog)),
        Meta(Or(p.job, m.job), Or(p.moduleName, m.moduleName), Or(p.javaPath, m.javaPath), Or(p.active, m.active),
             Or(p.jar, m.jar), Or(p.xms, m.xms), Or(p.xmx, m.xmx), Or(Lookup(o, "user"), Or(p.user, m.user))),
        if p.port.Some? then p.port else row.port,
        content)
  }

  /** A stored runtime as the service reads it. */
  function ReadRuntime(r: Runtime): Runtime {
    Runtime(if r.status == "" then "UNKNOWN" else r.status, Read(r.pid), Read(r.uptime))
  }

  /** The row a sync with these readings is to leave. */
  function Synced(row: Row, s: Readings): Row {
    var m := MergeRecord(row, s.parsed, None);
    row.(
      runtime := match s.status
                 case Failed(_) => ReadRuntime(row.runtime)
                 case Missing => Runtime("UNKNOWN", None, None)
                 case Found(entry) => entry,
      meta := m.meta,
      port := m.port,
      detail := Detail(
        m.command, m.directory, m.stdoutLog,
        match s.backup case Failed(_) => row.detail.hasBackup case Missing => false case Found(_) => true,
        match s.current case Failed(_) => Read(row.detail.content) case Missing => None case Found(text) => Some(text),
        match s.backup case Failed(_) => Read(row.detail.backup) case Missing => None case Found(text) => Some(text),
        if s.status.Found? && s.current.Found? && !s.backup.Failed? then "SUCCESS" else "FAILED",
        ErrorOf(row, s)))
  }

  /** The reading agrees with the files: what was found is there, what is missing is not. */
  predicate Truthful(fs: FileMap, path: string, r: Reading<string>) {
    (r.Found? ==> path in fs && r.value == fs[path]) && (r.Missing? ==> path !in fs)
  }

  /** `parsed` is the parse of the text just read, absent when there is none or it is not a valid config. */
  predicate ParsedFrom(current: Reading<string>, parsed: Option<Parsed>) {
    if current.Found? && Parse(current.value).Ok? then parsed == Some(Parse(current.value).value) else parsed == None
  }

  predicate TruthfulReadings(fs: FileMap, path: string, s: Readings) {
    Truthful(fs, path, s.current) && Truthful(fs, Bak(path), s.backup) && ParsedFrom(s.current, s.parsed)
  }

  // ---------------------------------------------------------------- laws

  /** What the host shows of a file. */
  function Shown(fs: FileMap, path: string): Option<string> { if path in fs then Some(fs[path]) else None }

  /** Without a read error the stored contents and the backup flag are the host's own; with one, the old values
      stay. */
  lemma SyncMirrors(fs: FileMap, row: Row, s: Readings)
    requires TruthfulReadings(fs, row.path, s)
    ensures var after := Synced(row, s).detail;
            (after.content == if s.current.Failed? then Read(row.detail.content) else Shown(fs, row.path))
            && (after.backup == if s.backup.Failed? then Read(row.detail.backup) else Shown(fs, Bak(row.path)))
            && (after.hasBackup == if s.backup.Failed? then row.detail.hasBackup else Bak(row.path) in fs)
  {
    hide Parse;
  }

  /** FAILED goes with an error text that is not empty, and such a text is there exactly when the status has no
      entry, the current config was not found, or the backup could not be read. */
  lemma FailedIffError(row: Row, s: Readings)
    ensures var after := Synced(row, s).detail;
            (after.syncStatus == "FAILED" <==> Present(after.syncError))
            && (after.syncStatus == "FAILED" <==> after.syncError.Some?)
            && (after.syncStatus == "SUCCESS" <==> s.status.Found? && s.current.Found? && !s.backup.Failed?)
  {
    hide LastText, MergeRecord;
    assert "FAILED"[0] != "SUCCESS"[0];
    LastOfThree(StatusText(row, s.status), CurrentText(row, s.current), BackupText(s.backup));
    assert forall t: string :: STATUS_FAILED + t != "" && NO_ENTRY + t != "" && CURRENT_FAILED + t != ""
                               && CURRENT_MISSING + t != "" && BACKUP_FAILED + t != "";
  }

  lemma LastOfThree(a: Option<string>, b: Option<string>, c: Option<string>)
    ensures LastText([a, b, c]) == if c.Some? then c else if b.Some? then b else a
  {
    assert [a, b, c][..2] == [a, b] && [a, b][..1] == [a];
    assert LastText([a]) == a by { assert [a][..0] == []; }
    assert LastText([a, b]) == if b.Some? then b else a;
  }

  /** A text column after a sync is what the parse has of it, and what it was before when the parse has nothing. */
  predicate Kept(after: Option<string>, parsed: Option<string>, before: Option<string>) {
    after == if Present(parsed) then parsed else Read(before)
  }

  /** A column the parser reads without trimming it: the trimmed text counts. */
  predicate KeptTrimmed(after: Option<string>, parsed: Option<string>, before: Option<string>) {
    if parsed.Some? && Strip(parsed.value) != "" then after == Some(Strip(parsed.value)) else after == Read(before)
  }

  /** Every structured column holds the parsed value or the one it had; a column that held something is never
      emptied. */
  lemma FieldsNeverLost(row: Row, s: Readings)
    ensures s.parsed.None? ==>
              var after := Synced(row, s);
              after.port == row.port && after.meta == ReadMeta(row.meta) && after.detail.command == Read(row.detail.command)
              && after.detail.directory == Read(row.detail.directory) && after.detail.stdoutLog == Read(row.detail.stdoutLog)
    ensures s.parsed.Some? ==>
              var after, p := Synced(row, s), s.parsed.value;
              var m, n, o := row.meta, after.meta, p.options;
              Kept(n.job, p.job, m.job) && Kept(n.moduleName, p.moduleName, m.moduleName)
              && Kept(n.javaPath, p.javaPath, m.javaPath) && Kept(n.active, p.active, m.active)
              && Kept(n.jar, p.jar, m.jar) && Kept(n.xms, p.xms, m.xms) && Kept(n.xmx, p.xmx, m.xmx)
              && (if Present(Lookup(o, "user")) then n.user == Lookup(o, "user") else Kept(n.user, p.user, m.user))
              && KeptTrimmed(after.detail.command, Lookup(o, "command"), row.detail.command)
              && KeptTrimmed(after.detail.directory, Lookup(o, "directory"), row.detail.directory)
              && KeptTrimmed(after.detail.stdoutLog, Lookup(o, "stdout_logfile"), row.detail.stdoutLog)
              && after.port == if p.port.Some? then p.port else row.port
    ensures (row.port.Some? ==> Synced(row, s).port.Some?) && NothingEmptied(row, Synced(row, s))
  {
    hide Strip;
  }

  predicate NothingEmptied(row: Row, after: Row) {
    var m, n, d, e := row.meta, after.meta, row.detail, after.detail;
    && (Present(m.job) ==> Present(n.job)) && (Present(m.moduleName) ==> Present(n.moduleName))
    && (Present(m.javaPath) ==> Present(n.javaPath)) && (Present(m.active) ==> Present(n.active))
    && (Present(m.jar) ==> Present(n.jar)) && (Present(m.xms) ==> Present(n.xms)) && (Present(m.xmx) ==> Present(n.xmx))
    && (Present(m.user) ==> Present(n.user)) && (Present(d.command) ==> Present(e.command))
    && (Present(d.directory) ==> Present(e.directory)) && (Present(d.stdoutLog) ==> Present(e.stdoutLog))
  }

  /** Syncing again with the same readings changes nothing more. */
  lemma SyncTwice(row: Row, s: Readings)
    ensures Synced(Synced(row, s), s) == Synced(row, s)
  {
    hide Strip, LastText;
  }

  /** Syncing a service whose file is still the one a create or update request rendered gives the row back the
      columns of that request, command line and directory included. */
  lemma SyncKeepsRequest(row: Row, host: string, f: Fields, r: Rendered, jar: string, path: string, s: Readings)
    requires RoundTrip.Readable(f) && ValidPort(f.port)
    requires RenderService(f) == Ok(r) && JarName(f) == Ok(jar) && EndsWith(jar, ".jar")
    requires s.current == Found(r.content) && ParsedFrom(s.current, s.parsed)
    ensures var before := Overwritten(row, RequestDraft(host, f, r, path)); var after := Synced(before, s);
            after.meta == before.meta.(jar := Some(jar)) && after.port == before.port
            && after.detail.content == Some(before.baseline)
            && after.detail.command == Some(ParseBack.CommandValue(f, jar))
            && after.detail.directory == Some(ParseBack.DirectoryValue(f))
            && after.detail.stdoutLog == Some(ParseBack.LogFile(f))
  {
    hide RoundTrip.Readable, Parse, Strip, JarName, EndsWith, Content, LastText, NormalizeConfigName, EnsureSafeName,
      ValidIni, AllSafe, ParseBack.CommandValue, ParseBack.DirectoryValue, ParseBack.LogFile;
    Runs.RenderedNames(f);
    ParseBack.JarIsSafe(f, jar);
    ParseBack.ParseOfRender(f, r.name, jar, r.configName);
    ParseBack.RequestTexts(f, jar);
  }

  // ---------------------------------------------------------------- the service, step by step

  datatype ReadState = Okay | Absent | Broken

  /** `_resolve_status`: runtime, whether there was an entry, and the error text; `read` is how the read came out. */
  method ResolveStatus(site: Site, row: Row)
    returns (runtime: Runtime, loaded: bool, error: Option<string>, read: Reading<Runtime>)
    ensures loaded == read.Found? && error == StatusText(row, read) && (if loaded then error.None? else Present(error))
    ensures read.Found? ==> runtime == read.value
    ensures read.Missing? ==> runtime == Runtime("UNKNOWN", None, None)
    ensures read.Failed? ==>
              runtime.status == (if row.runtime.status == "" then "UNKNOWN" else row.runtime.status)
              && runtime.pid == (if row.runtime.pid == Some("") then None else row.runtime.pid)
              && runtime.uptime == (if row.runtime.uptime == Some("") then None else row.runtime.uptime)
    ensures site.reliable ==> !read.Failed?
  {
    read := site.ReadStatus();
    if read.Failed? { return ReadRuntime(row.runtime), false, Some(STATUS_FAILED + read.message), read; }
    if read.Missing? { return Runtime("UNKNOWN", None, None), false, Some(NO_ENTRY + row.name), read; }
    return read.value, true, None, read;
  }

  /** One optional read; the message of a failure is the executor's. */
  method ReadFile(site: Site, host: string, path: string, allowBackups: bool) returns (read: Reading<string>)
    requires host in site.disks && MutationService.AcceptedAsIs(path, allowBackups)
    ensures Truthful(site.disks[host], path, read)
    ensures !MutationService.Accepted(path, allowBackups) ==> read.Failed?
    ensures site.reliable && MutationService.Accepted(path, allowBackups) ==> !read.Failed?
  {
    hide NormalizeConfigPath;
    var message: string := *;
    var found := ConfigFileService.ReadOptional(site, host, path, allowBackups);
    if found.Err? { return Failed(message); }
    read := if found.value.None? then Missing else Found(found.value.value);
  }

  /** `_read_current_config`: text, parse, state and error text. Only a ParamError of the parser is caught. */
  method ReadCurrentConfig(site: Site, host: string, row: Row)
    returns (r: Result<(Option<string>, Option<Parsed>, ReadState, Option<string>)>, read: Reading<string>)
    requires host in site.disks && Canonical(row.path)
    ensures Truthful(site.disks[host], row.path, read) && (site.reliable ==> !read.Failed?)
    ensures r.Ok? ==>
              r.value.0 == (if read.Found? then Some(read.value) else None) && ParsedFrom(read, r.value.1)
              && r.value.2 == (match read case Failed(_) => Broken case Missing => Absent case Found(_) => Okay)
              && r.value.3 == CurrentText(row, read) && (if r.value.2 == Okay then r.value.3.None? else Present(r.value.3))
    ensures r.Err? ==> read.Found? && Parse(read.value) == Err(r.error) && r.error != ParamError
  {
    hide NormalizeConfigPath, Parse;
    read := ReadFile(site, host, row.path, false);
    if read.Failed? { return Ok((None, None, Broken, Some(CURRENT_FAILED + read.message))), read; }
    if read.Missing? { return Ok((None, None, Absent, Some(CURRENT_MISSING + row.path))), read; }
    var parsed := Parse(read.value);
    if parsed.Ok? { return Ok((Some(read.value), Some(parsed.value), Okay, None)), read; }
    if parsed.error == ParamError { return Ok((Some(read.value), None, Okay, None)), read; }
    return Err(parsed.error), read;
  }

  /** `_read_backup_config`: text, state and error text. */
  method ReadBackupConfig(site: Site, host: string, row: Row)
    returns (text: Option<string>, state: ReadState, error: Option<string>, read: Reading<string>)
    requires host in site.disks && Canonical(row.path)
    ensures Truthful(site.disks[host], Bak(row.path), read)
    ensures site.reliable ==> (read.Failed? <==> ".ini" <= TrimLeft(Basename(row.path)))
    ensures ".ini" <= TrimLeft(Basename(row.path)) ==> read.Failed?
    ensures text == (if read.Found? then Some(read.value) else None) && error == BackupText(read)
    ensures if state == Broken then Present(error) else error.None?
    ensures state == match read case Failed(_) => Broken case Missing => Absent case Found(_) => Okay
  {
    hide NormalizeConfigPath, Basename, TrimLeft, Bak;
    BackupNameAgrees(row.path);
    read := ReadFile(site, host, Bak(row.path), true);
    if read.Failed? { return None, Broken, Some(BACKUP_FAILED + read.message), read; }
    if read.Missing? { return None, Absent, None, read; }
    return Some(read.value), Okay, None, read;
  }

  /** What the response says of the row. */
  datatype Reply = Reply(runtime: Runtime, syncStatus: string, syncError: Option<string>)

  ghost predicate SyncedTo(t: Table, t': Table, fs: FileMap, id: int, s: Readings)
    requires id in t.rows
  {
    !t.rows[id].archived && TruthfulReadings(fs, t.rows[id].path, s) && t' == Replace(t, id, Synced(t.rows[id], s))
  }

  /** What the stored row and the answer say after readings `s` of a host with files `fs`; `before` is the row as it
      was. */
  predicate Answers(fs: FileMap, before: Row, row: Row, s: Readings, reply: Reply) {
    (s.status.Found? ==> row.runtime == s.status.value)
    && (s.status.Missing? ==> row.runtime == Runtime("UNKNOWN", None, None))
    && (s.status.Failed? ==>
          row.runtime.status == (if before.runtime.status == "" then "UNKNOWN" else before.runtime.status)
          && row.runtime.pid == (if before.runtime.pid == Some("") then None else before.runtime.pid)
          && row.runtime.uptime == (if before.runtime.uptime == Some("") then None else before.runtime.uptime))
    && (s.current.Failed? ==> row.detail.content == Read(before.detail.content))
    && (s.backup.Failed? ==> row.detail.backup == Read(before.detail.backup) && row.detail.hasBackup == before.detail.hasBackup)
    && reply == Reply(row.runtime, row.detail.syncStatus, row.detail.syncError)
    && (row.detail.syncStatus == "FAILED" <==> Present(row.detail.syncError))
    && (row.detail.syncStatus == "SUCCESS" <==> s.status.Found? && s.current.Found? && !s.backup.Failed?)
    && row.detail.syncError == ErrorOf(row, s)
    && (!s.current.Failed? ==> row.detail.content == Shown(fs, row.path))
    && (!s.backup.Failed? ==> row.detail.backup == Shown(fs, Bak(row.path)) && row.detail.hasBackup == (Bak(row.path) in fs))
  }

  datatype Columns = Columns(runtime: Runtime, merged: Merged, detail: Detail)

  /** The part of `sync_service` between loading the row and writing it: three reads, one after the other, that
      set status and error text as they go, and the merge. */
  method ReadColumns(site: Site, host: string, row: Row) returns (r: Result<Columns>, s: Readings)
    requires host in site.disks && Canonical(row.path)
    ensures r.Ok? ==>
              TruthfulReadings(site.disks[host], row.path, s)
              && var c := r.value;
                 Synced(row, s) == row.(runtime := c.runtime, detail := c.detail, meta := c.merged.meta, port := c.merged.port)
    ensures r.Ok? && ".ini" <= TrimLeft(Basename(row.path)) ==> s.backup.Failed?
    ensures site.reliable && r.Ok? ==>
              !s.status.Failed? && !s.current.Failed? && (s.backup.Failed? <==> ".ini" <= TrimLeft(Basename(row.path)))
    ensures r.Err? ==>
              row.path in site.disks[host] && Parse(site.disks[host][row.path]) == Err(r.error) && r.error != ParamError
  {
    hide NormalizeConfigPath, Parse, Synced, Bak, Basename, TrimLeft, MergeRecord, LastText, StatusText, CurrentText,
      BackupText, TruthfulReadings;
    s := Readings(Missing, Missing, None, Missing);
    var syncStatus := "SUCCESS";
    var syncError: Option<string> := None;

    var runtime, loaded, statusError, statusRead := ResolveStatus(site, row);
    if !loaded {
      syncStatus := "FAILED";
      syncError := Or(statusError, Some(NO_ENTRY + row.name));
    }

    var current, currentRead := ReadCurrentConfig(site, host, row);
    if current.Err? { return Err(current.error), s; }
    var (text, parsed, state, configError) := current.value;
    if state != Okay {
      syncStatus := "FAILED";
      syncError := Or(configError, syncError);
    }

    var backup, backupState, backupError, backupRead := ReadBackupConfig(site, host, row);
    if backupState == Broken {
      syncStatus := "FAILED";
      syncError := Or(backupError, syncError);
    }

    var merged := MergeRecord(row, parsed, text);
    if state == Absent { merged := merged.(content := None); }
    var detail := Detail(
      merged.command, merged.directory, merged.stdoutLog,
      if backupState == Broken then row.detail.hasBackup else backup.Some?,
      merged.content,
      if backupState == Broken then Read(row.detail.backup) else backup,
      syncStatus, syncError);
    s := Readings(statusRead, currentRead, parsed, backupRead);
    Together(site.disks[host], row.path, s);
    StepsAgree(row, s, runtime, text, merged, detail);
    r := Ok(Columns(runtime, merged, detail));
  }

  /** `sync_service`: exactly one row changes, and only in its descriptive columns; `s` is how the three reads
      came out. FAILED is stored and answered exactly with an error text, that of the last read that went wrong;
      what was found on the host is what the row then shows. When no call fails, only an error of the parser
      that is not a ParamError stops the sync. */
  method SyncService(site: Site, host: string, name: string) returns (r: Result<Reply>, s: Readings)
    requires ValidTable(site.table)
    modifies site`table
    ensures RefreshStep(old(site.World()), site.World())
    ensures r.Err? ==> site.table == old(site.table)
    ensures r.Ok? ==>
              Registered(old(site.table.rows), Strip(host), Strip(name)) && Strip(host) in site.disks
              && var id := IdOf(old(site.table.rows), Strip(host), Strip(name));
                 SyncedTo(old(site.table), site.table, site.disks[Strip(host)], id, s)
                 && id in site.table.rows && Answers(site.disks[Strip(host)], old(site.table.rows)[id], site.table.rows[id], s, r.value)
                 && (".ini" <= TrimLeft(Basename(site.table.rows[id].path)) ==> s.backup.Failed?)
                 && (site.reliable ==>
                       !s.status.Failed? && !s.current.Failed?
                       && (s.backup.Failed? <==> ".ini" <= TrimLeft(Basename(site.table.rows[id].path))))
    ensures r.Err? && site.reliable && MutationService.Movable(old(site.World()), Strip(host), name, false) ==>
              var path := old(site.table.rows)[IdOf(old(site.table.rows), Strip(host), Strip(name))].path;
              var fs := site.disks[Strip(host)];
              path in fs && Parse(fs[path]) == Err(r.error) && r.error != ParamError
  {
    hide NormalizeConfigPath, Strip, EnsureSafeHost, EnsureSafeName, KeyedTable, NameTaken, Parse, DescribeByName, Synced,
      Bak, Basename, TrimLeft, Answers, TruthfulReadings;
    s := Readings(Missing, Missing, None, Missing);
    var loaded := MutationService.LoadRecord(site, host, name, false);
    if loaded.Err? { return Err(loaded.error), s; }
    var id, h := loaded.value, Strip(host);
    Runs.RowPath(site.table, id);
    var row := site.table.rows[id];
    var columns;
    columns, s := ReadColumns(site, h, row);
    if columns.Err? { return Err(columns.error), s; }
    var Columns(runtime, merged, detail) := columns.value;
    var saved := UpdateDetail(site, h, row.name, runtime, detail, merged.meta, merged.port);
    if saved.Err? { return Err(saved.error), s; }
    DescribeByNameTouchesOne(old(site.table), id, runtime, detail, merged.meta, merged.port);
    WhatIsStored(site.disks[h], row, s);
    r := Ok(Reply(runtime, detail.syncStatus, detail.syncError));
  }

  /** The columns put together step by step are those of the specified row. */
  lemma StepsAgree(row: Row, s: Readings, runtime: Runtime, text: Option<string>, merged: Merged, detail: Detail)
    requires s.status.Found? ==> runtime == s.status.value
    requires s.status.Missing? ==> runtime == Runtime("UNKNOWN", None, None)
    requires s.status.Failed? ==> runtime == ReadRuntime(row.runtime)
    requires text == if s.current.Found? then Some(s.current.value) else None
    requires merged == if s.current.Missing? then MergeRecord(row, s.parsed, text).(content := None) else MergeRecord(row, s.parsed, text)
    requires detail.command == merged.command && detail.directory == merged.directory && detail.stdoutLog == merged.stdoutLog
    requires detail.content == merged.content
    requires detail.hasBackup == if s.backup.Failed? then row.detail.hasBackup else s.backup.Found?
    requires detail.backup == if s.backup.Failed? then Read(row.detail.backup) else if s.backup.Found? then Some(s.backup.value) else None
    requires detail.syncStatus == if s.status.Found? && s.current.Found? && !s.backup.Failed? then "SUCCESS" else "FAILED"
    requires detail.syncError ==
             Or(BackupText(s.backup), Or(CurrentText(row, s.current), Or(StatusText(row, s.status), None)))
    ensures Synced(row, s) == row.(runtime := runtime, detail := detail, meta := merged.meta, port := merged.port)
  {
    hide LastText, Prefer;
    LastOfThree(StatusText(row, s.status), CurrentText(row, s.current), BackupText(s.backup));
    assert forall t: string :: STATUS_FAILED + t != "" && NO_ENTRY + t != "" && CURRENT_FAILED + t != ""
                               && CURRENT_MISSING + t != "" && BACKUP_FAILED + t != "";
  }

  lemma Together(fs: FileMap, path: string, s: Readings)
    requires Truthful(fs, path, s.current) && Truthful(fs, Bak(path), s.backup) && ParsedFrom(s.current, s.parsed)
    ensures TruthfulReadings(fs, path, s)
  {
  }

  lemma WhatIsStored(fs: FileMap, row: Row, s: Readings)
    requires TruthfulReadings(fs, row.path, s)
    ensures var after := Synced(row, s);
            after.host == row.host && after.path == row.path && after.name == row.name && after.archived == row.archived
            && after.mode == row.mode
            && Answers(fs, row, after, s, Reply(after.runtime, after.detail.syncStatus, after.detail.syncError))
  {
    hide LastText, MergeRecord, Parse, Bak;
    FailedIffError(row, s);
    SyncMirrors(fs, row, s);
  }
}
