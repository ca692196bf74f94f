/** PRECHECK of an import: app/services/supervisor_import_service.py. Every scanned file becomes one report
    item and one staging row; nothing but the staging table changes. */
module Precheck {
  import opened Text
  import opened PathNames
  import opened Files
  import opened Registry
  import opened Staging
  import opened Commit
  import opened Sites
  import opened RegistryService
  import StagingRuns
  import Template

  /** What a file means for the registry. */
  datatype Outlook = NewRecord | OverTemplate | RefreshSnapshot

  ghost function OutlookOf(rows: Rows, d: Draft): Outlook {
    if !Present(rows, d) then NewRecord
    else if rows[IdAt(rows, d)].mode == TemplateManaged then OverTemplate
    else RefreshSnapshot
  }

  /** `_build_precheck_message` */
  function PrecheckText(o: Outlook): string {
    match o
    case NewRecord => "预检通过，正式导入时将新增记录"
    case OverTemplate => "预检通过，正式导入时将覆盖原模板纳管记录"
    case RefreshSnapshot => "预检通过，正式导入时将更新已有导入快照"
  }

  /** `_build_commit_message` */
  function CommitText(o: Outlook): string {
    match o
    case NewRecord => "导入成功"
    case OverTemplate => "已覆盖原模板纳管记录"
    case RefreshSnapshot => "已更新已有导入快照"
  }

  /** `build_import_registry_data` */
  function ImportDraft(host: string, path: string, content: string, p: Template.Parsed): Draft {
    Draft(host, path, Basename(path), p.name, ImportedReadonly, content, p.complete, p.warnings, p.port,
          Meta(p.job, p.moduleName, p.javaPath, p.active, p.jar, p.xms, p.xmx, p.user))
  }

  /** `_build_item_from_data` */
  function ItemFrom(d: Draft, result: ImportResult, message: string): Item {
    Item(d.path, d.fileName, Some(d.name), d.port, d.meta, d.complete, d.warnings, result, message)
  }

  /** `_build_skipped_item` */
  function SkippedItem(path: string, message: string): Item {
    Item(path, Basename(path), None, None, Meta(None, None, None, None, None, None, None, None), false, [], Skipped, message)
  }

  /** The draft a scanned path stands for, when it can be read, parsed and normalised. */
  function Scanned(fs: FileMap, host: string, path: string): Option<Draft> {
    var n := NormalizeConfigPath(path, false);
    if n.Err? || n.value !in fs then None
    else
      var p := Template.Parse(fs[n.value]);
      if p.Err? then None
      else
        var d := NormalizeDraft(ImportDraft(host, n.value, fs[n.value], p.value));
        if d.Err? then None else Some(d.value)
  }

  /** `get_by_config_path_optional` normalises the path of the normalised draft once more before it looks it up. */
  function PlanKey(d: Draft): Result<string> { NormalizeConfigPath(d.path, false) }

  /** The file can be planned after files whose names were taken by the paths in `names`. */
  ghost predicate Plannable(fs: FileMap, t: Table, host: string, path: string, names: map<string, string>) {
    var d := Scanned(fs, host, path);
    d.Some? && (d.value.name in names ==> names[d.value.name] == path) && PlanKey(d.value).Ok? && !Clash(t.rows, d.value)
  }

  /** A planned item, its row and what they announce. */
  ghost predicate PlannedItem(fs: FileMap, t: Table, host: string, path: string, item: Item, baseline: Option<string>) {
    var d := Scanned(fs, host, path);
    d.Some? && PlanKey(d.value).Ok? && !Clash(t.rows, d.value) && baseline == Some(d.value.baseline)
    && item == ItemFrom(d.value, Planned, PrecheckText(OutlookOf(t.rows, d.value.(path := PlanKey(d.value).value))))
  }

  /** What an item says of its file: the parsed fields, one by one, and the text. */
  predicate ItemShowsFile(fs: FileMap, path: string, item: Item, baseline: Option<string>) {
    NormalizeConfigPath(path, false).Ok? && NormalizeConfigPath(path, false).value in fs
    && var text := fs[NormalizeConfigPath(path, false).value];
       baseline == Some(text) && Template.Parse(text).Ok?
       && var p := Template.Parse(text).value;
          item.name == Some(p.name) && item.port == p.port && item.complete == p.complete && item.warnings == p.warnings
          && item.meta.job == p.job && item.meta.moduleName == p.moduleName && item.meta.javaPath == p.javaPath
          && item.meta.active == p.active && item.meta.jar == p.jar && item.meta.xms == p.xms && item.meta.xmx == p.xmx
          && item.meta.user == p.user && item.fileName == Basename(item.path) && item.result == Planned
  }

  lemma PlannedShowsFile(fs: FileMap, t: Table, host: string, path: string, item: Item, baseline: Option<string>)
    requires PlannedItem(fs, t, host, path, item, baseline)
    ensures ItemShowsFile(fs, path, item, baseline)
  {
    hide NormalizeConfigPath, NormalizeDraft, Template.Parse, Clash, OutlookOf, PlanKey, PrecheckText, Basename;
    var n := NormalizeConfigPath(path, false).value;
    var p := Template.Parse(fs[n]).value;
    ParsedName(fs[n]);
    NormalizedParts(ImportDraft(host, n, fs[n], p));
  }

  /** `plan_import_upsert`: what stands at the path, unless another path has the name. */
  method PlanUpsert(site: Site, d: Draft) returns (r: Result<Outlook>)
    requires KeyedTable(site.table)
    ensures r.Ok? ==>
              PlanKey(d).Ok? && !Clash(site.table.rows, d)
              && r.value == OutlookOf(site.table.rows, d.(path := PlanKey(d).value))
    ensures r.Err? && site.Verdict(r.error) ==> PlanKey(d).Err? || Clash(site.table.rows, d)
  {
    hide UniqueNames, UniquePaths, Clash, Present, IdAt, PlanKey;
    var key :- PlanKey(d);
    var existing :- FindByPath(site, d.host, key);
    var named :- FindByName(site, d.host, d.name);
    PathFound(site.table.rows, d.(path := key), existing);
    NameFound(site.table.rows, d, named);
    if named.Some? && site.table.rows[named.value].path != d.path { return Err(ConfigAlreadyExists); }
    if existing.None? { return Ok(NewRecord); }
    r := Ok(if site.table.rows[existing.value].mode == TemplateManaged then OverTemplate else RefreshSnapshot);
  }

  /** Normalising rewrites the four keys and nothing else; a parsed name stays as it is. */
  lemma NormalizedParts(d: Draft)
    requires NormalizeDraft(d).Ok?
    ensures var n := NormalizeDraft(d).value;
            n == d.(host := n.host, name := n.name, fileName := n.fileName, path := n.path)
            && EnsureSafeHost(d.host) == Ok(n.host) && EnsureSafeName(d.name) == Ok(n.name)
            && NormalizeConfigName(d.fileName, n.name) == Ok(n.fileName)
            && NormalizeConfigPath(d.path, false) == Ok(n.path) && Basename(n.path) == n.fileName
  {
    hide EnsureSafeHost, EnsureSafeName, NormalizeConfigName, NormalizeConfigPath, Basename;
  }

  lemma ParsedName(content: string)
    requires Template.Parse(content).Ok?
    ensures var name := Template.Parse(content).value.name; EnsureSafeName(name) == Ok(name)
  {
    hide EnsureSafeName, Strip, Find, Template.ReadFields, Template.ProgramSections;
    var ini := Template.Ini.ReadIni(content, false).value;
    var section := Template.ProgramSections(ini.sections)[0];
    SafeNameFixed(Strip(section[Find(section, "program:", 0) + 8..]));
    ReadName(content);
  }

  lemma ReadName(content: string)
    requires Template.Parse(content).Ok?
    ensures var ini := Template.Ini.ReadIni(content, false).value;
            |Template.ProgramSections(ini.sections)| == 1
            && var section := Template.ProgramSections(ini.sections)[0]; var k := Find(section, "program:", 0);
               k + 8 <= |section| && EnsureSafeName(Strip(section[k + 8..])) == Ok(Template.Parse(content).value.name)
  {
    hide EnsureSafeName, Strip, Find, Template.ProgramSections;
  }

  /** `_precheck_config_path`: one file; `why` is the error behind a skipped item. */
  method PrecheckPath(site: Site, host: string, path: string, names: map<string, string>)
    returns (item: Item, baseline: Option<string>, names': map<string, string>, why: Option<Error>)
    requires host in site.disks && KeyedTable(site.table)
    ensures item.result == if why.None? then Planned else Skipped
    ensures why.None? ==> Plannable(site.disks[host], site.table, host, path, names)
                          && PlannedItem(site.disks[host], site.table, host, path, item, baseline)
                          && names' == names[Scanned(site.disks[host], host, path).value.name := path]
    ensures why.Some? ==> names' == names
    ensures why.Some? && site.Verdict(why.value) ==> !Plannable(site.disks[host], site.table, host, path, names)
  {
    hide NormalizeConfigPath, NormalizeDraft, Template.Parse, KeyedTable, Clash, OutlookOf, Basename, PlanKey;
    var message: string := *;
    item, baseline, names' := SkippedItem(path, message), None, names;
    var n := NormalizeConfigPath(path, false);
    if n.Err? { why := Some(n.error); return; }
    var text := site.ReadText(host, n.value);
    if text.Err? { why := Some(text.error); return; }
    baseline := Some(text.value);
    var parsed := Template.Parse(text.value);
    if parsed.Err? { why := Some(parsed.error); return; }
    var data := ImportDraft(host, n.value, text.value, parsed.value);
    item := ItemFrom(data, Skipped, message);
    ParsedName(text.value);
    assert NormalizeDraft(data).Ok? ==> NormalizeDraft(data).value.name == data.name
                                        && NormalizeDraft(data).value.baseline == data.baseline by {
      if NormalizeDraft(data).Ok? { NormalizedParts(data); }
    }
    if data.name in names && names[data.name] != path { why := Some(ParamError); return; }
    var normal := NormalizeDraft(data);
    if normal.Err? { why := Some(normal.error); return; }
    var outlook := PlanUpsert(site, normal.value);
    if outlook.Err? { why := Some(outlook.error); return; }
    item := ItemFrom(normal.value, Planned, PrecheckText(outlook.value));
    names' := names[normal.value.name := path];
    why := None;
  }

  /** The items, rows and scanned paths of a completed precheck over files `fs` and table `t`. */
  ghost predicate Prechecked(
    fs: FileMap, t: Table, host: string, paths: seq<string>, items: seq<Item>, rows: seq<StagedRow>)
  {
    && |paths| > 0 && |items| == |paths| && |rows| == |paths|
    && (forall i, j :: 0 <= i < j < |paths| ==> paths[i] != paths[j])
    && (forall i :: 0 <= i < |rows| ==> Stages(rows[i], items[i]))
    && (forall i :: 0 <= i < |items| ==> items[i].result == Skipped
                                         || PlannedItem(fs, t, host, paths[i], items[i], rows[i].baseline))
    && (forall i, j :: 0 <= i < j < |items| && items[i].result == Planned && items[j].result == Planned
                       ==> items[i].name != items[j].name)
  }

  datatype Report = Report(host: string, batch: string, summary: Summary, items: seq<Item>)

  /** `insert_batch`: row by row, without a transaction. */
  method InsertBatch(
    site: Site, items: seq<Item>, baselines: seq<Option<string>>, batch: string, host: string, operator: int,
    operatorName: string, now: int)
    returns (r: Result<()>, ghost rows: seq<StagedRow>)
    requires |baselines| == |items|
    modifies site`staging
    ensures site.staging == old(site.staging) + rows && BatchRows(rows, batch, host, operator, now)
    ensures |rows| <= |items| && (r.Ok? ==> |rows| == |items|) && (site.reliable ==> r.Ok?)
    ensures forall i :: 0 <= i < |rows| ==> Stages(rows[i], items[i]) && rows[i].baseline == baselines[i]
  {
    rows := [];
    var clock := now;
    assert site.staging == old(site.staging) + rows;
    for i := 0 to |items|
      invariant |rows| == i && clock >= now
      invariant site.staging == old(site.staging) + rows && BatchRows(rows, batch, host, operator, now)
      invariant forall j :: 0 <= j < i ==> Stages(rows[j], items[j]) && rows[j].baseline == baselines[j]
    {
      var ok := site.Statement();
      if !ok { return Err(Database), rows; }
      var reading: int := *;
      if reading > clock { clock := reading; }
      var row := RowOf(items[i], baselines[i], batch, host, operator, operatorName, clock);
      site.staging := site.staging + [row];
      assert old(site.staging) + rows + [row] == old(site.staging) + (rows + [row]);
      rows := rows + [row];
    }
    r := Ok(());
  }

  /** The names taken by the files of a prefix of the scan, each by the last file planned under it. */
  ghost function Taken(fs: FileMap, t: Table, host: string, paths: seq<string>): map<string, string> {
    if paths == [] then map[]
    else
      var n := |paths| - 1;
      var names := Taken(fs, t, host, paths[..n]);
      if Plannable(fs, t, host, paths[n], names) then names[Scanned(fs, host, paths[n]).value.name := paths[n]] else names
  }

  /** The scan loop of `_execute_precheck`. */
  method PrecheckAll(site: Site, host: string, paths: seq<string>)
    returns (items: seq<Item>, baselines: seq<Option<string>>)
    requires host in site.disks && KeyedTable(site.table)
    requires forall i, j :: 0 <= i < j < |paths| ==> paths[i] != paths[j]
    ensures |items| == |paths| && |baselines| == |paths|
    ensures forall i :: 0 <= i < |items| ==> items[i].result == Skipped || items[i].result == Planned
    ensures forall i :: 0 <= i < |items| ==>
              items[i].result == Skipped
              || PlannedItem(site.disks[host], site.table, host, paths[i], items[i], baselines[i])
    ensures forall i, j :: 0 <= i < j < |items| && items[i].result == Planned && items[j].result == Planned
              ==> items[i].name != items[j].name
    ensures site.reliable ==> PlansAll(site.disks[host], site.table, host, paths, items)
  {
    hide Plannable, PlannedItem, Scanned, KeyedTable, Taken, PlansAll;
    items, baselines := [], [];
    var names: map<string, string> := map[];
    NothingPlanned(site.disks[host], site.table, host, paths[..0]);
    for k := 0 to |paths|
      invariant |items| == k && |baselines| == k
      invariant forall i :: 0 <= i < k ==> items[i].result == Skipped || items[i].result == Planned
      invariant forall i :: 0 <= i < k ==>
                  items[i].result == Skipped
                  || PlannedItem(site.disks[host], site.table, host, paths[i], items[i], baselines[i])
      invariant forall i :: 0 <= i < k && items[i].result == Planned ==>
                  items[i].name.Some? && items[i].name.value in names && names[items[i].name.value] == paths[i]
      invariant forall i, j :: 0 <= i < j < k && items[i].result == Planned && items[j].result == Planned
                  ==> items[i].name != items[j].name
      invariant site.reliable ==> names == Taken(site.disks[host], site.table, host, paths[..k])
      invariant site.reliable ==> PlansAll(site.disks[host], site.table, host, paths[..k], items)
    {
      var item, baseline, names', why := PrecheckPath(site, host, paths[k], names);
      if why.None? { PlannedName(site.disks[host], site.table, host, paths[k], item, baseline); }
      if site.reliable {
        PlansOneMore(site.disks[host], site.table, host, paths, k, items, item);
      }
      TakenNames(site.disks[host], site.table, host, paths[k], names);
      items, baselines, names := items + [item], baselines + [baseline], names';
    }
    assert paths[..|paths|] == paths;
  }

  /** An item is PLANNED exactly when its file can be planned after the ones before it. */
  ghost predicate PlansAll(fs: FileMap, t: Table, host: string, paths: seq<string>, items: seq<Item>) {
    |items| == |paths|
    && forall i :: 0 <= i < |items| ==>
         (items[i].result == Planned <==> Plannable(fs, t, host, paths[i], Taken(fs, t, host, paths[..i])))
  }

  lemma PlansOneMore(fs: FileMap, t: Table, host: string, paths: seq<string>, k: nat, items: seq<Item>, item: Item)
    requires k < |paths| && PlansAll(fs, t, host, paths[..k], items)
    requires item.result == Planned <==> Plannable(fs, t, host, paths[k], Taken(fs, t, host, paths[..k]))
    ensures PlansAll(fs, t, host, paths[..k + 1], items + [item])
    ensures Taken(fs, t, host, paths[..k + 1]) ==
            var names := Taken(fs, t, host, paths[..k]);
            if Plannable(fs, t, host, paths[k], names) then
              assert Scanned(fs, host, paths[k]).Some? by { TakenNames(fs, t, host, paths[k], names); }
              names[Scanned(fs, host, paths[k]).value.name := paths[k]]
            else names
  {
    hide Plannable, Scanned;
    var more := paths[..k + 1];
    assert more[..k] == paths[..k];
    forall i | 0 <= i <= k
      ensures (items + [item])[i].result == Planned <==> Plannable(fs, t, host, more[i], Taken(fs, t, host, more[..i]))
    {
      assert more[..i] == paths[..i];
      if i < k { assert paths[..k][..i] == paths[..i]; }
    }
  }

  lemma NothingPlanned(fs: FileMap, t: Table, host: string, paths: seq<string>)
    requires paths == []
    ensures Taken(fs, t, host, paths) == map[] && PlansAll(fs, t, host, paths, [])
  {
  }

  lemma PlannedName(fs: FileMap, t: Table, host: string, path: string, item: Item, baseline: Option<string>)
    requires PlannedItem(fs, t, host, path, item, baseline)
    ensures Scanned(fs, host, path).Some? && item.name == Some(Scanned(fs, host, path).value.name)
  {
    hide Scanned, Clash, PlanKey, OutlookOf, PrecheckText;
  }

  lemma TakenNames(fs: FileMap, t: Table, host: string, path: string, names: map<string, string>)
    ensures Plannable(fs, t, host, path, names) ==>
              Scanned(fs, host, path).Some?
              && var name := Scanned(fs, host, path).value.name; name in names ==> names[name] == path
  {
    hide Scanned, Clash, PlanKey;
  }

  /** `_execute_precheck`: `batch` is the new batch id and `now` the clock when it starts. It reads the
      registry and the host and writes the staging table only. When no call fails, it succeeds exactly if the
      host is known and has a config file, and plans exactly the files that can be planned. */
  method Precheck(site: Site, host: string, operator: int, operatorName: string, batch: string, now: int)
    returns (r: Result<Report>, ghost paths: seq<string>, ghost rows: seq<StagedRow>)
    requires KeyedTable(site.table)
    modifies site`staging
    ensures StagingRuns.Step(old(site.staging), StagingRuns.Prechecking(batch, Strip(host), operator, now, rows), site.staging)
    ensures r.Ok? ==>
              Strip(host) in site.disks && EnsureSafeHost(Strip(host)) == Ok(Strip(host))
              && r.value.host == Strip(host) && r.value.batch == batch
              && Prechecked(site.disks[Strip(host)], site.table, Strip(host), paths, r.value.items, rows)
              && (forall f :: f in paths <==> f in site.disks[Strip(host)] && IsConfig(f, false))
              && site.staging == Cleared(old(site.staging), now - TTL, Strip(host), operator) + rows
              && CountOf(r.value.items, Skipped) <= |r.value.items| && r.value.summary == SummaryOf(r.value.items)
              && (site.reliable ==> PlansAll(site.disks[Strip(host)], site.table, Strip(host), paths, r.value.items))
    ensures r.Ok? ==>
              Strip(host) in site.disks && |paths| == |rows| == |r.value.items|
              && (forall i :: 0 <= i < |rows| ==>
                    r.value.items[i].result == Skipped
                    || ItemShowsFile(site.disks[Strip(host)], paths[i], r.value.items[i], rows[i].baseline))
              && forall x :: x in site.staging ==> x in rows || x.created >= now - 24 * 3600
    ensures r.Err? && site.reliable ==>
              EnsureSafeHost(Strip(host)) != Ok(Strip(host)) || Strip(host) !in site.disks
              || forall f :: f in site.disks[Strip(host)] ==> !IsConfig(f, false)
  {
    hide Strip, EnsureSafeHost, KeyedTable, Without, PlannedItem, ItemShowsFile, IsConfig, PlansAll, Stages, RowOf,
      BatchRows, CountOf;
    rows, paths := [], [];
    NoRows(batch, Strip(host), operator, now);
    var known := GetHost(site, host);
    if known.Err? { return Err(known.error), paths, rows; }
    var h := known.value;
    var ok := site.Statement();
    if !ok { return Err(Database), paths, rows; }
    site.staging := Without(site.staging, CreatedBefore(now - TTL));
    ok := site.Statement();
    if !ok { return Err(Database), paths, rows; }
    site.staging := Without(site.staging, OfOwner(h, operator));
    assert site.staging + [] == site.staging;
    var listed := site.ListConfigs(h, false);
    if listed.Err? { return Err(listed.error), paths, rows; }
    if listed.value == [] { return Err(ConfigNotFound), paths, rows; }
    paths := listed.value;
    var items, baselines := PrecheckAll(site, h, listed.value);
    var inserted;
    inserted, rows := InsertBatch(site, items, baselines, batch, h, operator, operatorName, now);
    if inserted.Err? { return Err(inserted.error), paths, rows; }
    CountBound(items, Skipped);
    NoneYet(items, Imported);
    NoneYet(items, Updated);
    var skipped := CountOf(items, Skipped);
    r := Ok(Report(h, batch, Summary(|items| - skipped, 0, 0, skipped), items));
    ShowFiles(site.disks[h], site.table, h, paths, items, rows);
    NothingExpired(old(site.staging), now - TTL, h, operator, rows);
  }

  lemma ShowFiles(fs: FileMap, t: Table, host: string, paths: seq<string>, items: seq<Item>, rows: seq<StagedRow>)
    requires Prechecked(fs, t, host, paths, items, rows)
    ensures forall i :: 0 <= i < |rows| ==> items[i].result == Skipped || ItemShowsFile(fs, paths[i], items[i], rows[i].baseline)
  {
    hide PlannedItem, ItemShowsFile, Stages;
    forall i | 0 <= i < |rows| && items[i].result != Skipped ensures ItemShowsFile(fs, paths[i], items[i], rows[i].baseline) {
      PlannedShowsFile(fs, t, host, paths[i], items[i], rows[i].baseline);
    }
  }

  /** No row past its time is left. */
  lemma NothingExpired(s: seq<StagedRow>, expire: int, host: string, operator: int, rows: seq<StagedRow>)
    ensures forall x :: x in Cleared(s, expire, host, operator) + rows ==> x in rows || x.created >= expire
  {
    hide Without;
    forall x | x in Cleared(s, expire, host, operator) + rows ensures x in rows || x.created >= expire {
      Members(s, CreatedBefore(expire), x);
      Members(Without(s, CreatedBefore(expire)), OfOwner(host, operator), x);
    }
  }

  lemma NoRows(batch: string, host: string, operator: int, now: int)
    ensures BatchRows([], batch, host, operator, now)
  {
  }

  lemma {:induction false} NoneYet(items: seq<Item>, result: ImportResult)
    requires forall i :: 0 <= i < |items| ==> items[i].result != result
    ensures CountOf(items, result) == 0
  {
    if items != [] { NoneYet(items[..|items| - 1], result); }
  }
}
