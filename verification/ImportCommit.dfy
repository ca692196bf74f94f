/** COMMIT of a staged batch: `ImportStagingService.commit_batch` of app/services/supervisor_registry_service.py.
    One transaction checks the batch, upserts entry by entry against the table it is changing, and clears the
    batch; a refusal anywhere undoes all of it. */
module ImportCommit {
  import opened Text
  import opened PathNames
  import opened Registry
  import opened Staging
  import opened Commit
  import opened Sites
  import opened RegistryService
  import Lifecycle

  predicate NoneSkipped(rows: seq<StagedRow>) { forall r :: r in rows ==> r.result != Skipped }

  predicate Named(rows: seq<StagedRow>) { forall i :: 0 <= i < |rows| ==> Read(rows[i].name).Some? }

  /** Names and paths are pairwise different. */
  predicate Distinct(rows: seq<StagedRow>) {
    forall i, j :: 0 <= i < j < |rows| ==> rows[i].path != rows[j].path && Read(rows[i].name) != Read(rows[j].name)
  }

  predicate Normal(rows: seq<StagedRow>)
    requires Named(rows)
  {
    forall i :: 0 <= i < |rows| ==> NormalizeDraft(DraftOf(rows[i])).Ok?
  }

  function NormalDrafts(rows: seq<StagedRow>): seq<Draft>
    requires Named(rows) && Normal(rows)
  {
    seq(|rows|, i requires 0 <= i < |rows| => NormalizeDraft(DraftOf(rows[i])).value)
  }

  /** What it takes for a batch to be committed to table `t`. */
  ghost predicate Committable(t: Table, rows: seq<StagedRow>) {
    rows != [] && NoneSkipped(rows) && Named(rows) && Distinct(rows) && Normal(rows) && Accepted(t, NormalDrafts(rows))
  }

  /** What a turn reports: the row it wrote, whether it is new, and what stood there before. */
  ghost predicate Reported(before: Table, after: Table, d: Draft, c: Committed) {
    c.created == !Present(before.rows, d)
    && c.id == (if c.created then before.next else IdAt(before.rows, d))
    && c.id in after.rows && c.row == after.rows[c.id]
    && c.before == (if c.created then None else Some(before.rows[c.id]))
  }

  ghost predicate ReportedAt(t: Table, ds: seq<Draft>, i: nat, c: Committed)
    requires i < |ds|
  {
    Reported(Upserts(t, ds[..i]), Upserts(t, ds[..i + 1]), ds[i], c)
  }

  ghost predicate AllReported(t: Table, ds: seq<Draft>, results: seq<Committed>) {
    |results| == |ds| && forall i :: 0 <= i < |ds| ==> ReportedAt(t, ds, i, results[i])
  }

  predicate AllDifferent(s: seq<string>) { forall i, j :: 0 <= i < j < |s| ==> s[i] != s[j] }

  predicate KeysOf(rows: seq<StagedRow>, i: nat, names: seq<string>, paths: seq<string>)
    requires i <= |rows|
  {
    |names| == i && |paths| == i
    && forall j :: 0 <= j < i ==> Read(rows[j].name) == Some(names[j]) && rows[j].path == paths[j]
  }

  lemma DistinctKeys(rows: seq<StagedRow>, names: seq<string>, paths: seq<string>)
    requires KeysOf(rows, |rows|, names, paths)
    ensures Named(rows) && (Distinct(rows) <==> AllDifferent(names) && AllDifferent(paths))
  {
    hide Read;
    if Distinct(rows) {
      forall i, j | 0 <= i < j < |rows| ensures names[i] != names[j] && paths[i] != paths[j] {
        assert Read(rows[i].name) != Read(rows[j].name);
      }
    }
  }

  /** The i-th entry repeats a name or a path. */
  lemma KnownEntry(rows: seq<StagedRow>, i: nat, names: seq<string>, paths: seq<string>)
    requires i < |rows| && KeysOf(rows, i, names, paths)
    requires Read(rows[i].name).Some? && (Read(rows[i].name).value in names || rows[i].path in paths)
    ensures !Distinct(rows)
  {
    hide Read;
    var j :| 0 <= j < i && (Some(names[j]) == Read(rows[i].name) || paths[j] == rows[i].path);
    assert Read(rows[j].name) == Some(names[j]) && rows[j].path == paths[j];
  }

  /** The duplicate check over the batch itself. */
  method CheckBatch(rows: seq<StagedRow>) returns (r: Result<()>)
    ensures r.Ok? <==> Named(rows) && Distinct(rows)
    ensures r.Err? ==> r.error == ParamError || r.error == ConfigAlreadyExists
  {
    hide Read, Distinct;
    var programPaths: map<string, string> := map[];
    var configPaths: set<string> := {};
    ghost var names: seq<string>, paths: seq<string> := [], [];
    for i := 0 to |rows|
      invariant KeysOf(rows, i, names, paths) && AllDifferent(names) && AllDifferent(paths)
      invariant forall n :: n in programPaths <==> n in names
      invariant forall p :: p in configPaths <==> p in paths
      invariant forall n :: n in programPaths ==> programPaths[n] in configPaths
    {
      var name := Read(rows[i].name);
      if name.None? { return Err(ParamError); }
      if name.value in names || rows[i].path in paths { KnownEntry(rows, i, names, paths); }
      if name.value in programPaths && programPaths[name.value] != rows[i].path { return Err(ConfigAlreadyExists); }
      if rows[i].path in configPaths { return Err(ConfigAlreadyExists); }
      programPaths := programPaths[name.value := rows[i].path];
      configPaths := configPaths + {rows[i].path};
      names, paths := names + [name.value], paths + [rows[i].path];
    }
    DistinctKeys(rows, names, paths);
    r := Ok(());
  }

  /** One turn of the loop: find by path, check the name, then update or insert. */
  method UpsertOne(site: Site, d: Draft) returns (r: Result<Committed>)
    requires KeyedTable(site.table)
    modifies site`table
    ensures r.Ok? ==> !Clash(old(site.table.rows), d) && site.table == Upsert(old(site.table), d)
    ensures r.Ok? ==> Reported(old(site.table), site.table, d, r.value)
    ensures r.Err? && site.Verdict(r.error) ==> Clash(old(site.table.rows), d)
  {
    hide UniqueNames, UniquePaths, Clash, Present, IdAt;
    var existing :- FindByPath(site, d.host, d.path);
    var named :- FindByName(site, d.host, d.name);
    PathFound(site.table.rows, d, existing);
    NameFound(site.table.rows, d, named);
    if named.Some? && site.table.rows[named.value].path != d.path { return Err(ConfigAlreadyExists); }
    var ok := site.Statement();
    if !ok { return Err(Database); }
    if existing.None? {
      var id := site.table.next;
      site.table := Insert(site.table, NewRow(d));
      return Ok(Committed(id, site.table.rows[id], true, None));
    }
    var id := existing.value;
    var before := site.table.rows[id];
    site.table := Replace(site.table, id, Overwritten(before, d));
    return Ok(Committed(id, site.table.rows[id], false, Some(before)));
  }

  lemma ReportedMore(t: Table, ds: seq<Draft>, results: seq<Committed>, d: Draft, c: Committed)
    requires AllReported(t, ds, results) && Accepted(t, ds) && !Clash(Upserts(t, ds).rows, d)
    requires Reported(Upserts(t, ds), Upsert(Upserts(t, ds), d), d, c)
    ensures AllReported(t, ds + [d], results + [c]) && Accepted(t, ds + [d])
    ensures Upserts(t, ds + [d]) == Upsert(Upserts(t, ds), d)
  {
    hide Reported, Clash, Upsert;
    var more, out := ds + [d], results + [c];
    assert more[..|ds|] == ds && more[..|ds| + 1] == more;
    forall i | 0 <= i < |more| ensures ReportedAt(t, more, i, out[i]) && !Clash(Upserts(t, more[..i]).rows, more[i]) {
      if i < |ds| {
        assert more[..i] == ds[..i] && more[..i + 1] == ds[..i + 1];
        assert ReportedAt(t, ds, i, results[i]);
      }
    }
  }

  /** `ds` are the drafts of the first `i` entries. */
  predicate NormalSoFar(rows: seq<StagedRow>, i: nat, ds: seq<Draft>)
    requires i <= |rows| && Named(rows)
  {
    |ds| == i && forall j :: 0 <= j < i ==> NormalizeDraft(DraftOf(rows[j])) == Ok(ds[j])
  }

  lemma RefusedAt(t: Table, rows: seq<StagedRow>, i: nat, ds: seq<Draft>)
    requires Named(rows) && i < |rows| && NormalSoFar(rows, i, ds)
    requires NormalizeDraft(DraftOf(rows[i])).Ok? ==> Clash(Upserts(t, ds).rows, NormalizeDraft(DraftOf(rows[i])).value)
    ensures Normal(rows) ==> !Accepted(t, NormalDrafts(rows))
  {
    hide NormalizeDraft, DraftOf, Clash, Upserts;
    if Normal(rows) {
      var all := NormalDrafts(rows);
      assert all[..i] == ds;
      assert Clash(Upserts(t, all[..i]).rows, all[i]);
    }
  }

  /** The loop over the batch. */
  method UpsertAll(site: Site, rows: seq<StagedRow>) returns (r: Result<seq<Committed>>)
    requires KeyedTable(site.table) && Named(rows)
    modifies site`table
    ensures r.Ok? ==>
              Normal(rows) && Accepted(old(site.table), NormalDrafts(rows))
              && site.table == Upserts(old(site.table), NormalDrafts(rows))
              && AllReported(old(site.table), NormalDrafts(rows), r.value)
    ensures r.Err? && site.Verdict(r.error) ==> Normal(rows) ==> !Accepted(old(site.table), NormalDrafts(rows))
  {
    hide NormalizeDraft, DraftOf, Clash, KeyedTable, Upsert, Reported, AllReported, Accepted;
    ghost var t := site.table;
    var results: seq<Committed> := [];
    ghost var ds: seq<Draft> := [];
    assert AllReported(t, [], []) && Accepted(t, []) by { NothingReported(t); }
    for i := 0 to |rows|
      invariant NormalSoFar(rows, i, ds) && Accepted(t, ds) && AllReported(t, ds, results)
      invariant site.table == Upserts(t, ds) && KeyedTable(site.table)
    {
      var normal := NormalizeDraft(DraftOf(rows[i]));
      if normal.Err? {
        RefusedAt(t, rows, i, ds);
        return Err(normal.error);
      }
      var one := UpsertOne(site, normal.value);
      if one.Err? {
        if site.Verdict(one.error) { RefusedAt(t, rows, i, ds); }
        return Err(one.error);
      }
      UpsertKeepsKeys(Upserts(t, ds), normal.value);
      ReportedMore(t, ds, results, normal.value, one.value);
      ds := ds + [normal.value];
      results := results + [one.value];
    }
    assert NormalDrafts(rows) == ds;
    r := Ok(results);
  }

  lemma NothingReported(t: Table)
    ensures AllReported(t, [], []) && Accepted(t, [])
  {
  }

  /** Inside the transaction. */
  method RunCommit(site: Site, batch: string, host: string, operator: int) returns (r: Result<seq<Committed>>)
    requires KeyedTable(site.table)
    modifies site`table, site`staging
    ensures var rows := Select(old(site.staging), OfBatch(batch, host, operator));
            (r.Ok? ==> Committable(old(site.table), rows)
                       && site.table == Upserts(old(site.table), NormalDrafts(rows))
                       && AllReported(old(site.table), NormalDrafts(rows), r.value)
                       && site.staging == Without(old(site.staging), OfBatch(batch, host, operator)))
            && (r.Err? && site.Verdict(r.error) ==> !Committable(old(site.table), rows))
  {
    hide NormalizeDraft, KeyedTable, Accepted, Upserts, AllReported, Distinct, Read, Select, Without;
    var ok := site.Statement();
    if !ok { return Err(Database); }
    var rows := Select(site.staging, OfBatch(batch, host, operator));
    if rows == [] { return Err(ConfigNotFound); }
    if !NoneSkipped(rows) { return Err(ConfigAlreadyExists); }
    var checked := CheckBatch(rows);
    if checked.Err? { return Err(checked.error); }
    var results :- UpsertAll(site, rows);
    ok := site.Statement();
    if !ok { return Err(Database); }
    site.staging := Without(site.staging, OfBatch(batch, host, operator));
    r := Ok(results);
  }

  /** The row has the columns of the staged row: names and paths normalised, empty text absent. */
  predicate HoldsStaged(row: Row, r: StagedRow) {
    && EnsureSafeHost(r.host) == Ok(row.host) && NormalizeConfigPath(r.path, false) == Ok(row.path)
    && row.fileName == Basename(row.path) && r.name.Some? && EnsureSafeName(r.name.value) == Ok(row.name)
    && row.mode == ImportedReadonly && row.baseline == (if r.baseline.Some? then r.baseline.value else "")
    && row.complete == r.complete && row.warnings == r.warnings && row.port == r.port
    && row.meta.job == Read(r.meta.job) && row.meta.moduleName == Read(r.meta.moduleName)
    && row.meta.javaPath == Read(r.meta.javaPath) && row.meta.active == Read(r.meta.active)
    && row.meta.jar == Read(r.meta.jar) && row.meta.xms == Read(r.meta.xms) && row.meta.xmx == Read(r.meta.xmx)
    && row.meta.user == Read(r.meta.user)
  }

  lemma StagedColumns(row: Row, r: StagedRow, d: Draft)
    requires Read(r.name).Some? && NormalizeDraft(DraftOf(r)) == Ok(d) && HoldsEntry(row, d)
    ensures HoldsStaged(row, r)
  {
    hide EnsureSafeHost, NormalizeConfigPath, EnsureSafeName, NormalizeConfigName, Basename;
  }

  lemma ReportedColumns(t: Table, ds: seq<Draft>, i: nat, c: Committed)
    requires i < |ds| && ReportedAt(t, ds, i, c)
    ensures HoldsEntry(c.row, ds[i]) && KeepsState(c.row, c.before)
  {
    hide Upsert;
    var before := Upserts(t, ds[..i]);
    assert ds[..i + 1][..i] == ds[..i] && ds[..i + 1][i] == ds[i];
    assert Upserts(t, ds[..i + 1]) == Upsert(before, ds[i]);
    UpsertColumns(before, ds[i]);
  }

  lemma AllColumns(t: Table, rows: seq<StagedRow>, results: seq<Committed>)
    requires Committable(t, rows) && AllReported(t, NormalDrafts(rows), results)
    ensures |results| == |rows|
    ensures forall i :: 0 <= i < |rows| ==> HoldsStaged(results[i].row, rows[i]) && KeepsState(results[i].row, results[i].before)
  {
    hide NormalizeDraft, DraftOf, Accepted, ReportedAt, HoldsStaged, HoldsEntry, KeepsState, Distinct, Read;
    var ds := NormalDrafts(rows);
    forall i | 0 <= i < |rows|
      ensures HoldsStaged(results[i].row, rows[i]) && KeepsState(results[i].row, results[i].before)
    {
      ReportedColumns(t, ds, i, results[i]);
      StagedColumns(results[i].row, rows[i], ds[i]);
    }
  }

  /** `commit_batch`: all or nothing. When no statement fails it goes through exactly if the batch is
      committable. Both keys are then still unique, whatever the shape of the paths. */
  method CommitBatch(site: Site, batch: string, host: string, operator: int) returns (r: Result<seq<Committed>>)
    requires KeyedTable(site.table)
    modifies site`table, site`staging
    ensures r.Err? ==> site.table == old(site.table) && site.staging == old(site.staging)
    ensures r.Err? && site.Verdict(r.error) ==> !Committable(old(site.table), Select(old(site.staging), OfBatch(batch, host, operator)))
    ensures r.Ok? ==>
              var rows := Select(old(site.staging), OfBatch(batch, host, operator));
              Committable(old(site.table), rows)
              && site.table == Upserts(old(site.table), NormalDrafts(rows))
              && AllReported(old(site.table), NormalDrafts(rows), r.value)
              && site.staging == Without(old(site.staging), OfBatch(batch, host, operator))
              && Lifecycle.AnyCommitStep(old(site.World()), site.World(), NormalDrafts(rows), Lifecycle.Done)
              && KeyedTable(site.table)
    ensures r.Ok? ==>
              var rows := Select(old(site.staging), OfBatch(batch, host, operator));
              |r.value| == |rows| > 0
              && forall i :: 0 <= i < |rows| ==>
                   rows[i].result != Skipped && HoldsStaged(r.value[i].row, rows[i])
                   && KeepsState(r.value[i].row, r.value[i].before)
  {
    hide HoldsStaged, KeepsState, NormalizeDraft, Canonical, KeyedTable, Accepted, Upserts, AllReported, Distinct, Read, Select, Without;
    var table, staging := site.table, site.staging;
    r := RunCommit(site, batch, host, operator);
    if r.Err? {
      site.table, site.staging := table, staging;
    } else {
      UpsertsKeepKeys(table, NormalDrafts(Select(staging, OfBatch(batch, host, operator))));
      AllColumns(table, Select(staging, OfBatch(batch, host, operator)), r.value);
    }
  }
}
