/** app/services/supervisor_import_service.py: COMMIT with its report, and reloading a staged batch. */
module ImportService {
  import opened Text
  import opened Registry
  import opened Staging
  import opened Commit
  import opened Sites
  import opened RegistryService
  import opened Precheck
  import opened ImportCommit
  import opened ImportPlan
  import PathNames
  import Lifecycle
  import StagingRuns

  /** `_build_item_from_record` */
  function ItemFromRow(r: Row, result: ImportResult, message: string): Item {
    Item(r.path, r.fileName, Some(r.name), r.port, ReadMeta(r.meta), r.complete, r.warnings, result, message)
  }

  function ItemOfResult(c: Committed): Item {
    ItemFromRow(c.row, if c.created then Imported else Updated, CommitMessage(c))
  }

  /** What a report item says of the row that was written. */
  predicate ItemShowsRow(item: Item, r: Row) {
    item.path == r.path && item.fileName == r.fileName && item.name == Some(r.name) && item.port == r.port
    && item.complete == r.complete && item.warnings == r.warnings
    && item.meta.job == Read(r.meta.job) && item.meta.moduleName == Read(r.meta.moduleName)
    && item.meta.javaPath == Read(r.meta.javaPath) && item.meta.active == Read(r.meta.active)
    && item.meta.jar == Read(r.meta.jar) && item.meta.xms == Read(r.meta.xms) && item.meta.xmx == Read(r.meta.xmx)
    && item.meta.user == Read(r.meta.user)
  }

  lemma ItemsShow(results: seq<Committed>, items: seq<Item>)
    requires |items| == |results| && forall i :: 0 <= i < |items| ==> items[i] == ItemOfResult(results[i])
    ensures forall i :: 0 <= i < |items| ==>
              ItemShowsRow(items[i], results[i].row) && items[i].result == if results[i].created then Imported else Updated
  {
    hide CommitMessage, Read;
  }

  /** Every entry is either a new row or an update, and the new ones are the rows the table grew by. */
  lemma {:induction false} ResultCounts(t: Table, ds: seq<Draft>, results: seq<Committed>, items: seq<Item>)
    requires AllReported(t, ds, results) && |items| == |results|
    requires forall i :: 0 <= i < |items| ==> items[i].result == if results[i].created then Imported else Updated
    ensures CountOf(items, Imported) == NewCount(t, ds) && CountOf(items, Imported) + CountOf(items, Updated) == |items|
    ensures CountOf(items, Skipped) == 0
    decreases |ds|
  {
    hide Reported, Upserts;
    if ds != [] {
      var n := |ds| - 1;
      assert AllReported(t, ds[..n], results[..n]) by {
        forall i | 0 <= i < n ensures ReportedAt(t, ds[..n], i, results[..n][i]) {
          assert ds[..n][..i] == ds[..i] && ds[..n][..i + 1] == ds[..i + 1];
          assert ReportedAt(t, ds, i, results[i]);
        }
      }
      ResultCounts(t, ds[..n], results[..n], items[..n]);
      assert ReportedAt(t, ds, n, results[n]);
      LastTurn(t, ds, results[n]);
    }
  }

  lemma LastTurn(t: Table, ds: seq<Draft>, c: Committed)
    requires ds != [] && ReportedAt(t, ds, |ds| - 1, c)
    ensures NewCount(t, ds) == NewCount(t, ds[..|ds| - 1]) + if c.created then 1 else 0
  {
  }

  /** `_execute_commit`. A success reports one item per staged row; `imported` is what the table grew by, and
      imported and updated together are the batch. */
  method ExecuteCommit(site: Site, host: string, batch: string, operator: int) returns (r: Result<Report>)
    requires KeyedTable(site.table)
    modifies site`table, site`staging
    ensures r.Err? ==> site.table == old(site.table)
    ensures StagingRuns.Step(old(site.staging), StagingRuns.Committing(Strip(batch), Strip(host), operator, r.Ok?), site.staging)
    ensures r.Err? && site.Verdict(r.error) ==>
              Strip(batch) == "" || Strip(host) !in site.disks || EnsureSafeHostFails(host)
              || !Committable(old(site.table), Select(old(site.staging), OfBatch(Strip(batch), Strip(host), operator)))
    ensures r.Ok? ==>
              var rows := Select(old(site.staging), OfBatch(Strip(batch), Strip(host), operator));
              Committable(old(site.table), rows)
              && var ds := NormalDrafts(rows);
                 site.table == Upserts(old(site.table), ds)
                 && |r.value.items| == |rows| == r.value.summary.planned
                 && r.value.summary.imported + r.value.summary.updated == |rows| && r.value.summary.skipped == 0
                 && r.value.summary.imported == NewCount(old(site.table), ds)
                 && |site.table.rows| == |old(site.table.rows)| + r.value.summary.imported
                 && Lifecycle.AnyCommitStep(old(site.World()), site.World(), ds, Lifecycle.Done) && KeyedTable(site.table)
    ensures r.Ok? ==>
              var ds := NormalDrafts(Select(old(site.staging), OfBatch(Strip(batch), Strip(host), operator)));
              exists results: seq<Committed> ::
                AllReported(old(site.table), ds, results) && |results| == |r.value.items|
                && forall i :: 0 <= i < |results| ==>
                     r.value.items[i] == ItemOfResult(results[i]) && ItemShowsRow(r.value.items[i], results[i].row)
  {
    hide HoldsStaged, KeepsState, ItemShowsRow, ItemOfResult, Named, Normal, Distinct, NoneSkipped, Accepted, NormalDrafts, Upserts, AllReported, Select, Without, Strip, KeyedTable, NewCount, CanonicalDrafts,
      CommitMessage, ReadMeta, PathNames.EnsureSafeHost;
    if Strip(batch) == "" { return Err(ParamError); }
    var known := GetHost(site, host);
    if known.Err? { return Err(known.error); }
    var h := known.value;
    ghost var t, rows := site.table, Select(site.staging, OfBatch(Strip(batch), h, operator));
    var results :- CommitBatch(site, Strip(batch), h, operator);
    ghost var ds := NormalDrafts(rows);
    var items := seq(|results|, i requires 0 <= i < |results| => ItemOfResult(results[i]));
    assert |results| == |rows| by { Lengths(t, rows, results); }
    ItemsShow(results, items);
    ResultCounts(t, ds, results, items);
    CommitKeepsRows(t, ds);
    r := Ok(Report(h, Strip(batch), Summary(|items|, CountOf(items, Imported), CountOf(items, Updated), 0), items));
  }

  lemma StillInTime(s: seq<StagedRow>, expire: int)
    ensures forall x :: x in Without(s, CreatedBefore(expire)) <==> x in s && x.created >= expire
  {
    hide Without;
    forall x ensures x in Without(s, CreatedBefore(expire)) <==> x in s && x.created >= expire { Members(s, CreatedBefore(expire), x); }
  }

  predicate EnsureSafeHostFails(host: string) { PathNames.EnsureSafeHost(Strip(host)) != Ok(Strip(host)) }

  lemma Lengths(t: Table, rows: seq<StagedRow>, results: seq<Committed>)
    requires Committable(t, rows) && AllReported(t, NormalDrafts(rows), results)
    ensures |results| == |rows|
  {
  }

  datatype Loaded = Loaded(found: bool, batch: Option<string>, created: Option<int>, summary: Summary, items: seq<Item>)

  /** `load_staging`: rows past their time go, then the newest batch of this operator on this host comes back
      as a report. */
  method LoadStaging(site: Site, host: string, operator: int, now: int) returns (r: Result<Loaded>)
    modifies site`staging
    ensures StagingRuns.Step(old(site.staging), StagingRuns.Loading(Strip(host), operator, now), site.staging)
    ensures r.Ok? ==>
              site.staging == Without(old(site.staging), CreatedBefore(now - TTL))
              && var rows := LatestBatch(site.staging, Strip(host), operator);
                 r.value.found == (rows != []) && r.value.items == ItemsOf(rows)
                 && CountOf(ItemsOf(rows), Skipped) <= |rows| && r.value.summary == SummaryOf(ItemsOf(rows))
                 && (rows != [] ==> r.value.batch == Some(rows[0].batch) && r.value.created == Some(rows[0].created))
    ensures r.Err? && site.reliable ==> EnsureSafeHostFails(host) || Strip(host) !in site.disks
    ensures r.Ok? ==> forall x :: x in site.staging <==> x in old(site.staging) && x.created >= now - 24 * 3600
  {
    hide Select, Without, Strip, LatestBatch;
    var known := GetHost(site, host);
    if known.Err? { return Err(known.error); }
    var ok := site.Statement();
    if !ok { return Err(Database); }
    site.staging := Without(site.staging, CreatedBefore(now - TTL));
    StillInTime(old(site.staging), now - TTL);
    ok := site.Statement();
    if !ok { return Err(Database); }
    var rows := LatestBatch(site.staging, known.value, operator);
    var items := ItemsOf(rows);
    CountBound(items, Skipped);
    if rows == [] {
      return Ok(Loaded(false, None, None, Summary(0, 0, 0, 0), []));
    }
    var skipped := CountOf(items, Skipped);
    r := Ok(Loaded(true, Some(rows[0].batch), Some(rows[0].created),
                   Summary(|items| - skipped, CountOf(items, Imported), CountOf(items, Updated), skipped), items));
  }
}
