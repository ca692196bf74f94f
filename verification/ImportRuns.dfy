/** Precheck and commit of a batch with anything in between: runs that mix the lifecycle of the services with the
    staging protocol. */
module ImportRuns {
  import opened PathNames
  import opened Template
  import opened Files
  import opened Registry
  import opened Lifecycle
  import opened Commit
  import opened Precheck
  import opened ImportCommit
  import opened ImportPlan
  import opened TableRuns
  import Staging
  import StagingRuns
  import PortCheck
  import Runs

  // ---------------------------------------------------------------- joint runs

  /** A run of both stores. A precheck only reads the registry and the hosts; a commit that goes through is
      one event of both, and what it stages is what the registry gets. */
  ghost predicate JointRun(ws: seq<World>, es: seq<Event>, ss: seq<seq<Staging.StagedRow>>, gs: seq<StagingRuns.Event>) {
    LooseRun(ws, es) && StagingRuns.Run(ss, gs) && |gs| == |es|
    && forall k :: 0 <= k < |es| ==> Joint(ws[k], es[k], ws[k + 1], ss[k], gs[k])
  }

  ghost predicate Joint(w: World, e: Event, w': World, s: seq<Staging.StagedRow>, g: StagingRuns.Event) {
    && (g.Prechecking? || g.Loading? ==> w' == w)
    && ((e.ImportCommit? && e.out.Done?) <==> (g.Committing? && g.done))
    && (g.Committing? && g.done ==>
          var rows := Staging.Select(s, Staging.OfBatch(g.batch, g.host, g.operator));
          Committable(w.table, rows) && e.drafts == NormalDrafts(rows))
  }

  // ---------------------------------------------------------------- what keeps a batch committable

  /** Whoever holds one of the names on the host now held it before, at the same path. */
  ghost predicate NoNewHolder(rows: Rows, rows': Rows, host: string, names: set<string>) {
    forall id :: id in rows' && rows'[id].host == host && rows'[id].name in names ==>
      id in rows && rows[id].host == host && rows[id].name == rows'[id].name && rows[id].path == rows'[id].path
  }

  /** The event brings none of the names to the host: no completed create or update to one of them, no commit
      of one of them. Archive, restore, delete, sync and every request that fails are harmless. */
  ghost predicate Harmless(e: Event, host: string, names: set<string>) {
    match e
    case Create(h, f, out) => h == host && out.Done? && RenderService(f).Ok? ==> RenderService(f).value.name !in names
    case Update(h, _, f, _, _, out) => h == host && out.Done? && RenderService(f).Ok? ==> RenderService(f).value.name !in names
    case ImportCommit(ds, out) => out.Done? ==> forall i :: 0 <= i < |ds| ==> ds[i].host != host || ds[i].name !in names
    case _ => true
  }

  lemma {:induction false} UpsertsBringNone(t: Table, ds: seq<Draft>, host: string, names: set<string>)
    requires forall i :: 0 <= i < |ds| ==> ds[i].host != host || ds[i].name !in names
    ensures NoNewHolder(t.rows, Upserts(t, ds).rows, host, names)
    decreases |ds|
  {
    hide Upsert;
    if ds != [] {
      var n := |ds| - 1;
      UpsertsBringNone(t, ds[..n], host, names);
      UpsertBringsNone(Upserts(t, ds[..n]), ds[n], host, names);
    }
  }

  lemma UpsertBringsNone(t: Table, d: Draft, host: string, names: set<string>)
    requires d.host != host || d.name !in names
    ensures NoNewHolder(t.rows, Upsert(t, d).rows, host, names)
  {
  }

  lemma CreateBringsNone(w: World, w': World, host: string, f: Fields, out: Outcome, h: string, names: set<string>)
    requires CreateStep(w, w', host, f, out) && Harmless(Create(host, f, out), h, names)
    ensures NoNewHolder(w.table.rows, w'.table.rows, h, names)
  {
    hide RenderService, NoConflict, PortCheck.ScanConflict;
  }

  lemma UpdateBringsNone(
    w: World, w': World, host: string, name: string, f: Fields, stamp: string, stamp2: string, out: Outcome,
    h: string, names: set<string>)
    requires UpdateStep(w, w', host, name, f, stamp, stamp2, out)
    requires Harmless(Update(host, name, f, stamp, stamp2, out), h, names)
    ensures NoNewHolder(w.table.rows, w'.table.rows, h, names)
  {
    hide RenderService, NoConflict, PortCheck.ScanConflict, TargetPath, UpdatedRow, Updated, UpdateCut, UndoCut, Undone, Bak;
    if out.Done? {
      var id := IdOf(w.table.rows, host, name);
      var row, r := w.table.rows[id], RenderService(f).value;
      Runs.UpdatedRowKeeps(row, RequestDraft(host, f, r, TargetPath(row.path, r.configName)), w.disks[host][row.path]);
    }
  }

  lemma StepBringsNone(w: World, e: Event, w': World, host: string, names: set<string>)
    requires LooseStep(w, e, w') && Harmless(e, host, names)
    ensures NoNewHolder(w.table.rows, w'.table.rows, host, names)
  {
    hide CreateStep, UpdateStep, ArchiveCut, RestoreCut, BackedUp, Restored, HostOk, Bak, Upserts, Accepted, CanonicalDrafts;
    match e
    case Create(h, f, out) => CreateBringsNone(w, w', h, f, out, host, names);
    case Update(h, name, f, stamp, stamp2, out) => UpdateBringsNone(w, w', h, name, f, stamp, stamp2, out, host, names);
    case ImportCommit(ds, out) => if out.Done? { UpsertsBringNone(w.table, ds, host, names); }
    case _ =>
  }

  lemma HoldersCompose(a: Rows, b: Rows, c: Rows, host: string, names: set<string>)
    requires NoNewHolder(a, b, host, names) && NoNewHolder(b, c, host, names)
    ensures NoNewHolder(a, c, host, names)
  {
  }

  lemma {:induction false} RunBringsNone(ws: seq<World>, es: seq<Event>, a: nat, b: nat, host: string, names: set<string>)
    requires LooseRun(ws, es) && a <= b <= |es| && forall k :: a <= k < b ==> Harmless(es[k], host, names)
    ensures NoNewHolder(ws[a].table.rows, ws[b].table.rows, host, names)
    decreases b
  {
    hide Step, Harmless, NoNewHolder;
    if a == b {
      SameHolders(ws[a].table.rows, host, names);
    } else {
      RunBringsNone(ws, es, a, b - 1, host, names);
      StepBringsNone(ws[b - 1], es[b - 1], ws[b], host, names);
      HoldersCompose(ws[a].table.rows, ws[b - 1].table.rows, ws[b].table.rows, host, names);
    }
  }

  lemma SameHolders(rows: Rows, host: string, names: set<string>)
    ensures NoNewHolder(rows, rows, host, names)
  {
  }

  /** The names a batch stages. */
  function StagedNames(rows: seq<Staging.StagedRow>): set<string> {
    set i | 0 <= i < |rows| && Staging.Read(rows[i].name).Some? :: Staging.Read(rows[i].name).value
  }

  /** A batch that was accepted stays acceptable while its names get no new holder. */
  lemma StaysAccepted(t: Table, u: Table, ds: seq<Draft>, host: string, names: set<string>)
    requires KeyedTable(t) && KeyedTable(u) && DistinctPaths(ds) && DistinctNames(ds)
    requires forall i :: 0 <= i < |ds| ==> ds[i].host == host && ds[i].name in names
    requires Accepted(t, ds) && NoNewHolder(t.rows, u.rows, host, names)
    ensures Accepted(u, ds)
  {
    hide KeyedTable, Accepted;
    AcceptedExactly(t, ds);
    AcceptedExactly(u, ds);
    forall i | 0 <= i < |ds| ensures Covered(u, ds, i) {
      assert Covered(t, ds, i);
    }
  }

  lemma CleanHosts(fs: FileMap, t: Table, host: string, paths: seq<string>, items: seq<Staging.Item>, rows: seq<Staging.StagedRow>)
    requires Clean(fs, t, host, paths, items, rows) && Named(rows) && Normal(rows)
    ensures forall i :: 0 <= i < |rows| ==> NormalDrafts(rows)[i].host == host && NormalDrafts(rows)[i].name in StagedNames(rows)
                                                && NormalDrafts(rows)[i].path == rows[i].path
  {
    hide Clean, NormalizeDraft, Staging.DraftOf, Staging.Read, PrecheckText, OutlookOf, Clash;
    forall i | 0 <= i < |rows|
      ensures NormalDrafts(rows)[i].host == host && NormalDrafts(rows)[i].name in StagedNames(rows)
              && NormalDrafts(rows)[i].path == rows[i].path
    {
      CleanRow(fs, t, host, paths, items, rows, i);
    }
  }

  /** The import succeeds in any mixed run: precheck at `a`, commit at `b`, and in between archives, restores,
      deletes, syncs, requests that fail, and whatever happens to other names and hosts. */
  lemma PlannedBatchSurvives(
    ws: seq<World>, es: seq<Event>, ss: seq<seq<Staging.StagedRow>>, gs: seq<StagingRuns.Event>, a: nat, b: nat,
    paths: seq<string>, items: seq<Staging.Item>)
    requires JointRun(ws, es, ss, gs) && KeyedTable(ws[0].table) && a < b <= |es|
    requires gs[a].Prechecking? && gs[a].host in ws[a].disks
    requires ss[a + 1] == Staging.Cleared(ss[a], gs[a].now - Staging.TTL, gs[a].host, gs[a].operator) + gs[a].rows
    requires StagingRuns.Undisturbed(gs, gs[a].host, gs[a].operator, a + 1, b, gs[a].now)
    requires Clean(ws[a].disks[gs[a].host], ws[a].table, gs[a].host, paths, items, gs[a].rows)
    requires forall k :: a < k < b ==> Harmless(es[k], gs[a].host, StagedNames(gs[a].rows))
    ensures Committable(ws[b].table, Staging.Select(ss[b], Staging.OfBatch(gs[a].batch, gs[a].host, gs[a].operator)))
  {
    hide LooseStep, Harmless, Clean, Staging.Select, Staging.Cleared, StagingRuns.Undisturbed, StagingRuns.Step,
      NoNewHolder, NormalDrafts, Accepted, KeyedTable, Normal, Named, Distinct, StagedNames;
    var host, rows := gs[a].host, gs[a].rows;
    var fs, t, u := ws[a].disks[host], ws[a].table, ws[b].table;
    KeysUniqueOverRuns(ws, es, a);
    KeysUniqueOverRuns(ws, es, b);
    StagingRuns.CommitFindsBatch(ss, gs, a, b);
    PlannedBatchCommits(fs, t, host, paths, items, rows);
    var ds := NormalDrafts(rows);
    CleanHosts(fs, t, host, paths, items, rows);
    assert Joint(ws[a], es[a], ws[a + 1], ss[a], gs[a]);
    RunBringsNone(ws, es, a + 1, b, host, StagedNames(rows));
    DraftCount(rows);
    StaysAccepted(t, u, ds, host, StagedNames(rows));
  }

  lemma DraftCount(rows: seq<Staging.StagedRow>)
    requires Named(rows) && Normal(rows)
    ensures |NormalDrafts(rows)| == |rows|
  {
  }

  // ---------------------------------------------------------------- what keeps an announcement true

  /** Before and after, the same row stands at the path, in the same mode, or none does. */
  ghost predicate SamePlace(rows: Rows, rows': Rows, host: string, path: string) {
    forall id :: (Stands(rows, id, host, path) <==> Stands(rows', id, host, path))
                 && (Stands(rows, id, host, path) ==> rows'[id].mode == rows[id].mode)
  }

  predicate Stands(rows: Rows, id: int, host: string, path: string) { id in rows && rows[id].host == host && rows[id].path == path }

  /** The event brings no row to the path, takes none away from it and changes the mode of none at it: archive, restore,
      sync, every request that fails, and completed requests for other paths, or that keep a template-managed
      service where it is. */
  ghost predicate Still(w: World, e: Event, host: string, path: string) {
    match e
    case Create(h, f, out) => h == host && out.Done? && RenderService(f).Ok? ==> RenderService(f).value.configName != path
    case Update(h, name, f, _, _, out) =>
      h == host && out.Done? && Registered(w.table.rows, h, name) && RenderService(f).Ok? ==>
        StaysPut(w.table.rows[IdOf(w.table.rows, h, name)], RenderService(f).value.configName, path)
    case Delete(h, name, _, out) =>
      h == host && out.Done? && Registered(w.table.rows, h, name) ==> w.table.rows[IdOf(w.table.rows, h, name)].path != path
    case ImportCommit(ds, out) => out.Done? ==> forall i :: 0 <= i < |ds| ==> ds[i].host != host || ds[i].path != path
    case _ => true
  }

  predicate StaysPut(row: Row, configName: string, path: string) {
    var target := TargetPath(row.path, configName);
    (row.path != path && target != path) || (target == row.path && row.mode == TemplateManaged)
  }

  lemma UpsertElsewhere(t: Table, d: Draft, host: string, path: string)
    requires KeyedTable(t) && (d.host != host || d.path != path)
    ensures SamePlace(t.rows, Upsert(t, d).rows, host, path)
  {
    hide UniqueNames, UniquePaths;
    assert t.next !in t.rows;
  }

  lemma {:induction false} UpsertsElsewhere(t: Table, ds: seq<Draft>, host: string, path: string)
    requires KeyedTable(t) && Accepted(t, ds) && forall i :: 0 <= i < |ds| ==> ds[i].host != host || ds[i].path != path
    ensures SamePlace(t.rows, Upserts(t, ds).rows, host, path)
    decreases |ds|
  {
    hide Upsert, KeyedTable, Clash, SamePlace;
    if ds == [] {
      SameSame(t.rows, host, path);
    } else {
      var n := |ds| - 1;
      PrefixAccepted(t, ds, n);
      UpsertsKeepKeys(t, ds[..n]);
      UpsertsElsewhere(t, ds[..n], host, path);
      UpsertElsewhere(Upserts(t, ds[..n]), ds[n], host, path);
      PlacesCompose(t.rows, Upserts(t, ds[..n]).rows, Upserts(t, ds).rows, host, path);
    }
  }

  lemma CreateStill(w: World, w': World, host: string, f: Fields, out: Outcome, h: string, path: string)
    requires KeyedTable(w.table) && CreateStep(w, w', host, f, out) && Still(w, Create(host, f, out), h, path)
    ensures SamePlace(w.table.rows, w'.table.rows, h, path)
  {
    hide RenderService, NoConflict, PortCheck.ScanConflict, UniqueNames, UniquePaths;
    assert w.table.next !in w.table.rows;
  }

  lemma UpdateStill(
    w: World, w': World, host: string, name: string, f: Fields, stamp: string, stamp2: string, out: Outcome,
    h: string, path: string)
    requires UpdateStep(w, w', host, name, f, stamp, stamp2, out)
    requires Still(w, Update(host, name, f, stamp, stamp2, out), h, path)
    ensures SamePlace(w.table.rows, w'.table.rows, h, path)
  {
    hide RenderService, NoConflict, PortCheck.ScanConflict, TargetPath, UpdatedRow, Updated, UpdateCut, UndoCut, Undone, Bak;
    if out.Done? {
      assert Registered(w.table.rows, host, name);
      var id := IdOf(w.table.rows, host, name);
      var row, r := w.table.rows[id], RenderService(f).value;
      var d := RequestDraft(host, f, r, TargetPath(row.path, r.configName));
      Runs.UpdatedRowKeeps(row, d, w.disks[host][row.path]);
      ReplacedInPlace(w.table, id, w'.table.rows[id], h, path);
    }
  }

  lemma ReplacedInPlace(t: Table, id: int, r: Row, host: string, path: string)
    requires id in t.rows && r.host == t.rows[id].host
    requires r.host == host ==> (t.rows[id].path != path && r.path != path) || (r.path == t.rows[id].path && r.mode == t.rows[id].mode)
    ensures SamePlace(t.rows, Replace(t, id, r).rows, host, path)
  {
  }

  lemma OtherStill(w: World, e: Event, w': World, host: string, path: string)
    requires Step(w, e, w') && Still(w, e, host, path) && (e.Archive? || e.Restore? || e.Delete? || e.Refresh?)
    ensures SamePlace(w.table.rows, w'.table.rows, host, path)
  {
    hide ArchiveCut, RestoreCut, BackedUp, Restored, HostOk, Bak;
  }

  lemma StepStill(w: World, e: Event, w': World, host: string, path: string)
    requires KeyedTable(w.table) && LooseStep(w, e, w') && Still(w, e, host, path)
    ensures SamePlace(w.table.rows, w'.table.rows, host, path)
  {
    hide KeyedTable, Step, SamePlace, Upserts, Accepted;
    match e
    case Create(h, f, out) => CreateStill(w, w', h, f, out, host, path) by { StepIs(w, e, w'); }
    case Update(h, name, f, stamp, stamp2, out) =>
      UpdateStill(w, w', h, name, f, stamp, stamp2, out, host, path) by { StepIs(w, e, w'); }
    case ImportCommit(ds, out) => CommitStill(w, w', ds, out, host, path);
    case _ => OtherStill(w, e, w', host, path);
  }

  lemma StepIs(w: World, e: Event, w': World)
    requires Step(w, e, w')
    ensures e.Create? ==> CreateStep(w, w', e.host, e.fields, e.out)
    ensures e.Update? ==> UpdateStep(w, w', e.host, e.name, e.fields, e.stamp, e.stamp2, e.out)
  {
    hide CreateStep, UpdateStep;
  }

  lemma CommitStill(w: World, w': World, ds: seq<Draft>, out: Outcome, host: string, path: string)
    requires KeyedTable(w.table) && AnyCommitStep(w, w', ds, out) && Still(w, ImportCommit(ds, out), host, path)
    ensures SamePlace(w.table.rows, w'.table.rows, host, path)
  {
    hide KeyedTable, SamePlace, Upserts, Accepted;
    if out.Done? { UpsertsElsewhere(w.table, ds, host, path); } else { SameSame(w.table.rows, host, path); }
  }

  lemma PlacesCompose(a: Rows, b: Rows, c: Rows, host: string, path: string)
    requires SamePlace(a, b, host, path) && SamePlace(b, c, host, path)
    ensures SamePlace(a, c, host, path)
  {
  }

  lemma {:induction false} RunStill(ws: seq<World>, es: seq<Event>, a: nat, b: nat, host: string, path: string)
    requires LooseRun(ws, es) && KeyedTable(ws[0].table) && a <= b <= |es|
    requires forall k :: a <= k < b ==> Still(ws[k], es[k], host, path)
    ensures SamePlace(ws[a].table.rows, ws[b].table.rows, host, path)
    decreases b
  {
    hide LooseStep, Still, SamePlace, KeyedTable;
    if a == b {
      SameSame(ws[a].table.rows, host, path);
    } else {
      RunStill(ws, es, a, b - 1, host, path);
      KeysUniqueOverRuns(ws, es, b - 1);
      StepStill(ws[b - 1], es[b - 1], ws[b], host, path);
      PlacesCompose(ws[a].table.rows, ws[b - 1].table.rows, ws[b].table.rows, host, path);
    }
  }

  lemma SameSame(rows: Rows, host: string, path: string)
    ensures SamePlace(rows, rows, host, path)
  {
  }

  lemma OutlookStays(rows: Rows, rows': Rows, d: Draft)
    requires UniquePaths(rows) && UniquePaths(rows') && SamePlace(rows, rows', d.host, d.path)
    ensures OutlookOf(rows', d) == OutlookOf(rows, d)
  {
    assert forall id :: id in rows ==> (AtKey(rows[id], d) <==> Stands(rows, id, d.host, d.path));
    assert forall id :: id in rows' ==> (AtKey(rows'[id], d) <==> Stands(rows', id, d.host, d.path));
    SamePresence(rows, rows', d);
    if Commit.Present(rows, d) {
      var id := IdAt(rows, d);
      assert Stands(rows, id, d.host, d.path);
      OneRowPerKey(rows', id, IdAt(rows', d));
    }
  }

  lemma SamePresence(rows: Rows, rows': Rows, d: Draft)
    requires SamePlace(rows, rows', d.host, d.path)
    ensures Commit.Present(rows, d) <==> Commit.Present(rows', d)
  {
    if Commit.Present(rows, d) {
      var id := IdAt(rows, d);
      assert Stands(rows, id, d.host, d.path) && AtKey(rows'[id], d);
    }
    if Commit.Present(rows', d) {
      var id := IdAt(rows', d);
      assert Stands(rows', id, d.host, d.path) && Stands(rows, id, d.host, d.path) && AtKey(rows[id], d);
    }
  }

  /** And for every entry at whose path nothing comes, goes or changes its mode in between, the commit reports what
      the precheck announced. */
  lemma AnnouncementSurvives(
    ws: seq<World>, es: seq<Event>, ss: seq<seq<Staging.StagedRow>>, gs: seq<StagingRuns.Event>, a: nat, b: nat,
    paths: seq<string>, items: seq<Staging.Item>, results: seq<Committed>, i: nat)
    requires JointRun(ws, es, ss, gs) && KeyedTable(ws[0].table) && a < b <= |es|
    requires gs[a].Prechecking? && gs[a].host in ws[a].disks && i < |gs[a].rows|
    requires Clean(ws[a].disks[gs[a].host], ws[a].table, gs[a].host, paths, items, gs[a].rows) && |items| == |gs[a].rows|
    requires forall k :: a < k < b ==> Still(ws[k], es[k], gs[a].host, gs[a].rows[i].path)
    requires Committable(ws[b].table, gs[a].rows) && AllReported(ws[b].table, NormalDrafts(gs[a].rows), results)
    ensures exists o :: items[i].message == PrecheckText(o) && CommitMessage(results[i]) == CommitText(o)
                        && (o == NewRecord <==> results[i].created)
  {
    hide LooseStep, Still, Clean, StagingRuns.Step, SamePlace, NormalDrafts, AllReported, OutlookOf, KeyedTable,
      Accepted, Normal, Named, Distinct, UniquePaths, PrecheckText, CommitText, CommitMessage;
    var host, rows := gs[a].host, gs[a].rows;
    var fs, t, u := ws[a].disks[host], ws[a].table, ws[b].table;
    KeysUniqueOverRuns(ws, es, a);
    KeysUniqueOverRuns(ws, es, b);
    Unique(t);
    Unique(u);
    assert Joint(ws[a], es[a], ws[a + 1], ss[a], gs[a]);
    RunStill(ws, es, a + 1, b, host, rows[i].path);
    CleanHosts(fs, t, host, paths, items, rows);
    DraftCount(rows);
    OutlookStays(t.rows, u.rows, NormalDrafts(rows)[i]);
    AnnouncedIsReported(fs, t, u, host, paths, items, rows, results, i);
  }
}
