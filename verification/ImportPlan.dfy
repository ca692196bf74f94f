/** A clean precheck is a promise: if every item is PLANNED and the registry has not moved, COMMIT accepts the
    batch and reports for every entry what the precheck announced. */
module ImportPlan {
  import opened Text
  import opened PathNames
  import opened Files
  import opened Registry
  import opened Staging
  import opened Commit
  import opened RegistryService
  import opened Precheck
  import opened ImportCommit
  import StagingRuns

  /** Writing a planned draft to the staging table, reading it back and normalising it again changes nothing
      but empty text, which is read as absent. */
  lemma StagedDraftIsNormal(fs: FileMap, t: Table, host: string, path: string, item: Item, r: StagedRow)
    requires PlannedItem(fs, t, host, path, item, r.baseline) && Stages(r, item) && r.host == host
    requires Canonical(path) && EnsureSafeHost(host) == Ok(host)
    ensures Scanned(fs, host, path).Some?
    ensures var d := Scanned(fs, host, path).value;
            d.host == host && d.path == path && Read(r.name) == Some(d.name)
            && DraftOf(r) == d.(meta := ReadMeta(d.meta)) && NormalizeDraft(DraftOf(r)) == Ok(DraftOf(r))
            && !Clash(t.rows, d) && item.name == Some(d.name) && item.path == d.path && item.result == Planned
            && item.message == PrecheckText(OutlookOf(t.rows, d))
  {
    hide PrecheckText, NormalizeConfigPath, NormalizeConfigName, EnsureSafeHost, Basename, Template.Parse, Clash, OutlookOf, ReadMeta, Strip;
    var d := Scanned(fs, host, path).value;
    var data := ImportDraft(host, path, fs[path], Template.Parse(fs[path]).value);
    assert NormalizeDraft(data) == Ok(d) by { hide NormalizeDraft; }
    DraftFixed(data, d);
  }

  lemma DraftFixed(data: Draft, d: Draft)
    requires NormalizeDraft(data) == Ok(d) && Canonical(d.path)
    ensures d.name != "" && forall m :: NormalizeDraft(d.(meta := m)) == Ok(d.(meta := m))
  {
    hide NormalizeConfigPath, NormalizeConfigName, EnsureSafeHost, Basename, Strip, EnsureSafeName;
    NormalizedParts(data);
    SafeHostFixed(data.host);
    SafeNameFixed(data.name);
    SafeText(d.name);
    ConfigNameIsCanonical(data.fileName, d.name, d.fileName);
  }

  lemma SafeText(name: string)
    requires EnsureSafeName(name) == Ok(name)
    ensures name != "" && AllSafe(name)
  {
    hide Strip;
  }

  /** The drafts of a clean precheck. */
  ghost predicate Clean(
    fs: FileMap, t: Table, host: string, paths: seq<string>, items: seq<Item>, rows: seq<StagedRow>)
  {
    && Prechecked(fs, t, host, paths, items, rows) && EnsureSafeHost(host) == Ok(host)
    && (forall i :: 0 <= i < |rows| ==> rows[i].host == host)
    && (forall i :: 0 <= i < |items| ==> items[i].result == Planned)
    && (forall i :: 0 <= i < |paths| ==> Canonical(paths[i]))
  }

  lemma CleanRow(fs: FileMap, t: Table, host: string, paths: seq<string>, items: seq<Item>, rows: seq<StagedRow>, i: nat)
    requires Clean(fs, t, host, paths, items, rows) && i < |rows|
    ensures |items| == |rows| && |paths| == |rows|
    ensures Read(rows[i].name).Some? && rows[i].result == Planned && rows[i].path == paths[i]
    ensures var d := DraftOf(rows[i]);
            NormalizeDraft(d) == Ok(d) && d.host == host && d.path == paths[i] && items[i].name == Some(d.name)
            && Read(rows[i].name) == Some(d.name)
            && !Clash(t.rows, d) && (UniquePaths(t.rows) ==> items[i].message == PrecheckText(OutlookOf(t.rows, d)))
  {
    hide Canonical, NormalizeDraft, PlannedItem, Scanned, EnsureSafeHost, PrecheckText, Read, ReadMeta, UniquePaths,
      OutlookOf, DraftOf;
    assert items[i].result == Planned;
    StagedDraftIsNormal(fs, t, host, paths[i], items[i], rows[i]);
    var d := Scanned(fs, host, paths[i]).value;
    SameClash(t.rows, d, DraftOf(rows[i]));
    if UniquePaths(t.rows) { SameOutlook(t.rows, d, DraftOf(rows[i])); }
  }

  lemma SameClash(rows: Rows, d: Draft, e: Draft)
    requires d.host == e.host && d.path == e.path && d.name == e.name
    ensures Clash(rows, d) == Clash(rows, e)
  {
  }

  lemma SameOutlook(rows: Rows, d: Draft, e: Draft)
    requires UniquePaths(rows) && d.host == e.host && d.path == e.path
    ensures OutlookOf(rows, d) == OutlookOf(rows, e)
  {
    assert forall id :: id in rows ==> (AtKey(rows[id], d) <==> AtKey(rows[id], e));
    assert Present(rows, d) <==> Present(rows, e);
    if Present(rows, d) { OneRowPerKey(rows, IdAt(rows, d), IdAt(rows, e)); }
  }

  /** A batch whose items are all PLANNED commits if the registry has not changed since. */
  lemma PlannedBatchCommits(fs: FileMap, t: Table, host: string, paths: seq<string>, items: seq<Item>, rows: seq<StagedRow>)
    requires KeyedTable(t) && Clean(fs, t, host, paths, items, rows)
    ensures Committable(t, rows)
    ensures var ds := NormalDrafts(rows); CanonicalDrafts(ds) && DistinctPaths(ds) && DistinctNames(ds)
  {
    hide Canonical, NormalizeDraft, PlannedItem, Stages, Clash, PrecheckText, OutlookOf, KeyedTable, EnsureSafeHost, Read,
      DraftOf, Accepted;
    forall i | 0 <= i < |rows|
      ensures Read(rows[i].name).Some? && rows[i].result == Planned && rows[i].path == paths[i]
      ensures items[i].name == Read(rows[i].name) && NormalizeDraft(DraftOf(rows[i])) == Ok(DraftOf(rows[i]))
    {
      CleanRow(fs, t, host, paths, items, rows, i);
    }
    assert NoneSkipped(rows) && Named(rows) && Distinct(rows) && Normal(rows);
    var ds := NormalDrafts(rows);
    forall i | 0 <= i < |rows|
      ensures ds[i].host == host && ds[i].path == paths[i] && items[i].name == Some(ds[i].name) && !Clash(t.rows, ds[i])
    {
      CleanRow(fs, t, host, paths, items, rows, i);
    }
    AcceptedExactly(t, ds);
    forall i | 0 <= i < |ds| ensures Covered(t, ds, i) { NoClashCovers(t, ds, i); }
  }

  /** The same over a run: whatever other operators and hosts did in between, the commit finds the batch and
      takes it. */
  lemma PlannedBatchCommitsLater(
    ss: seq<seq<StagedRow>>, es: seq<StagingRuns.Event>, a: nat, b: nat,
    fs: FileMap, t: Table, paths: seq<string>, items: seq<Item>)
    requires StagingRuns.Run(ss, es) && a < b <= |es| && es[a].Prechecking?
    requires ss[a + 1] == Cleared(ss[a], es[a].now - TTL, es[a].host, es[a].operator) + es[a].rows
    requires StagingRuns.Undisturbed(es, es[a].host, es[a].operator, a + 1, b, es[a].now)
    requires KeyedTable(t) && Clean(fs, t, es[a].host, paths, items, es[a].rows)
    ensures Committable(t, Select(ss[b], OfBatch(es[a].batch, es[a].host, es[a].operator)))
  {
    hide Committable, Clean, Select, Cleared, KeyedTable, StagingRuns.Undisturbed, StagingRuns.Run;
    StagingRuns.CommitFindsBatch(ss, es, a, b);
    PlannedBatchCommits(fs, t, es[a].host, paths, items, es[a].rows);
  }

  lemma NoClashCovers(t: Table, ds: seq<Draft>, i: nat)
    requires i < |ds| && !Clash(t.rows, ds[i])
    ensures Covered(t, ds, i)
  {
    forall id | id in t.rows && t.rows[id].host == ds[i].host && t.rows[id].name == ds[i].name
      ensures exists j :: 0 <= j <= i && t.rows[id].path == ds[j].path
    {
      assert t.rows[id].path == ds[i].path;
    }
  }

  /** For a batch of distinct paths, what a turn finds at its path is what stood there before the batch. */
  lemma TurnFindsOriginal(t: Table, ds: seq<Draft>, i: nat)
    requires KeyedTable(t) && Accepted(t, ds) && DistinctPaths(ds) && i < |ds|
    ensures KeyedTable(Upserts(t, ds[..i])) && OutlookOf(Upserts(t, ds[..i]).rows, ds[i]) == OutlookOf(t.rows, ds[i])
  {
    hide Canonical, Clash, Upserts, KeyedTable, Accepted, ViewOf;
    var before := ds[..i];
    assert forall j :: 0 <= j < i ==> before[j] == ds[j];
    PrefixAccepted(t, ds, i);
    CommitIsOverride(t, before);
    var u := Upserts(t, before);
    var k := (ds[i].host, ds[i].path);
    Unique(t);
    Unique(u);
    OverrideExactly(ViewOf(t.rows), before, k);
    OutlookAt(t.rows, ds[i]);
    OutlookAt(u.rows, ds[i]);
  }

  lemma Unique(t: Table)
    requires KeyedTable(t)
    ensures UniquePaths(t.rows)
  {
  }

  lemma OutlookAt(rows: Rows, d: Draft)
    requires UniquePaths(rows)
    ensures var k := (d.host, d.path); var v := ViewOf(rows);
            OutlookOf(rows, d) == if k !in v then NewRecord else if v[k].mode == TemplateManaged then OverTemplate else RefreshSnapshot
  {
    hide ViewOf, UniquePaths;
    if Present(rows, d) {
      var id := IdAt(rows, d);
      assert Key(rows[id]) == (d.host, d.path);
    } else {
      NoKey(rows, d);
    }
  }

  /** The message of a reported turn, `_build_commit_message`. */
  function CommitMessage(c: Committed): string {
    if c.created || c.before.None? then CommitText(NewRecord)
    else if c.before.value.mode == TemplateManaged then CommitText(OverTemplate)
    else CommitText(RefreshSnapshot)
  }

  /** Item by item, COMMIT reports the outcome that the precheck announced: one and the same outlook gives
      both texts, and the texts of different outlooks differ. The registry `u` of the commit may have moved on
      from the registry `t` of the precheck as long as the same rows stand at the staged paths. */
  lemma AnnouncedIsReported(
    fs: FileMap, t: Table, u: Table, host: string, paths: seq<string>, items: seq<Item>, rows: seq<StagedRow>,
    results: seq<Committed>, i: nat)
    requires KeyedTable(t) && Clean(fs, t, host, paths, items, rows) && i < |rows|
    requires KeyedTable(u) && Committable(u, rows) && AllReported(u, NormalDrafts(rows), results)
    requires OutlookOf(u.rows, NormalDrafts(rows)[i]) == OutlookOf(t.rows, NormalDrafts(rows)[i])
    ensures exists o :: items[i].message == PrecheckText(o) && CommitMessage(results[i]) == CommitText(o)
                        && (o == NewRecord <==> results[i].created)
    ensures forall o, o' :: PrecheckText(o) == PrecheckText(o') ==> o == o'
  {
    hide Canonical, NormalizeDraft, PlannedItem, Stages, Clash, PrecheckText, CommitText, OutlookOf, KeyedTable,
      EnsureSafeHost, Read, DraftOf, Accepted, Upserts, Prechecked;
    PlannedBatchCommits(fs, t, host, paths, items, rows);
    CleanRow(fs, t, host, paths, items, rows, i);
    var ds := NormalDrafts(rows);
    TurnFindsOriginal(u, ds, i);
    Unique(t);
    assert ReportedAt(u, ds, i, results[i]);
    ReportedOutlook(Upserts(u, ds[..i]), Upserts(u, ds[..i + 1]), ds[i], results[i]);
    assert items[i].message == PrecheckText(OutlookOf(t.rows, ds[i]));
    forall o, o' | PrecheckText(o) == PrecheckText(o') ensures o == o' { TextsDiffer(o, o'); }
  }

  lemma TextsDiffer(o: Outlook, o': Outlook)
    requires PrecheckText(o) == PrecheckText(o')
    ensures o == o'
  {
    assert |PrecheckText(NewRecord)| == 15 && |PrecheckText(OverTemplate)| == 20 && |PrecheckText(RefreshSnapshot)| == 19;
  }

  lemma ReportedOutlook(before: Table, after: Table, d: Draft, c: Committed)
    requires Reported(before, after, d, c)
    ensures CommitMessage(c) == CommitText(OutlookOf(before.rows, d))
    ensures OutlookOf(before.rows, d) == NewRecord <==> c.created
  {
    hide CommitText;
  }
}
