/** A precheck right after a commit of the same files. */
module ImportAgain {
  import opened Text
  import opened PathNames
  import opened Files
  import opened Registry
  import opened Commit
  import opened Precheck
  import opened ImportCommit
  import opened ImportPlan
  import Staging
  import RoundTrip
  import ParseBack
  import Runs
  import Template

  /** Names are taken by files of the scan only. */
  lemma {:induction false} TakenFrom(fs: FileMap, t: Table, host: string, paths: seq<string>, name: string) returns (j: nat)
    requires name in Taken(fs, t, host, paths)
    ensures j < |paths| && Scanned(fs, host, paths[j]).Some? && Scanned(fs, host, paths[j]).value.name == name
    decreases |paths|
  {
    hide Plannable, Scanned;
    assert paths != [];
    var n := |paths| - 1;
    var names := Taken(fs, t, host, paths[..n]);
    TakenNames(fs, t, host, paths[n], names);
    if name in names {
      j := TakenFrom(fs, t, host, paths[..n], name);
    } else {
      j := n;
    }
  }

  lemma ScannedMode(fs: FileMap, host: string, path: string)
    requires Scanned(fs, host, path).Some?
    ensures Scanned(fs, host, path).value.mode == ImportedReadonly
  {
    hide NormalizeConfigPath, NormalizeConfigName, EnsureSafeHost, EnsureSafeName, Basename, Template.Parse;
  }

  /** The staged draft `e` of a scanned file agrees with the scanned one in the keys and the mode, and is normal. */
  predicate Agrees(d: Option<Draft>, e: Draft, host: string, path: string, name: Option<string>) {
    d.Some? && d.value.host == host == e.host && d.value.path == path == e.path && d.value.name == e.name && e.mode == d.value.mode
    && PlanKey(d.value) == Ok(path) && name == Some(e.name) && NormalizeDraft(e) == Ok(e)
  }

  lemma CleanDraft(fs: FileMap, t: Table, host: string, paths: seq<string>, items: seq<Staging.Item>, rows: seq<Staging.StagedRow>, i: nat)
    requires Clean(fs, t, host, paths, items, rows) && i < |paths|
    ensures |rows| == |paths| == |items| && Staging.Read(rows[i].name).Some?
    ensures Agrees(Scanned(fs, host, paths[i]), Staging.DraftOf(rows[i]), host, paths[i], items[i].name)
  {
    hide Clean, NormalizeDraft, PlannedItem, Scanned, EnsureSafeHost, PrecheckText, Staging.Read, Staging.ReadMeta,
      Staging.DraftOf, Staging.Stages, OutlookOf, Clash, NormalizeConfigPath;
    CleanParts(fs, t, host, paths, items, rows, i);
    StagedDraftIsNormal(fs, t, host, paths[i], items[i], rows[i]);
  }

  lemma CleanParts(fs: FileMap, t: Table, host: string, paths: seq<string>, items: seq<Staging.Item>, rows: seq<Staging.StagedRow>, i: nat)
    requires Clean(fs, t, host, paths, items, rows) && i < |paths|
    ensures |rows| == |paths| == |items| && Staging.Stages(rows[i], items[i]) && rows[i].host == host
    ensures PlannedItem(fs, t, host, paths[i], items[i], rows[i].baseline) && Canonical(paths[i])
    ensures EnsureSafeHost(host) == Ok(host)
  {
    hide PlannedItem, Staging.Stages, Canonical, EnsureSafeHost;
    assert items[i].result == Staging.Planned;
  }

  /** If every item of a precheck was PLANNED and its batch is committed, a precheck of the same files on the registry the
      commit left can plan every file again, and announces for each that its snapshot will be refreshed. */
  lemma PrecheckAfterCommit(
    fs: FileMap, t: Table, host: string, paths: seq<string>, items: seq<Staging.Item>, rows: seq<Staging.StagedRow>, i: nat)
    requires KeyedTable(t) && Clean(fs, t, host, paths, items, rows) && i < |paths|
    ensures Committable(t, rows)
    ensures var u := Upserts(t, NormalDrafts(rows));
            Plannable(fs, u, host, paths[i], Taken(fs, u, host, paths[..i]))
            && forall item, baseline :: PlannedItem(fs, u, host, paths[i], item, baseline) ==>
                 item.result == Staging.Planned && item.message == "预检通过，正式导入时将更新已有导入快照"
  {
    hide Clean, NormalizeConfigPath, NormalizeDraft, Scanned, Clash, OutlookOf, Accepted, Upserts, Distinct, Normal, Named, NoneSkipped, Taken,
      Staging.DraftOf, Staging.Read, KeyedTable;
    PlannedBatchCommits(fs, t, host, paths, items, rows);
    var ds := NormalDrafts(rows);
    var u := Upserts(t, ds);
    CleanDraft(fs, t, host, paths, items, rows, i);
    ScannedMode(fs, host, paths[i]);
    var d := Scanned(fs, host, paths[i]).value;
    DraftAt(rows, i);
    UpsertsKeepKeys(t, ds);
    var id := EveryEntryIsStored(t, ds, i);
    RefreshedAt(u, d, ds[i], id);
    assert d.(path := d.path) == d;
    if d.name in Taken(fs, u, host, paths[..i]) {
      var j := TakenFrom(fs, u, host, paths[..i], d.name);
      CleanDraft(fs, t, host, paths, items, rows, j);
      NamesDiffer(fs, t, host, paths, items, rows, j, i);
    }
  }

  lemma DraftAt(rows: seq<Staging.StagedRow>, i: nat)
    requires Named(rows) && Normal(rows) && i < |rows| && NormalizeDraft(Staging.DraftOf(rows[i])) == Ok(Staging.DraftOf(rows[i]))
    ensures |NormalDrafts(rows)| == |rows| && NormalDrafts(rows)[i] == Staging.DraftOf(rows[i])
  {
    hide NormalizeDraft, Staging.DraftOf;
  }

  /** Two planned items have different names. */
  lemma NamesDiffer(fs: FileMap, t: Table, host: string, paths: seq<string>, items: seq<Staging.Item>, rows: seq<Staging.StagedRow>, j: nat, i: nat)
    requires Clean(fs, t, host, paths, items, rows) && j < i < |items|
    ensures items[j].name != items[i].name
  {
    hide PlannedItem, Staging.Stages, Canonical;
  }

  lemma RefreshedAt(u: Table, d: Draft, e: Draft, id: int)
    requires KeyedTable(u) && id in u.rows && HoldsEntry(u.rows[id], e)
    requires d.host == e.host && d.path == e.path && d.name == e.name && e.mode == ImportedReadonly
    ensures !Clash(u.rows, d) && OutlookOf(u.rows, d) == RefreshSnapshot
  {
    assert AtKey(u.rows[id], d);
    OneRowPerKey(u.rows, IdAt(u.rows, d), id);
    assert forall k :: k in u.rows && u.rows[k].host == d.host && u.rows[k].name == d.name ==> k == id;
  }

  // ---------------------------------------------------------------- importing what was rendered

  /** The draft has the fields of the request the text was rendered for, as a read-only snapshot. */
  predicate SnapshotOf(d: Draft, host: string, f: Template.Fields, name: string, path: string, jar: string, content: string) {
    d.host == host && d.path == path && d.fileName == Basename(path) && d.name == name && d.mode == ImportedReadonly
    && d.baseline == content && d.complete && d.warnings == [] && d.port == Some(f.port)
    && d.meta == Meta(Some(f.job), Some(f.moduleName), Some(f.javaPath), Some(f.active), Some(jar), Some(f.xms), Some(f.xmx), Some(f.user))
  }

  /** A precheck of a file that the template rendered under its own name recovers the whole request, and plans it
      unless another path of the host has the name. */
  lemma RenderedIsPlanned(fs: FileMap, t: Table, host: string, path: string, f: Template.Fields, r: Template.Rendered, jar: string)
    requires RoundTrip.Readable(f) && Template.ValidPort(f.port) && Template.RenderService(f) == Ok(r)
    requires Template.JarName(f) == Ok(jar) && EndsWith(jar, ".jar")
    requires EnsureSafeHost(host) == Ok(host) && Canonical(path) && Basename(path) == r.configName
    requires path in fs && fs[path] == r.content
    ensures Scanned(fs, host, path).Some? && SnapshotOf(Scanned(fs, host, path).value, host, f, r.name, path, jar, r.content)
    ensures (forall id :: id in t.rows && t.rows[id].host == host && t.rows[id].name == r.name ==> t.rows[id].path == path) ==>
              Plannable(fs, t, host, path, map[])
  {
    hide NormalizeConfigPath, NormalizeConfigName, EnsureSafeHost, EnsureSafeName, Basename, Template.Parse, Template.RenderService,
      RoundTrip.Readable, Template.JarName, EndsWith, Template.Content, AllSafe;
    Runs.RenderedNames(f);
    RenderedText(f, r, jar);
    ParseBack.ParseOfRender(f, r.name, jar, r.configName);
    ConfigNameIsCanonical(f.fileName, r.name, r.configName);
    ParsedName(r.content);
  }

  lemma RenderedText(f: Template.Fields, r: Template.Rendered, jar: string)
    requires Template.RenderService(f) == Ok(r) && Template.JarName(f) == Ok(jar)
    ensures f.port >= 0 && r.content == Template.Content(f, r.name, jar)
  {
    hide Template.JarName, Template.Content, Template.ValidIni, NormalizeConfigName, EnsureSafeName;
  }
}
