/** What `commit_batch` of app/services/supervisor_registry_service.py does to the registry, as a function
    of the normalised drafts, and how it relates to a plain map override. */
module Commit {
  import opened Text
  import opened PathNames
  import opened Registry

  /** One result of the commit loop: the row's id, the row, whether it is new, and what it replaced. */
  datatype Committed = Committed(id: int, row: Row, created: bool, before: Option<Row>)

  predicate AtKey(r: Row, d: Draft) { r.host == d.host && r.path == d.path }

  ghost predicate Present(rows: Rows, d: Draft) { exists id :: id in rows && AtKey(rows[id], d) }

  ghost function IdAt(rows: Rows, d: Draft): (id: int)
    requires Present(rows, d)
    ensures id in rows && AtKey(rows[id], d)
  {
    var id :| id in rows && AtKey(rows[id], d);
    id
  }

  /** The name is held by a row with another path. */
  ghost predicate Clash(rows: Rows, d: Draft) {
    exists id :: id in rows && rows[id].host == d.host && rows[id].name == d.name && rows[id].path != d.path
  }

  /** One turn of the loop. */
  ghost function Upsert(t: Table, d: Draft): Table {
    if Present(t.rows, d) then Replace(t, IdAt(t.rows, d), Overwritten(t.rows[IdAt(t.rows, d)], d))
    else Insert(t, NewRow(d))
  }

  ghost function Upserts(t: Table, ds: seq<Draft>): Table {
    if ds == [] then t else Upsert(Upserts(t, ds[..|ds| - 1]), ds[|ds| - 1])
  }

  /** No turn of the loop is refused. */
  ghost predicate Accepted(t: Table, ds: seq<Draft>) {
    forall i :: 0 <= i < |ds| ==> !Clash(Upserts(t, ds[..i]).rows, ds[i])
  }

  ghost predicate CanonicalDrafts(ds: seq<Draft>) { forall i :: 0 <= i < |ds| ==> Canonical(ds[i].path) }

  predicate DistinctPaths(ds: seq<Draft>) {
    forall i, j :: 0 <= i < j < |ds| ==> ds[i].host == ds[j].host && ds[i].path != ds[j].path
  }

  predicate DistinctNames(ds: seq<Draft>) { forall i, j :: 0 <= i < j < |ds| ==> ds[i].name != ds[j].name }

  // ---------------------------------------------------------------- what the two look-ups tell

  lemma NameFound(rows: Rows, d: Draft, found: Option<int>)
    requires UniqueNames(rows)
    requires found.Some? ==> found.value in rows && rows[found.value].host == d.host && rows[found.value].name == d.name
    requires found.None? ==> forall id :: id in rows ==> rows[id].host != d.host || rows[id].name != d.name
    ensures Clash(rows, d) <==> found.Some? && rows[found.value].path != d.path
  {
    if found.Some? {
      var i: int := found.value;
      assert rows[i].path != d.path ==> Clash(rows, d);
      assert forall id :: id in rows && rows[id].host == d.host && rows[id].name == d.name ==> id == i;
    }
  }

  lemma PathFound(rows: Rows, d: Draft, found: Option<int>)
    requires UniquePaths(rows)
    requires found.Some? ==> found.value in rows && rows[found.value].host == d.host && rows[found.value].path == d.path
    requires found.None? ==> forall id :: id in rows ==> rows[id].host != d.host || rows[id].path != d.path
    ensures Present(rows, d) <==> found.Some?
    ensures found.Some? ==> Present(rows, d) && IdAt(rows, d) == found.value
  {
    if found.Some? {
      var i: int := found.value;
      assert i in rows && AtKey(rows[i], d);
      assert IdAt(rows, d) == i by { OneRowPerKey(rows, IdAt(rows, d), i); }
    }
  }

  // ---------------------------------------------------------------- one turn

  lemma UpsertKeeps(t: Table, d: Draft)
    requires ValidTable(t) && Canonical(d.path) && !Clash(t.rows, d)
    ensures ValidTable(Upsert(t, d))
  {
    hide Canonical;
    if Present(t.rows, d) {
      ReplaceKeeps(t, IdAt(t.rows, d), Overwritten(t.rows[IdAt(t.rows, d)], d));
    } else {
      InsertKeeps(t, NewRow(d));
    }
  }

  /** The same for tables with irregular paths. */
  lemma UpsertKeepsKeys(t: Table, d: Draft)
    requires KeyedTable(t) && !Clash(t.rows, d)
    ensures KeyedTable(Upsert(t, d))
  {
  }

  lemma {:induction false} UpsertsKeepKeys(t: Table, ds: seq<Draft>)
    requires KeyedTable(t) && Accepted(t, ds)
    ensures KeyedTable(Upserts(t, ds))
    decreases |ds|
  {
    hide KeyedTable, Clash, Upsert;
    if ds != [] {
      var n := |ds| - 1;
      PrefixAccepted(t, ds, n);
      UpsertsKeepKeys(t, ds[..n]);
      UpsertKeepsKeys(Upserts(t, ds[..n]), ds[n]);
    }
  }

  /** Both keys stay unique through the loop, turn by turn. */
  lemma {:induction false} UpsertsKeep(t: Table, ds: seq<Draft>)
    requires ValidTable(t) && CanonicalDrafts(ds) && Accepted(t, ds)
    ensures ValidTable(Upserts(t, ds))
    decreases |ds|
  {
    hide Canonical, ValidTable, Clash;
    if ds != [] {
      var n := |ds| - 1;
      PrefixAccepted(t, ds, n);
      UpsertsKeep(t, ds[..n]);
      UpsertKeeps(Upserts(t, ds[..n]), ds[n]);
    }
  }

  lemma PrefixAccepted(t: Table, ds: seq<Draft>, n: nat)
    requires n <= |ds| && Accepted(t, ds)
    ensures Accepted(t, ds[..n])
    ensures n < |ds| ==> !Clash(Upserts(t, ds[..n]).rows, ds[n])
  {
    hide Clash, Upserts;
    forall i | 0 <= i < n ensures !Clash(Upserts(t, ds[..n][..i]).rows, ds[..n][i]) {
      assert ds[..n][..i] == ds[..i];
    }
  }

  // ---------------------------------------------------------------- refinement of a map override

  type View = map<(string, string), Row>

  function Key(r: Row): (string, string) { (r.host, r.path) }

  ghost predicate HasKey(rows: Rows, k: (string, string)) { exists id :: id in rows && Key(rows[id]) == k }

  /** The table as a map from (host, configPath) to the row. */
  ghost function ViewOf(rows: Rows): (v: View)
    requires UniquePaths(rows)
    ensures forall k :: k in v <==> HasKey(rows, k)
    ensures forall id :: id in rows ==> HasKey(rows, Key(rows[id])) && v[Key(rows[id])] == rows[id]
  {
    map id | id in rows :: Key(rows[id]) := rows[id]
  }

  /** The simple form: the staged entry replaces or adds what stands at its key. */
  function Override(v: View, d: Draft): View {
    var k := (d.host, d.path);
    v[k := if k in v then Overwritten(v[k], d) else NewRow(d)]
  }

  function OverrideAll(v: View, ds: seq<Draft>): View {
    if ds == [] then v else Override(OverrideAll(v, ds[..|ds| - 1]), ds[|ds| - 1])
  }

  lemma PutKeys(rows: Rows, id: int, r: Row, k: (string, string))
    requires id in rows ==> Key(rows[id]) == Key(r)
    ensures HasKey(rows[id := r], k) <==> HasKey(rows, k) || k == Key(r)
  {
    var rows' := rows[id := r];
    assert Key(rows'[id]) == Key(r);
    if HasKey(rows, k) {
      var i :| i in rows && Key(rows[i]) == k;
      assert Key(rows'[i]) == k;
    }
  }

  lemma PutView(rows: Rows, id: int, r: Row)
    requires UniquePaths(rows) && UniquePaths(rows[id := r]) && (id in rows ==> Key(rows[id]) == Key(r))
    ensures ViewOf(rows[id := r]) == ViewOf(rows)[Key(r) := r]
  {
    hide ViewOf, UniquePaths, HasKey;
    var rows' := rows[id := r];
    forall k ensures HasKey(rows', k) <==> HasKey(rows, k) || k == Key(r) { PutKeys(rows, id, r, k); }
    var v, w := ViewOf(rows), ViewOf(rows');
    var target := v[Key(r) := r];
    forall k | k in w ensures w[k] == target[k] {
      var i := HolderOf(rows', k);
      if k == Key(r) { OneRowPerKey(rows', i, id); }
      else { assert rows[i] == rows'[i]; }
    }
    assert w == target;
  }

  lemma HolderOf(rows: Rows, k: (string, string)) returns (id: int)
    requires HasKey(rows, k)
    ensures id in rows && Key(rows[id]) == k
  {
    id :| id in rows && Key(rows[id]) == k;
  }

  lemma NoKey(rows: Rows, d: Draft)
    requires UniquePaths(rows) && !Present(rows, d)
    ensures (d.host, d.path) !in ViewOf(rows)
  {
  }

  lemma OneRowPerKey(rows: Rows, i: int, j: int)
    requires UniquePaths(rows) && i in rows && j in rows && Key(rows[i]) == Key(rows[j])
    ensures i == j
  {
  }

  lemma UpsertIsOverride(t: Table, d: Draft)
    requires KeyedTable(t) && !Clash(t.rows, d)
    ensures KeyedTable(Upsert(t, d))
    ensures ViewOf(Upsert(t, d).rows) == Override(ViewOf(t.rows), d)
  {
    UpsertKeepsKeys(t, d);
    hide Clash, UniqueNames, UniquePaths, ViewOf;
    var k := (d.host, d.path);
    var v := ViewOf(t.rows);
    if Present(t.rows, d) {
      var id := IdAt(t.rows, d);
      assert Key(t.rows[id]) == k;
      PutView(t.rows, id, Overwritten(t.rows[id], d));
    } else {
      assert k !in v by { NoKey(t.rows, d); }
      PutView(t.rows, t.next, NewRow(d));
    }
  }

  /** A committed batch is a plain map override of the registry. */
  lemma {:induction false} CommitIsOverride(t: Table, ds: seq<Draft>)
    requires KeyedTable(t) && Accepted(t, ds)
    ensures KeyedTable(Upserts(t, ds))
    ensures ViewOf(Upserts(t, ds).rows) == OverrideAll(ViewOf(t.rows), ds)
    decreases |ds|
  {
    hide Clash, Upsert, Override;
    UpsertsKeepKeys(t, ds);
    if ds != [] {
      var n := |ds| - 1;
      PrefixAccepted(t, ds, n);
      CommitIsOverride(t, ds[..n]);
      UpsertIsOverride(Upserts(t, ds[..n]), ds[n]);
    }
  }

  /** For distinct keys the override is exactly: every staged key holds its staged entry, every other key is
      as before. */
  lemma {:induction false} OverrideExactly(v: View, ds: seq<Draft>, k: (string, string))
    requires DistinctPaths(ds)
    ensures (forall i :: 0 <= i < |ds| ==> (ds[i].host, ds[i].path) != k) ==>
              (k in OverrideAll(v, ds) <==> k in v) && (k in v ==> OverrideAll(v, ds)[k] == v[k])
    ensures forall i :: 0 <= i < |ds| && (ds[i].host, ds[i].path) == k ==>
              k in OverrideAll(v, ds)
              && OverrideAll(v, ds)[k] == if k in v then Overwritten(v[k], ds[i]) else NewRow(ds[i])
    decreases |ds|
  {
    if ds != [] {
      var n := |ds| - 1;
      var before := ds[..n];
      OverrideExactly(v, before, k);
      if (ds[n].host, ds[n].path) == k {
        assert forall i :: 0 <= i < n ==> before[i] == ds[i] && (ds[i].host, ds[i].path) != k;
      } else {
        assert forall i :: 0 <= i < n ==> before[i] == ds[i];
      }
    }
  }

  /** The row has the columns of the entry. */
  predicate HoldsEntry(row: Row, d: Draft) {
    && row.host == d.host && row.path == d.path && row.fileName == d.fileName && row.name == d.name && row.mode == d.mode
    && row.baseline == d.baseline && row.complete == d.complete && row.warnings == d.warnings && row.port == d.port
    && row.meta.job == d.meta.job && row.meta.moduleName == d.meta.moduleName && row.meta.javaPath == d.meta.javaPath
    && row.meta.active == d.meta.active && row.meta.jar == d.meta.jar && row.meta.xms == d.meta.xms
    && row.meta.xmx == d.meta.xmx && row.meta.user == d.meta.user
  }

  /** What a row keeps when an import overwrites it, and what a new row starts with. */
  predicate KeepsState(row: Row, before: Option<Row>) {
    match before
    case Some(b) => row.archived == b.archived && row.runtime == b.runtime && row.detail == b.detail
    case None => !row.archived && row.runtime == Runtime("UNKNOWN", None, None)
                 && row.detail == Detail(None, None, None, false, None, None, "UNKNOWN", None)
  }

  /** One turn writes the entry's columns, all of them, into the row at its key. */
  lemma UpsertColumns(t: Table, d: Draft)
    ensures var u := Upsert(t, d);
            if Present(t.rows, d) then
              var id := IdAt(t.rows, d); HoldsEntry(u.rows[id], d) && KeepsState(u.rows[id], Some(t.rows[id]))
            else t.next in u.rows && HoldsEntry(u.rows[t.next], d) && KeepsState(u.rows[t.next], None)
  {
  }

  /** After an accepted batch of distinct paths the row at every staged key, replaced or new, has the entry's
      columns. */
  lemma EveryEntryIsStored(t: Table, ds: seq<Draft>, i: nat) returns (id: int)
    requires KeyedTable(t) && Accepted(t, ds) && DistinctPaths(ds) && i < |ds|
    ensures var rows := Upserts(t, ds).rows;
            id in rows && HoldsEntry(rows[id], ds[i])
            && (if Present(t.rows, ds[i]) then id == IdAt(t.rows, ds[i]) && KeepsState(rows[id], Some(t.rows[id]))
                else id !in t.rows && KeepsState(rows[id], None))
  {
    hide KeyedTable, Accepted, Upserts, ViewOf, Upsert;
    CommitIsOverride(t, ds);
    var u := Upserts(t, ds);
    var k := (ds[i].host, ds[i].path);
    UniqueKeys(t);
    UniqueKeys(u);
    OverrideExactly(ViewOf(t.rows), ds, k);
    assert HasKey(u.rows, k);
    id := HolderOf(u.rows, k);
    OldOrNew(t, ds, u, i, id);
  }

  lemma UniqueKeys(t: Table)
    requires KeyedTable(t)
    ensures UniquePaths(t.rows)
  {
  }

  lemma OldOrNew(t: Table, ds: seq<Draft>, u: Table, i: nat, id: int)
    requires i < |ds| && UniquePaths(t.rows) && UniquePaths(u.rows) && id in u.rows && Key(u.rows[id]) == (ds[i].host, ds[i].path)
    requires u == Upserts(t, ds) && KeyedTable(t) && Accepted(t, ds)
    requires var k := (ds[i].host, ds[i].path); var v := ViewOf(t.rows);
             u.rows[id] == if k in v then Overwritten(v[k], ds[i]) else NewRow(ds[i])
    ensures HoldsEntry(u.rows[id], ds[i])
    ensures if Present(t.rows, ds[i]) then id == IdAt(t.rows, ds[i]) && KeepsState(u.rows[id], Some(t.rows[id]))
            else id !in t.rows && KeepsState(u.rows[id], None)
  {
    hide KeyedTable, Accepted, Upserts, UniquePaths, ViewOf;
    CommitKeepsRows(t, ds);
    var d := ds[i];
    var k := (d.host, d.path);
    if Present(t.rows, d) {
      var kept := IdAt(t.rows, ds[i]);
      assert Key(t.rows[kept]) == k;
      OneRowPerKey(u.rows, kept, id);
    } else {
      NoKey(t.rows, ds[i]);
      if id in t.rows { PresentAt(t.rows, id, d); }
    }
  }

  lemma PresentAt(rows: Rows, id: int, d: Draft)
    requires id in rows && AtKey(rows[id], d)
    ensures Present(rows, d)
  {
  }

  // ---------------------------------------------------------------- ids, flags and counts

  /** How many entries are new rows. */
  ghost function NewCount(t: Table, ds: seq<Draft>): nat {
    if ds == [] then 0
    else NewCount(t, ds[..|ds| - 1]) + if Present(Upserts(t, ds[..|ds| - 1]).rows, ds[|ds| - 1]) then 0 else 1
  }

  /** What one turn does to the rows. */
  lemma UpsertRows(t: Table, d: Draft)
    requires KeyedTable(t)
    ensures var u := Upsert(t, d); var n := if Present(t.rows, d) then 0 else 1;
            |u.rows| == |t.rows| + n && u.next == t.next + n
    ensures forall id :: id in t.rows ==> id in Upsert(t, d).rows && SameIdentity(t.rows[id], Upsert(t, d).rows[id])
    ensures forall id :: id in Upsert(t, d).rows && id !in t.rows ==>
              id == t.next && !Upsert(t, d).rows[id].archived && AtKey(Upsert(t, d).rows[id], d)
  {
    hide UniqueNames, UniquePaths;
    var u := Upsert(t, d);
    assert t.next !in t.rows;
    if Present(t.rows, d) {
      assert u.rows.Keys == t.rows.Keys;
    } else {
      assert u.rows.Keys == t.rows.Keys + {t.next};
    }
    assert |u.rows| == |u.rows.Keys| && |t.rows| == |t.rows.Keys|;
  }

  /** What the import never changes in a row. */
  predicate SameIdentity(r: Row, r': Row) {
    r'.host == r.host && r'.path == r.path && r'.archived == r.archived && r'.runtime == r.runtime
    && r'.detail == r.detail
  }

  /** A row the batch added. */
  ghost predicate Added(t: Table, ds: seq<Draft>, id: int, r: Row) {
    t.next <= id && !r.archived && exists i :: 0 <= i < |ds| && AtKey(r, ds[i])
  }

  /** An old row keeps its id, host, path, archive flag and runtime state; the table grows by the number of
      new rows; and every added row starts unarchived at a staged key. */
  lemma {:induction false} CommitKeepsRows(t: Table, ds: seq<Draft>)
    requires KeyedTable(t) && Accepted(t, ds)
    ensures var u := Upserts(t, ds);
            |u.rows| == |t.rows| + NewCount(t, ds) && u.next == t.next + NewCount(t, ds) && NewCount(t, ds) <= |ds|
    ensures forall id :: id in t.rows ==>
              id in Upserts(t, ds).rows && SameIdentity(t.rows[id], Upserts(t, ds).rows[id])
    ensures forall id :: id in Upserts(t, ds).rows && id !in t.rows ==> Added(t, ds, id, Upserts(t, ds).rows[id])
    decreases |ds|
  {
    hide Clash, KeyedTable, Upsert, Added, Accepted;
    if ds != [] {
      var n := |ds| - 1;
      PrefixAccepted(t, ds, n);
      CommitKeepsRows(t, ds[..n]);
      UpsertsKeepKeys(t, ds[..n]);
      var m := Upserts(t, ds[..n]);
      var u := Upserts(t, ds);
      UpsertRows(m, ds[n]);
      forall id | id in u.rows && id !in t.rows ensures Added(t, ds, id, u.rows[id]) {
        StillAdded(t, ds, m, u, id);
      }
    }
  }

  lemma StillAdded(t: Table, ds: seq<Draft>, m: Table, u: Table, id: int)
    requires ds != [] && id in u.rows
    requires id in m.rows ==> Added(t, ds[..|ds| - 1], id, m.rows[id]) && SameIdentity(m.rows[id], u.rows[id])
    requires id !in m.rows ==> id == m.next && !u.rows[id].archived && AtKey(u.rows[id], ds[|ds| - 1])
    requires t.next <= m.next
    ensures Added(t, ds, id, u.rows[id])
  {
    var n := |ds| - 1;
    if id in m.rows {
      var i :| 0 <= i < n && AtKey(m.rows[id], ds[..n][i]);
      assert AtKey(u.rows[id], ds[i]);
    } else {
      assert AtKey(u.rows[id], ds[n]);
    }
  }

  // ---------------------------------------------------------------- exactly when the loop accepts

  /** After some turns, what stands at a key not among the staged ones is the old row. */
  lemma RowsElsewhere(t: Table, ds: seq<Draft>, id: int)
    requires KeyedTable(t) && Accepted(t, ds) && DistinctPaths(ds) && id in t.rows
    ensures id in Upserts(t, ds).rows
    ensures (forall i :: 0 <= i < |ds| ==> !AtKey(t.rows[id], ds[i])) ==> Upserts(t, ds).rows[id] == t.rows[id]
    ensures forall i :: 0 <= i < |ds| && AtKey(t.rows[id], ds[i]) ==>
              Upserts(t, ds).rows[id] == Overwritten(t.rows[id], ds[i])
  {
    hide Clash, Upserts;
    CommitKeepsRows(t, ds);
    CommitIsOverride(t, ds);
    var u := Upserts(t, ds);
    var k := Key(t.rows[id]);
    assert Key(u.rows[id]) == k;
    OverrideExactly(ViewOf(t.rows), ds, k);
  }

  /** The old row's id holds the n-th name at a path that no entry up to the n-th covers. */
  predicate Uncovered(t: Table, ds: seq<Draft>, n: nat, id: int)
    requires n < |ds|
  {
    id in t.rows && t.rows[id].host == ds[n].host && t.rows[id].name == ds[n].name
    && forall j :: 0 <= j <= n ==> t.rows[id].path != ds[j].path
  }

  lemma ClashFromOld(t: Table, ds: seq<Draft>, n: nat, id: int)
    requires n < |ds| && KeyedTable(t) && DistinctPaths(ds) && DistinctNames(ds)
    requires Accepted(t, ds[..n])
    requires id in Upserts(t, ds[..n]).rows
    requires var r := Upserts(t, ds[..n]).rows[id]; r.host == ds[n].host && r.name == ds[n].name && r.path != ds[n].path
    ensures Uncovered(t, ds, n, id)
  {
    hide Upserts, KeyedTable, Accepted;
    var before := ds[..n];
    assert forall i :: 0 <= i < n ==> before[i] == ds[i];
    var u := Upserts(t, before);
    RowNames(t, before, id);
    forall i | 0 <= i < n ensures !AtKey(u.rows[id], before[i]) {
    }
    assert t.rows[id] == u.rows[id];
    forall j | 0 <= j < n ensures t.rows[id].path != ds[j].path {
      assert !AtKey(u.rows[id], before[j]) && ds[j].host == ds[n].host;
    }
  }

  /** The name of a staged entry clashes, after the earlier turns, exactly when an old row holds it at a path
      that no entry so far covers. */
  lemma ClashOnlyOld(t: Table, ds: seq<Draft>, n: nat)
    requires n < |ds| && KeyedTable(t) && DistinctPaths(ds) && DistinctNames(ds)
    requires Accepted(t, ds[..n])
    ensures Clash(Upserts(t, ds[..n]).rows, ds[n]) <==> exists id :: Uncovered(t, ds, n, id)
  {
    hide Upserts, KeyedTable, Accepted;
    var u := Upserts(t, ds[..n]);
    if Clash(u.rows, ds[n]) {
      var id :| id in u.rows && u.rows[id].host == ds[n].host && u.rows[id].name == ds[n].name
                && u.rows[id].path != ds[n].path;
      ClashFromOld(t, ds, n, id);
    }
    if id :| Uncovered(t, ds, n, id) {
      OldStays(t, ds, n, id);
      assert ds[n].path != u.rows[id].path;
    }
  }

  lemma OldStays(t: Table, ds: seq<Draft>, n: nat, id: int)
    requires n < |ds| && KeyedTable(t) && DistinctPaths(ds) && Accepted(t, ds[..n])
    requires Uncovered(t, ds, n, id)
    ensures id in Upserts(t, ds[..n]).rows && Upserts(t, ds[..n]).rows[id] == t.rows[id]
  {
    hide Upserts, KeyedTable, Accepted;
    var before := ds[..n];
    assert forall i :: 0 <= i < n ==> before[i] == ds[i];
    RowsElsewhere(t, before, id);
  }

  /** After the loop, the row at a staged key carries the staged name. */
  lemma RowNames(t: Table, ds: seq<Draft>, id: int)
    requires KeyedTable(t) && Accepted(t, ds) && DistinctPaths(ds)
    requires id in Upserts(t, ds).rows
    ensures var r := Upserts(t, ds).rows[id];
            (forall i :: 0 <= i < |ds| && AtKey(r, ds[i]) ==> r.name == ds[i].name)
            && ((forall i :: 0 <= i < |ds| ==> !AtKey(r, ds[i])) ==> id in t.rows && t.rows[id] == r)
  {
    hide Clash, Upserts;
    CommitKeepsRows(t, ds);
    CommitIsOverride(t, ds);
    var r := Upserts(t, ds).rows[id];
    OverrideExactly(ViewOf(t.rows), ds, Key(r));
    if id in t.rows { RowsElsewhere(t, ds, id); }
  }

  /** Every holder of the i-th name stands at the path of an entry up to the i-th. */
  ghost predicate Covered(t: Table, ds: seq<Draft>, i: nat)
    requires i < |ds|
  {
    forall id :: id in t.rows && t.rows[id].host == ds[i].host && t.rows[id].name == ds[i].name
                 ==> exists j :: 0 <= j <= i && t.rows[id].path == ds[j].path
  }

  lemma CoveredPrefix(t: Table, ds: seq<Draft>, n: nat)
    requires n < |ds|
    ensures forall i :: 0 <= i < n ==> (Covered(t, ds[..n], i) <==> Covered(t, ds, i))
  {
    forall i | 0 <= i < n ensures Covered(t, ds[..n], i) <==> Covered(t, ds, i) {
      assert forall j :: 0 <= j <= i ==> ds[..n][j] == ds[j];
    }
  }

  lemma CoveredIffNone(t: Table, ds: seq<Draft>, n: nat)
    requires n < |ds|
    ensures Covered(t, ds, n) <==> !exists id :: Uncovered(t, ds, n, id)
  {
    if Covered(t, ds, n) {
      forall id ensures !Uncovered(t, ds, n, id) { }
    } else {
      var id :| id in t.rows && t.rows[id].host == ds[n].host && t.rows[id].name == ds[n].name
                && !exists j :: 0 <= j <= n && t.rows[id].path == ds[j].path;
      assert Uncovered(t, ds, n, id);
    }
  }

  /** The loop accepts a batch of distinct names and paths exactly when no name is held, in the registry as
      it was, by a row whose path is neither the entry's own nor that of an earlier entry. */
  lemma {:induction false} AcceptedExactly(t: Table, ds: seq<Draft>)
    requires KeyedTable(t) && DistinctPaths(ds) && DistinctNames(ds)
    ensures Accepted(t, ds) <==> forall i :: 0 <= i < |ds| ==> Covered(t, ds, i)
    decreases |ds|
  {
    hide Clash, Upserts, KeyedTable;
    if ds != [] {
      var n := |ds| - 1;
      var before := ds[..n];
      assert forall i :: 0 <= i < n ==> before[i] == ds[i] && before[..i] == ds[..i];
      AcceptedExactly(t, before);
      CoveredPrefix(t, ds, n);
      if Accepted(t, before) {
        ClashOnlyOld(t, ds, n);
        CoveredIffNone(t, ds, n);
        assert Accepted(t, ds) <==> !Clash(Upserts(t, ds[..n]).rows, ds[n]);
      } else if Accepted(t, ds) {
        PrefixAccepted(t, ds, n);
      }
    }
  }

  /** The order of a batch matters for a hand-over: a name freed by an earlier entry may be taken by a later one,
      not the other way round. */
  lemma OrderMatters(t: Table, a: Draft, b: Draft)
    requires KeyedTable(t)
    requires a.host == b.host && a.path != b.path && a.name != b.name
    requires exists id :: id in t.rows && AtKey(t.rows[id], a) && t.rows[id].name == b.name
    requires forall id :: id in t.rows ==> t.rows[id].host != a.host || t.rows[id].name != a.name
    ensures Accepted(t, [a, b]) && !Accepted(t, [b, a])
  {
    hide Upserts, KeyedTable, Accepted;
    AcceptedExactly(t, [a, b]);
    AcceptedExactly(t, [b, a]);
    var id :| id in t.rows && AtKey(t.rows[id], a) && t.rows[id].name == b.name;
    forall i | 0 <= i < 2 ensures Covered(t, [a, b], i) {
      if i == 1 {
        forall k | k in t.rows && t.rows[k].host == b.host && t.rows[k].name == b.name
          ensures exists j :: 0 <= j <= i && t.rows[k].path == [a, b][j].path
        {
          SameNameSameRow(t, k, id);
          assert t.rows[k].path == [a, b][0].path;
        }
      }
    }
    assert Uncovered(t, [b, a], 0, id);
    CoveredIffNone(t, [b, a], 0);
  }

  /** The name of the i-th entry is held by a row that another entry of `cycle` replaces. */
  ghost predicate HeldInside(t: Table, ds: seq<Draft>, cycle: set<nat>, i: nat)
    requires i < |ds| && forall j :: j in cycle ==> j < |ds|
  {
    exists id, j :: j in cycle && j != i && id in t.rows && AtKey(t.rows[id], ds[j])
                    && t.rows[id].host == ds[i].host && t.rows[id].name == ds[i].name
  }

  /** Entries that only pass their names around among themselves are refused, whatever the order of the batch:
      the first of them takes a name whose holder has not given it up yet. */
  lemma CycleIsRefused(t: Table, ds: seq<Draft>, cycle: set<nat>)
    requires KeyedTable(t) && DistinctPaths(ds) && DistinctNames(ds)
    requires cycle != {} && forall j :: j in cycle ==> j < |ds|
    requires forall i :: i in cycle ==> HeldInside(t, ds, cycle, i)
    ensures !Accepted(t, ds)
  {
    hide KeyedTable, Accepted, HeldInside;
    AcceptedExactly(t, ds);
    var i := Least(cycle);
    assert HeldInside(t, ds, cycle, i);
    FirstIsUncovered(t, ds, cycle, i);
  }

  lemma Least(s: set<nat>) returns (i: nat)
    requires s != {}
    ensures i in s && forall j :: j in s ==> i <= j
  {
    var m: nat :| m in s;
    var rest := s - {m};
    assert forall j :: j in s ==> j == m || j in rest;
    i := m;
    if rest != {} {
      var k := Least(rest);
      if k < m { i := k; }
    }
  }

  lemma FirstIsUncovered(t: Table, ds: seq<Draft>, cycle: set<nat>, i: nat)
    requires DistinctPaths(ds) && i < |ds| && forall j :: j in cycle ==> i <= j < |ds|
    requires HeldInside(t, ds, cycle, i)
    ensures !Covered(t, ds, i)
  {
    var id, j :| j in cycle && j != i && id in t.rows && AtKey(t.rows[id], ds[j])
                 && t.rows[id].host == ds[i].host && t.rows[id].name == ds[i].name;
    assert forall k :: 0 <= k <= i ==> t.rows[id].path != ds[k].path;
  }

  /** In particular two services cannot exchange their names in one batch, in neither order. */
  lemma ExchangeIsRefused(t: Table, a: Draft, b: Draft, i: int, j: int)
    requires KeyedTable(t) && a.host == b.host && a.path != b.path && a.name != b.name
    requires i in t.rows && AtKey(t.rows[i], a) && t.rows[i].name == b.name
    requires j in t.rows && AtKey(t.rows[j], b) && t.rows[j].name == a.name
    ensures !Accepted(t, [a, b]) && !Accepted(t, [b, a])
  {
    hide KeyedTable, Accepted;
    var cycle: set<nat> := {0, 1};
    PairHeld(t, a, b, i, j);
    PairHeld(t, b, a, j, i);
    CycleIsRefused(t, [a, b], cycle);
    CycleIsRefused(t, [b, a], cycle);
  }

  lemma PairHeld(t: Table, a: Draft, b: Draft, i: int, j: int)
    requires a.host == b.host && i in t.rows && AtKey(t.rows[i], a) && t.rows[i].name == b.name
    requires j in t.rows && AtKey(t.rows[j], b) && t.rows[j].name == a.name
    ensures HeldInside(t, [a, b], {0, 1}, 0) && HeldInside(t, [a, b], {0, 1}, 1)
  {
    var ds := [a, b];
    assert AtKey(t.rows[j], ds[1]) && t.rows[j].name == ds[0].name;
    assert AtKey(t.rows[i], ds[0]) && t.rows[i].name == ds[1].name;
  }

  lemma SameNameSameRow(t: Table, i: int, j: int)
    requires KeyedTable(t) && i in t.rows && j in t.rows
    requires t.rows[i].host == t.rows[j].host && t.rows[i].name == t.rows[j].name
    ensures i == j
  {
  }
}
