/** The import staging table: app/database/repositories/supervisor.py (staging part) and the record
    conversions of `ImportStagingService`. Rows are kept in id order. */
module Staging {
  import opened Text
  import opened Registry
  import Template

  datatype ImportResult = Planned | Imported | Updated | Skipped

  /** One line of the precheck report. */
  datatype Item = Item(
    path: string, fileName: string, name: Option<string>, port: Option<int>, meta: Meta, complete: bool,
    warnings: seq<Template.Warning>, result: ImportResult, message: string)

  /** `created` is the row's create_time. */
  datatype StagedRow = StagedRow(
    batch: string, host: string, operator: int, operatorName: string, path: string, fileName: string,
    name: Option<string>, baseline: Option<string>, complete: bool, warnings: seq<Template.Warning>,
    port: Option<int>, meta: Meta, result: ImportResult, message: Option<string>, created: int)

  datatype Summary = Summary(planned: nat, imported: nat, updated: nat, skipped: nat)

  // ---------------------------------------------------------------- queries

  datatype Query = OfBatch(batch: string, host: string, operator: int) | OfOwner(host: string, operator: int) | CreatedBefore(time: int)

  predicate Matches(q: Query, r: StagedRow) {
    match q
    case OfBatch(b, h, o) => r.batch == b && r.host == h && r.operator == o
    case OfOwner(h, o) => r.host == h && r.operator == o
    case CreatedBefore(time) => r.created < time
  }

  function Select(rows: seq<StagedRow>, q: Query): seq<StagedRow> {
    if rows == [] then [] else Select(rows[..|rows| - 1], q) + if Matches(q, rows[|rows| - 1]) then [rows[|rows| - 1]] else []
  }

  function Without(rows: seq<StagedRow>, q: Query): seq<StagedRow> {
    if rows == [] then [] else Without(rows[..|rows| - 1], q) + if Matches(q, rows[|rows| - 1]) then [] else [rows[|rows| - 1]]
  }

  lemma {:induction false} Members(rows: seq<StagedRow>, q: Query, x: StagedRow)
    ensures x in Select(rows, q) <==> x in rows && Matches(q, x)
    ensures x in Without(rows, q) <==> x in rows && !Matches(q, x)
  {
    if rows != [] {
      var before := rows[..|rows| - 1];
      Members(before, q, x);
      assert rows == before + [rows[|rows| - 1]];
    }
  }

  /** `find_latest_batch_row`: newest create_time, then highest id. */
  function Latest(rows: seq<StagedRow>): (r: StagedRow)
    requires rows != []
    ensures r in rows && forall x :: x in rows ==> x.created <= r.created
  {
    var last := rows[|rows| - 1];
    if |rows| == 1 then last
    else
      var best := Latest(rows[..|rows| - 1]);
      if best.created > last.created then best else last
  }

  // ---------------------------------------------------------------- conversions

  /** `_optional_str`: empty text is read as absent. */
  function Read(v: Option<string>): Option<string> { if v == Some("") then None else v }

  function ReadMeta(m: Meta): Meta {
    Meta(Read(m.job), Read(m.moduleName), Read(m.javaPath), Read(m.active), Read(m.jar), Read(m.xms), Read(m.xmx), Read(m.user))
  }

  /** `_build_record` followed by `_build_item_payload` */
  function ItemOf(r: StagedRow): Item {
    var message := Read(r.message);
    Item(r.path, r.fileName, Read(r.name), r.port, ReadMeta(r.meta), r.complete, r.warnings, r.result,
         if message.Some? then message.value else "")
  }

  function ItemsOf(rows: seq<StagedRow>): (items: seq<Item>)
    ensures |items| == |rows| && forall i :: 0 <= i < |rows| ==> items[i] == ItemOf(rows[i])
  {
    seq(|rows|, i requires 0 <= i < |rows| => ItemOf(rows[i]))
  }

  /** An item as it comes back from the table. */
  function ReadItem(item: Item): Item { item.(name := Read(item.name), meta := ReadMeta(item.meta)) }

  /** The row `insert_batch` writes for an item. */
  function RowOf(item: Item, baseline: Option<string>, batch: string, host: string, operator: int, operatorName: string, now: int): StagedRow {
    StagedRow(batch, host, operator, operatorName, item.path, item.fileName, item.name, baseline, item.complete,
              item.warnings, item.port, item.meta, item.result, Some(item.message), now)
  }

  /** The row holds the item. */
  predicate Stages(r: StagedRow, item: Item) {
    r == RowOf(item, r.baseline, r.batch, r.host, r.operator, r.operatorName, r.created)
  }

  lemma ReadBack(r: StagedRow, item: Item)
    requires Stages(r, item)
    ensures ItemOf(r) == ReadItem(item) && ItemOf(r).result == item.result
  {
  }

  function CountOf(items: seq<Item>, result: ImportResult): nat {
    if items == [] then 0
    else CountOf(items[..|items| - 1], result) + if items[|items| - 1].result == result then 1 else 0
  }

  /** The summary of `build_report_from_records`. */
  function SummaryOf(items: seq<Item>): Summary
    requires CountOf(items, Skipped) <= |items|
  {
    Summary(|items| - CountOf(items, Skipped), CountOf(items, Imported), CountOf(items, Updated), CountOf(items, Skipped))
  }

  lemma {:induction false} CountBound(items: seq<Item>, result: ImportResult)
    ensures CountOf(items, result) <= |items|
  {
    if items != [] { CountBound(items[..|items| - 1], result); }
  }

  lemma {:induction false} CountSame(a: seq<Item>, b: seq<Item>, result: ImportResult)
    requires |a| == |b| && forall i :: 0 <= i < |a| ==> a[i].result == b[i].result
    ensures CountOf(a, result) == CountOf(b, result)
  {
    if a != [] {
      var n := |a| - 1;
      assert forall i :: 0 <= i < n ==> a[..n][i].result == b[..n][i].result;
      CountSame(a[..n], b[..n], result);
    }
  }

  /** `build_create_data` */
  function DraftOf(r: StagedRow): Draft
    requires Read(r.name).Some?
  {
    var baseline := Read(r.baseline);
    Draft(r.host, r.path, r.fileName, r.name.value, ImportedReadonly, if baseline.Some? then baseline.value else "",
          r.complete, r.warnings, r.port, ReadMeta(r.meta))
  }

  // ---------------------------------------------------------------- the staging protocol

  const TTL := 24 * 3600

  /** The table after the two clean-ups a precheck starts with. */
  function Cleared(rows: seq<StagedRow>, expire: int, host: string, operator: int): seq<StagedRow> {
    Without(Without(rows, CreatedBefore(expire)), OfOwner(host, operator))
  }

  predicate BatchRows(rows: seq<StagedRow>, batch: string, host: string, operator: int, now: int) {
    forall r :: r in rows ==> r.batch == batch && r.host == host && r.operator == operator && r.created >= now
  }

  /** What a precheck may leave behind, wherever it stops; `added` are the rows it inserted. */
  predicate PrecheckCut(rows: seq<StagedRow>, rows': seq<StagedRow>, expire: int, host: string, operator: int, added: seq<StagedRow>) {
    || rows' == rows
    || rows' == Without(rows, CreatedBefore(expire))
    || rows' == Cleared(rows, expire, host, operator) + added
  }

  /** `get_latest_batch` */
  function LatestBatch(rows: seq<StagedRow>, host: string, operator: int): seq<StagedRow> {
    var own := Select(rows, OfOwner(host, operator));
    if own == [] then [] else Select(rows, OfBatch(Latest(own).batch, host, operator))
  }

  // ---------------------------------------------------------------- laws of selection

  lemma {:induction false} SelectAppend(a: seq<StagedRow>, b: seq<StagedRow>, q: Query)
    ensures Select(a + b, q) == Select(a, q) + Select(b, q)
    ensures Without(a + b, q) == Without(a, q) + Without(b, q)
  {
    if b == [] {
      assert a + b == a;
    } else {
      assert (a + b)[..|a + b| - 1] == a + b[..|b| - 1];
      SelectAppend(a, b[..|b| - 1], q);
    }
  }

  lemma {:induction false} SelectAll(rows: seq<StagedRow>, q: Query)
    requires forall r :: r in rows ==> Matches(q, r)
    ensures Select(rows, q) == rows && Without(rows, q) == []
  {
    hide Matches;
    if rows != [] {
      SelectAll(rows[..|rows| - 1], q);
      assert rows == rows[..|rows| - 1] + [rows[|rows| - 1]];
    }
  }

  lemma {:induction false} SelectNone(rows: seq<StagedRow>, q: Query)
    requires forall r :: r in rows ==> !Matches(q, r)
    ensures Select(rows, q) == [] && Without(rows, q) == rows
  {
    hide Matches;
    if rows != [] {
      SelectNone(rows[..|rows| - 1], q);
      assert rows == rows[..|rows| - 1] + [rows[|rows| - 1]];
    }
  }

  /** Removing rows a query does not see does not change what it sees. */
  lemma {:induction false} SelectWithout(rows: seq<StagedRow>, p: Query, q: Query)
    requires forall r :: r in rows ==> !(Matches(p, r) && Matches(q, r))
    ensures Select(Without(rows, p), q) == Select(rows, q)
  {
    hide Matches;
    if rows != [] {
      var n := |rows| - 1;
      SelectWithout(rows[..n], p, q);
      SelectAppend(Without(rows[..n], p), if Matches(p, rows[n]) then [] else [rows[n]], q);
      var one := [rows[n]];
      assert one[..0] == [];
      assert Select(one, q) == Select([], q) + if Matches(q, rows[n]) then one else [];
    }
  }
}
