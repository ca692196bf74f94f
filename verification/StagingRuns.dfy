/** The staging table over whole runs of prechecks, reloads and commits by any operators, each stopping
    anywhere: one batch per operator and host, no interference, exact reload, and a batch commits at most once. */
module StagingRuns {
  import opened Staging

  datatype Event =
    | Prechecking(batch: string, host: string, operator: int, now: int, rows: seq<StagedRow>)
    | Loading(host: string, operator: int, now: int)
    | Committing(batch: string, host: string, operator: int, done: bool)

  predicate Step(s: seq<StagedRow>, e: Event, s': seq<StagedRow>) {
    match e
    case Prechecking(batch, host, operator, now, rows) =>
      BatchRows(rows, batch, host, operator, now) && PrecheckCut(s, s', now - TTL, host, operator, rows)
    case Loading(_, _, now) => s' == s || s' == Without(s, CreatedBefore(now - TTL))
    case Committing(batch, host, operator, done) =>
      if done then Select(s, OfBatch(batch, host, operator)) != [] && s' == Without(s, OfBatch(batch, host, operator))
      else s' == s
  }

  ghost predicate Run(ss: seq<seq<StagedRow>>, es: seq<Event>) {
    |ss| == |es| + 1 && forall k :: 0 <= k < |es| ==> Step(ss[k], es[k], ss[k + 1])
  }

  // ---------------------------------------------------------------- one batch per owner

  predicate OneBatch(s: seq<StagedRow>) {
    forall r, q :: r in s && q in s && r.host == q.host && r.operator == q.operator ==> r.batch == q.batch
  }

  predicate CompletedFor(s: seq<StagedRow>, e: Event, s': seq<StagedRow>, r: StagedRow) {
    e.Prechecking? && s' == Cleared(s, e.now - TTL, e.host, e.operator) + e.rows && Own(e, r.host, r.operator)
  }

  /** Members of the table after a step were there before, or are the rows a precheck just added, and then
      no other row of that operator and host is left. */
  lemma MembersAfter(s: seq<StagedRow>, e: Event, s': seq<StagedRow>, r: StagedRow)
    requires Step(s, e, s') && r in s'
    ensures r in s || (e.Prechecking? && r in e.rows && r.batch == e.batch && r.host == e.host && r.operator == e.operator)
    ensures CompletedFor(s, e, s', r) ==> r.batch == e.batch
  {
    hide Select, Without;
    match e
    case Prechecking(batch, host, operator, now, rows) =>
      var live := Without(s, CreatedBefore(now - TTL));
      Members(s, CreatedBefore(now - TTL), r);
      Members(live, OfOwner(host, operator), r);
    case Loading(_, _, now) => Members(s, CreatedBefore(now - TTL), r);
    case Committing(batch, host, operator, done) => Members(s, OfBatch(batch, host, operator), r);
  }

  lemma StepKeepsOneBatch(s: seq<StagedRow>, e: Event, s': seq<StagedRow>)
    requires OneBatch(s) && Step(s, e, s')
    ensures OneBatch(s')
  {
    hide Step, Cleared;
    forall r, q | r in s' && q in s' && r.host == q.host && r.operator == q.operator ensures r.batch == q.batch {
      MembersAfter(s, e, s', r);
      MembersAfter(s, e, s', q);
      if !(r in s && q in s) { AddedMeansCleared(s, e, s', r, q); }
    }
  }

  lemma AddedMeansCleared(s: seq<StagedRow>, e: Event, s': seq<StagedRow>, r: StagedRow, q: StagedRow)
    requires Step(s, e, s') && r in s' && q in s' && (r !in s || q !in s) && r.host == q.host && r.operator == q.operator
    ensures r.batch == q.batch
  {
    hide Select, Without;
    MembersAfter(s, e, s', r);
    MembersAfter(s, e, s', q);
    if e.Prechecking? {
      var added := if r !in s then r else q;
      Members(s, CreatedBefore(e.now - TTL), added);
      assert s' == Cleared(s, e.now - TTL, e.host, e.operator) + e.rows;
    }
  }

  /** In every run the rows of one operator on one host carry one batch id. */
  lemma {:induction false} RunKeepsOneBatch(ss: seq<seq<StagedRow>>, es: seq<Event>, n: nat)
    requires Run(ss, es) && n <= |es| && OneBatch(ss[0])
    ensures OneBatch(ss[n])
  {
    hide Step, OneBatch;
    if n > 0 {
      RunKeepsOneBatch(ss, es, n - 1);
      StepKeepsOneBatch(ss[n - 1], es[n - 1], ss[n]);
    }
  }

  // ---------------------------------------------------------------- no interference

  predicate Own(e: Event, host: string, operator: int) { e.host == host && e.operator == operator }

  /** The clock reading of an event that expires rows. */
  predicate ExpiresNone(e: Event, since: int) { e.Committing? || e.now - TTL <= since }

  lemma {:induction false} WithoutSelect(rows: seq<StagedRow>, p: Query, q: Query)
    ensures Select(Without(rows, p), q) == Without(Select(rows, q), p)
  {
    if rows != [] {
      var n := |rows| - 1;
      var one := if Matches(p, rows[n]) then [] else [rows[n]];
      var two := if Matches(q, rows[n]) then [rows[n]] else [];
      WithoutSelect(rows[..n], p, q);
      SelectAppend(Without(rows[..n], p), one, q);
      SelectAppend(Select(rows[..n], q), two, p);
      assert [rows[n]][..0] == [];
      assert Select(one, q) == Without(two, p);
    }
  }

  /** Another operator's or host's event, or a reload, leaves what an operator has on a host as it is, except
      that rows past their time may go. */
  lemma OthersOnlyExpire(s: seq<StagedRow>, e: Event, s': seq<StagedRow>, host: string, operator: int)
    requires Step(s, e, s') && (Own(e, host, operator) ==> e.Loading?)
    ensures var mine := Select(s, OfOwner(host, operator)); var mine' := Select(s', OfOwner(host, operator));
            mine' == mine || (!e.Committing? && mine' == Without(mine, CreatedBefore(e.now - TTL)))
  {
    hide Select, Without;
    var q := OfOwner(host, operator);
    match e
    case Prechecking(batch, h, o, now, rows) =>
      var live := Without(s, CreatedBefore(now - TTL));
      WithoutSelect(s, CreatedBefore(now - TTL), q);
      SelectWithout(live, OfOwner(h, o), q);
      SelectAppend(Without(live, OfOwner(h, o)), rows, q);
      SelectNone(rows, q);
      assert Select(live, q) + [] == Select(live, q);
    case Loading(_, _, now) => WithoutSelect(s, CreatedBefore(now - TTL), q);
    case Committing(batch, h, o, done) => SelectWithout(s, OfBatch(batch, h, o), q);
  }

  // ---------------------------------------------------------------- exact reload

  /** Nobody touches the batch of (host, operator) from `a` on, and it has not run out of time. */
  ghost predicate Undisturbed(es: seq<Event>, host: string, operator: int, a: nat, b: nat, since: int) {
    forall k :: a <= k < b && k < |es| ==>
      ExpiresNone(es[k], since) && (Own(es[k], host, operator) ==> es[k].Loading? || (es[k].Committing? && !es[k].done))
  }

  lemma {:induction false} BatchStays(
    ss: seq<seq<StagedRow>>, es: seq<Event>, host: string, operator: int, a: nat, b: nat, rows: seq<StagedRow>, since: int)
    requires Run(ss, es) && a <= b <= |es| && Undisturbed(es, host, operator, a, b, since)
    requires Select(ss[a], OfOwner(host, operator)) == rows && forall r :: r in rows ==> r.created >= since
    ensures Select(ss[b], OfOwner(host, operator)) == rows
    decreases b
  {
    hide Select, Without;
    if a < b {
      BatchStays(ss, es, host, operator, a, b - 1, rows, since);
      var e := es[b - 1];
      if Own(e, host, operator) && e.Committing? {
        assert ss[b] == ss[b - 1];
      } else {
        OthersOnlyExpire(ss[b - 1], e, ss[b], host, operator);
        if !e.Committing? { SelectNone(rows, CreatedBefore(e.now - TTL)); }
      }
    }
  }

  lemma JustAdded(s: seq<StagedRow>, expire: int, host: string, operator: int, rows: seq<StagedRow>, batch: string, now: int)
    requires BatchRows(rows, batch, host, operator, now)
    ensures Select(Cleared(s, expire, host, operator) + rows, OfOwner(host, operator)) == rows
  {
    hide Select, Without;
    var q := OfOwner(host, operator);
    var left := Cleared(s, expire, host, operator);
    forall r | r in left ensures !Matches(q, r) { Members(Without(s, CreatedBefore(expire)), q, r); }
    SelectAppend(left, rows, q);
    SelectNone(left, q);
    SelectAll(rows, q);
    assert [] + rows == rows;
  }

  /** What an operator's rows are determines what a reload finds. */
  lemma LatestIs(s: seq<StagedRow>, host: string, operator: int, rows: seq<StagedRow>, batch: string, now: int)
    requires rows != [] && BatchRows(rows, batch, host, operator, now) && Select(s, OfOwner(host, operator)) == rows
    ensures LatestBatch(s, host, operator) == rows
  {
    hide Select, Without;
    assert Latest(rows) in rows;
    BatchOfOwner(s, batch, host, operator);
    SelectAll(rows, OfBatch(batch, host, operator));
  }

  lemma {:induction false} BatchOfOwner(s: seq<StagedRow>, batch: string, host: string, operator: int)
    ensures Select(s, OfBatch(batch, host, operator)) == Select(Select(s, OfOwner(host, operator)), OfBatch(batch, host, operator))
  {
    if s != [] {
      var n := |s| - 1;
      var q, b := OfOwner(host, operator), OfBatch(batch, host, operator);
      BatchOfOwner(s[..n], batch, host, operator);
      var one := if Matches(q, s[n]) then [s[n]] else [];
      SelectAppend(Select(s[..n], q), one, b);
      assert [s[n]][..0] == [];
    }
  }

  /** After a completed precheck, as long as its operator starts no other precheck, commits nothing and the
      batch is not past its time, a reload gives back the rows of that precheck, in order. */
  lemma ReloadFindsBatch(
    ss: seq<seq<StagedRow>>, es: seq<Event>, a: nat, b: nat, load: int)
    requires Run(ss, es) && a < b <= |es| && es[a].Prechecking? && es[a].rows != []
    requires ss[a + 1] == Cleared(ss[a], es[a].now - TTL, es[a].host, es[a].operator) + es[a].rows
    requires Undisturbed(es, es[a].host, es[a].operator, a + 1, b, es[a].now) && load - TTL <= es[a].now
    ensures LatestBatch(Without(ss[b], CreatedBefore(load - TTL)), es[a].host, es[a].operator) == es[a].rows
  {
    hide Select, Without, Cleared, LatestBatch, PrecheckCut;
    var Prechecking(batch, host, operator, now, rows) := es[a];
    assert Step(ss[a], es[a], ss[a + 1]);
    JustAdded(ss[a], now - TTL, host, operator, rows, batch, now);
    BatchStays(ss, es, host, operator, a + 1, b, rows, now);
    var expired := CreatedBefore(load - TTL);
    WithoutSelect(ss[b], expired, OfOwner(host, operator));
    SelectNone(rows, expired);
    LatestIs(Without(ss[b], expired), host, operator, rows, batch, now);
  }

  /** Under the same conditions a commit finds exactly the rows of the precheck. */
  lemma CommitFindsBatch(ss: seq<seq<StagedRow>>, es: seq<Event>, a: nat, b: nat)
    requires Run(ss, es) && a < b <= |es| && es[a].Prechecking?
    requires ss[a + 1] == Cleared(ss[a], es[a].now - TTL, es[a].host, es[a].operator) + es[a].rows
    requires Undisturbed(es, es[a].host, es[a].operator, a + 1, b, es[a].now)
    ensures Select(ss[b], OfBatch(es[a].batch, es[a].host, es[a].operator)) == es[a].rows
  {
    hide Select, Without, Cleared, PrecheckCut;
    var Prechecking(batch, host, operator, now, rows) := es[a];
    assert Step(ss[a], es[a], ss[a + 1]);
    JustAdded(ss[a], now - TTL, host, operator, rows, batch, now);
    BatchStays(ss, es, host, operator, a + 1, b, rows, now);
    BatchOfOwner(ss[b], batch, host, operator);
    SelectAll(rows, OfBatch(batch, host, operator));
  }

  /** Read back, the rows are the report's items with empty text read as absent, and the same summary. */
  lemma ReloadedItems(items: seq<Item>, rows: seq<StagedRow>)
    requires |rows| == |items| && forall i :: 0 <= i < |rows| ==> Stages(rows[i], items[i])
    requires CountOf(items, Skipped) <= |items|
    ensures forall i :: 0 <= i < |items| ==> ItemsOf(rows)[i] == ReadItem(items[i])
    ensures CountOf(ItemsOf(rows), Skipped) <= |rows| && SummaryOf(ItemsOf(rows)) == SummaryOf(items)
  {
    hide Stages, ItemOf, ReadItem;
    var back := ItemsOf(rows);
    forall i | 0 <= i < |items| ensures back[i] == ReadItem(items[i]) && back[i].result == items[i].result {
      ReadBack(rows[i], items[i]);
    }
    CountSame(back, items, Skipped);
    CountSame(back, items, Imported);
    CountSame(back, items, Updated);
  }

  // ---------------------------------------------------------------- commit at most once

  /** Batch ids are unique: a precheck's id has not been seen before. */
  ghost predicate FreshIds(ss: seq<seq<StagedRow>>, es: seq<Event>)
    requires |ss| == |es| + 1
  {
    forall k, j, r :: 0 <= j <= k < |es| && es[k].Prechecking? && r in ss[j] ==> r.batch != es[k].batch
  }

  lemma {:induction false} CommittedIsGone(
    ss: seq<seq<StagedRow>>, es: seq<Event>, i: nat, j: nat, batch: string, host: string, operator: int)
    requires Run(ss, es) && FreshIds(ss, es) && i < j <= |es|
    requires es[i] == Committing(batch, host, operator, true)
    ensures forall r :: r in ss[j] ==> !Matches(OfBatch(batch, host, operator), r)
    decreases j
  {
    hide Select, Without;
    var q := OfBatch(batch, host, operator);
    assert Step(ss[i], es[i], ss[i + 1]);
    var first := Select(ss[i], q)[0];
    assert first in Select(ss[i], q);
    Members(ss[i], q, first);
    if j == i + 1 {
      forall r | r in ss[j] ensures !Matches(q, r) { Members(ss[i], q, r); }
    } else {
      CommittedIsGone(ss, es, i, j - 1, batch, host, operator);
      assert Step(ss[j - 1], es[j - 1], ss[j]);
      assert es[j - 1].Prechecking? ==> first.batch != es[j - 1].batch;
      forall r | r in ss[j] ensures !Matches(q, r) { MembersAfter(ss[j - 1], es[j - 1], ss[j], r); }
    }
  }

  /** A batch is committed at most once. */
  lemma CommitsOnce(ss: seq<seq<StagedRow>>, es: seq<Event>, i: nat, j: nat)
    requires Run(ss, es) && FreshIds(ss, es) && i < j < |es|
    requires es[i].Committing? && es[i].done && es[j].Committing? && es[j].done
    ensures (es[i].batch, es[i].host, es[i].operator) != (es[j].batch, es[j].host, es[j].operator)
  {
    hide Select, Without;
    CommittedIsGone(ss, es, i, j, es[i].batch, es[i].host, es[i].operator);
    SelectNone(ss[j], OfBatch(es[i].batch, es[i].host, es[i].operator));
    assert Step(ss[j], es[j], ss[j + 1]);
  }
}
