/** `search_page` of app/database/repositories/supervisor.py: every page is its own query, yet the pages fit
    together, because update time and id order the rows totally. */
module Paging {

  /** A matching row as the ordering sees it. */
  datatype Entry = Entry(updateTime: int, id: int)

  /** ORDER BY update_time DESC, id DESC */
  predicate Before(a: Entry, b: Entry) { a.updateTime > b.updateTime || (a.updateTime == b.updateTime && a.id > b.id) }

  predicate Ordered(list: seq<Entry>) { forall i, j :: 0 <= i < j < |list| ==> Before(list[i], list[j]) }

  /** The answer of an ordered query for exactly the matching rows. */
  ghost predicate Listing(list: seq<Entry>, rows: set<Entry>) {
    Ordered(list) && forall e :: e in list <==> e in rows
  }

  lemma EmptyListing(a: seq<Entry>, rows: set<Entry>)
    requires Listing(a, rows)
    ensures a == [] <==> rows == {}
  {
    if rows != {} {
      var e :| e in rows;
      assert e in a;
    }
    assert a != [] ==> a[0] in rows;
  }

  /** There is only one such answer. */
  lemma {:induction false} OneListing(a: seq<Entry>, b: seq<Entry>, rows: set<Entry>)
    requires Listing(a, rows) && Listing(b, rows)
    ensures a == b
    decreases |a|
  {
    EmptyListing(a, rows);
    EmptyListing(b, rows);
    if a != [] {
      assert a[0] in b && b[0] in a;
      assert a[0] == b[0];
      Rest(a, rows);
      Rest(b, rows);
      OneListing(a[1..], b[1..], rows - {a[0]});
    }
  }

  lemma Rest(a: seq<Entry>, rows: set<Entry>)
    requires a != [] && Listing(a, rows)
    ensures Listing(a[1..], rows - {a[0]})
  {
    forall e ensures e in a[1..] <==> e in rows - {a[0]} {
      if e in rows && e != a[0] {
        var i :| 0 <= i < |a| && a[i] == e;
        assert a[1..][i - 1] == e;
      }
    }
  }

  function Min(a: int, b: int): int { if a < b then a else b }

  /** OFFSET (page - 1) * size LIMIT size */
  function Page(list: seq<Entry>, page: int, size: int): seq<Entry>
    requires page >= 1 && size >= 1
  {
    Bound(page - 1, size);
    list[Min(|list|, (page - 1) * size)..Min(|list|, (page - 1) * size + size)]
  }

  lemma Bound(k: int, size: int)
    requires k >= 0 && size >= 1
    ensures k * size >= 0
  {
  }

  function Pages(total: int, size: int): int
    requires total >= 0 && size >= 1
  {
    if total == 0 then 0 else (total + size - 1) / size
  }

  /** One after the other, `pages[k]` being the answer for page k + 1. */
  function Concat(pages: seq<seq<Entry>>): seq<Entry> {
    if pages == [] then [] else Concat(pages[..|pages| - 1]) + pages[|pages| - 1]
  }

  /** Every page came from some ordered answer to the same question. */
  ghost predicate Fetched(pages: seq<seq<Entry>>, rows: set<Entry>, size: int)
    requires size >= 1
  {
    forall k :: 0 <= k < |pages| ==> exists list :: Listing(list, rows) && pages[k] == Page(list, k + 1, size)
  }

  lemma {:induction false} FirstPages(list: seq<Entry>, rows: set<Entry>, pages: seq<seq<Entry>>, size: int)
    requires size >= 1 && Listing(list, rows) && Fetched(pages, rows, size)
    ensures |pages| * size >= 0 && Concat(pages) == list[..Min(|list|, |pages| * size)]
    decreases |pages|
  {
    hide Listing, Page, Min;
    Bound(|pages|, size);
    if pages == [] {
      Start(list);
    } else {
      var n := |pages| - 1;
      assert Fetched(pages[..n], rows, size) by {
        forall k | 0 <= k < n ensures exists list :: Listing(list, rows) && pages[..n][k] == Page(list, k + 1, size) {
          assert pages[..n][k] == pages[k];
        }
      }
      FirstPages(list, rows, pages[..n], size);
      var other :| Listing(other, rows) && pages[n] == Page(other, n + 1, size);
      OneListing(list, other, rows);
      NextPage(list, n, size);
    }
  }

  lemma Start(list: seq<Entry>)
    ensures Min(|list|, 0) == 0 && list[..0] == []
  {
  }

  lemma NextPage(list: seq<Entry>, n: int, size: int)
    requires n >= 0 && size >= 1
    ensures n * size >= 0 && (n + 1) * size >= 0
    ensures list[..Min(|list|, n * size)] + Page(list, n + 1, size) == list[..Min(|list|, (n + 1) * size)]
  {
    Bound(n, size);
    assert (n + 1) * size == n * size + size;
    Slices(list, n * size, size);
  }

  lemma Slices(list: seq<Entry>, at: int, size: int)
    requires at >= 0 && size >= 1
    ensures list[..Min(|list|, at)] + list[Min(|list|, at)..Min(|list|, at + size)] == list[..Min(|list|, at + size)]
  {
  }

  /** Pages 1 to `pages` give every matching row exactly once, the newest first and of two rows of one time the one with
      the higher id; none of these pages is empty and all later ones are. */
  lemma PagesAreTheListing(list: seq<Entry>, rows: set<Entry>, pages: seq<seq<Entry>>, size: int)
    requires size >= 1 && Listing(list, rows) && |pages| == Pages(|list|, size) && Fetched(pages, rows, size)
    ensures Concat(pages) == list
    ensures |list| == |rows|
    ensures forall e :: e in Concat(pages) <==> e in rows
    ensures forall i, j :: 0 <= i < j < |list| ==>
              list[i].updateTime > list[j].updateTime || (list[i].updateTime == list[j].updateTime && list[i].id > list[j].id)
    ensures forall page :: page > Pages(|list|, size) ==> Page(list, page, size) == []
    ensures forall page :: 1 <= page <= Pages(|list|, size) ==> 1 <= |Page(list, page, size)| <= size
  {
    hide Page, Concat, Pages;
    FirstPages(list, rows, pages, size);
    Enough(|list|, size);
    forall page | 1 <= page <= Pages(|list|, size) ensures 1 <= |Page(list, page, size)| <= size {
      EarlyPage(list, size, page);
    }
    assert list[..|list|] == list;
    forall page | page > Pages(|list|, size) ensures Page(list, page, size) == [] {
      Later(|list|, size, page);
      EmptyPage(list, size, page);
    }
    SizeOf(list, rows);
  }

  lemma EmptyPage(list: seq<Entry>, size: int, page: int)
    requires size >= 1 && page >= 1 && (page - 1) * size >= |list|
    ensures Page(list, page, size) == []
  {
  }

  lemma EarlyPage(list: seq<Entry>, size: int, page: int)
    requires size >= 1 && 1 <= page <= Pages(|list|, size)
    ensures 1 <= |Page(list, page, size)| <= size
  {
    hide Pages;
    FewEnough(|list|, size, page);
    Bound(page - 1, size);
  }

  lemma FewEnough(total: int, size: int, page: int)
    requires total >= 0 && size >= 1 && 1 <= page <= Pages(total, size)
    ensures (page - 1) * size < total
  {
    hide Pages;
    LastStart(total, size);
    var last := Pages(total, size);
    var less := last - page;
    Bound(less, size);
    assert (last - 1) * size == (page - 1) * size + less * size;
  }

  lemma LastStart(total: int, size: int)
    requires total >= 0 && size >= 1 && Pages(total, size) >= 1
    ensures (Pages(total, size) - 1) * size < total
  {
  }

  lemma Enough(total: int, size: int)
    requires total >= 0 && size >= 1
    ensures Pages(total, size) >= 0 && Pages(total, size) * size >= total
  {
  }

  lemma Later(total: int, size: int, page: int)
    requires total >= 0 && size >= 1 && page > Pages(total, size)
    ensures page >= 1 && (page - 1) * size >= total
  {
    hide Pages;
    Enough(total, size);
    var extra := page - 1 - Pages(total, size);
    Bound(extra, size);
    assert (page - 1) * size == Pages(total, size) * size + extra * size;
  }

  lemma {:induction false} SizeOf(list: seq<Entry>, rows: set<Entry>)
    requires Listing(list, rows)
    ensures |list| == |rows|
  {
    EmptyListing(list, rows);
    if list != [] {
      assert list[0] in rows;
      Rest(list, rows);
      SizeOf(list[1..], rows - {list[0]});
    }
  }
}
