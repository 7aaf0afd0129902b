/** How the repositories cut a matched list into pages, and how many pages the
    response metadata announces. */
module Pagination {
  import opened Entities

  function PageOf<T>(matched: seq<T>, page: int, perPage: int): seq<T> {
    var p := if page <= 0 then 1 else page;
    var size := if perPage <= 0 then 20 else perPage;
    var start := (p - 1) * size;
    if start >= |matched| then []
    else
      StartNotNegative(p, size);
      matched[start..Min(start + size, |matched|)]
  }

  lemma StartNotNegative(p: int, size: int)
    requires p >= 1 && size >= 1
    ensures (p - 1) * size >= 0
  {
  }

  /** The cut every FindAll ends with. */
  method Paginate<T>(matched: seq<T>, page: int, perPage: int) returns (r: seq<T>)
    ensures r == PageOf(matched, page, perPage)
  {
    var p, size := page, perPage;
    if p <= 0 {
      p := 1;
    }
    if size <= 0 {
      size := 20;
    }
    var start := (p - 1) * size;
    if start >= |matched| {
      return [];
    }
    StartNotNegative(p, size);
    var end := start + size;
    if end > |matched| {
      end := |matched|;
    }
    r := matched[start..end];
  }

  /** A page is a stretch of the list: the elements from its start on, as many as a page
      has, or as there are. Page 1 stands in for a page below it, and a size of 20
      for one that is not positive. */
  lemma PageIsStretch<T>(matched: seq<T>, page: int, perPage: int)
    ensures page <= 0 ==> PageOf(matched, page, perPage) == PageOf(matched, 1, perPage)
    ensures perPage <= 0 ==> PageOf(matched, page, perPage) == PageOf(matched, page, 20)
    ensures page >= 1 && perPage >= 1 ==>
      var r, start := PageOf(matched, page, perPage), (page - 1) * perPage;
      && start >= 0 && (start >= |matched| ==> r == [])
      && (start < |matched| ==> |r| == (if |matched| - start < perPage then |matched| - start else perPage))
      && forall i :: 0 <= i < |r| ==> start + i < |matched| && r[i] == matched[start + i]
  {
    if page >= 1 && perPage >= 1 {
      StartNotNegative(page, perPage);
    }
  }

  /** The page count of NewMeta. */
  function Pages(total: nat, perPage: int): int {
    if perPage > 0 then (total + perPage - 1) / perPage else 0
  }

  /** Pages 1 to n, one after the other. */
  function AllPages<T>(matched: seq<T>, perPage: int, n: nat): seq<T> {
    if n == 0 then [] else AllPages(matched, perPage, n - 1) + PageOf(matched, n, perPage)
  }

  lemma {:induction false} PagesArePrefix<T>(matched: seq<T>, perPage: int, n: nat)
    requires perPage > 0
    ensures 0 <= n * perPage
    ensures AllPages(matched, perPage, n) == matched[..Min(n * perPage, |matched|)]
  {
    if n > 0 {
      PagesArePrefix(matched, perPage, n - 1);
      assert n * perPage == (n - 1) * perPage + perPage;
    }
  }

  lemma PagesBounds(total: nat, perPage: int)
    requires perPage > 0
    ensures 0 <= Pages(total, perPage)
    ensures Pages(total, perPage) * perPage >= total > (Pages(total, perPage) - 1) * perPage || total == 0 == Pages(total, perPage)
  {
    var pages := Pages(total, perPage);
    var rest := (total + perPage - 1) % perPage;
    assert total + perPage - 1 == pages * perPage + rest;
    assert (pages - 1) * perPage == pages * perPage - perPage;
    if total == 0 {
      assert pages == 0;
    }
  }

  /** No announced page is empty. */
  lemma PagesNotEmpty<T>(matched: seq<T>, perPage: int, n: int)
    requires perPage > 0 && 1 <= n <= Pages(|matched|, perPage)
    ensures PageOf(matched, n, perPage) != []
  {
    PagesBounds(|matched|, perPage);
    EarlierStart(n, Pages(|matched|, perPage), perPage);
    StartNotNegative(n, perPage);
  }

  lemma EarlierStart(n: int, pages: int, perPage: int)
    requires 1 <= n <= pages && perPage > 0
    ensures (n - 1) * perPage <= (pages - 1) * perPage
  {
  }

  /** The announced pages tile the matched list exactly, unless the page size is
      not positive: then none is announced, although the repositories would serve
      pages of 20. */
  lemma PagesTile<T>(matched: seq<T>, perPage: int)
    ensures 0 <= Pages(|matched|, perPage)
    ensures AllPages(matched, perPage, Pages(|matched|, perPage)) == matched <==> perPage > 0 || matched == []
  {
    if perPage > 0 {
      PagesBounds(|matched|, perPage);
      PagesArePrefix(matched, perPage, Pages(|matched|, perPage));
    }
  }
}
