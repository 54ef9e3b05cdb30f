/** Kaminari's `page(params[:page])` as the index actions use it: a fixed page size
    (Kaminari's `default_per_page`, passed in explicitly), 1-based pages, and the
    `page`/`total_pages` figures of the index envelope. */
module Paging {
  import opened Base

  /** `current_page` for the request's `page` parameter. Kaminari takes
      `to_i - 1` as the page index and clamps it at 0, so an absent, zero or
      negative page is page 1. */
  function CurrentPage(param: Option<int>): (p: nat)
    ensures p >= 1
    ensures param.Some? && param.value >= 1 ==> p == param.value
    ensures param.None? || param.value < 1 ==> p == 1
  {
    if param.Some? && param.value >= 1 then param.value else 1
  }

  /** `total_pages`: the count divided by the page size, rounded up. */
  function TotalPages(count: nat, per: nat): (n: nat)
    requires per > 0
    ensures n * per >= count
    ensures n > 0 ==> (n - 1) * per < count
    ensures n == 0 <==> count == 0
  {
    (count + per - 1) / per
  }

  /** The records of page `page`: positions `(page - 1) * per` up to, not
      including, `page * per`, cut at the end of the collection. */
  function PageItems<T>(items: seq<T>, page: nat, per: nat): (r: seq<T>)
    requires page >= 1 && per > 0
    ensures |r| <= per
    ensures (page - 1) * per >= |items| ==> r == []
    ensures page * per <= |items| ==> |r| == per
    ensures (page - 1) * per <= |items| <= page * per ==> |r| == |items| - (page - 1) * per
    ensures forall i :: 0 <= i < |r| ==> r[i] == items[(page - 1) * per + i]
  {
    var lo := (page - 1) * per;
    PageStart(page, per);
    if lo >= |items| then []
    else if lo + per <= |items| then items[lo..lo + per]
    else items[lo..]
  }

  /** Page `page` starts one page size after page `page - 1` does. */
  lemma PageStart(page: nat, per: nat)
    requires page >= 1
    ensures (page - 1) * per + per == page * per
  {
  }

  /** Pages 1 to `k` laid end to end. */
  function FirstPages<T>(items: seq<T>, k: nat, per: nat): seq<T>
    requires per > 0
  {
    if k == 0 then [] else FirstPages(items, k - 1, per) + PageItems(items, k, per)
  }

  /** The first `k` pages are the first `k * per` records (or all of them). */
  lemma {:induction false} FirstPagesArePrefix<T>(items: seq<T>, k: nat, per: nat)
    requires per > 0
    ensures k * per <= |items| ==> FirstPages(items, k, per) == items[..k * per]
    ensures k * per > |items| ==> FirstPages(items, k, per) == items
  {
    if k > 0 {
      FirstPagesArePrefix(items, k - 1, per);
      PageStart(k, per);
      var lo, hi := (k - 1) * per, k * per;
      var prev, page := FirstPages(items, k - 1, per), PageItems(items, k, per);
      assert FirstPages(items, k, per) == prev + page;
      if hi <= |items| {
        assert page == items[lo..hi];
        assert items[..lo] + items[lo..hi] == items[..hi];
      } else if lo <= |items| {
        assert page == items[lo..];
        assert items[..lo] + items[lo..] == items;
      }
    }
  }

  /** projects_controller.rb:6: the pages up to `total_pages` hold every record once,
      in order, and nothing follows them. */
  lemma PagesCoverCollection<T>(items: seq<T>, per: nat)
    requires per > 0
    ensures FirstPages(items, TotalPages(|items|, per), per) == items
    ensures PageItems(items, TotalPages(|items|, per) + 1, per) == []
  {
    var n := TotalPages(|items|, per);
    FirstPagesArePrefix(items, n, per);
    if n * per <= |items| {
      assert n * per == |items|;
    }
  }

  /** The record at position `i` is on page `i / per + 1`, at position `i % per`. */
  lemma RecordOnItsPage<T>(items: seq<T>, per: nat, i: nat)
    requires per > 0 && i < |items|
    ensures var page := i / per + 1;
            page <= TotalPages(|items|, per)
            && i % per < |PageItems(items, page, per)|
            && PageItems(items, page, per)[i % per] == items[i]
  {
    var page := i / per + 1;
    assert (page - 1) * per + i % per == i;
  }

  /** The request spec's example: nine records, five per page, page 2 holds the last
      four of two pages. */
  lemma SecondPageOfNine<T>(items: seq<T>)
    requires |items| == 9
    ensures TotalPages(|items|, 5) == 2
    ensures PageItems(items, CurrentPage(Some(2)), 5) == items[5..]
    ensures |PageItems(items, CurrentPage(None), 5)| == 5
  {
  }
}
