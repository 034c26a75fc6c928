/**
 * Client-side pagination shared by the task, note, user and industry
 * tables: ten rows per page, `Array.prototype.slice` for the visible page,
 * `Math.ceil` for the page count, a guarded "go to page" and the
 * five-button page window of the collected-task table.
 */
module Paging {
  import opened Seqs
  import Arith

  const PAGE_SIZE: nat := 10

  /** How `slice` reads an index: negative counts from the end, and both ends are clamped to the list. */
  function ClampIndex(x: int, len: nat): (r: nat)
    ensures r <= len
    ensures 0 <= x <= len ==> r == x
    ensures x > len ==> r == len
  {
    if x < 0 then (if len + x < 0 then 0 else len + x) else if x > len then len else x
  }

  /** `s.slice(start, end)` with JavaScript's index rules. */
  function JsSlice<T>(s: seq<T>, start: int, end: int): (r: seq<T>)
    ensures 0 <= start <= end <= |s| ==> r == s[start..end]
    ensures |r| <= |s|
    ensures start >= 0 ==> forall k :: 0 <= k < |r| ==> start + k < |s| && r[k] == s[start + k]
    ensures 0 <= start <= end ==> |r| <= end - start
    ensures 0 <= start <= |s| && |s| <= end ==> r == s[start..]
    ensures start >= |s| ==> r == []
  {
    var i := ClampIndex(start, |s|);
    var j := ClampIndex(end, |s|);
    if i < j then s[i..j] else []
  }

  /** `Math.ceil(n / 10)`: the number of pages `n` rows fill. */
  function TotalPages(n: nat): (r: nat)
    ensures r * PAGE_SIZE >= n
    ensures r > 0 ==> (r - 1) * PAGE_SIZE < n
  {
    Arith.CeilDiv(n, PAGE_SIZE)
  }

  /**
   * The rows shown on page `page` (counted from 1): `slice((page - 1) * 10, page * 10)`.
   * Row `i` of the page is row `(page - 1)·10 + i` of the list, a page holds
   * at most ten rows, and it is full whenever the list reaches its end.
   */
  function PageSlice<T>(s: seq<T>, page: int): (r: seq<T>)
    ensures page >= 1 ==> |r| <= PAGE_SIZE
    ensures page >= 1 ==> forall i :: 0 <= i < |r| ==> (page - 1) * PAGE_SIZE + i < |s| && r[i] == s[(page - 1) * PAGE_SIZE + i]
    ensures page >= 1 && page * PAGE_SIZE <= |s| ==> |r| == PAGE_SIZE
    ensures page >= 1 && (page - 1) * PAGE_SIZE < |s| < page * PAGE_SIZE ==>
      |r| == |s| - (page - 1) * PAGE_SIZE
    ensures page >= 1 && (page - 1) * PAGE_SIZE >= |s| ==> r == []
  {
    JsSlice(s, (page - 1) * PAGE_SIZE, page * PAGE_SIZE)
  }

  /** Page `p` is the `p`-th chunk of ten rows. */
  lemma PageIsChunk<T>(s: seq<T>, page: int)
    requires 1 <= page <= TotalPages(|s|)
    ensures TotalPages(|s|) == |Chunks(s, PAGE_SIZE)|
    ensures PageSlice(s, page) == Chunks(s, PAGE_SIZE)[page - 1]
  {
    ChunkCount(s, PAGE_SIZE);
    ChunkIsSlice(s, PAGE_SIZE, page - 1, (page - 1) * PAGE_SIZE);
  }

  /** Reading pages 1 to the last one in order shows every row exactly once, in list order. */
  lemma {:induction false} PagesCoverList<T>(s: seq<T>)
    ensures Flatten(seq(TotalPages(|s|), i requires 0 <= i < TotalPages(|s|) => PageSlice(s, i + 1))) == s
  {
    var pages := seq(TotalPages(|s|), i requires 0 <= i < TotalPages(|s|) => PageSlice(s, i + 1));
    ChunkCount(s, PAGE_SIZE);
    forall i | 0 <= i < |pages| ensures pages[i] == Chunks(s, PAGE_SIZE)[i] {
      PageIsChunk(s, i + 1);
    }
    assert pages == Chunks(s, PAGE_SIZE);
  }

  /**
   * `goToPage`: moves to `target` only when it is a real page; anything
   * else leaves the current page.
   */
  function GoToPage(current: int, target: int, totalPages: nat): (r: int)
    ensures 1 <= target <= totalPages ==> r == target
    ensures !(1 <= target <= totalPages) ==> r == current
  {
    if target >= 1 && target <= totalPages then target else current
  }

  /** Every page reachable through `goToPage` from page 1 is at least 1 and never past the last page unless the list shrank. */
  lemma GoToPageKeepsRange(current: int, target: int, totalPages: nat)
    requires 1 <= current
    ensures 1 <= GoToPage(current, target, totalPages)
    ensures current <= totalPages ==> GoToPage(current, target, totalPages) <= totalPages
  {
  }

  function Min(a: int, b: int): int { if a <= b then a else b }

  /** The page number on button `i` of the window, before out-of-range buttons are dropped. */
  function WindowButton(totalPages: nat, current: int, i: nat): int
  {
    if totalPages <= 5 then i + 1
    else if current <= 3 then i + 1
    else if current >= totalPages - 2 then totalPages - 4 + i
    else current - 2 + i
  }

  function RawWindow(total: nat, current: int): seq<int>
  {
    seq(Min(5, total), i requires 0 <= i < Min(5, total) => WindowButton(total, current, i))
  }

  lemma RawWindowFacts(total: nat, current: int)
    ensures forall i :: 0 <= i < |RawWindow(total, current)| ==> 0 < RawWindow(total, current)[i] <= total
    ensures 1 <= current <= total ==> current in RawWindow(total, current)
    ensures |RawWindow(total, current)| == Min(5, total)
    ensures forall i :: 0 <= i < |RawWindow(total, current)| - 1 ==>
      RawWindow(total, current)[i + 1] == RawWindow(total, current)[i] + 1
  {
    var raw := RawWindow(total, current);
    if 1 <= current <= total {
      var i := if total <= 5 || current <= 3 then current - 1
        else if current >= total - 2 then current - total + 4
        else 2;
      assert raw[i] == current;
    }
  }

  /**
   * The numbered buttons under the collected-task table for `n` tasks with
   * `current` selected: `min(5, pages)` buttons counted from a start that
   * keeps `current` centred where possible, then only pages in `[1, pages]`.
   * The result is a run of consecutive real pages of that full length that
   * starts at 1, at `pages - 4` near the end, or two before `current`, and
   * it shows the current page whenever that page exists.
   */
  function PageWindow(n: nat, current: int): (r: seq<int>)
    ensures |r| == Min(5, TotalPages(n))
    ensures forall i :: 0 <= i < |r| ==> 1 <= r[i] <= TotalPages(n)
    ensures forall i :: 0 <= i < |r| - 1 ==> r[i + 1] == r[i] + 1
    ensures 1 <= current <= TotalPages(n) ==> current in r
    ensures |r| > 0 ==> r[0] == (if TotalPages(n) <= 5 || current <= 3 then 1
      else if current >= TotalPages(n) - 2 then TotalPages(n) - 4
      else current - 2)
  {
    var total := TotalPages(n);
    var raw := RawWindow(total, current);
    var inRange := (p: int) => 0 < p <= total;
    RawWindowFacts(total, current);
    FilterAll(inRange, raw);
    Filter(inRange, raw)
  }

  /** The pagination bar of the collected-task table appears only when there is more than one page of tasks. */
  predicate ShowPager(n: nat)
  {
    n > PAGE_SIZE
  }

  lemma ShowPagerIffSeveralPages(n: nat)
    ensures ShowPager(n) <==> TotalPages(n) > 1
  {
  }

  /** The list a table shows after searching, its current page and its page count. */
  datatype ListView<T> = ListView(filtered: seq<T>, page: int, totalPages: nat)

  /**
   * The search effect of the user and industry tables: with nothing loaded
   * the view stays as it is; otherwise it shows exactly the matching rows,
   * in list order, from page 1, with enough pages for them and no more.
   */
  function SearchView<T>(all: seq<T>, matches: T -> bool, view: ListView<T>): (r: ListView<T>)
    ensures all == [] ==> r == view
    ensures all != [] ==> r.page == 1 && IsSubseq(r.filtered, all)
    ensures all != [] ==> forall x :: x in r.filtered ==> matches(x)
    ensures all != [] ==> forall i :: 0 <= i < |all| && matches(all[i]) ==> all[i] in r.filtered
    ensures all != [] ==> r.totalPages * PAGE_SIZE >= |r.filtered| && (r.totalPages == 0 <==> r.filtered == [])
    ensures all != [] ==> r.totalPages > 0 ==> (r.totalPages - 1) * PAGE_SIZE < |r.filtered|
    ensures all != [] ==> forall i :: 0 <= i < |all| ==> multiset(r.filtered)[all[i]] == if matches(all[i]) then multiset(all)[all[i]] else 0
  {
    if all == [] then view
    else
      FilterMultiset(matches, all);
      var found := Filter(matches, all);
      ListView(found, 1, TotalPages(|found|))
  }

  /** A term every row matches shows the whole list, and the pages cover it. */
  lemma SearchAllShowsEverything<T>(all: seq<T>, matches: T -> bool, view: ListView<T>)
    requires all != [] && forall i :: 0 <= i < |all| ==> matches(all[i])
    ensures SearchView(all, matches, view).filtered == all
    ensures SearchView(all, matches, view).totalPages == TotalPages(|all|)
  {
    FilterAll(matches, all);
  }
}
