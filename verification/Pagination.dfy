/**
 Draining a list that a server hands out in pages: by page number, trusting a reported total if there is
 one, and by marker, giving up on a marker seen before.
 */
module Pagination {
  import opened Text
  import opened Wrappers

  // ---- By page number ----

  datatype Page<+T> = Page(items: seq<T>, totalCount: Option<nat>)

  datatype Failure<+E> = Provider(error: E) | PaginationLimit(observed: nat)

  /** Whether the items so far are the whole list, as far as the last page tells. */
  predicate Complete<T>(page: Page<T>, collected: nat, total: Option<nat>, pageSize: nat) {
    if total.Some? then collected >= total.value else |page.items| < pageSize
  }

  function Later(total: Option<nat>, reported: Option<nat>): Option<nat> {
    if reported.Some? then reported else total
  }

  /** What is returned from page `number` on, with `items` collected and `total` last reported. */
  function Drain<T, E>(
    page: nat -> Result<Page<T>, E>, pageSize: nat, maxPages: nat, number: nat, items: seq<T>, total: Option<nat>)
    : Result<seq<T>, Failure<E>>
    decreases maxPages + 1 - number
  {
    if number > maxPages then
      Err(PaginationLimit(|items|))
    else
      match page(number)
      case Err(e) => Err(Provider(e))
      case Ok(p) =>
        var collected, reported := items + p.items, Later(total, p.totalCount);
        if Complete(p, |collected|, reported, pageSize) then Ok(collected)
        else Drain(page, pageSize, maxPages, number + 1, collected, reported)
  }

  method Paginate<T, E>(page: nat -> Result<Page<T>, E>, pageSize: nat, maxPages: nat)
    returns (r: Result<seq<T>, Failure<E>>)
    ensures r == Drain(page, pageSize, maxPages, 1, [], None)
  {
    var items: seq<T> := [];
    var reportedTotal: Option<nat> := None;
    var pageNumber: nat := 1;
    while pageNumber <= maxPages
      invariant 1 <= pageNumber <= maxPages + 1
      invariant Drain(page, pageSize, maxPages, pageNumber, items, reportedTotal) ==
                Drain(page, pageSize, maxPages, 1, [], None)
    {
      var answer := page(pageNumber);
      if answer.Err? {
        return Err(Provider(answer.error));
      }
      items := items + answer.value.items;
      if answer.value.totalCount.Some? {
        reportedTotal := answer.value.totalCount;
      }
      var reachedReportedTotal := reportedTotal.Some? && |items| >= reportedTotal.value;
      var reachedShortPage := reportedTotal.None? && |answer.value.items| < pageSize;
      if reachedReportedTotal || reachedShortPage {
        return Ok(items);
      }
      pageNumber := pageNumber + 1;
    }
    r := Err(PaginationLimit(|items|));
  }

  function Min(a: nat, b: nat): nat {
    if a < b then a else b
  }

  /** How much of a list of length `n` the first `k` pages of `c` hold. */
  function Reached(n: nat, c: nat, k: nat): nat {
    Min(k * c, n)
  }

  /** A server slicing `list` by `c`, reporting its true length or nothing. */
  function Slices<T, E>(list: seq<T>, c: nat, totals: bool): nat -> Result<Page<T>, E> {
    (number: nat) =>
      if number == 0 then Ok(Page([], None))
      else Ok(Page(list[Reached(|list|, c, number - 1)..Reached(|list|, c, number)],
                   if totals then Some(|list|) else None))
  }

  lemma ReachedGrows(n: nat, c: nat, k: nat)
    ensures Reached(n, c, k) <= Reached(n, c, k + 1) <= n
    ensures Reached(n, c, k + 1) == Min(Reached(n, c, k) + c, n)
  {
    assert (k + 1) * c == k * c + c;
  }

  lemma MoreIsMore(c: nat, k: nat, m: nat)
    requires k <= m
    ensures k * c <= m * c
  {
    assert m * c == k * c + (m - k) * c;
  }

  lemma {:induction false} DrainWithTotals<T, E>(list: seq<T>, c: nat, pageSize: nat, maxPages: nat, number: nat)
    requires 1 <= number && c >= 1 && number <= maxPages
    requires number == 1 || Reached(|list|, c, number - 1) < |list|
    ensures var total := if number == 1 then None else Some(|list|);
            Drain(
              Slices<T, E>(list, c, true), pageSize, maxPages, number, list[..Reached(|list|, c, number - 1)], total) ==
            if |list| <= maxPages * c then Ok(list) else Err(PaginationLimit(maxPages * c))
    decreases maxPages - number
  {
    var before, after := Reached(|list|, c, number - 1), Reached(|list|, c, number);
    ReachedGrows(|list|, c, number - 1);
    assert list[..before] + list[before..after] == list[..after];
    MoreIsMore(c, number, maxPages);
    if after >= |list| {
      assert list[..after] == list;
    } else if number < maxPages {
      DrainWithTotals<T, E>(list, c, pageSize, maxPages, number + 1);
    }
  }

  /**
   With a true total, whatever size the server slices by, the drained list is the whole list when it fits
   in `maxPages` pages, and the limit error otherwise.
   */
  lemma TotalsDrainExactly<T, E>(list: seq<T>, c: nat, pageSize: nat, maxPages: nat)
    requires c >= 1 && maxPages >= 1
    ensures Drain(Slices<T, E>(list, c, true), pageSize, maxPages, 1, [], None) ==
            if |list| <= maxPages * c then Ok(list) else Err(PaginationLimit(maxPages * c))
  {
    assert Reached(|list|, c, 0) == 0 && list[..0] == [];
    DrainWithTotals<T, E>(list, c, pageSize, maxPages, 1);
  }

  lemma {:induction false} DrainWithoutTotals<T, E>(list: seq<T>, pageSize: nat, maxPages: nat, number: nat)
    requires 1 <= number <= maxPages && pageSize >= 1
    requires (number - 1) * pageSize <= |list|
    ensures Drain(
              Slices<T, E>(list, pageSize, false), pageSize, maxPages, number, list[..(number - 1) * pageSize], None) ==
            if |list| < maxPages * pageSize then Ok(list) else Err(PaginationLimit(maxPages * pageSize))
    decreases maxPages - number
  {
    var before, after := Reached(|list|, pageSize, number - 1), Reached(|list|, pageSize, number);
    ReachedGrows(|list|, pageSize, number - 1);
    assert list[..before] + list[before..after] == list[..after];
    MoreIsMore(pageSize, number, maxPages);
    assert number * pageSize == (number - 1) * pageSize + pageSize;
    if after - before < pageSize {
      assert list[..after] == list;
    } else if number < maxPages {
      DrainWithoutTotals<T, E>(list, pageSize, maxPages, number + 1);
    }
  }

  /** Without totals one more item is lost to the bound: a full last page does not prove the end. */
  lemma ShortPagesDrainExactly<T, E>(list: seq<T>, pageSize: nat, maxPages: nat)
    requires pageSize >= 1 && maxPages >= 1
    ensures Drain(Slices<T, E>(list, pageSize, false), pageSize, maxPages, 1, [], None) ==
            if |list| < maxPages * pageSize then Ok(list) else Err(PaginationLimit(maxPages * pageSize))
  {
    assert list[..0] == [];
    DrainWithoutTotals<T, E>(list, pageSize, maxPages, 1);
  }

  /** A server that caps pages below the size asked for, and reports no total, is cut off after its first page. */
  lemma CappedPagesTruncate<T, E>(list: seq<T>, c: nat, pageSize: nat, maxPages: nat)
    requires c < pageSize && maxPages >= 1
    ensures Drain(Slices<T, E>(list, c, false), pageSize, maxPages, 1, [], None) == Ok(list[..Min(c, |list|)])
  {
    assert Reached(|list|, c, 0) == 0 && Reached(|list|, c, 1) == Min(c, |list|);
    assert [] + list[0..Min(c, |list|)] == list[..Min(c, |list|)];
  }

  /** The pages from `number` on, up to before `k`, are read and none completes the list. */
  ghost predicate Unfinished<T, E>(
    page: nat -> Result<Page<T>, E>, pageSize: nat, number: nat, k: nat, items: seq<T>, total: Option<nat>)
    decreases k - number
  {
    number < k ==>
      && page(number).Ok?
      && var collected, reported := items + page(number).value.items, Later(total, page(number).value.totalCount);
         && !Complete(page(number).value, |collected|, reported, pageSize)
         && Unfinished(page, pageSize, number + 1, k, collected, reported)
  }

  /** The drain fails with a page's error exactly when that page is the first not read, and needed. */
  lemma {:induction false} FailsIff<T, E>(
    page: nat -> Result<Page<T>, E>, pageSize: nat, maxPages: nat, number: nat, items: seq<T>, total: Option<nat>, e: E)
    requires number <= maxPages + 1
    ensures Drain(page, pageSize, maxPages, number, items, total) == Err(Provider(e)) <==>
            exists k: nat | number <= k <= maxPages ::
              page(k) == Err(e) && Unfinished(page, pageSize, number, k, items, total)
    decreases maxPages + 1 - number
  {
    if number <= maxPages && page(number).Ok? {
      var collected, reported := items + page(number).value.items, Later(total, page(number).value.totalCount);
      if !Complete(page(number).value, |collected|, reported, pageSize) {
        FailsIff(page, pageSize, maxPages, number + 1, collected, reported, e);
        if k: nat :| number + 1 <= k <= maxPages && page(k) == Err(e)
                     && Unfinished(page, pageSize, number + 1, k, collected, reported) {
          assert Unfinished(page, pageSize, number, k, items, total);
        }
        if k: nat :| number <= k <= maxPages && page(k) == Err(e)
                     && Unfinished(page, pageSize, number, k, items, total) {
          assert Unfinished(page, pageSize, number + 1, k, collected, reported);
        }
      }
    } else if number <= maxPages {
      assert Unfinished(page, pageSize, number, number, items, total);
    }
  }

  // ---- By marker ----

  datatype MarkerPage<+T> = MarkerPage(items: seq<T>, next: Option<string>)

  /** A missing or empty next marker ends the list. */
  function NextOf<T>(p: MarkerPage<T>): Option<string> {
    if p.next == Some("") then None else p.next
  }

  const LIMIT := 200

  /** The marker of the `k`-th fetch of the chain, if the chain gets that far. */
  function MarkerAt<T, E>(fetch: Option<string> -> Result<MarkerPage<T>, E>, k: nat): Option<Option<string>> {
    if k == 0 then Some(None)
    else
      match MarkerAt(fetch, k - 1)
      case None => None
      case Some(m) => Following(fetch(m))
  }

  function Following<T, E>(answer: Result<MarkerPage<T>, E>): Option<Option<string>> {
    if answer.Ok? && NextOf(answer.value).Some? then Some(NextOf(answer.value)) else None
  }

  /** The chain's last page is its `k`-th. */
  predicate EndsAt<T, E>(fetch: Option<string> -> Result<MarkerPage<T>, E>, k: nat) {
    var m := MarkerAt(fetch, k);
    m.Some? && fetch(m.value).Ok? && NextOf(fetch(m.value).value).None?
  }

  /** The items of the first `k` pages, in order. */
  function ItemsBefore<T, E>(fetch: Option<string> -> Result<MarkerPage<T>, E>, k: nat): seq<T> {
    if k == 0 then []
    else
      var m := MarkerAt(fetch, k - 1);
      ItemsBefore(fetch, k - 1) + if m.Some? && fetch(m.value).Ok? then fetch(m.value).value.items else []
  }

  lemma {:induction false} ChainReaches<T, E>(fetch: Option<string> -> Result<MarkerPage<T>, E>, j: nat, k: nat)
    requires j <= k && MarkerAt(fetch, k).Some?
    ensures MarkerAt(fetch, j).Some?
    decreases k
  {
    if j < k {
      ChainReaches(fetch, j, k - 1);
    }
  }

  lemma {:induction false} SameMarkerSameRest<T, E>(
    fetch: Option<string> -> Result<MarkerPage<T>, E>, a: nat, b: nat, n: nat)
    requires MarkerAt(fetch, a) == MarkerAt(fetch, b)
    ensures MarkerAt(fetch, a + n) == MarkerAt(fetch, b + n)
  {
    if n > 0 {
      SameMarkerSameRest(fetch, a, b, n - 1);
    }
  }

  /** A chain that comes back to a marker never ends. */
  lemma CycleNeverEnds<T, E>(fetch: Option<string> -> Result<MarkerPage<T>, E>, a: nat, b: nat, k: nat)
    requires a < b && MarkerAt(fetch, a).Some? && MarkerAt(fetch, a) == MarkerAt(fetch, b)
    ensures !EndsAt(fetch, k)
  {
    if EndsAt(fetch, k) {
      assert MarkerAt(fetch, k + 1).None?;
      if k < b {
        ChainReaches(fetch, k + 1, b);
      } else {
        SameMarkerSameRest(fetch, a, b, k + 1 - b);
        ChainReaches(fetch, a + (k + 1 - b), k);
      }
    }
  }

  lemma EndsOnce<T, E>(fetch: Option<string> -> Result<MarkerPage<T>, E>, j: nat, k: nat)
    requires EndsAt(fetch, j) && EndsAt(fetch, k)
    ensures j == k
  {
    if j < k {
      ChainReaches(fetch, j + 1, k);
    } else if k < j {
      ChainReaches(fetch, k + 1, j);
    }
  }

  /** Within the limit the chain comes back to a marker. */
  ghost predicate Repeats<T, E>(fetch: Option<string> -> Result<MarkerPage<T>, E>) {
    exists j: nat, k: nat | j < k <= 200 :: MarkerAt(fetch, k).Some? && MarkerAt(fetch, j) == MarkerAt(fetch, k)
  }

  /** Some page within the limit has no next marker. */
  ghost predicate Terminates<T, E>(fetch: Option<string> -> Result<MarkerPage<T>, E>) {
    exists k: nat | k < 200 :: EndsAt(fetch, k)
  }

  /**
   Follows the markers. It succeeds exactly when the chain ends within the limit, and then returns the
   items of all its pages in order; a repeated marker stops it early because such a chain has no end.
   */
  method Pages<T, E>(fetch: Option<string> -> Result<MarkerPage<T>, E>) returns (r: Result<seq<T>, Failure<E>>)
    ensures r.Ok? <==> Terminates(fetch)
    ensures r.Ok? ==> forall k: nat | EndsAt(fetch, k) :: r.value == ItemsBefore(fetch, k + 1)
    ensures r.Err? && r.error.Provider? ==>
              exists k: nat | k < 200 ::
                MarkerAt(fetch, k).Some? && fetch(MarkerAt(fetch, k).value) == Err(r.error.error)
    ensures r.Err? && r.error.PaginationLimit? ==> MarkerAt(fetch, 200).Some? || Repeats(fetch)
  {
    var result: seq<T> := [];
    var marker: Option<string> := None;
    var visited: set<string> := {};
    var i := 0;
    while i < LIMIT
      invariant i <= LIMIT
      invariant MarkerAt(fetch, i) == Some(marker) && result == ItemsBefore(fetch, i)
      invariant forall j: nat | j < i :: !EndsAt(fetch, j)
      invariant forall v | v in visited :: exists j: nat | j <= i :: MarkerAt(fetch, j) == Some(Some(v))
    {
      var page := fetch(marker);
      if page.Err? {
        assert MarkerAt(fetch, i + 1).None?;
        NoEndBeyond(fetch, i);
        return Err(Provider(page.error));
      }
      result := result + page.value.items;
      var next := NextOf(page.value);
      if next.None? {
        assert EndsAt(fetch, i);
        forall k: nat | EndsAt(fetch, k)
          ensures k == i
        {
          EndsOnce(fetch, i, k);
        }
        return Ok(result);
      }
      assert MarkerAt(fetch, i + 1) == Some(next);
      if next.value in visited {
        var j: nat :| j <= i && MarkerAt(fetch, j) == Some(Some(next.value));
        forall k: nat
          ensures !EndsAt(fetch, k)
        {
          CycleNeverEnds(fetch, j, i + 1, k);
        }
        return Err(PaginationLimit(|result|));
      }
      visited := visited + {next.value};
      marker := next;
      i := i + 1;
    }
    r := Err(PaginationLimit(|result|));
  }

  /** A chain broken by an error at its `i`-th fetch has no end at all. */
  lemma NoEndBeyond<T, E>(fetch: Option<string> -> Result<MarkerPage<T>, E>, i: nat)
    requires MarkerAt(fetch, i).Some? && fetch(MarkerAt(fetch, i).value).Err?
    ensures forall k: nat :: !EndsAt(fetch, k)
  {
    forall k: nat
      ensures !EndsAt(fetch, k)
    {
      if EndsAt(fetch, k) && k < i {
        ChainReaches(fetch, k + 1, i);
      } else if EndsAt(fetch, k) && k > i {
        ChainReaches(fetch, i + 1, k);
      }
    }
  }

  // ---- A server handing out marked pages ----

  /** The marker of the `k`-th page of a server that numbers them; the first has none. */
  function MarkerOf(k: nat): Option<string> {
    if k == 0 then None else Some(Digits(k))
  }

  /** A server that hands out `pages`, each but the last with the marker of the next. */
  ghost predicate HandsOut<T, E>(fetch: Option<string> -> Result<MarkerPage<T>, E>, pages: seq<seq<T>>) {
    forall k: nat | k < |pages| :: HandsOutPage(fetch, pages, k)
  }

  predicate HandsOutPage<T(==), E(==)>(
    fetch: Option<string> -> Result<MarkerPage<T>, E>, pages: seq<seq<T>>, k: nat)
    requires k < |pages|
  {
    fetch(MarkerOf(k)) == Ok(MarkerPage(pages[k], if k + 1 < |pages| then MarkerOf(k + 1) else None))
  }

  function Concatenated<T>(pages: seq<seq<T>>): seq<T> {
    if pages == [] then [] else Concatenated(pages[..|pages| - 1]) + pages[|pages| - 1]
  }

  lemma PageIsFollowed<T, E>(fetch: Option<string> -> Result<MarkerPage<T>, E>, pages: seq<seq<T>>, k: nat)
    requires HandsOut(fetch, pages) && k < |pages|
    ensures var page := fetch(MarkerOf(k));
            && page.Ok? && page.value.items == pages[k]
            && NextOf(page.value) == if k + 1 < |pages| then MarkerOf(k + 1) else None
  {
    assert HandsOutPage(fetch, pages, k);
  }

  lemma TerminatesIff<T, E>(fetch: Option<string> -> Result<MarkerPage<T>, E>, last: nat)
    requires EndsAt(fetch, last)
    ensures Terminates(fetch) <==> last < 200
  {
    if k: nat :| k < 200 && EndsAt(fetch, k) {
      EndsOnce(fetch, k, last);
    }
  }

  lemma {:induction false} MarkedChain<T, E>(
    fetch: Option<string> -> Result<MarkerPage<T>, E>, pages: seq<seq<T>>, k: nat)
    requires HandsOut(fetch, pages) && k < |pages|
    ensures MarkerAt(fetch, k) == Some(MarkerOf(k))
    ensures ItemsBefore(fetch, k) == Concatenated(pages[..k])
    decreases k
  {
    if k > 0 {
      MarkedChain(fetch, pages, k - 1);
      PageIsFollowed(fetch, pages, k - 1);
      assert pages[..k][..k - 1] == pages[..k - 1] && pages[..k][k - 1] == pages[k - 1];
    }
  }

  /** Following the markers gives the whole list, in order, exactly when it has at most 200 pages. */
  lemma MarkedPagesDrainExactly<T, E>(fetch: Option<string> -> Result<MarkerPage<T>, E>, pages: seq<seq<T>>)
    requires HandsOut(fetch, pages) && pages != []
    ensures Terminates(fetch) <==> |pages| <= 200
    ensures EndsAt(fetch, |pages| - 1) && ItemsBefore(fetch, |pages|) == Concatenated(pages)
  {
    var last := |pages| - 1;
    MarkedChain(fetch, pages, last);
    PageIsFollowed(fetch, pages, last);
    TerminatesIff(fetch, last);
    assert pages[..|pages|] == pages;
  }
}
