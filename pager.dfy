/**
 * The paging cursor used by the scenario browsers: a window [start, end) over a list of
 * total elements, moved forward and back one page at a time.
 */
module Paging {
  import opened Common

  /** The four fields of a pager, as a value. */
  datatype PagerState = PagerState(total: nat, pageSize: nat, start: nat, end: nat)

  function Min(a: nat, b: nat): nat { if a <= b then a else b }

  predicate IsFirstPage(p: PagerState) { p.start == 0 }

  predicate IsLastPage(p: PagerState) { p.end == p.total }

  /** Every field is a size_t. */
  predicate Fits(p: PagerState)
  {
    p.total < SizeModulus && p.pageSize < SizeModulus && p.start < SizeModulus && p.end < SizeModulus
  }

  /**
   * The shape a pager has once it has been opened on a non-empty list: pages start at
   * multiples of the page size and each page is full except possibly the last. The sum of
   * the total and the page size must fit in a size_t, or the end of a page would wrap.
   */
  predicate Paged(p: PagerState)
  {
    Fits(p) && p.total + p.pageSize < SizeModulus && p.pageSize > 0 && p.start % p.pageSize == 0 && p.start < p.total
    && p.end == Min(p.start + p.pageSize, p.total)
  }

  /** pager_init: the start field keeps whatever value it held. */
  function InitState(previous: PagerState, total: nat, pageSize: nat): (p: PagerState)
    ensures p.total == total && p.pageSize == pageSize && p.end == 0
    ensures p.start == previous.start
  {
    PagerState(total, pageSize, previous.start, 0)
  }

  /** pager_next_page: whether the cursor moved, and the new state. */
  function Next(p: PagerState): (r: (bool, PagerState))
    requires Fits(p)
    ensures IsLastPage(p) <==> !r.0
    ensures !r.0 ==> r.1 == p
    ensures r.1.total == p.total && r.1.pageSize == p.pageSize && Fits(r.1)
    ensures r.0 && p.end + p.pageSize < SizeModulus ==> r.1.end == Min(p.end + p.pageSize, p.total)
  {
    if IsLastPage(p) then (false, p)
    else (true, p.(start := p.end, end := Min((p.end + p.pageSize) % SizeModulus, p.total)))
  }

  /** pager_prev_page: whether the cursor moved, and the new state. */
  function Prev(p: PagerState): (r: (bool, PagerState))
    requires Fits(p)
    ensures IsFirstPage(p) <==> !r.0
    ensures !r.0 ==> r.1 == p
    ensures r.1.total == p.total && r.1.pageSize == p.pageSize && Fits(r.1)
    ensures r.0 && p.pageSize <= p.start ==> r.1.start == p.start - p.pageSize
  {
    if IsFirstPage(p) then (false, p)
    else (true, p.(end := p.start, start := (p.start - p.pageSize) % SizeModulus))
  }

  /** Opening a pager on a non-empty list and turning to the first page shows elements 0 up to the page size. */
  lemma InitThenNext(previous: PagerState, total: nat, pageSize: nat)
    requires Fits(previous) && 0 < total && 0 < pageSize && total + pageSize < SizeModulus
    ensures var r := Next(InitState(previous, total, pageSize));
      r.0 && r.1 == PagerState(total, pageSize, 0, Min(pageSize, total)) && Paged(r.1)
  {
  }

  /** Next keeps the page shape and the window bounds. */
  lemma NextKeepsPaged(p: PagerState)
    requires Paged(p)
    ensures Paged(Next(p).1)
    ensures Next(p).1.start <= Next(p).1.end <= p.total
    ensures Next(p).1.end - Next(p).1.start <= p.pageSize
  {
    if !IsLastPage(p) {
      var q := Next(p).1;
      assert q.start == p.start + p.pageSize;
      assert q.start % p.pageSize == 0 by {
        ModuloStep(p.start, p.pageSize);
      }
    }
  }

  /** Prev keeps the page shape and the window bounds. */
  lemma PrevKeepsPaged(p: PagerState)
    requires Paged(p)
    ensures Paged(Prev(p).1)
    ensures Prev(p).1.start <= Prev(p).1.end <= p.total
    ensures Prev(p).1.end - Prev(p).1.start <= p.pageSize
  {
    if !IsFirstPage(p) {
      var q := Prev(p).1;
      assert p.start >= p.pageSize by {
        MultipleAtLeast(p.start, p.pageSize);
      }
      assert q.start % p.pageSize == 0 by {
        ModuloStep(q.start, p.pageSize);
      }
    }
  }

  lemma ModuloStep(a: nat, m: nat)
    requires m > 0
    ensures (a + m) % m == a % m
  {
    var q, r := a / m, a % m;
    assert a + m == (q + 1) * m + r;
    DivisionUnique(a + m, m, q + 1, r);
  }

  lemma DivisionUnique(n: int, m: int, q: int, r: int)
    requires m > 0 && 0 <= r < m && n == q * m + r
    ensures n % m == r
  {
    var q', r' := n / m, n % m;
    assert n == q' * m + r';
    var d := q - q';
    assert d * m == r' - r by {
      assert q * m - q' * m == (q - q') * m;
    }
    if d >= 1 {
      ProductAtLeast(d, m);
    } else if d <= -1 {
      ProductAtLeast(-d, m);
    }
  }

  lemma ProductAtLeast(d: int, m: int)
    requires d >= 1 && m > 0
    ensures d * m >= m
  {
    assert d * m == (d - 1) * m + m;
  }

  lemma MultipleAtLeast(a: nat, m: nat)
    requires m > 0 && a % m == 0 && a != 0
    ensures a >= m
  {
    var q := a / m;
    assert a == q * m;
    assert q >= 1;
  }

  /** Going forward and then back returns to the same page. */
  lemma PrevUndoesNext(p: PagerState)
    requires Paged(p) && Next(p).0
    ensures Prev(Next(p).1) == (true, p)
  {
  }

  /** Going back and then forward returns to the same page. */
  lemma NextUndoesPrev(p: PagerState)
    requires Paged(p) && Prev(p).0
    ensures Next(Prev(p).1) == (true, p)
  {
    assert p.start >= p.pageSize by {
      MultipleAtLeast(p.start, p.pageSize);
    }
  }

  /** On a paged cursor the last page is the one that reaches the total, the first the one before the page size. */
  lemma PageBoundaries(p: PagerState)
    requires Paged(p)
    ensures IsLastPage(p) <==> p.start + p.pageSize >= p.total
    ensures IsFirstPage(p) <==> p.start < p.pageSize
  {
    if p.start != 0 {
      MultipleAtLeast(p.start, p.pageSize);
    }
  }

  /** pager_t, updated in place. */
  class Pager {
    var total: nat
    var pageSize: nat
    var start: nat
    var end: nat

    function State(): (p: PagerState)
      reads this
      ensures p.total == total && p.pageSize == pageSize && p.start == start && p.end == end
    {
      PagerState(total, pageSize, start, end)
    }

    /** A pager in zero-initialised storage. */
    constructor ()
      ensures State() == PagerState(0, 0, 0, 0)
    {
      total, pageSize, start, end := 0, 0, 0, 0;
    }

    method Init(total: nat, pageSize: nat)
      requires total < SizeModulus && pageSize < SizeModulus
      modifies this
      ensures State() == InitState(old(State()), total, pageSize)
    {
      this.total := total;
      this.pageSize := pageSize;
      end := 0;
    }

    method NextPage() returns (moved: bool)
      requires Fits(State())
      modifies this
      ensures (moved, State()) == Next(old(State()))
    {
      if end == total {
        return false;
      }
      start := end;
      end := (end + pageSize) % SizeModulus;
      if end > total {
        end := total;
      }
      return true;
    }

    method PrevPage() returns (moved: bool)
      requires Fits(State())
      modifies this
      ensures (moved, State()) == Prev(old(State()))
    {
      if start == 0 {
        return false;
      }
      end := start;
      start := (start - pageSize) % SizeModulus;
      return true;
    }
  }
}
