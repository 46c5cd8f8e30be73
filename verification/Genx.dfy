/** The generic slice helpers: `Map` and the pagination window, with Go's 64-bit arithmetic. */
module Genx {
  import opened Prelude

  // ----- Map -----

  /** The slice `Map` returns, element by element. */
  function Mapped<T, U>(s: seq<T>, f: T -> U): (out: seq<U>)
    ensures |out| == |s|
    ensures forall i | 0 <= i < |s| :: out[i] == f(s[i])
  {
    seq(|s|, i requires 0 <= i < |s| => f(s[i]))
  }

  /** `Map` fills a slice of the input's length in a loop. */
  method Map<T, U(0)>(s: seq<T>, f: T -> U) returns (out: array<U>)
    ensures fresh(out) && out[..] == Mapped(s, f)
  {
    out := new U[|s|];
    var i := 0;
    while i < |s|
      invariant 0 <= i <= |s| && out.Length == |s|
      invariant forall k | 0 <= k < i :: out[k] == f(s[k])
    {
      out[i] := f(s[i]);
      i := i + 1;
    }
  }

  // ----- Paginate -----

  datatype Page<T> = Page(items: seq<T>, page: int, size: int, total: int, totalPages: int, hasNext: bool)

  function ClampPage(page: int): (p: int)
    ensures p >= 1
  {
    if page < 1 then 1 else page
  }

  function ClampSize(size: int): (s: int)
    ensures s >= 1
  {
    if size < 1 then 20 else size
  }

  function Min(a: int, b: int): int {
    if a > b then b else a
  }

  /** Cuts the page out of the slice; None is a slice-bounds panic. */
  function Cut<T>(items: seq<T>, p: int, n: int, start: int, end: int, totalPages: int): Option<Page<T>>
    requires end <= |items|
  {
    if 0 <= start <= end then Some(Page(items[start..end], p, n, |items|, totalPages, p < totalPages)) else None
  }

  /** The window the formula means, on unbounded integers. */
  function Window<T>(items: seq<T>, page: int, size: int): Page<T> {
    StartIsNatural(ClampPage(page), ClampSize(size));
    WindowFrom(items, ClampPage(page), ClampSize(size), (ClampPage(page) - 1) * ClampSize(size))
  }

  function WindowFrom<T>(items: seq<T>, p: int, n: int, offset: int): Page<T>
    requires n >= 1 && 0 <= offset
  {
    var total := |items|;
    var start := Min(offset, total);
    var end := Min(start + n, total);
    Cut(items, p, n, start, end, (total + n - 1) / n).value
  }

  lemma StartIsNatural(p: int, n: int)
    requires p >= 1 && n >= 1
    ensures 0 <= (p - 1) * n
  {
  }

  /** Go's integer division truncates toward zero. */
  function Quotient(a: int, b: int): (q: int)
    requires b >= 1
    ensures a >= 0 ==> q * b <= a < q * b + b
    ensures a < 0 ==> q * b - b < a <= q * b
  {
    if a >= 0 then a / b else -((-a) / b)
  }

  /** `Paginate` as it runs: every operation wraps at 64 bits. */
  function Paginate<T>(items: seq<T>, page: int, size: int): Option<Page<T>> {
    PaginateFrom(items, ClampPage(page), ClampSize(size), (ClampPage(page) - 1) * ClampSize(size))
  }

  function PaginateFrom<T>(items: seq<T>, p: int, n: int, offset: int): Option<Page<T>>
    requires n >= 1
  {
    var total := |items|;
    var start := Min(Wrap64(offset), total);
    var end := Min(Wrap64(start + n), total);
    Cut(items, p, n, start, end, Quotient(Wrap64(Wrap64(total + n) - 1), n))
  }

  /** What a caller can check beforehand: the offset is exact or wraps past the end, and both sums fit. */
  predicate Fits(total: nat, page: int, size: int) {
    FitsFrom(total, ClampSize(size), (ClampPage(page) - 1) * ClampSize(size))
  }

  predicate FitsFrom(total: nat, n: int, offset: int) {
    && (offset <= MAX64 || Wrap64(offset) >= total)
    && Min(offset, total) + n <= MAX64
    && total + n - 1 <= MAX64
  }

  /** Where the window starts, as computed. */
  lemma StartIsExactIff(total: nat, offset: int)
    requires total <= MAX64 && 0 <= offset
    ensures var start' := Min(Wrap64(offset), total);
            && start' <= total
            && (start' == Min(offset, total) <==> offset <= MAX64 || Wrap64(offset) >= total)
  {
  }

  /** A sum of two registers that does not fit comes out negative. */
  lemma BigSumIsNegative(a: int, b: int)
    requires 0 <= a <= MAX64 && 0 <= b <= MAX64
    ensures a + b > MAX64 ==> Wrap64(a + b) < 0 && Wrap64(a + b) < a
  {
  }

  /** A wrong start or an overflowing end is either a panic or a window of another length. */
  lemma EndIsExactIff(total: nat, n: int, start: int, start': int)
    requires total <= MAX64 && 1 <= n <= MAX64 && 0 <= start <= total
    requires start' == start || (start == total && start' < total)
    ensures var end, end' := Min(start + n, total), Min(Wrap64(start' + n), total);
            && (start' != start ==> start' < 0 || end' < start' || end' - start' > end - start)
            && (start' == start && start + n > MAX64 ==> end' < start')
            && (start' == start && start + n <= MAX64 ==> end' == end)
  {
    BigSumIsNegative(start, n);
    if start' >= 0 {
      BigSumIsNegative(start', n);
    }
  }

  lemma NegativeQuotient(a: int, b: int)
    requires a < 0 && b >= 1
    ensures Quotient(a, b) <= 0
  {
    assert (-a) / b >= 0;
  }

  lemma TotalPagesExactIff(total: nat, n: int)
    requires total <= MAX64 && 1 <= n <= MAX64
    requires total > 0 ==> (total + n - 1) / n >= 1
    ensures Quotient(Wrap64(Wrap64(total + n) - 1), n) == (total + n - 1) / n <==> total + n - 1 <= MAX64
  {
    var sum := total + n;
    WrapsOnce(sum);
    WrapsOnce(sum - 1);
    var numerator := Wrap64(Wrap64(sum) - 1);
    assert numerator == Wrap64(sum - 1);
    if sum - 1 > MAX64 {
      NegativeQuotient(numerator, n);
    }
  }

  /** Two cuts agree exactly when start, end and page count do, given how a wrong bound shows. */
  lemma CutIsExactIff<T>(items: seq<T>, p: int, n: int, start: int, end: int, pages: int,
                         start': int, end': int, pages': int, endFits: bool)
    requires 0 <= start <= end <= |items| && end' <= |items|
    requires start' != start ==> start' < 0 || end' < start' || end' - start' != end - start
    requires start' == start ==> if endFits then end' == end else end' < start'
    ensures Cut(items, p, n, start', end', pages') == Cut(items, p, n, start, end, pages)
            <==> start' == start && endFits && pages' == pages
  {
    var x, y := Cut(items, p, n, start, end, pages), Cut(items, p, n, start', end', pages');
    if y.Some? {
      assert |y.value.items| == end' - start' && |x.value.items| == end - start;
    }
  }

  /** With the products and the wrapped values named, which is all the rest depends on. */
  lemma ExactFrom<T>(items: seq<T>, p: int, n: int, offset: int, start': int, end': int, pages': int)
    requires 1 <= n <= MAX64 && |items| <= MAX64 && 0 <= offset
    requires |items| > 0 ==> (|items| + n - 1) / n >= 1
    requires start' == Min(Wrap64(offset), |items|)
    requires end' == Min(Wrap64(start' + n), |items|)
    requires pages' == Quotient(Wrap64(Wrap64(|items| + n) - 1), n)
    ensures Cut(items, p, n, start', end', pages') == Some(WindowFrom(items, p, n, offset))
            <==> FitsFrom(|items|, n, offset)
  {
    var total, start := |items|, Min(offset, |items|);
    StartIsExactIff(total, offset);
    TotalPagesExactIff(total, n);
    EndIsExactIff(total, n, start, start');
    CutIsExactIff(items, p, n, start, Min(start + n, total), (total + n - 1) / n,
                  start', end', pages', start + n <= MAX64);
  }

  lemma AtLeastOnePage(total: int, n: int)
    requires total > 0 && n >= 1
    ensures (total + n - 1) / n >= 1
  {
    QuotientAtLeastOne(total + n - 1, n);
  }

  lemma PaginateFromIsExactIff<T>(items: seq<T>, p: int, n: int, offset: int)
    requires 1 <= n <= MAX64 && |items| <= MAX64 && 0 <= offset
    ensures PaginateFrom(items, p, n, offset) == Some(WindowFrom(items, p, n, offset))
            <==> FitsFrom(|items|, n, offset)
  {
    if |items| > 0 {
      AtLeastOnePage(|items|, n);
    }
    var start' := Min(Wrap64(offset), |items|);
    ExactFrom(items, p, n, offset, start', Min(Wrap64(start' + n), |items|),
              Quotient(Wrap64(Wrap64(|items| + n) - 1), n));
  }

  /** On 64-bit machines Paginate returns the intended page exactly when these sizes fit. */
  lemma PaginateIsExactIff<T>(items: seq<T>, page: int, size: int)
    requires |items| <= MAX64 && page <= MAX64 && size <= MAX64
    ensures Paginate(items, page, size) == Some(Window(items, page, size)) <==> Fits(|items|, page, size)
  {
    StartIsNatural(ClampPage(page), ClampSize(size));
    PaginateFromIsExactIff(items, ClampPage(page), ClampSize(size), (ClampPage(page) - 1) * ClampSize(size));
  }

  // ----- pages partition the slice -----

  lemma QuotientAtLeastOne(a: int, n: int)
    requires a >= n >= 1
    ensures a / n >= 1
  {
  }

  lemma CeilingOf(total: nat, n: nat)
    requires n >= 1
    ensures (total + n - 1) / n >= 0 && (total > 0 ==> (total + n - 1) / n >= 1)
    ensures ((total + n - 1) / n) * n >= total
    ensures total > 0 ==> ((total + n - 1) / n - 1) * n < total
    ensures total == 0 ==> (total + n - 1) / n == 0
  {
    var q, r := (total + n - 1) / n, (total + n - 1) % n;
    assert q * n + r == total + n - 1;
    assert (q - 1) * n == q * n - n;
    if total > 0 {
      QuotientAtLeastOne(total + n - 1, n);
    }
  }

  lemma ScaleIsMonotone(a: int, b: int, n: int)
    requires a <= b && n >= 0
    ensures a * n <= b * n
  {
  }

  function TotalPages(total: nat, size: int): nat {
    CeilingOf(total, ClampSize(size));
    (total + ClampSize(size) - 1) / ClampSize(size)
  }

  /** Page `page` holds the items from `offset` on, `n` at most. */
  lemma WindowItems<T>(items: seq<T>, page: int, size: int, offset: int)
    requires page >= 1 && offset == (page - 1) * ClampSize(size)
    ensures 0 <= offset
    ensures Window(items, page, size).items
         == items[Min(offset, |items|)..Min(offset + ClampSize(size), |items|)]
    ensures offset + ClampSize(size) == page * ClampSize(size)
  {
    StartIsNatural(page, ClampSize(size));
    assert (page - 1) * ClampSize(size) + ClampSize(size) == page * ClampSize(size);
  }

  /** Pages 1 to k, one after another. */
  function Concatenated<T>(items: seq<T>, size: int, k: nat): seq<T> {
    if k == 0 then [] else Concatenated(items, size, k - 1) + Window(items, k, size).items
  }

  lemma JoinSlices<T>(items: seq<T>, a: int, b: int)
    requires 0 <= a <= b
    ensures items[..Min(a, |items|)] + items[Min(a, |items|)..Min(b, |items|)] == items[..Min(b, |items|)]
  {
  }

  lemma {:induction false} FirstPages<T>(items: seq<T>, size: int, k: nat, taken: int)
    requires taken == k * ClampSize(size)
    ensures 0 <= taken && Concatenated(items, size, k) == items[..Min(taken, |items|)]
  {
    if k > 0 {
      var before := (k - 1) * ClampSize(size);
      FirstPages(items, size, k - 1, before);
      WindowItems(items, k, size, before);
      JoinSlices(items, before, taken);
    }
  }

  /** How many items page `page` holds. */
  lemma PageLength<T>(items: seq<T>, page: int, size: int)
    requires page >= 1
    ensures var len, pages := |Window(items, page, size).items|, TotalPages(|items|, size);
            && (page < pages ==> len == ClampSize(size))
            && (page == pages ==> 1 <= len <= ClampSize(size))
            && (page > pages ==> len == 0)
  {
    var n, pages, offset := ClampSize(size), TotalPages(|items|, size), (page - 1) * ClampSize(size);
    CeilingOf(|items|, n);
    WindowItems(items, page, size, offset);
    OffsetAgainst(|items|, page, n, pages, offset, (pages - 1) * n, pages * n);
  }

  /** Where a page's offset lies against the last page's, given the ceiling's two bounds. */
  lemma OffsetAgainst(total: nat, page: int, n: int, pages: int, offset: int, last: int, end: int)
    requires page >= 1 && n >= 1 && pages >= 0
    requires offset == (page - 1) * n && last == (pages - 1) * n && end == pages * n
    requires end >= total && (total > 0 ==> last < total) && (total == 0 ==> pages == 0)
    ensures page < pages ==> offset + n < total
    ensures page == pages ==> offset < total <= offset + n
    ensures page > pages ==> offset >= total
  {
    if page < pages {
      ScaleIsMonotone(page, pages - 1, n);
      assert offset + n == page * n;
    } else if page > pages {
      ScaleIsMonotone(pages, page - 1, n);
    } else {
      assert offset + n == end;
    }
  }

  lemma WindowLinks<T>(items: seq<T>, page: int, size: int)
    ensures Window(items, page, size).hasNext <==> ClampPage(page) < TotalPages(|items|, size)
  {
  }

  /**
   The page a caller asked for, in the size asked for: its items, its number, its size, the total, the
   pages of that size it takes to hold the total, and whether items follow.
   */
  lemma WindowMeans<T>(items: seq<T>, page: int, size: int)
    requires page >= 1 && size >= 1
    ensures 0 <= (page - 1) * size <= page * size
    ensures var w, total := Window(items, page, size), |items|;
            && w.items == items[Min((page - 1) * size, total)..Min(page * size, total)]
            && w.page == page && w.size == size && w.total == total
            && (w.totalPages - 1) * size < total <= w.totalPages * size
            && (w.hasNext <==> page * size < total)
  {
    var n, pages, total := ClampSize(size), TotalPages(|items|, size), |items|;
    WindowItems(items, page, size, (page - 1) * size);
    WindowLinks(items, page, size);
    CeilingOf(total, n);
    if total == 0 {
      StartIsNatural(page + 1, size);
    }
    OffsetAgainst(total, page, n, pages, (page - 1) * n, (pages - 1) * n, pages * n);
  }

  /** Out-of-range arguments are read as page 1 and as a page size of 20, on either machine. */
  lemma DefaultsMean<T>(items: seq<T>, page: int, size: int)
    ensures size < 1 ==> Window(items, page, size) == Window(items, page, 20)
    ensures page < 1 ==> Window(items, page, size) == Window(items, 1, size)
    ensures size < 1 ==> Paginate(items, page, size) == Paginate(items, page, 20)
    ensures page < 1 ==> Paginate(items, page, size) == Paginate(items, 1, size)
  {
  }

  /** A page has a successor exactly when the next page has items, whatever page was asked for. */
  lemma HasNextIffMoreItems<T>(items: seq<T>, page: int, size: int)
    ensures Window(items, page, size).hasNext <==> Window(items, ClampPage(page) + 1, size).items != []
  {
    WindowLinks(items, page, size);
    PageLength(items, ClampPage(page) + 1, size);
  }

  /** Pages 1 to TotalPages give back the slice; all but the last are full, the last is not empty, later ones are. */
  lemma PagesPartition<T>(items: seq<T>, size: int)
    ensures size >= 1 ==> forall page | 1 <= page < TotalPages(|items|, size) ::
              |Window(items, page, size).items| == size
    ensures size < 1 ==> forall page | 1 <= page < TotalPages(|items|, size) ::
              |Window(items, page, size).items| == 20
    ensures Concatenated(items, size, TotalPages(|items|, size)) == items
    ensures items != [] ==> Window(items, TotalPages(|items|, size), size).items != []
    ensures forall page | 1 <= page && page > TotalPages(|items|, size) :: Window(items, page, size).items == []
  {
    var n, pages := ClampSize(size), TotalPages(|items|, size);
    CeilingOf(|items|, n);
    FirstPages(items, size, pages, pages * n);
    forall page | 1 <= page
      ensures page < pages ==> |Window(items, page, size).items| == n
      ensures page == pages ==> Window(items, page, size).items != []
      ensures page > pages ==> Window(items, page, size).items == []
    {
      PageLength(items, page, size);
    }
  }

  // ----- and so do the pages a 64-bit machine computes -----

  lemma AtLeastItself(a: int, n: int)
    requires a >= 0 && n >= 1
    ensures a <= a * n
  {
    assert a * n == a * (n - 1) + a;
    StartIsNatural(a + 1, n);
  }

  /** A page that holds items starts before the end of the slice, and there is at least one item for each. */
  lemma PageStartsInside(total: nat, page: int, size: int)
    requires 1 <= page <= TotalPages(total, size)
    ensures 0 <= (page - 1) * ClampSize(size) < total && page <= total
  {
    var n, pages := ClampSize(size), TotalPages(total, size);
    CeilingOf(total, n);
    ScaleIsMonotone(page - 1, pages - 1, n);
    AtLeastItself(page - 1, n);
  }

  lemma PageIsExact<T>(items: seq<T>, page: int, size: int)
    requires |items| <= MAX64 && size <= MAX64 && |items| + ClampSize(size) - 1 <= MAX64
    requires 1 <= page <= TotalPages(|items|, size)
    ensures Paginate(items, page, size) == Some(Window(items, page, size))
  {
    PageStartsInside(|items|, page, size);
    PaginateIsExactIff(items, page, size);
  }

  lemma FirstPageTooBig<T>(items: seq<T>, size: int)
    requires |items| <= MAX64 && size <= MAX64 && |items| + ClampSize(size) - 1 > MAX64
    ensures TotalPages(|items|, size) >= 1 && Paginate(items, 1, size) != Some(Window(items, 1, size))
  {
    AtLeastOnePage(|items|, ClampSize(size));
    PaginateIsExactIff(items, 1, size);
  }

  /** On 64-bit integers, when the page's end and the rounding sum fit, the caller gets what was asked for. */
  lemma PaginateMeans<T>(items: seq<T>, page: int, size: int)
    requires page >= 1 && size >= 1 && page * size <= MAX64 && |items| + size - 1 <= MAX64
    ensures 0 <= (page - 1) * size <= page * size
    ensures var got, total := Paginate(items, page, size), |items|;
            && got.Some?
            && got.value.items == items[Min((page - 1) * size, total)..Min(page * size, total)]
            && got.value.page == page && got.value.size == size && got.value.total == total
            && (got.value.totalPages - 1) * size < total <= got.value.totalPages * size
            && (got.value.hasNext <==> page * size < total)
  {
    WindowMeans(items, page, size);
    AtLeastItself(page, size);
    assert page * size == (page - 1) * size + size;
    PaginateIsExactIff(items, page, size);
  }

  /** A page whose offset wraps below zero is out of the slice's range: Paginate panics. */
  lemma WrappedOffsetPanics<T>(items: seq<T>, page: int, size: int)
    requires page >= 1 && size >= 1 && Wrap64((page - 1) * size) < 0
    ensures Paginate(items, page, size) == None
  {
  }

  /** Go's pages 1 to k, one after another; None when one of them panics. */
  function Collected<T>(items: seq<T>, size: int, k: nat): Option<seq<T>> {
    if k == 0 then Some([])
    else match (Collected(items, size, k - 1), Paginate(items, k, size))
         case (Some(before), Some(page)) => Some(before + page.items)
         case _ => None
  }

  lemma {:induction false} CollectedPages<T>(items: seq<T>, size: int, k: nat)
    requires forall page | 1 <= page <= k :: Paginate(items, page, size) == Some(Window(items, page, size))
    ensures Collected(items, size, k) == Some(Concatenated(items, size, k))
  {
    if k > 0 {
      CollectedPages(items, size, k - 1);
      assert Paginate(items, k, size) == Some(Window(items, k, size));
    }
  }

  /**
   In 64-bit arithmetic every page of a slice is the intended one exactly when the rounding sum fits, and
   then the pages up to the reported page count give back the slice.
   */
  lemma PagesPartitionOn64Bits<T>(items: seq<T>, size: int)
    requires |items| <= MAX64 && size <= MAX64
    ensures (forall page | 1 <= page <= TotalPages(|items|, size) ::
               Paginate(items, page, size) == Some(Window(items, page, size)))
            <==> |items| + ClampSize(size) - 1 <= MAX64
    ensures |items| + ClampSize(size) - 1 <= MAX64 ==>
              Collected(items, size, TotalPages(|items|, size)) == Some(items)
  {
    var pages := TotalPages(|items|, size);
    if |items| + ClampSize(size) - 1 <= MAX64 {
      forall page | 1 <= page <= pages
        ensures Paginate(items, page, size) == Some(Window(items, page, size))
      {
        PageIsExact(items, page, size);
      }
      CollectedPages(items, size, pages);
      PagesPartition(items, size);
    } else {
      FirstPageTooBig(items, size);
    }
  }
}
