/** The pages that a request can ask for, and the walk along their links. */
module Pages {
  import opened Common
  import opened Arithmetic
  import opened Pagination

  datatype Page = Page(limit: int, page: int, itemCount: int) {

    function Offset(): int {
      if limit < 1 || page <= 1 then 0 else Wrap(limit * Wrap(page - 1))
    }

    /** `int(math.Ceil(float64(itemCount) / float64(limit)))`. */
    function TotalPages(): int
      requires Counted()
    {
      if itemCount == 0 then 0
      else
        CeilingIsExact(itemCount, limit);
        Ceil(Quotient(itemCount, limit))
    }

    function NextPage(): Option<int>
      requires Counted()
    {
      if page >= TotalPages() then None
      else if page < 1 then Some(DEFAULT_PAGE)
      else Some(Wrap(page + 1))
    }

    function PreviousPage(): Option<int>
      requires Counted()
    {
      if page <= 1 || TotalPages() < page then None else Some(page - 1)
    }

    /** Despite its name: whether the page asked for does not exist. */
    predicate HasPage()
      requires Counted()
    {
      if TotalPages() <= 0 then false else page <= 0 || page > TotalPages()
    }

    function Skip(): int {
      var skip := Offset();
      if skip > itemCount then itemCount else skip
    }

    function End(): int {
      var end := Skip() + limit;
      if end > itemCount then itemCount else end
    }

    /** The limit as the parser bounds it, the page a 64-bit integer, and an item count that
        a double represents exactly. */
    ghost predicate Counted() {
      MIN_LIMIT <= limit <= MAX_LIMIT && IsInt64(page) && 0 <= itemCount < TWO_53
    }
  }

  function NewPagination(page: string, limit: string, n: int): (p: Page)
    ensures 0 <= n < TWO_53 ==> p.Counted()
  {
    Page(LimitParser(limit), PageParser(page), n)
  }

  /** The number of pages is the item count divided by the limit, rounded up. */
  lemma TotalPagesIs(p: Page)
    requires p.Counted()
    ensures p.TotalPages() >= 0
    ensures p.limit * p.TotalPages() - p.limit < p.itemCount <= p.limit * p.TotalPages()
  {
    if p.itemCount > 0 {
      CeilingIsExact(p.itemCount, p.limit);
      CeilDivBounds(p.itemCount, p.limit);
    }
  }

  /** An existing page of a list that is not empty: no overflow, and a slice within the list
      that starts where it should and has at least one item. */
  lemma AcceptedPage(p: Page)
    requires p.Counted() && p.itemCount > 0 && !p.HasPage()
    ensures 1 <= p.page <= p.TotalPages()
    ensures IsInt64(p.limit * (p.page - 1)) && p.Skip() == p.limit * (p.page - 1)
    ensures 0 <= p.Skip() < p.End() <= p.itemCount
    ensures p.End() == if p.page == p.TotalPages() then p.itemCount else p.limit * p.page
  {
    hide Page.TotalPages, Page.Offset;
    TotalPagesIs(p);
    PageBounds(p.limit, p.TotalPages(), p.page, p.itemCount);
    OffsetIs(p);
  }

  lemma OffsetIs(p: Page)
    requires p.Counted() && p.page >= 1 && p.limit * (p.page - 1) < TWO_53
    ensures IsInt64(p.limit * (p.page - 1)) && p.Offset() == p.limit * (p.page - 1) >= 0
  {
    MulMono(0, p.page - 1, p.limit);
    if p.page == 1 {
      assert p.limit * (p.page - 1) == 0;
    }
  }

  /** Page `k` of `t` pages of `l` items. */
  lemma PageBounds(l: int, t: int, k: int, n: int)
    requires l > 0 && l * t - l < n <= l * t && 1 <= k <= t
    ensures 0 <= l * (k - 1) < n && l * (k - 1) + l == l * k
    ensures k < t ==> l * k < n
  {
    MulMono(k, t, l);
    MulMono(0, k - 1, l);
    assert l * (k - 1) == l * k - l;
    if k < t {
      MulMono(k + 1, t, l);
      assert l * (k + 1) == l * k + l;
    }
  }

  lemma WrapSign(n: int)
    ensures Wrap(n) >= 0 <==> n % TWO_64 < TWO_63
  {
  }

  /** When the slice a handler takes is within the list: always for a list with items, and
      for an empty list exactly when the 64-bit product of the limit and the pages before has
      its highest bit clear. */
  lemma SliceIsLegal(p: Page)
    requires p.Counted() && !p.HasPage()
    ensures 0 <= p.Skip() <= p.End() <= p.itemCount
            <==> p.itemCount > 0 || p.page <= 1 || (p.limit * (p.page - 1)) % TWO_64 < TWO_63
  {
    hide Page.TotalPages;
    if p.itemCount > 0 {
      AcceptedPage(p);
    } else {
      WrapSign(p.limit * (p.page - 1));
    }
  }

  /** Every limit and every page that is a positive 64-bit integer can be asked for. */
  lemma EveryPageIsARequest(limit: int, page: int, n: int)
    requires 1 <= limit <= 500 && 1 <= page < TWO_63
    ensures NewPagination(Decimal(page), Decimal(limit), n) == Page(limit, page, n)
  {
    ParseDecimal(page);
    ParseDecimal(limit);
  }

  /** The product does reach that bit: a request for page 10^18 of an empty list, with the
      default limit, is accepted, and the slice panics. */
  lemma EmptyListCanPanic()
    ensures var p := NewPagination(Decimal(1_000_000_000_000_000_000), "", 0);
            && p == Page(DEFAULT_LIMIT, 1_000_000_000_000_000_000, 0)
            && !p.HasPage() && p.Skip() < 0
  {
    hide Decimal;
    ParseDecimal(1_000_000_000_000_000_000);
    SliceIsLegal(Page(DEFAULT_LIMIT, 1_000_000_000_000_000_000, 0));
  }

  /** Empty, or with a character that is no digit. */
  predicate NotANumber(s: string) {
    s == "" || exists c :: c in s && (c < '0' || '9' < c)
  }

  /** A request without a page, or with one that is no number, and without a limit, or with one
      that is no number between 1 and 500, gets the first ten items. */
  lemma FirstPageByDefault(page: string, limit: string, n: nat)
    requires n < TWO_53 && NotANumber(page)
    requires NotANumber(limit) || exists k: nat :: (k == 0 || k > 500) && limit == Decimal(k)
    ensures var p := NewPagination(page, limit, n);
            !p.HasPage() && p.Skip() == 0 && p.End() == if n < 10 then n else 10
  {
    hide Page.TotalPages, Decimal;
    if !NotANumber(limit) {
      var k: nat :| (k == 0 || k > 500) && limit == Decimal(k);
      ParseDecimal(k);
    }
    assert NewPagination(page, limit, n) == Page(10, 1, n);
    TotalPagesIs(Page(10, 1, n));
  }

  // ---- Following the links ----

  /** The items a page shows. */
  function Shown<T>(items: seq<T>, limit: int, page: int): seq<T>
    requires |items| < TWO_53 && MIN_LIMIT <= limit <= MAX_LIMIT && IsInt64(page)
    requires !Page(limit, page, |items|).HasPage() && (|items| == 0 ==> page <= 1)
  {
    var p := Page(limit, page, |items|);
    SliceIsLegal(p);
    items[p.Skip()..p.End()]
  }

  /** The pages from `page` on, following the next links. */
  function Walk(limit: int, n: int, page: int): seq<int>
    requires Page(limit, page, n).Counted() && page >= 1
    decreases Page(limit, page, n).TotalPages() - page
  {
    match Page(limit, page, n).NextPage()
    case None => [page]
    case Some(next) =>
      StepIsNext(Page(limit, page, n));
      [page] + Walk(limit, n, next)
  }

  lemma StepIsNext(p: Page)
    requires p.Counted() && p.page >= 1 && p.NextPage().Some?
    ensures p.NextPage().value == p.page + 1 <= p.TotalPages()
    ensures Page(p.limit, p.page + 1, p.itemCount).Counted()
    ensures Page(p.limit, p.page + 1, p.itemCount).TotalPages() == p.TotalPages()
  {
    PagesFit(p);
  }

  /** The next link leads to a page that exists, and the previous link of that page leads
      back. */
  lemma NextAndBack(p: Page)
    requires p.Counted() && p.page >= 1 && p.NextPage().Some?
    ensures var next := Page(p.limit, p.NextPage().value, p.itemCount);
            next.Counted() && !next.HasPage() && next.PreviousPage() == Some(p.page)
  {
    StepIsNext(p);
  }

  /** And the other way round. */
  lemma BackAndNext(p: Page)
    requires p.Counted() && p.PreviousPage().Some?
    ensures var previous := Page(p.limit, p.PreviousPage().value, p.itemCount);
            previous.Counted() && !previous.HasPage() && previous.NextPage() == Some(p.page)
  {
  }

  function ShownAll<T>(items: seq<T>, limit: int, pages: seq<int>): seq<T>
    requires |items| < TWO_53 && MIN_LIMIT <= limit <= MAX_LIMIT
    requires forall page :: page in pages ==>
               IsInt64(page) && !Page(limit, page, |items|).HasPage() && (|items| == 0 ==> page <= 1)
  {
    if pages == [] then [] else Shown(items, limit, pages[0]) + ShownAll(items, limit, pages[1..])
  }

  /** The walk from a page visits that page and every later one once, in order. */
  lemma {:induction false} WalkVisits(limit: int, n: int, page: int)
    requires Page(limit, page, n).Counted() && 1 <= page && (n > 0 ==> page <= Page(limit, page, n).TotalPages())
    ensures var walk, total := Walk(limit, n, page), Page(limit, page, n).TotalPages();
            && |walk| == (if n == 0 then 1 else total - page + 1)
            && forall i :: 0 <= i < |walk| ==> walk[i] == page + i
    decreases Page(limit, page, n).TotalPages() - page
  {
    var p := Page(limit, page, n);
    if p.NextPage().Some? {
      StepIsNext(p);
      WalkVisits(limit, n, page + 1);
    } else if n == 0 {
      assert p.TotalPages() == 0;
    }
  }

  lemma WalkIsAccepted(limit: int, n: int, page: int)
    requires Page(limit, page, n).Counted() && 1 <= page && (if n == 0 then page == 1 else page <= Page(limit, page, n).TotalPages())
    ensures forall k :: k in Walk(limit, n, page) ==>
              IsInt64(k) && !Page(limit, k, n).HasPage() && (n == 0 ==> k <= 1)
  {
    WalkVisits(limit, n, page);
    TotalPagesIs(Page(limit, page, n));
    PagesFit(Page(limit, page, n));
  }

  lemma PagesFit(p: Page)
    requires p.Counted()
    ensures p.TotalPages() <= p.itemCount
  {
    TotalPagesIs(p);
    CountIsSmall(p.limit, p.TotalPages(), p.itemCount);
  }

  lemma CountIsSmall(l: int, t: int, n: int)
    requires l > 0 && t >= 0 && l * t - l < n && n >= 0
    ensures t <= n
  {
    if t > 0 {
      MulMono(1, l, t - 1);
      assert l * (t - 1) == l * t - l && (t - 1) * l == l * (t - 1);
    }
  }

  /** Following the next links from the first page and putting what the pages show together
      gives the list back. */
  lemma WalkShowsAll<T>(items: seq<T>, limit: int)
    requires |items| < TWO_53 && MIN_LIMIT <= limit <= MAX_LIMIT
    ensures var walk := Walk(limit, |items|, 1);
            && (forall k :: k in walk ==> IsInt64(k) && !Page(limit, k, |items|).HasPage() && (|items| == 0 ==> k <= 1))
            && ShownAll(items, limit, walk) == items
  {
    var p := Page(limit, 1, |items|);
    TotalPagesIs(p);
    WalkIsAccepted(limit, |items|, 1);
    WalkShowsRest(items, limit, 1);
  }

  lemma EmptyPage(p: Page)
    requires p.Counted() && p.itemCount == 0 && p.page == 1
    ensures p.Skip() == p.End() == 0 && p.NextPage() == None && p.limit * (p.page - 1) == 0
  {
  }

  /** What one page shows, and where the next begins. */
  lemma ShownIs<T>(items: seq<T>, limit: int, page: int)
    requires |items| < TWO_53 && MIN_LIMIT <= limit <= MAX_LIMIT && IsInt64(page)
    requires !Page(limit, page, |items|).HasPage() && (|items| == 0 ==> page == 1)
    ensures 0 <= limit * (page - 1) <= |items|
    ensures Page(limit, page, |items|).NextPage() == None ==> Shown(items, limit, page) == items[limit * (page - 1)..]
    ensures Page(limit, page, |items|).NextPage().Some? ==>
              0 <= limit * page <= |items|
              && Shown(items, limit, page) + items[limit * page..] == items[limit * (page - 1)..]
  {
    hide Page.TotalPages, Page.Offset;
    var p := Page(limit, page, |items|);
    if |items| > 0 {
      AcceptedPage(p);
    } else {
      EmptyPage(p);
    }
    if p.NextPage().Some? {
      assert Shown(items, limit, page) == items[limit * (page - 1)..limit * page];
    }
  }

  lemma {:induction false} WalkShowsRest<T>(items: seq<T>, limit: int, page: int)
    requires |items| < TWO_53 && MIN_LIMIT <= limit <= MAX_LIMIT && IsInt64(page) && 1 <= page
    requires if |items| == 0 then page == 1 else page <= Page(limit, page, |items|).TotalPages()
    ensures forall k :: k in Walk(limit, |items|, page) ==>
              IsInt64(k) && !Page(limit, k, |items|).HasPage() && (|items| == 0 ==> k <= 1)
    ensures 0 <= limit * (page - 1) <= |items|
    ensures ShownAll(items, limit, Walk(limit, |items|, page)) == items[limit * (page - 1)..]
    decreases Page(limit, page, |items|).TotalPages() - page
  {
    hide Page.TotalPages, Page.Offset, Shown;
    var p := Page(limit, page, |items|);
    WalkIsAccepted(limit, |items|, page);
    ShownIs(items, limit, page);
    var walk := Walk(limit, |items|, page);
    if p.NextPage().Some? {
      StepIsNext(p);
      WalkShowsRest(items, limit, page + 1);
      assert walk == [page] + Walk(limit, |items|, page + 1);
      assert walk[1..] == Walk(limit, |items|, page + 1);
      assert ShownAll(items, limit, walk) == Shown(items, limit, page) + ShownAll(items, limit, walk[1..]);
    } else {
      assert walk == [page] && walk[1..] == [];
      assert ShownAll(items, limit, walk) == Shown(items, limit, page) + [];
    }
  }
}
