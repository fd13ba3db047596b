/** `GET /api/transactions`: an optional month window, an optional exact
    `_id` lookup, then `skip`/`limit` pagination over the matching records in
    collection order. */
module Listing {
  import opened Wrappers
  import opened Calendar
  import opened Collection

  /** The query string. `month` and `search` are `None` when absent or empty,
      the two cases in which JavaScript reads them as false; every other
      value, "0" included, is true. `year` is only read when `month` is given. */
  datatype ListParams = ListParams(
    month: Option<int>,
    year: int,
    search: Option<string>,
    page: Option<int>,
    perPage: Option<int>)

  const DefaultPage: int := 1
  const DefaultPerPage: int := 10

  predicate Truthy(s: Option<string>) {
    s.Some? && s.value != ""
  }

  /** The query document: `{ ...(month && { dateOfSale: window }) }`, then
      spread with `{ _id: search }` when `search` is true. */
  function ListingQuery(p: ListParams): (q: Query)
    ensures q.sold.None? && q.price.None?
    ensures forall t :: Matches(q, t) <==>
      && (p.month.Some? ==> InWindow(t.dateOfSale, MonthWindow(p.year, p.month.value)))
      && (Truthy(p.search) ==> t.id == p.search.value)
  {
    var dated := if p.month.Some? then DateQuery(MonthWindow(p.year, p.month.value)) else MatchAll;
    if Truthy(p.search) then Merge(dated, Query(None, p.search, None, None)) else dated
  }

  /** `cursor.skip(n)`. */
  function Skip(xs: seq<Transaction>, n: nat): (r: seq<Transaction>)
    ensures |r| == if n <= |xs| then |xs| - n else 0
    ensures forall i :: 0 <= i < |r| ==> r[i] == xs[n + i]
  {
    if n <= |xs| then xs[n..] else []
  }

  /** `cursor.limit(n)`: a limit of 0 means no limit, and a negative limit
      returns at most `-n` documents, in a single batch. */
  function Limit(xs: seq<Transaction>, n: int): (r: seq<Transaction>)
    ensures n != 0 ==> |r| == Min(|xs|, Abs(n))
    ensures n == 0 ==> |r| == |xs|
    ensures r == xs[..|r|]
  {
    if n == 0 || |xs| <= Abs(n) then xs else xs[..Abs(n)]
  }

  function Abs(n: int): nat { if n < 0 then -n else n }
  function Min(a: int, b: int): int { if a <= b then a else b }

  /** `(page - 1) * perPage` with the defaults filled in. The first page skips
      nothing, and the skip is negative exactly when the page lies before the
      first one and the page size is positive, or the page lies after the
      first one and the page size is negative. */
  function SkipCount(p: ListParams): (r: int)
    ensures var page, n := p.page.GetOr(DefaultPage), p.perPage.GetOr(DefaultPerPage);
      && (r == 0 <==> page == 1 || n == 0)
      && (r < 0 <==> (page < 1 && n > 0) || (page > 1 && n < 0))
  {
    (p.page.GetOr(DefaultPage) - 1) * p.perPage.GetOr(DefaultPerPage)
  }

  /** All the records the query selects, before pagination. */
  function Matching(db: seq<Transaction>, p: ListParams): seq<Transaction> {
    Find(db, ListingQuery(p))
  }

  /** The handler: a negative skip is refused by the database, which the
      catch block turns into status 500. */
  function ListTransactions(db: seq<Transaction>, p: ListParams): (r: Reply<seq<Transaction>>)
    ensures r.InternalServerError? <==> SkipCount(p) < 0
    ensures r.Ok? ==> forall t :: t in r.body ==> t in db && Matches(ListingQuery(p), t)
  {
    var skip := SkipCount(p);
    if skip < 0 then InternalServerError
    else Ok(Limit(Skip(Matching(db, p), skip), p.perPage.GetOr(DefaultPerPage)))
  }

  /** A record is listed (before pagination) exactly when it lies in the
      month's window, if a month is given, and its `_id` equals `search`, if
      a search is given: the search narrows the month's records and never
      widens them, and it compares the identifier only, never the title,
      description or category. */
  lemma ListingSelects(db: seq<Transaction>, p: ListParams, t: Transaction)
    requires Valid(t.dateOfSale)
    ensures t in Matching(db, p) <==>
      && t in db
      && (p.month.Some? ==> MonthNumber(t.dateOfSale) == FullYear(p.year) * 12 + p.month.value - 1)
      && (Truthy(p.search) ==> t.id == p.search.value)
  {
    if p.month.Some? {
      MonthWindowSelectsMonth(p.year, p.month.value, t.dateOfSale);
    }
  }

  /** Without a month and without a search every record is listed, in
      collection order. */
  lemma NoFilterListsAll(db: seq<Transaction>, p: ListParams)
    requires p.month.None? && !Truthy(p.search)
    ensures Matching(db, p) == db
  {
    FindAll(db, ListingQuery(p));
  }

  /** With both a month and a search, the listing is the month's records
      filtered again by `_id`: the two conditions are intersected. */
  lemma SearchWithinMonth(db: seq<Transaction>, p: ListParams)
    requires p.month.Some? && Truthy(p.search)
    ensures Matching(db, p) ==
            Find(Find(db, DateQuery(MonthWindow(p.year, p.month.value))), Query(None, p.search, None, None))
  {
    FindMerge(db, DateQuery(MonthWindow(p.year, p.month.value)), Query(None, p.search, None, None));
  }

  /** A search on a collection with unique ids returns at most one record. */
  lemma SearchAtMostOne(db: seq<Transaction>, p: ListParams)
    requires UniqueIds(db) && Truthy(p.search)
    ensures |Matching(db, p)| <= 1
    ensures ListTransactions(db, p).Ok? ==> |ListTransactions(db, p).body| <= 1
  {
    FindByIdAtMostOne(db, ListingQuery(p));
  }

  /** A successful page is the run of matching records that starts after the
      first `(page - 1) * perPage` of them, in collection order, and holds
      `perPage` records, or fewer on the last page (all the rest when
      `perPage` is 0). */
  lemma Pagination(db: seq<Transaction>, p: ListParams)
    requires ListTransactions(db, p).Ok?
    ensures var m, skip, n, page := Matching(db, p), SkipCount(p), p.perPage.GetOr(DefaultPerPage),
                                    ListTransactions(db, p).body;
      && 0 <= skip
      && |page| == (if skip <= |m| then Min(|m| - skip, if n == 0 then |m| else Abs(n)) else 0)
      && (skip <= |m| ==> page == m[skip..skip + |page|])
  {
    var m, skip := Matching(db, p), SkipCount(p);
    var page := ListTransactions(db, p).body;
    if skip <= |m| {
      assert Skip(m, skip) == m[skip..];
      assert page == m[skip..][..|page|];
    }
  }

  /** With no paging parameters the first ten matching records are listed. */
  lemma DefaultPaging(db: seq<Transaction>, p: ListParams)
    requires p.page.None? && p.perPage.None?
    ensures ListTransactions(db, p) == Ok(Matching(db, p)[..Min(|Matching(db, p)|, 10)])
  {
  }

  /** The `k`-th page of `perPage` records, page 1 being the first. */
  function Page(m: seq<Transaction>, perPage: int, k: nat): seq<Transaction>
    requires k > 0 && perPage > 0
  {
    Limit(Skip(m, (k - 1) * perPage), perPage)
  }

  /** The handler's page `k` of a positive page size is `Page` of the
      matching records. */
  lemma ListedPage(db: seq<Transaction>, p: ListParams, k: nat)
    requires p.perPage.Some? && p.perPage.value > 0 && k > 0
    ensures ListTransactions(db, p.(page := Some(k))) == Ok(Page(Matching(db, p), p.perPage.value, k))
  {
    var q := p.(page := Some(k));
    assert ListingQuery(q) == ListingQuery(p);
    assert SkipCount(q) == (k - 1) * p.perPage.value;
  }

  /** Pages 1 to `k`, concatenated. */
  function Pages(m: seq<Transaction>, perPage: int, k: nat): seq<Transaction>
    requires perPage > 0
  {
    if k == 0 then [] else Pages(m, perPage, k - 1) + Page(m, perPage, k)
  }

  /** The end of page `k` is the start of page `k` plus one page. */
  lemma NextMultiple(k: nat, n: int)
    requires k > 0
    ensures k * n == (k - 1) * n + n
  {
  }

  /** Page `k` is the slice from `(k - 1) * n` to `k * n`, cut at the end. */
  lemma PageIsSlice(m: seq<Transaction>, n: int, k: nat, lo: int)
    requires n > 0 && k > 0 && lo == (k - 1) * n
    ensures Page(m, n, k) == m[Min(|m|, lo)..Min(|m|, lo + n)]
  {
  }

  /** Consecutive pages of a positive page size tile the records they are
      cut from: pages 1 to `k` together are the first `k * perPage` of them,
      so no record is repeated or skipped between pages. */
  lemma {:induction false} PagesTile(m: seq<Transaction>, n: int, k: nat)
    requires n > 0
    ensures Pages(m, n, k) == m[..Min(|m|, k * n)]
  {
    if k > 0 {
      var lo := (k - 1) * n;
      NextMultiple(k, n);
      PagesTile(m, n, k - 1);
      PageIsSlice(m, n, k, lo);
      var a, b := Min(|m|, lo), Min(|m|, lo + n);
      assert Pages(m, n, k) == m[..a] + m[a..b];
      assert m[..a] + m[a..b] == m[..b];
    }
  }
}
