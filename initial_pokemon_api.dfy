/** The GET /api/initial-pokemon handler: one page of catalog summaries.

    The handler reads `page` and `limit` from the query string, turns them into
    an inclusive row range, asks the database for those rows ordered by id and
    echoes the pagination it used. The database is an input `db`: `db(range)`
    is the outcome of selecting that inclusive range ordered by id, `Err` when
    the query builder reports an error, `Ok(None)` when it reports no error and
    no data, `Ok(Some(rows))` otherwise. */
module InitialPokemonApi {
  import opened Wrappers

  /** The columns the catalog list selects: id, name, japanese_name, sprite_url. */
  datatype Summary = Summary(id: int, name: string, japaneseName: Option<string>, spriteUrl: Option<string>)

  /** `Number(query.page)` and `Number(query.limit)`: `None` stands for a
      missing or non-numeric value (NaN). */
  datatype Query = Query(page: Option<int>, limit: Option<int>)

  const DefaultPage := 1
  const DefaultLimit := 30

  /** Inclusive row range handed to the database. */
  datatype Range = Range(offset: int, last: int)

  datatype Pagination = Pagination(page: int, itemsPerPage: int, offset: int, returnedCount: nat)

  datatype Response = Response(data: seq<Summary>, pagination: Pagination)

  /** `createError({statusCode, statusMessage})`; the message names the page. */
  datatype HttpError = HttpError(statusCode: int, page: int)

  datatype Reply = Served(response: Response) | Failed(error: HttpError)

  /** `Number(v) || fallback`: NaN and 0 are falsy, every other number is kept. */
  function OrDefault(v: Option<int>, fallback: int): (r: int)
    ensures v.Some? && v.value != 0 ==> r == v.value
    ensures v.None? || v.value == 0 ==> r == fallback
    ensures fallback != 0 ==> r != 0
  {
    match v
    case Some(n) => if n != 0 then n else fallback
    case None => fallback
  }

  function ResolvePage(q: Query): (page: int)
    ensures page != 0
    ensures q.page.Some? && q.page.value != 0 ==> page == q.page.value
    ensures q.page.None? || q.page.value == 0 ==> page == DefaultPage
  {
    OrDefault(q.page, DefaultPage)
  }

  function ResolveLimit(q: Query): (itemsPerPage: int)
    ensures itemsPerPage != 0
    ensures q.limit.Some? && q.limit.value != 0 ==> itemsPerPage == q.limit.value
    ensures q.limit.None? || q.limit.value == 0 ==> itemsPerPage == DefaultLimit
  {
    OrDefault(q.limit, DefaultLimit)
  }

  /** The range of the 1-based page `page` when pages hold `itemsPerPage` rows. */
  function PageRange(page: int, itemsPerPage: int): (r: Range)
    ensures r.last - r.offset + 1 == itemsPerPage
    ensures page == 1 ==> r.offset == 0
  {
    var offset := (page - 1) * itemsPerPage;
    Range(offset, offset + itemsPerPage - 1)
  }

  /** The row range the handler requests for a query: the page the query
      names, or the first page when it names none. */
  function RequestedRange(q: Query): (r: Range)
    ensures r.last - r.offset + 1 == ResolveLimit(q)
    ensures q.page.Some? && q.page.value != 0 ==> r == PageRange(q.page.value, ResolveLimit(q))
    ensures q.page.None? || q.page.value == 0 ==> r.offset == 0
    ensures q.limit.None? || q.limit.value == 0 ==> r.last - r.offset + 1 == DefaultLimit
  {
    PageRange(ResolvePage(q), ResolveLimit(q))
  }

  /** The next page starts right after the last row of this one. */
  lemma NextPageAdjacent(page: int, itemsPerPage: int)
    ensures PageRange(page, itemsPerPage).last + 1 == PageRange(page + 1, itemsPerPage).offset
  {
  }

  /** With a positive page size, an earlier page ends before a later one starts,
      so distinct pages never share a row. */
  lemma EarlierPageEndsBefore(p: int, q: int, itemsPerPage: int)
    requires itemsPerPage > 0
    requires p < q
    ensures PageRange(p, itemsPerPage).last < PageRange(q, itemsPerPage).offset
  {
  }

  /** The handler: it selects the requested range; a database error becomes a
      500 and nothing else is returned; otherwise the rows (or `[]`) come back
      with the pagination that was used. */
  function Handle(q: Query, db: Range -> Result<Option<seq<Summary>>>): (r: Reply)
    ensures r.Failed? <==> db(RequestedRange(q)).Err?
    ensures r.Failed? ==> r.error == HttpError(500, ResolvePage(q))
    ensures r.Served? ==>
      r.response.data == (if db(RequestedRange(q)).value.Some? then db(RequestedRange(q)).value.value else [])
    ensures r.Served? ==> r.response.pagination.page == ResolvePage(q)
    ensures r.Served? ==> r.response.pagination.itemsPerPage == ResolveLimit(q)
    ensures r.Served? ==> r.response.pagination.offset == RequestedRange(q).offset
    ensures r.Served? ==> r.response.pagination.returnedCount == |r.response.data|
  {
    var page := ResolvePage(q);
    var itemsPerPage := ResolveLimit(q);
    var range := PageRange(page, itemsPerPage);
    match db(range)
    case Err(_) => Failed(HttpError(500, page))
    case Ok(rows) =>
      var data := if rows.Some? then rows.value else [];
      Served(Response(data, Pagination(page, itemsPerPage, range.offset, |data|)))
  }

  /** The reply depends on the database only through the rows of the
      requested range. */
  lemma HandleReadsOnlyRequestedRange(q: Query, db1: Range -> Result<Option<seq<Summary>>>,
                                      db2: Range -> Result<Option<seq<Summary>>>)
    requires db1(RequestedRange(q)) == db2(RequestedRange(q))
    ensures Handle(q, db1) == Handle(q, db2)
  {
  }
}
