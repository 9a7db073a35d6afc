/** The catalog store (Pinia store 'pokemon'): the total count, the one page of
    summaries currently shown, and the pagination that goes with it.

    The two remote calls are inputs. `fetchCount` is the settled value of the
    GET /api/pokemon-count request; `fetchPage(page, limit)` is the settled value
    of GET /api/initial-pokemon with that `page` and `limit` in its query. */
module Pokemon {
  import opened Wrappers
  import opened InitialPokemonApi

  const ItemsPerPage := 30

  /** `Math.ceil(totalCount / itemsPerPage)` on naturals: the fewest pages of
      `itemsPerPage` rows that hold `totalCount` rows. */
  function TotalPages(totalCount: nat, itemsPerPage: nat): (pages: nat)
    requires itemsPerPage > 0
    ensures pages * itemsPerPage >= totalCount
    ensures pages > 0 ==> (pages - 1) * itemsPerPage < totalCount
    ensures totalCount == 0 <==> pages == 0
  {
    (totalCount + itemsPerPage - 1) / itemsPerPage
  }

  /** The server serves the store's query as sent, except that a request for
      page 0 is served as page 1 while LoadPage records `currentPage == 0`. */
  lemma StoreQueryAsServed(page: int)
    ensures ResolveLimit(Query(Some(page), Some(ItemsPerPage))) == ItemsPerPage
    ensures ResolvePage(Query(Some(page), Some(ItemsPerPage))) == if page == 0 then DefaultPage else page
  {
  }

  /** `initialPokemon.find(p => p.id === id)`: the first summary on the loaded
      page with that id, or nothing. */
  function FindById(page: seq<Summary>, id: int): (r: Option<Summary>)
    ensures r.None? <==> forall i :: 0 <= i < |page| ==> page[i].id != id
    ensures r.Some? ==> r.value.id == id && r.value in page
    ensures r.Some? ==> exists k :: 0 <= k < |page| && page[k] == r.value
                          && forall j :: 0 <= j < k ==> page[j].id != id
  {
    if page == [] then None
    else if page[0].id == id then Some(page[0])
    else
      var rest := FindById(page[1..], id);
      if rest.Some? then
        ghost var k' :| 0 <= k' < |page[1..]| && page[1..][k'] == rest.value
                        && forall j :: 0 <= j < k' ==> page[1..][j].id != id;
        assert page[k' + 1] == rest.value;
        rest
      else rest
  }

  class PokemonStore {
    var totalCount: nat
    var initialPokemon: seq<Summary>
    var itemsPerPage: nat
    var currentPage: int
    var totalPages: nat
    var isInitialized: bool

    /** The page size is positive and the stored page count never disagrees
        with the count it was derived from. */
    ghost predicate Valid()
      reads this
    {
      itemsPerPage > 0 && totalPages == TotalPages(totalCount, itemsPerPage)
    }

    constructor ()
      ensures Valid()
      ensures totalCount == 0 && initialPokemon == [] && !isInitialized
      ensures itemsPerPage == ItemsPerPage && currentPage == 1 && totalPages == 0
    {
      totalCount := 0;
      initialPokemon := [];
      itemsPerPage := ItemsPerPage;
      currentPage := 1;
      totalPages := 0;
      isInitialized := false;
    }

    /** Getter `getPokemonById`: searches only the page that is loaded. */
    function GetPokemonById(id: int): (r: Option<Summary>)
      reads this
      ensures r == FindById(initialPokemon, id)
      ensures r.Some? ==> r.value in initialPokemon && r.value.id == id
      ensures r.None? <==> forall i :: 0 <= i < |initialPokemon| ==> initialPokemon[i].id != id
    {
      FindById(initialPokemon, id)
    }

    /** Getter `getTotalPages`, recomputed from `totalCount` on every access. */
    function GetTotalPages(): (pages: nat)
      reads this
      requires Valid()
      ensures pages == totalPages
      ensures pages * itemsPerPage >= totalCount
      ensures pages > 0 ==> (pages - 1) * itemsPerPage < totalCount
    {
      TotalPages(totalCount, itemsPerPage)
    }

    /** Fetches the count and the current page together; once initialized it
        does nothing. If either request fails nothing is stored, so a later
        call tries again, and the failure is rethrown. */
    method InitializeStore(fetchCount: Result<nat>, fetchPage: (int, int) -> Result<Response>)
      returns (r: Result<()>)
      requires Valid()
      modifies this
      ensures Valid()
      ensures currentPage == old(currentPage) && itemsPerPage == old(itemsPerPage)
      ensures old(isInitialized) ==> r.Ok? && unchanged(this)
      ensures !old(isInitialized) && fetchCount.Ok? && fetchPage(currentPage, itemsPerPage).Ok? ==>
        && r.Ok?
        && totalCount == fetchCount.value
        && initialPokemon == fetchPage(currentPage, itemsPerPage).value.data
        && totalPages == TotalPages(totalCount, itemsPerPage)
        && isInitialized
      ensures !old(isInitialized) && (fetchCount.Err? || fetchPage(currentPage, itemsPerPage).Err?) ==>
        && unchanged(this)
        && r.Err?
        && ((fetchCount.Err? && r.msg == fetchCount.msg)
            || (fetchPage(currentPage, itemsPerPage).Err? && r.msg == fetchPage(currentPage, itemsPerPage).msg))
    {
      if isInitialized {
        return Ok(());
      }
      var pageResult := fetchPage(currentPage, itemsPerPage);
      if fetchCount.Err? {
        return Err(fetchCount.msg);
      }
      if pageResult.Err? {
        return Err(pageResult.msg);
      }
      totalCount := fetchCount.value;
      initialPokemon := pageResult.value.data;
      totalPages := TotalPages(totalCount, itemsPerPage);
      isInitialized := true;
      r := Ok(());
    }

    /** Fetches page `page` (not clamped to the known page range) and makes it
        the current page; on failure the previous page stays and the error is
        rethrown. */
    method LoadPage(page: int, fetchPage: (int, int) -> Result<Response>) returns (r: Result<seq<Summary>>)
      requires Valid()
      modifies this
      ensures Valid()
      ensures totalCount == old(totalCount) && totalPages == old(totalPages)
      ensures itemsPerPage == old(itemsPerPage) && isInitialized == old(isInitialized)
      ensures fetchPage(page, itemsPerPage).Ok? ==>
        && r == Ok(fetchPage(page, itemsPerPage).value.data)
        && initialPokemon == r.value
        && currentPage == page
      ensures fetchPage(page, itemsPerPage).Err? ==>
        && r == Err(fetchPage(page, itemsPerPage).msg)
        && initialPokemon == old(initialPokemon)
        && currentPage == old(currentPage)
    {
      var result := fetchPage(page, itemsPerPage);
      if result.Err? {
        return Err(result.msg);
      }
      initialPokemon := result.value.data;
      currentPage := page;
      r := Ok(result.value.data);
    }
  }
}
