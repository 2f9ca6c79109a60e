/** `StarShipViewModel`: every starship, searched on `Name` WITHOUT the
    blank-query guard, with a settable page size that starts at nine and the
    id-from-URL helper. It has no error message and no page buttons. Its
    `InitializeAsync` fetches through the service passed to it, not the one
    the view model was built with. */
module StarshipList {
  import opened Optional
  import opened Seqs
  import opened Text
  import opened Models
  import opened Interfaces
  import opened SwapiService
  import LV = ListView

  const DefaultItemsPerPage: LV.PageSize := 9

  /** The page size is settable; no error is ever recorded. */
  type State = st: LV.ListState<Starship> | st.error == None
    witness LV.ListState([], [], true, 1, DefaultItemsPerPage, None)

  /** The display name searched: the starship's name. */
  function Name(s: Starship): Option<string>
  {
    s.name
  }

  /** `InitializeAsync(swapiService)`: `Loading` ends false. A returned list
      becomes both `Starships` and `FilteredStarShips`; an exception is only
      logged. */
  function InitializeAsync(st: State, swapiService: Api): (r: State)
    ensures !r.loading && r.currentPage == st.currentPage && r.itemsPerPage == st.itemsPerPage
    ensures swapiService.starships.getList("starships").Returned? ==>
      r.items == swapiService.starships.getList("starships").value && r.filtered == r.items
    ensures swapiService.starships.getList("starships").Raised? ==> r == st.(loading := false)
  {
    LV.Loaded(st, swapiService.starships.getList("starships"), None)
  }

  /** Over the HTTP service the starships are the list fetched from `starships`. */
  lemma LoadOverHttp(st: State, net: Network)
    ensures InitializeAsync(st, Concrete(net)).items == GetListAsync(net.starshipList, "starships")
    ensures InitializeAsync(st, Concrete(net)).filtered == GetListAsync(net.starshipList, "starships")
  {
  }

  /** `HandleSearch(query)`: keeps, in order, exactly the starships whose name
      is non-empty and contains the query ignoring case, even for a blank
      query. The page goes back to 1. */
  function HandleSearch(st: State, query: string): (r: State)
    ensures r == st.(filtered := r.filtered, currentPage := 1)
    ensures r.filtered == Filter(st.items, LV.Matcher(Name, query))
    ensures forall s :: s in r.filtered <==> s in st.items && LV.NameMatches(Name(s), query)
  {
    LV.SearchMembers(st, Name, false, query);
    LV.Search(st, Name, false, query)
  }

  /** Without the guard, clearing the search does not restore the full list:
      the starships with no name drop out. */
  lemma EmptySearchHidesUnnamed(st: State)
    ensures forall s :: s in HandleSearch(st, "").filtered <==> s in st.items && Name(s).Some? && Name(s).value != ""
  {
    LV.EmptyQueryKeepsNamed(st, Name);
  }
}
