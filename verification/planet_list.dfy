/** `PlanetViewModel`: every planet, searched on `Name` (with the blank-query
    guard), with a settable page size that starts at nine, next/previous
    buttons and a load-failure message. */
module PlanetList {
  import opened Optional
  import opened Seqs
  import opened Text
  import opened Models
  import opened Interfaces
  import opened SwapiService
  import LV = ListView

  const DefaultItemsPerPage: LV.PageSize := 9
  const LoadFailed: string := "Failed to load Planets. Please try again later."

  type State = LV.ListState<Planet>

  /** The display name searched: the planet's name. */
  function Name(p: Planet): Option<string>
  {
    p.name
  }

  /** A new view model: nothing loaded yet, loading, page 1 of nine planets. */
  function Create(): (st: State)
    ensures st.items == [] && st.filtered == [] && st.loading
    ensures st.currentPage == 1 && st.itemsPerPage == 9 && st.error == None
  {
    LV.Initial(DefaultItemsPerPage)
  }

  /** `InitializeAsync`: `Loading` ends false. A returned list becomes both
      `Planets` and `FilteredPlanets`; an exception sets the load-failure
      message and leaves both lists as they were. */
  function InitializeAsync(st: State, api: Api): (r: State)
    ensures !r.loading && r.currentPage == st.currentPage && r.itemsPerPage == st.itemsPerPage
    ensures api.planets.getList("planets").Returned? ==>
      r.items == api.planets.getList("planets").value && r.filtered == r.items && r.error == st.error
    ensures api.planets.getList("planets").Raised? ==>
      r == st.(loading := false, error := Some(LoadFailed))
  {
    LV.Loaded(st, api.planets.getList("planets"), Some(LoadFailed))
  }

  /** Over the HTTP service the load never fails: the planets are the list
      fetched from `planets` and no message appears. */
  lemma LoadOverHttp(net: Network)
    ensures InitializeAsync(Create(), Concrete(net)).items == GetListAsync(net.planetList, "planets")
    ensures InitializeAsync(Create(), Concrete(net)).error == None
  {
  }

  /** `HandleSearch(query)`: a blank query shows every planet; any other keeps,
      in order, exactly the planets whose name is non-empty and contains the
      query ignoring case. The page goes back to 1. */
  function HandleSearch(st: State, query: string): (r: State)
    ensures r == st.(filtered := r.filtered, currentPage := 1)
    ensures IsBlank(query) ==> r.filtered == st.items
    ensures !IsBlank(query) ==> r.filtered == Filter(st.items, LV.Matcher(Name, query))
    ensures forall p :: p in r.filtered <==> p in st.items && (IsBlank(query) || LV.NameMatches(Name(p), query))
  {
    LV.SearchMembers(st, Name, true, query);
    LV.Search(st, Name, true, query)
  }
}
