/** `VehicleViewModel`: every vehicle, searched on `Name` (with the
    blank-query guard), nine per page, with first/last-page flags and the
    id-from-URL helper. It has no error message and no page buttons. */
module VehicleList {
  import opened Optional
  import opened Seqs
  import opened Text
  import opened Models
  import opened Interfaces
  import opened SwapiService
  import LV = ListView

  const ItemsPerPage: LV.PageSize := 9

  /** The page size is the constant nine, and no error is ever recorded. */
  type State = st: LV.ListState<Vehicle> | st.itemsPerPage == ItemsPerPage && st.error == None
    witness LV.ListState([], [], true, 1, ItemsPerPage, None)

  /** The display name searched: the vehicle's name. */
  function Name(v: Vehicle): Option<string>
  {
    v.name
  }

  /** `InitializeAsync`: `Loading` ends false. A returned list becomes both
      `Vehicles` and `FilteredVehicles`; an exception is only logged. */
  function InitializeAsync(st: State, api: Api): (r: State)
    ensures !r.loading && r.currentPage == st.currentPage
    ensures api.vehicles.getList("vehicles").Returned? ==>
      r.items == api.vehicles.getList("vehicles").value && r.filtered == r.items
    ensures api.vehicles.getList("vehicles").Raised? ==> r == st.(loading := false)
  {
    LV.Loaded(st, api.vehicles.getList("vehicles"), None)
  }

  /** Over the HTTP service the vehicles are the list fetched from `vehicles`. */
  lemma LoadOverHttp(st: State, net: Network)
    ensures InitializeAsync(st, Concrete(net)).items == GetListAsync(net.vehicleList, "vehicles")
    ensures InitializeAsync(st, Concrete(net)).filtered == GetListAsync(net.vehicleList, "vehicles")
  {
  }

  /** `HandleSearch(query)`: a blank query shows every vehicle; any other
      keeps, in order, exactly the vehicles whose name is non-empty and
      contains the query ignoring case. The page goes back to 1. */
  function HandleSearch(st: State, query: string): (r: State)
    ensures r.items == st.items && r.currentPage == 1 && r.loading == st.loading
    ensures IsBlank(query) ==> r.filtered == st.items
    ensures !IsBlank(query) ==> r.filtered == Filter(st.items, LV.Matcher(Name, query))
    ensures forall v :: v in r.filtered <==> v in st.items && (IsBlank(query) || LV.NameMatches(Name(v), query))
  {
    LV.SearchMembers(st, Name, true, query);
    LV.Search(st, Name, true, query)
  }

  /** `TotalPages`: the ceiling of the filtered count over nine. */
  function TotalPages(st: State): (n: nat)
    ensures n * 9 >= |st.filtered| && (n == 0 || (n - 1) * 9 < |st.filtered|)
  {
    LV.TotalPages(st)
  }

  /** `PaginatedVehicles`: at most nine vehicles, consecutive in the filtered
      list, starting at `(CurrentPage - 1) * 9` (from 0 when that is negative). */
  function PaginatedVehicles(st: State): (page: seq<Vehicle>)
    ensures |page| <= 9
    ensures SkipCount((st.currentPage - 1) * 9) <= |st.filtered| ==> |page| == LV.Min(9, |st.filtered| - SkipCount((st.currentPage - 1) * 9))
    ensures SkipCount((st.currentPage - 1) * 9) >= |st.filtered| ==> page == []
    ensures forall j :: 0 <= j < |page| ==> SkipCount((st.currentPage - 1) * 9) + j < |st.filtered| && page[j] == st.filtered[SkipCount((st.currentPage - 1) * 9) + j]
  {
    LV.Paginated(st)
  }
}
