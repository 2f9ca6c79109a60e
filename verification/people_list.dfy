/** `PeopleViewModel`: every person, searched on `Name` (with the blank-query
    guard), eight per page. It has no error message and no page buttons. */
module PeopleList {
  import opened Optional
  import opened Seqs
  import opened Text
  import opened Models
  import opened Interfaces
  import opened SwapiService
  import LV = ListView

  const ItemsPerPage: LV.PageSize := 8

  /** The page size is the constant eight, and no error is ever recorded. */
  type State = st: LV.ListState<Person> | st.itemsPerPage == ItemsPerPage && st.error == None
    witness LV.ListState([], [], true, 1, ItemsPerPage, None)

  /** The display name searched: the person's name. */
  function Name(p: Person): Option<string>
  {
    p.name
  }

  /** `InitializeAsync`: `Loading` ends false. A returned list becomes both
      `People` and `FilteredPeople`; an exception is only logged, leaving both
      lists as they were. The page is not reset. */
  function InitializeAsync(st: State, api: Api): (r: State)
    ensures !r.loading && r.currentPage == st.currentPage
    ensures api.people.getList("people").Returned? ==>
      r.items == api.people.getList("people").value && r.filtered == r.items
    ensures api.people.getList("people").Raised? ==> r == st.(loading := false)
  {
    LV.Loaded(st, api.people.getList("people"), None)
  }

  /** Over the HTTP service the people are exactly the list fetched from
      `people` (empty when the request failed). */
  lemma LoadOverHttp(st: State, net: Network)
    ensures InitializeAsync(st, Concrete(net)).items == GetListAsync(net.personList, "people")
    ensures InitializeAsync(st, Concrete(net)).filtered == GetListAsync(net.personList, "people")
  {
  }

  /** `HandleSearch(query)`: a blank query shows everyone; any other keeps, in
      order, exactly the people whose name is non-empty and contains the query
      ignoring case. The page goes back to 1. */
  function HandleSearch(st: State, query: string): (r: State)
    ensures r.items == st.items && r.currentPage == 1 && r.loading == st.loading
    ensures IsBlank(query) ==> r.filtered == st.items
    ensures !IsBlank(query) ==> r.filtered == Filter(st.items, LV.Matcher(Name, query))
    ensures forall p :: p in r.filtered <==> p in st.items && (IsBlank(query) || LV.NameMatches(Name(p), query))
  {
    LV.SearchMembers(st, Name, true, query);
    LV.Search(st, Name, true, query)
  }

  /** `TotalPages`: the ceiling of the filtered count over eight. */
  function TotalPages(st: State): (n: nat)
    ensures n * 8 >= |st.filtered| && (n == 0 || (n - 1) * 8 < |st.filtered|)
  {
    LV.TotalPages(st)
  }

  /** `PaginatedPeople`: at most eight people, consecutive in the filtered
      list, starting at `(CurrentPage - 1) * 8` (from 0 when that is negative). */
  function PaginatedPeople(st: State): (page: seq<Person>)
    ensures |page| <= 8
    ensures SkipCount((st.currentPage - 1) * 8) <= |st.filtered| ==> |page| == LV.Min(8, |st.filtered| - SkipCount((st.currentPage - 1) * 8))
    ensures SkipCount((st.currentPage - 1) * 8) >= |st.filtered| ==> page == []
    ensures forall j :: 0 <= j < |page| ==> SkipCount((st.currentPage - 1) * 8) + j < |st.filtered| && page[j] == st.filtered[SkipCount((st.currentPage - 1) * 8) + j]
  {
    LV.Paginated(st)
  }
}
