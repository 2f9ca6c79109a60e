/** `SpeciesViewModel`: the species gathered page by page, searched on
    `Name` WITHOUT the blank-query guard, with a settable page size that
    starts at nine. It has no error message and no page buttons. */
module SpeciesList {
  import opened Optional
  import opened Seqs
  import opened Text
  import opened Models
  import opened Interfaces
  import opened SwapiService
  import LV = ListView

  const DefaultItemsPerPage: LV.PageSize := 9
  const FirstUrl: string := "species"

  /** The page size is settable; no error is ever recorded. */
  type State = st: LV.ListState<Specie> | st.error == None
    witness LV.ListState([], [], true, 1, DefaultItemsPerPage, None)

  /** The display name searched: the species' name. */
  function Name(s: Specie): Option<string>
  {
    s.name
  }

  /** `response.LastOrDefault()?.Url` on a non-empty page, with a `null` URL
      read as the empty string (both end the loop). */
  function NextUrl(page: seq<Specie>): (url: string)
    requires |page| > 0
    ensures page[|page| - 1].url.Some? ==> url == page[|page| - 1].url.value
    ensures page[|page| - 1].url.None? ==> url == ""
  {
    page[|page| - 1].url.GetOr("")
  }

  /** The `while` loop of `Initialize` from `url` on, allowed `fuel` more
      fetches: `None` when the fuel runs out first, `Some(Raised)` when a
      fetch raised, otherwise the pages concatenated in fetch order. The
      loop stops at an empty URL or an empty page. */
  function Crawl(fetch: string -> Call<seq<Specie>>, url: string, fuel: nat): (r: Option<Call<seq<Specie>>>)
    ensures url == "" ==> r == Some(Returned([]))
    ensures url != "" && fuel == 0 ==> r == None
    ensures url != "" && fuel > 0 && fetch(url).Raised? ==> r == Some(Raised)
    ensures url != "" && fuel > 0 && fetch(url) == Returned([]) ==> r == Some(Returned([]))
    ensures r.Some? && r.value.Returned? && r.value.value != [] ==>
      url != "" && fetch(url).Returned? && fetch(url).value != [] && fetch(url).value <= r.value.value
    decreases fuel
  {
    if url == "" then Some(Returned([]))
    else if fuel == 0 then None
    else
      match fetch(url)
      case Raised => Some(Raised)
      case Returned(page) =>
        if page == [] then Some(Returned([]))
        else Prepend(page, Crawl(fetch, NextUrl(page), fuel - 1))
  }

  /** `done` fetched before `rest`. */
  function Prepend(done: seq<Specie>, rest: Option<Call<seq<Specie>>>): (r: Option<Call<seq<Specie>>>)
    ensures r.None? <==> rest.None?
    ensures r == Some(Raised) <==> rest == Some(Raised)
    ensures rest.Some? && rest.value.Returned? ==> r == Some(Returned(done + rest.value.value))
  {
    match rest
    case Some(Returned(list)) => Some(Returned(done + list))
    case _ => rest
  }

  /** Prepending twice is prepending the concatenation. */
  lemma PrependTwice(a: seq<Specie>, b: seq<Specie>, rest: Option<Call<seq<Specie>>>)
    ensures Prepend(a, Prepend(b, rest)) == Prepend(a + b, rest)
  {
    if rest.Some? && rest.value.Returned? {
      assert a + (b + rest.value.value) == (a + b) + rest.value.value;
    }
  }

  /** More fuel does not change a crawl that finished: the loop's outcome
      does not depend on the bound once the bound is large enough. */
  lemma {:induction false} CrawlFuelMonotone(fetch: string -> Call<seq<Specie>>, url: string, fuel: nat, more: nat)
    requires Crawl(fetch, url, fuel).Some?
    requires fuel <= more
    ensures Crawl(fetch, url, more) == Crawl(fetch, url, fuel)
    decreases fuel
  {
    if url != "" && fetch(url).Returned? && fetch(url).value != [] {
      var page := fetch(url).value;
      CrawlFuelMonotone(fetch, NextUrl(page), fuel - 1, more - 1);
    }
  }

  /** `Initialize()` as the loop the source runs: `Loading` ends false; a
      finished crawl replaces both lists with everything fetched; a raise is
      only logged. `None` when `fuel` fetches were not enough. */
  method Initialize(st: State, api: Api, fuel: nat) returns (r: Option<State>)
    ensures r.None? <==> Crawl(api.species.getList, FirstUrl, fuel).None?
    ensures r.Some? ==> !r.value.loading && r.value.currentPage == st.currentPage && r.value.itemsPerPage == st.itemsPerPage
    ensures r.Some? && Crawl(api.species.getList, FirstUrl, fuel).value.Returned? ==>
      r.value.items == Crawl(api.species.getList, FirstUrl, fuel).value.value && r.value.filtered == r.value.items
    ensures r.Some? && Crawl(api.species.getList, FirstUrl, fuel).value.Raised? ==> r.value == st.(loading := false)
  {
    var fetch := api.species.getList;
    var all: seq<Specie> := [];
    var url := FirstUrl;
    var left := fuel;
    var outcome: Option<Call<seq<Specie>>> := None;
    var start := Crawl(fetch, url, left);
    assert start.Some? && start.value.Returned? ==> [] + start.value.value == start.value.value;
    while outcome.None? && url != "" && left > 0
      invariant outcome.None? ==> Prepend(all, Crawl(fetch, url, left)) == Crawl(fetch, FirstUrl, fuel)
      invariant outcome.Some? ==> outcome == Crawl(fetch, FirstUrl, fuel)
      decreases left, outcome.None?
    {
      match fetch(url)
      case Raised =>
        outcome := Some(Raised);
      case Returned(page) =>
        if page == [] {
          outcome := Some(Returned(all));
          assert all + [] == all;
        } else {
          PrependTwice(all, page, Crawl(fetch, NextUrl(page), left - 1));
          all := all + page;
          url := NextUrl(page);
          left := left - 1;
        }
    }
    if outcome.None? && url == "" {
      assert all + [] == all;
      outcome := Some(Returned(all));
    }
    match outcome
    case None => r := None;
    case Some(fetched) => r := Some(LV.Loaded(st, fetched, None));
  }

  /** A fetch that never raises gives a crawl that never raises: it either
      runs out of fuel or returns everything fetched. */
  lemma {:induction false} CrawlNeverRaises(fetch: string -> Call<seq<Specie>>, url: string, fuel: nat)
    requires forall u :: fetch(u).Returned?
    ensures Crawl(fetch, url, fuel) != Some(Raised)
    decreases fuel
  {
    if url != "" && fuel > 0 && fetch(url).value != [] {
      CrawlNeverRaises(fetch, NextUrl(fetch(url).value), fuel - 1);
    }
  }

  /** Over the HTTP service the crawl never raises. */
  lemma CrawlOverHttpNeverRaises(net: Network, url: string, fuel: nat)
    ensures Crawl(Concrete(net).species.getList, url, fuel) != Some(Raised)
  {
    var fetch := Concrete(net).species.getList;
    assert forall u :: fetch(u) == Returned(GetListAsync(net.specieList, u));
    CrawlNeverRaises(fetch, url, fuel);
  }

  /** A first page whose last species has no URL is the whole list. */
  lemma SinglePage(fetch: string -> Call<seq<Specie>>, fuel: nat)
    requires fuel > 0 && fetch(FirstUrl).Returned? && fetch(FirstUrl).value != []
    requires fetch(FirstUrl).value[|fetch(FirstUrl).value| - 1].url.None?
    ensures Crawl(fetch, FirstUrl, fuel) == Some(Returned(fetch(FirstUrl).value))
  {
    assert fetch(FirstUrl).value + [] == fetch(FirstUrl).value;
  }

  /** `HandleSearch(query)`: keeps, in order, exactly the species whose name
      is non-empty and contains the query ignoring case, even for a blank
      query. The page goes back to 1. */
  function HandleSearch(st: State, query: string): (r: State)
    ensures r == st.(filtered := r.filtered, currentPage := 1)
    ensures r.filtered == Filter(st.items, LV.Matcher(Name, query))
    ensures forall s :: s in r.filtered <==> s in st.items && LV.NameMatches(Name(s), query)
  {
    LV.SearchMembers(st, Name, false, query);
    LV.Search(st, Name, false, query)
  }
}
