/** The list-screen state machine every `*ViewModel` repeats: the full list,
    the filtered list shown, the loading flag, the 1-based current page, the
    page size and an error message. The per-type modules instantiate it with
    their display-name field, page size and search guard. */
module ListView {
  import opened Optional
  import opened Seqs
  import opened Text
  import opened Interfaces

  /** Items per page; the settable ones are assumed positive. */
  type PageSize = k: int | k > 0 witness 1

  datatype ListState<T> = ListState(
    items: seq<T>,
    filtered: seq<T>,
    loading: bool,
    currentPage: int,
    itemsPerPage: PageSize,
    error: Option<string>)

  /** A freshly constructed view model: empty lists, loading, page 1, no error. */
  function Initial<T>(itemsPerPage: PageSize): (st: ListState<T>)
    ensures st.items == [] && st.filtered == []
    ensures st.loading && st.currentPage == 1 && st.error == None
    ensures st.itemsPerPage == itemsPerPage
  {
    ListState([], [], true, 1, itemsPerPage, None)
  }

  /** The search condition on one record: its display name is non-null,
      non-empty and contains the query, ignoring case. */
  predicate NameMatches(name: Option<string>, query: string)
  {
    name.Some? && name.value != "" && ContainsIgnoreCase(name.value, query)
  }

  function Matcher<T>(key: T -> Option<string>, query: string): T -> bool
  {
    x => NameMatches(key(x), query)
  }

  /** `HandleSearch(query)`. With `guarded`, a blank query (`IsNullOrWhiteSpace`)
      restores the full list; otherwise the full list is filtered on the
      display name. The page always goes back to 1; nothing else changes. */
  function Search<T>(st: ListState<T>, key: T -> Option<string>, guarded: bool, query: string): (r: ListState<T>)
    ensures r == st.(filtered := r.filtered, currentPage := 1)
    ensures guarded && IsBlank(query) ==> r.filtered == st.items
    ensures !(guarded && IsBlank(query)) ==> r.filtered == Filter(st.items, Matcher(key, query))
    ensures forall x :: x in r.filtered ==> x in st.items
  {
    FilterMembers(st.items, Matcher(key, query));
    var shown := if guarded && IsBlank(query) then st.items else Filter(st.items, Matcher(key, query));
    st.(filtered := shown, currentPage := 1)
  }

  /** The common `InitializeAsync` shape: `Loading` is cleared on every exit;
      a returned list becomes both the full and the filtered list; a raised
      exception leaves both lists alone and records `failure` when the view
      model has a message for it. */
  function Loaded<T>(st: ListState<T>, fetched: Call<seq<T>>, failure: Option<string>): (r: ListState<T>)
    ensures !r.loading && r.currentPage == st.currentPage && r.itemsPerPage == st.itemsPerPage
    ensures fetched.Returned? ==> r.items == fetched.value && r.filtered == fetched.value && r.error == st.error
    ensures fetched.Raised? ==> r.items == st.items && r.filtered == st.filtered
    ensures fetched.Raised? ==> r.error == if failure.Some? then failure else st.error
  {
    match fetched
    case Returned(list) => st.(items := list, filtered := list, loading := false)
    case Raised => st.(loading := false, error := if failure.Some? then failure else st.error)
  }

  /** A record is shown after a search exactly when it is in the full list
      and either the guard let a blank query through or its display name
      matches the query. */
  lemma SearchMembers<T>(st: ListState<T>, key: T -> Option<string>, guarded: bool, query: string)
    ensures forall x :: x in Search(st, key, guarded, query).filtered <==>
      x in st.items && ((guarded && IsBlank(query)) || NameMatches(key(x), query))
  {
    FilterMembers(st.items, Matcher(key, query));
    forall x
      ensures Matcher(key, query)(x) == NameMatches(key(x), query)
    {
    }
  }

  /** `(int)Math.Ceiling((double)filtered.Count / ItemsPerPage)`: the fewest
      pages that hold the filtered list. */
  function TotalPages<T>(st: ListState<T>): (n: nat)
    ensures n * st.itemsPerPage >= |st.filtered|
    ensures n == 0 || (n - 1) * st.itemsPerPage < |st.filtered|
    ensures n == 0 <==> st.filtered == []
  {
    (|st.filtered| + st.itemsPerPage - 1) / st.itemsPerPage
  }

  /** `CurrentPage == 1`. */
  predicate IsFirstPage<T>(st: ListState<T>)
  {
    st.currentPage == 1
  }

  /** `CurrentPage == TotalPages`. */
  predicate IsLastPage<T>(st: ListState<T>)
  {
    st.currentPage == TotalPages(st)
  }

  /** Where page `p` starts in the filtered list. */
  function PageStart<T>(st: ListState<T>, p: int): int
  {
    (p - 1) * st.itemsPerPage
  }

  lemma MulMonotone(a: int, b: int, k: nat)
    requires a <= b
    ensures a * k <= b * k
  {
  }

  /** Pages `1..TotalPages` start inside the filtered list; later pages start
      at or past its end. */
  lemma PageStartBounds<T>(st: ListState<T>, p: int)
    ensures 1 <= p <= TotalPages(st) ==> 0 <= PageStart(st, p) < |st.filtered|
    ensures p > TotalPages(st) ==> PageStart(st, p) >= |st.filtered|
    ensures p <= 1 ==> PageStart(st, p) <= 0
  {
    var n, k := TotalPages(st), st.itemsPerPage;
    if 1 <= p <= n {
      MulMonotone(0, p - 1, k);
      MulMonotone(p - 1, n - 1, k);
    }
    if p > n {
      MulMonotone(n, p - 1, k);
    }
    if p <= 1 {
      MulMonotone(p - 1, 0, k);
    }
  }

  /** `filtered.Skip((p - 1) * ItemsPerPage).Take(ItemsPerPage)`. */
  function PageAt<T>(st: ListState<T>, p: int): (page: seq<T>)
    ensures |page| <= st.itemsPerPage
    ensures SkipCount(PageStart(st, p)) <= |st.filtered| ==> |page| == Min(st.itemsPerPage, |st.filtered| - SkipCount(PageStart(st, p)))
    ensures SkipCount(PageStart(st, p)) >= |st.filtered| ==> page == []
    ensures forall j :: 0 <= j < |page| ==> SkipCount(PageStart(st, p)) + j < |st.filtered| && page[j] == st.filtered[SkipCount(PageStart(st, p)) + j]
  {
    Window(st.filtered, PageStart(st, p), st.itemsPerPage)
  }

  /** A page that starts inside the list is the slice from its start, clipped
      to the list; one that starts at or past the end is empty; page 1 and
      below are the first page. */
  lemma PageAtSlices<T>(st: ListState<T>, p: int)
    ensures 0 <= PageStart(st, p) <= |st.filtered| ==> PageAt(st, p) == st.filtered[PageStart(st, p)..Min(PageStart(st, p) + st.itemsPerPage, |st.filtered|)]
    ensures PageStart(st, p) >= |st.filtered| ==> PageAt(st, p) == []
    ensures p <= 1 ==> PageAt(st, p) == st.filtered[..Min(st.itemsPerPage, |st.filtered|)]
  {
    var start := PageStart(st, p);
    if p <= 1 {
      PageStartBounds(st, p);
    }
    if start <= |st.filtered| {
      WindowSlice(st.filtered, start, st.itemsPerPage);
    }
  }

  function Min(a: int, b: int): int
  {
    if a < b then a else b
  }

  /** A window that starts inside the list (or before it) is a plain slice. */
  lemma WindowSlice<T>(s: seq<T>, skip: int, take: nat)
    requires skip <= |s|
    ensures Window(s, skip, take) == s[SkipCount(skip)..Min(SkipCount(skip) + take, |s|)]
  {
  }

  /** The current page's window. */
  function Paginated<T>(st: ListState<T>): (page: seq<T>)
    ensures |page| <= st.itemsPerPage
    ensures SkipCount(PageStart(st, st.currentPage)) <= |st.filtered| ==> |page| == Min(st.itemsPerPage, |st.filtered| - SkipCount(PageStart(st, st.currentPage)))
    ensures SkipCount(PageStart(st, st.currentPage)) >= |st.filtered| ==> page == []
    ensures forall j :: 0 <= j < |page| ==> SkipCount(PageStart(st, st.currentPage)) + j < |st.filtered| && page[j] == st.filtered[SkipCount(PageStart(st, st.currentPage)) + j]
  {
    PageAt(st, st.currentPage)
  }

  /** `GoToNextPage`: moves on only while `CurrentPage < TotalPages`. */
  function NextPage<T>(st: ListState<T>): (r: ListState<T>)
    ensures r == st.(currentPage := r.currentPage)
    ensures st.currentPage < TotalPages(st) ==> r.currentPage == st.currentPage + 1
    ensures st.currentPage >= TotalPages(st) ==> r == st
  {
    if st.currentPage < TotalPages(st) then st.(currentPage := st.currentPage + 1) else st
  }

  /** `GoToPreviousPage`: moves back only while `CurrentPage > 1`. */
  function PreviousPage<T>(st: ListState<T>): (r: ListState<T>)
    ensures r == st.(currentPage := r.currentPage)
    ensures st.currentPage > 1 ==> r.currentPage == st.currentPage - 1
    ensures st.currentPage <= 1 ==> r == st
  {
    if st.currentPage > 1 then st.(currentPage := st.currentPage - 1) else st
  }

  /** The page lies in `[1, max(1, TotalPages)]`. */
  ghost predicate PageInRange<T>(st: ListState<T>)
  {
    1 <= st.currentPage && (st.currentPage <= TotalPages(st) || st.currentPage == 1)
  }

  /** Next and previous keep an in-range page in range; a search lands in range. */
  lemma NavigationKeepsRange<T>(st: ListState<T>, key: T -> Option<string>, guarded: bool, query: string)
    ensures PageInRange(st) ==> PageInRange(NextPage(st)) && PageInRange(PreviousPage(st))
    ensures PageInRange(Search(st, key, guarded, query))
  {
  }

  /** From an in-range page other than the last, previous undoes next; from
      any page past the first, next undoes previous. */
  lemma NextPreviousInverse<T>(st: ListState<T>)
    ensures 1 <= st.currentPage < TotalPages(st) ==> PreviousPage(NextPage(st)) == st
    ensures st.currentPage > 1 && PageInRange(st) ==> NextPage(PreviousPage(st)) == st
  {
  }

  /** With nothing to show: page 1 is first but not last, and next does nothing. */
  lemma EmptyListNavigation<T>(st: ListState<T>)
    requires st.filtered == [] && st.currentPage == 1
    ensures IsFirstPage(st) && !IsLastPage(st)
    ensures NextPage(st) == st && PreviousPage(st) == st
    ensures Paginated(st) == []
  {
  }

  /** The pages `1..m` laid end to end. */
  function PagesUpTo<T>(st: ListState<T>, m: nat): seq<T>
  {
    if m == 0 then [] else PagesUpTo(st, m - 1) + PageAt(st, m)
  }

  lemma PrefixSplit<T>(s: seq<T>, i: int, j: int)
    requires 0 <= i <= j <= |s|
    ensures s[..i] + s[i..j] == s[..j]
  {
  }

  lemma MulPred(m: int, k: int)
    ensures m * k == (m - 1) * k + k
  {
  }

  /** Pages `1..m` are the prefix of the filtered list they cover. */
  lemma {:induction false} PagesUpToPrefix<T>(st: ListState<T>, m: nat)
    requires m <= TotalPages(st)
    ensures PagesUpTo(st, m) == st.filtered[..Min(m * st.itemsPerPage, |st.filtered|)]
  {
    if m > 0 {
      PagesUpToPrefix(st, m - 1);
      PageStartBounds(st, m);
      PageAtSlices(st, m);
      MulPred(m, st.itemsPerPage);
      var start := PageStart(st, m);
      var stop := Min(start + st.itemsPerPage, |st.filtered|);
      assert PagesUpTo(st, m) == st.filtered[..start] + st.filtered[start..stop];
      PrefixSplit(st.filtered, start, stop);
    }
  }

  /** Pages `1..TotalPages` concatenated give back the filtered list, in order. */
  lemma PagesCoverFiltered<T>(st: ListState<T>)
    ensures PagesUpTo(st, TotalPages(st)) == st.filtered
  {
    PagesUpToPrefix(st, TotalPages(st));
  }

  /** Searching twice with the same query is searching once; the outcome
      depends only on the full list and the query. */
  lemma SearchIdempotent<T>(st: ListState<T>, key: T -> Option<string>, guarded: bool, query: string)
    ensures Search(Search(st, key, guarded, query), key, guarded, query) == Search(st, key, guarded, query)
  {
  }

  lemma SearchDependsOnItemsAndQuery<T>(st1: ListState<T>, st2: ListState<T>, key: T -> Option<string>, guarded: bool, query: string)
    requires st1.items == st2.items
    ensures Search(st1, key, guarded, query).filtered == Search(st2, key, guarded, query).filtered
  {
  }

  /** Without a guard, the empty query keeps exactly the records with a
      non-empty display name, which need not be all of them. */
  lemma EmptyQueryKeepsNamed<T>(st: ListState<T>, key: T -> Option<string>)
    ensures forall x :: x in Search(st, key, false, "").filtered <==> x in st.items && key(x).Some? && key(x).value != ""
  {
    FilterMembers(st.items, Matcher(key, ""));
    forall x | key(x).Some?
      ensures ContainsIgnoreCase(key(x).value, "")
    {
      ContainsEmpty(key(x).value);
    }
  }

  /** `url.TrimEnd('/').Split('/').Last()`: the last `/`-separated segment
      of the URL once its trailing slashes are gone. */
  function IdFromUrl(url: string): (id: string)
    ensures '/' !in id
    ensures var t := TrimEnd(url, '/');
      |id| <= |t| && id == t[|t| - |id|..] && (|id| == |t| || t[|t| - |id| - 1] == '/')
  {
    LastSegment(TrimEnd(url, '/'))
  }

  /** Taking the id of an id changes nothing. */
  lemma IdFromUrlIdempotent(url: string)
    ensures IdFromUrl(IdFromUrl(url)) == IdFromUrl(url)
  {
    var id := IdFromUrl(url);
    assert TrimEnd(id, '/') == id;
    assert LastSegment(id) == id by {
      LastSegmentNoSlash(id);
    }
  }

  lemma {:induction false} LastSegmentNoSlash(s: string)
    requires '/' !in s
    ensures LastSegment(s) == s
    decreases |s|
  {
    if |s| > 0 {
      assert s[|s| - 1] in s;
      assert '/' !in s[..|s| - 1];
      LastSegmentNoSlash(s[..|s| - 1]);
      assert s[..|s| - 1] + [s[|s| - 1]] == s;
    }
  }

  /** The id of a resource URL as the API serves it. */
  lemma IdFromUrlExample()
    ensures IdFromUrl("https://swapi.info/api/starships/9/") == "9"
  {
    var url := "https://swapi.info/api/starships/9/";
    var t := TrimEnd(url, '/');
    assert url[|url| - 1] == '/' && url[..|url| - 1] == "https://swapi.info/api/starships/9";
    assert t == "https://swapi.info/api/starships/9";
    var id := IdFromUrl(url);
    assert |id| == 1 by {
      assert t[|t| - 1] != '/' && t[|t| - 2] == '/';
    }
  }

  /** A trailing slash does not change the id. */
  lemma IdFromUrlTrailingSlash(url: string)
    ensures IdFromUrl(url + "/") == IdFromUrl(url)
  {
    assert (url + "/")[..|url + "/"| - 1] == url;
  }
}
