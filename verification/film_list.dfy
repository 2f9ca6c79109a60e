/** `FilmViewModel`: films ordered by episode, searched on `Title` (with the
    blank-query guard), six per page, with next/previous navigation. */
module FilmList {
  import opened Optional
  import opened Seqs
  import opened Text
  import opened Models
  import opened Interfaces
  import LV = ListView
  import opened SwapiService

  const ItemsPerPage: LV.PageSize := 6
  const LoadFailed: string := "Failed to load films. Please try again later."

  type State = st: LV.ListState<Film> | st.itemsPerPage == ItemsPerPage
    witness LV.ListState([], [], true, 1, ItemsPerPage, None)

  /** The display name searched: the film's title. */
  function Title(f: Film): Option<string>
  {
    f.title
  }

  /** `Comparer<int?>.Default`: `null` sorts before every episode number. */
  predicate EpisodeLe(a: Option<int>, b: Option<int>)
  {
    a.None? || (b.Some? && a.value <= b.value)
  }

  ghost predicate SortedByEpisode(s: seq<Film>)
  {
    forall i, j :: 0 <= i < j < |s| ==> EpisodeLe(s[i].episodeId, s[j].episodeId)
  }

  /** Putting a film in front of a sorted list whose episodes are all at
      least its own keeps it sorted. */
  lemma SortedCons(f: Film, s: seq<Film>)
    requires SortedByEpisode(s)
    requires forall k :: 0 <= k < |s| ==> EpisodeLe(f.episodeId, s[k].episodeId)
    ensures SortedByEpisode([f] + s)
  {
    var r := [f] + s;
    forall i, j | 0 <= i < j < |r|
      ensures EpisodeLe(r[i].episodeId, r[j].episodeId)
    {
      if i > 0 {
        assert r[i] == s[i - 1] && r[j] == s[j - 1];
      } else {
        assert r[j] == s[j - 1];
      }
    }
  }

  /** Puts `f` in front of the first film whose episode is not below its own. */
  function InsertByEpisode(f: Film, s: seq<Film>): (r: seq<Film>)
    ensures multiset(r) == multiset(s) + multiset{f}
    ensures |r| == |s| + 1
    decreases |s|
  {
    if |s| == 0 then [f]
    else if EpisodeLe(f.episodeId, s[0].episodeId) then [f] + s
    else
      assert s == [s[0]] + s[1..];
      [s[0]] + InsertByEpisode(f, s[1..])
  }

  /** Inserting into a sorted list keeps it sorted. */
  lemma {:induction false} InsertSorted(f: Film, s: seq<Film>)
    requires SortedByEpisode(s)
    ensures SortedByEpisode(InsertByEpisode(f, s))
    decreases |s|
  {
    if |s| > 0 {
      if EpisodeLe(f.episodeId, s[0].episodeId) {
        SortedCons(f, s);
      } else {
        var rest := InsertByEpisode(f, s[1..]);
        InsertSorted(f, s[1..]);
        assert s == [s[0]] + s[1..];
        forall k | 0 <= k < |rest|
          ensures EpisodeLe(s[0].episodeId, rest[k].episodeId)
        {
          assert rest[k] in multiset(rest);
          if rest[k] != f {
            assert rest[k] in multiset(s[1..]);
            var j :| 0 <= j < |s[1..]| && s[1..][j] == rest[k];
            assert s[j + 1] == rest[k];
          }
        }
        SortedCons(s[0], rest);
      }
    }
  }

  /** `OrderBy(f => f.EpisodeId)`: an insertion sort, stable because each
      film goes in front of every later film with the same episode. */
  function OrderByEpisode(s: seq<Film>): (r: seq<Film>)
    ensures SortedByEpisode(r)
    ensures multiset(r) == multiset(s)
    ensures |r| == |s|
    decreases |s|
  {
    if |s| == 0 then []
    else
      assert s == [s[0]] + s[1..];
      InsertSorted(s[0], OrderByEpisode(s[1..]));
      InsertByEpisode(s[0], OrderByEpisode(s[1..]))
  }

  function EpisodeIs(e: Option<int>): Film -> bool
  {
    (f: Film) => f.episodeId == e
  }

  /** Either of two sequences being empty lets them trade places. */
  lemma SwapPastEmpty<T>(a: seq<T>, b: seq<T>, c: seq<T>)
    requires a == [] || b == []
    ensures a + (b + c) == b + (a + c)
  {
    if a == [] {
      assert a + (b + c) == b + c == b + (a + c);
    } else {
      assert a + (b + c) == a + c == b + (a + c);
    }
  }

  /** One step of the insertion: `g`, whose episode differs from `f`'s, goes
      in front of the rest, which already has `f` ahead of `s`. */
  lemma InsertStep(f: Film, g: Film, ins: seq<Film>, s: seq<Film>, e: Option<int>)
    requires f.episodeId != g.episodeId
    requires Filter(ins, EpisodeIs(e)) == Filter([f], EpisodeIs(e)) + Filter(s, EpisodeIs(e))
    ensures Filter([g] + ins, EpisodeIs(e)) == Filter([f], EpisodeIs(e)) + Filter([g] + s, EpisodeIs(e))
  {
    var p := EpisodeIs(e);
    var fp, gp, rest := Filter([f], p), Filter([g], p), Filter(s, p);
    assert Filter([g] + ins, p) == gp + (fp + rest) by {
      FilterConcat([g], ins, p);
    }
    assert Filter([g] + s, p) == gp + rest by {
      FilterConcat([g], s, p);
    }
    assert gp == [] || fp == [] by {
      FilterSingleton(f, p);
      FilterSingleton(g, p);
    }
    SwapPastEmpty(gp, fp, rest);
  }

  /** Inserting `f` leaves every episode's films in order, with `f` ahead of
      the films already there. */
  lemma {:induction false} InsertKeepsEpisodeOrder(f: Film, s: seq<Film>, e: Option<int>)
    ensures Filter(InsertByEpisode(f, s), EpisodeIs(e)) == Filter([f], EpisodeIs(e)) + Filter(s, EpisodeIs(e))
    decreases |s|
  {
    if |s| == 0 {
      assert [f] + s == [f];
    } else if EpisodeLe(f.episodeId, s[0].episodeId) {
      FilterConcat([f], s, EpisodeIs(e));
    } else {
      var ins := InsertByEpisode(f, s[1..]);
      assert InsertByEpisode(f, s) == [s[0]] + ins;
      assert [s[0]] + s[1..] == s;
      InsertKeepsEpisodeOrder(f, s[1..], e);
      InsertStep(f, s[0], ins, s[1..], e);
    }
  }

  /** The sort is stable: films of any one episode keep their fetched order. */
  lemma {:induction false} OrderByEpisodeStable(s: seq<Film>, e: Option<int>)
    ensures Filter(OrderByEpisode(s), EpisodeIs(e)) == Filter(s, EpisodeIs(e))
    decreases |s|
  {
    if |s| > 0 {
      OrderByEpisodeStable(s[1..], e);
      InsertKeepsEpisodeOrder(s[0], OrderByEpisode(s[1..]), e);
      assert s == [s[0]] + s[1..];
      FilterConcat([s[0]], s[1..], EpisodeIs(e));
    }
  }

  /** `InitializeAsync`: `Loading` ends false on every path. A returned list is
      stored in episode order as both `Films` and `FilteredFilms`; an exception
      sets the load-failure message and leaves both lists as they were. The
      error message changes only in that case, and the page is not reset. */
  function InitializeAsync(st: State, api: Api): (r: State)
    ensures !r.loading && r.currentPage == st.currentPage
    ensures api.films.getList("films").Returned? ==>
      && r.items == OrderByEpisode(api.films.getList("films").value)
      && r.filtered == r.items
      && r.error == st.error
    ensures api.films.getList("films").Raised? ==>
      r.items == st.items && r.filtered == st.filtered && r.error == Some(LoadFailed)
  {
    var fetched := match api.films.getList("films")
      case Returned(list) => Returned(OrderByEpisode(list))
      case Raised => Raised;
    LV.Loaded(st, fetched, Some(LoadFailed))
  }

  /** After a successful load the films are a permutation of the fetched list
      in ascending episode order, with each episode's films in fetched order. */
  lemma LoadedFilmsOrdered(st: State, api: Api, e: Option<int>)
    requires api.films.getList("films").Returned?
    ensures SortedByEpisode(InitializeAsync(st, api).items)
    ensures multiset(InitializeAsync(st, api).items) == multiset(api.films.getList("films").value)
    ensures Filter(InitializeAsync(st, api).items, EpisodeIs(e)) == Filter(api.films.getList("films").value, EpisodeIs(e))
  {
    OrderByEpisodeStable(api.films.getList("films").value, e);
  }

  /** Over the HTTP service the load cannot fail: the films are the fetched
      list (empty when the request failed) in episode order, and the error
      message is untouched. */
  lemma LoadOverHttp(st: State, net: Network)
    ensures InitializeAsync(st, Concrete(net)).items == OrderByEpisode(GetListAsync(net.filmList, "films"))
    ensures InitializeAsync(st, Concrete(net)).error == st.error
  {
  }

  /** `HandleSearch(query)`: a blank query shows every film; any other keeps,
      in order, exactly the films whose title is non-empty and contains the
      query ignoring case. The page goes back to 1. */
  function HandleSearch(st: State, query: string): (r: State)
    ensures r.items == st.items && r.currentPage == 1 && r.loading == st.loading && r.error == st.error
    ensures IsBlank(query) ==> r.filtered == st.items
    ensures !IsBlank(query) ==> r.filtered == Filter(st.items, LV.Matcher(Title, query))
    ensures forall f :: f in r.filtered <==> f in st.items && (IsBlank(query) || LV.NameMatches(Title(f), query))
  {
    LV.SearchMembers(st, Title, true, query);
    LV.Search(st, Title, true, query)
  }

  /** `TotalPages`: the ceiling of the filtered count over six. */
  function TotalPages(st: State): (n: nat)
    ensures n * 6 >= |st.filtered| && (n == 0 || (n - 1) * 6 < |st.filtered|)
  {
    LV.TotalPages(st)
  }

  /** `PaginatedFilms`: at most six films, consecutive in the filtered list,
      starting at `(CurrentPage - 1) * 6` (from 0 when that is negative). */
  function PaginatedFilms(st: State): (page: seq<Film>)
    ensures |page| <= 6
    ensures SkipCount((st.currentPage - 1) * 6) <= |st.filtered| ==> |page| == LV.Min(6, |st.filtered| - SkipCount((st.currentPage - 1) * 6))
    ensures SkipCount((st.currentPage - 1) * 6) >= |st.filtered| ==> page == []
    ensures forall j :: 0 <= j < |page| ==> SkipCount((st.currentPage - 1) * 6) + j < |st.filtered| && page[j] == st.filtered[SkipCount((st.currentPage - 1) * 6) + j]
  {
    LV.Paginated(st)
  }
}
