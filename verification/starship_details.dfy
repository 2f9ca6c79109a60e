/** `StarShipDetailsViewModel`: one starship, its pilots and the films it
    appears in. There is no not-found branch, and the error message is never
    cleared, so an earlier failure stays on screen through later loads. */
module StarshipDetails {
  import opened Optional
  import opened Models
  import opened Interfaces
  import opened SwapiService

  const LoadFailed: string := "Failed to load Starship details or does not exist."

  datatype State = State(
    starship: Option<Starship>,
    pilots: seq<Pilot>,
    films: seq<Film>,
    loading: bool,
    error: Option<string>)

  /** A new view model: nothing loaded, loading, no message. */
  function Create(): (st: State)
    ensures st.starship == None && st.pilots == [] && st.films == []
    ensures st.loading && st.error == None
  {
    State(None, [], [], true, None)
  }

  /** The path of one starship: `starships/{id}`. */
  function StarshipPath(id: string): (path: string)
    ensures |path| == 10 + |id| && path[..10] == "starships/" && path[10..] == id
  {
    "starships/" + id
  }

  /** `Starship?.Pilots ?? new List<string>()` and the same for films: an
      absent starship or an absent list is no references. */
  function PilotUrls(s: Option<Starship>): (urls: seq<string>)
    ensures s.None? ==> urls == []
    ensures s.Some? ==> urls == UrlsOf(s.value.pilots)
  {
    if s.Some? then UrlsOf(s.value.pilots) else []
  }

  function FilmUrls(s: Option<Starship>): (urls: seq<string>)
    ensures s.None? ==> urls == []
    ensures s.Some? ==> urls == UrlsOf(s.value.films)
  {
    if s.Some? then UrlsOf(s.value.films) else []
  }

  /** `InitializeAsync(id)`. `Starship` becomes the fetched record, absent or
      not (an exception from that fetch leaves it as it was); its pilots and
      films are then resolved together, both assigned when both calls
      returned. Any exception sets the failure message and changes no
      collection; nothing ever clears the message. `Loading` ends false. */
  function InitializeAsync(st: State, api: Api, id: string): (r: State)
    ensures !r.loading
    ensures api.starships.get(StarshipPath(id)).Raised? ==>
      r == st.(loading := false, error := Some(LoadFailed))
    ensures api.starships.get(StarshipPath(id)).Returned? ==>
      var s := api.starships.get(StarshipPath(id)).value;
      var pilots, films := api.pilots.getMany(PilotUrls(s)), api.films.getMany(FilmUrls(s));
      if pilots.Returned? && films.Returned? then
        r == st.(starship := s, pilots := pilots.value, films := films.value, loading := false)
      else
        r == st.(starship := s, loading := false, error := Some(LoadFailed))
  {
    var st := st.(loading := true);
    var r := match api.starships.get(StarshipPath(id))
      case Raised => st.(error := Some(LoadFailed))
      case Returned(s) =>
        var st := st.(starship := s);
        match (api.pilots.getMany(PilotUrls(s)), api.films.getMany(FilmUrls(s)))
        case (Returned(pilots), Returned(films)) => st.(pilots := pilots, films := films)
        case _ => st.(error := Some(LoadFailed));
    r.(loading := false)
  }

  /** The message is sticky: once set, every later load keeps it, whether or
      not that load succeeds. */
  lemma ErrorPersists(st: State, api: Api, id: string)
    requires st.error == Some(LoadFailed)
    ensures InitializeAsync(st, api, id).error == Some(LoadFailed)
  {
  }

  /** A load that fails and then one that succeeds still shows the failure. */
  lemma FailureSurvivesRecovery(st: State, failing: Api, working: Api, id: string)
    requires failing.starships.get(StarshipPath(id)).Raised?
    ensures InitializeAsync(InitializeAsync(st, failing, id), working, id).error == Some(LoadFailed)
  {
  }

  /** Over the HTTP service a load never raises: the message is left as it
      was, a starship that is not found empties both collections, and a found
      one has both resolved best-effort, each no longer than its URL list. */
  lemma LoadOverHttp(st: State, net: Network, id: string)
    ensures var r := InitializeAsync(st, Concrete(net), id);
      && r.error == st.error
      && r.starship == GetAsync(net.starship, StarshipPath(id))
      && (r.starship.None? ==> r.pilots == [] && r.films == [])
      && (r.starship.Some? ==>
        && r.pilots == GetManyAsync(net.pilot, UrlsOf(r.starship.value.pilots))
        && r.films == GetManyAsync(net.film, UrlsOf(r.starship.value.films))
        && |r.pilots| <= |UrlsOf(r.starship.value.pilots)|
        && |r.films| <= |UrlsOf(r.starship.value.films)|)
  {
    var api := Concrete(net);
    assert api.starships.get(StarshipPath(id)) == Returned(GetAsync(net.starship, StarshipPath(id)));
    var got := GetAsync(net.starship, StarshipPath(id));
    assert api.pilots.getMany(PilotUrls(got)) == Returned(GetManyAsync(net.pilot, PilotUrls(got)));
    assert api.films.getMany(FilmUrls(got)) == Returned(GetManyAsync(net.film, FilmUrls(got)));
  }
}
