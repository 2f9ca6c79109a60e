/** `PlanetDetailsViewModel`: one planet, the films it appears in and its
    residents. Both reference lists are fetched together and assigned only
    once both have completed. */
module PlanetDetails {
  import opened Optional
  import opened Models
  import opened Interfaces
  import opened SwapiService

  const NotFound: string := "Planet not found."
  const LoadFailed: string := "Failed to load Planet details or does not exist."

  datatype State = State(
    planet: Option<Planet>,
    films: seq<Film>,
    residents: seq<Person>,
    loading: bool,
    error: Option<string>)

  /** A new view model: nothing loaded, not loading, no message. */
  function Create(): (st: State)
    ensures st.planet == None && st.films == [] && st.residents == []
    ensures !st.loading && st.error == None
  {
    State(None, [], [], false, None)
  }

  /** The path of one planet: `planets/{id}`. */
  function PlanetPath(id: string): (path: string)
    ensures |path| == 8 + |id| && path[..8] == "planets/" && path[8..] == id
  {
    "planets/" + id
  }

  /** `InitializeAsync(id)`. It starts by clearing the message and the
      planet. An absent planet sets the not-found message and fetches
      nothing; a found planet is stored and its films and residents (an
      absent list read as empty) resolved together, both assigned when both
      calls returned. Any exception sets the failure message and changes no
      collection. `Loading` ends false. */
  function InitializeAsync(st: State, api: Api, id: string): (r: State)
    ensures !r.loading
    ensures api.planets.get(PlanetPath(id)).Raised? ==>
      r == st.(planet := None, loading := false, error := Some(LoadFailed))
    ensures api.planets.get(PlanetPath(id)) == Returned(None) ==>
      r == st.(planet := None, loading := false, error := Some(NotFound))
    ensures api.planets.get(PlanetPath(id)).Returned? && api.planets.get(PlanetPath(id)).value.Some? ==>
      var p := api.planets.get(PlanetPath(id)).value.value;
      var films, residents := api.films.getMany(UrlsOf(p.films)), api.people.getMany(UrlsOf(p.residents));
      if films.Returned? && residents.Returned? then
        r == State(Some(p), films.value, residents.value, false, None)
      else
        r == st.(planet := Some(p), loading := false, error := Some(LoadFailed))
  {
    var st := st.(loading := true, error := None, planet := None);
    var r := match api.planets.get(PlanetPath(id))
      case Raised => st.(error := Some(LoadFailed))
      case Returned(None) => st.(error := Some(NotFound))
      case Returned(Some(p)) =>
        var st := st.(planet := Some(p));
        match (api.films.getMany(UrlsOf(p.films)), api.people.getMany(UrlsOf(p.residents)))
        case (Returned(films), Returned(residents)) => st.(films := films, residents := residents)
        case _ => st.(error := Some(LoadFailed));
    r.(loading := false)
  }

  /** The message tells the outcomes apart: the not-found message exactly
      when the planet was absent, no message exactly when the planet and
      both collections were fetched, and never a missing planet without a
      message. */
  lemma MessageTellsOutcome(st: State, api: Api, id: string)
    ensures var r, got := InitializeAsync(st, api, id), api.planets.get(PlanetPath(id));
      && (r.error == Some(NotFound) <==> got == Returned(None))
      && (r.error == None <==>
            && got.Returned? && got.value.Some?
            && api.films.getMany(UrlsOf(got.value.value.films)).Returned?
            && api.people.getMany(UrlsOf(got.value.value.residents)).Returned?)
      && (r.planet.None? ==> r.error.Some?)
  {
  }

  /** Over the HTTP service the failure message never appears: a planet not
      found gives the not-found message, and a found planet has both
      collections resolved best-effort, each no longer than its URL list. */
  lemma LoadOverHttp(st: State, net: Network, id: string)
    ensures var r := InitializeAsync(st, Concrete(net), id);
      && r.error != Some(LoadFailed)
      && r.planet == GetAsync(net.planet, PlanetPath(id))
      && (r.planet.None? ==> r.error == Some(NotFound))
      && (r.planet.Some? ==>
        && r.error == None
        && r.films == GetManyAsync(net.film, UrlsOf(r.planet.value.films))
        && r.residents == GetManyAsync(net.person, UrlsOf(r.planet.value.residents))
        && |r.films| <= |UrlsOf(r.planet.value.films)|
        && |r.residents| <= |UrlsOf(r.planet.value.residents)|)
  {
    var api := Concrete(net);
    assert api.planets.get(PlanetPath(id)) == Returned(GetAsync(net.planet, PlanetPath(id)));
    var got := GetAsync(net.planet, PlanetPath(id));
    if got.Some? {
      var p := got.value;
      assert api.films.getMany(UrlsOf(p.films)) == Returned(GetManyAsync(net.film, UrlsOf(p.films)));
      assert api.people.getMany(UrlsOf(p.residents)) == Returned(GetManyAsync(net.person, UrlsOf(p.residents)));
    }
  }
}
