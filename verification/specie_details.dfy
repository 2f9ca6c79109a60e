/** `SpecieDetailsViewModel`: one species, the films it appears in and the
    people belonging to it. Both reference lists are fetched together and
    assigned only once both have completed. */
module SpecieDetails {
  import opened Optional
  import opened Models
  import opened Interfaces
  import opened SwapiService

  const NotFound: string := "Species not found."
  const LoadFailed: string := "Failed to load Specie details or does not exist."

  datatype State = State(
    species: Option<Specie>,
    films: seq<Film>,
    people: seq<Person>,
    loading: bool,
    error: Option<string>)

  /** A new view model: nothing loaded, not loading, no message. */
  function Create(): (st: State)
    ensures st.species == None && st.films == [] && st.people == []
    ensures !st.loading && st.error == None
  {
    State(None, [], [], false, None)
  }

  /** The path of one species: `species/{speciesId}`. */
  function SpeciesPath(speciesId: string): (path: string)
    ensures |path| == 8 + |speciesId| && path[..8] == "species/" && path[8..] == speciesId
  {
    "species/" + speciesId
  }

  /** `InitializeAsync(speciesId)`. It sets `Loading`, then clears the
      message and the species. An absent species sets the not-found message
      and fetches nothing; a found one is stored and its films and people (an
      absent list read as empty) resolved together, both assigned when both
      calls returned. Any exception sets the failure message and changes no
      collection. `Loading` ends false. */
  function InitializeAsync(st: State, api: Api, speciesId: string): (r: State)
    ensures !r.loading
    ensures api.species.get(SpeciesPath(speciesId)).Raised? ==>
      r == st.(species := None, loading := false, error := Some(LoadFailed))
    ensures api.species.get(SpeciesPath(speciesId)) == Returned(None) ==>
      r == st.(species := None, loading := false, error := Some(NotFound))
    ensures api.species.get(SpeciesPath(speciesId)).Returned? && api.species.get(SpeciesPath(speciesId)).value.Some? ==>
      var s := api.species.get(SpeciesPath(speciesId)).value.value;
      var films, people := api.films.getMany(UrlsOf(s.films)), api.people.getMany(UrlsOf(s.people));
      if films.Returned? && people.Returned? then
        r == State(Some(s), films.value, people.value, false, None)
      else
        r == st.(species := Some(s), loading := false, error := Some(LoadFailed))
  {
    var st := st.(loading := true);
    var st := st.(error := None, species := None);
    var r := match api.species.get(SpeciesPath(speciesId))
      case Raised => st.(error := Some(LoadFailed))
      case Returned(None) => st.(error := Some(NotFound))
      case Returned(Some(s)) =>
        var st := st.(species := Some(s));
        match (api.films.getMany(UrlsOf(s.films)), api.people.getMany(UrlsOf(s.people)))
        case (Returned(films), Returned(people)) => st.(films := films, people := people)
        case _ => st.(error := Some(LoadFailed));
    r.(loading := false)
  }

  /** The two collections are assigned together or not at all. */
  lemma CollectionsAssignedTogether(st: State, api: Api, speciesId: string)
    ensures var r := InitializeAsync(st, api, speciesId);
      || (r.films == st.films && r.people == st.people)
      || (r.species.Some? && r.error == None)
  {
  }

  /** Over the HTTP service the failure message never appears: a species not
      found gives the not-found message, and a found one has both
      collections resolved best-effort, each no longer than its URL list. */
  lemma LoadOverHttp(st: State, net: Network, speciesId: string)
    ensures var r := InitializeAsync(st, Concrete(net), speciesId);
      && r.error != Some(LoadFailed)
      && r.species == GetAsync(net.specie, SpeciesPath(speciesId))
      && (r.species.None? ==> r.error == Some(NotFound))
      && (r.species.Some? ==>
        && r.error == None
        && r.films == GetManyAsync(net.film, UrlsOf(r.species.value.films))
        && r.people == GetManyAsync(net.person, UrlsOf(r.species.value.people))
        && |r.films| <= |UrlsOf(r.species.value.films)|
        && |r.people| <= |UrlsOf(r.species.value.people)|)
  {
    var api := Concrete(net);
    assert api.species.get(SpeciesPath(speciesId)) == Returned(GetAsync(net.specie, SpeciesPath(speciesId)));
    var got := GetAsync(net.specie, SpeciesPath(speciesId));
    if got.Some? {
      var s := got.value;
      assert api.films.getMany(UrlsOf(s.films)) == Returned(GetManyAsync(net.film, UrlsOf(s.films)));
      assert api.people.getMany(UrlsOf(s.people)) == Returned(GetManyAsync(net.person, UrlsOf(s.people)));
    }
  }
}
