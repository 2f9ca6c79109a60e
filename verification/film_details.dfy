/** `FilmDetailsViewModel`: one film and the people, starships, planets and
    species it references. The four reference lists are resolved one after
    another, so an exception part-way keeps the collections already
    assigned. */
module FilmDetails {
  import opened Optional
  import opened Models
  import opened Interfaces
  import opened SwapiService

  const NotFound: string := "Film details not found."
  const LoadFailed: string := "Failed to load Film details or does not exist."

  datatype State = State(
    film: Option<Film>,
    characters: seq<Person>,
    starships: seq<Starship>,
    planets: seq<Planet>,
    species: seq<Specie>,
    loading: bool,
    error: Option<string>)

  /** A new view model: no film, empty collections, loading, no message. */
  function Create(): (st: State)
    ensures st.film == None && st.error == None && st.loading
    ensures st.characters == [] && st.starships == [] && st.planets == [] && st.species == []
  {
    State(None, [], [], [], [], true, None)
  }

  /** The path of one film: `films/{id}`. */
  function FilmPath(id: string): (path: string)
    ensures |path| == 6 + |id| && path[..6] == "films/" && path[6..] == id
  {
    "films/" + id
  }

  /** The `try` block after the film was found: four `GetManyAsync` calls
      awaited in turn, the first exception ending the block. */
  function Resolve(st: State, api: Api, f: Film): (r: State)
  {
    match api.people.getMany(UrlsOf(f.characters))
    case Raised => st.(error := Some(LoadFailed))
    case Returned(characters) =>
      var st := st.(characters := characters);
      match api.starships.getMany(UrlsOf(f.starships))
      case Raised => st.(error := Some(LoadFailed))
      case Returned(starships) =>
        var st := st.(starships := starships);
        match api.planets.getMany(UrlsOf(f.planets))
        case Raised => st.(error := Some(LoadFailed))
        case Returned(planets) =>
          var st := st.(planets := planets);
          match api.species.getMany(UrlsOf(f.species))
          case Raised => st.(error := Some(LoadFailed))
          case Returned(species) => st.(species := species)
  }

  /** `InitializeAsync(id)`. It starts by clearing the message and the film.
      An absent film sets the not-found message and fetches nothing; a found
      film is stored and its references resolved in the order characters,
      starships, planets, species; an exception sets the failure message
      and keeps what was assigned before it. `Loading` ends false. */
  function InitializeAsync(st: State, api: Api, id: string): (r: State)
    ensures !r.loading
    ensures api.films.get(FilmPath(id)).Raised? ==>
      r == st.(film := None, loading := false, error := Some(LoadFailed))
    ensures api.films.get(FilmPath(id)) == Returned(None) ==>
      r == st.(film := None, loading := false, error := Some(NotFound))
    ensures api.films.get(FilmPath(id)).Returned? && api.films.get(FilmPath(id)).value.Some? ==>
      var f := api.films.get(FilmPath(id)).value.value;
      var chars, ships := api.people.getMany(UrlsOf(f.characters)), api.starships.getMany(UrlsOf(f.starships));
      var planets, species := api.planets.getMany(UrlsOf(f.planets)), api.species.getMany(UrlsOf(f.species));
      && r.film == Some(f)
      && r.characters == (if chars.Returned? then chars.value else st.characters)
      && r.starships == (if chars.Returned? && ships.Returned? then ships.value else st.starships)
      && r.planets == (if chars.Returned? && ships.Returned? && planets.Returned? then planets.value else st.planets)
      && r.species == (if chars.Returned? && ships.Returned? && planets.Returned? && species.Returned? then species.value else st.species)
      && r.error == (if chars.Returned? && ships.Returned? && planets.Returned? && species.Returned? then None else Some(LoadFailed))
  {
    var st := st.(loading := true, error := None, film := None);
    var r := match api.films.get(FilmPath(id))
      case Raised => st.(error := Some(LoadFailed))
      case Returned(None) => st.(error := Some(NotFound))
      case Returned(Some(f)) => Resolve(st.(film := Some(f)), api, f);
    r.(loading := false)
  }

  /** Over the HTTP service nothing raises: the failure message never
      appears, an absent film gives the not-found message, and a found film
      has every reference list resolved best-effort, each collection no
      longer than its URL list. */
  lemma LoadOverHttp(st: State, net: Network, id: string)
    ensures var r := InitializeAsync(st, Concrete(net), id);
      && r.error != Some(LoadFailed)
      && r.film == GetAsync(net.film, FilmPath(id))
      && (r.film.None? ==> r.error == Some(NotFound))
      && (r.film.Some? ==>
        && r.error == None
        && r.characters == GetManyAsync(net.person, UrlsOf(r.film.value.characters))
        && r.starships == GetManyAsync(net.starship, UrlsOf(r.film.value.starships))
        && r.planets == GetManyAsync(net.planet, UrlsOf(r.film.value.planets))
        && r.species == GetManyAsync(net.specie, UrlsOf(r.film.value.species))
        && |r.characters| <= |UrlsOf(r.film.value.characters)|
        && |r.starships| <= |UrlsOf(r.film.value.starships)|
        && |r.planets| <= |UrlsOf(r.film.value.planets)|
        && |r.species| <= |UrlsOf(r.film.value.species)|)
  {
    var api := Concrete(net);
    assert api.films.get(FilmPath(id)) == Returned(GetAsync(net.film, FilmPath(id)));
    var got := GetAsync(net.film, FilmPath(id));
    if got.Some? {
      var f := got.value;
      assert api.people.getMany(UrlsOf(f.characters)) == Returned(GetManyAsync(net.person, UrlsOf(f.characters)));
      assert api.starships.getMany(UrlsOf(f.starships)) == Returned(GetManyAsync(net.starship, UrlsOf(f.starships)));
      assert api.planets.getMany(UrlsOf(f.planets)) == Returned(GetManyAsync(net.planet, UrlsOf(f.planets)));
      assert api.species.getMany(UrlsOf(f.species)) == Returned(GetManyAsync(net.specie, UrlsOf(f.species)));
    }
  }

  /** The outcome depends on the request only, not on a film or message left
      over from an earlier load. */
  lemma LoadForgetsPreviousFilm(st1: State, st2: State, api: Api, id: string)
    requires st1.characters == st2.characters && st1.starships == st2.starships
    requires st1.planets == st2.planets && st1.species == st2.species
    ensures InitializeAsync(st1, api, id) == InitializeAsync(st2, api, id)
  {
  }
}
