/** `PeopleDetailViewModel`: one person and the films, starships and species
    they reference. The three reference lists are fetched together and
    assigned only once all three have completed. There is no error message,
    and `Loading` is never set back to true. */
module PeopleDetail {
  import opened Optional
  import opened Models
  import opened Interfaces
  import opened SwapiService

  /** The collections are `null` until the first successful resolution. */
  datatype State = State(
    person: Option<Person>,
    films: Option<seq<Film>>,
    starships: Option<seq<Starship>>,
    species: Option<seq<Specie>>,
    loading: bool)

  /** A new view model: nothing loaded, collections `null`, loading. */
  function Create(): (st: State)
    ensures st.person == None && st.films == None && st.starships == None && st.species == None
    ensures st.loading
  {
    State(None, None, None, None, true)
  }

  /** The path of one person: `people/{id}`. */
  function PersonPath(id: string): (path: string)
    ensures |path| == 7 + |id| && path[..7] == "people/" && path[7..] == id
  {
    "people/" + id
  }

  /** `Initialize(id)`. `Person` becomes the fetched record, absent or not;
      an exception from that fetch leaves it as it was. A present person has
      its three reference lists (an absent list read as empty) resolved
      together: all three collections are assigned when every call returned,
      none when any raised. Exceptions are swallowed and `Loading` ends
      false; an absent person changes no collection. */
  function Initialize(st: State, api: Api, id: string): (r: State)
    ensures !r.loading
    ensures api.people.get(PersonPath(id)).Raised? ==> r == st.(loading := false)
    ensures api.people.get(PersonPath(id)) == Returned(None) ==> r == st.(person := None, loading := false)
    ensures api.people.get(PersonPath(id)).Returned? && api.people.get(PersonPath(id)).value.Some? ==>
      var p := api.people.get(PersonPath(id)).value.value;
      var films, ships, species := api.films.getMany(UrlsOf(p.films)), api.starships.getMany(UrlsOf(p.starships)), api.species.getMany(UrlsOf(p.species));
      if films.Returned? && ships.Returned? && species.Returned? then
        r == State(Some(p), Some(films.value), Some(ships.value), Some(species.value), false)
      else
        r == st.(person := Some(p), loading := false)
  {
    var r := match api.people.get(PersonPath(id))
      case Raised => st
      case Returned(None) => st.(person := None)
      case Returned(Some(p)) =>
        var st := st.(person := Some(p));
        match (api.films.getMany(UrlsOf(p.films)), api.starships.getMany(UrlsOf(p.starships)), api.species.getMany(UrlsOf(p.species)))
        case (Returned(films), Returned(ships), Returned(species)) =>
          st.(films := Some(films), starships := Some(ships), species := Some(species))
        case _ => st;
    r.(loading := false)
  }

  /** The three collections are assigned together or not at all. */
  lemma CollectionsAssignedTogether(st: State, api: Api, id: string)
    ensures var r := Initialize(st, api, id);
      || (r.films == st.films && r.starships == st.starships && r.species == st.species)
      || (r.person.Some? && r.films.Some? && r.starships.Some? && r.species.Some?)
  {
  }

  /** Over the HTTP service a found person has all three collections
      resolved best-effort, each no longer than its URL list; a person not
      found on a first load leaves them `null`. */
  lemma LoadOverHttp(st: State, net: Network, id: string)
    ensures var r := Initialize(st, Concrete(net), id);
      && r.person == GetAsync(net.person, PersonPath(id))
      && (r.person.None? ==> r.films == st.films && r.starships == st.starships && r.species == st.species)
      && (r.person.Some? ==>
        && r.films == Some(GetManyAsync(net.film, UrlsOf(r.person.value.films)))
        && r.starships == Some(GetManyAsync(net.starship, UrlsOf(r.person.value.starships)))
        && r.species == Some(GetManyAsync(net.specie, UrlsOf(r.person.value.species)))
        && |r.films.value| <= |UrlsOf(r.person.value.films)|
        && |r.starships.value| <= |UrlsOf(r.person.value.starships)|
        && |r.species.value| <= |UrlsOf(r.person.value.species)|)
    ensures GetAsync(net.person, PersonPath(id)).None? ==>
      var r := Initialize(Create(), Concrete(net), id);
      r.films == None && r.starships == None && r.species == None
  {
    var api := Concrete(net);
    assert api.people.get(PersonPath(id)) == Returned(GetAsync(net.person, PersonPath(id)));
    var got := GetAsync(net.person, PersonPath(id));
    if got.Some? {
      var p := got.value;
      assert api.films.getMany(UrlsOf(p.films)) == Returned(GetManyAsync(net.film, UrlsOf(p.films)));
      assert api.starships.getMany(UrlsOf(p.starships)) == Returned(GetManyAsync(net.starship, UrlsOf(p.starships)));
      assert api.species.getMany(UrlsOf(p.species)) == Returned(GetManyAsync(net.specie, UrlsOf(p.species)));
    }
  }
}
