/** `VehicleDetailViewModel`: one vehicle, its pilots and the films it
    appears in. Each reference list is fetched only when it is present and
    non-empty, pilots before films. The error message is never cleared. */
module VehicleDetail {
  import opened Optional
  import opened Models
  import opened Interfaces
  import opened SwapiService

  const LoadFailed: string := "Failed to load Vehicle details or does not exist."

  datatype State = State(
    vehicle: Option<Vehicle>,
    pilots: seq<Pilot>,
    films: seq<Film>,
    loading: bool,
    error: Option<string>)

  /** A new view model: nothing loaded, loading, no message. */
  function Create(): (st: State)
    ensures st.vehicle == None && st.pilots == [] && st.films == []
    ensures st.loading && st.error == None
  {
    State(None, [], [], true, None)
  }

  /** The path of one vehicle: `vehicles/{id}`. */
  function VehiclePath(id: string): (path: string)
    ensures |path| == 9 + |id| && path[..9] == "vehicles/" && path[9..] == id
  {
    "vehicles/" + id
  }

  /** `refs?.Any() == true ? await GetManyAsync(refs) : new List()`: the call
      is made only for a present, non-empty list; otherwise the collection is
      empty and nothing is fetched. */
  function FetchIfAny<T>(refs: Refs, getMany: seq<string> -> Call<seq<T>>): (r: Call<seq<T>>)
    ensures refs.Some? && refs.value != [] ==> r == getMany(refs.value)
    ensures refs.None? || refs.value == [] ==> r == Returned([])
  {
    if refs.Some? && refs.value != [] then getMany(refs.value) else Returned([])
  }

  /** `InitializeAsync(id)`. `Vehicle` becomes the fetched record, absent or
      not (an exception from that fetch leaves it as it was). An absent
      vehicle changes nothing else. A present one gets its pilots and then
      its films, each fetched only when its list is non-empty; an exception
      sets the failure message and keeps what was assigned before it.
      Nothing ever clears the message. `Loading` ends false. */
  function InitializeAsync(st: State, api: Api, id: string): (r: State)
    ensures !r.loading
    ensures api.vehicles.get(VehiclePath(id)).Raised? ==>
      r == st.(loading := false, error := Some(LoadFailed))
    ensures api.vehicles.get(VehiclePath(id)) == Returned(None) ==>
      r == st.(vehicle := None, loading := false)
    ensures api.vehicles.get(VehiclePath(id)).Returned? && api.vehicles.get(VehiclePath(id)).value.Some? ==>
      var v := api.vehicles.get(VehiclePath(id)).value.value;
      var pilots, films := FetchIfAny(v.pilots, api.pilots.getMany), FetchIfAny(v.films, api.films.getMany);
      && r.vehicle == Some(v)
      && r.pilots == (if pilots.Returned? then pilots.value else st.pilots)
      && r.films == (if pilots.Returned? && films.Returned? then films.value else st.films)
      && r.error == (if pilots.Returned? && films.Returned? then st.error else Some(LoadFailed))
  {
    var st := st.(loading := true);
    var r := match api.vehicles.get(VehiclePath(id))
      case Raised => st.(error := Some(LoadFailed))
      case Returned(None) => st.(vehicle := None)
      case Returned(Some(v)) =>
        var st := st.(vehicle := Some(v));
        match FetchIfAny(v.pilots, api.pilots.getMany)
        case Raised => st.(error := Some(LoadFailed))
        case Returned(pilots) =>
          var st := st.(pilots := pilots);
          match FetchIfAny(v.films, api.films.getMany)
          case Raised => st.(error := Some(LoadFailed))
          case Returned(films) => st.(films := films);
    r.(loading := false)
  }

  /** An empty or absent reference list is never fetched: the collection is
      empty whatever the service would have answered. */
  lemma EmptyListsNotFetched(st: State, api1: Api, api2: Api, id: string)
    requires api2.vehicles.get(VehiclePath(id)) == api1.vehicles.get(VehiclePath(id))
    requires api1.vehicles.get(VehiclePath(id)).Returned? && api1.vehicles.get(VehiclePath(id)).value.Some?
    requires var v := api1.vehicles.get(VehiclePath(id)).value.value;
      UrlsOf(v.pilots) == [] && UrlsOf(v.films) == []
    ensures InitializeAsync(st, api1, id) == InitializeAsync(st, api2, id)
    ensures InitializeAsync(st, api1, id).pilots == [] && InitializeAsync(st, api1, id).films == []
  {
  }

  /** The message is sticky: once set, every later load keeps it. */
  lemma ErrorPersists(st: State, api: Api, id: string)
    requires st.error == Some(LoadFailed)
    ensures InitializeAsync(st, api, id).error == Some(LoadFailed)
  {
  }

  /** Over the HTTP service a load never raises: the message is left as it
      was, an absent vehicle changes no collection, and a present one has
      both collections resolved best-effort, each no longer than its URL
      list. */
  lemma LoadOverHttp(st: State, net: Network, id: string)
    ensures var r := InitializeAsync(st, Concrete(net), id);
      && r.error == st.error
      && r.vehicle == GetAsync(net.vehicle, VehiclePath(id))
      && (r.vehicle.None? ==> r.pilots == st.pilots && r.films == st.films)
      && (r.vehicle.Some? ==>
        && r.pilots == GetManyAsync(net.pilot, UrlsOf(r.vehicle.value.pilots))
        && r.films == GetManyAsync(net.film, UrlsOf(r.vehicle.value.films))
        && |r.pilots| <= |UrlsOf(r.vehicle.value.pilots)|
        && |r.films| <= |UrlsOf(r.vehicle.value.films)|)
  {
    var api := Concrete(net);
    assert api.vehicles.get(VehiclePath(id)) == Returned(GetAsync(net.vehicle, VehiclePath(id)));
    var got := GetAsync(net.vehicle, VehiclePath(id));
    if got.Some? {
      var v := got.value;
      assert api.pilots.getMany(UrlsOf(v.pilots)) == Returned(GetManyAsync(net.pilot, UrlsOf(v.pilots)));
      assert api.films.getMany(UrlsOf(v.films)) == Returned(GetManyAsync(net.film, UrlsOf(v.films)));
    }
  }
}
