/** `SwapiService`, the HTTP implementation of `ISwapiService`. The HTTP
    client with its JSON deserialiser is an oracle from URL to response;
    every exception it throws is caught here, so the service itself never
    raises. */
module SwapiService {
  import opened Optional
  import opened Seqs
  import opened Text
  import opened Models
  import opened Interfaces

  /** One `HttpClient.GetFromJsonAsync<T>(url)`: it throws (network failure,
      non-success status, malformed JSON) or yields the deserialised body,
      which is `null` for a JSON `null`. */
  datatype Response<+T> = Threw | Body(json: Option<T>)

  type Http<T> = string -> Response<T>

  const BaseUrl: string := "https://swapi.info/api/"

  /** `BaseUrl + relativeUrl.TrimStart('/')`. */
  function RequestUrl(relativeUrl: string): (url: string)
    ensures |url| >= |BaseUrl| && url[..|BaseUrl|] == BaseUrl
    ensures url[|BaseUrl|..] == TrimStart(relativeUrl, '/')
    ensures |url| == |BaseUrl| || url[|BaseUrl|] != '/'
    ensures |url| - |BaseUrl| <= |relativeUrl|
  {
    BaseUrl + TrimStart(relativeUrl, '/')
  }

  function Slashes(n: nat): (s: string)
    ensures |s| == n && forall i :: 0 <= i < n ==> s[i] == '/'
  {
    seq(n, i => '/')
  }

  /** Any number of leading slashes requests the same URL: `films/1`,
      `/films/1` and `//films/1` are one request. */
  lemma {:induction false} RequestUrlIgnoresLeadingSlashes(n: nat, path: string)
    ensures RequestUrl(Slashes(n) + path) == RequestUrl(path)
    decreases n
  {
    if n > 0 {
      var s := Slashes(n) + path;
      assert s[0] == '/';
      assert s[1..] == Slashes(n - 1) + path;
      RequestUrlIgnoresLeadingSlashes(n - 1, path);
    } else {
      assert Slashes(n) + path == path;
    }
  }

  /** `try { return await GetFromJsonAsync<T>(url); } catch { return default; }`:
      the body when the request succeeded, `null` otherwise. */
  function TryGet<T>(http: Http<T>, url: string): (r: Option<T>)
    ensures r.Some? <==> http(url).Body? && http(url).json.Some?
    ensures r.Some? ==> r == http(url).json
  {
    match http(url)
    case Threw => None
    case Body(json) => json
  }

  /** `GetAsync<T>(relativeUrl)`: one record from the API base joined with
      `relativeUrl`; every failure becomes `null`. */
  function GetAsync<T>(http: Http<T>, relativeUrl: string): (r: Option<T>)
    ensures r.Some? <==> http(RequestUrl(relativeUrl)).Body? && http(RequestUrl(relativeUrl)).json.Some?
    ensures r.Some? ==> r == http(RequestUrl(relativeUrl)).json
  {
    TryGet(http, RequestUrl(relativeUrl))
  }

  /** `GetListAsync<T>(endpoint)`: the list at the API base joined with
      `endpoint`; a `null` body or any failure becomes the empty list. */
  function GetListAsync<T>(http: Http<seq<T>>, endpoint: string): (r: seq<T>)
    ensures http(RequestUrl(endpoint)) == Body(Some(r)) || (r == [] && http(RequestUrl(endpoint)) in {Threw, Body(None)})
  {
    match http(RequestUrl(endpoint))
    case Body(Some(list)) => list
    case _ => []
  }

  predicate IsSome<T>(o: Option<T>)
  {
    o.Some?
  }

  predicate IsNone<T>(o: Option<T>)
  {
    o.None?
  }

  /** `Task.WhenAll` over one `TryGet` per URL, fetched verbatim (no base
      prefix): the results by input position. */
  function WhenAll<T>(http: Http<T>, urls: seq<string>): (results: seq<Option<T>>)
    ensures |results| == |urls|
    ensures forall i :: 0 <= i < |urls| ==> results[i] == TryGet(http, urls[i])
  {
    seq(|urls|, i requires 0 <= i < |urls| => TryGet(http, urls[i]))
  }

  /** `results.Where(r => r != null)`, unwrapped: the present values, in order. */
  function Somes<T>(results: seq<Option<T>>): (r: seq<T>)
    ensures |r| == |Filter(results, IsSome)|
    ensures forall k :: 0 <= k < |r| ==> Filter(results, IsSome)[k] == Some(r[k])
    decreases |results|
  {
    if |results| == 0 then []
    else
      var init := Somes(results[..|results| - 1]);
      match results[|results| - 1]
      case Some(v) => init + [v]
      case None => init
  }

  /** The input positions whose fetch produced a record, in ascending order. */
  function Succeeded<T>(http: Http<T>, urls: seq<string>): (idx: seq<nat>)
    ensures Picks(idx, WhenAll(http, urls), IsSome)
  {
    Selected(WhenAll(http, urls), IsSome)
  }

  /** How many input URLs failed or produced `null`. */
  function Failures<T>(http: Http<T>, urls: seq<string>): (n: nat)
    ensures n <= |urls|
  {
    |Filter(WhenAll(http, urls), IsNone)|
  }

  /** `GetManyAsync<T>(urls)`: best effort. The k-th record of the result is
      what the k-th successful URL (in input order) produced; failed and
      `null` fetches are dropped, so the result is `|urls|` minus the
      failures long. */
  function GetManyAsync<T>(http: Http<T>, urls: seq<string>): (r: seq<T>)
    ensures |r| == |Succeeded(http, urls)|
    ensures forall k :: 0 <= k < |r| ==> TryGet(http, urls[Succeeded(http, urls)[k]]) == Some(r[k])
    ensures |r| == |urls| - Failures(http, urls)
    ensures |r| <= |urls|
    ensures urls == [] ==> r == []
  {
    var results := WhenAll(http, urls);
    FilterPartition(results, IsSome, IsNone);
    Somes(results)
  }

  /** A record is in the result exactly when some input URL produced it. */
  lemma GetManyAsyncMembers<T>(http: Http<T>, urls: seq<string>, x: T)
    ensures x in GetManyAsync(http, urls) <==> exists i :: 0 <= i < |urls| && TryGet(http, urls[i]) == Some(x)
  {
    var r, results, idx := GetManyAsync(http, urls), WhenAll(http, urls), Succeeded(http, urls);
    if x in r {
      var k :| 0 <= k < |r| && r[k] == x;
      assert 0 <= idx[k] < |urls|;
    }
    if i :| 0 <= i < |urls| && TryGet(http, urls[i]) == Some(x) {
      assert IsSome(results[i]);
      assert i in idx;
      var k :| 0 <= k < |idx| && idx[k] == i;
      assert TryGet(http, urls[i]) == Some(r[k]);
    }
  }

  /** Every fetch succeeding gives back one record per URL, positionally. */
  lemma GetManyAsyncAllSucceed<T>(http: Http<T>, urls: seq<string>)
    requires forall i :: 0 <= i < |urls| ==> TryGet(http, urls[i]).Some?
    ensures |GetManyAsync(http, urls)| == |urls|
    ensures forall i :: 0 <= i < |urls| ==> TryGet(http, urls[i]) == Some(GetManyAsync(http, urls)[i])
  {
    var results := WhenAll(http, urls);
    FilterAll(results, IsSome);
    var r := GetManyAsync(http, urls);
    forall i | 0 <= i < |urls|
      ensures TryGet(http, urls[i]) == Some(r[i])
    {
      assert Filter(results, IsSome)[i] == Some(r[i]);
    }
  }

  /** The service at one record type, as `ISwapiService` presents it. */
  function Swapi<T>(http: Http<T>, httpList: Http<seq<T>>): (e: Endpoint<T>)
    ensures forall path :: e.get(path) == Returned(GetAsync(http, path))
    ensures forall endpoint :: e.getList(endpoint) == Returned(GetListAsync(httpList, endpoint))
    ensures forall urls :: e.getMany(urls) == Returned(GetManyAsync(http, urls))
  {
    Endpoint(
      path => Returned(GetAsync(http, path)),
      endpoint => Returned(GetListAsync(httpList, endpoint)),
      urls => Returned(GetManyAsync(http, urls)))
  }

  /** The HTTP oracle, per record type: single records and lists. */
  datatype Network = Network(
    film: Http<Film>, filmList: Http<seq<Film>>,
    person: Http<Person>, personList: Http<seq<Person>>,
    planet: Http<Planet>, planetList: Http<seq<Planet>>,
    specie: Http<Specie>, specieList: Http<seq<Specie>>,
    starship: Http<Starship>, starshipList: Http<seq<Starship>>,
    vehicle: Http<Vehicle>, vehicleList: Http<seq<Vehicle>>,
    pilot: Http<Pilot>, pilotList: Http<seq<Pilot>>)

  /** `new SwapiService(http)` as an `ISwapiService`. */
  function Concrete(net: Network): Api
  {
    Api(
      Swapi(net.film, net.filmList),
      Swapi(net.person, net.personList),
      Swapi(net.planet, net.planetList),
      Swapi(net.specie, net.specieList),
      Swapi(net.starship, net.starshipList),
      Swapi(net.vehicle, net.vehicleList),
      Swapi(net.pilot, net.pilotList))
  }
}
