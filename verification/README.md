# StarWarsSPA core, modelled in Dafny

StarWarsSPA is a Blazor client for the Star Wars API. This project models
three parts of it:

- **`SwapiService`**, the HTTP implementation of `ISwapiService`. It joins
  the base URL `https://swapi.info/api/` with a relative path. It turns
  every failure into a default value: `null` for one record, the empty list
  for a list. Its `GetManyAsync` fetches many absolute URLs at once and
  drops the ones that failed.
- **The six list view models**: `FilmViewModel`, `PeopleViewModel`,
  `PlanetViewModel`, `SpeciesViewModel`, `StarShipViewModel` and
  `VehicleViewModel`. Each one loads every record of its type. It searches
  the records case-insensitively on their display name and always goes back
  to page 1 after a search. It pages the filtered list with `Skip`/`Take`.
  The per-file differences are kept:
  - Only films, people, planets and vehicles treat a blank query as "show
    everything".
  - Only films and planets have next/previous buttons. Both use the shared
    `ListView.NextPage` and `ListView.PreviousPage`; the other four screens
    never call them.
  - Films are sorted by episode.
  - Species are gathered with a cursor loop.
  - Only planets, species and starships have a settable page size.
  - Only films and planets record a load-failure message.
- **The six detail view models**: `FilmDetailsViewModel`,
  `PeopleDetailViewModel`, `PlanetDetailsViewModel`,
  `SpecieDetailsViewModel`, `StarShipDetailsViewModel` and
  `VehicleDetailViewModel`. Each fetches one record and resolves its
  reference-URL lists through `GetManyAsync`. The files differ in how they
  handle "not found" and exceptions, and each one is modelled as written.

The view models talk to `ISwapiService`, modelled as a value of
`Interfaces.Api`. Each call either returns or raises (`Call<T>`), so the
`catch` branches of the view models are reachable and modelled. The
concrete service is `SwapiService.Concrete(net)`, built over an HTTP oracle
`Network`. It maps each URL to "threw" or "a body that may be `null`". Every
view-model module except `SpeciesList` has a `LoadOverHttp` lemma for what
the screen shows over that concrete service; for the species loop the lemma
is `SpeciesList.CrawlOverHttpNeverRaises`. In every such lemma no load sets
a failure message, and every resolved collection is no longer than its URL
list.

Every operation is a pure function from the old state (and the service) to
the new state. The one exception is the species cursor loop, which is a
method with a `while` loop. That method is proved equal to the recursive
reference definition `SpeciesList.Crawl`.

Behaviour worth noting:

- `GetManyAsync` keeps input order: `Task.WhenAll` is positional, and
  `SwapiService.GetManyAsync` states exactly which URL produced the k-th
  record.
- The film, planet and species detail screens, when the record is not
  found, keep the collections of the previous load. Only the record and the
  message are cleared, and the not-found message is set.
- The starship detail screen has no not-found branch. A missing starship
  resolves empty reference lists, so both collections are replaced, by empty
  ones over HTTP.
- The vehicle detail screen, when the vehicle is absent, stores the absence
  and changes nothing else. Its message, once set, is never cleared; the same
  holds for the starship detail screen.
- The people detail screen has no message at all. An absent person leaves
  the three collections as they were.
- A failed list load records a message only for films and planets. The
  other four list screens only log it.
- The species and starship searches have no blank-query guard. There, an
  empty query hides every record without a name (`ListView.EmptyQueryKeepsNamed`).
- No list load resets the current page; only a search sets it to 1.
- `PeopleDetailViewModel` never sets `Loading` back to true.

The species loop uses the last species' `Url` as the next cursor. That is an
absolute URL, and `GetListAsync` prefixes it with the base URL again. The
model keeps that behaviour: `SpeciesList.NextUrl` is the last record's URL,
verbatim.

## Model

| member | source | states |
|---|---|---|
| SwapiService.RequestUrl | StarWarsSPA/Infrastructure/Services/SwapiService.cs:11-25 | the requested URL starts with the base URL; what follows it is the relative path without its leading slashes, so it never starts with `/` |
| SwapiService.RequestUrlIgnoresLeadingSlashes | StarWarsSPA/Infrastructure/Services/SwapiService.cs:25 | `films/1`, `/films/1` and `//films/1` (any number of leading slashes) request the same URL |
| SwapiService.TryGet | StarWarsSPA/Infrastructure/Services/SwapiService.cs:57-67 | one guarded fetch yields a record exactly when the request succeeded with a non-null body, and then it is that body |
| SwapiService.GetAsync | StarWarsSPA/Infrastructure/Services/SwapiService.cs:20-33 | a record is present exactly when the request to the joined URL succeeded with a non-null body; every failure gives `null` instead of an exception |
| SwapiService.GetListAsync | StarWarsSPA/Infrastructure/Services/SwapiService.cs:36-49 | the result is the fetched list when the body is a list, and the empty list after a failure or a `null` body; never absent |
| SwapiService.WhenAll | StarWarsSPA/Infrastructure/Services/SwapiService.cs:55-71 | one result per input URL, in input position, each fetched verbatim with no base prefix |
| SwapiService.Somes | StarWarsSPA/Infrastructure/Services/SwapiService.cs:73 | the non-null results, unwrapped, in their original order |
| SwapiService.Succeeded | StarWarsSPA/Infrastructure/Services/SwapiService.cs:71-73 | the ascending list of exactly the input positions whose fetch produced a record |
| SwapiService.Failures | StarWarsSPA/Infrastructure/Services/SwapiService.cs:62-67 | the number of failed or `null` fetches is at most the number of URLs |
| SwapiService.GetManyAsync | StarWarsSPA/Infrastructure/Services/SwapiService.cs:52-74 | the k-th record is what the k-th successful URL (in input order) produced; the length is the URL count minus the failures, so at most the URL count; no URLs give no records |
| SwapiService.GetManyAsyncMembers | StarWarsSPA/Infrastructure/Services/SwapiService.cs:71-73 | a record is in the result exactly when some input URL produced it |
| SwapiService.GetManyAsyncAllSucceed | StarWarsSPA/Infrastructure/Services/SwapiService.cs:71-73 | when every fetch succeeds there is one record per URL, position by position |
| SwapiService.Swapi | StarWarsSPA/Infrastructure/Services/SwapiService.cs:20-74 | every call of the HTTP service returns, and it never raises: get, list and many-fetch are the functions above |
| Seqs.Selected | StarWarsSPA/Presentation/ViewModels/FilmViewModel.cs:103-104 | the positions kept by `Where(p)`: strictly ascending, in range, and exactly those whose element satisfies `p` |
| Seqs.Filter | StarWarsSPA/Presentation/ViewModels/FilmViewModel.cs:103-104 | `Where(p).ToList()`: the k-th kept element is the element at the k-th selected position |
| Seqs.FilterUnique | StarWarsSPA/Presentation/ViewModels/FilmViewModel.cs:103-104 | any sequence listing, in order, the elements at an ascending list of exactly the satisfying positions is the filter result |
| Seqs.FilterMembers | StarWarsSPA/Presentation/ViewModels/PeopleViewModel.cs:93-95 | an element survives the filter exactly when it is in the input and satisfies the predicate |
| Seqs.FilterConcat | StarWarsSPA/Presentation/ViewModels/FilmViewModel.cs:103-104 | filtering a concatenation is concatenating the filtered parts |
| Seqs.FilterIdempotent | StarWarsSPA/Presentation/ViewModels/PeopleViewModel.cs:93-95 | filtering twice with one predicate is filtering once |
| Seqs.FilterPartition | StarWarsSPA/Infrastructure/Services/SwapiService.cs:73 | the kept and the rejected elements together number the input length |
| Seqs.Window | StarWarsSPA/Presentation/ViewModels/FilmViewModel.cs:70 | `Skip(n).Take(k)`: at most k consecutive elements starting at n, where a negative n starts at 0 and an n past the end gives nothing; its exact length |
| Text.ContainsIgnoreCaseIff | StarWarsSPA/Presentation/ViewModels/FilmViewModel.cs:103 | the left-to-right scan finds the query exactly when it occurs, ignoring case, at some position of the name |
| Text.ContainsEmpty | StarWarsSPA/Presentation/ViewModels/SpeciesViewModel.cs:105 | the empty query occurs in every name |
| Text.ContainsFoldedQuery | StarWarsSPA/Presentation/ViewModels/FilmViewModel.cs:103 | the query's case does not matter |
| Text.TrimStart | StarWarsSPA/Infrastructure/Services/SwapiService.cs:25 | `TrimStart('/')` is the suffix left after the leading run of `/`, and it does not start with `/` |
| Text.TrimEnd | StarWarsSPA/Presentation/ViewModels/StarShipViewModel.cs:104 | `TrimEnd('/')` is the prefix left before the trailing run of `/`, and it does not end with `/` |
| Text.LastSegment | StarWarsSPA/Presentation/ViewModels/StarShipViewModel.cs:104 | `Split('/').Last()` is the suffix after the last `/` (everything when there is none), and it contains no `/` |
| Models.UrlsOf | StarWarsSPA/Presentation/ViewModels/FilmDetailsViewModel.cs:87-90 | an absent reference list (`?? new List<string>()`) is no references; a present one is used as is |
| ListView.Initial | StarWarsSPA/Presentation/ViewModels/PlanetViewModel.cs:15-30 | a new list screen has empty lists, is loading, is on page 1 and has no message |
| ListView.Search | StarWarsSPA/Presentation/ViewModels/PeopleViewModel.cs:83-100 | with the guard, a blank query restores the full list; otherwise the full list is filtered on the display name; the page becomes 1 and nothing else changes |
| ListView.SearchMembers | StarWarsSPA/Presentation/ViewModels/PeopleViewModel.cs:85-95 | a record is shown after a search exactly when it is in the full list and either the guard let a blank query through or its name is non-empty and contains the query ignoring case |
| ListView.Loaded | StarWarsSPA/Presentation/ViewModels/PeopleViewModel.cs:57-77 | `Loading` ends false; a returned list becomes both the full and the filtered list; an exception leaves both lists alone and sets the screen's message if it has one |
| ListView.TotalPages | StarWarsSPA/Presentation/ViewModels/PlanetViewModel.cs:40 | the fewest pages of `ItemsPerPage` that hold the filtered list; zero exactly when it is empty |
| ListView.PageStartBounds | StarWarsSPA/Presentation/ViewModels/PlanetViewModel.cs:56-58 | pages 1 to `TotalPages` start inside the filtered list; later pages start at or past its end; page 1 and below start at 0 or before |
| ListView.PageAt | StarWarsSPA/Presentation/ViewModels/PlanetViewModel.cs:56-58 | page p is the whole `Skip((p-1)*ItemsPerPage).Take(ItemsPerPage)` window: the records of the filtered list from `(p-1)*ItemsPerPage` (from 0 when that is negative), as many as `ItemsPerPage` or as remain, and empty when the start is past the end |
| ListView.PageAtSlices | StarWarsSPA/Presentation/ViewModels/PlanetViewModel.cs:56-58 | a page that starts inside the list is the slice from its start, clipped to the list; one starting at or past the end is empty; page 1 and below show the first page |
| ListView.Paginated | StarWarsSPA/Presentation/ViewModels/PlanetViewModel.cs:56-58 | the current page is the whole clipped window: the filtered records from `(CurrentPage-1)*ItemsPerPage` on, `ItemsPerPage` of them or as many as remain, empty past the end |
| ListView.NextPage | StarWarsSPA/Presentation/ViewModels/PlanetViewModel.cs:121-127 | one page on only while `CurrentPage < TotalPages`; otherwise nothing changes |
| ListView.PreviousPage | StarWarsSPA/Presentation/ViewModels/PlanetViewModel.cs:129-135 | one page back only while `CurrentPage > 1`; otherwise nothing changes |
| ListView.NavigationKeepsRange | StarWarsSPA/Presentation/ViewModels/FilmViewModel.cs:106-123 | next and previous keep a page in `[1, max(1, TotalPages)]` there, and a search lands there |
| ListView.NextPreviousInverse | StarWarsSPA/Presentation/ViewModels/PlanetViewModel.cs:121-135 | from an in-range page before the last, previous undoes next; from an in-range page after the first, next undoes previous |
| ListView.EmptyListNavigation | StarWarsSPA/Presentation/ViewModels/PlanetViewModel.cs:45-50 | with nothing to show on page 1, `IsFirstPage` holds, `IsLastPage` does not, next and previous do nothing and the page is empty |
| ListView.PagesUpToPrefix | StarWarsSPA/Presentation/ViewModels/PlanetViewModel.cs:56-58 | pages 1 to m laid end to end are the prefix of the filtered list that they cover |
| ListView.PagesCoverFiltered | StarWarsSPA/Presentation/ViewModels/PlanetViewModel.cs:56-58 | pages 1 to `TotalPages` laid end to end give back the filtered list, in order |
| ListView.SearchIdempotent | StarWarsSPA/Presentation/ViewModels/PeopleViewModel.cs:88-95 | repeating a search changes nothing |
| ListView.SearchDependsOnItemsAndQuery | StarWarsSPA/Presentation/ViewModels/PeopleViewModel.cs:88-95 | the search always starts from the full list, so the previous filter has no effect on the result |
| ListView.EmptyQueryKeepsNamed | StarWarsSPA/Presentation/ViewModels/SpeciesViewModel.cs:104-106 | without the guard, the empty query keeps exactly the records with a non-empty name, not necessarily all of them |
| ListView.IdFromUrl | StarWarsSPA/Presentation/ViewModels/StarShipViewModel.cs:103-104 | `GetIdFromUrl` is the last `/`-separated segment of the URL after its trailing slashes are removed: a suffix of the trimmed URL with no `/`, preceded by a `/` or by nothing |
| ListView.IdFromUrlExample | StarWarsSPA/Presentation/ViewModels/StarShipViewModel.cs:103-104 | the id of `https://swapi.info/api/starships/9/` is `9` |
| ListView.IdFromUrlIdempotent | StarWarsSPA/Presentation/ViewModels/StarShipViewModel.cs:103-104 | taking the id of an id changes nothing |
| ListView.IdFromUrlTrailingSlash | StarWarsSPA/Presentation/ViewModels/VehicleViewModel.cs:117-118 | a trailing `/` does not change the id |
| FilmList.InsertByEpisode | StarWarsSPA/Presentation/ViewModels/FilmViewModel.cs:82 | inserting one film adds exactly that film: same films plus one, one longer |
| FilmList.InsertSorted | StarWarsSPA/Presentation/ViewModels/FilmViewModel.cs:82 | inserting into a list sorted by episode (`null` first) keeps it sorted |
| FilmList.OrderByEpisode | StarWarsSPA/Presentation/ViewModels/FilmViewModel.cs:82 | `OrderBy(f => f.EpisodeId)` gives a permutation of its input, sorted ascending with `null` first |
| FilmList.InsertKeepsEpisodeOrder | StarWarsSPA/Presentation/ViewModels/FilmViewModel.cs:82 | within any one episode, the inserted film goes ahead of the films already there, which keep their order |
| FilmList.OrderByEpisodeStable | StarWarsSPA/Presentation/ViewModels/FilmViewModel.cs:82 | the sort is stable: the films of each episode keep their fetched order |
| FilmList.InitializeAsync | StarWarsSPA/Presentation/ViewModels/FilmViewModel.cs:76-94 | `Loading` ends false; a returned list is stored sorted by episode as both lists, with the message untouched; an exception sets "Failed to load films. Please try again later." and keeps both lists; the page is not reset |
| FilmList.LoadedFilmsOrdered | StarWarsSPA/Presentation/ViewModels/FilmViewModel.cs:82-83 | after a successful load the films are a permutation of the fetched list, sorted by episode, with each episode's films in fetched order |
| FilmList.LoadOverHttp | StarWarsSPA/Presentation/ViewModels/FilmViewModel.cs:82-87 | over the HTTP service the load never fails: the films are the fetched list sorted, and the message is untouched |
| FilmList.HandleSearch | StarWarsSPA/Presentation/ViewModels/FilmViewModel.cs:100-107 | a blank query shows every film; any other keeps, in order, exactly the films whose title is non-empty and contains the query ignoring case; the page becomes 1 |
| FilmList.TotalPages | StarWarsSPA/Presentation/ViewModels/FilmViewModel.cs:53 | the ceiling of the filtered count over six |
| FilmList.PaginatedFilms | StarWarsSPA/Presentation/ViewModels/FilmViewModel.cs:69-70 | the six films (or as many as remain) of the filtered list from `(CurrentPage-1)*6` on, from 0 when that is negative; empty past the end |
| PeopleList.InitializeAsync | StarWarsSPA/Presentation/ViewModels/PeopleViewModel.cs:57-77 | `Loading` ends false; a returned list is stored as both lists; an exception is only logged and changes nothing else |
| PeopleList.LoadOverHttp | StarWarsSPA/Presentation/ViewModels/PeopleViewModel.cs:64-65 | over the HTTP service both lists are the list fetched from `people` |
| PeopleList.HandleSearch | StarWarsSPA/Presentation/ViewModels/PeopleViewModel.cs:83-100 | a blank query shows everyone; any other keeps, in order, exactly the people whose name is non-empty and contains the query ignoring case; the page becomes 1 |
| PeopleList.TotalPages | StarWarsSPA/Presentation/ViewModels/PeopleViewModel.cs:30-35 | the ceiling of the filtered count over eight |
| PeopleList.PaginatedPeople | StarWarsSPA/Presentation/ViewModels/PeopleViewModel.cs:40-42 | the eight people (or as many as remain) of the filtered list from `(CurrentPage-1)*8` on, from 0 when that is negative; empty past the end |
| PlanetList.Create | StarWarsSPA/Presentation/ViewModels/PlanetViewModel.cs:15-63 | a new planet list is empty, loading, on page 1, with nine per page and no message |
| PlanetList.InitializeAsync | StarWarsSPA/Presentation/ViewModels/PlanetViewModel.cs:78-105 | `Loading` ends false; a returned list is stored as both lists; an exception sets "Failed to load Planets. Please try again later." and changes nothing else |
| PlanetList.LoadOverHttp | StarWarsSPA/Presentation/ViewModels/PlanetViewModel.cs:85-91 | over the HTTP service the planets are the list fetched from `planets`, and no message appears |
| PlanetList.HandleSearch | StarWarsSPA/Presentation/ViewModels/PlanetViewModel.cs:111-118 | a blank query shows every planet; any other keeps, in order, exactly the planets whose name matches; only the filtered list and the page (now 1) change |
| SpeciesList.NextUrl | StarWarsSPA/Presentation/ViewModels/SpeciesViewModel.cs:75 | the next cursor is the last species' URL, and a `null` URL is read as the empty string |
| SpeciesList.Crawl | StarWarsSPA/Presentation/ViewModels/SpeciesViewModel.cs:63-81 | the loop stops at an empty cursor or an empty page; a raise ends it; otherwise each page is followed by the crawl from its last URL |
| SpeciesList.CrawlFuelMonotone | StarWarsSPA/Presentation/ViewModels/SpeciesViewModel.cs:68-81 | once the crawl finishes within a fetch bound, a larger bound gives the same outcome |
| SpeciesList.Initialize | StarWarsSPA/Presentation/ViewModels/SpeciesViewModel.cs:60-96 | the `while` loop computes the crawl from `species`: on success both lists are every species fetched, in fetch order; a raise is only logged; `Loading` ends false |
| SpeciesList.CrawlNeverRaises | StarWarsSPA/Presentation/ViewModels/SpeciesViewModel.cs:68-81 | when no fetch raises, the loop never ends in an exception: it runs out of fetches or returns everything fetched |
| SpeciesList.CrawlOverHttpNeverRaises | StarWarsSPA/Presentation/ViewModels/SpeciesViewModel.cs:71 | over the HTTP service the crawl never ends in an exception |
| SpeciesList.SinglePage | StarWarsSPA/Presentation/ViewModels/SpeciesViewModel.cs:72-80 | a first page whose last species has no URL is the whole list |
| SpeciesList.HandleSearch | StarWarsSPA/Presentation/ViewModels/SpeciesViewModel.cs:102-108 | keeps, in order, exactly the species whose name is non-empty and contains the query ignoring case, even for a blank query; the page becomes 1 |
| StarshipList.InitializeAsync | StarWarsSPA/Presentation/ViewModels/StarShipViewModel.cs:65-84 | fetches through the service passed in; `Loading` ends false; a returned list is stored as both lists; an exception is only logged |
| StarshipList.LoadOverHttp | StarWarsSPA/Presentation/ViewModels/StarShipViewModel.cs:72-73 | over the HTTP service both lists are the list fetched from `starships` |
| StarshipList.HandleSearch | StarWarsSPA/Presentation/ViewModels/StarShipViewModel.cs:90-96 | keeps, in order, exactly the starships whose name is non-empty and contains the query ignoring case, even for a blank query; the page becomes 1 |
| StarshipList.EmptySearchHidesUnnamed | StarWarsSPA/Presentation/ViewModels/StarShipViewModel.cs:92-94 | clearing the search does not restore the full list: starships without a name drop out |
| VehicleList.InitializeAsync | StarWarsSPA/Presentation/ViewModels/VehicleViewModel.cs:67-87 | `Loading` ends false; a returned list is stored as both lists; an exception is only logged |
| VehicleList.LoadOverHttp | StarWarsSPA/Presentation/ViewModels/VehicleViewModel.cs:74-75 | over the HTTP service both lists are the list fetched from `vehicles` |
| VehicleList.HandleSearch | StarWarsSPA/Presentation/ViewModels/VehicleViewModel.cs:93-110 | a blank query shows every vehicle; any other keeps, in order, exactly the vehicles whose name matches; the page becomes 1 |
| VehicleList.TotalPages | StarWarsSPA/Presentation/ViewModels/VehicleViewModel.cs:30-35 | the ceiling of the filtered count over nine |
| VehicleList.PaginatedVehicles | StarWarsSPA/Presentation/ViewModels/VehicleViewModel.cs:50-52 | the nine vehicles (or as many as remain) of the filtered list from `(CurrentPage-1)*9` on, from 0 when that is negative; empty past the end |
| FilmDetails.Create | StarWarsSPA/Presentation/ViewModels/FilmDetailsViewModel.cs:18-48 | a new screen has no film, empty collections, is loading and has no message |
| FilmDetails.FilmPath | StarWarsSPA/Presentation/ViewModels/FilmDetailsViewModel.cs:76 | the film is requested at `films/` followed by the id |
| FilmDetails.InitializeAsync | StarWarsSPA/Presentation/ViewModels/FilmDetailsViewModel.cs:67-103 | clears the message and the film; an absent film sets "Film details not found." and fetches nothing; a found film is stored and its characters, starships, planets and species are resolved in turn; an exception sets "Failed to load Film details or does not exist." and keeps what was already assigned; `Loading` ends false |
| FilmDetails.LoadOverHttp | StarWarsSPA/Presentation/ViewModels/FilmDetailsViewModel.cs:76-90 | over the HTTP service the failure message never appears; each collection is the best-effort fetch of its list and no longer than it |
| FilmDetails.LoadForgetsPreviousFilm | StarWarsSPA/Presentation/ViewModels/FilmDetailsViewModel.cs:72-74 | the outcome does not depend on the film, message or loading flag left by an earlier load |
| PeopleDetail.Create | StarWarsSPA/Presentation/ViewModels/PeopleDetailViewModel.cs:17-37 | a new screen has no person, `null` collections and is loading |
| PeopleDetail.PersonPath | StarWarsSPA/Presentation/ViewModels/PeopleDetailViewModel.cs:59 | the person is requested at `people/` followed by the id |
| PeopleDetail.Initialize | StarWarsSPA/Presentation/ViewModels/PeopleDetailViewModel.cs:54-93 | `Person` becomes the fetched record, or stays as it was when that fetch raised; a present person's three collections are assigned together when all three calls returned, and none when any raised; an absent person changes no collection; `Loading` ends false |
| PeopleDetail.CollectionsAssignedTogether | StarWarsSPA/Presentation/ViewModels/PeopleDetailViewModel.cs:69-79 | either no collection changes or all three are set |
| PeopleDetail.LoadOverHttp | StarWarsSPA/Presentation/ViewModels/PeopleDetailViewModel.cs:59-79 | over the HTTP service a found person has all three collections resolved best-effort, each no longer than its list; a person not found on a first load leaves them `null` |
| PlanetDetails.Create | StarWarsSPA/Presentation/ViewModels/PlanetDetailsViewModel.cs:15-35 | a new screen has no planet, empty collections, is not loading and has no message |
| PlanetDetails.PlanetPath | StarWarsSPA/Presentation/ViewModels/PlanetDetailsViewModel.cs:57 | the planet is requested at `planets/` followed by the id |
| PlanetDetails.InitializeAsync | StarWarsSPA/Presentation/ViewModels/PlanetDetailsViewModel.cs:48-92 | clears the message and the planet; an absent planet sets "Planet not found."; a found one gets films and residents together; any exception sets "Failed to load Planet details or does not exist." and changes no collection; `Loading` ends false |
| PlanetDetails.MessageTellsOutcome | StarWarsSPA/Presentation/ViewModels/PlanetDetailsViewModel.cs:52-84 | the not-found message appears exactly when the planet was absent; there is no message exactly when the planet and both collections were fetched; a missing planet always has a message |
| PlanetDetails.LoadOverHttp | StarWarsSPA/Presentation/ViewModels/PlanetDetailsViewModel.cs:57-80 | over the HTTP service the failure message never appears; each collection is the best-effort fetch of its list and no longer than it |
| SpecieDetails.Create | StarWarsSPA/Presentation/ViewModels/SpecieDetailsViewModel.cs:15-35 | a new screen has no species, empty collections, is not loading and has no message |
| SpecieDetails.SpeciesPath | StarWarsSPA/Presentation/ViewModels/SpecieDetailsViewModel.cs:59 | the species is requested at `species/` followed by the id |
| SpecieDetails.InitializeAsync | StarWarsSPA/Presentation/ViewModels/SpecieDetailsViewModel.cs:51-94 | clears the message and the species; an absent species sets "Species not found."; a found one gets films and people together; any exception sets "Failed to load Specie details or does not exist." and changes no collection; `Loading` ends false |
| SpecieDetails.CollectionsAssignedTogether | StarWarsSPA/Presentation/ViewModels/SpecieDetailsViewModel.cs:74-82 | either neither collection changes or the species was found and both were fetched |
| SpecieDetails.LoadOverHttp | StarWarsSPA/Presentation/ViewModels/SpecieDetailsViewModel.cs:59-82 | over the HTTP service the failure message never appears; each collection is the best-effort fetch of its list and no longer than it |
| StarshipDetails.Create | StarWarsSPA/Presentation/ViewModels/StarShipDetailsViewModel.cs:17-37 | a new screen has no starship, empty collections, is loading and has no message |
| StarshipDetails.StarshipPath | StarWarsSPA/Presentation/ViewModels/StarShipDetailsViewModel.cs:61 | the starship is requested at `starships/` followed by the id |
| StarshipDetails.PilotUrls | StarWarsSPA/Presentation/ViewModels/StarShipDetailsViewModel.cs:64 | an absent starship or pilot list gives no pilot URLs |
| StarshipDetails.FilmUrls | StarWarsSPA/Presentation/ViewModels/StarShipDetailsViewModel.cs:65 | an absent starship or film list gives no film URLs |
| StarshipDetails.InitializeAsync | StarWarsSPA/Presentation/ViewModels/StarShipDetailsViewModel.cs:54-87 | `Starship` becomes the fetched record, absent or not; pilots and films are resolved together even for an absent starship; any exception sets "Failed to load Starship details or does not exist." and changes no collection; nothing clears the message; `Loading` ends false |
| StarshipDetails.ErrorPersists | StarWarsSPA/Presentation/ViewModels/StarShipDetailsViewModel.cs:54-86 | once the failure message is set, every later load keeps it |
| StarshipDetails.FailureSurvivesRecovery | StarWarsSPA/Presentation/ViewModels/StarShipDetailsViewModel.cs:78-81 | a load that fails followed by one that succeeds still shows the failure message |
| StarshipDetails.LoadOverHttp | StarWarsSPA/Presentation/ViewModels/StarShipDetailsViewModel.cs:61-76 | over the HTTP service the message is untouched; a starship not found empties both collections; a found one has both resolved best-effort, each no longer than its list |
| VehicleDetail.Create | StarWarsSPA/Presentation/ViewModels/VehicleDetailViewModel.cs:13-33 | a new screen has no vehicle, empty collections, is loading and has no message |
| VehicleDetail.VehiclePath | StarWarsSPA/Presentation/ViewModels/VehicleDetailViewModel.cs:56 | the vehicle is requested at `vehicles/` followed by the id |
| VehicleDetail.FetchIfAny | StarWarsSPA/Presentation/ViewModels/VehicleDetailViewModel.cs:61-68 | a reference list is fetched only when present and non-empty; otherwise the collection is empty with no call |
| VehicleDetail.InitializeAsync | StarWarsSPA/Presentation/ViewModels/VehicleDetailViewModel.cs:49-80 | `Vehicle` becomes the fetched record, absent or not; an absent vehicle changes nothing else; a present one gets its pilots and then its films; an exception sets "Failed to load Vehicle details or does not exist." and keeps what was already assigned; nothing clears the message; `Loading` ends false |
| VehicleDetail.EmptyListsNotFetched | StarWarsSPA/Presentation/ViewModels/VehicleDetailViewModel.cs:61-68 | a vehicle with no pilots and no films gives empty collections, whatever the service would answer for them |
| VehicleDetail.ErrorPersists | StarWarsSPA/Presentation/ViewModels/VehicleDetailViewModel.cs:71-75 | once the failure message is set, every later load keeps it |
| VehicleDetail.LoadOverHttp | StarWarsSPA/Presentation/ViewModels/VehicleDetailViewModel.cs:56-68 | over the HTTP service the message is untouched; an absent vehicle changes no collection; a present one has both collections resolved best-effort, each no longer than its list |

The `ListView` members are shared by all six list screens; each row cites
one of the identical copies. The same code is `TotalPages`, `Paginated*`,
`GoToNextPage`/`GoToPreviousPage` and `GetIdFromUrl` in the other list view
models (for example `FilmViewModel.cs` lines 53, 69-70, 109-123 and
`VehicleViewModel.cs` lines 117-118).

`IsFirstPage` and `IsLastPage` are the predicates `ListView.IsFirstPage`
(`CurrentPage == 1`) and `ListView.IsLastPage` (`CurrentPage == TotalPages`).
They appear in the contracts of `ListView.EmptyListNavigation`.

## Left out

- HTTP and JSON: `GetFromJsonAsync` is the oracle `Http<T>` (URL to "threw" or an optional body), so deserialisation, status codes and the `HttpClient` base address are not modelled.
- Concurrency: `Task.WhenAll` and `async`/`await` are sequential. Fan-out results are positional, and a raise from any call joined by `WhenAll` is an exception of the whole join. Re-entrant loads and stale completions are not modelled.
- Console logging in every `catch` block is a side channel and is left out.
- `Program.cs` (host building, dependency injection, loader removal) is not part of this model. It registers every view model as scoped, which is why state carries over from one load to the next.
- The record files keep only the fields the view models read: names, titles, `EpisodeId`, `Url` and the reference lists.
- ListView.TotalPages: computed as the integer ceiling `(n + k - 1) / k` instead of through `double`. The two agree for every list length an `int` can hold.
- ListView.PageAt: `(CurrentPage - 1) * ItemsPerPage` is not wrapped to 32 bits, so a page number large enough to overflow `int` is not modelled.
- ListView.PageSize: a settable `ItemsPerPage` is assumed positive. Zero or a negative value, which makes the C# page count infinite or negative, is not modelled.
- Text.Upper: `OrdinalIgnoreCase` is modelled as ASCII case folding only. Non-ASCII letters compare case-sensitively in the model.
- ListView.Search: a `null` query is not modelled (the query is a string). With the guard, a `null` query counts as blank; without it, `Contains(null)` throws.
- SpeciesList.Initialize: the loop is bounded by a fetch count `fuel`, and the result is `None` when the bound runs out. A crawl that never ends in C# is not characterised beyond that.
- The `?? new List<T>()` fallbacks after `GetListAsync` are no-ops here, since a service always returns a list. For films, a `null` list from some other implementation would end in the exception path; that case is not modelled.
- Null elements inside a fetched list or a reference list are not modelled.
