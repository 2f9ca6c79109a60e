/** The API records, reduced to the fields the core reads: the display name
    (`Title` for films, `Name` for the rest), `EpisodeId`, `Url`, and the
    reference fields, each an optional ordered list of resource URLs. Every
    field is nullable because every JSON field may be missing. */
module Models {
  import opened Optional

  /** A reference field: `List<string>?`. */
  type Refs = Option<seq<string>>

  datatype Film = Film(
    title: Option<string>,
    episodeId: Option<int>,
    url: Option<string>,
    characters: Refs,
    starships: Refs,
    planets: Refs,
    species: Refs)

  datatype Person = Person(
    name: Option<string>,
    url: Option<string>,
    films: Refs,
    starships: Refs,
    species: Refs)

  datatype Planet = Planet(
    name: Option<string>,
    url: Option<string>,
    films: Refs,
    residents: Refs)

  datatype Specie = Specie(
    name: Option<string>,
    url: Option<string>,
    films: Refs,
    people: Refs)

  datatype Starship = Starship(
    name: Option<string>,
    url: Option<string>,
    pilots: Refs,
    films: Refs)

  datatype Vehicle = Vehicle(
    name: Option<string>,
    url: Option<string>,
    pilots: Refs,
    films: Refs)

  datatype Pilot = Pilot(
    name: Option<string>,
    url: Option<string>)

  /** `field ?? new List<string>()`: an absent reference field is no references. */
  function UrlsOf(field: Refs): (urls: seq<string>)
    ensures field.Some? ==> urls == field.value
    ensures field.None? ==> urls == []
  {
    field.GetOr([])
  }
}
