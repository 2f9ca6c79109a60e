/** `ISwapiService` as the view models see it. A call either raises an
    exception or returns; which implementation answers is a parameter, so
    the view models' `catch` branches are part of the model. */
module Interfaces {
  import opened Optional
  import opened Models

  /** The outcome of awaiting one service call. */
  datatype Call<+T> = Raised | Returned(value: T)

  /** The three generic methods of `ISwapiService`, at one record type:
      `GetAsync<T>`, `GetListAsync<T>` and `GetManyAsync<T>`. */
  datatype Endpoint<T> = Endpoint(
    get: string -> Call<Option<T>>,
    getList: string -> Call<seq<T>>,
    getMany: seq<string> -> Call<seq<T>>)

  /** One `ISwapiService` instance, at every record type the view models use. */
  datatype Api = Api(
    films: Endpoint<Film>,
    people: Endpoint<Person>,
    planets: Endpoint<Planet>,
    species: Endpoint<Specie>,
    starships: Endpoint<Starship>,
    vehicles: Endpoint<Vehicle>,
    pilots: Endpoint<Pilot>)
}
