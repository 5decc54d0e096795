/**
 * The records the components receive from the movie catalogue: one movie and
 * one page of search results. Only the fields the components read are kept;
 * a field the catalogue may leave out or send as `null` is an `Option`.
 */
module Movies {
  import opened Wrappers

  datatype Movie = Movie(
    id: int,
    title: string,
    overview: Option<string>,
    releaseDate: Option<string>,
    /** `vote_average`; `None` when it is not a number. Only its sign matters here. */
    voteAverage: Option<real>,
    posterPath: Option<string>,
    backdropPath: Option<string>)

  /** One page of results: the movies and the number of pages the search has. */
  datatype FetchMoviesResponse = FetchMoviesResponse(results: seq<Movie>, totalPages: int)

  /** JavaScript truthiness of an optional string: present and not "". */
  predicate Truthy(s: Option<string>) {
    s.Some? && s.value != ""
  }
}
