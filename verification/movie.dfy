/** The provider-neutral records the bot passes between the movie API and
    Notion (src/api/mod.rs). */
module Movie {
  import opened Wrappers
  import opened Json
  import opened Calendar

  type U32 = n: nat | n < 0x1_0000_0000

  /** One search hit; the id is the provider's opaque title id. */
  datatype SearchResult = SearchResult(id: string, title: string, description: string)

  /** A normalised title record. Empty strings, empty lists and `None` stand
      for information the provider did not give. */
  datatype MovieInfo = MovieInfo(
    title: string,
    movieType: string,
    year: Option<U32>,
    image: string,
    releaseDate: Option<NaiveDate>,
    runtime: Option<U32>,
    plot: string,
    directorList: seq<string>,
    starList: seq<string>,
    genreList: seq<string>,
    countryList: seq<string>,
    languageList: seq<string>,
    contentRating: string,
    imdbRating: Option<Float64>,
    imdbLink: string)
}
