/** The IMDb-API client (src/api/imdb/imdb_api.rs): endpoint URLs, the shared
    request step that turns an in-band `errorMessage` into user feedback,
    title search, and the conversion of a title record into a `MovieInfo`.
    GET requests are answered by an oracle from URL to reply. */
module Imdb {
  import opened Wrappers
  import opened Text
  import opened Errors
  import opened Json
  import opened Http
  import opened Transcripts
  import opened Calendar
  import opened Movie

  const DEFAULT_URL := "https://imdb-api.com"
  const SERVER_NAME := "IMDb-API"
  const SEARCH_DIR := "/API/SearchTitle"
  const TITLE_DIR := "/API/Title"
  const IMDB_TITLE_URL := "https://www.imdb.com/title/"

  /** The client: the service's base URL and the key used when a user has none. */
  datatype ImdbApi = ImdbApi(url: string, defaultKey: string)

  function DefaultApi(): (api: ImdbApi)
    ensures api.url == DEFAULT_URL && api.defaultKey == []
  {
    ImdbApi(DEFAULT_URL, "")
  }

  function NewApi(defaultKey: string): (api: ImdbApi)
    ensures api.url == DEFAULT_URL && api.defaultKey == defaultKey
  {
    DefaultApi().(defaultKey := defaultKey)
  }

  /** A user's own key wins; an empty one means "use the shared key". */
  function ApiKeyOrDefault(api: ImdbApi, apiKey: string): (key: string)
    ensures apiKey != [] ==> key == apiKey
    ensures apiKey == [] ==> key == api.defaultKey
  {
    if apiKey == [] then api.defaultKey else apiKey
  }

  /** The search endpoint: the base URL, `/API/SearchTitle/`, the key in
      use, a slash, then the title. */
  function SearchApi(api: ImdbApi, apiKey: string, title: string): (url: string)
    ensures var head := api.url + SEARCH_DIR + "/"; var key := ApiKeyOrDefault(api, apiKey);
      && |url| == |head| + |key| + 1 + |title|
      && url[..|head|] == head && url[|head|..|head| + |key|] == key
      && url[|head| + |key|] == '/' && url[|head| + |key| + 1..] == title
  {
    api.url + SEARCH_DIR + "/" + ApiKeyOrDefault(api, apiKey) + "/" + title
  }

  function LanguageCode(lang: Language): string {
    match lang
    case En => "en"
  }

  /** The title endpoint: the base URL, the language, `/API/Title/`, the key
      in use, a slash, then the title's id. */
  function TitleInfoApi(api: ImdbApi, apiKey: string, id: string, lang: Language): (url: string)
    ensures var head := api.url + "/" + LanguageCode(lang) + TITLE_DIR + "/"; var key := ApiKeyOrDefault(api, apiKey);
      && |url| == |head| + |key| + 1 + |id|
      && url[..|head|] == head && url[|head|..|head| + |key|] == key
      && url[|head| + |key|] == '/' && url[|head| + |key| + 1..] == id
  {
    api.url + "/" + LanguageCode(lang) + TITLE_DIR + "/" + ApiKeyOrDefault(api, apiKey) + "/" + id
  }

  /** Not having a key and naming the shared key address the same endpoints. */
  lemma EmptyKeyMeansDefault(api: ImdbApi, title: string, lang: Language)
    ensures SearchApi(api, "", title) == SearchApi(api, api.defaultKey, title)
    ensures TitleInfoApi(api, "", title, lang) == TitleInfoApi(api, api.defaultKey, title, lang)
  {
  }

  /** In a path ending in two '/'-free segments, the last segment and the one
      before it are found by cutting at the last '/'. */
  lemma LastTwoSegments(prefix: string, key: string, last: string)
    requires '/' !in key && '/' !in last
    ensures AfterLast(prefix + "/" + key + "/" + last, '/') == last
    ensures AfterLast(prefix + "/" + key, '/') == key
  {
    AfterLastOfJoin(prefix + "/" + key, '/', last);
    AfterLastOfJoin(prefix, '/', key);
  }

  /** The last path segment of the search endpoint is the searched title,
      and the segment before it is the key in use. */
  lemma SearchEndpointSegments(api: ImdbApi, apiKey: string, title: string)
    requires '/' !in title && '/' !in ApiKeyOrDefault(api, apiKey)
    ensures AfterLast(SearchApi(api, apiKey, title), '/') == title
    ensures AfterLast(api.url + SEARCH_DIR + "/" + ApiKeyOrDefault(api, apiKey), '/') == ApiKeyOrDefault(api, apiKey)
  {
    LastTwoSegments(api.url + SEARCH_DIR, ApiKeyOrDefault(api, apiKey), title);
  }

  /** The last path segment of the title endpoint is the requested id, and
      the segment before it is the key in use. */
  lemma TitleEndpointSegments(api: ImdbApi, apiKey: string, id: string, lang: Language)
    requires '/' !in id && '/' !in ApiKeyOrDefault(api, apiKey)
    ensures AfterLast(TitleInfoApi(api, apiKey, id, lang), '/') == id
    ensures var head := api.url + "/" + LanguageCode(lang) + TITLE_DIR;
      AfterLast(head + "/" + ApiKeyOrDefault(api, apiKey), '/') == ApiKeyOrDefault(api, apiKey)
  {
    LastTwoSegments(api.url + "/" + LanguageCode(lang) + TITLE_DIR, ApiKeyOrDefault(api, apiKey), id);
  }

  /** The service reports failures in band, as a non-empty `errorMessage` string. */
  predicate ReportsError(data: Json) {
    Get(data, "errorMessage").Str? && Get(data, "errorMessage").s != []
  }

  /** GET `url` and read the body as JSON. The HTTP status is not consulted:
      only the `errorMessage` field decides whether the service refused. */
  function RequestDataFromImdbApi(http: string -> Reply, url: string): (r: Result<Json>)
    ensures var reply := http(url);
      && (reply.Unreachable? ==>
            r == Err(FeedBackPropagate(Context(CannotReachServer(SERVER_NAME), reply.error))))
      && (reply.Responded? && reply.body.Malformed? ==>
            r == Err(FeedBackPropagate(Context(PARSE_IMDB_API_ERROR_MESSAGE_FAILED, reply.body.error))))
      && (reply.Responded? && reply.body.Parsed? && ReportsError(reply.body.value) ==>
            r == Err(FeedBack(Leaf(Get(reply.body.value, "errorMessage").s))))
      && (r.Ok? <==> reply.Responded? && reply.body.Parsed? && !ReportsError(reply.body.value))
      && (r.Ok? ==> r.value == reply.body.value)
  {
    match http(url)
    case Unreachable(e) => Err(FeedbackPropagateError(Context(CannotReachServer(SERVER_NAME), e)))
    case Responded(_, Malformed(e)) =>
      Err(FeedbackPropagateError(Context(PARSE_IMDB_API_ERROR_MESSAGE_FAILED, e)))
    case Responded(_, Parsed(data)) =>
      if ReportsError(data) then Err(FeedbackError(Leaf(Get(data, "errorMessage").s)))
      else Ok(data)
  }

  // ---------------------------------------------------------------- search

  /** serde's reading of a `SearchResult`: an object with three string fields. */
  function DecodeSearchResult(j: Json): (r: Option<SearchResult>)
    ensures r.Some? <==> j.Obj? && Get(j, "id").Str? && Get(j, "title").Str? && Get(j, "description").Str?
    ensures r.Some? ==> Get(j, "id") == Str(r.value.id) && Get(j, "title") == Str(r.value.title)
                        && Get(j, "description") == Str(r.value.description)
  {
    if j.Obj? && Get(j, "id").Str? && Get(j, "title").Str? && Get(j, "description").Str? then
      Some(SearchResult(Get(j, "id").s, Get(j, "title").s, Get(j, "description").s))
    else None
  }

  /** A description is cut right after its first ')' (the year and kind that
      the service puts first); one without ')' is kept whole. */
  function TruncateDescription(d: string): (r: string)
    ensures |r| <= |d| && r == d[..|r|]
    ensures ')' in d ==> |r| > 0 && r[|r| - 1] == ')' && ')' !in r[..|r| - 1]
    ensures ')' !in d ==> r == d
  {
    var i := FirstOf(d, {')'});
    if i < |d| then
      assert d[..i + 1][..i] == d[..i];
      d[..i + 1]
    else
      assert d[..i] == d;
      d
  }

  lemma TruncateIdempotent(d: string)
    ensures TruncateDescription(TruncateDescription(d)) == TruncateDescription(d)
  {
    var r := TruncateDescription(d);
    if ')' in d {
      var t := TruncateDescription(r);
      assert r[|r| - 1] in r;
      assert |t| > 0 && t[|t| - 1] == ')';
    }
  }

  function Shorten(s: SearchResult): (r: SearchResult)
    ensures r.id == s.id && r.title == s.title
    ensures |r.description| <= |s.description| && r.description == s.description[..|r.description|]
    ensures ')' !in s.description ==> r == s
  {
    s.(description := TruncateDescription(s.description))
  }

  /** `filter_map` over the results: each item that reads as a `SearchResult`
      is kept, in order, with its description shortened; the others are skipped. */
  function CollectResults(items: seq<Json>): (r: seq<SearchResult>)
    ensures |r| <= |items|
    ensures items != [] && DecodeSearchResult(items[0]).Some? ==>
      r != [] && r[0] == Shorten(DecodeSearchResult(items[0]).value)
    ensures items != [] && DecodeSearchResult(items[0]).None? ==> r == CollectResults(items[1..])
  {
    if items == [] then []
    else
      var rest := CollectResults(items[1..]);
      match DecodeSearchResult(items[0])
      case Some(s) => [Shorten(s)] + rest
      case None => rest
  }

  /** Collecting distributes over concatenation, so the provider's order is kept. */
  lemma {:induction false} CollectAppend(a: seq<Json>, b: seq<Json>)
    ensures CollectResults(a + b) == CollectResults(a) + CollectResults(b)
  {
    if a == [] {
      assert a + b == b;
    } else {
      assert (a + b)[0] == a[0] && (a + b)[1..] == a[1..] + b;
      CollectAppend(a[1..], b);
    }
  }

  /** When every item reads, one result per item, item by item. */
  lemma {:induction false} CollectAllDecodable(items: seq<Json>)
    requires forall i :: 0 <= i < |items| ==> DecodeSearchResult(items[i]).Some?
    ensures |CollectResults(items)| == |items|
    ensures forall i :: 0 <= i < |items| ==>
      CollectResults(items)[i] == Shorten(DecodeSearchResult(items[i]).value)
  {
    if items != [] {
      CollectAllDecodable(items[1..]);
      assert forall i :: 1 <= i < |items| ==> items[1..][i - 1] == items[i];
    }
  }

  /** `x` is the shortened reading of some item. */
  predicate ComesFrom(x: SearchResult, items: seq<Json>) {
    exists i :: 0 <= i < |items| && DecodeSearchResult(items[i]).Some?
                && x == Shorten(DecodeSearchResult(items[i]).value)
  }

  /** Every result comes from some item of the input. */
  lemma {:induction false} CollectFromItems(items: seq<Json>)
    ensures forall x :: x in CollectResults(items) ==> ComesFrom(x, items)
  {
    if items != [] {
      CollectFromItems(items[1..]);
      var rest := CollectResults(items[1..]);
      forall x | x in CollectResults(items)
        ensures ComesFrom(x, items)
      {
        if x in rest {
          var i :| 0 <= i < |items[1..]| && DecodeSearchResult(items[1..][i]).Some?
                   && x == Shorten(DecodeSearchResult(items[1..][i]).value);
          assert items[1..][i] == items[i + 1];
        } else {
          assert DecodeSearchResult(items[0]).Some? && x == Shorten(DecodeSearchResult(items[0]).value);
        }
      }
    }
  }

  /** Rust's `take(n)`: the first `n` items, or all of them. */
  function Take<T>(items: seq<T>, n: nat): (r: seq<T>)
    ensures |r| == if n < |items| then n else |items|
    ensures r == items[..|r|]
  {
    if n < |items| then items[..n] else items
  }

  /** Searches by title: at most `limits` items of `results` are looked at
      (before unreadable ones are dropped, so fewer may come back), and a
      body whose `results` is not an array yields no results at all. */
  function Search(api: ImdbApi, http: string -> Reply, apiKey: string, keyword: string, limits: nat)
    : (r: Result<seq<SearchResult>>)
    ensures var data := RequestDataFromImdbApi(http, SearchApi(api, apiKey, keyword));
      && (r.Err? <==> data.Err?)
      && (data.Err? ==> r.error == data.error)
      && (r.Ok? ==> |r.value| <= limits)
      && (r.Ok? && !Get(data.value, "results").Arr? ==> r.value == [])
      && (r.Ok? && Get(data.value, "results").Arr? ==>
            r.value == CollectResults(Take(Get(data.value, "results").items, limits)))
  {
    var data :- RequestDataFromImdbApi(http, SearchApi(api, apiKey, keyword));
    match Get(data, "results")
    case Arr(results) => Ok(CollectResults(Take(results, limits)))
    case _ => Ok([])
  }

  /** When the first `limits` items all read, exactly that many results come
      back, each the shortened reading of its item. */
  lemma SearchAllDecodable(api: ImdbApi, http: string -> Reply, apiKey: string, keyword: string, limits: nat)
    requires var data := RequestDataFromImdbApi(http, SearchApi(api, apiKey, keyword));
      data.Ok? && Get(data.value, "results").Arr?
      && forall i :: 0 <= i < |Get(data.value, "results").items| && i < limits ==>
           DecodeSearchResult(Get(data.value, "results").items[i]).Some?
    ensures var data := RequestDataFromImdbApi(http, SearchApi(api, apiKey, keyword));
      var items := Get(data.value, "results").items;
      var r := Search(api, http, apiKey, keyword, limits);
      && r.Ok?
      && |r.value| == (if limits < |items| then limits else |items|)
      && forall i :: 0 <= i < |r.value| ==> r.value[i] == Shorten(DecodeSearchResult(items[i]).value)
  {
    var data := RequestDataFromImdbApi(http, SearchApi(api, apiKey, keyword));
    var items := Get(data.value, "results").items;
    var taken := Take(items, limits);
    assert forall i :: 0 <= i < |taken| ==> taken[i] == items[i];
    CollectAllDecodable(taken);
  }

  /** Items past the cap are never looked at: if the first `limits` items are
      all unreadable, the search comes back empty whatever follows them. */
  lemma SearchCapsBeforeFiltering(api: ImdbApi, http: string -> Reply, apiKey: string, keyword: string, limits: nat)
    requires var data := RequestDataFromImdbApi(http, SearchApi(api, apiKey, keyword));
      data.Ok? && Get(data.value, "results").Arr?
      && forall i :: 0 <= i < |Get(data.value, "results").items| && i < limits ==>
           DecodeSearchResult(Get(data.value, "results").items[i]).None?
    ensures Search(api, http, apiKey, keyword, limits) == Ok([])
  {
    var data := RequestDataFromImdbApi(http, SearchApi(api, apiKey, keyword));
    NoneDecodable(Take(Get(data.value, "results").items, limits));
  }

  lemma {:induction false} NoneDecodable(items: seq<Json>)
    requires forall i :: 0 <= i < |items| ==> DecodeSearchResult(items[i]).None?
    ensures CollectResults(items) == []
  {
    if items != [] {
      assert forall i :: 0 <= i < |items[1..]| ==> items[1..][i] == items[i + 1];
      NoneDecodable(items[1..]);
    }
  }

  // ----------------------------------------------------------- title record

  datatype IdentityObj = IdentityObj(id: string, name: string)

  datatype KeyValueObj = KeyValueObj(key: string, value: string)

  /** The title record as the service sends it (camelCase field names). */
  datatype ImdbApiMovieInfo = ImdbApiMovieInfo(
    id: string,
    title: string,
    originalTitle: Option<string>,
    fullTitle: Option<string>,
    movieType: Option<string>,
    year: Option<string>,
    image: Option<string>,
    releaseDate: Option<string>,
    runtimeMins: Option<string>,
    plot: Option<string>,
    plotLocal: Option<string>,
    directorList: seq<IdentityObj>,
    starList: seq<IdentityObj>,
    genreList: seq<KeyValueObj>,
    countryList: seq<KeyValueObj>,
    languageList: seq<KeyValueObj>,
    contentRating: Option<string>,
    imdbRating: Option<string>,
    keywordList: seq<string>)

  /** A `String` field: present and a string. */
  function RequiredString(j: Json, key: string): (r: Option<string>)
    ensures r.Some? <==> Get(j, key).Str?
    ensures r.Some? ==> Get(j, key) == Str(r.value)
  {
    AsStr(Get(j, key))
  }

  /** An `Option<String>` field: absent or null reads as `None`, a string as
      `Some`, anything else fails (the outer `None`). */
  function OptionalString(j: Json, key: string): (r: Option<Option<string>>)
    ensures r.Some? <==> Get(j, key).Null? || Get(j, key).Str?
    ensures r.Some? ==> (r.value.None? <==> Get(j, key).Null?)
    ensures r.Some? && r.value.Some? ==> Get(j, key) == Str(r.value.value)
  {
    match Get(j, key)
    case Null => Some(None)
    case Str(s) => Some(Some(s))
    case _ => None
  }

  /** An `IdentityObj`: an object with string `id` and `name`. */
  function DecodeIdentityObj(j: Json): (r: Option<IdentityObj>)
    ensures r.Some? <==> j.Obj? && Get(j, "id").Str? && Get(j, "name").Str?
    ensures r.Some? ==> Get(j, "id") == Str(r.value.id) && Get(j, "name") == Str(r.value.name)
  {
    if j.Obj? && Get(j, "id").Str? && Get(j, "name").Str? then Some(IdentityObj(Get(j, "id").s, Get(j, "name").s))
    else None
  }

  /** A `KeyValueObj`: an object with string `key` and `value`. */
  function DecodeKeyValueObj(j: Json): (r: Option<KeyValueObj>)
    ensures r.Some? <==> j.Obj? && Get(j, "key").Str? && Get(j, "value").Str?
    ensures r.Some? ==> Get(j, "key") == Str(r.value.key) && Get(j, "value") == Str(r.value.value)
  {
    if j.Obj? && Get(j, "key").Str? && Get(j, "value").Str? then Some(KeyValueObj(Get(j, "key").s, Get(j, "value").s))
    else None
  }

  /** A `Vec<T>` read element by element: all elements must read. */
  function DecodeAll<T>(items: seq<Json>, decode: Json -> Option<T>): (r: Option<seq<T>>)
    ensures r.Some? <==> forall i :: 0 <= i < |items| ==> decode(items[i]).Some?
    ensures r.Some? ==> |r.value| == |items|
                        && forall i :: 0 <= i < |items| ==> decode(items[i]) == Some(r.value[i])
  {
    if items == [] then Some([])
    else
      var first :- decode(items[0]);
      var rest :- DecodeAll(items[1..], decode);
      assert forall i :: 1 <= i < |items| ==> items[i] == items[1..][i - 1];
      Some([first] + rest)
  }

  /** A `Vec<T>` field: present, an array, and every element reads. */
  function RequiredList<T>(j: Json, key: string, decode: Json -> Option<T>): (r: Option<seq<T>>)
    ensures r.Some? <==> Get(j, key).Arr? && forall i :: 0 <= i < |Get(j, key).items| ==> decode(Get(j, key).items[i]).Some?
    ensures r.Some? ==> |r.value| == |Get(j, key).items|
    ensures r.Some? ==> forall i :: 0 <= i < |r.value| ==> decode(Get(j, key).items[i]) == Some(r.value[i])
  {
    if Get(j, key).Arr? then DecodeAll(Get(j, key).items, decode) else None
  }

  /** serde's reading of an `ImdbApiMovieInfo` from a JSON object: it reads
      exactly when the object has every field in the right shape, and then
      each field of the record is what its own field reader gives. */
  function DecodeImdbApiMovieInfo(j: Json): (r: Option<ImdbApiMovieInfo>)
    ensures r.Some? <==>
      && j.Obj? && Get(j, "id").Str? && Get(j, "title").Str?
      && OptionalString(j, "originalTitle").Some? && OptionalString(j, "fullTitle").Some?
      && OptionalString(j, "type").Some? && OptionalString(j, "year").Some?
      && OptionalString(j, "image").Some? && OptionalString(j, "releaseDate").Some?
      && OptionalString(j, "runtimeMins").Some? && OptionalString(j, "plot").Some?
      && OptionalString(j, "plotLocal").Some? && OptionalString(j, "contentRating").Some?
      && OptionalString(j, "imDbRating").Some?
      && RequiredList(j, "directorList", DecodeIdentityObj).Some?
      && RequiredList(j, "starList", DecodeIdentityObj).Some?
      && RequiredList(j, "genreList", DecodeKeyValueObj).Some?
      && RequiredList(j, "countryList", DecodeKeyValueObj).Some?
      && RequiredList(j, "languageList", DecodeKeyValueObj).Some?
      && RequiredList(j, "keywordList", AsStr).Some?
    ensures r.Some? ==> Get(j, "id") == Str(r.value.id) && Get(j, "title") == Str(r.value.title)
    ensures r.Some? ==>
      && OptionalString(j, "originalTitle") == Some(r.value.originalTitle)
      && OptionalString(j, "fullTitle") == Some(r.value.fullTitle)
      && OptionalString(j, "type") == Some(r.value.movieType)
      && OptionalString(j, "year") == Some(r.value.year)
      && OptionalString(j, "image") == Some(r.value.image)
      && OptionalString(j, "releaseDate") == Some(r.value.releaseDate)
      && OptionalString(j, "runtimeMins") == Some(r.value.runtimeMins)
      && OptionalString(j, "plot") == Some(r.value.plot)
      && OptionalString(j, "plotLocal") == Some(r.value.plotLocal)
      && OptionalString(j, "contentRating") == Some(r.value.contentRating)
      && OptionalString(j, "imDbRating") == Some(r.value.imdbRating)
    ensures r.Some? ==>
      && RequiredList(j, "directorList", DecodeIdentityObj) == Some(r.value.directorList)
      && RequiredList(j, "starList", DecodeIdentityObj) == Some(r.value.starList)
      && RequiredList(j, "genreList", DecodeKeyValueObj) == Some(r.value.genreList)
      && RequiredList(j, "countryList", DecodeKeyValueObj) == Some(r.value.countryList)
      && RequiredList(j, "languageList", DecodeKeyValueObj) == Some(r.value.languageList)
      && RequiredList(j, "keywordList", AsStr) == Some(r.value.keywordList)
  {
    if !j.Obj? then None
    else
      var id :- RequiredString(j, "id");
      var title :- RequiredString(j, "title");
      var originalTitle :- OptionalString(j, "originalTitle");
      var fullTitle :- OptionalString(j, "fullTitle");
      var movieType :- OptionalString(j, "type");
      var year :- OptionalString(j, "year");
      var image :- OptionalString(j, "image");
      var releaseDate :- OptionalString(j, "releaseDate");
      var runtimeMins :- OptionalString(j, "runtimeMins");
      var plot :- OptionalString(j, "plot");
      var plotLocal :- OptionalString(j, "plotLocal");
      var directorList :- RequiredList(j, "directorList", DecodeIdentityObj);
      var starList :- RequiredList(j, "starList", DecodeIdentityObj);
      var genreList :- RequiredList(j, "genreList", DecodeKeyValueObj);
      var countryList :- RequiredList(j, "countryList", DecodeKeyValueObj);
      var languageList :- RequiredList(j, "languageList", DecodeKeyValueObj);
      var contentRating :- OptionalString(j, "contentRating");
      var imdbRating :- OptionalString(j, "imDbRating");
      var keywordList :- RequiredList(j, "keywordList", AsStr);
      Some(ImdbApiMovieInfo(id, title, originalTitle, fullTitle, movieType, year, image, releaseDate,
        runtimeMins, plot, plotLocal, directorList, starList, genreList, countryList, languageList,
        contentRating, imdbRating, keywordList))
  }

  /** `unwrap_or_default` on an optional string. */
  function OrEmpty(o: Option<string>): string {
    if o.Some? then o.value else ""
  }

  function ParseU32Field(o: Option<string>): Option<U32> {
    if o.Some? && ParseU32(o.value).Some? then Some(ParseU32(o.value).value) else None
  }

  function ParseDateField(o: Option<string>): Option<NaiveDate> {
    if o.Some? then ParseIso(o.value) else None
  }

  function ParseRatingField(o: Option<string>): Option<Float64> {
    if o.Some? && IsF64Literal(o.value) then Some(Float64(o.value)) else None
  }

  function Names(people: seq<IdentityObj>): seq<string> {
    seq(|people|, i requires 0 <= i < |people| => people[i].name)
  }

  function Values(pairs: seq<KeyValueObj>): seq<string> {
    seq(|pairs|, i requires 0 <= i < |pairs| => pairs[i].value)
  }

  /** The normalised record of a title. */
  function ToMovieInfo(info: ImdbApiMovieInfo): (m: MovieInfo)
    ensures m.title == info.title && m.imdbLink == IMDB_TITLE_URL + info.id
    ensures |m.directorList| == |info.directorList| && |m.starList| == |info.starList|
    ensures |m.genreList| == |info.genreList| && |m.countryList| == |info.countryList|
    ensures |m.languageList| == |info.languageList|
  {
    MovieInfo(
      info.title,
      OrEmpty(info.movieType),
      ParseU32Field(info.year),
      OrEmpty(info.image),
      ParseDateField(info.releaseDate),
      ParseU32Field(info.runtimeMins),
      OrEmpty(info.plot),
      Names(info.directorList),
      Names(info.starList),
      Values(info.genreList),
      Values(info.countryList),
      Values(info.languageList),
      OrEmpty(info.contentRating),
      ParseRatingField(info.imdbRating),
      IMDB_TITLE_URL + info.id)
  }

  /** Text fields the service left out become empty; the link is the title's
      IMDb page, whose last segment is the id. */
  lemma ToMovieInfoText(info: ImdbApiMovieInfo)
    ensures var m := ToMovieInfo(info);
      && m.title == info.title
      && (info.movieType.None? ==> m.movieType == []) && (info.movieType.Some? ==> m.movieType == info.movieType.value)
      && (info.image.None? ==> m.image == []) && (info.image.Some? ==> m.image == info.image.value)
      && (info.plot.None? ==> m.plot == []) && (info.plot.Some? ==> m.plot == info.plot.value)
      && (info.contentRating.None? ==> m.contentRating == [])
      && (info.contentRating.Some? ==> m.contentRating == info.contentRating.value)
      && |m.imdbLink| == |IMDB_TITLE_URL| + |info.id|
      && m.imdbLink[..|IMDB_TITLE_URL|] == IMDB_TITLE_URL && m.imdbLink[|IMDB_TITLE_URL|..] == info.id
  {
  }

  /** Year and running time are numbers only when their text is a `u32`;
      a printed `u32` always comes back. */
  lemma ToMovieInfoNumbers(info: ImdbApiMovieInfo)
    ensures var m := ToMovieInfo(info);
      && (m.year.Some? <==> info.year.Some? && ParseU32(info.year.value).Some?)
      && (m.year.Some? ==> Some(m.year.value as nat) == ParseU32(info.year.value))
      && (m.runtime.Some? <==> info.runtimeMins.Some? && ParseU32(info.runtimeMins.value).Some?)
      && (m.runtime.Some? ==> Some(m.runtime.value as nat) == ParseU32(info.runtimeMins.value))
  {
  }

  lemma YearRoundTrip(info: ImdbApiMovieInfo, n: nat)
    requires n < U32_LIMIT && info.year == Some(Decimal(n))
    ensures ToMovieInfo(info).year == Some(n)
  {
    ParseU32Decimal(n);
  }

  /** A release date is kept only when it reads as a calendar date; every
      date of a four-digit year printed as YYYY-MM-DD reads back. The rating
      is kept (as its literal) only when it reads as an `f64`. */
  lemma ToMovieInfoDateAndRating(info: ImdbApiMovieInfo)
    ensures var m := ToMovieInfo(info);
      && (m.releaseDate.Some? <==> info.releaseDate.Some? && ParseIso(info.releaseDate.value).Some?)
      && (m.releaseDate.Some? ==> m.releaseDate == ParseIso(info.releaseDate.value))
      && (m.imdbRating.Some? <==> info.imdbRating.Some? && IsF64Literal(info.imdbRating.value))
      && (m.imdbRating.Some? ==> m.imdbRating.value.literal == info.imdbRating.value)
  {
  }

  lemma ReleaseDateRoundTrip(info: ImdbApiMovieInfo, d: NaiveDate)
    requires 0 <= d.year <= 9999 && info.releaseDate == Some(ToIsoString(d))
    ensures ToMovieInfo(info).releaseDate == Some(d)
  {
    IsoRoundTrip(d);
  }

  /** People keep their names and tags their values, in the service's order,
      one for one. */
  lemma ToMovieInfoLists(info: ImdbApiMovieInfo)
    ensures var m := ToMovieInfo(info);
      && |m.directorList| == |info.directorList|
      && (forall i :: 0 <= i < |info.directorList| ==> m.directorList[i] == info.directorList[i].name)
      && |m.starList| == |info.starList|
      && (forall i :: 0 <= i < |info.starList| ==> m.starList[i] == info.starList[i].name)
      && |m.genreList| == |info.genreList|
      && (forall i :: 0 <= i < |info.genreList| ==> m.genreList[i] == info.genreList[i].value)
      && |m.countryList| == |info.countryList|
      && (forall i :: 0 <= i < |info.countryList| ==> m.countryList[i] == info.countryList[i].value)
      && |m.languageList| == |info.languageList|
      && (forall i :: 0 <= i < |info.languageList| ==> m.languageList[i] == info.languageList[i].value)
  {
  }

  /** Reads a response body as a title record: one that is not a record is
      escalated with context, a record is normalised. */
  function MovieInfoOf(data: Json): (r: Result<MovieInfo>)
    ensures DecodeImdbApiMovieInfo(data).None? ==>
      r == Err(FeedBackPropagate(Context(PARSE_IMDB_API_RESPONSE_FAILED, DecodeError("ImdbApiMovieInfo"))))
    ensures r.Ok? <==> DecodeImdbApiMovieInfo(data).Some?
    ensures r.Ok? ==> Get(data, "title") == Str(r.value.title)
                      && Get(data, "id").Str? && r.value.imdbLink == IMDB_TITLE_URL + Get(data, "id").s
  {
    match DecodeImdbApiMovieInfo(data)
    case None => Err(FeedbackPropagateError(Context(PARSE_IMDB_API_RESPONSE_FAILED, DecodeError("ImdbApiMovieInfo"))))
    case Some(info) => Ok(ToMovieInfo(info))
  }

  /** Fetches a title's record; request errors pass through unchanged. */
  function RequestMovieInformation(api: ImdbApi, http: string -> Reply, apiKey: string, id: string, lang: Language)
    : (r: Result<MovieInfo>)
    ensures var data := RequestDataFromImdbApi(http, TitleInfoApi(api, apiKey, id, lang));
      && (data.Err? ==> r == Err(data.error))
      && (data.Ok? ==> r == MovieInfoOf(data.value))
  {
    var data :- RequestDataFromImdbApi(http, TitleInfoApi(api, apiKey, id, lang));
    MovieInfoOf(data)
  }
}
