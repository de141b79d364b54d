/** The Notion side of the bot (src/api/notion/mod.rs): creating the movie
    list database, turning a user's page link or id into a page id, building
    the page for one title and classifying Notion's answers into `BotError`s.

    The HTTP client is a parameter `http`: the reply the environment gives to
    each request. */
module Notion {
  import opened Wrappers
  import opened Text
  import opened Errors
  import opened Json
  import opened Http
  import opened Transcripts
  import opened Calendar
  import opened Movie
  import opened NotionObjects
  import opened WebUrl

  const DATABASES_URL := "https://api.notion.com/v1/databases"
  const PAGES_URL := "https://api.notion.com/v1/pages"
  const NOTION_VERSION := "2022-06-28"
  const SERVER_NAME := "Notion"

  /** A POST to the Notion API: URL, `Notion-Version` header, bearer token and JSON body. */
  datatype NotionRequest = NotionRequest(url: string, version: string, bearer: string, body: Json)

  /** The error body Notion sends with a failed request. */
  datatype NotionErrorObj = NotionErrorObj(object: string, status: nat, code: string, message: string)

  /** serde's reading of `DatabaseObj`: an object with a string `id`. */
  function DecodeDatabaseObj(j: Json): (r: Option<string>)
    ensures r.Some? <==> j.Obj? && Get(j, "id").Str?
    ensures r.Some? ==> Get(j, "id") == Str(r.value)
  {
    if j.Obj? && Get(j, "id").Str? then Some(Get(j, "id").s) else None
  }

  /** serde's reading of `NotionErrorObj`: three strings and a `u16` status. */
  function DecodeNotionErrorObj(j: Json): (r: Option<NotionErrorObj>)
    ensures r.Some? ==> Get(j, "message") == Str(r.value.message) && r.value.status < 0x1_0000
    ensures r.Some? <==> j.Obj? && Get(j, "object").Str? && Get(j, "code").Str? && Get(j, "message").Str?
                         && Get(j, "status").Num? && Get(j, "status").n.Int?
                         && 0 <= Get(j, "status").n.i < 0x1_0000
  {
    if j.Obj? && Get(j, "object").Str? && Get(j, "code").Str? && Get(j, "message").Str?
       && Get(j, "status").Num? && Get(j, "status").n.Int? && 0 <= Get(j, "status").n.i < 0x1_0000
    then Some(NotionErrorObj(Get(j, "object").s, Get(j, "status").n.i, Get(j, "code").s, Get(j, "message").s))
    else None
  }

  /** `request_data_from_notion`: a request that gets no response is shown to
      the user as "cannot reach Notion" and escalated. */
  function RequestDataFromNotion(reply: Reply): (r: Result<(nat, Payload)>)
    ensures r.Ok? <==> reply.Responded?
    ensures r.Ok? ==> r.value == (reply.status, reply.body)
    ensures r.Err? ==> r.error == FeedBackPropagate(Context(CannotReachServer(SERVER_NAME), reply.error))
  {
    match reply
    case Unreachable(e) => Err(FeedbackPropagateError(Context(CannotReachServer(SERVER_NAME), e)))
    case Responded(status, body) => Ok((status, body))
  }

  // ---------------------------------------------------------------------------
  // The movie list database

  /** The columns of the movie list. */
  const PROPERTY_NAMES: set<string> := {
    "Title", "Type", "Year", "Release Date", "Runtime", "Plot", "Director", "Star",
    "Genre", "Country", "Language", "Content Rating", "IMDb Rating", "IMDb Link"}

  function EmptySchema(kind: string): Json {
    Obj(map[kind := Obj(map[])])
  }

  function OptionsSchema(kind: string): Json {
    Obj(map[kind := Obj(map["options" := Arr([])])])
  }

  function MultiSelectSchema(): Json {
    Obj(map["type" := Str("multi_select"), "multi_select" := Obj(map["options" := Arr([])])])
  }

  /** The column types of the movie list. */
  function DatabaseSchema(): (j: Json)
    ensures j.Obj? && j.fields.Keys == PROPERTY_NAMES
  {
    Obj(map[
      "Title" := EmptySchema("title"),
      "Type" := OptionsSchema("select"),
      "Year" := EmptySchema("number"),
      "Release Date" := EmptySchema("date"),
      "Runtime" := EmptySchema("number"),
      "Plot" := EmptySchema("rich_text"),
      "Director" := MultiSelectSchema(),
      "Star" := MultiSelectSchema(),
      "Genre" := MultiSelectSchema(),
      "Country" := MultiSelectSchema(),
      "Language" := MultiSelectSchema(),
      "Content Rating" := EmptySchema("rich_text"),
      "IMDb Rating" := EmptySchema("number"),
      "IMDb Link" := EmptySchema("url")])
  }

  /** The body of the create-database request: a "Movie List" database with
      a clapper-board icon under page `pageId`. */
  function DatabaseBody(pageId: string): (j: Json)
    ensures Get(Get(j, "parent"), "page_id") == Str(pageId)
    ensures Get(Get(j, "parent"), "type") == Str("page_id")
    ensures Get(j, "properties") == DatabaseSchema()
  {
    Obj(map[
      "parent" := Obj(map["type" := Str("page_id"), "page_id" := Str(pageId)]),
      "icon" := Obj(map["type" := Str("emoji"), "emoji" := Str("\U{1F3AC}")]),
      "title" := Arr([Obj(map[
        "type" := Str("text"),
        "text" := Obj(map["content" := Str("Movie List"), "link" := Null])])]),
      "properties" := DatabaseSchema()])
  }

  /** `create_database`: the new database's id, or the error the user (and
      possibly the maintainers) get to see. */
  function CreateDatabase(http: NotionRequest -> Reply, token: string, pageId: string): (r: Result<string>)
    ensures var reply := http(NotionRequest(DATABASES_URL, NOTION_VERSION, token, DatabaseBody(pageId)));
      && (reply.Unreachable? ==> r == Err(FeedBackPropagate(Context(CannotReachServer(SERVER_NAME), reply.error))))
      && (r.Ok? <==> reply.Responded? && IsSuccess(reply.status)
                     && reply.body.Parsed? && DecodeDatabaseObj(reply.body.value).Some?)
      && (r.Ok? ==> Get(reply.body.value, "id") == Str(r.value))
      // Notion refusing the request is the user's to fix: shown, never escalated.
      && (reply.Responded? && !IsSuccess(reply.status) ==> r.Err? && r.error.FeedBack?)
      && (reply.Responded? && !IsSuccess(reply.status) && reply.body.Parsed?
          && DecodeNotionErrorObj(reply.body.value).Some?
          ==> r.error.cause == Leaf(DecodeNotionErrorObj(reply.body.value).value.message))
      // A success answer that cannot be read is the bot's bug: escalated only.
      && (reply.Responded? && IsSuccess(reply.status) && r.Err? ==> r.error.Propagate?)
  {
    var (status, body) :- RequestDataFromNotion(http(NotionRequest(DATABASES_URL, NOTION_VERSION, token, DatabaseBody(pageId))));
    if !IsSuccess(status) then
      match DecodeAs(body, DecodeNotionErrorObj, "NotionErrorObj")
      case Undecodable(e) => Err(FeedbackError(Context(PARSE_NOTION_ERROR_MESSAGE_FAILED, e)))
      case Decoded(obj) => Err(FeedbackError(Leaf(obj.message)))
    else
      match DecodeAs(body, DecodeDatabaseObj, "DatabaseObj")
      case Undecodable(e) => Err(PropagateError(e))
      case Decoded(id) => Ok(id)
  }

  // ---------------------------------------------------------------------------
  // One page per title

  /** The value the page gives column `name`: title and link always, every
      other column only when the title record has a value for it. */
  function PageProperty(info: MovieInfo, name: string): (r: Option<Json>)
    ensures r.Some? ==> name in PROPERTY_NAMES
    ensures name == "Title" || name == "IMDb Link" ==> r.Some?
  {
    if name == "Title" then Some(TitleProperty(info.title))
    else if name == "Type" then
      if info.movieType != [] then Some(SelectProperty(info.movieType)) else None
    else if name == "Year" then
      if info.year.Some? then Some(U32NumberProperty(info.year.value)) else None
    else if name == "Release Date" then
      if info.releaseDate.Some? then Some(DateProperty(info.releaseDate.value)) else None
    else if name == "Runtime" then
      if info.runtime.Some? then Some(U32NumberProperty(info.runtime.value)) else None
    else if name == "Plot" then
      if info.plot != [] then Some(TextProperty(info.plot)) else None
    else if name == "Director" then
      if info.directorList != [] then Some(MultiSelectProperty(info.directorList)) else None
    else if name == "Star" then
      if info.starList != [] then Some(MultiSelectProperty(info.starList)) else None
    else if name == "Genre" then
      if info.genreList != [] then Some(MultiSelectProperty(info.genreList)) else None
    else if name == "Country" then
      if info.countryList != [] then Some(MultiSelectProperty(info.countryList)) else None
    else if name == "Language" then
      if info.languageList != [] then Some(MultiSelectProperty(info.languageList)) else None
    else if name == "Content Rating" then
      if info.contentRating != [] then Some(TextProperty(info.contentRating)) else None
    else if name == "IMDb Rating" then
      if info.imdbRating.Some? then Some(F64NumberProperty(info.imdbRating.value)) else None
    else if name == "IMDb Link" then Some(UrlProperty(info.imdbLink))
    else None
  }

  /** The properties of the page for `info`, one per column that has a value. */
  function PageProperties(info: MovieInfo): (props: map<string, Json>)
    ensures props.Keys <= PROPERTY_NAMES
    ensures "Title" in props && "IMDb Link" in props
  {
    map name | name in PROPERTY_NAMES && PageProperty(info, name).Some? :: PageProperty(info, name).value
  }

  /** `notion_create_page_body`: a page in database `dbId`, with the poster
      as its cover when there is one. */
  function PageBody(dbId: string, info: MovieInfo): (page: Json)
    ensures page.Obj? && Get(page, "parent") == ParentObject(dbId)
    ensures Get(page, "properties") == Obj(PageProperties(info))
  {
    var body := NewDatabaseObject().fields;
    var body := if info.image != [] then body["cover" := FileObject(info.image)] else body;
    var body := body["properties" := Obj(PageProperties(info))];
    Obj(body["parent" := ParentObject(dbId)])
  }

  /** Whether the title record has a value for column `name`. */
  predicate SourcePresent(info: MovieInfo, name: string) {
    match name
    case "Title" => true
    case "IMDb Link" => true
    case "Type" => info.movieType != []
    case "Year" => info.year.Some?
    case "Release Date" => info.releaseDate.Some?
    case "Runtime" => info.runtime.Some?
    case "Plot" => info.plot != []
    case "Director" => info.directorList != []
    case "Star" => info.starList != []
    case "Genre" => info.genreList != []
    case "Country" => info.countryList != []
    case "Language" => info.languageList != []
    case "Content Rating" => info.contentRating != []
    case "IMDb Rating" => info.imdbRating.Some?
    case _ => false
  }

  lemma PagePropertiesOf(dbId: string, info: MovieInfo)
    ensures Get(PageBody(dbId, info), "properties") == Obj(PageProperties(info))
  {
  }

  /** A column is among the page's properties iff the page gives it a value. */
  lemma InPageProperties(info: MovieInfo, name: string)
    ensures name in PageProperties(info) <==> PageProperty(info, name).Some?
  {
  }

  lemma PresentIffA(info: MovieInfo, name: string)
    requires name in {"Title", "Type", "Year", "Release Date", "Runtime"}
    ensures name in PageProperties(info) <==> SourcePresent(info, name)
  {
    InPageProperties(info, name);
    if name == "Title" {
    } else if name == "Type" {
    } else if name == "Year" {
    } else if name == "Release Date" {
    } else if name == "Runtime" {
    }
  }

  lemma PresentIffB(info: MovieInfo, name: string)
    requires name in {"Plot", "Director", "Star", "Genre", "Country"}
    ensures name in PageProperties(info) <==> SourcePresent(info, name)
  {
    InPageProperties(info, name);
    if name == "Plot" {
    } else if name == "Director" {
    } else if name == "Star" {
    } else if name == "Genre" {
    } else if name == "Country" {
    }
  }

  lemma PresentIffC(info: MovieInfo, name: string)
    requires name in {"Language", "Content Rating"}
    ensures name in PageProperties(info) <==> SourcePresent(info, name)
  {
    InPageProperties(info, name);
    if name == "Language" {
    } else if name == "Content Rating" {
    }
  }

  lemma PresentIffD(info: MovieInfo, name: string)
    requires name in {"IMDb Rating", "IMDb Link"}
    ensures name in PageProperties(info) <==> SourcePresent(info, name)
  {
    InPageProperties(info, name);
    if name == "IMDb Rating" {
    } else if name == "IMDb Link" {
    }
  }

  /** A page sets a property exactly when the record has a value for it. */
  lemma PagePropertyPresentIff(dbId: string, info: MovieInfo, name: string)
    ensures Get(PageBody(dbId, info), "properties").Obj?
    ensures name in Get(PageBody(dbId, info), "properties").fields <==> SourcePresent(info, name)
  {
    PagePropertiesOf(dbId, info);
    if name in {"Title", "Type", "Year", "Release Date", "Runtime"} {
      PresentIffA(info, name);
    } else if name in {"Plot", "Director", "Star", "Genre", "Country"} {
      PresentIffB(info, name);
    } else if name in {"Language", "Content Rating"} {
      PresentIffC(info, name);
    } else if name in {"IMDb Rating", "IMDb Link"} {
      PresentIffD(info, name);
    }
  }

  /** Every property a page sets is a column of the movie list database. */
  lemma PageFitsSchema(dbId: string, info: MovieInfo)
    ensures Get(PageBody(dbId, info), "properties").Obj?
    ensures Get(PageBody(dbId, info), "properties").fields.Keys <= DatabaseSchema().fields.Keys
  {
    PagePropertiesOf(dbId, info);
  }

  /** The page sits in database `dbId` and has a cover exactly when the record has a poster. */
  lemma PageBodyShape(dbId: string, info: MovieInfo)
    ensures PageBody(dbId, info).Obj?
    ensures Get(Get(PageBody(dbId, info), "parent"), "database_id") == Str(dbId)
    ensures "cover" in PageBody(dbId, info).fields <==> info.image != []
    ensures info.image != [] ==> Get(Get(Get(PageBody(dbId, info), "cover"), "external"), "url") == Str(info.image)
    ensures PageBody(dbId, info).fields.Keys == {"properties", "parent"} + (if info.image != [] then {"cover"} else {})
  {
  }

  /** The value a page gives an existing column, as read from the page body. */
  function PageValue(dbId: string, info: MovieInfo, name: string): (j: Json)
    requires name in PROPERTY_NAMES
    ensures PageProperty(info, name).Some? ==> j == PageProperty(info, name).value
  {
    PagePropertiesOf(dbId, info);
    Get(Get(PageBody(dbId, info), "properties"), name)
  }

  /** The title and the link read back as the record's. */
  lemma PageTitleAndLink(dbId: string, info: MovieInfo)
    ensures TextContents(Get(PageValue(dbId, info, "Title"), "title")) == Some([info.title])
    ensures Get(PageValue(dbId, info, "IMDb Link"), "url") == Str(info.imdbLink)
  {
  }

  /** The type, year, runtime and rating read back as the record's. */
  lemma PageScalarsReadBack(dbId: string, info: MovieInfo)
    ensures info.movieType != [] ==> Get(Get(PageValue(dbId, info, "Type"), "select"), "name") == Str(info.movieType)
    ensures info.year.Some? ==> Get(PageValue(dbId, info, "Year"), "number") == Num(Int(info.year.value))
    ensures info.runtime.Some? ==> Get(PageValue(dbId, info, "Runtime"), "number") == Num(Int(info.runtime.value))
    ensures info.imdbRating.Some? ==> Get(PageValue(dbId, info, "IMDb Rating"), "number") == F64Value(info.imdbRating.value)
  {
  }

  /** The plot and the content rating read back as single text runs. */
  lemma PageTextsReadBack(dbId: string, info: MovieInfo)
    ensures info.plot != [] ==> TextContents(Get(PageValue(dbId, info, "Plot"), "rich_text")) == Some([info.plot])
    ensures info.contentRating != [] ==>
      TextContents(Get(PageValue(dbId, info, "Content Rating"), "rich_text")) == Some([info.contentRating])
  {
  }

  /** The release date is written in ISO 8601 form and reads back as the same date. */
  lemma PageReleaseDateReadBack(dbId: string, info: MovieInfo)
    requires info.releaseDate.Some? && 0 <= info.releaseDate.value.year <= 9999
    ensures var start := Get(Get(PageValue(dbId, info, "Release Date"), "date"), "start");
      start.Str? && ParseIso(start.s) == Some(info.releaseDate.value)
  {
    IsoRoundTrip(info.releaseDate.value);
  }

  /** The people columns list the record's names in order, duplicates kept. */
  lemma PagePeopleReadBack(dbId: string, info: MovieInfo)
    ensures info.directorList != [] ==> MultiSelectNames(PageValue(dbId, info, "Director")) == Some(info.directorList)
    ensures info.starList != [] ==> MultiSelectNames(PageValue(dbId, info, "Star")) == Some(info.starList)
  {
    if info.directorList != [] {
      MultiSelectReadBack(dbId, info, "Director", info.directorList);
    }
    if info.starList != [] {
      MultiSelectReadBack(dbId, info, "Star", info.starList);
    }
  }

  /** A column set to a multi-select of `names` reads back as `names`. */
  lemma MultiSelectReadBack(dbId: string, info: MovieInfo, name: string, names: seq<string>)
    requires name in PROPERTY_NAMES && PageProperty(info, name) == Some(MultiSelectProperty(names))
    ensures MultiSelectNames(PageValue(dbId, info, name)) == Some(names)
  {
    MultiSelectRoundTrip(names);
  }

  /** The genre, country and language columns list the record's names in order, duplicates kept. */
  lemma PageTagsReadBack(dbId: string, info: MovieInfo)
    ensures info.genreList != [] ==> MultiSelectNames(PageValue(dbId, info, "Genre")) == Some(info.genreList)
    ensures info.countryList != [] ==> MultiSelectNames(PageValue(dbId, info, "Country")) == Some(info.countryList)
    ensures info.languageList != [] ==> MultiSelectNames(PageValue(dbId, info, "Language")) == Some(info.languageList)
  {
    if info.genreList != [] {
      MultiSelectReadBack(dbId, info, "Genre", info.genreList);
    }
    if info.countryList != [] {
      MultiSelectReadBack(dbId, info, "Country", info.countryList);
    }
    if info.languageList != [] {
      MultiSelectReadBack(dbId, info, "Language", info.languageList);
    }
  }

  /** `handle_notion_error_response`: Notion's own message is shown to the
      user; an error body that cannot be read is shown and escalated. */
  function HandleNotionErrorResponse(body: Payload): (r: Result<()>)
    ensures r.Err?
    ensures r.error.FeedBack? <==> body.Parsed? && DecodeNotionErrorObj(body.value).Some?
    ensures r.error.FeedBack? ==> r.error.cause == Leaf(DecodeNotionErrorObj(body.value).value.message)
    ensures !r.error.FeedBack? ==> r.error.FeedBackPropagate?
                                   && r.error.cause.message == PARSE_NOTION_ERROR_MESSAGE_FAILED
  {
    match DecodeAs(body, DecodeNotionErrorObj, "NotionErrorObj")
    case Undecodable(e) => Err(FeedbackPropagateError(Context(PARSE_NOTION_ERROR_MESSAGE_FAILED, e)))
    case Decoded(obj) => Err(FeedbackError(Leaf(obj.message)))
  }

  /** `insert_movie_info_to_notion_database`: a success status is all it takes;
      the body of a successful answer is not read. */
  function InsertMovieInfo(http: NotionRequest -> Reply, token: string, dbId: string, info: MovieInfo): (r: Result<()>)
    ensures var reply := http(NotionRequest(PAGES_URL, NOTION_VERSION, token, PageBody(dbId, info)));
      && (r.Ok? <==> reply.Responded? && IsSuccess(reply.status))
      && (reply.Unreachable? ==> r == Err(FeedBackPropagate(Context(CannotReachServer(SERVER_NAME), reply.error))))
      && (reply.Responded? && !IsSuccess(reply.status) ==> r == HandleNotionErrorResponse(reply.body))
  {
    var (status, body) :- RequestDataFromNotion(http(NotionRequest(PAGES_URL, NOTION_VERSION, token, PageBody(dbId, info))));
    if IsSuccess(status) then Ok(()) else HandleNotionErrorResponse(body)
  }

  // ---------------------------------------------------------------------------
  // Page ids from user input

  /** The page id a parsed URL designates: its domain must end in "notion.so",
      and the id is what follows the last '-' of its last path segment. */
  function PageIdOfUrl(url: Url): (r: Option<string>)
    ensures r.Some? ==> Domain(url).Some? && EndsWith(Domain(url).value, "notion.so")
    ensures r.Some? ==> '-' !in r.value && '/' !in r.value
  {
    var domain :- Domain(url);
    if !EndsWith(domain, "notion.so") then None
    else
      var segment :- LastPathSegment(url);
      var id := AfterLast(segment, '-');
      NotInSuffix(segment, |segment| - |id|, '/');
      Some(id)
  }

  /** `get_notion_page_id_from_user_input`: text that is not an absolute URL is
      taken as the id itself. */
  function GetNotionPageId(input: string): (r: Option<string>)
    ensures Parse(input).None? ==> r == Some(input)
    ensures Parse(input).Some? ==> r == PageIdOfUrl(Parse(input).value)
  {
    match Parse(input)
    case None => Some(input)
    case Some(url) => PageIdOfUrl(url)
  }

  /** `parse_notion_page_id_from_user_input`: no page id is a user error. */
  function ParseNotionPageId(input: string): (r: Result<string>)
    ensures r.Ok? <==> GetNotionPageId(input).Some?
    ensures r.Ok? ==> r.value == GetNotionPageId(input).value
    ensures r.Err? ==> r.error == FeedBack(Leaf(INVALID_NOTION_PAGE_URL))
  {
    match GetNotionPageId(input)
    case Some(id) => Ok(id)
    case None => Err(FeedbackError(Leaf(INVALID_NOTION_PAGE_URL)))
  }

  /** Text without ':' is never a URL, so it is its own page id; in particular
      reading a page id that came out of this function again changes nothing. */
  lemma RawPageId(input: string)
    requires ':' !in input
    ensures GetNotionPageId(input) == Some(input)
    ensures GetNotionPageId(GetNotionPageId(input).value) == GetNotionPageId(input)
  {
    NoColonNoUrl(input);
  }

  /** The page id of an https link to a Notion domain: the part after the last
      '-' of the last segment of the parsed (percent-encoded, normalised)
      path, whatever the query says. */
  lemma NotionLinkPageId(host: string, path: string, query: string)
    requires IsLdhName(host) && EndsWith(host, "notion.so")
    requires IsLinkPath(path)
    requires IsPlainQuery(query)
    ensures GetNotionPageId("https://" + host + path + "?" + query)
         == Some(AfterLast(AfterLast(SpecialPath(path)[1..], '/'), '-'))
  {
    NotionHostIsDomain(host);
    ParseHttps(host, path, query);
    var url := Url("https", Some(DomainHost(host)), SpecialPath(path));
    assert Domain(url) == Some(host);
  }

  /** A link whose path the parser keeps as written yields the part after
      the last '-' of its last segment. */
  lemma PlainNotionLinkPageId(host: string, path: string, query: string)
    requires IsLdhName(host) && EndsWith(host, "notion.so")
    requires IsPlainPath(path)
    requires IsPlainQuery(query)
    ensures GetNotionPageId("https://" + host + path + "?" + query)
         == Some(AfterLast(AfterLast(path[1..], '/'), '-'))
  {
    PlainPathUnchanged(path);
    NotionLinkPageId(host, path, query);
  }

  /** A name ending in "notion.so" ends in the label "so", which is not a number. */
  lemma NotionHostIsDomain(host: string)
    requires EndsWith(host, "notion.so")
    ensures !EndsInANumber(host)
  {
    assert host == host[..|host| - 9] + "notion" + ['.'] + "so";
    WordLabelNotNumber(host[..|host| - 9] + "notion", "so");
  }

  /** A name whose last label starts with a letter does not end in a number. */
  lemma WordLabelNotNumber(prefix: string, word: string)
    requires word != [] && '.' !in word && 'a' <= word[0] <= 'z'
    ensures !EndsInANumber(prefix + ['.'] + word)
  {
    AfterLastOfJoin(prefix, '.', word);
    assert !IsRadixDigit(word[0], 10);
  }

  /** The parser percent-encodes the last segment before the id is cut out
      of it, so the id is the part after the last '-' of the encoded text. */
  lemma EncodedIdLink(host: string, dir: string, id: string, query: string)
    requires IsLdhName(host) && EndsWith(host, "notion.so")
    requires IsCleanSegment(dir) && NoneOf(dir, {'?', '#', '\t', '\n', '\r'})
    requires NoneOf(id, {'?', '#', '\t', '\n', '\r'})
    requires '/' !in id && '\\' !in id && !IsDotSegment(PathPercentEncode(id))
    requires IsPlainQuery(query)
    ensures GetNotionPageId("https://" + host + "/" + dir + "/" + id + "?" + query)
         == Some(AfterLast(PathPercentEncode(id), '-'))
  {
    LinkShape(host, dir, id, query);
    TwoSegmentLinkPath(dir, id);
    NotionLinkPageId(host, "/" + dir + "/" + id, query);
    EncodedLastSegment(dir, id);
  }

  /** A link cut into host, two-segment path and query. */
  lemma LinkShape(host: string, dir: string, id: string, query: string)
    ensures "https://" + host + "/" + dir + "/" + id + "?" + query
         == "https://" + host + ("/" + dir + "/" + id) + "?" + query
  {
  }

  /** A last segment ".." removes the segment before it, so the id is empty. */
  lemma DotDotIdLink(host: string, dir: string, query: string)
    requires IsLdhName(host) && EndsWith(host, "notion.so")
    requires IsCleanSegment(dir) && NoneOf(dir, {'?', '#', '\t', '\n', '\r'})
    requires IsPlainQuery(query)
    ensures GetNotionPageId("https://" + host + "/" + dir + "/" + ".." + "?" + query) == Some("")
  {
    LinkShape(host, dir, "..", query);
    DotDotIsLinkSegment();
    TwoSegmentLinkPath(dir, "..");
    NotionLinkPageId(host, "/" + dir + "/" + "..", query);
    DotDotLastSegment(dir);
  }

  /** "a b" as the last segment: the id is "a%20b". */
  lemma EncodedIdExample()
    ensures GetNotionPageId("https://" + "www.notion.so" + "/" + "x" + "/" + "a b" + "?" + "v") == Some("a%20b")
  {
    NotionSoIsNotion();
    WordIsPlain("x");
    SpaceSegment();
    ShortViewIsPlain();
    EncodedIdLink("www.notion.so", "x", "a b", "v");
  }

  lemma ShortViewIsPlain()
    ensures IsPlainQuery("v")
  {
  }

  /** "a b" may stand in a link path, and is encoded to an id without '-'. */
  lemma SpaceSegment()
    ensures NoneOf("a b", {'?', '#', '\t', '\n', '\r'}) && '/' !in "a b" && '\\' !in "a b"
    ensures !IsDotSegment(PathPercentEncode("a b"))
    ensures AfterLast(PathPercentEncode("a b"), '-') == "a%20b"
  {
    SpaceIsLinkSegment();
    SpaceEncodedNotDot();
    SpaceEncodedId();
  }

  lemma SpaceIsLinkSegment()
    ensures NoneOf("a b", {'?', '#', '\t', '\n', '\r'}) && '/' !in "a b" && '\\' !in "a b"
  {
  }

  lemma SpaceEncodedNotDot()
    ensures !IsDotSegment(PathPercentEncode("a b"))
  {
    SpaceEncoded();
    NotDotSegment("a%20b");
  }

  lemma SpaceEncodedId()
    ensures AfterLast(PathPercentEncode("a b"), '-') == "a%20b"
  {
    SpaceEncoded();
    AfterLastNoSep("a%20b", '-');
  }

  /** ".." as the last segment: the id is empty. */
  lemma DotDotIdExample()
    ensures GetNotionPageId("https://" + "www.notion.so" + "/" + "x" + "/" + ".." + "?" + "v") == Some("")
  {
    NotionSoIsNotion();
    WordIsPlain("x");
    ShortViewIsPlain();
    DotDotIdLink("www.notion.so", "x", "v");
  }

  /** A host that is a too-large number and a dot is refused by the parser,
      so the whole input is taken as the page id. */
  lemma OversizedHostIsPageId(digits: string, path: string, query: string)
    requires digits != [] && '1' <= digits[0] <= '9' && AllDigits(digits)
    requires AllRadixDigits(digits, 10) && RadixValue(digits, 10) >= Pow(256, 4)
    requires IsLinkPath(path)
    requires IsPlainQuery(query)
    ensures var input := "https://" + (digits + ".") + path + "?" + query;
            GetNotionPageId(input) == Some(input)
  {
    OversizedNumberLink(digits, path, query);
  }

  /** "9999999999." as a host: the input is kept whole. */
  lemma OversizedHostExample()
    ensures var input := "https://" + ("9999999999" + ".") + "/" + "?" + "v";
            GetNotionPageId(input) == Some(input)
  {
    OversizedExampleNumber();
    RootPathIsLink();
    ShortViewIsPlain();
    OversizedHostIsPageId("9999999999", "/", "v");
  }

  /** "9999999999" is a decimal number of at least 2^32. */
  lemma OversizedExampleNumber()
    ensures "9999999999" != [] && '1' <= "9999999999"[0] <= '9' && AllDigits("9999999999")
    ensures AllRadixDigits("9999999999", 10) && RadixValue("9999999999", 10) >= Pow(256, 4)
  {
    RadixValueAtLeast("9999999999");
    assert Pow10(9) == 1000000000;
    assert Pow(256, 4) == 4294967296;
  }

  /** A link to any other domain has no page id. */
  lemma OtherDomainNoPageId(host: string, path: string, query: string)
    requires IsPlainHost(host)
    requires !EndsWith(host, "notion.so")
    requires IsLinkPath(path)
    requires IsPlainQuery(query)
    ensures GetNotionPageId("https://" + host + path + "?" + query) == None
  {
    ParseHttps(host, path, query);
    assert PageIdOfUrl(Url("https", Some(DomainHost(host)), SpecialPath(path))) == None;
  }

  /** A link whose host no URL may hold (a space in it, say) is not a URL, so
      the whole input is taken as the page id. */
  lemma RefusedHostIsPageId(host: string, path: string, query: string, k: nat)
    requires IsAuthorityHost(host) && forall k :: 0 <= k < |host| ==> !IsTabOrNewline(host[k])
    requires '%' !in host
    requires k < |host| && IsForbiddenDomainChar(host[k])
    requires IsLinkPath(path)
    requires IsPlainQuery(query)
    ensures var input := "https://" + host + path + "?" + query;
            GetNotionPageId(input) == Some(input)
  {
    RefusedHost(host, path, query, k);
  }

  /** A link with a space in its host is kept whole. */
  lemma SpaceInHostExample()
    ensures GetNotionPageId("https://a b/x-1?v") == Some("https://a b/x-1?v")
  {
    assert "https://a b/x-1?v" == "https://" + "a b" + "/x-1" + "?" + "v";
    assert IsForbiddenDomainChar("a b"[1]);
    RefusedHostIsPageId("a b", "/x-1", "v", 1);
  }

  const EXAMPLE_ID := "25195fba545b4a5636d20ae776bf3189"
  const EXAMPLE_VIEW := "d408c958e7c74846a298243fd4334f27"

  /** A path of two clean segments is plain, and its last segment is the second. */
  lemma TwoSegmentPath(dir: string, id: string)
    requires IsCleanSegment(dir) && IsCleanSegment(id)
    ensures IsPlainPath("/" + dir + "/" + id)
    ensures AfterLast(("/" + dir + "/" + id)[1..], '/') == id
  {
    var path := "/" + dir + "/" + id;
    assert path[1..] == dir + ['/'] + id;
    SplitFirst(dir, '/', id);
    SplitNoSep(id, '/');
    assert Split(path[1..], '/') == [dir, id];
    AfterLastOfJoin(dir, '/', id);
  }

  /** Two segments free of query, fragment, tab and newline make a link path. */
  lemma TwoSegmentLinkPath(dir: string, id: string)
    requires NoneOf(dir, {'?', '#', '\t', '\n', '\r'}) && NoneOf(id, {'?', '#', '\t', '\n', '\r'})
    ensures IsLinkPath("/" + dir + "/" + id)
  {
    var path := "/" + dir + "/" + id;
    forall k | 0 <= k < |path|
      ensures path[k] !in {'?', '#', '\t', '\n', '\r'}
    {
      if 1 <= k < 1 + |dir| {
        assert path[k] == dir[k - 1];
      } else if k > 1 + |dir| {
        assert path[k] == id[k - 2 - |dir|];
      }
    }
  }

  /** A "v=" query is plain when the view is. */
  lemma ViewQuery(view: string)
    requires IsPlainQuery(view)
    ensures IsPlainQuery("v=" + view)
  {
    var q := "v=" + view;
    forall k | 0 <= k < |q|
      ensures !IsTabOrNewline(q[k])
    {
      if k >= 2 {
        assert q[k] == view[k - 2];
      }
    }
    assert q[|q| - 1] == if view == [] then '=' else view[|view| - 1];
  }

  lemma NotionSoIsNotion()
    ensures IsLdhName("www.notion.so")
    ensures EndsWith("www.notion.so", "notion.so")
  {
    assert forall k :: 0 <= k < |"www.notion.so"| ==> IsLowerLdh("www.notion.so"[k]);
    NotionSoHasNoAceLabel();
    assert "www.notion.so"[4..] == "notion.so";
  }

  lemma NotionSoHasNoAceLabel()
    ensures !HasAceLabel("www.notion.so")
  {
    assert forall k :: 0 <= k < |"www.notion.so"| ==> "www.notion.so"[k] != 'x';
    NoAceLabel("www.notion.so");
  }

  /** A link to a page on a Notion domain yields the id at the end of its
      path, whatever view the query selects. */
  lemma NotionPageLink(page: string, host: string, dir: string, id: string, view: string)
    requires page == "https://" + host + "/" + dir + "/"
    requires IsLdhName(host) && EndsWith(host, "notion.so")
    requires IsCleanSegment(dir) && IsCleanSegment(id) && '-' !in id
    requires IsPlainQuery(view)
    ensures GetNotionPageId(page + id + "?v=" + view) == Some(id)
  {
    var path := "/" + dir + "/" + id;
    PageLinkShape(host, dir, id, view);
    TwoSegmentPath(dir, id);
    ViewQuery(view);
    PlainNotionLinkPageId(host, path, "v=" + view);
    AfterLastNoSep(id, '-');
  }

  /** A page link cut into host, path and query. */
  lemma PageLinkShape(host: string, dir: string, id: string, view: string)
    ensures "https://" + host + "/" + dir + "/" + id + "?v=" + view
         == "https://" + host + ("/" + dir + "/" + id) + "?" + ("v=" + view)
  {
    assert "?v=" + view == "?" + ("v=" + view);
  }

  /** A front-page link cut into host, path and query. */
  lemma RootLinkShape(host: string, view: string)
    ensures "https://" + host + "/?v=" + view == "https://" + host + "/" + "?" + ("v=" + view)
  {
    assert "/?v=" + view == "/" + "?" + ("v=" + view);
  }

  /** A lower-case hexadecimal digit, as Notion writes page and view ids. */
  predicate IsIdChar(c: char) {
    '0' <= c <= '9' || 'a' <= c <= 'f'
  }

  /** A hexadecimal id can stand as a path segment, as its last piece after
      '-', and as a query. */
  lemma HexIdIsPlain(s: string)
    requires s != [] && forall k :: 0 <= k < |s| ==> IsIdChar(s[k])
    ensures IsCleanSegment(s) && '-' !in s && NoneOf(s, {'?', '#', '\t', '\n', '\r'})
    ensures IsPlainQuery(s)
  {
    NotDotSegment(s);
  }

  /** The ids in the source's unit test are hexadecimal. */
  lemma ExampleIdsArePlain()
    ensures IsCleanSegment(EXAMPLE_ID) && '-' !in EXAMPLE_ID
    ensures NoneOf(EXAMPLE_ID, {'?', '#', '\t', '\n', '\r'})
    ensures IsPlainQuery(EXAMPLE_VIEW)
  {
    ExampleIdIsHex();
    ExampleViewIsHex();
    HexIdIsPlain(EXAMPLE_ID);
    HexIdIsPlain(EXAMPLE_VIEW);
  }

  /** The directory of the source's unit-test links is a clean segment. */
  lemma ExampleDirIsPlain()
    ensures IsCleanSegment("xxxx") && NoneOf("xxxx", {'?', '#', '\t', '\n', '\r'})
  {
    WordIsPlain("xxxx");
  }

  /** A word of lower-case letters is a clean segment. */
  lemma WordIsPlain(s: string)
    requires s != [] && forall k :: 0 <= k < |s| ==> 'a' <= s[k] <= 'z'
    ensures IsCleanSegment(s) && NoneOf(s, {'?', '#', '\t', '\n', '\r'})
  {
    NotDotSegment(s);
  }

  lemma ExampleIdIsHex()
    ensures forall k :: 0 <= k < |EXAMPLE_ID| ==> IsIdChar(EXAMPLE_ID[k])
  {
  }

  lemma ExampleViewIsHex()
    ensures forall k :: 0 <= k < |EXAMPLE_VIEW| ==> IsIdChar(EXAMPLE_VIEW[k])
  {
  }

  /** The page link from the source's own unit test. */
  lemma NotionLinkExample()
    ensures GetNotionPageId("https://" + "www.notion.so" + "/" + "xxxx" + "/" + EXAMPLE_ID + "?v=" + EXAMPLE_VIEW) == Some(EXAMPLE_ID)
  {
    ExampleIdsArePlain();
    ExampleDirIsPlain();
    NotionSoIsNotion();
    NotionPageLink("https://" + "www.notion.so" + "/" + "xxxx" + "/", "www.notion.so", "xxxx", EXAMPLE_ID, EXAMPLE_VIEW);
  }

  /** A bare page id is kept as it is. */
  lemma BarePageIdExample()
    ensures GetNotionPageId(EXAMPLE_ID) == Some(EXAMPLE_ID)
  {
    RawPageId(EXAMPLE_ID);
  }

  lemma ExampleComIsForeign()
    ensures IsPlainHost("www.example.com")
    ensures !EndsWith("www.example.com", "notion.so")
  {
    assert forall k :: 0 <= k < |"www.example.com"| ==> IsLowerLdh("www.example.com"[k]);
    ExampleComHasNoAceLabel();
    assert "www.example.com" == "www.example" + ['.'] + "com";
    WordLabelNotNumber("www.example", "com");
    assert "www.example.com"[6..] != "notion.so";
  }

  lemma ExampleComHasNoAceLabel()
    ensures !HasAceLabel("www.example.com")
  {
    assert forall k :: 0 <= k < |"www.example.com"| && "www.example.com"[k] == 'x' ==> k == 5;
    NoAceLabel("www.example.com");
  }

  /** A link to another site is refused, whatever its path. */
  lemma ForeignPageLink(page: string, host: string, dir: string, id: string, view: string)
    requires page == "https://" + host + "/" + dir + "/"
    requires IsPlainHost(host) && !EndsWith(host, "notion.so")
    requires NoneOf(dir, {'?', '#', '\t', '\n', '\r'}) && NoneOf(id, {'?', '#', '\t', '\n', '\r'})
    requires IsPlainQuery(view)
    ensures GetNotionPageId(page + id + "?v=" + view) == None
  {
    var path := "/" + dir + "/" + id;
    PageLinkShape(host, dir, id, view);
    TwoSegmentLinkPath(dir, id);
    ViewQuery(view);
    OtherDomainNoPageId(host, path, "v=" + view);
  }

  /** A link to the front page of another site is refused. */
  lemma ForeignRootLink(host: string, view: string)
    requires IsPlainHost(host) && !EndsWith(host, "notion.so")
    requires IsPlainQuery(view)
    ensures GetNotionPageId("https://" + host + "/?v=" + view) == None
  {
    RootLinkShape(host, view);
    RootPathIsLink();
    ViewQuery(view);
    OtherDomainNoPageId(host, "/", "v=" + view);
  }

  lemma RootPathIsLink()
    ensures IsLinkPath("/")
  {
  }

  /** The foreign page link from the source's own unit test. */
  lemma ForeignPageExample()
    ensures GetNotionPageId("https://" + "www.example.com" + "/" + "xxxx" + "/" + EXAMPLE_ID + "?v=" + EXAMPLE_VIEW) == None
  {
    ExampleIdsArePlain();
    ExampleDirIsPlain();
    ExampleComIsForeign();
    ForeignPageLink("https://" + "www.example.com" + "/" + "xxxx" + "/", "www.example.com", "xxxx", EXAMPLE_ID, EXAMPLE_VIEW);
  }

  /** The foreign front-page link from the source's own unit test. */
  lemma ForeignRootExample()
    ensures GetNotionPageId("https://" + "www.example.com" + "/?v=" + EXAMPLE_VIEW) == None
  {
    ExampleIdsArePlain();
    ExampleComIsForeign();
    ForeignRootLink("www.example.com", EXAMPLE_VIEW);
  }
}
