# nmlbot in Dafny

nmlbot is a Telegram bot that keeps a movie list in Notion. A user sends a
title. The bot searches IMDb-API and answers with up to five hits, each with
an "Add to Movie List" button. A press on a button fetches the title's record
and adds it as a page to a Notion database that the bot created under one of
the user's pages. Each user has one row of settings: an IMDb-API key, a Notion
integration token and the id of the movie-list database. The commands
`/start`, `/settings`, `/set_imdb_token`, `/set_notion_token` and
`/create_notion_db` manage that row.

Every handler runs one unit of work. The work's error decides what the user
is told and what is escalated to the dispatcher's log. There are three kinds:
- `FeedBack`: shown to the user only.
- `FeedBackPropagate`: shown and escalated.
- `Propagate`: escalated only.

The model has these modules, one per file:

| module | models |
|---|---|
| `Errors` | `src/error.rs` (with `anyhow::Error` as a message plus an optional wrapped error) |
| `Db` | `src/db.rs`: the row, the hint and summary texts, and the `user_tokens` table as a class over a map |
| `NotionObjects` | `src/api/notion/objects.rs`: the JSON property objects |
| `Notion` | `src/api/notion/mod.rs`: database creation, page body, error handling, page ids from user input |
| `Imdb` | `src/api/imdb/imdb_api.rs`: endpoints, the request step, search, title record conversion |
| `Work` | `src/bot/mod.rs`: update routing, the sender of a message, `handle_work_result` |
| `Handlers` | `src/bot/handler.rs`: the handlers and the units of work they run, as methods of a `Bot` class |
| `Movie`, `Transcripts` | the records of `src/api/mod.rs` and the English texts of `src/transcripts.rs` |
| `Text`, `Json`, `Http`, `Calendar`, `WebUrl`, `Wrappers` | what the core uses from Rust's `str`, serde_json, reqwest, chrono and url, cut down to what the core reads |

The outside world is modelled as follows:
- **HTTP:** the answers are parameters. Notion is a function from request
  (URL, version header, bearer token, JSON body) to reply, and IMDb-API a
  function from URL to reply. A reply is either "no response" with its error,
  or a status and a body that parses as JSON or fails with an error.
- **Telegram:** a `Telegram` object records the messages sent. It accepts
  messages while fewer than `limit` have been sent. After that, every send
  fails with a fixed error.
- **PostgreSQL:** the table is a `map` from user id to row. It is either
  reachable for the object's lifetime or always fails with a fixed error
  (`outage`).

## Model

| member | source | states |
|---|---|---|
| `Errors.FeedbackError` | src/error.rs:14-16 | the error is a FeedBack wrapping exactly the given error and displays its message |
| `Errors.PropagateError` | src/error.rs:18-20 | the error is a Propagate wrapping exactly the given error and displays its message |
| `Errors.FeedbackPropagateError` | src/error.rs:22-24 | the error is a FeedBackPropagate wrapping exactly the given error and displays its message |
| `Errors.Source` | src/bot/mod.rs:124-128 | an error has a source exactly when it wraps another, and the source is strictly inside it |
| `Errors.DisplayIsTransparent` | src/error.rs:4-12 | whatever the severity, the error displays as the message of the error it wraps |
| `Errors.ConstructorsDistinct` | src/error.rs:5-12 | the three severities never coincide, and FeedBack is injective |
| `Db.EmptyRow` | src/db.rs:81-96 | the row `/start` inserts has the user's id and three empty tokens |
| `Db.UserHint` | src/db.rs:343-357 | the hint, built by appending, is the title, a blank line, then one line per missing Notion setting, joined by newlines |
| `Db.HintLines` | src/db.rs:343-357 | the hint starts with the title and a blank line; it names setting the token iff the token is empty and creating the database iff the database id is empty; two to four lines |
| `Db.HintEmptyIffGood` | src/db.rs:338-357 | the hint lists no setting exactly when the Notion token is good; otherwise it has more than two lines |
| `Db.TokenToString` | src/db.rs:369-375 | a set token is shown as itself, an empty one as "not set"; the result is never empty |
| `Db.SummaryLines` | src/db.rs:359-366 | the summary is four newline-joined lines: the title, then each token's label followed by the token or "not set" |
| `Db.StorageError` | src/db.rs:227-235 | a storage failure is shown as the database error text and escalated, with the storage error as its source |
| `Db.Lookup` | src/db.rs:237-241 | reading a row gives the row, the storage error, or (no row) a FeedBack asking to `/start` again; Ok iff reachable and present |
| `Db.BotDatabase.constructor` | src/db.rs:72-79 | an empty, well-formed table with the given reachability |
| `Db.BotDatabase.InitUserTokens` | src/db.rs:227-235 | inserts the empty row of a new user; fails with a storage error when unreachable or when the id already has a row, without changing the table |
| `Db.BotDatabase.GetUserTokens` | src/db.rs:243-251 | a storage error when unreachable; otherwise Some(row) iff the user has a row, and that row carries the user's id |
| `Db.BotDatabase.Row` | src/db.rs:237-241 | reading a row succeeds iff the table is reachable and the user has a row, which then carries the user's id |
| `Db.BotDatabase.UserTokens` | src/db.rs:237-241 | returns exactly what `Lookup` gives on the current table; a row it returns carries the user's id |
| `Db.BotDatabase.GetImdbToken` | src/db.rs:259-267 | a storage error when unreachable; otherwise the row's IMDb token iff the user has a row |
| `Db.BotDatabase.ImdbToken` | src/db.rs:253-257 | the IMDb token, a storage error, or a FeedBack asking to `/start` again when there is no row |
| `Db.BotDatabase.GetNotionIntegrationToken` | src/db.rs:279-287 | a storage error when unreachable; otherwise the row's integration token iff the user has a row |
| `Db.BotDatabase.NotionIntegrationToken` | src/db.rs:269-277 | the integration token, a storage error, or a FeedBack asking to `/start` again when there is no row |
| `Db.BotDatabase.StoreImdbToken` | src/db.rs:289-298 | returns whether a row existed; replaces only that row's IMDb token; a missing row or an outage leaves the table unchanged |
| `Db.BotDatabase.StoreNotionToken` | src/db.rs:300-309 | returns whether a row existed; replaces only that row's integration token; otherwise the table is unchanged |
| `Db.BotDatabase.StoreNotionDatabaseId` | src/db.rs:311-320 | returns whether a row existed; replaces only that row's database id; otherwise the table is unchanged |
| `Db.BotDatabase.RemoveUserTokens` | src/db.rs:322-326 | returns whether a row existed and deletes it; an outage changes nothing |
| `Db.BotDatabase.ResetUserTokens` | src/db.rs:219-222 | afterwards the user has the empty row, whether or not they had a row before; an outage changes nothing |
| `NotionObjects.SingleTextContents` | src/api/notion/objects.rs:4-29 | a one-element rich-text array reads back as exactly its content |
| `NotionObjects.TitleProperty` | src/api/notion/objects.rs:4-16 | a `title` property whose text runs are exactly [content] |
| `NotionObjects.TextProperty` | src/api/notion/objects.rs:18-29 | a property with only `rich_text`, whose text runs are exactly [content] |
| `NotionObjects.UrlProperty` | src/api/notion/objects.rs:31-33 | an object with only `url`, set to the URL |
| `NotionObjects.F64NumberProperty` | src/api/notion/objects.rs:35-37 | an object with only `number`, holding the float as serde_json serialises it (null for an infinite or NaN value) |
| `NotionObjects.U32NumberProperty` | src/api/notion/objects.rs:39-41 | an object with only `number`, holding the integer |
| `NotionObjects.SelectProperty` | src/api/notion/objects.rs:43-50 | a `select` property whose option name is the content |
| `NotionObjects.NameObjects` | src/api/notion/objects.rs:52-62 | one `{"name": …}` object per string, in order |
| `NotionObjects.MultiSelectProperty` | src/api/notion/objects.rs:52-62 | a `multi_select` property with one option per string |
| `NotionObjects.MultiSelectRoundTrip` | src/api/notion/objects.rs:52-62 | the option names of a multi-select property read back as the original list, in order, with duplicates kept |
| `NotionObjects.NamesOfNameObjects` | src/api/notion/objects.rs:52-62 | reading the names of the name objects gives back the list |
| `NotionObjects.DateProperty` | src/api/notion/objects.rs:64-70 | the date's `start` is the date in YYYY-MM-DD form |
| `NotionObjects.NewDatabaseObject` | src/api/notion/objects.rs:72-76 | an object whose only field is an empty `properties` object |
| `NotionObjects.FileObject` | src/api/notion/objects.rs:78-85 | an `external` file object pointing at the URL |
| `NotionObjects.ParentObject` | src/api/notion/objects.rs:87-92 | a parent of type `database_id` naming the database |
| `Notion.DecodeDatabaseObj` | src/api/notion/mod.rs:14-17 | decodes iff the body is an object with a string `id`, and yields that id |
| `Notion.DecodeNotionErrorObj` | src/api/notion/mod.rs:19-24 | decodes iff the three strings are present and `status` is a u16; yields Notion's message |
| `Notion.RequestDataFromNotion` | src/api/notion/mod.rs:178-197 | Ok with status and body iff there was a response; otherwise FeedBackPropagate "cannot reach Notion" wrapping the transport error |
| `Notion.DatabaseSchema` | src/api/notion/mod.rs:52-112 | the movie list has exactly the fourteen columns Title … IMDb Link |
| `Notion.DatabaseBody` | src/api/notion/mod.rs:34-113 | the new database is a child of the given page and has the movie-list schema |
| `Notion.PageProperty` | src/api/notion/mod.rs:212-276 | a property is only ever set for a column name, and Title and IMDb Link are always set |
| `Notion.PageProperties` | src/api/notion/mod.rs:212-276 | the page's properties are named by columns only and always include Title and IMDb Link |
| `Notion.PageBody` | src/api/notion/mod.rs:212-276 | the page is an object whose parent is the database and whose `properties` are the record's properties |
| `Notion.CreateDatabase` | src/api/notion/mod.rs:26-130 | Ok iff the reply is a success with a readable `id`, which is returned. A refusal is FeedBack (with Notion's message when readable). An unreadable success body is Propagate. No response is FeedBackPropagate |
| `Notion.PagePropertyPresentIff` | src/api/notion/mod.rs:212-276 | the page sets a column exactly when the title record has a value for it (Title and IMDb Link always) |
| `Notion.PageFitsSchema` | src/api/notion/mod.rs:212-276 | every property a page sets is a column of the database `create_database` makes |
| `Notion.PageBodyShape` | src/api/notion/mod.rs:212-276 | the page's parent is the database; it has a cover iff there is a poster, pointing at it; no other top-level fields |
| `Notion.PageTitleAndLink` | src/api/notion/mod.rs:221-271 | the title and the IMDb link read back from the page as the record's |
| `Notion.PageScalarsReadBack` | src/api/notion/mod.rs:223-237 | type, year, runtime and rating read back as the record's |
| `Notion.PageTextsReadBack` | src/api/notion/mod.rs:239-265 | plot and content rating read back as single text runs |
| `Notion.PageReleaseDateReadBack` | src/api/notion/mod.rs:231-233 | the release date parses back from the page to the same date |
| `Notion.MultiSelectReadBack` | src/api/notion/mod.rs:243-261 | a multi-select column of the page reads back as the list it was built from, in order |
| `Notion.PagePeopleReadBack` | src/api/notion/mod.rs:243-249 | directors and stars read back in order, with duplicates kept |
| `Notion.PageTagsReadBack` | src/api/notion/mod.rs:251-261 | genres, countries and languages read back in order, with duplicates kept |
| `Notion.HandleNotionErrorResponse` | src/api/notion/mod.rs:199-210 | always an error: FeedBack with Notion's message when the body reads, otherwise FeedBackPropagate with the parse-failure text |
| `Notion.InsertMovieInfo` | src/api/notion/mod.rs:160-176 | Ok iff the page request got a success status (the body is not read); a refusal is exactly `HandleNotionErrorResponse` of its body |
| `Notion.PageIdOfUrl` | src/api/notion/mod.rs:143-152 | an id only for a domain ending in "notion.so"; the id has no '-' and no '/' |
| `Notion.GetNotionPageId` | src/api/notion/mod.rs:140-158 | text the URL parser refuses (no scheme, a forbidden host code point, an IPv4-looking host out of range) is its own id; a parsed URL yields exactly the id `PageIdOfUrl` finds in it (none for a foreign domain) |
| `Notion.ParseNotionPageId` | src/api/notion/mod.rs:132-138 | Ok iff an id is found, with that id; otherwise FeedBack "Invalid Notion Page Url" |
| `Notion.RawPageId` | src/api/notion/mod.rs:154-154 | text without ':' is its own page id, and reading that id again changes nothing |
| `Notion.NotionLinkPageId` | src/api/notion/mod.rs:141-152 | for an https link to a notion.so host (lower-case letters, digits, '-' and '.', with no label starting "xn--"), the id is what follows the last '-' of the last segment of the parsed path (percent-encoded, dot segments resolved), whatever the query |
| `Notion.PlainNotionLinkPageId` | src/api/notion/mod.rs:141-152 | when every segment is already encoded and none is a dot segment, the id comes from the path as written |
| `Notion.EncodedIdLink` | src/api/notion/mod.rs:141-152 | for a two-segment path, the id is cut from the percent-encoded last segment |
| `Notion.DotDotIdLink` | src/api/notion/mod.rs:141-152 | a last segment ".." removes the one before it, leaving the empty id |
| `Notion.EncodedIdExample` | src/api/notion/mod.rs:141-152 | "https://www.notion.so/x/a b?v" yields "a%20b" |
| `Notion.DotDotIdExample` | src/api/notion/mod.rs:141-152 | "https://www.notion.so/x/..?v" yields "" |
| `Notion.OversizedHostIsPageId` | src/api/notion/mod.rs:141-154 | an https link whose host is a decimal number of at least 2^32 followed by a dot is not a URL, so the input is its own id |
| `Notion.OversizedHostExample` | src/api/notion/mod.rs:141-154 | "https://9999999999./?v" is kept whole as the page id |
| `Notion.OtherDomainNoPageId` | src/api/notion/mod.rs:143-146 | an https link to any plain domain (lower-case letters, digits, '-' and '.', no label starting "xn--", not ending in a number, even before a trailing dot) not ending in notion.so has no page id, whatever its path |
| `Notion.RefusedHostIsPageId` | src/api/notion/mod.rs:141-154 | a link whose host holds a code point no domain may hold does not parse, so the whole input is the page id |
| `Notion.SpaceInHostExample` | src/api/notion/mod.rs:141-154 | "https://a b/x-1?v" is kept whole as the page id |
| `Notion.NotionPageLink` | src/api/notion/mod.rs:283-288 | a notion.so page link whose directory and id need no encoding and are no dot segments gives the id at the end of its path, whatever the view |
| `Notion.NotionLinkExample` | src/api/notion/mod.rs:284-288 | the unit test's Notion link yields 25195fba545b4a5636d20ae776bf3189 |
| `Notion.BarePageIdExample` | src/api/notion/mod.rs:290-294 | the unit test's bare id is kept |
| `Notion.ForeignPageLink` | src/api/notion/mod.rs:296-297 | a page link to a plain domain (no "xn--" label, not ending in a number) other than notion.so has no id, whatever the path holds |
| `Notion.ForeignRootLink` | src/api/notion/mod.rs:299-300 | the front page of a plain domain (no "xn--" label, not ending in a number) other than notion.so has no id |
| `Notion.ForeignPageExample` | src/api/notion/mod.rs:296-297 | the unit test's www.example.com page link has no id |
| `Notion.ForeignRootExample` | src/api/notion/mod.rs:299-300 | the unit test's www.example.com front-page link has no id |
| `Imdb.DefaultApi` | src/api/imdb/imdb_api.rs:79-86 | the default client uses https://imdb-api.com and no shared key |
| `Imdb.NewApi` | src/api/imdb/imdb_api.rs:20-25 | the default URL with the given shared key |
| `Imdb.ApiKeyOrDefault` | src/api/imdb/imdb_api.rs:41-47 | a non-empty user key wins; an empty one means the shared key |
| `Imdb.SearchApi` | src/api/imdb/imdb_api.rs:32-39 | the search URL is the base URL and `/API/SearchTitle/`, then the key in use, a '/', then the title, piece by piece |
| `Imdb.TitleInfoApi` | src/api/imdb/imdb_api.rs:49-61 | the title URL is the base URL, '/', the language and `/API/Title/`, then the key in use, a '/', then the id, piece by piece |
| `Imdb.EmptyKeyMeansDefault` | src/api/imdb/imdb_api.rs:32-61 | no key and naming the shared key address the same search and title endpoints |
| `Imdb.SearchEndpointSegments` | src/api/imdb/imdb_api.rs:32-39 | the search URL's last path segment is the title and the one before it is the key in use |
| `Imdb.TitleEndpointSegments` | src/api/imdb/imdb_api.rs:49-61 | the title URL's last path segment is the id and the one before it is the key in use |
| `Imdb.RequestDataFromImdbApi` | src/api/imdb/imdb_api.rs:141-165 | No response is FeedBackPropagate "cannot reach IMDb-API". An unreadable body is FeedBackPropagate with the parse text. A non-empty `errorMessage` is FeedBack with that message. Otherwise Ok with the body |
| `Imdb.DecodeSearchResult` | src/api/mod.rs:36-41 | decodes iff the object has string `id`, `title` and `description`, which it carries |
| `Imdb.TruncateDescription` | src/api/imdb/imdb_api.rs:107-111 | a prefix of the description that ends at its first ')', or the whole text when it has none |
| `Imdb.TruncateIdempotent` | src/api/imdb/imdb_api.rs:107-111 | truncating twice is truncating once |
| `Imdb.Shorten` | src/api/imdb/imdb_api.rs:107-111 | a hit keeps its id and title; its description becomes a prefix of the original, unchanged when it has no ')' |
| `Imdb.CollectResults` | src/api/imdb/imdb_api.rs:101-114 | no more results than items; a readable first item gives the first result, shortened; an unreadable one is skipped |
| `Imdb.CollectAppend` | src/api/imdb/imdb_api.rs:101-114 | collecting distributes over concatenation, so the service's order is kept |
| `Imdb.CollectAllDecodable` | src/api/imdb/imdb_api.rs:101-114 | when every item reads, there is one result per item, each the shortened reading of its item |
| `Imdb.CollectFromItems` | src/api/imdb/imdb_api.rs:101-114 | every result is the shortened reading of some item |
| `Imdb.NoneDecodable` | src/api/imdb/imdb_api.rs:105-106 | when no item reads, there are no results |
| `Imdb.Take` | src/api/imdb/imdb_api.rs:103-103 | the first n items, or all of them |
| `Imdb.Search` | src/api/imdb/imdb_api.rs:90-119 | Request errors pass through. At most `limits` results. No `results` array means no results. Otherwise the readable items among the first `limits`, in order, shortened |
| `Imdb.SearchAllDecodable` | src/api/imdb/imdb_api.rs:90-119 | when the first `limits` items all read, exactly min(limits, count) results come back, item by item |
| `Imdb.SearchCapsBeforeFiltering` | src/api/imdb/imdb_api.rs:100-114 | the cap applies before unreadable items are dropped: unreadable first items give an empty answer whatever follows |
| `Imdb.RequiredString` | src/api/imdb/imdb_api.rs:167-191 | a `String` field reads iff it is a string |
| `Imdb.OptionalString` | src/api/imdb/imdb_api.rs:167-191 | an `Option<String>` field: null or missing is None, a string is Some, anything else fails |
| `Imdb.DecodeAll` | src/api/imdb/imdb_api.rs:167-191 | a list reads iff every element reads, element by element |
| `Imdb.DecodeIdentityObj` | src/api/imdb/imdb_api.rs:282-286 | a person reads iff the value is an object with string `id` and `name`, and carries exactly those |
| `Imdb.DecodeKeyValueObj` | src/api/imdb/imdb_api.rs:276-280 | a tag reads iff the value is an object with string `key` and `value`, and carries exactly those |
| `Imdb.RequiredList` | src/api/imdb/imdb_api.rs:167-191 | a `Vec` field reads iff it is an array whose elements each read; the result has one element per item, each that item's reading |
| `Imdb.DecodeImdbApiMovieInfo` | src/api/imdb/imdb_api.rs:167-191 | the body reads iff it is an object with string id and title, every optional field null, missing or a string, and every list readable; each field of the record is the body's |
| `Imdb.ToMovieInfo` | src/api/imdb/imdb_api.rs:193-247 | the title is kept, the link is the IMDb title URL followed by the id, and each list keeps its length |
| `Imdb.ToMovieInfoText` | src/api/imdb/imdb_api.rs:195-227 | missing text fields become empty, present ones are kept; the link is the IMDb title URL followed by the id |
| `Imdb.ToMovieInfoNumbers` | src/api/imdb/imdb_api.rs:197-202 | year and runtime are numbers iff their text parses as a u32, and then they are that number |
| `Imdb.YearRoundTrip` | src/api/imdb/imdb_api.rs:197-197 | a printed u32 year parses back to itself |
| `Imdb.ToMovieInfoDateAndRating` | src/api/imdb/imdb_api.rs:199-226 | the release date is kept iff it parses as a date; the rating is kept iff it parses as an f64 |
| `Imdb.ReleaseDateRoundTrip` | src/api/imdb/imdb_api.rs:199-201 | a date printed as YYYY-MM-DD parses back to itself |
| `Imdb.ToMovieInfoLists` | src/api/imdb/imdb_api.rs:204-224 | people keep their names and tags their values, one for one, in order |
| `Imdb.MovieInfoOf` | src/api/imdb/imdb_api.rs:131-137 | Ok iff the body decodes as a title record, with its title and link; otherwise FeedBackPropagate with the "bullshit" text |
| `Imdb.RequestMovieInformation` | src/api/imdb/imdb_api.rs:121-138 | request errors pass through unchanged; otherwise the body is read as a title record |
| `Work.Dispatch` | src/bot/mod.rs:68-89 | a message goes to its command when the text parses as one and otherwise to keyword search; a button press goes to item selection; other updates are unhandled |
| `Work.KeywordOnlyForNonCommands` | src/bot/mod.rs:79-81 | keyword search gets exactly the messages that are not commands |
| `Work.GetUserFromMsg` | src/bot/mod.rs:137-143 | the sender when there is one; otherwise FeedBack "don't talk to strangers" |
| `Work.Telegram.SendMessage` | src/bot/handler.rs:29-31 | a send while there is room appends the message; otherwise nothing is sent and the failure is returned |
| `Work.FeedbackText` | src/bot/mod.rs:115-131 | the user is told something iff the result is a FeedBack or FeedBackPropagate error, and what they are told is its display text |
| `Work.Escalation` | src/bot/mod.rs:115-134 | escalated iff the error is not FeedBack. Propagate escalates its error. FeedBackPropagate with a source escalates the source's text |
| `Work.ShownOrEscalated` | src/bot/mod.rs:115-131 | every error is shown or escalated, and it is both exactly when it is FeedBackPropagate |
| `Work.HandleWorkResult` | src/bot/mod.rs:101-135 | the feedback text, if any, is sent; a refused send becomes the handler's error; otherwise the handler returns the escalation |
| `Handlers.SearchResultText` | src/bot/handler.rs:233-236 | the hit's text opens a link to the IMDb page of its id and ends with its title in bold, closing the link |
| `Handlers.SearchResultMessage` | src/bot/handler.rs:226-239 | each hit's message carries an "Add to Movie List" button whose data is the hit's id |
| `Handlers.ReversedMessages` | src/bot/handler.rs:225-242 | the k-th message sent is for hit number \|hits\|-1-k |
| `Handlers.ReversedMessagesAppend` | src/bot/handler.rs:225-242 | the messages for later hits come before those for earlier ones |
| `Handlers.Bot.constructor` | src/bot/mod.rs:41-66 | the bot holds the given table, chat, services and help page |
| `Handlers.Bot.Send` | src/bot/handler.rs:29-31 | the message is delivered and the job succeeds, or nothing is sent and the send error is propagated |
| `Handlers.Bot.Help` | src/bot/handler.rs:38-44 | the HTML help text is sent; a refused send is the handler's error |
| `Handlers.Bot.StartJob` | src/bot/handler.rs:17-34 | no sender, or an outage: nothing changes. Otherwise an existing row is kept, a missing one becomes the empty row, and the welcome is sent |
| `Handlers.Bot.SettingsJob` | src/bot/handler.rs:48-60 | the summary of the sender's row is sent; a missing sender or row is the error and nothing is sent |
| `Handlers.Bot.SetImdbTokenJob` | src/bot/handler.rs:71-96 | sender, then non-empty trimmed token, then table, then row are checked, each failure changing nothing; then only the IMDb token becomes the trimmed token and is echoed |
| `Handlers.Bot.SetNotionTokenJob` | src/bot/handler.rs:107-132 | the same checks; then only the integration token becomes the trimmed token and is echoed |
| `Handlers.Bot.CreateNotionDbJob` | src/bot/handler.rs:145-180 | Checks sender, non-empty input, row, then a Notion token. Then parses the page id and creates the database. Only then is the new id stored and the user told; a failure before that changes nothing |
| `Handlers.Bot.CreateDatabaseOnPage` | src/bot/handler.rs:165-177 | for a user with a row: page id, then database creation; on success only the database id changes and the user is told |
| `Handlers.Bot.SendSearchResults` | src/bot/handler.rs:225-242 | sends the hit messages last hit first until Telegram refuses one; succeeds iff all fit |
| `Handlers.Bot.SentSoFar` | src/bot/handler.rs:225-242 | when the loop stops at hit i, the messages sent are exactly those for hits i onwards |
| `Handlers.Bot.ReceiveKeywordJob` | src/bot/handler.rs:194-245 | Needs a sender and a row. An unready row gets the hint; no text gets "send me the title". Otherwise the trimmed text is searched for at most 5 hits. No hit gives a no-result message; hits are sent last first |
| `Handlers.Bot.ReceiveItemSelectionJob` | src/bot/handler.rs:260-292 | Needs the presser's row, which must be ready (else the hint). Fetches the record with the user's key and inserts it into their database. Only then sends the success message; any failure sends nothing |
| `Handlers.Bot.AddTitleJob` | src/bot/handler.rs:267-291 | for the presser's row: an unready row gets the hint; otherwise the record is fetched and inserted, and only then is the success message sent |
| `Handlers.Bot.Start` | src/bot/handler.rs:15-36 | does what `/start` does, then reports the outcome as `handle_work_result` does |
| `Handlers.Bot.Settings` | src/bot/handler.rs:46-62 | does what `/settings` does, then reports the outcome |
| `Handlers.Bot.SetImdbToken` | src/bot/handler.rs:64-98 | does what `/set_imdb_token` does, then reports the outcome |
| `Handlers.Bot.SetNotionToken` | src/bot/handler.rs:100-134 | does what `/set_notion_token` does, then reports the outcome |
| `Handlers.Bot.HandleNotionPageLinkOrId` | src/bot/handler.rs:136-182 | does what `/create_notion_db` does, then reports the outcome |
| `Handlers.Bot.ReceiveKeyword` | src/bot/handler.rs:184-247 | answers a keyword, then reports the outcome |
| `Handlers.Bot.ReceiveItemSelection` | src/bot/handler.rs:249-298 | a press without data or without its message is ignored; otherwise adds the title and reports the outcome in that message's chat |
| `Handlers.Bot.HandleCommand` | src/bot/mod.rs:68-89 | `/help` sends the help text; every other command does what its job promises, then reports the outcome |
| `Handlers.Bot.HandleUpdate` | src/bot/mod.rs:68-89 | the routed handler's promise holds: a command does its job, a keyword is answered, a press adds the title; all report the outcome; only commands change the table; an unhandled update changes nothing |
| `Calendar.IsoYearSign` | src/api/notion/objects.rs:64-70 | a date prints non-empty; it starts with a digit for years 0 to 9999, with '-' before year 0 and with '+' after 9999 |
| `Calendar.ParseIso` | src/api/imdb/imdb_api.rs:199-201 | only ten characters shaped as four digits, '-', two digits, '-', two digits parse, and the year is then below 10000 |
| `Calendar.IsoRoundTrip` | src/api/notion/objects.rs:64-70 | a date of a four-digit year prints as ten characters and parses back to itself |
| `Text.Trim` | src/bot/handler.rs:72-81 | the result is a slice of the input with only whitespace cut from either end, and neither starts nor ends with whitespace |
| `Text.TrimEmptyIff` | src/bot/handler.rs:72-81 | a token trims to nothing exactly when it is all whitespace |
| `Text.ParseU32` | src/api/imdb/imdb_api.rs:197-202 | parses exactly an optional '+' and one or more digits whose value is below 2^32, and the result is that value |
| `Text.ParseU32Decimal` | src/api/imdb/imdb_api.rs:197-202 | the decimal text of any u32 parses back to it |
| `Text.Split` | src/api/notion/mod.rs:148-151 | no piece holds the separator, and every character of a piece is in the text |
| `Text.SplitJoin` | src/api/notion/mod.rs:148-151 | joining the pieces with the separator gives back the text |
| `Text.JoinWithSnoc` | src/db.rs:343-357 | adding a newline and a line extends the joined text by that line |
| `Text.AfterLastOfJoin` | src/api/notion/mod.rs:148-152 | the part after the last separator is the final segment |
| `WebUrl.Preprocess` | src/api/notion/mod.rs:141-141 | the text the URL parser reads holds no tab or newline |
| `WebUrl.PreprocessAddsNothing` | src/api/notion/mod.rs:141-141 | preprocessing adds no character |
| `WebUrl.SpecialHost` | src/api/notion/mod.rs:141-146 | a domain host is the percent-decoded, lower-cased input, non-empty, with no forbidden code point and not ending in a number (the last label, or the one before a trailing dot); a forbidden code point means no host |
| `WebUrl.TrailingDotNumbers` | src/api/notion/mod.rs:141-146 | "1." and "0x1." (any digit for 1) end in a number |
| `WebUrl.OversizedNumberHost` | src/api/notion/mod.rs:141-146 | a decimal number of at least 2^32 followed by a dot ends in a number, is no IPv4 address, and so is no host |
| `WebUrl.OversizedNumberLink` | src/api/notion/mod.rs:141-142 | an https link with such a host does not parse |
| `WebUrl.Parse` | src/api/notion/mod.rs:141-154 | only text with a scheme parses |
| `WebUrl.Utf8` | src/api/notion/mod.rs:141-142 | a code point is one to four UTF-8 bytes: one exactly for ASCII, with the lead-byte and continuation-byte ranges of UTF-8 |
| `WebUrl.Utf8RoundTrip` | src/api/notion/mod.rs:141-142 | decoding the UTF-8 bytes of a code point gives it back |
| `WebUrl.EncodePathChar` | src/api/notion/mod.rs:141-142 | a code point outside the path percent-encode set is kept; one inside becomes three characters per UTF-8 byte; the result needs no encoding |
| `WebUrl.PathPercentEncode` | src/api/notion/mod.rs:141-142 | the result needs no encoding, is no shorter, equals the input iff the input needs none, and gains no slash or backslash |
| `WebUrl.DecodeEncodedPath` | src/api/notion/mod.rs:141-142 | for ASCII text without '%', percent-decoding the encoded text gives it back |
| `WebUrl.PathStep` | src/api/notion/mod.rs:148-150 | after the last piece there is at least one segment |
| `WebUrl.StepKeepsClean` | src/api/notion/mod.rs:148-150 | a path step keeps every segment encoded and free of slashes and dot segments |
| `WebUrl.SegmentsClean` | src/api/notion/mod.rs:148-150 | walking all pieces keeps every segment clean |
| `WebUrl.SpecialPath` | src/api/notion/mod.rs:141-150 | the path of a special URL starts with '/' |
| `WebUrl.SpecialPathIsPlain` | src/api/notion/mod.rs:141-150 | every segment of a parsed path is percent-encoded, holds no slash and is no dot segment |
| `WebUrl.SpecialPathIdempotent` | src/api/notion/mod.rs:141-150 | parsing a parsed path again changes nothing |
| `WebUrl.PlainPathUnchanged` | src/api/notion/mod.rs:141-150 | a path whose segments are all clean is kept exactly as written |
| `WebUrl.EncodedLastPiece` | src/api/notion/mod.rs:141-150 | in a two-piece path with a clean first piece, the last piece is percent-encoded |
| `WebUrl.DotDotLastPiece` | src/api/notion/mod.rs:141-150 | a last piece ".." leaves the path "/" |
| `WebUrl.SpaceInPathExample` | src/api/notion/mod.rs:141-150 | "/x/a b" becomes "/x/a%20b" |
| `WebUrl.DotDotPathExample` | src/api/notion/mod.rs:141-150 | "/x/.." becomes "/" |
| `WebUrl.Domain` | src/api/notion/mod.rs:143-146 | a URL has a domain iff its host is a domain or opaque name, and the domain is that name |
| `WebUrl.LastPathSegment` | src/api/notion/mod.rs:148-150 | a segment exists iff the path starts with '/'; it is the path's '/'-free tail |
| `WebUrl.RefusedHost` | src/api/notion/mod.rs:141-142 | an https link whose host holds a code point no domain may hold does not parse |
| `WebUrl.ParseHttps` | src/api/notion/mod.rs:141-142 | an https link with a plain host (lower-case letters, digits, '-' and '.', no label starting "xn--", not ending in a number) parses to that domain and the parsed (encoded, normalised) path, without the query |
| `WebUrl.AceLabelNotPlain` | src/api/notion/mod.rs:141-142 | a host with a label beginning "xn--" is neither an LDH name nor a plain host, so the lemmas about plain hosts never speak of a name IDNA would rewrite or refuse |
| `WebUrl.NoColonNoUrl` | src/api/notion/mod.rs:141-154 | text without ':' is not an absolute URL |
| `Json.F64Value` | src/api/notion/objects.rs:35-37 | a float becomes a JSON number, except that it becomes null exactly when it is infinite or NaN, spelled out or reached by overflow |
| `Json.HugeExponentIsNull` | src/api/notion/objects.rs:35-37 | "1eN" overflows and serialises as null for every N from 316 on |
| `Json.ShortDecimalIsNumber` | src/api/notion/objects.rs:35-37 | a decimal literal with at most 300 digits before the point, such as a rating, stays a number |
| `Http.DecodeAs` | src/api/notion/mod.rs:118-127 | a body decodes iff it parsed and has the type's shape; a body that did not parse keeps its parse error |

## Left out

- Configuration, `start_bot`, the webhook listener and the dispatcher loop (`src/config.rs`, `src/bot/mod.rs:41-66`, `src/lib.rs`) are not modelled. They are start-up and I/O. The bot's dependencies are the constructor's parameters.
- The HTTP transport (reqwest), the SQL text and connection pool (sqlx), and the Telegram Bot API are not modelled. They are replaced by a reply oracle, a map and a message log.
- Concurrency is not modelled: handlers run one at a time.
- `Work.Dispatch`: command parsing (teloxide's, which depends on the bot's user name) is a parameter, not modelled.
- The HTML parse mode and the inline keyboard are modelled only as an `html` flag and one button per message. Telegram's rendering is out of scope.
- `Db.BotDatabase`: an outage is fixed for the table object's lifetime. A database that fails only some requests is not modelled.
- `Handlers.Bot.CreateNotionDbJob`: because an outage is fixed, the table is known to be reachable once the row was read. The source stores the new database id with a separate UPDATE after `create_database` succeeded (src/bot/handler.rs:165-177). If that UPDATE fails, the Notion database already exists but is not recorded, and the user sees the database error. That orphan case is not modelled.
- `Handlers.Bot.StartJob`: for the same reason, an insert that fails after the lookup succeeded is not modelled.
- `Db.DUPLICATE_KEY`: the error text for inserting an existing user id is not PostgreSQL's exact message. Only its place in the error is modelled.
- `Json.Float64`: an `f64` is kept as the literal it was parsed from. Its rounded value is not modelled. Rounding is modelled only as far as deciding overflow to infinity (the threshold 2^1024 - 2^970), which decides whether it serialises as null.
- `Calendar.ParseIso`: chrono's `%F` parser is modelled as a strict YYYY-MM-DD parser for years 0 to 9999. chrono also accepts signed and longer years and unpadded fields.
- `WebUrl.Parse`: the URL parser is a simplified WHATWG parse. It covers scheme detection, special-scheme authority, host, port and path. It also covers leading and trailing C0/space trimming, tab and newline removal, percent-decoding of ASCII hosts, forbidden host and domain code points, and IPv4 hosts. It leaves out IDNA: the url crate passes every host of a special URL through `domain_to_ascii`, which maps non-ASCII hosts (and percent-escapes decoding to non-ASCII bytes) and also Punycode-decodes and validates every label beginning "xn--"; the model does none of this. It also leaves out IPv6 address validation, userinfo percent-encoding, and the particulars of `file` URLs (drive letters, and the path shortening rules that apply to them). Paths are percent-encoded with the path percent-encode set and their `.` and `..` segments are resolved, for special URLs only; the path of a URL with another scheme is kept as written.
- `WebUrl.SpecialHost`: keeps a label beginning "xn--" as written, where IDNA would Punycode-decode it and may refuse the host ("xn--a" decodes to U+0080, which UTS 46 disallows, so `https://xn--a.notion.so/x-1?v` fails to parse and `GetNotionPageId` returns the input). The lemmas about notion.so and foreign links therefore require hosts with no such label (`IsLdhName`).
- `Imdb.DecodeImdbApiMovieInfo` and the other serde decoders read JSON objects only. serde also accepts a struct written as an array, which is not modelled. Fields the bot never reads (`originalTitle`, `fullTitle`, `plotLocal`, `keywordList`) are decoded but not used.
- `Http.DecodeError`: serde's error messages are not modelled. A failed decode is one fixed message naming the target type.
- `Imdb.RequestDataFromImdbApi` does not look at the HTTP status, as in the source: only `errorMessage` decides whether the service refused.
- `ImdbApi::usage_api`, `request_api_usage` and `UsageData` are not modelled. They are marked dead code and nothing calls them.
- `Transcripts`: only English exists. The language parameter is dropped, and `title_info_api` always uses "en".
- `Notion.CreateDatabase` and `Notion.HandleNotionErrorResponse` treat an unreadable Notion error body differently, as the source does: FeedBack when creating the database, FeedBackPropagate when inserting a page.
- User ids are unbounded `nat`s. The source's `u64` and `Decimal` conversions are not modelled, since no id reaches 2^64.
