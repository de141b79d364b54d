/** The command and message handlers (src/bot/handler.rs). Each handler runs
    one unit of work (a `...Job` method below, the `async` block the handler
    hands to `BotWork::do_it`) and then reports its outcome with
    `HandleWorkResult`. The jobs read and write the settings table, call
    Notion and IMDb-API through their oracles, and send Telegram messages. */
module Handlers {
  import opened Wrappers
  import opened Text
  import opened Errors
  import opened Transcripts
  import opened Http
  import opened Movie
  import opened Db
  import opened Work
  import Notion
  import Imdb

  /** How many search hits one keyword shows at most. */
  const SEARCH_LIMIT: nat := 5

  /** The hit's title, bold and linked to its IMDb page. */
  function SearchResultText(hit: SearchResult): (html: string)
    ensures var anchor := "<a href=\"" + Imdb.IMDB_TITLE_URL + hit.id + "\">";
      |anchor| <= |html| && html[..|anchor|] == anchor
    ensures EndsWith(html, "<b>" + hit.title + "</b></a>")
  {
    "<a href=\"" + Imdb.IMDB_TITLE_URL + hit.id + "\"><b>" + hit.title + "</b></a>"
  }

  /** One message per hit, with an "Add to Movie List" button whose data is the hit's id. */
  function SearchResultMessage(chat: int, hit: SearchResult): (m: Outgoing)
    ensures m.button == Some(Button(ADD_TO_MOVIE_LIST, hit.id))
  {
    Outgoing(chat, SearchResultText(hit), true, Some(Button(ADD_TO_MOVIE_LIST, hit.id)))
  }

  function NoResultMessage(chat: int): Outgoing {
    HtmlMessage(chat, "<b>" + NO_SEARCH_RESULT + "</b>")
  }

  /** The hit messages in the order the bot sends them: last hit first. */
  function ReversedMessages(chat: int, hits: seq<SearchResult>): (ms: seq<Outgoing>)
    ensures |ms| == |hits|
    ensures forall k :: 0 <= k < |hits| ==> ms[k] == SearchResultMessage(chat, hits[|hits| - 1 - k])
  {
    if hits == [] then [] else ReversedMessages(chat, hits[1..]) + [SearchResultMessage(chat, hits[0])]
  }

  /** The messages for the later hits come before those for the earlier ones. */
  lemma {:induction false} ReversedMessagesAppend(chat: int, a: seq<SearchResult>, b: seq<SearchResult>)
    ensures ReversedMessages(chat, a + b) == ReversedMessages(chat, b) + ReversedMessages(chat, a)
  {
    if a == [] {
      assert a + b == b;
    } else {
      assert (a + b)[0] == a[0] && (a + b)[1..] == a[1..] + b;
      ReversedMessagesAppend(chat, a[1..], b);
    }
  }

  /** How many more messages Telegram accepts. */
  function Room(sent: nat, limit: nat): nat {
    if sent < limit then limit - sent else 0
  }

  /** A job's last step, sending `m`: either it is delivered and the job
      succeeds, or nothing is delivered and the send error is propagated. */
  ghost predicate Delivered(before: seq<Outgoing>, after: seq<Outgoing>, limit: nat, failure: Cause,
                            m: Outgoing, res: Result<()>)
  {
    if |before| < limit then after == before + [m] && res == Ok(())
    else after == before && res == Err(Propagate(failure))
  }

  class Bot {
    const db: BotDatabase
    const tg: Telegram
    /** Notion's answer to each request. */
    const notion: Notion.NotionRequest -> Reply
    /** IMDb-API's answer to each GET. */
    const imdb: string -> Reply
    const api: Imdb.ImdbApi
    const helpPage: string

    constructor(db: BotDatabase, tg: Telegram, notion: Notion.NotionRequest -> Reply, imdb: string -> Reply,
                api: Imdb.ImdbApi, helpPage: string)
      ensures this.db == db && this.tg == tg && this.notion == notion && this.imdb == imdb
      ensures this.api == api && this.helpPage == helpPage
    {
      this.db := db;
      this.tg := tg;
      this.notion := notion;
      this.imdb := imdb;
      this.api := api;
      this.helpPage := helpPage;
    }

    /** `send_message(...).await.map_err(propagate_error)?` */
    method Send(m: Outgoing) returns (res: Result<()>)
      modifies tg
      ensures Delivered(old(tg.sent), tg.sent, tg.limit, tg.failure, m, res)
    {
      var error := tg.SendMessage(m);
      if error.Some? {
        return Err(PropagateError(error.value));
      }
      res := Ok(());
    }

    /** `/help`: the command list as HTML; a send error is the handler's error. */
    method Help(msg: Message) returns (r: HandlerResult)
      modifies tg
      ensures old(tg.CanSend()) ==> tg.sent == old(tg.sent) + [HtmlMessage(msg.chat, HelpMessage(helpPage))] && r == Handled
      ensures !old(tg.CanSend()) ==> tg.sent == old(tg.sent) && r == Failed(tg.failure)
    {
      var error := tg.SendMessage(HtmlMessage(msg.chat, HelpMessage(helpPage)));
      r := if error.Some? then Failed(error.value) else Handled;
    }

    // What each unit of work does, over the table and the chat before
    // (`rows0`, `sent0`) and after (`rows1`, `sent1`) it.

    /** `/start`: the user's empty row is created unless there is one, then the welcome is sent. */
    ghost predicate Started(msg: Message, rows0: map<nat, UserTokens>, rows1: map<nat, UserTokens>,
                            sent0: seq<Outgoing>, sent1: seq<Outgoing>, res: Result<()>)
    {
      && (msg.from.None? ==> res == Err(FeedBack(Leaf(MESSAGE_FROM_NO_ONE))) && rows1 == rows0 && sent1 == sent0)
      && (msg.from.Some? && db.outage.Some? ==>
            res == Err(StorageError(db.outage.value)) && rows1 == rows0 && sent1 == sent0)
      && (msg.from.Some? && db.outage.None? ==>
            var id := msg.from.value.id;
            // an existing row, and so every token in it, is left alone
            && rows1 == (if id in rows0 then rows0 else rows0[id := EmptyRow(id)])
            && Delivered(sent0, sent1, tg.limit, tg.failure, PlainMessage(msg.chat, WELCOME), res))
    }

    /** `/settings`: the summary of the sender's row is sent. */
    ghost predicate SettingsShown(msg: Message, sent0: seq<Outgoing>, sent1: seq<Outgoing>, res: Result<()>)
      reads db
    {
      && (msg.from.None? ==> res == Err(FeedBack(Leaf(MESSAGE_FROM_NO_ONE))) && sent1 == sent0)
      && (msg.from.Some? && db.Row(msg.from.value.id).Err? ==>
            res == Err(db.Row(msg.from.value.id).error) && sent1 == sent0)
      && (msg.from.Some? && db.Row(msg.from.value.id).Ok? ==>
            Delivered(sent0, sent1, tg.limit, tg.failure, PlainMessage(msg.chat, Summary(db.Row(msg.from.value.id).value)), res))
    }

    /** The checks both token commands make, in order: a sender, a non-empty
        token, a reachable table, an existing row. Each failure leaves table and chat alone. */
    ghost predicate TokenRefused(msg: Message, token: string, empty: string, rows0: map<nat, UserTokens>,
                                 rows1: map<nat, UserTokens>, sent0: seq<Outgoing>, sent1: seq<Outgoing>, res: Result<()>)
    {
      && (msg.from.None? ==> res == Err(FeedBack(Leaf(MESSAGE_FROM_NO_ONE))) && rows1 == rows0 && sent1 == sent0)
      && (msg.from.Some? && Trim(token) == [] ==>
            res == Err(FeedBack(Leaf(empty))) && rows1 == rows0 && sent1 == sent0)
      && (msg.from.Some? && Trim(token) != [] && db.outage.Some? ==>
            res == Err(StorageError(db.outage.value)) && rows1 == rows0 && sent1 == sent0)
      && (msg.from.Some? && Trim(token) != [] && db.outage.None? && msg.from.value.id !in rows0 ==>
            res == Err(FeedBack(Leaf(CONFIGURE_AGAIN))) && rows1 == rows0 && sent1 == sent0)
    }

    /** `/set_imdb_token`: the trimmed token replaces the stored one and is echoed. */
    ghost predicate ImdbTokenSet(msg: Message, token: string, rows0: map<nat, UserTokens>, rows1: map<nat, UserTokens>,
                                 sent0: seq<Outgoing>, sent1: seq<Outgoing>, res: Result<()>)
    {
      && TokenRefused(msg, token, INPUT_EMPTY_IMDB_TOKEN, rows0, rows1, sent0, sent1, res)
      && (msg.from.Some? && Trim(token) != [] && db.outage.None? && msg.from.value.id in rows0 ==>
            var id := msg.from.value.id;
            && rows1 == rows0[id := rows0[id].(imdbToken := Trim(token))]
            && Delivered(sent0, sent1, tg.limit, tg.failure, PlainMessage(msg.chat, ImdbTokenSetAs(Trim(token))), res))
    }

    /** `/set_notion_token`: the same for the Notion integration token. */
    ghost predicate NotionTokenSet(msg: Message, token: string, rows0: map<nat, UserTokens>, rows1: map<nat, UserTokens>,
                                   sent0: seq<Outgoing>, sent1: seq<Outgoing>, res: Result<()>)
    {
      && TokenRefused(msg, token, INPUT_EMPTY_NOTION_TOKEN, rows0, rows1, sent0, sent1, res)
      && (msg.from.Some? && Trim(token) != [] && db.outage.None? && msg.from.value.id in rows0 ==>
            var id := msg.from.value.id;
            var row := rows0[id];
            && rows1 == rows0[id := row.(notionToken := row.notionToken.(integrationToken := Trim(token)))]
            && Delivered(sent0, sent1, tg.limit, tg.failure, PlainMessage(msg.chat, NotionTokenSetAs(Trim(token))), res))
    }

    /** `/create_notion_db`: a failure before the database exists changes
        nothing; once it exists, its id is stored and the user is told. */
    ghost predicate DatabaseCreated(msg: Message, pageLink: string, rows0: map<nat, UserTokens>, rows1: map<nat, UserTokens>,
                                    sent0: seq<Outgoing>, sent1: seq<Outgoing>, res: Result<()>)
    {
      && (msg.from.None? ==> res == Err(FeedBack(Leaf(MESSAGE_FROM_NO_ONE))) && rows1 == rows0 && sent1 == sent0)
      && (msg.from.Some? && Trim(pageLink) == [] ==>
            res == Err(FeedBack(Leaf(INPUT_EMPTY_NOTION_PAGE_ID))) && rows1 == rows0 && sent1 == sent0)
      && (msg.from.Some? && Trim(pageLink) != [] && Lookup(rows0, db.outage, msg.from.value.id).Err? ==>
            res == Err(Lookup(rows0, db.outage, msg.from.value.id).error) && rows1 == rows0 && sent1 == sent0)
      && (msg.from.Some? && Trim(pageLink) != [] && Lookup(rows0, db.outage, msg.from.value.id).Ok? ==>
            var row := Lookup(rows0, db.outage, msg.from.value.id).value;
            && (row.notionToken.integrationToken == [] ==>
                  res == Err(FeedBack(Leaf(NEED_NOTION_TOKEN_FIRST))) && rows1 == rows0 && sent1 == sent0)
            && (row.notionToken.integrationToken != [] ==>
                  DatabaseStored(msg.from.value.id, row.notionToken.integrationToken, Trim(pageLink), msg.chat,
                                 rows0, rows1, sent0, sent1, res)))
    }

    /** The second half of `/create_notion_db`, for a user with a row and a
        Notion token: the page id is read, then the database is created; a
        failure of either changes nothing. Then only the user's database id
        becomes the new database's, and the user is told. */
    ghost predicate DatabaseStored(userId: nat, token: string, input: string, chat: int,
                                   rows0: map<nat, UserTokens>, rows1: map<nat, UserTokens>,
                                   sent0: seq<Outgoing>, sent1: seq<Outgoing>, res: Result<()>)
    {
      var page := Notion.ParseNotionPageId(input);
      && (page.Err? ==> res == Err(page.error) && rows1 == rows0 && sent1 == sent0)
      && (page.Ok? ==>
            var created := Notion.CreateDatabase(notion, token, page.value);
            && (created.Err? ==> res == Err(created.error) && rows1 == rows0 && sent1 == sent0)
            && (created.Ok? && userId in rows0 ==>
                  var row := rows0[userId];
                  && rows1 == rows0[userId := row.(notionToken := row.notionToken.(databaseId := created.value))]
                  && Delivered(sent0, sent1, tg.limit, tg.failure, PlainMessage(chat, NOTION_DATABASE_CREATED), res)))
    }

    /** A keyword: searched for a user ready to add movies; the hits are sent
        last first, or a no-result message when there are none. */
    ghost predicate KeywordAnswered(msg: Message, sent0: seq<Outgoing>, sent1: seq<Outgoing>, res: Result<()>)
      reads db
    {
      && (msg.from.None? ==> res == Err(FeedBack(Leaf(MESSAGE_FROM_NO_ONE))) && sent1 == sent0)
      && (msg.from.Some? && db.Row(msg.from.value.id).Err? ==>
            res == Err(db.Row(msg.from.value.id).error) && sent1 == sent0)
      && (msg.from.Some? && db.Row(msg.from.value.id).Ok? ==>
            var row := db.Row(msg.from.value.id).value;
            // the readiness check comes before the text is looked at
            && (!NotionTokenIsGood(row) ==>
                  res == Err(FeedBack(Leaf(JoinWith(HintLines(row), '\n')))) && sent1 == sent0)
            && (NotionTokenIsGood(row) && msg.text.None? ==>
                  res == Err(FeedBack(Leaf(INPUT_EMPTY_KEYWORD))) && sent1 == sent0)
            && (NotionTokenIsGood(row) && msg.text.Some? ==>
                  var found := Imdb.Search(api, imdb, row.imdbToken, Trim(msg.text.value), SEARCH_LIMIT);
                  && (found.Err? ==> res == Err(found.error) && sent1 == sent0)
                  && (found.Ok? && found.value == [] ==>
                        Delivered(sent0, sent1, tg.limit, tg.failure, NoResultMessage(msg.chat), res))
                  && (found.Ok? && found.value != [] ==>
                        sent1 == sent0 + Imdb.Take(ReversedMessages(msg.chat, found.value), Room(|sent0|, tg.limit))
                        && (res.Ok? <==> |found.value| <= Room(|sent0|, tg.limit))
                        && (res.Err? ==> res == Err(Propagate(tg.failure))))))
    }

    /** A press on "Add to Movie List": the title's record is fetched and
        added to the user's movie list, and the user is told. */
    ghost predicate ItemAdded(query: CallbackQuery, imdbId: string, chat: int, sent0: seq<Outgoing>, sent1: seq<Outgoing>,
                              res: Result<()>)
      reads db
    {
      && (db.Row(query.from.id).Err? ==> res == Err(db.Row(query.from.id).error) && sent1 == sent0)
      && (db.Row(query.from.id).Ok? ==> TitleAdded(db.Row(query.from.id).value, imdbId, chat, sent0, sent1, res))
    }

    /** The same once the user's row is read: a user not ready to add movies
        gets the hint; otherwise the record is fetched with the user's key and
        inserted into their database, and only then is the user told. */
    ghost predicate TitleAdded(row: UserTokens, imdbId: string, chat: int, sent0: seq<Outgoing>, sent1: seq<Outgoing>,
                               res: Result<()>)
    {
      var info := Imdb.RequestMovieInformation(api, imdb, row.imdbToken, imdbId, En);
      && (!NotionTokenIsGood(row) ==>
            res == Err(FeedBack(Leaf(JoinWith(HintLines(row), '\n')))) && sent1 == sent0)
      && (NotionTokenIsGood(row) && info.Err? ==> res == Err(info.error) && sent1 == sent0)
      && (NotionTokenIsGood(row) && info.Ok? ==>
            var inserted := Notion.InsertMovieInfo(notion, row.notionToken.integrationToken, row.notionToken.databaseId, info.value);
            && (inserted.Err? ==> res == Err(inserted.error) && sent1 == sent0)
            && (inserted.Ok? ==>
                  Delivered(sent0, sent1, tg.limit, tg.failure,
                            HtmlMessage(chat, AddToMovieListSuccessfully(info.value.title)), res)))
    }

    /** `/start`: creates the user's empty row unless there is one, then welcomes. */
    method StartJob(msg: Message) returns (res: Result<()>)
      requires db.Valid()
      modifies db, tg
      ensures db.Valid()
      ensures Started(msg, old(db.rows), db.rows, old(tg.sent), tg.sent, res)
    {
      var user :- GetUserFromMsg(msg);
      var tokens :- db.GetUserTokens(user.id);
      if tokens.None? {
        // cannot fail: the database answered and the user has no row yet
        var initialized := db.InitUserTokens(user.id);
        assert initialized.Ok?;
      }
      res := Send(PlainMessage(msg.chat, WELCOME));
    }

    /** `/settings`: shows the stored tokens. */
    method SettingsJob(msg: Message) returns (res: Result<()>)
      modifies tg
      ensures SettingsShown(msg, old(tg.sent), tg.sent, res)
    {
      var user :- GetUserFromMsg(msg);
      var tokens :- db.UserTokens(user.id);
      res := Send(PlainMessage(msg.chat, Summary(tokens)));
    }

    /** `/set_imdb_token`: stores the trimmed token of a known user and echoes it. */
    method SetImdbTokenJob(msg: Message, token: string) returns (res: Result<()>)
      requires db.Valid()
      modifies db, tg
      ensures db.Valid()
      ensures ImdbTokenSet(msg, token, old(db.rows), db.rows, old(tg.sent), tg.sent, res)
    {
      var trimmed := Trim(token);
      var user :- GetUserFromMsg(msg);
      if trimmed == [] {
        return Err(FeedbackError(Leaf(INPUT_EMPTY_IMDB_TOKEN)));
      }
      var success :- db.StoreImdbToken(user.id, trimmed);
      if !success {
        return Err(FeedbackError(Leaf(CONFIGURE_AGAIN)));
      }
      res := Send(PlainMessage(msg.chat, ImdbTokenSetAs(trimmed)));
    }

    /** `/set_notion_token`: the same for the Notion integration token. */
    method SetNotionTokenJob(msg: Message, token: string) returns (res: Result<()>)
      requires db.Valid()
      modifies db, tg
      ensures db.Valid()
      ensures NotionTokenSet(msg, token, old(db.rows), db.rows, old(tg.sent), tg.sent, res)
    {
      var trimmed := Trim(token);
      var user :- GetUserFromMsg(msg);
      if trimmed == [] {
        return Err(FeedbackError(Leaf(INPUT_EMPTY_NOTION_TOKEN)));
      }
      var success :- db.StoreNotionToken(user.id, trimmed);
      if !success {
        return Err(FeedbackError(Leaf(CONFIGURE_AGAIN)));
      }
      res := Send(PlainMessage(msg.chat, NotionTokenSetAs(trimmed)));
    }

    /** `/create_notion_db`: checks the input, then that a Notion token is set,
        then reads the page id, creates the movie-list database under that
        page and stores its id. */
    method CreateNotionDbJob(msg: Message, pageLink: string) returns (res: Result<()>)
      requires db.Valid()
      modifies db, tg
      ensures db.Valid()
      ensures DatabaseCreated(msg, pageLink, old(db.rows), db.rows, old(tg.sent), tg.sent, res)
    {
      var trimmed := Trim(pageLink);
      var user :- GetUserFromMsg(msg);
      if trimmed == [] {
        return Err(FeedbackError(Leaf(INPUT_EMPTY_NOTION_PAGE_ID)));
      }
      var notionToken :- db.NotionIntegrationToken(user.id);
      if notionToken == [] {
        return Err(FeedbackError(Leaf(NEED_NOTION_TOKEN_FIRST)));
      }
      res := CreateDatabaseOnPage(user.id, notionToken, trimmed, msg.chat);
    }

    /** The second half of `/create_notion_db`, for a known user with a Notion
        token: reads the page id, creates the database and stores its id. */
    method CreateDatabaseOnPage(userId: nat, token: string, input: string, chat: int) returns (res: Result<()>)
      requires db.Valid() && db.outage.None? && userId in db.rows
      modifies db, tg
      ensures db.Valid()
      ensures DatabaseStored(userId, token, input, chat, old(db.rows), db.rows, old(tg.sent), tg.sent, res)
    {
      var pageId :- Notion.ParseNotionPageId(input);
      var dbId :- Notion.CreateDatabase(notion, token, pageId);
      var stored := db.StoreNotionDatabaseId(userId, dbId);
      assert stored == Ok(true);
      res := Send(PlainMessage(chat, NOTION_DATABASE_CREATED));
    }

    /** Sends one message per hit, last hit first, until Telegram refuses one. */
    method SendSearchResults(chat: int, hits: seq<SearchResult>) returns (res: Result<()>)
      modifies tg
      ensures tg.sent == old(tg.sent) + Imdb.Take(ReversedMessages(chat, hits), Room(|old(tg.sent)|, tg.limit))
      ensures res.Ok? <==> |hits| <= Room(|old(tg.sent)|, tg.limit)
      ensures res.Err? ==> res == Err(Propagate(tg.failure))
    {
      ghost var before := tg.sent;
      var i := |hits|;
      while i > 0
        invariant 0 <= i <= |hits|
        invariant tg.sent == before + ReversedMessages(chat, hits[i..])
        invariant i < |hits| ==> |hits| - i <= Room(|before|, tg.limit)
      {
        var error := tg.SendMessage(SearchResultMessage(chat, hits[i - 1]));
        if error.Some? {
          SentSoFar(chat, hits, i, Room(|before|, tg.limit));
          return Err(PropagateError(error.value));
        }
        assert hits[i - 1..][1..] == hits[i..];
        i := i - 1;
      }
      assert hits[0..] == hits;
      res := Ok(());
    }

    /** The hits from index `i` on are the first `|hits| - i` messages sent. */
    lemma SentSoFar(chat: int, hits: seq<SearchResult>, i: nat, room: nat)
      requires i <= |hits| && (i < |hits| ==> |hits| - i == room) && (i == |hits| ==> room == 0)
      ensures Imdb.Take(ReversedMessages(chat, hits), room) == ReversedMessages(chat, hits[i..])
    {
      ReversedMessagesAppend(chat, hits[..i], hits[i..]);
      assert hits[..i] + hits[i..] == hits;
    }

    /** A plain message: the title to search for, for a user ready to add movies. */
    method ReceiveKeywordJob(msg: Message) returns (res: Result<()>)
      modifies tg
      ensures KeywordAnswered(msg, old(tg.sent), tg.sent, res)
    {
      var user :- GetUserFromMsg(msg);
      var row :- db.UserTokens(user.id);
      if !NotionTokenIsGood(row) {
        var hint := UserHint(row);
        return Err(FeedbackError(Leaf(hint)));
      }
      if msg.text.None? {
        return Err(FeedbackError(Leaf(INPUT_EMPTY_KEYWORD)));
      }
      var title := Trim(msg.text.value);
      var hits :- Imdb.Search(api, imdb, row.imdbToken, title, SEARCH_LIMIT);
      if hits == [] {
        res := Send(NoResultMessage(msg.chat));
        return;
      }
      res := SendSearchResults(msg.chat, hits);
    }

    /** A press on "Add to Movie List": fetches the title the button names and
        adds it to the user's Notion movie list. */
    method ReceiveItemSelectionJob(query: CallbackQuery, imdbId: string, chat: int) returns (res: Result<()>)
      modifies tg
      ensures ItemAdded(query, imdbId, chat, old(tg.sent), tg.sent, res)
    {
      var row :- db.UserTokens(query.from.id);
      res := AddTitleJob(row, imdbId, chat);
    }

    /** Adds the title to the movie list of the user whose row is `row`. */
    method AddTitleJob(row: UserTokens, imdbId: string, chat: int) returns (res: Result<()>)
      modifies tg
      ensures TitleAdded(row, imdbId, chat, old(tg.sent), tg.sent, res)
    {
      if !NotionTokenIsGood(row) {
        var hint := UserHint(row);
        return Err(FeedbackError(Leaf(hint)));
      }
      var info :- Imdb.RequestMovieInformation(api, imdb, row.imdbToken, imdbId, En);
      var _ :- Notion.InsertMovieInfo(notion, row.notionToken.integrationToken, row.notionToken.databaseId, info);
      res := Send(HtmlMessage(chat, AddToMovieListSuccessfully(info.title)));
    }

    // The handlers: each runs its job and reports the outcome. `afterJob` is
    // the chat as the job left it.

    method Start(msg: Message) returns (res: Result<()>, r: HandlerResult, ghost afterJob: seq<Outgoing>)
      requires db.Valid()
      modifies db, tg
      ensures db.Valid()
      ensures Started(msg, old(db.rows), db.rows, old(tg.sent), afterJob, res)
      ensures WorkReported(res, msg.chat, afterJob, tg.sent, tg.limit, tg.failure, r)
    {
      res := StartJob(msg);
      afterJob := tg.sent;
      ghost var rows := db.rows;
      assert Started(msg, old(db.rows), rows, old(tg.sent), afterJob, res);
      r := HandleWorkResult(tg, msg.chat, res);
      assert db.rows == rows;
    }

    method Settings(msg: Message) returns (res: Result<()>, r: HandlerResult, ghost afterJob: seq<Outgoing>)
      modifies tg
      ensures SettingsShown(msg, old(tg.sent), afterJob, res)
      ensures WorkReported(res, msg.chat, afterJob, tg.sent, tg.limit, tg.failure, r)
    {
      res := SettingsJob(msg);
      afterJob := tg.sent;
      r := HandleWorkResult(tg, msg.chat, res);
    }

    method SetImdbToken(msg: Message, token: string) returns (res: Result<()>, r: HandlerResult, ghost afterJob: seq<Outgoing>)
      requires db.Valid()
      modifies db, tg
      ensures db.Valid()
      ensures ImdbTokenSet(msg, token, old(db.rows), db.rows, old(tg.sent), afterJob, res)
      ensures WorkReported(res, msg.chat, afterJob, tg.sent, tg.limit, tg.failure, r)
    {
      res := SetImdbTokenJob(msg, token);
      afterJob := tg.sent;
      ghost var rows := db.rows;
      assert ImdbTokenSet(msg, token, old(db.rows), rows, old(tg.sent), afterJob, res);
      r := HandleWorkResult(tg, msg.chat, res);
      assert db.rows == rows;
    }

    method SetNotionToken(msg: Message, token: string) returns (res: Result<()>, r: HandlerResult, ghost afterJob: seq<Outgoing>)
      requires db.Valid()
      modifies db, tg
      ensures db.Valid()
      ensures NotionTokenSet(msg, token, old(db.rows), db.rows, old(tg.sent), afterJob, res)
      ensures WorkReported(res, msg.chat, afterJob, tg.sent, tg.limit, tg.failure, r)
    {
      res := SetNotionTokenJob(msg, token);
      afterJob := tg.sent;
      ghost var rows := db.rows;
      assert NotionTokenSet(msg, token, old(db.rows), rows, old(tg.sent), afterJob, res);
      r := HandleWorkResult(tg, msg.chat, res);
      assert db.rows == rows;
    }

    method HandleNotionPageLinkOrId(msg: Message, pageLink: string)
      returns (res: Result<()>, r: HandlerResult, ghost afterJob: seq<Outgoing>)
      requires db.Valid()
      modifies db, tg
      ensures db.Valid()
      ensures DatabaseCreated(msg, pageLink, old(db.rows), db.rows, old(tg.sent), afterJob, res)
      ensures WorkReported(res, msg.chat, afterJob, tg.sent, tg.limit, tg.failure, r)
    {
      res := CreateNotionDbJob(msg, pageLink);
      afterJob := tg.sent;
      ghost var rows := db.rows;
      assert DatabaseCreated(msg, pageLink, old(db.rows), rows, old(tg.sent), afterJob, res);
      r := HandleWorkResult(tg, msg.chat, res);
      assert db.rows == rows;
    }

    method ReceiveKeyword(msg: Message) returns (res: Result<()>, r: HandlerResult, ghost afterJob: seq<Outgoing>)
      modifies tg
      ensures KeywordAnswered(msg, old(tg.sent), afterJob, res)
      ensures WorkReported(res, msg.chat, afterJob, tg.sent, tg.limit, tg.failure, r)
    {
      res := ReceiveKeywordJob(msg);
      afterJob := tg.sent;
      r := HandleWorkResult(tg, msg.chat, res);
    }

    /** A press without data or without its message is ignored. */
    method ReceiveItemSelection(query: CallbackQuery) returns (res: Result<()>, r: HandlerResult, ghost afterJob: seq<Outgoing>)
      modifies tg
      ensures query.data.None? || query.message.None? ==> r == Handled && tg.sent == old(tg.sent)
      ensures query.data.Some? && query.message.Some? ==>
        ItemAdded(query, query.data.value, query.message.value.chat, old(tg.sent), afterJob, res)
      ensures query.data.Some? && query.message.Some? ==>
        WorkReported(res, query.message.value.chat, afterJob, tg.sent, tg.limit, tg.failure, r)
    {
      afterJob := tg.sent;
      res := Ok(());
      if query.data.None? || query.message.None? {
        return res, Handled, afterJob;
      }
      var chat := query.message.value.chat;
      res := ReceiveItemSelectionJob(query, query.data.value, chat);
      afterJob := tg.sent;
      r := HandleWorkResult(tg, chat, res);
    }

    /** What the handler of a command does: its job, over the table and chat
        before (`rows0`, `sent0`) and after it (`rows1`, `afterJob`), then the
        report of its outcome, which leaves the chat at `sent1`. */
    ghost predicate CommandDone(msg: Message, command: Command, rows0: map<nat, UserTokens>, rows1: map<nat, UserTokens>,
                                sent0: seq<Outgoing>, afterJob: seq<Outgoing>, sent1: seq<Outgoing>,
                                res: Result<()>, r: HandlerResult)
      reads db
    {
      match command
      case Help =>
        && rows1 == rows0
        && (|sent0| < tg.limit ==> sent1 == sent0 + [HtmlMessage(msg.chat, HelpMessage(helpPage))] && r == Handled)
        && (|sent0| >= tg.limit ==> sent1 == sent0 && r == Failed(tg.failure))
      case Start =>
        Started(msg, rows0, rows1, sent0, afterJob, res)
        && WorkReported(res, msg.chat, afterJob, sent1, tg.limit, tg.failure, r)
      case Settings =>
        rows1 == rows0 && SettingsShown(msg, sent0, afterJob, res)
        && WorkReported(res, msg.chat, afterJob, sent1, tg.limit, tg.failure, r)
      case SetImdbToken(token) =>
        ImdbTokenSet(msg, token, rows0, rows1, sent0, afterJob, res)
        && WorkReported(res, msg.chat, afterJob, sent1, tg.limit, tg.failure, r)
      case SetNotionToken(token) =>
        NotionTokenSet(msg, token, rows0, rows1, sent0, afterJob, res)
        && WorkReported(res, msg.chat, afterJob, sent1, tg.limit, tg.failure, r)
      case CreateNotionDb(link) =>
        DatabaseCreated(msg, link, rows0, rows1, sent0, afterJob, res)
        && WorkReported(res, msg.chat, afterJob, sent1, tg.limit, tg.failure, r)
    }

    /** What the handler the dispatcher picks does, in the same terms. Only
        commands may change the table. */
    ghost predicate Routed(route: Route, rows0: map<nat, UserTokens>, rows1: map<nat, UserTokens>,
                           sent0: seq<Outgoing>, afterJob: seq<Outgoing>, sent1: seq<Outgoing>,
                           res: Result<()>, r: HandlerResult)
      reads db
    {
      match route
      case CommandRoute(msg, command) => CommandDone(msg, command, rows0, rows1, sent0, afterJob, sent1, res, r)
      case KeywordRoute(msg) =>
        rows1 == rows0 && KeywordAnswered(msg, sent0, afterJob, res)
        && WorkReported(res, msg.chat, afterJob, sent1, tg.limit, tg.failure, r)
      case SelectionRoute(query) =>
        && rows1 == rows0
        && (query.data.None? || query.message.None? ==> r == Handled && sent1 == sent0)
        && (query.data.Some? && query.message.Some? ==>
              ItemAdded(query, query.data.value, query.message.value.chat, sent0, afterJob, res)
              && WorkReported(res, query.message.value.chat, afterJob, sent1, tg.limit, tg.failure, r))
      case Unhandled => rows1 == rows0 && sent1 == sent0 && r == Handled
    }

    /** Runs the handler of a command. */
    method HandleCommand(msg: Message, command: Command)
      returns (ghost res: Result<()>, r: HandlerResult, ghost afterJob: seq<Outgoing>)
      requires db.Valid()
      modifies db, tg
      ensures db.Valid()
      ensures CommandDone(msg, command, old(db.rows), db.rows, old(tg.sent), afterJob, tg.sent, res, r)
    {
      res, afterJob := Ok(()), tg.sent;
      match command
      case Help => r := Help(msg);
      case Start => res, r, afterJob := Start(msg);
      case Settings => res, r, afterJob := Settings(msg);
      case SetImdbToken(token) => res, r, afterJob := SetImdbToken(msg, token);
      case SetNotionToken(token) => res, r, afterJob := SetNotionToken(msg, token);
      case CreateNotionDb(link) => res, r, afterJob := HandleNotionPageLinkOrId(msg, link);
    }

    /** Runs the handler the dispatcher picks for an update. `res` and
        `afterJob` are the job's outcome and the chat as the job left it. */
    method HandleUpdate(u: Update, parseCommand: string -> Option<Command>)
      returns (ghost res: Result<()>, r: HandlerResult, ghost afterJob: seq<Outgoing>)
      requires db.Valid()
      modifies db, tg
      ensures db.Valid()
      ensures Routed(Dispatch(u, parseCommand), old(db.rows), db.rows, old(tg.sent), afterJob, tg.sent, res, r)
    {
      res, afterJob := Ok(()), tg.sent;
      match Dispatch(u, parseCommand)
      case CommandRoute(msg, command) => res, r, afterJob := HandleCommand(msg, command);
      case KeywordRoute(msg) => res, r, afterJob := ReceiveKeyword(msg);
      case SelectionRoute(query) => res, r, afterJob := ReceiveItemSelection(query);
      case Unhandled => r := Handled;
    }
  }
}
