/** Per-user settings (src/db.rs): one row of three tokens per Telegram user,
    the texts derived from a row, and the table that stores the rows.

    The PostgreSQL table is modelled as a map from user id to row. Whether
    the database is reachable is fixed for the lifetime of a table object
    (`outage`): while it is down every operation fails with that error. */
module Db {
  import opened Wrappers
  import opened Text
  import opened Errors
  import opened Transcripts

  /** The Notion half of a row: integration token and movie-list database id. */
  datatype NotionToken = NotionToken(integrationToken: string, databaseId: string)

  /** A row; an empty string means "not configured yet". */
  datatype UserTokens = UserTokens(userId: nat, imdbToken: string, notionToken: NotionToken)

  /** The row `/start` creates: every token empty. */
  function EmptyRow(userId: nat): (t: UserTokens)
    ensures t.userId == userId && t.imdbToken == []
    ensures t.notionToken.integrationToken == [] && t.notionToken.databaseId == []
  {
    UserTokens(userId, "", NotionToken("", ""))
  }

  /** A user can add movies once both Notion settings are present. */
  predicate NotionTokenIsGood(t: UserTokens) {
    !(t.notionToken.integrationToken == [] || t.notionToken.databaseId == [])
  }

  /** The hint's lines: the title and a blank line, then one line per
      missing Notion setting. */
  function HintLines(t: UserTokens): (lines: seq<string>)
    ensures 2 <= |lines| <= 4 && lines[..2] == [USER_HINT_TITLE, ""]
    ensures USER_HINT_SET_NOTION_TOKEN in lines <==> t.notionToken.integrationToken == []
    ensures USER_HINT_CREATE_NOTION_DATABASE in lines <==> t.notionToken.databaseId == []
  {
    [USER_HINT_TITLE, ""]
    + (if t.notionToken.integrationToken == [] then [USER_HINT_SET_NOTION_TOKEN] else [])
    + (if t.notionToken.databaseId == [] then [USER_HINT_CREATE_NOTION_DATABASE] else [])
  }

  /** Tells the user what is still missing, one line per missing setting. */
  method UserHint(t: UserTokens) returns (hint: string)
    ensures hint == JoinWith(HintLines(t), '\n')
  {
    hint := USER_HINT_TITLE + "\n";
    ghost var lines := [USER_HINT_TITLE, ""];
    assert hint == JoinWith(lines, '\n') by {
      assert lines[1..] == [""];
    }
    if t.notionToken.integrationToken == [] {
      JoinWithSnoc(lines, '\n', USER_HINT_SET_NOTION_TOKEN);
      hint := hint + "\n";
      hint := hint + USER_HINT_SET_NOTION_TOKEN;
      lines := lines + [USER_HINT_SET_NOTION_TOKEN];
    }
    if t.notionToken.databaseId == [] {
      JoinWithSnoc(lines, '\n', USER_HINT_CREATE_NOTION_DATABASE);
      hint := hint + "\n";
      hint := hint + USER_HINT_CREATE_NOTION_DATABASE;
      lines := lines + [USER_HINT_CREATE_NOTION_DATABASE];
    }
    assert lines == HintLines(t);
  }

  /** The hint names nothing beyond its title exactly when the row is ready:
      readiness and the hint agree. */
  lemma HintEmptyIffGood(t: UserTokens)
    ensures NotionTokenIsGood(t) <==> HintLines(t) == [USER_HINT_TITLE, ""]
    ensures !NotionTokenIsGood(t) ==> |HintLines(t)| > 2
  {
  }

  /** How a token is shown in the settings summary. */
  function TokenToString(s: string): (r: string)
    ensures r != []
    ensures s != [] ==> r == s
    ensures s == [] ==> r == NOT_SET
  {
    if s == [] then NOT_SET else s
  }

  const SUMMARY_TITLE := "Tokens:"
  const IMDB_TOKEN_LABEL := "IMDb token: "
  const NOTION_TOKEN_LABEL := "Notion token:"
  const DATABASE_ID_LABEL := "Notion database ID: "

  function Summary(t: UserTokens): string {
    SUMMARY_TITLE + "\n" + IMDB_TOKEN_LABEL + TokenToString(t.imdbToken)
    + "\n" + NOTION_TOKEN_LABEL + TokenToString(t.notionToken.integrationToken)
    + "\n" + DATABASE_ID_LABEL + TokenToString(t.notionToken.databaseId)
  }

  lemma JoinFourLines(title: string, l1: string, t1: string, l2: string, t2: string, l3: string, t3: string)
    ensures title + "\n" + l1 + t1 + "\n" + l2 + t2 + "\n" + l3 + t3
            == JoinWith([title, l1 + t1, l2 + t2, l3 + t3], '\n')
  {
    var lines := [title, l1 + t1, l2 + t2, l3 + t3];
    assert lines[1..][1..][1..] == [l3 + t3];
    assert JoinWith(lines[1..][1..], '\n') == l2 + t2 + ['\n'] + (l3 + t3);
    assert JoinWith(lines[1..], '\n') == l1 + t1 + ['\n'] + (l2 + t2 + ['\n'] + (l3 + t3));
  }

  /** The summary has one line per token, each naming the token or saying it is not set. */
  lemma SummaryLines(t: UserTokens)
    ensures Summary(t) == JoinWith([SUMMARY_TITLE,
                                    IMDB_TOKEN_LABEL + TokenToString(t.imdbToken),
                                    NOTION_TOKEN_LABEL + TokenToString(t.notionToken.integrationToken),
                                    DATABASE_ID_LABEL + TokenToString(t.notionToken.databaseId)], '\n')
  {
    JoinFourLines(SUMMARY_TITLE, IMDB_TOKEN_LABEL, TokenToString(t.imdbToken),
      NOTION_TOKEN_LABEL, TokenToString(t.notionToken.integrationToken),
      DATABASE_ID_LABEL, TokenToString(t.notionToken.databaseId));
  }

  /** The error a storage failure is reported as: shown to the user as a
      database error and escalated with the storage error inside. */
  function StorageError(e: Cause): (r: BotError)
    ensures r.FeedBackPropagate? && r.cause.Context? && r.cause.message == DATABASE_ERROR
    ensures Source(r.cause) == Some(e)
  {
    FeedbackPropagateError(Context(DATABASE_ERROR, e))
  }

  /** The error an INSERT of an existing user id raises (the id is the key). */
  const DUPLICATE_KEY: Cause := Leaf("duplicate key value violates unique constraint")

  /** What reading a user's row from table `rows` yields: the row, a storage
      error, or a request to `/start` again for a user without one. */
  function Lookup(rows: map<nat, UserTokens>, outage: Option<Cause>, userId: nat): (r: Result<UserTokens>)
    ensures outage.Some? ==> r == Err(StorageError(outage.value))
    ensures outage.None? && userId !in rows ==> r == Err(FeedBack(Leaf(CONFIGURE_AGAIN)))
    ensures r.Ok? <==> outage.None? && userId in rows
    ensures r.Ok? ==> r.value == rows[userId]
  {
    if outage.Some? then Err(StorageError(outage.value))
    else if userId !in rows then Err(FeedbackError(Leaf(CONFIGURE_AGAIN)))
    else Ok(rows[userId])
  }

  /** The `user_tokens` table. */
  class BotDatabase {
    var rows: map<nat, UserTokens>
    const outage: Option<Cause>

    /** Every row sits under its own user id. */
    ghost predicate Valid()
      reads this
    {
      forall id :: id in rows ==> rows[id].userId == id
    }

    constructor(outage: Option<Cause>)
      ensures rows == map[] && this.outage == outage && Valid()
    {
      rows := map[];
      this.outage := outage;
    }

    /** Creates the all-empty row of a new user. */
    method InitUserTokens(userId: nat) returns (r: Result<()>)
      requires Valid()
      modifies this
      ensures Valid()
      ensures outage.Some? ==> r == Err(StorageError(outage.value)) && rows == old(rows)
      ensures outage.None? && userId in old(rows) ==> r == Err(StorageError(DUPLICATE_KEY)) && rows == old(rows)
      ensures outage.None? && userId !in old(rows) ==> r == Ok(()) && rows == old(rows)[userId := EmptyRow(userId)]
    {
      if outage.Some? {
        return Err(StorageError(outage.value));
      }
      if userId in rows {
        return Err(StorageError(DUPLICATE_KEY));
      }
      rows := rows[userId := EmptyRow(userId)];
      r := Ok(());
    }

    /** The row of a user, if there is one. */
    method GetUserTokens(userId: nat) returns (r: Result<Option<UserTokens>>)
      ensures outage.Some? ==> r == Err(StorageError(outage.value))
      ensures outage.None? ==> r.Ok? && (r.value.Some? <==> userId in rows)
      ensures r.Ok? && r.value.Some? ==> r.value.value == rows[userId]
      ensures Valid() && r.Ok? && r.value.Some? ==> r.value.value.userId == userId
    {
      if outage.Some? {
        return Err(StorageError(outage.value));
      }
      r := Ok(if userId in rows then Some(rows[userId]) else None);
    }

    /** What reading a user's row yields now. */
    function Row(userId: nat): (r: Result<UserTokens>)
      reads this
      ensures r.Ok? <==> outage.None? && userId in rows
      ensures Valid() && r.Ok? ==> r.value.userId == userId
    {
      Lookup(rows, outage, userId)
    }

    /** The row of a user; a user without one is asked to `/start` again. */
    method UserTokens(userId: nat) returns (r: Result<UserTokens>)
      ensures r == Row(userId)
      ensures Valid() && r.Ok? ==> r.value.userId == userId
    {
      var row :- GetUserTokens(userId);
      if row.None? {
        return Err(FeedbackError(Leaf(CONFIGURE_AGAIN)));
      }
      r := Ok(row.value);
    }

    method GetImdbToken(userId: nat) returns (r: Result<Option<string>>)
      ensures outage.Some? ==> r == Err(StorageError(outage.value))
      ensures outage.None? ==> r.Ok? && (r.value.Some? <==> userId in rows)
      ensures r.Ok? && r.value.Some? ==> r.value.value == rows[userId].imdbToken
    {
      if outage.Some? {
        return Err(StorageError(outage.value));
      }
      r := Ok(if userId in rows then Some(rows[userId].imdbToken) else None);
    }

    method ImdbToken(userId: nat) returns (r: Result<string>)
      ensures outage.Some? ==> r == Err(StorageError(outage.value))
      ensures outage.None? && userId !in rows ==> r == Err(FeedBack(Leaf(CONFIGURE_AGAIN)))
      ensures r.Ok? <==> outage.None? && userId in rows
      ensures r.Ok? ==> r.value == rows[userId].imdbToken
    {
      var token :- GetImdbToken(userId);
      if token.None? {
        return Err(FeedbackError(Leaf(CONFIGURE_AGAIN)));
      }
      r := Ok(token.value);
    }

    method GetNotionIntegrationToken(userId: nat) returns (r: Result<Option<string>>)
      ensures outage.Some? ==> r == Err(StorageError(outage.value))
      ensures outage.None? ==> r.Ok? && (r.value.Some? <==> userId in rows)
      ensures r.Ok? && r.value.Some? ==> r.value.value == rows[userId].notionToken.integrationToken
    {
      if outage.Some? {
        return Err(StorageError(outage.value));
      }
      r := Ok(if userId in rows then Some(rows[userId].notionToken.integrationToken) else None);
    }

    method NotionIntegrationToken(userId: nat) returns (r: Result<string>)
      ensures outage.Some? ==> r == Err(StorageError(outage.value))
      ensures outage.None? && userId !in rows ==> r == Err(FeedBack(Leaf(CONFIGURE_AGAIN)))
      ensures r.Ok? <==> outage.None? && userId in rows
      ensures r.Ok? ==> r.value == rows[userId].notionToken.integrationToken
    {
      var token :- GetNotionIntegrationToken(userId);
      if token.None? {
        return Err(FeedbackError(Leaf(CONFIGURE_AGAIN)));
      }
      r := Ok(token.value);
    }

    /** Replaces the IMDb token of an existing row; the result says whether
        there was a row to update. */
    method StoreImdbToken(userId: nat, token: string) returns (r: Result<bool>)
      requires Valid()
      modifies this
      ensures Valid()
      ensures outage.Some? ==> r == Err(StorageError(outage.value)) && rows == old(rows)
      ensures outage.None? ==> r == Ok(userId in old(rows))
      ensures outage.None? && userId in old(rows) ==>
        rows == old(rows)[userId := old(rows)[userId].(imdbToken := token)]
      ensures userId !in old(rows) ==> rows == old(rows)
    {
      if outage.Some? {
        return Err(StorageError(outage.value));
      }
      if userId in rows {
        rows := rows[userId := rows[userId].(imdbToken := token)];
        r := Ok(true);
      } else {
        r := Ok(false);
      }
    }

    method StoreNotionToken(userId: nat, token: string) returns (r: Result<bool>)
      requires Valid()
      modifies this
      ensures Valid()
      ensures outage.Some? ==> r == Err(StorageError(outage.value)) && rows == old(rows)
      ensures outage.None? ==> r == Ok(userId in old(rows))
      ensures outage.None? && userId in old(rows) ==>
        rows == old(rows)[userId := old(rows)[userId].(notionToken := old(rows)[userId].notionToken.(integrationToken := token))]
      ensures userId !in old(rows) ==> rows == old(rows)
    {
      if outage.Some? {
        return Err(StorageError(outage.value));
      }
      if userId in rows {
        var row := rows[userId];
        rows := rows[userId := row.(notionToken := row.notionToken.(integrationToken := token))];
        r := Ok(true);
      } else {
        r := Ok(false);
      }
    }

    method StoreNotionDatabaseId(userId: nat, databaseId: string) returns (r: Result<bool>)
      requires Valid()
      modifies this
      ensures Valid()
      ensures outage.Some? ==> r == Err(StorageError(outage.value)) && rows == old(rows)
      ensures outage.None? ==> r == Ok(userId in old(rows))
      ensures outage.None? && userId in old(rows) ==>
        rows == old(rows)[userId := old(rows)[userId].(notionToken := old(rows)[userId].notionToken.(databaseId := databaseId))]
      ensures userId !in old(rows) ==> rows == old(rows)
    {
      if outage.Some? {
        return Err(StorageError(outage.value));
      }
      if userId in rows {
        var row := rows[userId];
        rows := rows[userId := row.(notionToken := row.notionToken.(databaseId := databaseId))];
        r := Ok(true);
      } else {
        r := Ok(false);
      }
    }

    /** Deletes a user's row; the result says whether there was one. */
    method RemoveUserTokens(userId: nat) returns (r: Result<bool>)
      requires Valid()
      modifies this
      ensures Valid()
      ensures outage.Some? ==> r == Err(StorageError(outage.value)) && rows == old(rows)
      ensures outage.None? ==> r == Ok(userId in old(rows)) && rows == old(rows) - {userId}
    {
      if outage.Some? {
        return Err(StorageError(outage.value));
      }
      r := Ok(userId in rows);
      rows := rows - {userId};
    }

    /** Back to the all-empty row, whether or not the user had one. */
    method ResetUserTokens(userId: nat) returns (r: Result<()>)
      requires Valid()
      modifies this
      ensures Valid()
      ensures outage.Some? ==> r == Err(StorageError(outage.value)) && rows == old(rows)
      ensures outage.None? ==> r == Ok(()) && rows == old(rows)[userId := EmptyRow(userId)]
    {
      var _ :- RemoveUserTokens(userId);
      r := InitUserTokens(userId);
    }
  }
}
