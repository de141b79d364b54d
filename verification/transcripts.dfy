/** The bot's user-facing texts in its only language, English. The model
    needs them as distinct constants; where a text is built from a value,
    it is a function of that value. */
module Transcripts {

  datatype Language = En

  const WELCOME := "Welcome to work with me! But we need to configure something first.\nPlease use:\n\n/help to check more details."
  const DATABASE_ERROR := "I got a bad memory...\nPlease let me stay alone for a while."
  const MESSAGE_FROM_NO_ONE := "I don't know who you are, it's better not to talk to strangers"
  const CONFIGURE_AGAIN := "I'm so sorry I forgot who you are, can we /start all over again? \U{1F97A}"
  const INPUT_EMPTY_IMDB_TOKEN := "IMDb API token should follow the /set_imdb_token command.\n e.g. /set_imdb_token abc123"
  const INPUT_EMPTY_NOTION_TOKEN := "Notion token should follow the /set_notion_token command.\n e.g. /set_notion_token abc123"
  const INPUT_EMPTY_NOTION_PAGE_ID := "Notion page ID or its link should follow the /create_notion_db command.\n e.g. /create_notion_db abc123"
  const INPUT_EMPTY_KEYWORD := "Please send me the title"
  const NOTION_DATABASE_CREATED := "Movie list database ID token has been created"
  const NEED_NOTION_TOKEN_FIRST := "Please /set_notion_token first."
  const NO_SEARCH_RESULT := "No result was found."
  const ADD_TO_MOVIE_LIST := "Add to Movie List"
  const NOT_SET := "not set"
  const USER_HINT_TITLE := "Please config required settings."
  const USER_HINT_HELP_COMMAND := "/help - display this text."
  const USER_HINT_START_COMMAND := "/start - start to do some work with me."
  const USER_HINT_SETTINGS_COMMAND := "/settings - show your tokens information."
  const USER_HINT_SET_IMDB_TOKEN := "/set_imdb_token `token` - set the IMDb API token for getting movie information. If not set, the shared default API token will be used. This token can easily reach the limit of 100 requests per day, please set your own API token."
  const USER_HINT_SET_NOTION_TOKEN := "/set_notion_token `token` - set the Notion internal integration token."
  const USER_HINT_CREATE_NOTION_DATABASE := "/create_notion_db `page link or id` - create a Notion database as your movie list."
  const INVALID_NOTION_PAGE_URL := "Invalid Notion Page Url"
  const PARSE_NOTION_ERROR_MESSAGE_FAILED := "Can't understand what's wrong with Notion..."
  const PARSE_IMDB_API_ERROR_MESSAGE_FAILED := "Can't understand what's wrong with IMDb-API..."
  const PARSE_IMDB_API_RESPONSE_FAILED := "IMDb-API told me bullshit..."

  function ImdbTokenSetAs(token: string): string {
    "IMDb token has been set as: " + token
  }

  function NotionTokenSetAs(token: string): string {
    "Notion token has been set as: " + token
  }

  function AddToMovieListSuccessfully(title: string): string {
    "<b>" + title + "</b> has been added to your movie list successfully!"
  }

  function CannotReachServer(serverName: string): string {
    "There's something wrong when I was requesting data from " + serverName
  }

  function HelpMessage(helpPage: string): string {
    "<b>Supported commands:</b>\n\n"
    + USER_HINT_HELP_COMMAND + "\n"
    + USER_HINT_START_COMMAND + "\n"
    + USER_HINT_SETTINGS_COMMAND + "\n"
    + USER_HINT_SET_IMDB_TOKEN + "\n"
    + USER_HINT_SET_NOTION_TOKEN + "\n"
    + USER_HINT_CREATE_NOTION_DATABASE + "\n\n"
    + "Please visit <a href=\"" + helpPage + "\"><b>this page</b></a> to get more help."
  }
}
