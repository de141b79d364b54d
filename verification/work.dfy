/** The dispatch layer (src/bot/mod.rs): which handler an update reaches, who
    sent a message, and how the outcome of a unit of work is reported: what
    the user is told and what is escalated to the dispatcher's error log.

    Telegram is modelled by the messages the bot has sent so far. The Bot API
    accepts messages while fewer than `limit` have been sent; after that every
    send fails with `failure`. */
module Work {
  import opened Wrappers
  import opened Errors
  import opened Transcripts

  datatype User = User(id: nat)

  /** An incoming message: its chat, its sender (channel posts have none) and its text, if any. */
  datatype Message = Message(chat: int, from: Option<User>, text: Option<string>)

  /** A press on an inline button: who pressed it, the button's data, and the
      message the button belongs to (absent when Telegram no longer has it). */
  datatype CallbackQuery = CallbackQuery(from: User, data: Option<string>, message: Option<Message>)

  /** The bot's commands, as parsed from a message text. */
  datatype Command =
    | Help
    | Start
    | Settings
    | SetImdbToken(imdbToken: string)
    | SetNotionToken(notionToken: string)
    | CreateNotionDb(pageLink: string)

  datatype Update = MessageUpdate(msg: Message) | CallbackQueryUpdate(query: CallbackQuery) | OtherUpdate

  /** Where the dispatcher sends an update. */
  datatype Route =
    | CommandRoute(msg: Message, command: Command)
    | KeywordRoute(msg: Message)
    | SelectionRoute(query: CallbackQuery)
    | Unhandled

  /** The dispatch tree: messages try the command parser first and otherwise
      go to keyword search; button presses go to item selection. Command
      parsing (teloxide's, which knows the bot's user name) is a parameter. */
  function Dispatch(u: Update, parseCommand: string -> Option<Command>): (r: Route)
    ensures u.MessageUpdate? ==> (r.CommandRoute? && r.msg == u.msg) || r == KeywordRoute(u.msg)
    ensures r.CommandRoute? <==> u.MessageUpdate? && u.msg.text.Some? && parseCommand(u.msg.text.value).Some?
    ensures r.CommandRoute? ==> Some(r.command) == parseCommand(u.msg.text.value)
    ensures r.SelectionRoute? <==> u.CallbackQueryUpdate?
    ensures r.Unhandled? <==> u.OtherUpdate?
  {
    match u
    case MessageUpdate(msg) =>
      if msg.text.Some? && parseCommand(msg.text.value).Some? then CommandRoute(msg, parseCommand(msg.text.value).value)
      else KeywordRoute(msg)
    case CallbackQueryUpdate(q) => SelectionRoute(q)
    case OtherUpdate => Unhandled
  }

  /** Only a text that is not a command is searched for; a message without
      text is searched for too (and rejected there). */
  lemma KeywordOnlyForNonCommands(msg: Message, parseCommand: string -> Option<Command>)
    ensures Dispatch(MessageUpdate(msg), parseCommand).KeywordRoute?
            <==> msg.text.None? || parseCommand(msg.text.value).None?
  {
  }

  /** The sender of a message; a message from no one is refused. */
  function GetUserFromMsg(msg: Message): (r: Result<User>)
    ensures msg.from.Some? <==> r.Ok?
    ensures r.Ok? ==> r.value == msg.from.value
    ensures r.Err? ==> r.error == FeedBack(Leaf(MESSAGE_FROM_NO_ONE))
  {
    match msg.from
    case Some(user) => Ok(user)
    case None => Err(FeedbackError(Leaf(MESSAGE_FROM_NO_ONE)))
  }

  datatype Button = Button(caption: string, callbackData: string)

  /** A message the bot sends: chat, text, whether it is HTML, and its inline button. */
  datatype Outgoing = Outgoing(chat: int, text: string, html: bool, button: Option<Button>)

  function PlainMessage(chat: int, text: string): Outgoing {
    Outgoing(chat, text, false, None)
  }

  function HtmlMessage(chat: int, text: string): Outgoing {
    Outgoing(chat, text, true, None)
  }

  /** The Bot API as the bot sees it. */
  class Telegram {
    var sent: seq<Outgoing>
    const limit: nat
    const failure: Cause

    constructor(limit: nat, failure: Cause)
      ensures sent == [] && this.limit == limit && this.failure == failure
    {
      sent := [];
      this.limit := limit;
      this.failure := failure;
    }

    predicate CanSend()
      reads this
    {
      |sent| < limit
    }

    /** `send_message`: delivered and recorded, or refused with `failure`. */
    method SendMessage(m: Outgoing) returns (error: Option<Cause>)
      modifies this
      ensures old(CanSend()) ==> error == None && sent == old(sent) + [m]
      ensures !old(CanSend()) ==> error == Some(failure) && sent == old(sent)
    {
      if |sent| < limit {
        sent := sent + [m];
        error := None;
      } else {
        error := Some(failure);
      }
    }
  }

  /** What a handler returns to the dispatcher: done, or an error to log. */
  datatype HandlerResult = Handled | Failed(error: Cause)

  /** The text shown to the user for the outcome of a unit of work. */
  function FeedbackText(result: Result<()>): (r: Option<string>)
    ensures r.Some? <==> result.Err? && !result.error.Propagate?
    ensures r.Some? ==> r.value == Display(result.error)
  {
    match result
    case Ok(_) => None
    case Err(FeedBack(e)) => Some(e.message)
    case Err(FeedBackPropagate(e)) => Some(e.message)
    case Err(Propagate(_)) => None
  }

  /** What is escalated to the dispatcher once the user has been told. An
      error shown to the user with context escalates the error underneath
      (as its text): the user saw the context, the log gets the reason. */
  function Escalation(result: Result<()>): (r: HandlerResult)
    ensures r.Failed? <==> result.Err? && !result.error.FeedBack?
    ensures result.Err? && result.error.Propagate? ==> r == Failed(result.error.cause)
    ensures result.Err? && result.error.FeedBackPropagate? && result.error.cause.Context? ==>
      r == Failed(Leaf(result.error.cause.inner.message))
    ensures result.Err? && result.error.FeedBackPropagate? && result.error.cause.Leaf? ==>
      r == Failed(result.error.cause)
  {
    match result
    case Ok(_) => Handled
    case Err(FeedBack(_)) => Handled
    case Err(FeedBackPropagate(e)) =>
      (match Source(e)
       case Some(inner) => Failed(Leaf(inner.message))
       case None => Failed(e))
    case Err(Propagate(e)) => Failed(e)
  }

  /** Every error is either shown or escalated, and only a feedback-propagate
      error is both. */
  lemma ShownOrEscalated(result: Result<()>)
    requires result.Err?
    ensures FeedbackText(result).Some? || Escalation(result).Failed?
    ensures FeedbackText(result).Some? && Escalation(result).Failed? <==> result.error.FeedBackPropagate?
  {
  }

  /** How `handle_work_result` leaves the chat and the handler's result:
      the feedback text, if any, is sent as a plain message; a refused send
      is what the handler reports; otherwise the escalation is. */
  ghost predicate WorkReported(result: Result<()>, chat: int, before: seq<Outgoing>, after: seq<Outgoing>,
                               limit: nat, failure: Cause, r: HandlerResult)
  {
    match FeedbackText(result)
    case None => after == before && r == Escalation(result)
    case Some(text) =>
      if |before| < limit then after == before + [PlainMessage(chat, text)] && r == Escalation(result)
      else after == before && r == Failed(failure)
  }

  /** `BotWork::do_it`'s reporting step. */
  method HandleWorkResult(tg: Telegram, chat: int, result: Result<()>) returns (r: HandlerResult)
    modifies tg
    ensures WorkReported(result, chat, old(tg.sent), tg.sent, tg.limit, tg.failure, r)
  {
    var text := FeedbackText(result);
    if text.Some? {
      var error := tg.SendMessage(PlainMessage(chat, text.value));
      if error.Some? {
        return Failed(error.value);
      }
    }
    r := Escalation(result);
  }
}
