/** The bot's error taxonomy (src/error.rs).

    An `anyhow::Error` is modelled by what the bot reads from it: the text it
    displays (its outermost message) and the error it wraps, if any. Adding
    context with `.context(msg)` wraps an error in a new outer message. */
module Errors {
  import opened Wrappers

  datatype Cause = Leaf(message: string) | Context(message: string, inner: Cause)

  /** `std::error::Error::source`: the wrapped error, if any. */
  function Source(c: Cause): (r: Option<Cause>)
    ensures r.None? <==> c.Leaf?
    ensures r.Some? ==> r.value < c
  {
    match c
    case Leaf(_) => None
    case Context(_, inner) => Some(inner)
  }

  /** Three severities; each wraps one error and displays as that error
      (`#[error(transparent)]`).
      - FeedBack: shown to the user, not escalated;
      - FeedBackPropagate: shown to the user and escalated;
      - Propagate: escalated only. */
  datatype BotError =
    | FeedBack(cause: Cause)
    | FeedBackPropagate(cause: Cause)
    | Propagate(cause: Cause)

  /** The text a `BotError` displays: the wrapped error's outermost message. */
  function Display(e: BotError): string {
    e.cause.message
  }

  /** Whatever its severity, an error displays as the error it wraps. */
  lemma DisplayIsTransparent(c: Cause)
    ensures Display(FeedBack(c)) == c.message
    ensures Display(FeedBackPropagate(c)) == c.message
    ensures Display(Propagate(c)) == c.message
  {
  }

  /** `feedback_error`: `anyhow!` on an `anyhow::Error` returns it unchanged. */
  function FeedbackError(c: Cause): (e: BotError)
    ensures e.FeedBack? && e.cause == c
    ensures Display(e) == c.message
  {
    FeedBack(c)
  }

  /** `propagate_error`. */
  function PropagateError(c: Cause): (e: BotError)
    ensures e.Propagate? && e.cause == c
    ensures Display(e) == c.message
  {
    Propagate(c)
  }

  /** `feedback_propagate_error`. */
  function FeedbackPropagateError(c: Cause): (e: BotError)
    ensures e.FeedBackPropagate? && e.cause == c
    ensures Display(e) == c.message
  {
    FeedBackPropagate(c)
  }

  /** The three constructors never agree, whatever they wrap: the severity of
      an error is fixed by the constructor that made it. */
  lemma ConstructorsDistinct(c: Cause, d: Cause)
    ensures FeedbackError(c) != PropagateError(d)
    ensures FeedbackError(c) != FeedbackPropagateError(d)
    ensures PropagateError(c) != FeedbackPropagateError(d)
    ensures FeedbackError(c) == FeedbackError(d) <==> c == d
  {
  }

  /** The result of one unit of work (`Result<T, BotError>`), usable with `:-`. */
  datatype Result<+T> = Ok(value: T) | Err(error: BotError) {

    predicate IsFailure() {
      Err?
    }

    function PropagateFailure<U>(): Result<U>
      requires Err?
    {
      Err(error)
    }

    function Extract(): T
      requires Ok?
    {
      value
    }
  }
}
