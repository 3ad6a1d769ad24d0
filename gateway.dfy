/** `OpenAIService.generate_response` reduced to what the bot sees: the
    provider's answer, or the exception it raised, classified into either the
    stripped reply text or one of four fixed error messages. */
module Gateway {
  import opened Wrappers
  import opened PyText

  /** What `openai.ChatCompletion.create` produced. A completion carries its
      choices, each with `message.content` (which the API may leave `None`);
      the other variants are the exception raised instead. */
  datatype ProviderResult =
    | Completion(choices: seq<Option<string>>)
    | AuthenticationError   // openai.error.AuthenticationError
    | RateLimitError        // openai.error.RateLimitError
    | OtherApiError         // any other openai.error.OpenAIError (timeout, connection, service, ...)
    | OtherException        // any exception outside openai.error

  const InvalidApiKey: string := "Invalid API key configuration"
  const HighLoad: string := "Service temporarily unavailable due to high load"
  const Unavailable: string := "AI service is currently unavailable"
  const InternalError: string := "Internal service error"

  /** The user-facing failure categories the messages tell apart. */
  datatype ErrorCategory = AuthFailure | RateLimited | ProviderUnavailable | Unexpected

  /** The failure category of a result, read off the Python exception
      hierarchy rather than the messages: `None` for a usable reply.
      `AuthenticationError` and `RateLimitError` are subclasses of
      `openai.error.OpenAIError`, so they get their own categories before the
      generic one; an exception outside `openai.error` is `Unexpected`. An
      empty completion and a missing content are failures of the bot's own
      code, not of the provider, and fall in `Unexpected` too. */
  function CategoryOf(p: ProviderResult): Option<ErrorCategory>
  {
    match p
    case Completion(choices) =>
      if |choices| > 0 && choices[0].Some? then None else Some(Unexpected)
    case AuthenticationError => Some(AuthFailure)
    case RateLimitError => Some(RateLimited)
    case OtherApiError => Some(ProviderUnavailable)
    case OtherException => Some(Unexpected)
  }

  function MessageOf(c: ErrorCategory): string
  {
    match c
    case AuthFailure => InvalidApiKey
    case RateLimited => HighLoad
    case ProviderUnavailable => Unavailable
    case Unexpected => InternalError
  }

  /** Reads the category back from a message; the partner of `MessageOf`. */
  function CategoryOfMessage(msg: string): Option<ErrorCategory>
  {
    if msg == InvalidApiKey then Some(AuthFailure)
    else if msg == HighLoad then Some(RateLimited)
    else if msg == Unavailable then Some(ProviderUnavailable)
    else if msg == InternalError then Some(Unexpected)
    else None
  }

  /** Distinct categories produce distinct messages: the message alone tells
      the user which kind of failure occurred. */
  lemma MessageIdentifiesCategory(c: ErrorCategory)
    ensures CategoryOfMessage(MessageOf(c)) == Some(c)
  {
  }

  /** `generate_response`, with the `try`/`except` chain in source order.
      An empty `choices` raises the bot's own `OpenAIError`, which is not an
      `openai.error.OpenAIError`, so only `except Exception` catches it; a
      `None` content fails on `.strip()` and is caught there too. */
  function GenerateResponse(p: ProviderResult): (r: Result<string, string>)
    ensures r.Success? <==> CategoryOf(p).None?
    ensures r.Success? ==> r.value == Strip(p.choices[0].value) && IsStripped(r.value)
    ensures r.Failure? ==> r.error == MessageOf(CategoryOf(p).value)
  {
    match p
    case Completion(choices) =>
      if |choices| == 0 then Failure(InternalError)
      else if choices[0].None? then Failure(InternalError)
      else Success(Strip(choices[0].value))
    case AuthenticationError => Failure(InvalidApiKey)
    case RateLimitError => Failure(HighLoad)
    case OtherApiError => Failure(Unavailable)
    case OtherException => Failure(InternalError)
  }

  /** A reply that is all whitespace is still a success (with empty text):
      only a missing choice or content is a failure. */
  lemma BlankReplyIsSuccess(c: string)
    requires IsBlank(c)
    ensures GenerateResponse(Completion([Some(c)])) == Success([])
  {
    StripEmptyIff(c);
  }
}
