/**
 * The generation endpoint (app/api/chat/route.ts): it checks the shape of
 * the request, picks a model provider from the configured credentials, and
 * either starts a text stream or answers with a status code and a text.
 * The stream itself, the provider SDKs and the fixed instruction text sent
 * with every request are outside this model.
 */
module ChatRoute {
  import opened Wrappers
  import opened JsStrings
  import opened JsValues
  import opened ChatErrors

  /** Something thrown: an `Error` instance with its message, or any other value. */
  datatype Thrown = ErrorInstance(message: string) | NonError(value: Value)

  /** The model a request is answered by. */
  datatype Provider = Groq(model: string) | OpenAI(model: string)

  /** The answer: a started stream for the given provider and messages, or a plain text response. */
  datatype Response = Streaming(provider: Provider, messages: seq<Value>) | Plain(status: int, text: string)

  /** Process environment variables. */
  type Env = map<string, string>

  const GroqModel: string := "llama-3.1-8b-instant"
  const OpenAIModel: string := "gpt-4o"
  const UnknownErrorText: string := "Unknown error occurred"
  const InvalidMessagesText: string := "Invalid messages format"
  const NoKeyText: string :=
    "No AI API key configured. Please add GROQ_API_KEY (free) environment variable."
  const QuotaPrefix: string := "API " + "quota" + QuotaRest
  const QuotaRest: string :=
    " exceeded. Please check your billing details or try using a different API key. Error: "
  const UnexpectedText: string := "An unexpected error occurred"

  /** `process.env[name]` is truthy: set and not empty. */
  predicate Configured(env: Env, name: string) {
    name in env && env[name] != ""
  }

  /**
   * `getErrorMessage`: the text the stream reports for an error raised while
   * streaming. `stringify` stands for `JSON.stringify`, which is not modelled.
   */
  function ErrorMessage(error: Thrown, stringify: Value -> string): (text: string)
    ensures error == NonError(Null) || error == NonError(Undefined) ==> text == UnknownErrorText
    ensures error.NonError? && error.value.Str? ==> text == error.value.s
    ensures error.ErrorInstance? ==> text == error.message
    ensures error.NonError? && !error.value.Null? && !error.value.Undefined? && !error.value.Str?
            ==> text == stringify(error.value)
  {
    match error
    case ErrorInstance(m) => m
    case NonError(v) =>
      if v.Null? || v.Undefined? then UnknownErrorText
      else if v.Str? then v.s
      else stringify(v)
  }

  /** The provider the credentials select: Groq if its key is set, else OpenAI if its key is set. */
  function SelectProvider(env: Env): (p: Option<Provider>)
    ensures Configured(env, "GROQ_API_KEY") ==> p == Some(Groq(GroqModel))
    ensures !Configured(env, "GROQ_API_KEY") && Configured(env, "OPENAI_API_KEY") ==> p == Some(OpenAI(OpenAIModel))
    ensures p.None? <==> !Configured(env, "GROQ_API_KEY") && !Configured(env, "OPENAI_API_KEY")
  {
    if Configured(env, "GROQ_API_KEY") then Some(Groq(GroqModel))
    else if Configured(env, "OPENAI_API_KEY") then Some(OpenAI(OpenAIModel))
    else None
  }

  /** The catch block: what a value thrown inside the handler turns into. */
  function Caught(error: Thrown): (r: Response)
    ensures r.Plain? && (r.status == 429 || r.status == 500)
    ensures r.status == 429 <==> error.ErrorInstance? && MentionsQuota(error.message)
    ensures r.status == 429 ==> r.text == QuotaPrefix + error.message
    ensures error.ErrorInstance? && !MentionsQuota(error.message) ==> r.text == "Error: " + error.message
    ensures error.NonError? ==> r.text == UnexpectedText
  {
    match error
    case ErrorInstance(m) =>
      if MentionsQuota(m) then Plain(429, QuotaPrefix + m)
      else Plain(500, "Error: " + m)
    case NonError(_) => Plain(500, UnexpectedText)
  }

  /**
   * `POST /api/chat`. `setupError` is what the provider SDK threw while the
   * chosen model and stream were being set up, if anything.
   */
  function Post(body: Body, env: Env, setupError: Option<Thrown>): (r: Response)
    ensures body.Unreadable? ==> r == Caught(ErrorInstance(body.reason))
    ensures body.Readable? && !Field(body.fields, "messages").Array? ==> r == Plain(400, InvalidMessagesText)
    ensures r.Streaming? ==> body.Readable? && r.messages == Field(body.fields, "messages").items
    ensures r.Streaming? ==> Some(r.provider) == SelectProvider(env) && setupError.None?
    ensures body.Readable? && Field(body.fields, "messages").Array? && SelectProvider(env).None?
            ==> r == Plain(500, NoKeyText)
    ensures body.Readable? && Field(body.fields, "messages").Array? && SelectProvider(env).Some?
            ==> r == (if setupError.None? then Streaming(SelectProvider(env).value, Field(body.fields, "messages").items)
                      else Caught(setupError.value))
  {
    match body
    case Unreadable(reason) => Caught(ErrorInstance(reason))
    case Readable(fields) =>
      var messages := Field(fields, "messages");
      if !Truthy(messages) || !messages.Array? then Plain(400, InvalidMessagesText)
      else
        match SelectProvider(env)
        case None => Plain(500, NoKeyText)
        case Some(provider) =>
          match setupError
          case Some(e) => Caught(e)
          case None => Streaming(provider, messages.items)
  }

  /** A request without a message array is refused before the credentials are looked at. */
  lemma InvalidRequestIgnoresCredentials(fields: map<string, Value>, env1: Env, env2: Env, e1: Option<Thrown>, e2: Option<Thrown>)
    requires !Field(fields, "messages").Array?
    ensures Post(Readable(fields), env1, e1) == Post(Readable(fields), env2, e2) == Plain(400, InvalidMessagesText)
  {
  }

  /** With the Groq key set, the OpenAI key makes no difference. */
  lemma GroqKeyTakesPrecedence(body: Body, env: Env, openAIKey: string, e: Option<Thrown>)
    requires Configured(env, "GROQ_API_KEY")
    ensures Post(body, env["OPENAI_API_KEY" := openAIKey], e) == Post(body, env, e)
    ensures body.Readable? && Field(body.fields, "messages").Array? && e.None?
            ==> Post(body, env, e) == Streaming(Groq(GroqModel), Field(body.fields, "messages").items)
  {
    assert Configured(env["OPENAI_API_KEY" := openAIKey], "GROQ_API_KEY");
  }

  /** A 429 answer carries the word "quota", so a client that shows it classifies it as a quota error. */
  lemma QuotaAnswerIsClassifiedAsQuota(error: Thrown, before: string, after: string)
    requires Caught(error).status == 429
    ensures Classify(before + Caught(error).text + after) == Toast(QuotaTitle, QuotaText)
  {
    Regroup(before, "API ", "quota", QuotaRest, error.message, after);
    QuotaWins(before + "API ", "quota", QuotaRest + error.message + after);
  }

  /** Moving the parentheses of a six-part concatenation. */
  lemma Regroup(a: string, b: string, c: string, d: string, e: string, f: string)
    ensures a + (b + c + d + e) + f == (a + b) + c + (d + e + f)
  {
  }
}
