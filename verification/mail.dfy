/** The relay step of both handlers: the configuration check and the mapping of the
    mail provider's outcome to a response. The provider call itself is not modelled:
    its outcome is an input. */
module Mail {
  import opened Http

  /** An environment variable; absent and empty are alike (both falsy). */
  function Env(env: map<string, string>, key: string): string {
    if key in env then env[key] else ""
  }

  /** `MAILGUN_API_KEY || API_KEY` */
  function ApiKey(env: map<string, string>): string {
    if Env(env, "MAILGUN_API_KEY") != "" then Env(env, "MAILGUN_API_KEY") else Env(env, "API_KEY")
  }

  /** An API key, a sending domain and a recipient are all present. */
  predicate Configured(env: map<string, string>) {
    ApiKey(env) != "" && Env(env, "MAILGUN_DOMAIN") != "" && Env(env, "TO_EMAIL") != ""
  }

  const SendFailedMessage := "Failed to send email."

  /** A value thrown inside the edge function's relay step. */
  datatype Thrown = ErrorObject(message: string) | ThrownString(text: string) | OtherValue

  /** The edge function's call to the provider: it threw, or it answered with an `ok`
      flag and a body text ("" when reading the text failed). */
  datatype FetchOutcome = FetchThrew(error: Thrown) | Answered(ok: bool, text: string)

  /** `error?.message || (typeof error === "string" ? error : null) || "Failed to send email."` */
  function ThrownMessage(e: Thrown): (m: string)
    ensures m != ""
    ensures e.ErrorObject? && e.message != "" ==> m == e.message
    ensures e.ThrownString? && e.text != "" ==> m == e.text
    ensures !(e.ErrorObject? && e.message != "") && !(e.ThrownString? && e.text != "") ==> m == SendFailedMessage
  {
    match e
    case ErrorObject(message) => if message != "" then message else SendFailedMessage
    case ThrownString(text) => if text != "" then text else SendFailedMessage
    case OtherValue => SendFailedMessage
  }

  /** The relay step of functions/api/contact.js. */
  function EdgeRelay<F, M>(env: map<string, string>, outcome: FetchOutcome): (r: Response<F, M>)
    ensures r.status == 200 <==> Configured(env) && outcome.Answered? && outcome.ok
    ensures r.reply.Notice?
    ensures r.status == 200 ==> r == Submitted()
    ensures !Configured(env) ==> r == Failure(500, "Email service not configured.")
    ensures Configured(env) && r.status != 200
            ==> r.status == 502 && r.reply.Notice? && !r.reply.success && r.reply.message != ""
    ensures Configured(env) && outcome.Answered? && !outcome.ok && outcome.text != ""
            ==> r == Failure(502, outcome.text)
    ensures Configured(env) && outcome.Answered? && !outcome.ok && outcome.text == ""
            ==> r == Failure(502, SendFailedMessage)
    ensures Configured(env) && outcome.FetchThrew? ==> r == Failure(502, ThrownMessage(outcome.error))
  {
    if !Configured(env) then Failure(500, "Email service not configured.")
    else match outcome
      case FetchThrew(e) => Failure(502, ThrownMessage(e))
      case Answered(ok, text) =>
        if !ok then Failure(502, if text != "" then text else SendFailedMessage)
        else Submitted()
  }

  /** The Express server's call through the Mailgun client: it resolved, or it threw an
      error with a `message` and a `response.body.message` ("" when absent). */
  datatype SendOutcome = Sent | SendFailed(message: string, bodyMessage: string)

  /** The relay step of backend/server.js. */
  function ExpressRelay<F, M>(env: map<string, string>, outcome: SendOutcome): (r: Response<F, M>)
    ensures r.status == 200 <==> Configured(env) && outcome.Sent?
    ensures r.reply.Notice?
    ensures r.status == 200 ==> r == Submitted()
    ensures !Configured(env) ==> r == Failure(500, "Email service not configured.")
    ensures Configured(env) && outcome.SendFailed?
            ==> && r.status == 502 && r.reply.Notice? && !r.reply.success
                && r.reply.message in {outcome.message, outcome.bodyMessage, SendFailedMessage}
                && r.reply.message != ""
                && (outcome.message != "" ==> r.reply.message == outcome.message)
    ensures Configured(env) && outcome.SendFailed? && outcome.message == ""
            ==> r.reply.message == (if outcome.bodyMessage != "" then outcome.bodyMessage else SendFailedMessage)
  {
    if !Configured(env) then Failure(500, "Email service not configured.")
    else match outcome
      case Sent => Submitted()
      case SendFailed(message, bodyMessage) =>
        Failure(502, if message != "" then message else if bodyMessage != "" then bodyMessage else SendFailedMessage)
  }
}
