/** The request handler's decisions (index.js:90-96, 112-131, 150-174): the
    method check, then the token check, then the parse and the provider
    call. The provider call and the configured token are parameters. */
module Handler {
  import opened Assoc
  import opened Command
  import opened Slack

  /** The `token` field of a request body: absent, a string, or a value of
      some other type (`null`, a number, ...). */
  datatype Token = Missing | Str(s: string) | NotString

  /** The fields of the Slack request body the handler reads; `text` is
      `None` when it is missing or not a string. */
  datatype SlackBody = SlackBody(token: Token, text: Option<string>)

  /** An incoming request; `body` is `None` when there is none. */
  datatype Request = Request(verb: string, body: Option<SlackBody>)

  /** What the provider call settles with: the stats response, or an error
      carrying its `code` (0 when it has none). */
  datatype Fetched = Fetched(response: StatsResponse) | FetchFailed(code: int)

  /** What is written back: the message as JSON, or an error status. */
  datatype Response = Json(message: Message) | Status(code: int)

  const MethodNotAllowed := 405
  const Unauthorized := 401
  const ServerError := 500

  /** `token === process.env.SLACK_TOKEN`, the configured token being a
      string or unset (`undefined`). */
  predicate SameToken(t: Token, slackToken: Option<string>)
  {
    match t
    case Missing => slackToken.None?
    case Str(s) => slackToken == Some(s)
    case NotString => false
  }

  /** `verifyWebhook` passes: there is a body and its token is strictly
      equal to the configured one. A configured token admits only that
      string; an unset one admits only a body without a token; a token that
      is not a string never passes. */
  function Verified(body: Option<SlackBody>, slackToken: Option<string>): (ok: bool)
    ensures ok ==> body.Some? && !body.value.token.NotString?
    ensures slackToken.Some? ==> (ok <==> body.Some? && body.value.token == Str(slackToken.value))
    ensures slackToken.None? ==> (ok <==> body.Some? && body.value.token.Missing?)
  {
    body.Some? && SameToken(body.value.token, slackToken)
  }

  /** `err.code || 500`. */
  function ErrorStatus(code: int): (status: int)
    ensures code != 0 ==> status == code
    ensures code == 0 ==> status == ServerError
  {
    if code == 0 then ServerError else code
  }

  /** `stats(req, res)`: 405 for any method but POST, before anything else;
      then 401 unless the token matches; a text that is not a string fails
      the parse with 500; otherwise the provider is asked with the parsed
      payload and its response is formatted, or its error reported. */
  function Handle(req: Request, slackToken: Option<string>, fetch: Payload -> Fetched): (r: Response)
    ensures req.verb != "POST" ==> r == Status(MethodNotAllowed)
    ensures req.verb == "POST" && !Verified(req.body, slackToken) ==> r == Status(Unauthorized)
    ensures r.Json? <==>
              && req.verb == "POST"
              && Verified(req.body, slackToken)
              && req.body.value.text.Some?
              && fetch(ParseCommand(req.body.value.text.value)).Fetched?
    ensures r.Json? ==> r.message == FormatSlackMessage(fetch(ParseCommand(req.body.value.text.value)).response)
    ensures req.verb == "POST" && Verified(req.body, slackToken) && req.body.value.text.None? ==>
              r == Status(ServerError)
    ensures req.verb == "POST" && Verified(req.body, slackToken) && req.body.value.text.Some? ==>
              var f := fetch(ParseCommand(req.body.value.text.value));
              f.FetchFailed? ==> r == Status(if f.code == 0 then ServerError else f.code)
    ensures r.Status? ==> r.code != 0
  {
    if req.verb != "POST" then Status(MethodNotAllowed)
    else if !Verified(req.body, slackToken) then Status(Unauthorized)
    else if req.body.value.text.None? then Status(ServerError)
    else
      match fetch(ParseCommand(req.body.value.text.value))
      case Fetched(resp) => Json(FormatSlackMessage(resp))
      case FetchFailed(code) => Status(ErrorStatus(code))
  }

  /** A request with the wrong verb or without the right token is answered
      the same whatever the provider would do: the provider is never asked. */
  lemma RejectedBeforeFetch(req: Request, slackToken: Option<string>, f: Payload -> Fetched, g: Payload -> Fetched)
    requires req.verb != "POST" || !Verified(req.body, slackToken)
    ensures Handle(req, slackToken, f) == Handle(req, slackToken, g)
    ensures Handle(req, slackToken, f).Status?
  {
  }

  /** With no token configured, a body without a token passes the check and
      is answered with the message whenever the provider call succeeds. */
  lemma UnsetTokenAdmitsTokenless(text: string, fetch: Payload -> Fetched)
    requires fetch(ParseCommand(text)).Fetched?
    ensures Handle(Request("POST", Some(SlackBody(Missing, Some(text)))), None, fetch).Json?
  {
  }

  /** A token that is not a string (`null`, a number) is refused with 401
      whether or not a token is configured. */
  lemma NonStringTokenRejected(text: Option<string>, slackToken: Option<string>, fetch: Payload -> Fetched)
    ensures Handle(Request("POST", Some(SlackBody(NotString, text))), slackToken, fetch) == Status(Unauthorized)
  {
  }
}
