/**
  The mail-relay endpoint: one request in, one response out.

  Checks run in a fixed order (method, API key, presence of the fields,
  address shape, transport) and the first that fails decides the response.
  The SMTP library is not modelled: what its `verify` and `sendMail` calls
  do is an input (`TransportResult`), and what the handler asked of it is
  part of the output (`TransportUse`).
*/
module SendEmail {
  import opened Wrappers
  import opened EmailShape
  import opened HtmlBody
  import opened Strings

  /** The key used when the environment sets no `API_KEY` (or sets it empty). */
  const DefaultApiKey: string := "beckk001"

  /** Headers set on every response, before any check runs. */
  const CorsHeaders: seq<(string, string)> := [
    ("Access-Control-Allow-Origin", "*"),
    ("Access-Control-Allow-Methods", "POST, OPTIONS"),
    ("Access-Control-Allow-Headers", "Content-Type")
  ]

  const SmtpService: string := "gmail"
  const SmtpHost: string := "smtp.gmail.com"
  const SmtpPort: nat := 587

  /** The message of the TypeError thrown by destructuring an undefined request body. */
  const MissingBodyMessage: string :=
    "Cannot destructure property 'api_key' of 'req.body' as it is undefined."

  /** The six fields of the JSON request body; `None` is a field that is absent. */
  datatype Fields = Fields(
    apiKey: Option<string>,
    to: Option<string>,
    subject: Option<string>,
    body: Option<string>,
    fromEmail: Option<string>,
    fromPassword: Option<string>)

  /** An HTTP request: its method and its parsed body, `None` when there is no body. */
  datatype Request = Request(httpMethod: string, payload: Option<Fields>)

  /** What the SMTP transport does when the handler uses it. */
  datatype TransportResult =
    | VerifyFail(message: string)
    | SendFail(message: string)
    | Sent(messageId: string)

  datatype ErrorCode = MethodNotAllowed | InvalidApiKey | MissingParams | InvalidEmail | SmtpError

  /** The JSON body of a response. */
  datatype ResponseBody =
    | Empty
    | Failure(error: ErrorCode, details: Option<string>)
    | Delivered(to: string, subject: string, messageId: string, sentAt: string)

  datatype Response = Response(status: nat, headers: seq<(string, string)>, body: ResponseBody)

  /** The options the transport is created with. */
  datatype SmtpConfig = SmtpConfig(
    service: string, host: string, port: nat, secure: bool, user: string, pass: string)

  /** The message handed to `sendMail`. */
  datatype Mail = Mail(from: string, to: string, subject: string, text: string, html: string)

  /** How far the handler went with the transport. */
  datatype TransportUse =
    | NotCreated
    | VerifyOnly(config: SmtpConfig)
    | VerifyThenSend(config: SmtpConfig, mail: Mail)

  datatype Outcome = Outcome(response: Response, transport: TransportUse)

  /** The HTTP status that goes with each error code. */
  function StatusOf(code: ErrorCode): (status: nat)
    ensures 400 <= status < 600
    ensures status == 500 <==> code == SmtpError
    ensures status == 400 <==> code == MissingParams || code == InvalidEmail
  {
    match code
    case MethodNotAllowed => 405
    case InvalidApiKey => 401
    case MissingParams => 400
    case InvalidEmail => 400
    case SmtpError => 500
  }

  /** The key requests must carry: the environment's `API_KEY` unless it is unset or empty. */
  function ConfiguredApiKey(envApiKey: Option<string>): (key: string)
    ensures key != ""
    ensures envApiKey.Some? && envApiKey.value != "" ==> key == envApiKey.value
    ensures envApiKey == None || envApiKey == Some("") ==> key == DefaultApiKey
  {
    if envApiKey.Some? && envApiKey.value != "" then envApiKey.value else DefaultApiKey
  }

  /** A field that JavaScript's `!field` does not reject: present and non-empty. */
  predicate Present(field: Option<string>): (ok: bool)
    ensures ok <==> field != None && field != Some("")
  {
    field.Some? && field.value != ""
  }

  /** The five fields the presence check looks at; `api_key` is not one of them. */
  predicate AllPresent(f: Fields): (ok: bool)
    ensures ok <==> forall field :: field in [f.to, f.subject, f.body, f.fromEmail, f.fromPassword] ==> Present(field)
  {
    Present(f.to) && Present(f.subject) && Present(f.body)
    && Present(f.fromEmail) && Present(f.fromPassword)
  }

  function Fail(code: ErrorCode, details: Option<string>): (o: Outcome)
    ensures o.response.status == StatusOf(code)
    ensures o.transport == NotCreated
  {
    Outcome(Response(StatusOf(code), CorsHeaders, Failure(code, details)), NotCreated)
  }

  /** The transport options: the fixed provider, STARTTLS on 587, the sender's credentials. */
  function ConfigFor(f: Fields): (config: SmtpConfig)
    requires AllPresent(f)
    ensures config.host == "smtp.gmail.com" && config.port == 587 && !config.secure
    ensures config.user == f.fromEmail.value && config.pass == f.fromPassword.value
  {
    SmtpConfig(SmtpService, SmtpHost, SmtpPort, false, f.fromEmail.value, f.fromPassword.value)
  }

  /** The message: bare sender address, the text as given, and its HTML rendering. */
  function MailFor(f: Fields): (mail: Mail)
    requires AllPresent(f)
    ensures mail.from == f.fromEmail.value && mail.to == f.to.value && mail.subject == f.subject.value
    ensures mail.text == f.body.value && '\n' !in mail.html
    ensures |mail.html| == |mail.text| + 3 * Occurrences(mail.text, '\n')
  {
    Mail(f.fromEmail.value, f.to.value, f.subject.value, f.body.value, NewlinesToBr(f.body.value))
  }

  /** Verify, then send; a failure of either is caught by the handler's outer `catch`. */
  function Deliver(f: Fields, transport: TransportResult, sentAt: string): (o: Outcome)
    requires AllPresent(f)
    ensures o.transport != NotCreated && o.transport.config == ConfigFor(f)
    ensures o.transport.VerifyOnly? <==> transport.VerifyFail?
    ensures o.transport.VerifyThenSend? ==> o.transport.mail == MailFor(f)
    ensures o.response.body.Delivered? <==> transport.Sent?
    ensures o.response.status == (if transport.Sent? then 200 else 500)
  {
    var config := ConfigFor(f);
    match transport
    case VerifyFail(message) =>
      Outcome(Response(500, CorsHeaders, Failure(SmtpError, Some(message))), VerifyOnly(config))
    case SendFail(message) =>
      Outcome(Response(500, CorsHeaders, Failure(SmtpError, Some(message))), VerifyThenSend(config, MailFor(f)))
    case Sent(messageId) =>
      Outcome(
        Response(200, CorsHeaders, Delivered(f.to.value, f.subject.value, messageId, sentAt)),
        VerifyThenSend(config, MailFor(f)))
  }

  /**
    The handler. `envApiKey` is the environment's `API_KEY`, `transport` what
    the SMTP library does if it is used, `sentAt` the clock reading taken on
    success.
  */
  function Handle(req: Request, envApiKey: Option<string>, transport: TransportResult, sentAt: string): (o: Outcome)
    ensures o.response.headers == CorsHeaders
    ensures o.response.body.Failure? ==> o.response.status == StatusOf(o.response.body.error)
    ensures !o.response.body.Failure? ==> o.response.status == 200
  {
    if req.httpMethod == "OPTIONS" then
      Outcome(Response(200, CorsHeaders, Empty), NotCreated)
    else if req.httpMethod != "POST" then
      Fail(MethodNotAllowed, None)
    else
      match req.payload
      case None => Fail(SmtpError, Some(MissingBodyMessage))
      case Some(f) =>
        if f.apiKey != Some(ConfiguredApiKey(envApiKey)) then Fail(InvalidApiKey, None)
        else if !AllPresent(f) then Fail(MissingParams, None)
        else if !IsEmailShaped(f.to.value) || !IsEmailShaped(f.fromEmail.value) then Fail(InvalidEmail, None)
        else Deliver(f, transport, sentAt)
  }

  /**
    A request that passes every check before the transport, stated with the
    regex's own reading of the address format.
  */
  ghost predicate ValidSendRequest(req: Request, envApiKey: Option<string>) {
    && req.httpMethod == "POST"
    && req.payload.Some?
    && req.payload.value.apiKey == Some(ConfiguredApiKey(envApiKey))
    && AllPresent(req.payload.value)
    && MatchesEmailRegex(req.payload.value.to.value)
    && MatchesEmailRegex(req.payload.value.fromEmail.value)
  }

  /** A pre-flight request is acknowledged with an empty 200, whatever it carries. */
  lemma PreflightAlwaysAcknowledged(req: Request, envApiKey: Option<string>, transport: TransportResult, sentAt: string)
    requires req.httpMethod == "OPTIONS"
    ensures Handle(req, envApiKey, transport, sentAt)
         == Outcome(Response(200, CorsHeaders, Empty), NotCreated)
  {
  }

  /** Any method other than POST and OPTIONS is refused with 405. */
  lemma OtherMethodsRefused(req: Request, envApiKey: Option<string>, transport: TransportResult, sentAt: string)
    requires req.httpMethod != "POST" && req.httpMethod != "OPTIONS"
    ensures Handle(req, envApiKey, transport, sentAt)
         == Outcome(Response(405, CorsHeaders, Failure(MethodNotAllowed, None)), NotCreated)
  {
  }

  /** A POST without a body fails inside the `try` and is reported as an SMTP error. */
  lemma MissingBodyIsSmtpError(req: Request, envApiKey: Option<string>, transport: TransportResult, sentAt: string)
    requires req.httpMethod == "POST" && req.payload == None
    ensures Handle(req, envApiKey, transport, sentAt)
         == Outcome(Response(500, CorsHeaders, Failure(SmtpError, Some(MissingBodyMessage))), NotCreated)
  {
  }

  /** A wrong key is refused with 401 before any other field is looked at. */
  lemma WrongApiKeyRefused(req: Request, envApiKey: Option<string>, transport: TransportResult, sentAt: string)
    requires req.httpMethod == "POST" && req.payload.Some?
    requires req.payload.value.apiKey != Some(ConfiguredApiKey(envApiKey))
    ensures Handle(req, envApiKey, transport, sentAt)
         == Outcome(Response(401, CorsHeaders, Failure(InvalidApiKey, None)), NotCreated)
  {
  }

  /** An absent or empty `api_key` never matches, whatever the environment holds. */
  lemma MissingApiKeyRefused(req: Request, envApiKey: Option<string>, transport: TransportResult, sentAt: string)
    requires req.httpMethod == "POST" && req.payload.Some?
    requires !Present(req.payload.value.apiKey)
    ensures Handle(req, envApiKey, transport, sentAt)
         == Outcome(Response(401, CorsHeaders, Failure(InvalidApiKey, None)), NotCreated)
  {
    WrongApiKeyRefused(req, envApiKey, transport, sentAt);
  }

  /** With the right key, any absent or empty field of the five is refused with 400. */
  lemma MissingFieldRefused(req: Request, envApiKey: Option<string>, transport: TransportResult, sentAt: string)
    requires req.httpMethod == "POST" && req.payload.Some?
    requires req.payload.value.apiKey == Some(ConfiguredApiKey(envApiKey))
    requires !AllPresent(req.payload.value)
    ensures Handle(req, envApiKey, transport, sentAt)
         == Outcome(Response(400, CorsHeaders, Failure(MissingParams, None)), NotCreated)
  {
  }

  /**
    With the right key and every field present, a recipient or sender that
    the address regex does not match is refused with 400.
  */
  lemma MalformedAddressRefused(req: Request, envApiKey: Option<string>, transport: TransportResult, sentAt: string)
    requires req.httpMethod == "POST" && req.payload.Some?
    requires req.payload.value.apiKey == Some(ConfiguredApiKey(envApiKey))
    requires AllPresent(req.payload.value)
    requires !MatchesEmailRegex(req.payload.value.to.value)
          || !MatchesEmailRegex(req.payload.value.fromEmail.value)
    ensures Handle(req, envApiKey, transport, sentAt)
         == Outcome(Response(400, CorsHeaders, Failure(InvalidEmail, None)), NotCreated)
  {
    IsEmailShapedMatchesRegex(req.payload.value.to.value);
    IsEmailShapedMatchesRegex(req.payload.value.fromEmail.value);
  }

  /**
    The transport is created, verified or used to send only for a request
    that passed every earlier check, and every such request reaches it.
  */
  lemma TransportOnlyAfterValidation(req: Request, envApiKey: Option<string>, transport: TransportResult, sentAt: string)
    ensures Handle(req, envApiKey, transport, sentAt).transport != NotCreated
        <==> ValidSendRequest(req, envApiKey)
  {
    if req.httpMethod == "POST" && req.payload.Some? && AllPresent(req.payload.value) {
      IsEmailShapedMatchesRegex(req.payload.value.to.value);
      IsEmailShapedMatchesRegex(req.payload.value.fromEmail.value);
    }
  }

  /** A request that fails validation gets the same response whatever the transport or the clock would do. */
  lemma RejectionIgnoresTransport(
    req: Request, envApiKey: Option<string>,
    transport1: TransportResult, sentAt1: string,
    transport2: TransportResult, sentAt2: string)
    requires !ValidSendRequest(req, envApiKey)
    ensures Handle(req, envApiKey, transport1, sentAt1) == Handle(req, envApiKey, transport2, sentAt2)
  {
    TransportOnlyAfterValidation(req, envApiKey, transport1, sentAt1);
  }

  /**
    For a valid request: a failed verify or send gives 500 with the error's
    message as details; a send that succeeds gives 200 echoing the recipient,
    the subject, the transport's message id and the send time.
  */
  lemma TransportOutcomes(req: Request, envApiKey: Option<string>, transport: TransportResult, sentAt: string)
    requires ValidSendRequest(req, envApiKey)
    ensures var o := Handle(req, envApiKey, transport, sentAt);
      match transport
      case VerifyFail(message) =>
        o.response == Response(500, CorsHeaders, Failure(SmtpError, Some(message)))
      case SendFail(message) =>
        o.response == Response(500, CorsHeaders, Failure(SmtpError, Some(message)))
      case Sent(messageId) =>
        o.response == Response(200, CorsHeaders,
          Delivered(req.payload.value.to.value, req.payload.value.subject.value, messageId, sentAt))
  {
    IsEmailShapedMatchesRegex(req.payload.value.to.value);
    IsEmailShapedMatchesRegex(req.payload.value.fromEmail.value);
  }

  /**
    For a valid request the transport authenticates as the sender on
    smtp.gmail.com:587 without implicit TLS, and, once verify succeeds, sends
    a mail from the bare sender address to the recipient, with the subject,
    the text unchanged and an HTML part without newlines. When verify fails,
    no mail is handed to the transport.
  */
  lemma MailAsSent(req: Request, envApiKey: Option<string>, transport: TransportResult, sentAt: string)
    requires ValidSendRequest(req, envApiKey)
    ensures var f := req.payload.value;
      match Handle(req, envApiKey, transport, sentAt).transport
      case VerifyOnly(config) =>
        && transport.VerifyFail?
        && config == SmtpConfig("gmail", "smtp.gmail.com", 587, false, f.fromEmail.value, f.fromPassword.value)
      case VerifyThenSend(config, mail) =>
        && !transport.VerifyFail?
        && config == SmtpConfig("gmail", "smtp.gmail.com", 587, false, f.fromEmail.value, f.fromPassword.value)
        && mail.from == f.fromEmail.value
        && mail.to == f.to.value
        && mail.subject == f.subject.value
        && mail.text == f.body.value
        && mail.html == NewlinesToBr(f.body.value)
        && '\n' !in mail.html
        && ('\n' !in f.body.value ==> mail.html == f.body.value)
      case _ => false
  {
    var f := req.payload.value;
    IsEmailShapedMatchesRegex(f.to.value);
    IsEmailShapedMatchesRegex(f.fromEmail.value);
    if '\n' !in f.body.value {
      NewlinesToBrIdentity(f.body.value);
    }
  }

  /** A successful response is exactly a successful send: 200 with `success: true` needs a delivered mail. */
  lemma DeliveredOnlyWhenSent(req: Request, envApiKey: Option<string>, transport: TransportResult, sentAt: string)
    ensures Handle(req, envApiKey, transport, sentAt).response.body.Delivered?
        <==> ValidSendRequest(req, envApiKey) && transport.Sent?
  {
    TransportOnlyAfterValidation(req, envApiKey, transport, sentAt);
  }
}
