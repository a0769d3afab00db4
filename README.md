# Mail relay endpoint: a Dafny model of its request handler

The repository is a single serverless HTTP endpoint, `api/send-email.js`. It
takes a JSON body `{ api_key, to, subject, body, from_email, from_password }`,
checks it, and relays one email through Gmail's SMTP server with the
`nodemailer` library. This project models the handler as a pure function.

`SendEmail.Handle(req, envApiKey, transport, sentAt)` returns an `Outcome`. An
outcome holds the HTTP response (status, CORS headers, JSON body) and a record
of how far the handler went with the transport: not created, verified only,
or verified and then asked to send a given mail. The checks run in a fixed
order, and the first one that fails decides the response:

1. `OPTIONS` gets an empty 200. Any method other than `POST` gets 405 `METHOD_NOT_ALLOWED`.
2. A `POST` without a body throws inside the `try`, which gives 500 `SMTP_ERROR`.
3. `api_key` must equal the configured key: the environment's `API_KEY` when it is non-empty, otherwise `"beckk001"`. Otherwise the result is 401 `INVALID_API_KEY`.
4. `to`, `subject`, `body`, `from_email` and `from_password` must all be present and non-empty. Otherwise the result is 400 `MISSING_PARAMS`.
5. `to` and `from_email` must match `/^[^\s@]+@[^\s@]+\.[^\s@]+$/`. Otherwise the result is 400 `INVALID_EMAIL`.
6. The transport is created and verified, then the mail is sent. A failure of either gives 500 `SMTP_ERROR`, with the error message as `details`. A successful send gives 200 with `to`, `subject`, the message id and the send time.

Modules:

- `Wrappers` (`wrappers.dfy`): `Option`, used for JSON fields that may be absent.
- `Strings` (`strings.dfy`): counting the occurrences of a character.
- `EmailShape` (`email_shape.dfy`): the address regex. `MatchesEmailRegex` reads the regex directly, as an `@` and a later `.` that split the string into three non-empty runs of `[^\s@]`. `IsEmailShaped` computes the same answer by splitting at the first `@`. The lemmas prove that the two agree, and they prove a characterisation: no whitespace, exactly one `@`, a non-empty local part, and a dot strictly inside the domain. `\s` is the ECMAScript whitespace and line-terminator set.
- `HtmlBody` (`html_body.dfy`): `NewlinesToBr`, the HTML part `body.replace(/\n/g, '<br>')`.
- `SendEmail` (`send_email.dfy`): requests, responses, the transport's results, `Handle`, and the lemmas about it.

The file assigns `module.exports` twice. The second assignment (lines 136-239)
replaces the first (lines 16-133), so the model follows the second one. Where
the overwritten first handler behaves differently, the model follows the
second one:

- A failing `transporter.verify()` is not caught on its own. It reaches the outer `catch` and gives 500 `SMTP_ERROR`, not 401 `INVALID_PASSWORD`.
- The transport options do not relax TLS certificate checks.
- The sender is the bare `from_email`, with no display name.
- The `MISSING_PARAMS` response carries no `required` list.
- `OPTIONS` ends with an empty body. It does not return `{ ok: true }`.

## Model

| member | source | states |
|---|---|---|
| `SendEmail.Handle` | api/send-email.js:136-239 | every response carries the three CORS headers; a failure's status is the one its error code maps to; every other response is 200 |
| `SendEmail.StatusOf` | api/send-email.js:148-237 | error codes map to 4xx/5xx statuses; 500 exactly for `SMTP_ERROR`, 400 exactly for `MISSING_PARAMS` and `INVALID_EMAIL` |
| `SendEmail.ConfiguredApiKey` | api/send-email.js:167 | the configured key is never empty; it is the environment's `API_KEY` when that is non-empty, and `"beckk001"` when it is unset or empty |
| `SendEmail.PreflightAlwaysAcknowledged` | api/send-email.js:143-145 | `OPTIONS` gives 200 with an empty body and never creates the transport, whatever the body, key, environment or transport |
| `SendEmail.OtherMethodsRefused` | api/send-email.js:148-154 | a method other than `POST` or `OPTIONS` gives 405 `METHOD_NOT_ALLOWED` and never touches the transport |
| `SendEmail.MissingBodyIsSmtpError` | api/send-email.js:156-237 | a `POST` without a body gives 500 `SMTP_ERROR`, with the destructuring error's message as details |
| `SendEmail.WrongApiKeyRefused` | api/send-email.js:167-174 | a `POST` whose `api_key` is not the configured key gives 401 `INVALID_API_KEY`, even when every other field is invalid |
| `SendEmail.MissingApiKeyRefused` | api/send-email.js:167-174 | an absent or empty `api_key` gives 401 `INVALID_API_KEY` whatever the environment holds, because the configured key is never empty |
| `SendEmail.MissingFieldRefused` | api/send-email.js:177-183 | with the right key, any absent or empty field among `to`, `subject`, `body`, `from_email`, `from_password` gives 400 `MISSING_PARAMS` |
| `SendEmail.MalformedAddressRefused` | api/send-email.js:186-193 | with the right key and all fields present, a `to` or `from_email` that the regex does not match gives 400 `INVALID_EMAIL` |
| `SendEmail.TransportOnlyAfterValidation` | api/send-email.js:143-217 | the transport is created, verified or used exactly for requests that passed method, key, presence and address checks, in both directions |
| `SendEmail.RejectionIgnoresTransport` | api/send-email.js:143-193 | a request that fails a check gets the same response whatever the transport or the clock would have done |
| `SendEmail.TransportOutcomes` | api/send-email.js:207-237 | for a valid request, a verify or send failure gives 500 `SMTP_ERROR` with the error message as details, and a send gives 200 echoing `to`, `subject`, the message id and the send time |
| `SendEmail.MailAsSent` | api/send-email.js:196-217 | for every valid request the transport logs in as `from_email`/`from_password` on smtp.gmail.com:587 without implicit TLS; when verify fails nothing is sent; otherwise the mail is from the bare `from_email` to `to`, with the subject, the text unchanged, and an HTML part that holds no newline and equals the text when the text has none |
| `SendEmail.Present` | api/send-email.js:177 | a field passes JavaScript's `!field` test exactly when it is neither absent nor the empty string |
| `SendEmail.AllPresent` | api/send-email.js:177 | the presence check holds exactly when each of `to`, `subject`, `body`, `from_email`, `from_password` is present; `api_key` is not among them (used by `MissingFieldRefused`) |
| `SendEmail.ConfigFor` | api/send-email.js:196-205 | the transport options name smtp.gmail.com, port 587, no implicit TLS, and the sender's address and password as credentials (used by `MailAsSent`) |
| `SendEmail.MailFor` | api/send-email.js:211-217 | the mail is from `from_email` to `to` with the subject and the text unchanged; its HTML part holds no newline and is 3 characters longer per newline (used by `MailAsSent`) |
| `SendEmail.Deliver` | api/send-email.js:207-237 | the transport is always created with the sender's options; it stops after verify exactly when verify fails; it is handed the mail otherwise; the body is a success exactly when the send succeeds, with 200, and 500 otherwise (used by `TransportOutcomes`) |
| `SendEmail.DeliveredOnlyWhenSent` | api/send-email.js:219-228 | a success body appears exactly when the request is valid and the transport sent the mail |
| `EmailShape.IsEmailShaped` | api/send-email.js:186 | an accepted address has at least five characters and holds an `@` and a `.`; `IsEmailShapedMatchesRegex` and `EmailShapeCharacterisation` give its exact meaning |
| `EmailShape.IsEmailShapedMatchesRegex` | api/send-email.js:186 | the check by first `@` accepts exactly the strings the anchored regex matches |
| `EmailShape.EmailShapeCharacterisation` | api/send-email.js:186 | an address is accepted iff it has no whitespace, exactly one `@`, a non-empty local part, and a domain with a `.` at neither end |
| `EmailShape.AcceptsPlainAddress` | api/send-email.js:186 | `"a@b.com"` is accepted |
| `EmailShape.RejectsLeadingDomainDot` | api/send-email.js:186 | `"a@.com"` is rejected |
| `EmailShape.RejectsTrailingDomainDot` | api/send-email.js:186 | `"a@b."` is rejected |
| `EmailShape.RejectsSecondAtSign` | api/send-email.js:186 | `"a@b@c.d"` is rejected |
| `HtmlBody.NewlinesToBr` | api/send-email.js:216 | the HTML part holds no newline, and its length is the text's length plus 3 per newline |
| `HtmlBody.NewlinesToBrIdentity` | api/send-email.js:216 | text without a newline is its own HTML part |
| `HtmlBody.NewlinesToBrAppend` | api/send-email.js:216 | the replacement is global: it maps a concatenation to the concatenation of the rewritten pieces |
| `HtmlBody.NewlinesToBrTwoLines` | api/send-email.js:216 | two newline-free lines joined by `\n` become the same lines joined by `<br>` |
| `HtmlBody.NewlinesToBrExample` | api/send-email.js:216 | `"Line1\nLine2"` becomes `"Line1<br>Line2"` |
| `HtmlBody.NewlinesToBrRoundTrip` | api/send-email.js:216 | for text without `<`, turning each `<br>` of the HTML part back into a newline recovers the text |

## Left out

- The `nodemailer` calls (`createTransport`, `verify`, `sendMail`) do SMTP and TLS network I/O. Their effect is the `TransportResult` input; the model records the options and the mail handed to them. `createTransport` is assumed not to throw.
- `sent_at` is the wall clock's ISO-8601 reading. It is the `sentAt` parameter, passed through unchanged.
- `process.env.API_KEY` is the `envApiKey` parameter. Only the `||` fallback is modelled.
- The CORS headers are a constant list on every response. The `res.setHeader`/`res.status().json()` calls become the returned `Response`.
- The human-readable `message` texts of the responses, and the `console.error` logging, are not modelled.
- Field values that are not strings (numbers, objects, `null`) are not modelled. Each field is absent or a string, and JavaScript's `!field` becomes "absent or empty".
- The destructuring error text, `MissingBodyMessage`, is the current V8 wording of the TypeError. The text comes from the JavaScript engine, not from the handler, and other Node versions may word it differently.
- A `req.body` that is `null` rather than `undefined` gives the same 500 `SMTP_ERROR`, but its error text differs. The model uses the text for `undefined`.
- An error without a `message` would omit `details`. The model always has a message string.
- `async`/`await` is not modelled: verify and send happen in sequence.
- The first, overwritten handler (lines 16-133) is not modelled.
