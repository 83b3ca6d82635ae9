/** The delivery dispatcher: which provider the configuration selects, and the two
    senders `sendViaResend` and `sendViaSmtp`. The network itself is not modelled:
    what the provider answers is an input, and what the sender hands to the
    network is part of the result. */
module Delivery {
  import opened Wrappers
  import opened JsText

  const ResendApiUrl: string := "https://api.resend.com/emails"
  const SmtpHost: string := "smtp.office365.com"
  const SmtpPort: nat := 587
  /** Sender of Resend's free plan, which needs no verified domain. */
  const ResendDefaultFrom: string := "TACTICAL SUPPORT Agenda <onboarding@resend.dev>"
  const SmtpDefaultFrom: string := "noreply@tacticalsupport.com.mx"
  /** The plain-text part sent next to the HTML part over SMTP. */
  const SmtpPlainText: string := "Ver contenido en HTML."

  /** The environment as read for one request; `None` is an unset variable. */
  datatype Config = Config(
    resendApiKey: Option<string>,
    resendFrom: Option<string>,
    smtpUser: Option<string>,
    smtpPass: Option<string>,
    smtpFrom: Option<string>)

  /** `!!value`: set and not empty. (`??`, by contrast, keeps an empty string.) */
  predicate IsSet(v: Option<string>) {
    v.Some? && v.value != ""
  }

  datatype Provider = Resend | Smtp

  /** The name reported in the `provider` field of a success response. */
  function ProviderName(p: Provider): string {
    match p
    case Resend => "resend"
    case Smtp => "smtp"
  }

  /** The provider the handler uses: Resend whenever its API key is set, else SMTP
      when both its user and password are set, else none. */
  function SelectProvider(cfg: Config): (p: Option<Provider>)
    ensures p == Some(Resend) <==> IsSet(cfg.resendApiKey)
    ensures p == Some(Smtp) <==> !IsSet(cfg.resendApiKey) && IsSet(cfg.smtpUser) && IsSet(cfg.smtpPass)
  {
    if IsSet(cfg.resendApiKey) then Some(Resend)
    else if IsSet(cfg.smtpUser) && IsSet(cfg.smtpPass) then Some(Smtp)
    else None
  }

  /** An empty variable selects exactly what an unset one does. */
  lemma EmptyVariableIsUnset(cfg: Config)
    ensures SelectProvider(cfg.(resendApiKey := Some(""))) == SelectProvider(cfg.(resendApiKey := None))
    ensures SelectProvider(cfg.(smtpUser := Some(""))) == SelectProvider(cfg.(smtpUser := None))
    ensures SelectProvider(cfg.(smtpPass := Some(""))) == SelectProvider(cfg.(smtpPass := None))
  {
  }

  /** The Resend sender: `RESEND_FROM`, else the free-plan default. */
  function ResendSender(cfg: Config): (from: string)
    ensures cfg.resendFrom.None? ==> from == ResendDefaultFrom
    ensures cfg.resendFrom.Some? ==> from == cfg.resendFrom.value
  {
    cfg.resendFrom.GetOr(ResendDefaultFrom)
  }

  /** The SMTP sender: `SMTP_FROM`, else `SMTP_USER`, else the fixed address. */
  function SmtpSender(cfg: Config): (from: string)
    ensures cfg.smtpFrom.Some? ==> from == cfg.smtpFrom.value
    ensures cfg.smtpFrom.None? && cfg.smtpUser.Some? ==> from == cfg.smtpUser.value
    ensures cfg.smtpFrom.None? && cfg.smtpUser.None? ==> from == SmtpDefaultFrom
  {
    cfg.smtpFrom.GetOr(cfg.smtpUser.GetOr(SmtpDefaultFrom))
  }

  /** Unlike provider selection, the sender fallbacks keep an override that is set
      to the empty string. */
  lemma EmptySenderIsKept(cfg: Config)
    ensures ResendSender(cfg.(resendFrom := Some(""))) == ""
    ensures SmtpSender(cfg.(smtpFrom := Some(""))) == ""
    ensures SmtpSender(cfg.(smtpFrom := None, smtpUser := Some(""))) == ""
  {
  }

  /** Where a message goes, with the credentials used to get it there. */
  datatype Route =
    | ResendApi(url: string, authorization: string)
    | SmtpServer(hostname: string, port: nat, tls: bool, username: string, password: string)

  /** The message itself; `content` is the plain-text alternative, if any. */
  datatype Email = Email(from: string, to: string, subject: string, html: string, content: Option<string>)

  /** What a sender hands to the network. */
  datatype Submission = Submission(route: Route, email: Email)

  /** What `fetch` yields: a response with its status and body text, or a thrown
      error, given as its string form. */
  datatype FetchReply = Reply(status: nat, text: string) | FetchThrew(error: string)

  /** How the SMTP session ends: both `send` and `close` resolve, `send` throws, or
      `send` resolves and `close` throws. Errors are given in their string form. */
  datatype SmtpReply = SmtpDone | SendThrew(error: string) | CloseThrew(error: string)

  /** How a sender's promise settles: resolved, or rejected with an error whose
      string form (`String(err)`) is given. */
  datatype Outcome = Delivered | Threw(error: string)

  datatype Dispatch = Dispatch(submission: Option<Submission>, outcome: Outcome)

  const ErrorPrefix: string := "Error: "

  /** `String(new Error(message))`: the name `Error`, then `": "` and the message
      unless the message is empty. */
  function ErrorString(message: string): (s: string)
    ensures message == "" ==> s == "Error"
    ensures message != "" ==> |ErrorPrefix| <= |s| && s[..|ErrorPrefix|] == ErrorPrefix && s[|ErrorPrefix|..] == message
  {
    if message == "" then "Error" else ErrorPrefix + message
  }

  /** `res.ok`: a status in the range 200-299. */
  predicate IsOkStatus(status: nat) {
    200 <= status <= 299
  }

  const ResendErrorPrefix: string := "Resend API: "

  /** The message of the error a Resend rejection raises. */
  function ResendErrorMessage(status: nat, text: string): (m: string)
    ensures |ResendErrorPrefix| < |m| && m[..|ResendErrorPrefix|] == ResendErrorPrefix
    ensures |text| <= |m| && m[|m| - |text|..] == text
  {
    ResendErrorPrefix + Decimal(status) + " " + text
  }

  /** Reads the status and the body text back out of a Resend error message. */
  function ParseResendErrorMessage(m: string): Option<(nat, string)> {
    if |m| < |ResendErrorPrefix| || m[..|ResendErrorPrefix|] != ResendErrorPrefix then None
    else
      var rest := m[|ResendErrorPrefix|..];
      var digits := PrefixBefore(rest, ' ');
      if |digits| == |rest| || !Canonical(digits) then None
      else Some((ParseDecimal(digits), rest[|digits| + 1..]))
  }

  /** The error message keeps the provider's status code and its whole body text. */
  lemma ResendErrorRoundTrip(status: nat, text: string)
    ensures ParseResendErrorMessage(ResendErrorMessage(status, text)) == Some((status, text))
  {
    var m, d := ResendErrorMessage(status, text), Decimal(status);
    var rest := d + (" " + text);
    assert m == ResendErrorPrefix + rest;
    assert m[..|ResendErrorPrefix|] == ResendErrorPrefix && m[|ResendErrorPrefix|..] == rest;
    DecimalIsCanonical(status);
    PrefixBeforeConcat(d, ' ', " " + text);
    assert rest[|d| + 1..] == text;
    DecimalRoundTrip(status);
  }

  /** Only the message `ResendErrorMessage` writes is read back: a message that
      parses is exactly the one built from the status and text it yields. */
  lemma ResendErrorParseExact(m: string)
    requires ParseResendErrorMessage(m).Some?
    ensures var (status, text) := ParseResendErrorMessage(m).value;
      m == ResendErrorMessage(status, text)
  {
    var rest := m[|ResendErrorPrefix|..];
    var digits := PrefixBefore(rest, ' ');
    DecimalUnique(digits);
    assert rest == digits + " " + rest[|digits| + 1..];
    assert m == ResendErrorPrefix + rest;
  }

  /** `sendViaResend`: one POST with the API key as bearer token; a non-2xx status
      becomes an error carrying the status and the response text. */
  function SendViaResend(cfg: Config, to: string, subject: string, html: string, reply: FetchReply): (d: Dispatch)
    ensures !IsSet(cfg.resendApiKey) ==> d == Dispatch(None, Threw(ErrorString("RESEND_API_KEY no configurado")))
    ensures IsSet(cfg.resendApiKey) ==> d.submission == Some(Submission(
      ResendApi(ResendApiUrl, "Bearer " + cfg.resendApiKey.value),
      Email(ResendSender(cfg), to, subject, html, None)))
    ensures d.outcome.Delivered? <==> IsSet(cfg.resendApiKey) && reply.Reply? && IsOkStatus(reply.status)
    // an error thrown by `fetch` itself is passed on unchanged
    ensures IsSet(cfg.resendApiKey) && reply.FetchThrew? ==> d.outcome == Threw(reply.error)
    ensures IsSet(cfg.resendApiKey) && reply.Reply? && d.outcome.Threw? ==>
      var e := d.outcome.error;
      |ErrorPrefix| <= |e| && e[..|ErrorPrefix|] == ErrorPrefix
      && ParseResendErrorMessage(e[|ErrorPrefix|..]) == Some((reply.status, reply.text))
  {
    if !IsSet(cfg.resendApiKey) then Dispatch(None, Threw(ErrorString("RESEND_API_KEY no configurado")))
    else
      var submission := Submission(
        ResendApi(ResendApiUrl, "Bearer " + cfg.resendApiKey.value),
        Email(ResendSender(cfg), to, subject, html, None));
      match reply
      case FetchThrew(e) => Dispatch(Some(submission), Threw(e))
      case Reply(status, text) =>
        if IsOkStatus(status) then Dispatch(Some(submission), Delivered)
        else
          ResendErrorRoundTrip(status, text);
          Dispatch(Some(submission), Threw(ErrorString(ResendErrorMessage(status, text))))
  }

  /** `sendViaSmtp`: one authenticated TLS session to the fixed host, one message
      with a plain-text alternative; an error in `send` or in `close` rejects. */
  function SendViaSmtp(cfg: Config, to: string, subject: string, html: string, reply: SmtpReply): (d: Dispatch)
    ensures !(IsSet(cfg.smtpUser) && IsSet(cfg.smtpPass)) ==>
      d == Dispatch(None, Threw(ErrorString("SMTP_USER o SMTP_PASS no configurados")))
    ensures IsSet(cfg.smtpUser) && IsSet(cfg.smtpPass) ==> d.submission == Some(Submission(
      SmtpServer(SmtpHost, SmtpPort, true, cfg.smtpUser.value, cfg.smtpPass.value),
      Email(SmtpSender(cfg), to, subject, html, Some(SmtpPlainText))))
    ensures d.outcome.Delivered? <==> IsSet(cfg.smtpUser) && IsSet(cfg.smtpPass) && reply.SmtpDone?
    // an error thrown by `send` or by `close` is passed on unchanged
    ensures IsSet(cfg.smtpUser) && IsSet(cfg.smtpPass) && !reply.SmtpDone? ==> d.outcome == Threw(reply.error)
  {
    var from := SmtpSender(cfg);
    if !IsSet(cfg.smtpUser) || !IsSet(cfg.smtpPass) then
      Dispatch(None, Threw(ErrorString("SMTP_USER o SMTP_PASS no configurados")))
    else
      var submission := Submission(
        SmtpServer(SmtpHost, SmtpPort, true, cfg.smtpUser.value, cfg.smtpPass.value),
        Email(from, to, subject, html, Some(SmtpPlainText)));
      match reply
      case SmtpDone => Dispatch(Some(submission), Delivered)
      case SendThrew(e) => Dispatch(Some(submission), Threw(e))
      case CloseThrew(e) => Dispatch(Some(submission), Threw(e))
  }
}
