/** The request handler given to `Deno.serve`, as a decision procedure: the
    verb, the outcome of parsing the body as JSON, the environment and what the
    provider's network would answer go in; the response, and what (if anything)
    was handed to the network, come out. */
module Handler {
  import opened Wrappers
  import opened JsValues
  import opened JsText
  import opened Payload
  import opened Render
  import opened Delivery

  /** The JSON body of a response (`NoBody` for the bare CORS answer). */
  datatype Body =
    | NoBody
    | ErrorBody(error: string)
    | SkippedBody(skipped: string)
    | SentBody(sent: string, provider: string)

  datatype Response = Response(
    status: nat,
    headers: seq<(string, string)>,
    body: Body,
    submission: Option<Submission>)

  const CorsHeaders: seq<(string, string)> := [
    ("Access-Control-Allow-Origin", "*"),
    ("Access-Control-Allow-Methods", "POST, OPTIONS"),
    ("Access-Control-Allow-Headers", "Content-Type, Authorization")]

  const JsonHeaders: seq<(string, string)> := [("Content-Type", "application/json")] + CorsHeaders

  const MethodNotAllowed: string := "Método no permitido"
  const InvalidJson: string := "Body JSON inválido"
  const MissingRecord: string := "Falta el registro de reservación"
  const NoAddress: string := "Sin correo de notificación"
  const ConfigGuidance: string :=
    "Configura RESEND_API_KEY (gratis) o SMTP_USER + SMTP_PASS. " + "Ver NOTIFICACIONES-EMAIL.md"

  /** A JSON response that sends nothing. */
  function Answer(status: nat, body: Body): Response {
    Response(status, JsonHeaders, body, None)
  }

  /** The record found in the body (if any) has the field types its declaration
      gives it; the handler is modelled for such bodies only. */
  predicate TypedRequest(parsed: Option<Json>) {
    parsed.Some? && GetRecordFromPayload(parsed.value).Some? ==>
      TypedAsDeclared(GetRecordFromPayload(parsed.value).value)
  }

  /** The trimmed notification address (`""` when absent). */
  function Recipient(rec: ReservationRecord): (to: string)
    // nothing to send to exactly when the address is absent or only white space
    ensures to == [] <==> AllWhiteSpace(rec.correoNotificacion.GetOr(""))
    ensures to == [] || (!IsWhiteSpace(to[0]) && !IsWhiteSpace(to[|to| - 1]))
  {
    TrimEmptyIffWhiteSpace(rec.correoNotificacion.GetOr(""));
    Trim(rec.correoNotificacion.GetOr(""))
  }

  /** The response to a send, once a provider has been chosen. */
  function Report(p: Provider, to: string, d: Dispatch): (r: Response)
    ensures r.headers == JsonHeaders && r.submission == d.submission
    // 200 naming the address and the provider exactly when the send resolved
    ensures r.status == 200 <==> d.outcome.Delivered?
    ensures d.outcome.Delivered? ==> r.body == SentBody(to, ProviderName(p))
    // 500 with the error's string form otherwise
    ensures d.outcome.Threw? ==> r.status == 500 && r.body == ErrorBody(d.outcome.error)
  {
    match d.outcome
    case Delivered => Response(200, JsonHeaders, SentBody(to, ProviderName(p)), d.submission)
    case Threw(e) => Response(500, JsonHeaders, ErrorBody(e), d.submission)
  }

  /** The `try` block of the handler: choose a provider, send through it, and report
      how the send settled. */
  function Deliver(cfg: Config, to: string, subject: string, html: string,
                   resendReply: FetchReply, smtpReply: SmtpReply): (r: Response)
    requires to != ""
    ensures r.status in {200, 500} && r.headers == JsonHeaders && !r.body.NoBody?
    // no provider configured: 500 with the guidance, nothing sent
    ensures SelectProvider(cfg).None? ==> r == Answer(500, ErrorBody(ConfigGuidance))
    // a configured provider is always reached: its own credential check cannot fail here
    ensures r.submission.Some? <==> SelectProvider(cfg).Some?
    ensures r.submission.Some? ==> var e := r.submission.value.email;
      e.to == to && e.subject == subject && e.html == html
    // Resend alone whenever its key is set, SMTP otherwise
    ensures SelectProvider(cfg) == Some(Resend) ==>
      r.submission.value.route == ResendApi(ResendApiUrl, "Bearer " + cfg.resendApiKey.value)
      && r.submission.value.email.from == ResendSender(cfg)
    ensures SelectProvider(cfg) == Some(Smtp) ==>
      r.submission.value.route == SmtpServer(SmtpHost, SmtpPort, true, cfg.smtpUser.value, cfg.smtpPass.value)
      && r.submission.value.email.from == SmtpSender(cfg)
    // success is 200 naming the address and the provider; a rejection is 500 with the error's string form
    ensures SelectProvider(cfg) == Some(Resend) ==>
      if resendReply.Reply? && IsOkStatus(resendReply.status) then r.status == 200 && r.body == SentBody(to, "resend")
      else r.status == 500 && r.body.ErrorBody?
    ensures SelectProvider(cfg) == Some(Resend) && resendReply.FetchThrew? ==>
      r.body == ErrorBody(resendReply.error)
    ensures SelectProvider(cfg) == Some(Smtp) ==>
      if smtpReply.SmtpDone? then r.status == 200 && r.body == SentBody(to, "smtp")
      else r.status == 500 && r.body == ErrorBody(smtpReply.error)
    // a Resend rejection keeps the status code and the whole response text
    ensures SelectProvider(cfg) == Some(Resend) && resendReply.Reply? && !IsOkStatus(resendReply.status) ==>
      |ErrorPrefix| <= |r.body.error| && r.body.error[..|ErrorPrefix|] == ErrorPrefix
      && ParseResendErrorMessage(r.body.error[|ErrorPrefix|..]) == Some((resendReply.status, resendReply.text))
  {
    match SelectProvider(cfg)
    case Some(Resend) => Report(Resend, to, SendViaResend(cfg, to, subject, html, resendReply))
    case Some(Smtp) => Report(Smtp, to, SendViaSmtp(cfg, to, subject, html, smtpReply))
    case None => Answer(500, ErrorBody(ConfigGuidance))
  }

  /** How far a request gets before the message is rendered: answered straight
      away, or to be sent to a (trimmed) address about a record. */
  datatype Step = Answered(response: Response) | Send(to: string, rec: ReservationRecord)

  /** The checks before the message is rendered: the method, the JSON body, the
      record, and the address. */
  function Triage(verb: string, parsed: Option<Json>): (s: Step)
    requires TypedRequest(parsed)
    ensures s.Answered? ==> s.response.submission == None && s.response.status in {200, 400, 405}
    ensures s.Answered? ==> (s.response.body.NoBody? <==> verb == "OPTIONS")
    ensures s.Answered? ==> s.response.headers == if s.response.body.NoBody? then CorsHeaders else JsonHeaders
    ensures s.Send? ==> verb == "POST" && parsed.Some? && s.to != ""
  {
    if verb == "OPTIONS" then Answered(Response(200, CorsHeaders, NoBody, None))
    else if verb != "POST" then Answered(Answer(405, ErrorBody(MethodNotAllowed)))
    else if parsed.None? then Answered(Answer(400, ErrorBody(InvalidJson)))
    else match GetRecordFromPayload(parsed.value)
      case None => Answered(Answer(400, ErrorBody(MissingRecord)))
      case Some(raw) =>
        var rec := ToRecord(raw);
        var to := Recipient(rec);
        if to == "" then Answered(Answer(200, SkippedBody(NoAddress)))
        else Send(to, rec)
  }

  /** The handler: triage, then render the subject and the body and deliver. */
  function Handle(verb: string, parsed: Option<Json>, cfg: Config,
                  resendReply: FetchReply, smtpReply: SmtpReply): (r: Response)
    requires TypedRequest(parsed)
    ensures r.status in {200, 400, 405, 500}
    ensures r.headers == if r.body.NoBody? then CorsHeaders else JsonHeaders
    ensures r.body.NoBody? <==> verb == "OPTIONS"
    ensures r.submission.Some? ==> verb == "POST" && parsed.Some?
  {
    match Triage(verb, parsed)
    case Answered(response) => response
    case Send(to, rec) => Deliver(cfg, to, Subject(rec), BuildEmailHtml(rec), resendReply, smtpReply)
  }

  /** The record a request carries. */
  function RecordOf(parsed: Option<Json>): ReservationRecord
    requires parsed.Some? && GetRecordFromPayload(parsed.value).Some?
  {
    ToRecord(GetRecordFromPayload(parsed.value).value)
  }

  /** The checks come in this order: OPTIONS, any other method than POST, a body
      that is not JSON, a body without a record, a record without an address. */
  lemma EarlyAnswers(verb: string, parsed: Option<Json>)
    requires TypedRequest(parsed)
    ensures verb == "OPTIONS" ==> Triage(verb, parsed) == Answered(Response(200, CorsHeaders, NoBody, None))
    ensures verb != "OPTIONS" && verb != "POST" ==>
      Triage(verb, parsed) == Answered(Answer(405, ErrorBody(MethodNotAllowed)))
    ensures verb == "POST" && parsed.None? ==> Triage(verb, parsed) == Answered(Answer(400, ErrorBody(InvalidJson)))
    ensures verb == "POST" && parsed.Some? && GetRecordFromPayload(parsed.value).None? ==>
      Triage(verb, parsed) == Answered(Answer(400, ErrorBody(MissingRecord)))
    ensures verb == "POST" && parsed.Some? && GetRecordFromPayload(parsed.value).Some?
              && Recipient(RecordOf(parsed)) == "" ==>
      Triage(verb, parsed) == Answered(Answer(200, SkippedBody(NoAddress)))
  {
  }

  /** A request reaches the send exactly when it is a POST whose body parses, holds
      a record, and names a non-blank address; the message goes to the trimmed
      address, which neither starts nor ends with white space. */
  lemma SendStep(verb: string, parsed: Option<Json>)
    requires TypedRequest(parsed)
    ensures Triage(verb, parsed).Send? <==>
      verb == "POST" && parsed.Some? && GetRecordFromPayload(parsed.value).Some?
      && Recipient(RecordOf(parsed)) != ""
    ensures Triage(verb, parsed).Send? ==>
      var rec := RecordOf(parsed);
      var to := Triage(verb, parsed).to;
      Triage(verb, parsed) == Send(Trim(rec.correoNotificacion.GetOr("")), rec)
      && !IsWhiteSpace(to[0]) && !IsWhiteSpace(to[|to| - 1])
  {
    if verb == "POST" && parsed.Some? && GetRecordFromPayload(parsed.value).Some? {
      var rec := RecordOf(parsed);
      var to := Recipient(rec);
      assert Triage(verb, parsed) == if to == "" then Answered(Answer(200, SkippedBody(NoAddress))) else Send(to, rec);
    }
  }

  /** A record whose address is absent, `null`, or only white space is answered
      with 200 and the skip notice. */
  lemma SkipWithoutAddress(parsed: Option<Json>)
    requires TypedRequest(parsed) && parsed.Some? && GetRecordFromPayload(parsed.value).Some?
    requires AllWhiteSpace(RecordOf(parsed).correoNotificacion.GetOr(""))
    ensures Triage("POST", parsed) == Answered(Answer(200, SkippedBody(NoAddress)))
  {
    TrimEmptyIffWhiteSpace(RecordOf(parsed).correoNotificacion.GetOr(""));
  }

  /** A request answered before the send reads neither the credentials nor the
      provider's answer, and hands nothing to the network; one that reaches the
      send is answered as the `try` block answers for the record's subject and
      body, and hands its message to the network exactly when a provider is
      configured. */
  lemma NoSendBeforeTheTryBlock(verb: string, parsed: Option<Json>, cfg: Config, rr: FetchReply, sr: SmtpReply,
                                cfg': Config, rr': FetchReply, sr': SmtpReply)
    requires TypedRequest(parsed)
    ensures Triage(verb, parsed).Answered? ==>
      Handle(verb, parsed, cfg, rr, sr) == Handle(verb, parsed, cfg', rr', sr') == Triage(verb, parsed).response
    ensures Triage(verb, parsed).Send? ==> var s := Triage(verb, parsed);
      Handle(verb, parsed, cfg, rr, sr) == Deliver(cfg, s.to, Subject(s.rec), BuildEmailHtml(s.rec), rr, sr)
    ensures Handle(verb, parsed, cfg, rr, sr).submission.Some? <==>
      Triage(verb, parsed).Send? && SelectProvider(cfg).Some?
    ensures Handle(verb, parsed, cfg, rr, sr).submission.Some? ==>
      var e, s := Handle(verb, parsed, cfg, rr, sr).submission.value.email, Triage(verb, parsed);
      e.to == s.to && e.subject == Subject(s.rec) && e.html == BuildEmailHtml(s.rec)
  {
  }
}
