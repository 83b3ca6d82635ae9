/** Sample requests, stated on the model: one record sent through each kind of
    configuration, and each early answer. */
module Scenarios {
  import opened Wrappers
  import opened JsValues
  import opened JsText
  import opened Payload
  import opened Delivery
  import opened Handler

  const Address: string := "a@b.com"

  /** The record `{"fecha": "2024-06-01", "hora": "10:00", "asunto": "Sync",
      "correo_notificacion": "a@b.com"}`. */
  function SyncRecord(): Json {
    Obj(map["fecha" := Str("2024-06-01"), "hora" := Str("10:00"), "asunto" := Str("Sync"),
            "correo_notificacion" := Str(Address)])
  }

  /** No environment variable is set. */
  const NoConfig: Config := Config(None, None, None, None, None)

  lemma AddressIsTrimmed()
    ensures Trim(Address) == Address
  {
    TrimSurrounded([], Address, []);
    assert [] + Address + [] == Address;
  }

  /** Every field of the sample record that is read holds a string or nothing. */
  lemma SyncIsTyped()
    ensures TypedAsDeclared(SyncRecord())
  {
    forall k | k in ReadKeys ensures TextOrAbsent(Prop(SyncRecord(), k)) {
      assert k in SyncRecord().fields ==> SyncRecord().fields[k].Str?;
    }
  }

  /** The record, sent inside its change-event envelope, reaches the send with its
      own address. */
  lemma SyncIsDeliverable()
    ensures TypedRequest(Some(Envelope(SyncRecord())))
    ensures Triage("POST", Some(Envelope(SyncRecord()))) == Send(Address, ToRecord(SyncRecord()))
  {
    var body := Envelope(SyncRecord());
    assert WrapsRecord(body);
    assert GetRecordFromPayload(body) == Some(SyncRecord());
    SyncIsTyped();
    assert ToRecord(SyncRecord()).correoNotificacion == Some(Address);
    AddressIsTrimmed();
  }

  /** With a Resend key set and the API answering 200, the send is answered with
      200 naming the address and Resend. */
  lemma SentThroughResend(cfg: Config, subject: string, html: string, text: string, sr: SmtpReply)
    requires IsSet(cfg.resendApiKey)
    ensures var r := Deliver(cfg, Address, subject, html, Reply(200, text), sr);
      r.status == 200 && r.body == SentBody(Address, "resend")
  {
  }

  /** With no environment variable set, the send is answered with 500 and the
      guidance, and nothing is handed to the network. */
  lemma NothingConfigured(subject: string, html: string, rr: FetchReply, sr: SmtpReply)
    ensures Deliver(NoConfig, Address, subject, html, rr, sr) == Answer(500, ErrorBody(ConfigGuidance))
  {
  }

  /** A raw record with a date and no address is skipped. */
  lemma DateOnlySkipped()
    ensures TypedRequest(Some(Obj(map["fecha" := Str("2024-06-01")])))
    ensures Triage("POST", Some(Obj(map["fecha" := Str("2024-06-01")]))) == Answered(Answer(200, SkippedBody(NoAddress)))
  {
    var body := Obj(map["fecha" := Str("2024-06-01")]);
    assert HasValue(body, "fecha");
    assert GetRecordFromPayload(body) == Some(body);
    assert TypedAsDeclared(body);
    assert ToRecord(body).correoNotificacion == None;
    SkipWithoutAddress(Some(body));
  }

  /** A body that is not JSON, and a GET, are refused before anything else. */
  lemma Rejected(parsed: Option<Json>)
    requires TypedRequest(parsed)
    ensures Triage("POST", None) == Answered(Answer(400, ErrorBody(InvalidJson)))
    ensures Triage("GET", parsed) == Answered(Answer(405, ErrorBody(MethodNotAllowed)))
  {
  }

  /** The Resend API answering 422 "invalid address" gives a 500 whose error text
      carries both the status code and the provider's text. */
  lemma ResendRejects(cfg: Config, subject: string, html: string, sr: SmtpReply)
    requires IsSet(cfg.resendApiKey)
    ensures var r := Deliver(cfg, Address, subject, html, Reply(422, "invalid address"), sr);
      r.status == 500 && r.body.ErrorBody?
      && |ErrorPrefix| <= |r.body.error| && r.body.error[..|ErrorPrefix|] == ErrorPrefix
      && ParseResendErrorMessage(r.body.error[|ErrorPrefix|..]) == Some((422, "invalid address"))
  {
  }
}
