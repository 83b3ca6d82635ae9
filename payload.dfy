/** The payload normaliser (`getRecordFromPayload`) and the reservation record it
    yields. The caller may send the record itself or a change-event envelope that
    carries it under the key `record`. */
module Payload {
  import opened Wrappers
  import opened JsValues

  /** A reservation record as the renderer and the handler read it. Every field is
      optional; a JSON `null` reads as absent because the source only ever
      consults the fields through `??`. */
  datatype ReservationRecord = ReservationRecord(
    id: Option<string>,
    fecha: Option<string>,
    hora: Option<string>,
    responsable: Option<string>,
    asunto: Option<string>,
    participantes: Option<string>,
    reservadoPor: Option<string>,
    nombreContacto: Option<string>,
    correoNotificacion: Option<string>)

  /** `getRecordFromPayload`: `None` is the source's `null` ("no record"). */
  function GetRecordFromPayload(body: Json): (r: Option<Json>)
    // neither an object nor an array (null, a boolean, a number, a string): no record
    ensures !(body.Obj? || body.Arr?) ==> r == None
    // an array has none of the keys looked at: no record
    ensures body.Arr? ==> r == None
    // an envelope whose `record` is an object or an array: exactly that nested value
    ensures WrapsRecord(body) ==> r == Some(body.fields["record"])
    // otherwise the object itself, if and only if `fecha` or `correo_notificacion` is set and not null
    ensures body.Obj? && !WrapsRecord(body) ==>
      r == (if HasValue(body, "fecha") || HasValue(body, "correo_notificacion") then Some(body) else None)
    // whatever is returned is an object or an array, hence truthy
    ensures r.Some? ==> (r.value.Obj? || r.value.Arr?) && Truthy(r.value)
  {
    if !Truthy(body) || !TypeofObject(body) then None
    else if TruthyProp(Prop(body, "record")) && TypeofObject(Prop(body, "record").value) then
      Some(Prop(body, "record").value)
    else if NotNullish(Prop(body, "fecha")) || NotNullish(Prop(body, "correo_notificacion")) then
      Some(body)
    else None
  }

  /** `body` is an object whose `record` member is an object or an array. */
  predicate WrapsRecord(body: Json) {
    body.Obj? && "record" in body.fields
    && (body.fields["record"].Obj? || body.fields["record"].Arr?)
  }

  /** `body` is an object whose member `key` is present and not `null`. */
  predicate HasValue(body: Json, key: string) {
    body.Obj? && key in body.fields && !body.fields[key].Null?
  }

  /** The text of a field read through `??`: present strings only. */
  function Text(p: Option<Json>): Option<string> {
    if p.Some? && p.value.Str? then Some(p.value.s) else None
  }

  /** `field` is the string the property read `p` yields, and absent when `p`
      yields no string. */
  predicate ReadsString(field: Option<string>, p: Option<Json>) {
    (field.Some? <==> p.Some? && p.value.Str?)
    && (field.Some? ==> p == Some(Str(field.value)))
  }

  /** The field holds what the record type declares for it: a string, or nothing
      (missing or `null`). */
  predicate TextOrAbsent(p: Option<Json>) {
    p.None? || p.value.Null? || p.value.Str?
  }

  /** The keys of the record that the handler and the renderer read. */
  const ReadKeys: seq<string> :=
    ["fecha", "hora", "responsable", "asunto", "participantes", "correo_notificacion"]

  /** Every field that is read holds a string or nothing, as the record type declares. */
  predicate TypedAsDeclared(rec: Json) {
    forall k :: k in ReadKeys ==> TextOrAbsent(Prop(rec, k))
  }

  /** The cast `as ReservationRecord`, read field by field. */
  function ToRecord(rec: Json): (r: ReservationRecord)
    ensures rec.Arr? ==> r == ReservationRecord(None, None, None, None, None, None, None, None, None)
    // every field holds the string stored under its key, and nothing when there is none
    ensures ReadsString(r.id, Prop(rec, "id")) && ReadsString(r.fecha, Prop(rec, "fecha"))
    ensures ReadsString(r.hora, Prop(rec, "hora")) && ReadsString(r.responsable, Prop(rec, "responsable"))
    ensures ReadsString(r.asunto, Prop(rec, "asunto")) && ReadsString(r.participantes, Prop(rec, "participantes"))
    ensures ReadsString(r.reservadoPor, Prop(rec, "reservado_por"))
    ensures ReadsString(r.nombreContacto, Prop(rec, "nombre_contacto"))
    ensures ReadsString(r.correoNotificacion, Prop(rec, "correo_notificacion"))
    ensures TypedAsDeclared(rec) ==>
      (r.correoNotificacion.None? <==> !NotNullish(Prop(rec, "correo_notificacion")))
  {
    ReservationRecord(
      Text(Prop(rec, "id")),
      Text(Prop(rec, "fecha")),
      Text(Prop(rec, "hora")),
      Text(Prop(rec, "responsable")),
      Text(Prop(rec, "asunto")),
      Text(Prop(rec, "participantes")),
      Text(Prop(rec, "reservado_por")),
      Text(Prop(rec, "nombre_contacto")),
      Text(Prop(rec, "correo_notificacion")))
  }

  /** In a record typed as declared, each field that is read is absent from the
      record exactly when its key is missing or `null`, and otherwise holds the
      key's string. */
  lemma TypedFieldsRead(rec: Json)
    requires TypedAsDeclared(rec)
    ensures var r := ToRecord(rec);
      (r.fecha.None? <==> !NotNullish(Prop(rec, "fecha")))
      && (r.hora.None? <==> !NotNullish(Prop(rec, "hora")))
      && (r.responsable.None? <==> !NotNullish(Prop(rec, "responsable")))
      && (r.asunto.None? <==> !NotNullish(Prop(rec, "asunto")))
      && (r.participantes.None? <==> !NotNullish(Prop(rec, "participantes")))
      && (r.correoNotificacion.None? <==> !NotNullish(Prop(rec, "correo_notificacion")))
  {
    assert ReadKeys[0] == "fecha" && ReadKeys[1] == "hora" && ReadKeys[2] == "responsable";
    assert ReadKeys[3] == "asunto" && ReadKeys[4] == "participantes" && ReadKeys[5] == "correo_notificacion";
  }

  /** The change-event envelope around a record. */
  function Envelope(rec: Json): Json {
    Obj(map["record" := rec])
  }

  /** The two shapes the caller may send agree: a record that is accepted on its
      own is returned unchanged from inside an envelope too. */
  lemma EnvelopeAgreesWithRaw(rec: Json)
    requires GetRecordFromPayload(rec) == Some(rec)
    ensures GetRecordFromPayload(Envelope(rec)) == Some(rec)
  {
    assert WrapsRecord(Envelope(rec));
  }

  /** A raw record is accepted as itself when it has a date or an address and no
      object-valued `record` member; the envelope around it yields the same. */
  lemma RawRecordAccepted(rec: Json)
    requires rec.Obj? && !WrapsRecord(rec)
    requires HasValue(rec, "fecha") || HasValue(rec, "correo_notificacion")
    ensures GetRecordFromPayload(rec) == Some(rec)
    ensures GetRecordFromPayload(Envelope(rec)) == Some(rec)
  {
    EnvelopeAgreesWithRaw(rec);
  }

  /** The envelope wins even when the top level also looks like a record. */
  lemma EnvelopeWinsOverTopLevel(body: Json, rec: Json)
    requires body.Obj? && "record" in body.fields && body.fields["record"] == rec && rec.Obj?
    ensures GetRecordFromPayload(body) == Some(rec)
  {
  }

  /** `{"record": []}` passes the envelope test: the empty array is returned as the
      record, and it carries no notification address. */
  lemma ArrayInEnvelope()
    ensures GetRecordFromPayload(Envelope(Arr([]))) == Some(Arr([]))
    ensures ToRecord(Arr([])).correoNotificacion == None
  {
    assert WrapsRecord(Envelope(Arr([])));
  }

  /** An empty object, and an object whose `fecha` and `correo_notificacion` are
      `null` and whose `record` is a non-object, are not records. */
  lemma NullFieldsAreNoRecord(other: Json)
    requires !(other.Obj? || other.Arr?)
    ensures GetRecordFromPayload(Obj(map[])) == None
    ensures GetRecordFromPayload(Obj(map["record" := other, "fecha" := Null, "correo_notificacion" := Null])) == None
  {
    var b := Obj(map["record" := other, "fecha" := Null, "correo_notificacion" := Null]);
    assert !WrapsRecord(b) && !HasValue(b, "fecha") && !HasValue(b, "correo_notificacion");
  }
}
