# send-reservation-email, modelled in Dafny

This project models the Supabase edge function `send-reservation-email`. The
function receives a reservation as JSON, either on its own or inside a
change-event envelope. It renders a notification e-mail (a subject line and an
HTML table of five rows) and sends it. It sends through the Resend HTTP API when
`RESEND_API_KEY` is set, otherwise through Office 365 SMTP when `SMTP_USER` and
`SMTP_PASS` are set. It answers with a JSON status.

The model is functional, like the source. Every step is a single expression or a
chain of early returns:

- `wrappers.dfy`: `Option`.
- `js_values.dfy`: parsed JSON values, plus the JavaScript operators the function
  applies to them. These are truthiness, `typeof === "object"`, property reads and
  loose `!= null`.
- `js_text.dfy`: `String.prototype.trim` over the WhiteSpace and LineTerminator
  code points, and the decimal rendering of a status code. It also holds the
  scanner the inverse functions use.
- `payload.dfy`: `getRecordFromPayload` and the `ReservationRecord` it yields.
- `render.dfy`: the subject line and `buildEmailHtml`. The HTML is a fixed
  six-segment template filled with five values. `Extract`, its inverse, reads the
  values back.
- `delivery.dfy`: provider selection, the sender fallbacks, the credential guards
  and the Resend error text. Also the two senders, with the network's answer
  (`FetchReply`, `SmtpReply`) as an input and the message handed to the network
  (`Submission`) as part of the result.
- `handler.dfy`: the `Deno.serve` handler, as a function of the HTTP verb,
  the outcome of parsing the body, the environment (`Config`) and the network's
  answers. It is staged as `Triage`, then rendering, then `Deliver` (the `try`
  block).
- `scenarios.dfy`: sample requests stated on the model. They cover the send
  through Resend, the send with no configuration, the skip, the invalid body, the GET, and the Resend rejection.

## Behaviour of the code worth noting

- OPTIONS is answered with status 200 and the CORS headers: index.ts:115 sets no
  status, so the default applies.
- The SMTP session is closed only after a successful `send`: `client.close()` at
  index.ts:104 is not in a `finally`, so a failing `send` leaves it open.
- A `{"record": []}` body passes the envelope test, because `typeof [] ===
  "object"`. The empty array is returned as the record, and it is then skipped
  because it has no address (`Payload.ArrayInEnvelope`).
- Selecting a provider uses `!!`, which treats an empty variable as unset. The
  sender fallbacks use `??`, which keeps an empty override
  (`Delivery.EmptyVariableIsUnset`, `Delivery.EmptySenderIsKept`).
- A rejected send is answered with `String(err)`. For the function's own errors
  (`throw new Error(...)` at index.ts:62, 77 and 86) that is `"Error: "` followed
  by the message; none of those messages is empty, and an empty one would give
  just `"Error"`. Errors thrown by `fetch` or by the SMTP library keep whatever
  string form they have; the model takes it as given. A failure of `close` after a
  successful `send` is also a rejection, answered with 500.

## Model

| member | source | states |
|---|---|---|
| JsValues.Prop | supabase/functions/send-reservation-email/index.ts:29-30 | a property read gives a value exactly when the value is an object that has the key, and then gives that key's value |
| JsValues.Truthy | supabase/functions/send-reservation-email/index.ts:27-29 | JavaScript truthiness of a parsed value; its use in `!body` and `b.record &&` is stated by Payload.GetRecordFromPayload |
| JsValues.TypeofObject | supabase/functions/send-reservation-email/index.ts:27-29 | `typeof v === "object"`, true of null, arrays and objects; its use is stated by Payload.GetRecordFromPayload |
| JsValues.NotNullish | supabase/functions/send-reservation-email/index.ts:30 | loose `!= null`; its use is stated by Payload.GetRecordFromPayload (`HasValue`) and Payload.TypedFieldsRead |
| Payload.GetRecordFromPayload | supabase/functions/send-reservation-email/index.ts:26-32 | null, booleans, numbers, strings and arrays give no record. An object whose `record` is an object or an array gives exactly that nested value, even when the top level has `fecha` or `correo_notificacion`. Any other object is returned itself if and only if `fecha` or `correo_notificacion` is present and not null, and otherwise gives no record. A result is always an object or an array |
| Payload.ToRecord | supabase/functions/send-reservation-email/index.ts:14-24 | each of the nine fields holds the string stored under its key, and is absent when the key is missing or holds no string. An array reads as a record with every field absent. For a well-typed record, the address is absent exactly when `correo_notificacion` is missing or null |
| Payload.TypedFieldsRead | supabase/functions/send-reservation-email/index.ts:14-24 | in a record typed as declared, each of the six fields that are read is absent exactly when its key is missing or null |
| Payload.EnvelopeAgreesWithRaw | supabase/functions/send-reservation-email/index.ts:29-30 | a record accepted on its own is returned unchanged from inside an envelope too |
| Payload.RawRecordAccepted | supabase/functions/send-reservation-email/index.ts:30 | an object with a date or an address and no object-valued `record` is accepted as itself, both alone and inside an envelope |
| Payload.EnvelopeWinsOverTopLevel | supabase/functions/send-reservation-email/index.ts:29 | an object-valued `record` is returned, whatever the top level holds |
| Payload.ArrayInEnvelope | supabase/functions/send-reservation-email/index.ts:27-29 | `{"record": []}` yields the empty array as the record, and that record has no address |
| Payload.NullFieldsAreNoRecord | supabase/functions/send-reservation-email/index.ts:27-31 | the empty object gives no record. So does an object whose `fecha` and `correo_notificacion` are null and whose `record` is not an object or an array |
| JsText.TrimStart | supabase/functions/send-reservation-email/index.ts:142 | the result is a suffix of the input, only white space was dropped, and the result does not start with white space |
| JsText.TrimEnd | supabase/functions/send-reservation-email/index.ts:142 | the result is a prefix of the input, only white space was dropped, and the result does not end with white space |
| JsText.Trim | supabase/functions/send-reservation-email/index.ts:142 | `trim` gives a slice of the input whose two outside parts are all white space, and neither end of the slice is white |
| JsText.TrimEmptyIffWhiteSpace | supabase/functions/send-reservation-email/index.ts:142-143 | a string trims to empty if and only if it is all white space |
| JsText.TrimIdempotent | supabase/functions/send-reservation-email/index.ts:142 | trimming twice is trimming once |
| JsText.TrimSurrounded | supabase/functions/send-reservation-email/index.ts:40-57 | putting white space around a string whose ends are not white, then trimming, gives the string back |
| JsText.Decimal | supabase/functions/send-reservation-email/index.ts:77 | a status code renders as a non-empty string of digits with no leading zero |
| JsText.DecimalRoundTrip | supabase/functions/send-reservation-email/index.ts:77 | reading the rendered digits back gives the status code |
| JsText.ParseDecimalPositive | supabase/functions/send-reservation-email/index.ts:77 | a numeral that does not start with `0` has a positive value |
| JsText.DecimalUnique | supabase/functions/send-reservation-email/index.ts:77 | every numeral with no leading zero (or the single `0`) is the rendering of its own value, so a status code has exactly one rendering |
| Render.Subject | supabase/functions/send-reservation-email/index.ts:150 | the subject is "Reservación: ", the topic (`Sala` when absent), " - ", the date, a space and the time, in that order, with absent date and time empty. Its length is those pieces' lengths together |
| Render.SubjectDefaults | supabase/functions/send-reservation-email/index.ts:150 | the subject depends on `asunto`, `fecha` and `hora` only. An absent topic reads as `Sala`. A present empty topic is kept and gives a different line |
| Render.Cells | supabase/functions/send-reservation-email/index.ts:35-39 | exactly five values are inserted: date, time, organiser (`responsable`), topic and participants. Each is its field's value when present, even if empty. When absent it is "", except the participants, which become "—" |
| Render.CellsLength | supabase/functions/send-reservation-email/index.ts:35-39 | the five values together are as long as the fields with their defaults: "" for date, time, organiser and topic, "—" for participants |
| Render.FillFrame | supabase/functions/send-reservation-email/index.ts:40-57 | a filled template opens with its first segment, closes with its last, and is as long as its segments and values together |
| Render.ExtractFill | supabase/functions/send-reservation-email/index.ts:40-57 | values without markup, inserted into segments that each start with a tag, are read back exactly |
| Render.SegmentsShape | supabase/functions/send-reservation-email/index.ts:40-57 | the template has six segments around five rows, opens with `<`, closes with `>`, and every segment after the first opens with a tag |
| Render.FillSix | supabase/functions/send-reservation-email/index.ts:48-52 | a six-segment template filled with five values is the values in order, each between its two segments; Render.HtmlWrittenOut uses it |
| Render.HtmlWrittenOut | supabase/functions/send-reservation-email/index.ts:34-57 | the e-mail body written out: the heading, then the Fecha, Hora, Organizador, Asunto and Participantes rows holding each field or its default (`""`, and `"—"` for the participants), then the closing paragraph |
| Render.BuildEmailHtml | supabase/functions/send-reservation-email/index.ts:34-57 | `buildEmailHtml`; what it gives is stated by Render.HtmlIsDocument, Render.HtmlRoundTrip, Render.HtmlLength, Render.EmptyParticipantsShown and Render.HtmlShift |
| Render.HtmlIsDocument | supabase/functions/send-reservation-email/index.ts:40-57 | `.trim()` removes only the template literal's two line breaks. Values are never trimmed, even white-space ones |
| Render.HtmlRoundTrip | supabase/functions/send-reservation-email/index.ts:34-57 | the body holds exactly the five rows Fecha, Hora, Organizador, Asunto and Participantes, in that order, each with its value verbatim. Reading the rows back gives the values, whenever no value contains markup |
| Render.HtmlLength | supabase/functions/send-reservation-email/index.ts:39-57 | the body is a fixed length plus the values' lengths, the same for every record |
| Render.EmptyParticipantsShown | supabase/functions/send-reservation-email/index.ts:39 | a present empty `participantes` renders differently from an absent one |
| Render.ShiftAcrossFirstRow | supabase/functions/send-reservation-email/index.ts:48-49 | moving the text of the first separator from the end of the first value to the start of the second leaves a filled template unchanged |
| Render.HtmlShift | supabase/functions/send-reservation-email/index.ts:48-49 | with no escaping, two records that differ in both date and time can render the same body |
| Delivery.SelectProvider | supabase/functions/send-reservation-email/index.ts:153-170 | Resend is chosen if and only if the API key is set and non-empty. SMTP is chosen if and only if the key is not set and both user and password are |
| Delivery.IsSet | supabase/functions/send-reservation-email/index.ts:153-154 | `!!value`: set and non-empty; its use is stated by Delivery.SelectProvider, Delivery.EmptyVariableIsUnset and the guards of the two senders |
| Delivery.EmptyVariableIsUnset | supabase/functions/send-reservation-email/index.ts:153-154 | an empty key, user or password selects exactly what an unset one does |
| Delivery.ResendSender | supabase/functions/send-reservation-email/index.ts:64 | `RESEND_FROM` when set, else the free-plan default |
| Delivery.SmtpSender | supabase/functions/send-reservation-email/index.ts:84 | `SMTP_FROM` whenever it is set, else `SMTP_USER` whenever that is set, else `noreply@tacticalsupport.com.mx` |
| Delivery.EmptySenderIsKept | supabase/functions/send-reservation-email/index.ts:64-84 | an override set to the empty string is kept by both sender fallbacks |
| Delivery.ErrorString | supabase/functions/send-reservation-email/index.ts:179 | `String(err)` of an `Error`: "Error: " followed by exactly the message, or just "Error" when the message is empty |
| Delivery.IsOkStatus | supabase/functions/send-reservation-email/index.ts:75 | `res.ok`, a status from 200 to 299; its use is stated by Delivery.SendViaResend |
| Delivery.ResendErrorMessage | supabase/functions/send-reservation-email/index.ts:77 | the message opens with "Resend API: " and ends with the whole response text; Delivery.ResendErrorRoundTrip reads the status and the text back and Delivery.ResendErrorParseExact shows no other message reads back the same |
| Delivery.ResendErrorRoundTrip | supabase/functions/send-reservation-email/index.ts:77 | the Resend error message can be parsed back into the status code and the whole response text |
| Delivery.ResendErrorParseExact | supabase/functions/send-reservation-email/index.ts:77 | a message that parses is exactly the Resend error message for the status and text it yields: the parser accepts only the canonical numeral, so the read-back in Delivery.SendViaResend and Handler.Deliver fixes the error text character for character |
| Delivery.SendViaResend | supabase/functions/send-reservation-email/index.ts:60-79 | without a key, it rejects with the guard's error and sends nothing. With a key, one message goes to the API URL with the bearer token and the sender fallback. It resolves if and only if the reply status is 2xx. A non-2xx rejection carries the status and the text. An error thrown by `fetch` is passed on unchanged |
| Delivery.SendViaSmtp | supabase/functions/send-reservation-email/index.ts:81-105 | without both user and password, it rejects with the guard's error and sends nothing. With both, one message goes over TLS to smtp.office365.com:587, with the sender fallback and the plain-text part. It resolves if and only if both `send` and `close` resolve. An error thrown by `send` or `close` is passed on unchanged |
| Handler.Recipient | supabase/functions/send-reservation-email/index.ts:142-143 | the trimmed address is empty exactly when the address is absent or only white space, and otherwise neither of its ends is white space |
| Handler.Report | supabase/functions/send-reservation-email/index.ts:157-182 | 200 naming the address and the provider exactly when the send resolved, otherwise 500 with the error's string form; JSON and CORS headers; the submission is passed through |
| Handler.Deliver | supabase/functions/send-reservation-email/index.ts:153-183 | with no provider, the answer is 500 with the guidance and nothing is sent. A message is sent exactly when a provider is selected, to the given address with the given subject and body. Resend wins over SMTP. Success is 200 naming the address and provider. A failure is 500. A Resend rejection keeps the status and text. A `fetch` error and an SMTP error are answered as their string form |
| Handler.Triage | supabase/functions/send-reservation-email/index.ts:114-148 | an early answer sends nothing and has status 200, 400 or 405. Its body is empty exactly for OPTIONS. Only a POST with a parsed body goes on to the send, and only with a non-empty address |
| Handler.Handle | supabase/functions/send-reservation-email/index.ts:107-184 | the status is 200, 400, 405 or 500. Headers are the CORS set for the bare OPTIONS answer and JSON plus CORS otherwise. Something is sent only for a POST whose body parsed |
| Handler.EarlyAnswers | supabase/functions/send-reservation-email/index.ts:114-147 | the checks run in order: OPTIONS, then any other non-POST (405), then invalid JSON (400), then no record (400), then no address (200 with the skip notice) |
| Handler.SendStep | supabase/functions/send-reservation-email/index.ts:142-148 | the send is reached if and only if the request is a POST with a record and a non-blank address. The address is passed trimmed, and neither end of it is white space |
| Handler.SkipWithoutAddress | supabase/functions/send-reservation-email/index.ts:142-147 | an absent, null or all-white-space address is answered with 200 and the skip notice |
| Handler.NoSendBeforeTheTryBlock | supabase/functions/send-reservation-email/index.ts:114-176 | an early answer does not depend on the configuration or on the network and sends nothing. A request that reaches the send is answered as the `try` block answers for the record's subject and body, and a message is sent exactly when a provider is configured |
| Scenarios.SyncIsTyped | supabase/functions/send-reservation-email/index.ts:14-24 | every field of the sample record that is read holds a string or nothing |
| Scenarios.AddressIsTrimmed | supabase/functions/send-reservation-email/index.ts:142 | `a@b.com` is unchanged by trimming |
| Scenarios.SyncIsDeliverable | supabase/functions/send-reservation-email/index.ts:134-148 | the sample record inside an envelope reaches the send, addressed to `a@b.com` |
| Scenarios.SentThroughResend | supabase/functions/send-reservation-email/index.ts:157-162 | with a Resend key and a 200 reply, the answer is 200 naming `a@b.com` and `resend` |
| Scenarios.NothingConfigured | supabase/functions/send-reservation-email/index.ts:171-176 | with no variable set, the answer is 500 with the guidance |
| Scenarios.DateOnlySkipped | supabase/functions/send-reservation-email/index.ts:142-147 | `{"fecha": "2024-06-01"}` is answered with 200 and the skip notice |
| Scenarios.Rejected | supabase/functions/send-reservation-email/index.ts:117-132 | an unparseable body is answered with 400 "Body JSON inválido". A GET is answered with 405 "Método no permitido" |
| Scenarios.ResendRejects | supabase/functions/send-reservation-email/index.ts:156-182 | a 422 "invalid address" reply from Resend is answered with 500, and the error text carries both the status and the text |

## Left out

- Handler.Handle: defined only for bodies whose record holds a string, `null` or nothing in each of the six fields it reads (`TypedRequest`). The same requirement applies to Handler.Triage, Handler.EarlyAnswers, Handler.SendStep, Handler.SkipWithoutAddress and Handler.NoSendBeforeTheTryBlock. A number, boolean, object or array in `correo_notificacion` makes `.trim` at index.ts:142 throw a TypeError outside the `try` block. The runtime's default error response then answers, not the handler. A non-string value in `fecha`, `hora`, `responsable`, `asunto` or `participantes` would be converted to text by the template literals. Neither case is modelled. The requirement is on the `parsed` argument as a whole, so it also excludes requests where the source reads no such field: a GET, an OPTIONS, or a POST whose record has a non-string `fecha` and no address and is skipped at index.ts:143-147.
- JsValues.Prop: reads only an object's own keys. Array properties (`length`, indices) and keys inherited from `Object.prototype` are not modelled. None of the keys the function reads is one of these.
- The `fetch` call and the SMTP `connect`/`send`/`close` sequence are network I/O. They are modelled only by their outcome (`FetchReply`, `SmtpReply`) and by what is handed to them (`Submission`).
- A `res.text()` that throws after a non-2xx status is not modelled. The reply carries the text.
- SMTP close on the failure path: the code never closes the session when `send` throws, so the model claims no cleanup.
- `Deno.serve`, the `Request` and `Response` objects, and the JSON serialisation of response bodies. The response is a datatype, not bytes.
- `req.json()`: the body's parse result is an input (`None` for a body that is not JSON).
- `Deno.env.get`: the environment is the `Config` input, read once per request.
- `console.error` logging of a failed send.
- The HTTP method is compared as given. No case normalisation is modelled.
- Strings are sequences of Unicode scalar values, while JavaScript strings are UTF-16 code units. A lone surrogate (from a `\uD800` escape in the body, say) cannot be represented. The lengths stated by Render.Subject, Render.CellsLength and Render.HtmlLength count code points, not UTF-16 units.
- Numbers in JSON are `real`. Their only use is truthiness.
