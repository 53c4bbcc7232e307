/** excel_sync.py: the Zapier webhook client. Builds the flat JSON payload of a check-in or
    mail record, posts it once, and folds every outcome into a `(success, error)` pair;
    it never raises. The POST is an oracle `post(url, payload)`; the local-time rendering
    of `created_at` is the oracle `stamp` (or `localDate`), which may fail. */
module ExcelSync {
  import opened Nullable
  import opened Text
  import opened Calendar
  import opened SyncData
  import Store

  const NotStarted := "Not started"
  const DefaultIntakeType := "Appointment"
  const NotConfigured := "Webhook URL not configured"
  const TimedOutError := "Zapier webhook request timed out"
  const RejectionPrefix := "Zapier returned status "
  /** How much of a rejected response's body the error keeps. */
  const BodyLimit := 200

  /** The check-in payload. Keys not coerced with `or ''` carry None (JSON null) when the
      dict holds None. */
  datatype CheckinPayload = CheckinPayload(
    eventId: string,
    timestampLocal: string,
    clientName: Option<string>,
    clientEmail: string,
    clientPhone: string,
    professional: Option<string>,
    intakeType: Option<string>,
    dueDate: string,
    status: string,
    notes: string)

  const CheckinColumns := ["EventID", "TimestampLocal", "ClientName", "ClientEmail", "ClientPhone",
                           "Professional", "IntakeType", "DueDate", "Status", "Notes"]

  /** The payload's values in column order. */
  function CheckinValues(p: CheckinPayload): (vs: seq<Option<string>>)
    ensures |vs| == |CheckinColumns|
  {
    [Some(p.eventId), Some(p.timestampLocal), p.clientName, Some(p.clientEmail), Some(p.clientPhone),
     p.professional, p.intakeType, Some(p.dueDate), Some(p.status), Some(p.notes)]
  }

  /** The mail payload. */
  datatype MailPayload = MailPayload(
    eventId: string,
    dateSent: string,
    clientName: Option<string>,
    professional: Option<string>,
    itemType: Option<string>,
    delivery: Option<string>,
    trackingNumber: string,
    sentBy: string,
    notes: string)

  const MailColumns := ["EventID", "DateSent", "ClientName", "Professional", "ItemType",
                        "Method", "TrackingNumber", "SentBy", "Notes"]

  function MailValues(p: MailPayload): (vs: seq<Option<string>>)
    ensures |vs| == |MailColumns|
  {
    [Some(p.eventId), Some(p.dateSent), p.clientName, p.professional, p.itemType, p.delivery,
     Some(p.trackingNumber), Some(p.sentBy), Some(p.notes)]
  }

  /** The check-in payload of a dict, given the local rendering of its `created_at`:
      EventID is `str(id)` ('' when absent, 'None' when None); ClientName and Professional are carried as they are ('' when
      absent, null when None); IntakeType likewise, but 'Appointment' when absent; email,
      phone and notes are never null, are '' exactly when missing, None or empty, and are
      carried when non-empty; Status is always 'Not started'; a date due date reads back
      as that date, other truthy text is sent as it is, and no due date gives ''. */
  function CheckinPayloadOf(d: CheckinData, timestamp: string): (p: CheckinPayload)
    ensures d.id.Present? ==> p.eventId == d.id.value
    ensures d.id.Missing? ==> p.eventId == ""
    ensures d.id.Null? ==> p.eventId == "None"
    ensures p.timestampLocal == timestamp && p.status == NotStarted
    ensures d.clientName.Present? ==> p.clientName == Some(d.clientName.value)
    ensures d.clientName.Missing? ==> p.clientName == Some("")
    ensures d.clientName.Null? <==> p.clientName.None?
    ensures d.professional.Present? ==> p.professional == Some(d.professional.value)
    ensures d.professional.Missing? ==> p.professional == Some("")
    ensures d.professional.Null? <==> p.professional.None?
    ensures d.intakeType.Present? ==> p.intakeType == Some(d.intakeType.value)
    ensures d.intakeType.Missing? ==> p.intakeType == Some(DefaultIntakeType)
    ensures d.intakeType.Null? <==> p.intakeType.None?
    ensures p.clientEmail == "" <==> (d.clientEmail.Missing? || d.clientEmail.Null? || d.clientEmail.value == "")
    ensures p.clientEmail != "" ==> d.clientEmail == Present(p.clientEmail)
    ensures p.clientPhone == "" <==> (d.clientPhone.Missing? || d.clientPhone.Null? || d.clientPhone.value == "")
    ensures p.clientPhone != "" ==> d.clientPhone == Present(p.clientPhone)
    ensures p.notes == "" <==> (d.notes.Missing? || d.notes.Null? || d.notes.value == "")
    ensures p.notes != "" ==> d.notes == Present(p.notes)
    ensures d.dueDate.Present? && d.dueDate.value.When? ==> ParseIso(p.dueDate) == Some(d.dueDate.value.moment.date)
    ensures d.dueDate.Present? && d.dueDate.value.Plain? ==> p.dueDate == d.dueDate.value.text
    ensures !(d.dueDate.Present? && Truthy(d.dueDate.value)) ==> p.dueDate == ""
  {
    CheckinPayload(
      EventId(d.id),
      timestamp,
      GetOr(d.clientName, ""),
      TextOrEmpty(d.clientEmail),
      TextOrEmpty(d.clientPhone),
      GetOr(d.professional, ""),
      GetOr(d.intakeType, DefaultIntakeType),
      FormatDueDate(d.dueDate),
      NotStarted,
      TextOrEmpty(d.notes))
  }

  /** The mail payload of a dict, given the local date of its `created_at`: EventID is
      `str(id)` ('' when absent, 'None' when None); client name,
      professional, item type and method are carried as they are ('' when absent, null
      when None); tracking number, sent-by and notes are never null, are '' exactly when
      missing, None or empty, and are carried when non-empty. */
  function MailPayloadOf(d: MailData, dateSent: string): (p: MailPayload)
    ensures d.id.Present? ==> p.eventId == d.id.value
    ensures d.id.Missing? ==> p.eventId == ""
    ensures d.id.Null? ==> p.eventId == "None"
    ensures p.dateSent == dateSent
    ensures d.clientName.Present? ==> p.clientName == Some(d.clientName.value)
    ensures d.clientName.Missing? ==> p.clientName == Some("")
    ensures d.clientName.Null? <==> p.clientName.None?
    ensures d.professionalName.Present? ==> p.professional == Some(d.professionalName.value)
    ensures d.professionalName.Missing? ==> p.professional == Some("")
    ensures d.professionalName.Null? <==> p.professional.None?
    ensures d.itemType.Present? ==> p.itemType == Some(d.itemType.value)
    ensures d.itemType.Missing? ==> p.itemType == Some("")
    ensures d.itemType.Null? <==> p.itemType.None?
    ensures d.delivery.Present? ==> p.delivery == Some(d.delivery.value)
    ensures d.delivery.Missing? ==> p.delivery == Some("")
    ensures d.delivery.Null? <==> p.delivery.None?
    ensures p.trackingNumber == "" <==> (d.trackingNumber.Missing? || d.trackingNumber.Null? || d.trackingNumber.value == "")
    ensures p.trackingNumber != "" ==> d.trackingNumber == Present(p.trackingNumber)
    ensures p.sentBy == "" <==> (d.sentBy.Missing? || d.sentBy.Null? || d.sentBy.value == "")
    ensures p.sentBy != "" ==> d.sentBy == Present(p.sentBy)
    ensures p.notes == "" <==> (d.notes.Missing? || d.notes.Null? || d.notes.value == "")
    ensures p.notes != "" ==> d.notes == Present(p.notes)
  {
    MailPayload(
      EventId(d.id),
      dateSent,
      GetOr(d.clientName, ""),
      GetOr(d.professionalName, ""),
      GetOr(d.itemType, ""),
      GetOr(d.delivery, ""),
      TextOrEmpty(d.trackingNumber),
      TextOrEmpty(d.sentBy),
      TextOrEmpty(d.notes))
  }

  /** How the POST ended: a response, a timeout, another `RequestException`, or any other
      exception, each with its `str()`. */
  datatype HttpOutcome =
    | Response(statusCode: int, text: string)
    | TimedOut
    | RequestFailed(reason: string)
    | Crashed(reason: string)

  predicate IsOk(o: HttpOutcome) {
    o.Response? && o.statusCode == 200
  }

  /** The error for a non-200 response: the status code and at most the first 200
      characters of the body. */
  function RejectionMessage(code: int, text: string): string
  {
    RejectionPrefix + IntToDecimal(code) + ": " + Take(text, BodyLimit)
  }

  /** Only a 200 response is a success; every failure has a non-empty error, and the error
      is None exactly on success. */
  function Classify(o: HttpOutcome): (r: SyncResult)
    ensures r.success <==> r.error.None?
    ensures r.success <==> IsOk(o)
    ensures !r.success ==> |r.error.value| > 0
    ensures o.TimedOut? ==> r.error == Some(TimedOutError)
    ensures o.RequestFailed? ==> r.error == Some("Request error: " + o.reason)
    ensures o.Crashed? ==> r.error == Some("Unexpected error: " + o.reason)
    ensures o.Response? && o.statusCode != 200 ==> r.error == Some(RejectionMessage(o.statusCode, o.text))
  {
    match o
    case Response(code, text) =>
      if code == 200 then SyncResult(true, None)
      else SyncResult(false, Some(RejectionMessage(code, text)))
    case TimedOut => SyncResult(false, Some(TimedOutError))
    case RequestFailed(reason) => SyncResult(false, Some("Request error: " + reason))
    case Crashed(reason) => SyncResult(false, Some("Unexpected error: " + reason))
  }

  /** The status code written into a rejection error, read back. */
  function StatusInError(m: string): Option<nat>
  {
    if StartsWith(m, RejectionPrefix) then
      var ds := LeadingDigits(m[|RejectionPrefix|..]);
      if |ds| > 0 then Some(DecimalValue(ds)) else None
    else None
  }

  /** A rejection error names the status code (it reads back from the message), and it
      ends with the first 200 characters of the body, or the whole body when shorter. */
  lemma RejectionNamesStatus(code: nat, text: string)
    ensures StatusInError(RejectionMessage(code, text)) == Some(code)
    ensures var m := RejectionMessage(code, text);
      var n := if |text| < BodyLimit then |text| else BodyLimit;
      |m| >= n && m[|m| - n..] == text[..n]
  {
    var digits := NatToDecimal(code);
    var body := Take(text, BodyLimit);
    var m := RejectionMessage(code, text);
    assert m == RejectionPrefix + (digits + ": " + body);
    assert m[..|RejectionPrefix|] == RejectionPrefix;
    var rest := m[|RejectionPrefix|..];
    assert rest == digits + (": " + body);
    var ds := LeadingDigits(rest);
    LeadingDigitsOfDigits(digits, ": " + body);
    DecimalRoundTrip(code);
    var k := |m| - |body|;
    assert m[k..] == body;
  }

  /** `sync_checkin_to_excel`: without a webhook URL nothing is done and the result is
      `(False, 'Webhook URL not configured')`; when rendering `created_at` raises, nothing is
      posted and the result is the 'Unexpected error' of that exception; otherwise the
      dict's payload is posted once and the result is that outcome classified: success
      exactly on a 200, and otherwise the timeout, request or rejection error. */
  function SyncCheckinToExcel(
    webhook: string,
    d: CheckinData,
    stamp: Option<Store.Instant> -> LocalText,
    post: (string, CheckinPayload) -> HttpOutcome): (r: Delivery<CheckinPayload>)
    ensures webhook == "" ==> r == Delivery(SyncResult(false, Some(NotConfigured)), None)
    ensures webhook != "" && stamp(CreatedAtArg(d.createdAt)).RenderFailed? ==>
      && r.sent.None?
      && r.result == SyncResult(false, Some("Unexpected error: " + stamp(CreatedAtArg(d.createdAt)).reason))
    ensures webhook != "" && stamp(CreatedAtArg(d.createdAt)).Rendered? ==>
      && r.sent == Some(CheckinPayloadOf(d, stamp(CreatedAtArg(d.createdAt)).text))
      && r.result == Classify(post(webhook, r.sent.value))
    ensures r.result.success <==> r.sent.Some? && IsOk(post(webhook, r.sent.value))
    ensures r.result.success <==> r.result.error.None?
    ensures !r.result.success ==> r.result.error.Some? && r.result.error.value != ""
  {
    if webhook == "" then Delivery(SyncResult(false, Some(NotConfigured)), None)
    else match stamp(CreatedAtArg(d.createdAt))
      case RenderFailed(reason) => Delivery(Classify(Crashed(reason)), None)
      case Rendered(timestamp) =>
        var payload := CheckinPayloadOf(d, timestamp);
        Delivery(Classify(post(webhook, payload)), Some(payload))
  }

  /** `sync_mail_to_excel`, the same contract for mail records. */
  function SyncMailToExcel(
    webhook: string,
    d: MailData,
    localDate: Option<Store.Instant> -> LocalText,
    post: (string, MailPayload) -> HttpOutcome): (r: Delivery<MailPayload>)
    ensures webhook == "" ==> r == Delivery(SyncResult(false, Some(NotConfigured)), None)
    ensures webhook != "" && localDate(CreatedAtArg(d.createdAt)).RenderFailed? ==>
      && r.sent.None?
      && r.result == SyncResult(false, Some("Unexpected error: " + localDate(CreatedAtArg(d.createdAt)).reason))
    ensures webhook != "" && localDate(CreatedAtArg(d.createdAt)).Rendered? ==>
      && r.sent == Some(MailPayloadOf(d, localDate(CreatedAtArg(d.createdAt)).text))
      && r.result == Classify(post(webhook, r.sent.value))
    ensures r.result.success <==> r.sent.Some? && IsOk(post(webhook, r.sent.value))
    ensures r.result.success <==> r.result.error.None?
    ensures !r.result.success ==> r.result.error.Some? && r.result.error.value != ""
  {
    if webhook == "" then Delivery(SyncResult(false, Some(NotConfigured)), None)
    else match localDate(CreatedAtArg(d.createdAt))
      case RenderFailed(reason) => Delivery(Classify(Crashed(reason)), None)
      case Rendered(date) =>
        var payload := MailPayloadOf(d, date);
        Delivery(Classify(post(webhook, payload)), Some(payload))
  }
}
