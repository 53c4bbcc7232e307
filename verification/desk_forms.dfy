/** app.py: what the desk screens `desk_intake` and `desk_mail` make of a posted form:
    stripped inputs, required fields, the professional lookup, blank optional fields
    stored as None, blank choices replaced by their defaults, and the record dict handed
    to the inline sync. Rendering, the e-mail text and the calls themselves are not
    modelled; the professional lookup is an oracle. */
module DeskForms {
  import opened Nullable
  import opened Text
  import opened Calendar
  import opened SyncData
  import Store
  import ExcelSync
  import InlineSync
  import Slack

  const DefaultIntakeType := "Drop-off"
  const DefaultItemType := "Other"
  const DefaultDelivery := "USPS"
  /** `DEFAULT_INTAKE_DAYS` when unset. */
  const DefaultIntakeDays := 7
  const MissingFieldsError := "Client name and professional are required."
  const UnknownProfessionalError := "Selected professional not found."

  datatype Professional = Professional(id: int, name: string, email: string)

  /** `get_professional(int(prof_id))`: a professional, no such row, or the ValueError
      `int()` raises on a value that is not a number. */
  datatype Lookup = Found(prof: Professional) | NotFound | BadId

  /** `value or None`. */
  function OrNone(s: string): (r: Option<string>)
    ensures r.None? <==> s == ""
    ensures r.Some? ==> r.value == s
  {
    if s == "" then None else Some(s)
  }

  /** `value or default`. */
  function OrDefault(s: string, default: string): (r: string)
    ensures s != "" ==> r == s
    ensures s == "" ==> r == default
  {
    if s == "" then default else s
  }

  /** Reading a stored `value or None` back with `or ''` gives the value again. */
  lemma OrNoneRoundTrip(s: string)
    ensures TextOrEmpty(FromColumn(OrNone(s))) == TextOrEmpty(Present(s))
  {
  }

  /** The posted intake form; `professional` is None when the key is absent. */
  datatype IntakeForm = IntakeForm(
    clientName: string,
    clientEmail: string,
    clientPhone: string,
    professional: Option<string>,
    intakeType: string,
    notes: string)

  datatype IntakeOutcome =
    | IntakeRejected(error: string)
    | IntakeCrashed
    | IntakeAccepted(entry: Store.CheckinEntry, data: CheckinData, due: ValidDate, prof: Professional)

  predicate MissingRequired(name: string, professional: Option<string>) {
    Strip(name) == "" || professional.None? || professional.value == ""
  }

  /** `desk_intake` on a POST. A blank client name or no professional is refused with its
      message before anything else; an unknown professional is refused with its message; a
      professional id that is not a number, or a due date past year 9999, raises.
      Otherwise the row to insert holds the stripped inputs, blanks as None and non-blanks
      as their stripped text, with the intake type defaulted to 'Drop-off'; the due date is
      `intakeDays` after today; and the record dict holds the stripped inputs as given
      (blanks as ''), created at the request's own `utcnow()` reading. */
  function DeskIntake(
    form: IntakeForm,
    lookup: string -> Lookup,
    today: ValidDate,
    intakeDays: nat,
    id: Store.Id,
    utcNow: Store.Instant): (r: IntakeOutcome)
    ensures MissingRequired(form.clientName, form.professional) <==> r == IntakeRejected(MissingFieldsError)
    ensures r.IntakeRejected? ==> r.error == MissingFieldsError || lookup(form.professional.value).NotFound?
    ensures r.IntakeCrashed? ==> lookup(form.professional.value).BadId? || AddDays(today, intakeDays).None?
    ensures !MissingRequired(form.clientName, form.professional) ==>
      && (lookup(form.professional.value).NotFound? <==> r == IntakeRejected(UnknownProfessionalError))
      && (lookup(form.professional.value).BadId? ==> r.IntakeCrashed?)
      && (lookup(form.professional.value).Found? ==> (r.IntakeCrashed? <==> AddDays(today, intakeDays).None?))
    ensures r.IntakeAccepted? ==>
      var e := r.entry;
      && form.professional.Some? && lookup(form.professional.value) == Found(r.prof)
      && e.clientName == Strip(form.clientName) && e.clientName != ""
      && e.professional == r.prof.name && e.professionalId == Some(r.prof.id)
      && (e.clientEmail.None? <==> Strip(form.clientEmail) == "")
      && (e.clientPhone.None? <==> Strip(form.clientPhone) == "")
      && (e.notes.None? <==> Strip(form.notes) == "")
      && (e.clientEmail.Some? ==> e.clientEmail.value == Strip(form.clientEmail))
      && (e.clientPhone.Some? ==> e.clientPhone.value == Strip(form.clientPhone))
      && (e.notes.Some? ==> e.notes.value == Strip(form.notes))
      && (Strip(form.intakeType) == "" ==> e.intakeType == DefaultIntakeType)
      && (Strip(form.intakeType) != "" ==> e.intakeType == Strip(form.intakeType))
    ensures r.IntakeAccepted? ==>
      && AddDays(today, intakeDays) == Some(r.due)
      && Ordinal(r.due) == Ordinal(today) + intakeDays
    ensures r.IntakeAccepted? ==>
      && r.data.id == Present(id) && r.data.createdAt == Present(utcNow)
      && r.data.clientName == Present(r.entry.clientName)
      && r.data.professional == Present(r.prof.name)
      && r.data.clientEmail == Present(Strip(form.clientEmail))
      && r.data.clientPhone == Present(Strip(form.clientPhone))
      && r.data.notes == Present(Strip(form.notes))
      && r.data.intakeType == Present(r.entry.intakeType)
      && r.data.dueDate.Missing?
  {
    var name := Strip(form.clientName);
    var email := Strip(form.clientEmail);
    var phone := Strip(form.clientPhone);
    var intakeType := Strip(form.intakeType);
    var notes := Strip(form.notes);
    AddDaysOrdinal(today, intakeDays);
    if MissingRequired(form.clientName, form.professional) then IntakeRejected(MissingFieldsError)
    else match lookup(form.professional.value)
      case BadId => IntakeCrashed
      case NotFound => IntakeRejected(UnknownProfessionalError)
      case Found(prof) =>
        match AddDays(today, intakeDays)
        case None => IntakeCrashed
        case Some(due) =>
          var kind := OrDefault(intakeType, DefaultIntakeType);
          var entry := Store.CheckinEntry(name, prof.name, Some(prof.id), OrNone(email), OrNone(phone), kind, OrNone(notes));
          var data := CheckinData(Present(id), Present(utcNow), Present(name), Present(email), Present(phone),
                                  Present(prof.name), Present(kind), Present(notes), Missing);
          IntakeAccepted(entry, data, due, prof)
  }

  /** The desk intake is announced on Slack only for the one notified professional, and
      only when the calendar attachment can be built: `build_due_date_ics` raises on a
      due date of 9999-12-31, whose next day overflows, before the Slack call is reached. */
  function IntakeAnnouncement(webhook: Option<string>, form: IntakeForm, accepted: IntakeOutcome)
    : (r: Option<seq<string>>)
    requires accepted.IntakeAccepted?
    ensures r.Some? <==>
      && accepted.prof.name == Slack.NotifiedProfessional
      && Slack.Filled(webhook)
      && NextDay(accepted.due).Some?
    ensures r.Some? ==> |r.value| >= 1 && r.value[0] == Slack.Headline(accepted.entry.clientName, accepted.entry.intakeType)
  {
    if NextDay(accepted.due).None? then None
    else if accepted.prof.name == Slack.NotifiedProfessional then
      Slack.SlackLines(webhook, accepted.entry.clientName, accepted.entry.intakeType,
                       Some(Strip(form.clientEmail)), Some(Strip(form.clientPhone)), Some(Strip(form.notes)))
    else None
  }

  /** The Zapier payload sent right after a desk intake and the one a later retry builds
      from the stored row agree on every column except two. DueDate: the first carries the
      due date, which the retry cannot, since the due date is not a column. TimestampLocal:
      each is rendered from its own `created_at`, which for the first is the request's
      `utcnow()` and for the retry the row's `NOW()`, two separate clock readings. */
  lemma {:induction false} IntakePayloadsAgree(
    form: IntakeForm,
    lookup: string -> Lookup,
    today: ValidDate,
    intakeDays: nat,
    id: Store.Id,
    utcNow: Store.Instant,
    dbNow: Store.Instant,
    t: Store.Table<Store.CheckinFields>,
    sentStamp: string,
    retryStamp: string)
    requires DeskIntake(form, lookup, today, intakeDays, id, utcNow).IntakeAccepted?
    requires Store.FreeId(t, id)
    ensures var r := DeskIntake(form, lookup, today, intakeDays, id, utcNow);
      var row := Store.InsertCheckin(t, id, r.entry, dbNow).value[|t|];
      var sent := InlineSync.WithDueDate(r.data, Some(When(OnDay(r.due))));
      var stored := CheckinDataOfRow(row);
      var inline := ExcelSync.CheckinPayloadOf(sent, sentStamp);
      var retry := ExcelSync.CheckinPayloadOf(stored, retryStamp);
      && CreatedAtArg(sent.createdAt) == Some(utcNow)
      && CreatedAtArg(stored.createdAt) == Some(dbNow)
      && inline.(dueDate := retry.dueDate, timestampLocal := retry.timestampLocal) == retry
      && ParseIso(inline.dueDate) == Some(r.due)
      && retry.dueDate == ""
  {
    var r := DeskIntake(form, lookup, today, intakeDays, id, utcNow);
    var row := Store.InsertCheckin(t, id, r.entry, dbNow).value[|t|];
    OrNoneRoundTrip(Strip(form.clientEmail));
    OrNoneRoundTrip(Strip(form.clientPhone));
    OrNoneRoundTrip(Strip(form.notes));
    assert row.data.entry == r.entry && row.id == id && row.createdAt == dbNow;
  }

  /** The posted mail form. */
  datatype MailForm = MailForm(
    clientName: string,
    professional: Option<string>,
    itemType: string,
    delivery: string,
    trackingNumber: string,
    sentBy: string,
    notes: string)

  datatype MailOutcome =
    | MailRejected(error: string)
    | MailCrashed
    | MailAccepted(entry: Store.MailEntry, data: MailData, prof: Professional)

  /** `desk_mail` on a POST: the same required fields and lookup as the intake screen,
      refused with the same messages; the row to insert defaults the item type to 'Other'
      and the delivery method to 'USPS', and stores a blank tracking number, sender or
      notes as None and a non-blank one as its stripped text; the record dict holds the
      stripped inputs as given, created at the request's own `utcnow()` reading. */
  function DeskMail(form: MailForm, lookup: string -> Lookup, id: Store.Id, utcNow: Store.Instant): (r: MailOutcome)
    ensures MissingRequired(form.clientName, form.professional) <==> r == MailRejected(MissingFieldsError)
    ensures r.MailRejected? ==> r.error == MissingFieldsError || lookup(form.professional.value).NotFound?
    ensures r.MailCrashed? ==> lookup(form.professional.value).BadId?
    ensures !MissingRequired(form.clientName, form.professional) ==>
      && (lookup(form.professional.value).NotFound? <==> r == MailRejected(UnknownProfessionalError))
      && (lookup(form.professional.value).BadId? <==> r.MailCrashed?)
      && (lookup(form.professional.value).Found? <==> r.MailAccepted?)
    ensures r.MailAccepted? ==>
      var e := r.entry;
      && form.professional.Some? && lookup(form.professional.value) == Found(r.prof)
      && e.clientName == Strip(form.clientName) && e.clientName != ""
      && e.professionalId == r.prof.id && e.professionalName == Some(r.prof.name)
      && (Strip(form.itemType) == "" ==> e.itemType == DefaultItemType)
      && (Strip(form.itemType) != "" ==> e.itemType == Strip(form.itemType))
      && (Strip(form.delivery) == "" ==> e.delivery == DefaultDelivery)
      && (Strip(form.delivery) != "" ==> e.delivery == Strip(form.delivery))
      && (e.trackingNumber.None? <==> Strip(form.trackingNumber) == "")
      && (e.sentBy.None? <==> Strip(form.sentBy) == "")
      && (e.notes.None? <==> Strip(form.notes) == "")
      && (e.trackingNumber.Some? ==> e.trackingNumber.value == Strip(form.trackingNumber))
      && (e.sentBy.Some? ==> e.sentBy.value == Strip(form.sentBy))
      && (e.notes.Some? ==> e.notes.value == Strip(form.notes))
    ensures r.MailAccepted? ==>
      && r.data.id == Present(id) && r.data.createdAt == Present(utcNow)
      && r.data.clientName == Present(r.entry.clientName)
      && r.data.professionalName == Present(r.prof.name)
      && r.data.itemType == Present(r.entry.itemType)
      && r.data.delivery == Present(r.entry.delivery)
      && r.data.trackingNumber == Present(Strip(form.trackingNumber))
      && r.data.sentBy == Present(Strip(form.sentBy))
      && r.data.notes == Present(Strip(form.notes))
  {
    var name := Strip(form.clientName);
    var itemType := Strip(form.itemType);
    var delivery := Strip(form.delivery);
    var tracking := Strip(form.trackingNumber);
    var sentBy := Strip(form.sentBy);
    var notes := Strip(form.notes);
    if MissingRequired(form.clientName, form.professional) then MailRejected(MissingFieldsError)
    else match lookup(form.professional.value)
      case BadId => MailCrashed
      case NotFound => MailRejected(UnknownProfessionalError)
      case Found(prof) =>
        var kind := OrDefault(itemType, DefaultItemType);
        var how := OrDefault(delivery, DefaultDelivery);
        var entry := Store.MailEntry(name, prof.id, Some(prof.name), kind, how, OrNone(tracking), OrNone(sentBy), OrNone(notes));
        var data := MailData(Present(id), Present(utcNow), Present(name), Present(prof.name), Present(kind),
                             Present(how), Present(tracking), Present(sentBy), Present(notes));
        MailAccepted(entry, data, prof)
  }

  /** The Zapier payload sent right after a desk mail entry and the one a later retry
      builds from the stored row agree on every column except DateSent, which each renders
      from its own `created_at`: the request's `utcnow()` for the first, the row's `NOW()`
      for the retry. They agree on it too whenever the two readings fall on the same
      local date. */
  lemma {:induction false} MailPayloadsAgree(
    form: MailForm,
    lookup: string -> Lookup,
    id: Store.Id,
    utcNow: Store.Instant,
    dbNow: Store.Instant,
    t: Store.Table<Store.MailEntry>,
    sentDate: string,
    retryDate: string)
    requires DeskMail(form, lookup, id, utcNow).MailAccepted?
    requires Store.FreeId(t, id)
    ensures var r := DeskMail(form, lookup, id, utcNow);
      var row := Store.InsertMail(t, id, r.entry, dbNow).value[|t|];
      var stored := MailDataOfRow(row);
      var inline := ExcelSync.MailPayloadOf(r.data, sentDate);
      var retry := ExcelSync.MailPayloadOf(stored, retryDate);
      && CreatedAtArg(r.data.createdAt) == Some(utcNow)
      && CreatedAtArg(stored.createdAt) == Some(dbNow)
      && inline.(dateSent := retry.dateSent) == retry
      && (sentDate == retryDate ==> inline == retry)
  {
    var r := DeskMail(form, lookup, id, utcNow);
    var row := Store.InsertMail(t, id, r.entry, dbNow).value[|t|];
    OrNoneRoundTrip(Strip(form.trackingNumber));
    OrNoneRoundTrip(Strip(form.sentBy));
    OrNoneRoundTrip(Strip(form.notes));
    assert row.data == r.entry && row.id == id && row.createdAt == dbNow;
  }
}
