/** The record dicts the sync functions of excel_sync.py and sheets_sync.py receive, read
    with `dict.get`, and the conversions they share: `str(get('id', ''))`, `get(k, '') or ''`
    and the due-date formatting. */
module SyncData {
  import opened Nullable
  import opened Calendar
  import Store

  /** One key of a Python dict: missing, present with None, or present with a value. */
  datatype Field<T> = Missing | Null | Present(value: T)

  /** `d.get(key, default)`: None when the key is present with None. */
  function GetOr<T>(f: Field<T>, default: T): (r: Option<T>)
    ensures r.None? <==> f.Null?
    ensures f.Missing? ==> r == Some(default)
    ensures f.Present? ==> r == Some(f.value)
  {
    match f
    case Missing => Some(default)
    case Null => None
    case Present(v) => Some(v)
  }

  /** `d.get(key, '') or ''`: missing, None and empty all become the empty string; a
      non-empty value is kept. */
  function TextOrEmpty(f: Field<string>): (r: string)
    ensures r == "" <==> (f.Missing? || f.Null? || f.value == "")
    ensures r != "" ==> f == Present(r)
  {
    match f
    case Present(v) => v
    case _ => ""
  }

  /** `str(d.get('id', ''))`: a missing id gives '', an id present with None gives 'None'. */
  function EventId(f: Field<string>): string
  {
    match f
    case Missing => ""
    case Null => "None"
    case Present(v) => v
  }

  /** A column read back from the store: NULL becomes a key present with None. */
  function FromColumn<T>(o: Option<T>): (f: Field<T>)
    ensures !f.Missing?
    ensures f.Null? <==> o.None?
    ensures f.Present? ==> o == Some(f.value)
  {
    match o
    case None => Null
    case Some(v) => Present(v)
  }

  /** The due-date handling of both sync functions: a `datetime` is formatted
      `%Y-%m-%d`, a `date` by `isoformat()`, any other truthy value is sent as is, and a
      missing or falsy value becomes ''. */
  function FormatDueDate(f: Field<DueValue>): (r: string)
    ensures (f.Missing? || f.Null? || !Truthy(f.value)) ==> r == ""
    ensures f.Present? && f.value.When? ==> ParseIso(r) == Some(f.value.moment.date)
    ensures f.Present? && f.value.Plain? ==> r == f.value.text
  {
    match f
    case Present(When(m)) => IsoRoundTrip(m.date); FormatIso(m.date)
    case Present(Plain(s)) => s
    case _ => ""
  }

  /** The keys of a check-in dict the sync functions read. */
  datatype CheckinData = CheckinData(
    id: Field<Store.Id>,
    createdAt: Field<Store.Instant>,
    clientName: Field<string>,
    clientEmail: Field<string>,
    clientPhone: Field<string>,
    professional: Field<string>,
    intakeType: Field<string>,
    notes: Field<string>,
    dueDate: Field<DueValue>)

  /** The keys of a mail dict the sync functions read. */
  datatype MailData = MailData(
    id: Field<Store.Id>,
    createdAt: Field<Store.Instant>,
    clientName: Field<string>,
    professionalName: Field<string>,
    itemType: Field<string>,
    delivery: Field<string>,
    trackingNumber: Field<string>,
    sentBy: Field<string>,
    notes: Field<string>)

  /** What `_get_local_timestamp` or `_get_local_date` make of `created_at`: the local
      text, or the `str()` of the exception they raise (`pytz.timezone` on an unknown
      TIMEZONE raises on every call). */
  datatype LocalText = Rendered(text: string) | RenderFailed(reason: string)

  /** `created_at` as `_get_local_*` receives it: None when missing or None. */
  function CreatedAtArg(f: Field<Store.Instant>): Option<Store.Instant>
  {
    if f.Present? then Some(f.value) else None
  }

  /** `dict(row)` of a `checkin_events` row: every column is present (NULL as None) and
      there is no `due_date` key. */
  function CheckinDataOfRow(row: Store.Row<Store.CheckinFields>): (d: CheckinData)
    ensures d.id == Present(row.id) && d.createdAt == Present(row.createdAt)
    ensures d.dueDate.Missing?
    ensures var e := row.data.entry;
      && d.clientName == Present(e.clientName)
      && d.professional == Present(e.professional)
      && d.intakeType == Present(e.intakeType)
    ensures var e := row.data.entry;
      && d.clientEmail == FromColumn(e.clientEmail)
      && d.clientPhone == FromColumn(e.clientPhone)
      && d.notes == FromColumn(e.notes)
  {
    var e := row.data.entry;
    CheckinData(Present(row.id), Present(row.createdAt), Present(e.clientName),
                FromColumn(e.clientEmail), FromColumn(e.clientPhone), Present(e.professional),
                Present(e.intakeType), FromColumn(e.notes), Missing)
  }

  /** `dict(row)` of a `mail_log` row. */
  function MailDataOfRow(row: Store.Row<Store.MailEntry>): (d: MailData)
    ensures d.id == Present(row.id) && d.createdAt == Present(row.createdAt)
    ensures var e := row.data;
      && d.clientName == Present(e.clientName)
      && d.professionalName == FromColumn(e.professionalName)
      && d.itemType == Present(e.itemType)
      && d.delivery == Present(e.delivery)
    ensures var e := row.data;
      && d.trackingNumber == FromColumn(e.trackingNumber)
      && d.sentBy == FromColumn(e.sentBy)
      && d.notes == FromColumn(e.notes)
  {
    var e := row.data;
    MailData(Present(row.id), Present(row.createdAt), Present(e.clientName),
             FromColumn(e.professionalName), Present(e.itemType), Present(e.delivery),
             FromColumn(e.trackingNumber), FromColumn(e.sentBy), FromColumn(e.notes))
  }

  /** What both sync functions return: `(True, None)` or `(False, error)`. */
  datatype SyncResult = SyncResult(success: bool, error: Option<string>)

  /** A sync call's result and the request it made, if it made one. */
  datatype Delivery<P> = Delivery(result: SyncResult, sent: Option<P>)

  /** The result as the callers see it: a returned pair. */
  function AsAttempt(r: SyncResult): (a: Store.Attempt)
    ensures Store.Succeeded(a) <==> r.success
    ensures (r.success <==> r.error.None?) ==> Store.Explained(a)
  {
    Store.Returned(r.success, r.error)
  }
}
