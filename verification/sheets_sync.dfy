/** sheets_sync.py: the direct Google Sheets client. Builds the row of a check-in or mail
    record in header order and appends it to its worksheet tab. Opening the spreadsheet
    and `append_row` together are the oracle `append(tab, row)`; the local-time rendering
    of `created_at` is the oracle `stamp` (or `localDate`), which may fail. */
module SheetsSync {
  import opened Nullable
  import opened Calendar
  import opened SyncData
  import ExcelSync
  import Store

  const CheckinTab := "Check-Ins"
  const MailTab := "Mail Log"
  const NotConfigured := "Google Sheets not configured"
  const ApiErrorPrefix := "Google Sheets API error: "
  const UnexpectedPrefix := "Unexpected error: "

  /** A row as gspread sends it; None where Python holds None. */
  type SheetRow = seq<Option<string>>

  /** How opening the worksheet and appending ended. */
  datatype AppendOutcome = Appended | ApiError(reason: string) | Failed(reason: string)

  /** The check-in row, given the local rendering of `created_at`: ten cells in header
      order, 'Not started' in the Status cell, email, phone and notes never None. */
  function CheckinRow(d: CheckinData, timestamp: string): (row: SheetRow)
    ensures |row| == 10
    ensures row[8] == Some(ExcelSync.NotStarted)
    ensures row[3].Some? && row[4].Some? && row[9].Some?
    ensures (row[3] == Some("")) <==> (d.clientEmail.Missing? || d.clientEmail.Null? || d.clientEmail.value == "")
    ensures d.dueDate.Present? && d.dueDate.value.When? ==> row[7].Some? && ParseIso(row[7].value) == Some(d.dueDate.value.moment.date)
    ensures !(d.dueDate.Present? && Truthy(d.dueDate.value)) ==> row[7] == Some("")
  {
    [ Some(EventId(d.id)),
      Some(timestamp),
      GetOr(d.clientName, ""),
      Some(TextOrEmpty(d.clientEmail)),
      Some(TextOrEmpty(d.clientPhone)),
      GetOr(d.professional, ""),
      GetOr(d.intakeType, ExcelSync.DefaultIntakeType),
      Some(FormatDueDate(d.dueDate)),
      Some(ExcelSync.NotStarted),
      Some(TextOrEmpty(d.notes)) ]
  }

  /** The mail row: nine cells in header order; tracking number, sent-by and notes never None. */
  function MailRow(d: MailData, dateSent: string): (row: SheetRow)
    ensures |row| == 9
    ensures row[6].Some? && row[7].Some? && row[8].Some?
    ensures (row[6] == Some("")) <==> (d.trackingNumber.Missing? || d.trackingNumber.Null? || d.trackingNumber.value == "")
  {
    [ Some(EventId(d.id)),
      Some(dateSent),
      GetOr(d.clientName, ""),
      GetOr(d.professionalName, ""),
      GetOr(d.itemType, ""),
      GetOr(d.delivery, ""),
      Some(TextOrEmpty(d.trackingNumber)),
      Some(TextOrEmpty(d.sentBy)),
      Some(TextOrEmpty(d.notes)) ]
  }

  /** The sheet row carries exactly the webhook payload's values, column for column. */
  lemma CheckinRowMatchesPayload(d: CheckinData, timestamp: string)
    ensures CheckinRow(d, timestamp) == ExcelSync.CheckinValues(ExcelSync.CheckinPayloadOf(d, timestamp))
  {
  }

  lemma MailRowMatchesPayload(d: MailData, dateSent: string)
    ensures MailRow(d, dateSent) == ExcelSync.MailValues(ExcelSync.MailPayloadOf(d, dateSent))
  {
  }

  predicate Configured(sheetId: string, credentials: string) {
    sheetId != "" && credentials != ""
  }

  function ClassifyAppend(o: AppendOutcome): (r: SyncResult)
    ensures r.success <==> o.Appended?
    ensures r.success <==> r.error.None?
    ensures o.ApiError? ==> r.error == Some(ApiErrorPrefix + o.reason)
    ensures o.Failed? ==> r.error == Some(UnexpectedPrefix + o.reason)
  {
    match o
    case Appended => SyncResult(true, None)
    case ApiError(reason) => SyncResult(false, Some(ApiErrorPrefix + reason))
    case Failed(reason) => SyncResult(false, Some(UnexpectedPrefix + reason))
  }

  /** `sync_checkin_to_sheets`: unconfigured (sheet id or credentials empty) gives
      `(False, 'Google Sheets not configured')` and appends nothing; when rendering
      `created_at` raises, nothing is appended and the result is the 'Unexpected error' of
      that exception; otherwise the row is appended to 'Check-Ins' and the result is
      success exactly when the append went through, and its API or other error if not. */
  function SyncCheckinToSheets(
    sheetId: string,
    credentials: string,
    d: CheckinData,
    stamp: Option<Store.Instant> -> LocalText,
    append: (string, SheetRow) -> AppendOutcome): (r: Delivery<(string, SheetRow)>)
    ensures !Configured(sheetId, credentials) ==> r == Delivery(SyncResult(false, Some(NotConfigured)), None)
    ensures Configured(sheetId, credentials) && stamp(CreatedAtArg(d.createdAt)).RenderFailed? ==>
      r == Delivery(SyncResult(false, Some(UnexpectedPrefix + stamp(CreatedAtArg(d.createdAt)).reason)), None)
    ensures Configured(sheetId, credentials) && stamp(CreatedAtArg(d.createdAt)).Rendered? ==>
      && r.sent == Some((CheckinTab, CheckinRow(d, stamp(CreatedAtArg(d.createdAt)).text)))
      && r.result == ClassifyAppend(append(CheckinTab, r.sent.value.1))
    ensures r.result.success <==> r.sent.Some? && append(CheckinTab, r.sent.value.1).Appended?
    ensures r.result.success <==> r.result.error.None?
  {
    if !Configured(sheetId, credentials) then Delivery(SyncResult(false, Some(NotConfigured)), None)
    else match stamp(CreatedAtArg(d.createdAt))
      case RenderFailed(reason) => Delivery(ClassifyAppend(Failed(reason)), None)
      case Rendered(timestamp) =>
        var row := CheckinRow(d, timestamp);
        Delivery(ClassifyAppend(append(CheckinTab, row)), Some((CheckinTab, row)))
  }

  /** `sync_mail_to_sheets`, the same contract for the 'Mail Log' tab. */
  function SyncMailToSheets(
    sheetId: string,
    credentials: string,
    d: MailData,
    localDate: Option<Store.Instant> -> LocalText,
    append: (string, SheetRow) -> AppendOutcome): (r: Delivery<(string, SheetRow)>)
    ensures !Configured(sheetId, credentials) ==> r == Delivery(SyncResult(false, Some(NotConfigured)), None)
    ensures Configured(sheetId, credentials) && localDate(CreatedAtArg(d.createdAt)).RenderFailed? ==>
      r == Delivery(SyncResult(false, Some(UnexpectedPrefix + localDate(CreatedAtArg(d.createdAt)).reason)), None)
    ensures Configured(sheetId, credentials) && localDate(CreatedAtArg(d.createdAt)).Rendered? ==>
      && r.sent == Some((MailTab, MailRow(d, localDate(CreatedAtArg(d.createdAt)).text)))
      && r.result == ClassifyAppend(append(MailTab, r.sent.value.1))
    ensures r.result.success <==> r.sent.Some? && append(MailTab, r.sent.value.1).Appended?
    ensures r.result.success <==> r.result.error.None?
  {
    if !Configured(sheetId, credentials) then Delivery(SyncResult(false, Some(NotConfigured)), None)
    else match localDate(CreatedAtArg(d.createdAt))
      case RenderFailed(reason) => Delivery(ClassifyAppend(Failed(reason)), None)
      case Rendered(date) =>
        var row := MailRow(d, date);
        Delivery(ClassifyAppend(append(MailTab, row)), Some((MailTab, row)))
  }
}
