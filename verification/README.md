# Sherpa Check-In: sync bookkeeping in Dafny

Sherpa Check-In is a small Flask service for a tax office. It records client check-ins
and outbound mail in Postgres and copies each record to a spreadsheet, either through a
Zapier webhook or through the Google Sheets API. Every row carries a sync envelope: a
status that starts at `pending`, the last error, and the time of the last successful
write. A background worker retries the rows that are still `pending` or `failed`.

This project models that bookkeeping as pure functions and short loops over sequences,
and proves what the code promises about it:

- `store.dfy` (db.py): inserts, the status update, `mark_handled`, the e-mail status,
  and the pending query (filter, oldest first, at most 100).
- `sync_data.dfy` and `excel_sync.dfy` (excel_sync.py): the record dicts, the webhook
  payloads, and the classification of the HTTP outcome.
- `sheets_sync.dfy` (sheets_sync.py): the sheet rows and the classification of the
  append outcome.
- `worker.dfy` (worker.py): the retry loops and one cycle of the worker.
- `inline_sync.dfy`, `mailer.dfy`, `slack.dfy` and `desk_forms.dfy` (app.py): the inline
  sync, the SMTP attempt loop, the calendar attachment, the Slack message, and the desk
  forms' defaulting.
- `workbook.dfy` (excel_utils.py): keeping the local workbook's two sheets and their
  headers, and appending rows.
- `text.dfy`, `calendar.dfy` and `nullable.dfy`: the Python string, integer and date
  behaviour the rest relies on.

## Modelling notes

- Tables are sequences of rows, so the pending query has an order to return. A row is
  generic over its non-sync columns.
- Oracles stand in for I/O: every HTTP POST, gspread append, SMTP attempt, professional
  lookup and clock reading is a function-valued parameter. Rendering the creation time
  in local time is one too; it returns the text, or the exception it raised.
- A Python dict read with `.get` is modelled key by key as `Missing`, `Null` (present
  with None) or `Present(value)`. So `.get(k, '')` on a key that is present with None
  gives None, as it does in Python.
- Exceptions become values: `Raised(message)` for a failing sync call, `IntakeCrashed`
  for a failing form handler, and `None` where `timedelta` arithmetic overflows.
- A failed row is expected to carry an error, and `success` is expected never to revert.
  The code enforces neither: `update_*_excel_status` stores any status and error it is
  given. The model follows the code. `Store.UpdateKeepsConsistent` and
  `Worker.CycleKeepsConsistent` prove the envelope invariant under the conditions the
  callers actually meet.

## Model

| member | source | states |
|---|---|---|
| Store.Insert | db.py:122-134 | a new row starts `pending` with no error and no written-at time; a duplicate primary key is rejected; earlier rows are unchanged; ids stay unique |
| Store.InsertCheckin | db.py:112-134 | an inserted check-in keeps its arguments and has the fresh envelope, or the insert fails on a taken id |
| Store.InsertMail | db.py:269-292 | the same for a mail row |
| Store.UpdateSyncStatus | db.py:178-196 | only rows with the id change, and only their envelope; `success` clears the error and stamps the time; any other status stores exactly that status and error and keeps the written-at time (db.py:306-324 is the same for mail) |
| Store.UnknownIdUnchanged | db.py:184-194 | an update for an id no row has changes nothing |
| Store.SuccessIdempotent | db.py:182-188 | recording success twice equals recording it once at the later time, whatever error arguments were passed |
| Store.MarkHandled | db.py:156-164 | sets `handled` on the matching row only; the envelope and the other columns are untouched |
| Store.UpdateCheckinEmailStatus | db.py:167-175 | sets the e-mail columns of the matching row; the envelope is untouched |
| Store.UpdateKeepsConsistent | db.py:178-196 | a success, or a failure that carries an error, recorded no earlier than creation keeps every envelope consistent |
| Store.RecordAttempt | worker.py:48-59 | the row becomes `success` exactly when the sync returned success; otherwise it becomes `failed` with the returned error or the exception text |
| Store.Eligible | db.py:204-205 | keeps exactly the `pending` and `failed` rows of the table |
| Store.SortByAge | db.py:206 | orders the rows by creation time, keeping every row |
| Store.PendingRows | db.py:199-209 | at most 100 rows, each from the table, each `pending` or `failed`, in ascending creation order |
| Store.PendingCount | db.py:206-207 | returns every eligible row when there are at most 100, otherwise exactly 100 |
| Store.PendingOldestPrefix | db.py:204-207 | no eligible row left out is older than a returned row; with at most 100 eligible rows, none is left out |
| Store.PendingUnique | db.py:199-209 | with unique ids, the query returns each row at most once |
| Store.PendingNeverSucceeded | db.py:205 | the query never returns a `success` row |
| SyncData.TextOrEmpty | excel_sync.py:79-80 | `get(k, '') or ''` is empty exactly when the key is missing, None or empty, and never null |
| SyncData.FormatDueDate | excel_sync.py:67-72 | a date or datetime is written `YYYY-MM-DD` and reads back as its date; other truthy values pass through; absent or falsy values give '' |
| SyncData.CheckinDataOfRow | worker.py:49 | `dict(row)` holds every column under its key: id, created_at, client name, professional and intake type as stored; email, phone and notes with NULL as None; and no due date |
| SyncData.MailDataOfRow | worker.py:79 | `dict(row)` of a mail row holds all nine columns under their keys: id, created_at, client name, item type and method as stored; professional name, tracking number, sent-by and notes with NULL as None |
| SyncData.AsAttempt | worker.py:49-56 | a returned pair counts as success exactly when its flag is true, and it carries an error exactly when the pair does |
| ExcelSync.CheckinPayloadOf | excel_sync.py:75-86 | EventID is `str(id)`: the id, '' when absent, 'None' when None; ClientName, Professional and IntakeType are carried as given, null when None, '' when absent, except that an absent IntakeType is 'Appointment'; email, phone and notes are never null, are '' exactly when missing, None or empty, and are carried otherwise; Status is 'Not started'; a date due date reads back, other truthy text passes, and no due date gives '' |
| ExcelSync.MailPayloadOf | excel_sync.py:134-144 | EventID is `str(id)` as for check-ins; client name, professional, item type and method are carried as given, null when None, '' when absent; tracking number, sent-by and notes are never null, are '' exactly when missing, None or empty, and are carried otherwise; DateSent is the rendered local date |
| ExcelSync.Classify | excel_sync.py:96-115 | 200 is `(True, None)`; any other status, a timeout or a fault is `False` with a non-empty error; the error is None exactly on success |
| ExcelSync.RejectionNamesStatus | excel_sync.py:99-102 | a rejection message reads back the status code, and it ends with the first 200 characters of the body, or the whole body when shorter |
| ExcelSync.SyncCheckinToExcel | excel_sync.py:51-115 | without a webhook the result is `(False, 'Webhook URL not configured')` and nothing is posted; a local-time rendering that raises gives its 'Unexpected error' and nothing is posted; otherwise one POST of the payload, classified: success exactly on 200, else the rejection, timeout or request error |
| ExcelSync.SyncMailToExcel | excel_sync.py:118-173 | the same contract for mail records, with the local date |
| SheetsSync.CheckinRow | sheets_sync.py:114-125 | ten cells in the fixed order, 'Not started' in the Status cell, and email, phone and notes never null |
| SheetsSync.MailRow | sheets_sync.py:164-174 | nine cells in the fixed order, with tracking number, sent-by and notes never null |
| SheetsSync.CheckinRowMatchesPayload | sheets_sync.py:114-125 | the sheet row is the Zapier payload's values in column order |
| SheetsSync.MailRowMatchesPayload | sheets_sync.py:164-174 | the same for mail |
| SheetsSync.ClassifyAppend | sheets_sync.py:130-143 | an append is `(True, None)`; an API error gets the 'Google Sheets API error: ' prefix and any other fault 'Unexpected error: ' |
| SheetsSync.SyncCheckinToSheets | sheets_sync.py:88-143 | an empty sheet id or empty credentials give `(False, 'Google Sheets not configured')` with nothing appended; a local-time rendering that raises gives its 'Unexpected error' with nothing appended; otherwise the row is appended once and classified |
| SheetsSync.SyncMailToSheets | sheets_sync.py:146-192 | the same for mail |
| Worker.UpdatesForRecord | worker.py:50-58 | the reference updates record each fetched row's own attempt, at its own time |
| Worker.RecordOne | worker.py:48-58 | a success, a returned failure and an exception each become the one update that records that attempt for that row; `ok` holds exactly on success |
| Worker.FetchedRecorded | worker.py:46-59 | with distinct fetched ids, each fetched row ends holding its own attempt recorded at its own time, and every other row is unchanged |
| Worker.RecordedAttempt | db.py:178-196 | recording an attempt gives `success` exactly when it succeeded and `failed` otherwise; a success clears the error and sets the write time |
| Worker.SyncEach | worker.py:46-64 | the loop issues one update per fetched row, in fetch order, even after a failure or exception, and counts exactly the successes |
| Worker.RetryFailed | worker.py:37-64 | every fetched row gets exactly one update recording its own attempt; the result counts the successes; with nothing pending nothing changes and 0 is returned |
| Worker.ApplyAllEffect | worker.py:46-59 | with distinct ids, each update lands on its own row and rows without an update are unchanged |
| Worker.CycleRecordsEachFetched | worker.py:46-59 | after a retry pass, each fetched row is `success` exactly when its attempt succeeded and `failed` otherwise; every row not fetched is unchanged |
| Worker.CycleKeepsConsistent | worker.py:48-59 | a retry pass keeps every envelope consistent when failures carry errors and the clock is not behind creation |
| Worker.RunCycle | worker.py:101-110 | check-ins are retried before mail; a fetch error ends the cycle and keeps the updates already made; otherwise both counts are reported |
| InlineSync.WithDueDate | app.py:182-184 | the copy differs from the record only in its due date, which is set only when the given value is truthy |
| InlineSync.SyncCheckinAsync | app.py:179-192 | the row becomes `success` exactly on a successful sync; otherwise `failed` with the returned error or the exception text; other rows are unchanged |
| InlineSync.SyncMailAsync | app.py:195-205 | the same for mail rows |
| InlineSync.InlineCheckinThroughExcel | app.py:181-189 | through Zapier, no webhook records 'Webhook URL not configured' and a failed rendering records its 'Unexpected error'; otherwise the posted DueDate reads back as the due date and the row succeeds exactly on 200 |
| InlineSync.InlineMailThroughExcel | app.py:195-205 | the same three cases for a mail row, with the record posted as it was handed over |
| Mailer.SendEmail | app.py:135-176 | at most `max_retries + 1` attempts; every attempt before the last failed; success returns and a refusal re-raises at once; the last failure is re-raised only after attempt `max_retries`; a negative `max_retries` makes no attempt |
| Mailer.IcsLines | app.py:80-105 | twelve lines from VCALENDAR begin to end, with DTSTART and DTEND DATE values; none when the day after the due date overflows |
| Mailer.IcsAllDayWindow | app.py:89-99 | DTSTART reads back as the due date and DTEND as the next day, an exclusive all-day end |
| Slack.SlackLines | app.py:31-43 | nothing without a webhook; otherwise the headline comes first, then at most three more lines |
| Slack.SlackLinesPresence | app.py:37-43 | an Email, Phone or Notes line is present exactly when its value is non-empty, and then it carries that value |
| DeskForms.OrNoneRoundTrip | app.py:477-480 | a blank input stored as None reads back through `or ''` as the same text as the input itself |
| DeskForms.DeskIntake | app.py:444-494 | a blank name or missing professional is refused first, an unknown professional with its own message, and a non-numeric id or an overflowing due date raises; otherwise the row stores the stripped inputs, blanks as None and others as their text, the intake type defaults to 'Drop-off', and the due date is `intakeDays` ordinals after today; the record dict holds the stripped inputs and the request's clock reading |
| DeskForms.IntakeAnnouncement | app.py:514-526 | Slack is told only about intakes for the one notified professional, only when a webhook is set, and only when the calendar attachment built before it does not overflow |
| DeskForms.IntakePayloadsAgree | app.py:473-494 | the inline payload and a later retry's payload agree on every column except DueDate, which only the inline one carries, and TimestampLocal, which each renders from its own clock reading (`utcnow()` and the row's `NOW()`) |
| DeskForms.DeskMail | app.py:551-603 | same required fields and refusal messages; item type defaults to 'Other' and method to 'USPS'; tracking number, sender and notes are stored as None when blank and as their stripped text otherwise; the record dict holds the stripped inputs |
| DeskForms.MailPayloadsAgree | app.py:580-603 | the inline mail payload and a later retry's agree on every column except DateSent, rendered from two clock readings, and are equal when those fall on the same local date |
| Calendar.NextDay | app.py:90 | the day after is the immediate successor, and none exists only for 9999-12-31 |
| Calendar.AddDaysOrdinal | app.py:470 | `d + timedelta(days=n)` is the date whose `toordinal()` is n more than d's, and it overflows exactly when that would pass 9999-12-31 |
| Calendar.IsoRoundTrip | excel_sync.py:69-72 | the `YYYY-MM-DD` form of a date parses back to the same date |
| Calendar.CompactRoundTrip | app.py:89-90 | the `YYYYMMDD` form of a date parses back to the same date |
| Text.Take | excel_sync.py:100 | `text[:200]` is a prefix of at most 200 characters, and the whole text when it is shorter |
| Text.Strip | app.py:445-450 | `strip()` removes only whitespace from each end and leaves no whitespace at either end |
| Workbook.WithHeader | excel_utils.py:76-79 | unless A1 already holds the first header, the header goes into row 1 and every existing row moves down |
| Workbook.EnsureWorkbook | excel_utils.py:48-98 | both the Intake and MailLog sheets exist afterwards |
| Workbook.EnsureWorkbookAsWritten | excel_utils.py:63-98 | the code as written also leaves both sheets |
| Workbook.EnsureWorkbookShape | excel_utils.py:63-96 | titles stay unique; each target sheet has its header in row 1 above all its old rows; no default 'Sheet' remains; every other sheet is kept |
| Workbook.EnsuredIsFixed | excel_utils.py:64-96 | a workbook that already has both headed sheets and no default sheet is left unchanged |
| Workbook.EnsureWorkbookIdempotent | excel_utils.py:64-92 | ensuring twice is ensuring once |
| Workbook.AsWrittenMisplacesHeader | excel_utils.py:65-71 | as written, a lone non-empty default sheet gets its header below its data, and a second call changes the book again |
| Workbook.AsWrittenAgreesElsewhere | excel_utils.py:63-79 | outside that branch, the code as written and the corrected definition give the same book |
| Workbook.DueCell | excel_utils.py:130-135 | the DueDate cell is empty exactly when no due date is given |
| Workbook.IntakeRowAligned | excel_utils.py:137-149 | each of the 11 headers names its cell; CompletedDate is empty; email, phone and notes hold their text, or '' when it is None or empty |
| Workbook.MailRowAligned | excel_utils.py:182-192 | each of the 9 headers names its cell; tracking number, sent-by and notes hold their text, or '' when it is None or empty |
| Workbook.AppendTo | excel_utils.py:151 | exactly one sheet gains the row, at its end; every other sheet is unchanged |
| Workbook.AppendIntakeRowEffect | excel_utils.py:126-152 | with the corrected `_ensure_workbook`, the Intake sheet ends up as its header, its old rows, then the new row; MailLog and the other sheets are kept |
| Workbook.AppendMailRowEffect | excel_utils.py:179-195 | with the corrected `_ensure_workbook`, the MailLog sheet ends up as its header, its old rows, then the new row; Intake and the other sheets are kept |
| Workbook.AppendsAsWrittenAgree | excel_utils.py:126-195 | outside the lone-default-sheet branch both appends as written save exactly what the corrected ones do |
| Workbook.AppendsAsWrittenOnLoneSheet | excel_utils.py:126-152 | on a lone default sheet, as written, the Intake sheet holds the old rows, then the header, then an appended intake row, and a new MailLog sheet holds its header and any appended mail row |

## Left out

- Flask routing, templates, sessions, the admin password check, logo upload, the kiosk
  check-in route and the professional CRUD are web glue. They are not modelled, apart
  from the desk-form logic above.
- The admin "retry Excel" route can re-sync a row that is already `success` and turn it
  back to `failed`. That route is outside the model.
- The request's inline sync (app.py:494, app.py:603) and the separate worker process can
  both pick up the same just-inserted `pending` row. That posts it twice with one
  EventID. A slow inline failure (a 30-second timeout, say) recorded after the worker's
  success turns the row back to `failed`. Concurrency between the two processes is not
  modelled: each is modelled on its own.
- HTTP, gspread, SMTP and Postgres are oracles. Timeouts, TLS, login and connection
  handling are not modelled beyond the outcome each call reports.
- Local time-zone conversion (`_get_local_timestamp`, `_get_local_date`) is an oracle.
  The model does not compute offsets or daylight saving time. It does model that the
  conversion can raise, and what the sync functions then return.
- Sleeps, the exponential SMTP backoff (floating point) and the endless worker loop are
  not modelled. The worker is modelled one cycle at a time, with a clock reading per
  update.
- Worker.RunCycle: store faults are modelled only as an error from each pending fetch. A
  fault in the status update that the per-record handler then repeats is not modelled.
- InlineSync.SyncCheckinAsync: the status update in the `except` branch (app.py:191) is
  itself unguarded; a store fault there propagates out of the request and is not
  modelled. The same holds for InlineSync.SyncMailAsync (app.py:204).
- Store.PendingRows: rows with equal creation times may come back in any order, as SQL
  allows. The model proves the order is non-decreasing, not which tie-break is used.
- Store.Insert: the UUID comes from a parameter. The model does not generate it.
- Calendar.FormatIso: `strftime('%Y')` pads years below 1000 differently on some
  platforms. The model always writes four digits. Calendar.FormatCompact, the ICS
  `%Y%m%d` form (app.py:89-90), is modelled the same way.
- Workbook: openpyxl's append cursor, `max_row`, case-insensitive title clashes and
  cell types beyond text, numbers and dates are not modelled. The book is assumed to
  keep unique titles, as openpyxl does.
- Workbook.Opened: only `InvalidFileException` is caught (excel_utils.py:57). Any other
  load error, such as a corrupt archive or an unreadable path, propagates out of
  `_ensure_workbook`. The model gives None for it and models nothing downstream.
- Workbook.AppendIntakeRowEffect and Workbook.AppendMailRowEffect are stated for the
  appends with the corrected `_ensure_workbook`. For the code as written they hold
  outside the lone-default-sheet branch (Workbook.AppendsAsWrittenAgree). Inside it, the
  result is given exactly by Workbook.AppendsAsWrittenOnLoneSheet.
- DeskForms.DeskIntake: `int()` of the professional id and the database lookup are one
  oracle. The e-mail subject and body text are not modelled. A negative
  `DEFAULT_INTAKE_DAYS` is not modelled, because the day count is a `nat`.
- Mailer.SendEmail: the message building and attachment encoding are not modelled. A
  negative `SMTP_MAX_RETRIES` returns without any attempt, and the caller would record
  the e-mail as sent; this is modelled as written.
- Mailer.IcsLines: UID and DTSTAMP come from parameters (a random UUID and the UTC
  clock). Names containing newlines, which would break the iCalendar text, are passed
  through unchanged.
- Store.RecordAttempt: an exception with empty text is recorded as `failed` with an empty
  (but non-null) error, as in the code.

## Findings

| source | as written | input that shows it | evidently intended | confidence | as-written member | corrected member |
|---|---|---|---|---|---|---|
| excel_utils.py:65-71 | when the only sheet is the default 'Sheet', it is renamed to 'Intake' and the header is *appended* after whatever rows it already holds | a workbook file whose only sheet is 'Sheet' with one data row: row 1 stays the data row, the header lands in row 2, and the next call inserts a second header above; `append_intake_row` then leaves old rows, header, new row (Workbook.AppendsAsWrittenOnLoneSheet) | the header goes into row 1 above the existing rows, as the other branch does (excel_utils.py:76-79), so that ensuring is idempotent | medium, not executed | Workbook.AsWrittenMisplacesHeader | Workbook.EnsureWorkbookIdempotent |
