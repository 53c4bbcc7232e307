/** app.py: `sync_checkin_async` and `sync_mail_async`, the best-effort sync made right
    after a row is inserted. The sync call is an oracle returning how the attempt ended;
    the status update is the store's. */
module InlineSync {
  import opened Nullable
  import opened Calendar
  import opened SyncData
  import Store
  import ExcelSync

  /** `data = dict(checkin_data); if due_date: data['due_date'] = due_date`: a copy with
      the due date set only when it is truthy. Nothing but the due date changes, and the
      caller's record (an immutable value here) is not touched. */
  function WithDueDate(d: CheckinData, due: Option<DueValue>): (r: CheckinData)
    ensures r.(dueDate := d.dueDate) == d
    ensures due.Some? && Truthy(due.value) ==> r.dueDate == Present(due.value)
    ensures !(due.Some? && Truthy(due.value)) ==> r == d
  {
    if due.Some? && Truthy(due.value) then d.(dueDate := Present(due.value)) else d
  }

  /** `sync_checkin_async`: the check-in row becomes 'success' exactly when the sync of
      the copied record succeeded, otherwise 'failed' with the returned error or the
      exception text; no other row changes. */
  function SyncCheckinAsync(
    t: Store.Table<Store.CheckinFields>,
    id: Store.Id,
    d: CheckinData,
    due: Option<DueValue>,
    sync: CheckinData -> Store.Attempt,
    now: Store.Instant): (r: Store.Table<Store.CheckinFields>)
    ensures |r| == |t|
    ensures forall i :: 0 <= i < |t| && t[i].id != id ==> r[i] == t[i]
    ensures forall i :: 0 <= i < |t| && t[i].id == id ==>
      var a := sync(WithDueDate(d, due));
      && r[i].data == t[i].data
      && (r[i].sync.status == Store.SUCCESS <==> Store.Succeeded(a))
      && (!Store.Succeeded(a) ==> r[i].sync.status == Store.FAILED)
      && (a.Returned? && !a.success ==> r[i].sync.lastError == a.error)
      && (a.Raised? ==> r[i].sync.lastError == Some(a.message))
  {
    Store.RecordAttempt(t, id, sync(WithDueDate(d, due)), now)
  }

  /** `sync_mail_async`: the same for a mail row, without a due date. */
  function SyncMailAsync(
    t: Store.Table<Store.MailEntry>,
    id: Store.Id,
    d: MailData,
    sync: MailData -> Store.Attempt,
    now: Store.Instant): (r: Store.Table<Store.MailEntry>)
    ensures |r| == |t|
    ensures forall i :: 0 <= i < |t| && t[i].id != id ==> r[i] == t[i]
    ensures forall i :: 0 <= i < |t| && t[i].id == id ==>
      var a := sync(d);
      && r[i].data == t[i].data
      && (r[i].sync.status == Store.SUCCESS <==> Store.Succeeded(a))
      && (!Store.Succeeded(a) ==> r[i].sync.status == Store.FAILED)
      && (a.Returned? && !a.success ==> r[i].sync.lastError == a.error)
      && (a.Raised? ==> r[i].sync.lastError == Some(a.message))
  {
    Store.RecordAttempt(t, id, sync(d), now)
  }

  /** The Zapier sync as the inline path sees it: its returned pair. */
  function ExcelCheckinAttempt(
    webhook: string,
    stamp: Option<Store.Instant> -> LocalText,
    post: (string, ExcelSync.CheckinPayload) -> ExcelSync.HttpOutcome): CheckinData -> Store.Attempt
  {
    d => AsAttempt(ExcelSync.SyncCheckinToExcel(webhook, d, stamp, post).result)
  }

  function ExcelMailAttempt(
    webhook: string,
    localDate: Option<Store.Instant> -> LocalText,
    post: (string, ExcelSync.MailPayload) -> ExcelSync.HttpOutcome): MailData -> Store.Attempt
  {
    d => AsAttempt(ExcelSync.SyncMailToExcel(webhook, d, localDate, post).result)
  }

  /** Inline check-in sync through Zapier: with no webhook the row is recorded as failed
      with 'Webhook URL not configured'; when the local time cannot be rendered it is
      recorded as failed with that error; otherwise the payload posted carries the given
      date as its DueDate, and the row is 'success' exactly when the POST answered 200. */
  lemma InlineCheckinThroughExcel(
    t: Store.Table<Store.CheckinFields>,
    id: Store.Id,
    d: CheckinData,
    due: ValidDate,
    webhook: string,
    stamp: Option<Store.Instant> -> LocalText,
    post: (string, ExcelSync.CheckinPayload) -> ExcelSync.HttpOutcome,
    now: Store.Instant,
    i: nat)
    requires i < |t| && t[i].id == id
    ensures var d' := WithDueDate(d, Some(When(OnDay(due))));
      var local := stamp(CreatedAtArg(d.createdAt));
      var r := SyncCheckinAsync(t, id, d, Some(When(OnDay(due))), ExcelCheckinAttempt(webhook, stamp, post), now);
      && (webhook == "" ==> r[i].sync.status == Store.FAILED && r[i].sync.lastError == Some(ExcelSync.NotConfigured))
      && (webhook != "" && local.RenderFailed? ==>
            r[i].sync.status == Store.FAILED && r[i].sync.lastError == Some("Unexpected error: " + local.reason))
      && (webhook != "" && local.Rendered? ==>
            var payload := ExcelSync.CheckinPayloadOf(d', local.text);
            && ParseIso(payload.dueDate) == Some(due)
            && (r[i].sync.status == Store.SUCCESS <==> ExcelSync.IsOk(post(webhook, payload))))
  {
  }

  /** Inline mail sync through Zapier: the same three cases, with the mail record posted
      exactly as it was handed over. */
  lemma InlineMailThroughExcel(
    t: Store.Table<Store.MailEntry>,
    id: Store.Id,
    d: MailData,
    webhook: string,
    localDate: Option<Store.Instant> -> LocalText,
    post: (string, ExcelSync.MailPayload) -> ExcelSync.HttpOutcome,
    now: Store.Instant,
    i: nat)
    requires i < |t| && t[i].id == id
    ensures var local := localDate(CreatedAtArg(d.createdAt));
      var r := SyncMailAsync(t, id, d, ExcelMailAttempt(webhook, localDate, post), now);
      && (webhook == "" ==> r[i].sync.status == Store.FAILED && r[i].sync.lastError == Some(ExcelSync.NotConfigured))
      && (webhook != "" && local.RenderFailed? ==>
            r[i].sync.status == Store.FAILED && r[i].sync.lastError == Some("Unexpected error: " + local.reason))
      && (webhook != "" && local.Rendered? ==>
            (r[i].sync.status == Store.SUCCESS <==> ExcelSync.IsOk(post(webhook, ExcelSync.MailPayloadOf(d, local.text)))))
  {
  }
}
