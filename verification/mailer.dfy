/** app.py: the attempt loop of `send_email` and the calendar attachment of
    `build_due_date_ics`. The SMTP session (connect, EHLO, STARTTLS, login, send) is one
    oracle call per attempt; the backoff sleeps are not modelled. */
module Mailer {
  import opened Nullable
  import opened Text
  import opened Calendar

  /** `SMTP_MAX_RETRIES` when unset. */
  const DefaultMaxRetries := 3

  /** How one attempt ended: the message went out, the server refused the recipients
      (`SMTPRecipientsRefused`), or any other exception. */
  datatype SmtpResult = Sent | RecipientsRefused(reason: string) | SmtpFailed(reason: string)

  /** How `send_email` ends: it returns, or it re-raises the refusal or the last failure. */
  datatype SendOutcome = Returned | RaisedRefused(reason: string) | RaisedFailure(reason: string)

  /** The attempt loop. `trySend(k)` is the result of attempt number k (from 0). At most
      `maxRetries + 1` attempts are made; every attempt before the last one failed with an
      ordinary error; a delivered message or refused recipients end the loop at once; the
      failure is re-raised only after attempt `maxRetries`. With a negative `maxRetries`
      no attempt is made and the function returns normally. */
  method SendEmail(maxRetries: int, trySend: nat -> SmtpResult) returns (outcome: SendOutcome, attempts: nat)
    ensures maxRetries < 0 ==> attempts == 0 && outcome == Returned
    ensures maxRetries >= 0 ==> 1 <= attempts <= maxRetries + 1
    ensures forall k :: 0 <= k < attempts - 1 ==> trySend(k).SmtpFailed?
    ensures maxRetries >= 0 ==> (outcome == Returned <==> trySend(attempts - 1) == Sent)
    ensures outcome.RaisedRefused? ==> trySend(attempts - 1) == RecipientsRefused(outcome.reason)
    ensures outcome.RaisedFailure? <==>
      (maxRetries >= 0 && attempts == maxRetries + 1 && trySend(maxRetries).SmtpFailed?)
    ensures outcome.RaisedFailure? ==> outcome.reason == trySend(maxRetries).reason
  {
    var attempt: nat := 0;
    while attempt <= maxRetries
      invariant attempt == 0 || attempt <= maxRetries
      invariant forall k :: 0 <= k < attempt ==> trySend(k).SmtpFailed?
      decreases maxRetries + 1 - attempt
    {
      match trySend(attempt) {
        case Sent =>
          return Returned, attempt + 1;
        case RecipientsRefused(reason) =>
          return RaisedRefused(reason), attempt + 1;
        case SmtpFailed(reason) =>
          attempt := attempt + 1;
          if attempt > maxRetries {
            return RaisedFailure(reason), attempt;
          }
      }
    }
    return Returned, 0;
  }

  const IcsDomain := "@thetaxshelter.com"
  const DtStartKey := "DTSTART;VALUE=DATE:"
  const DtEndKey := "DTEND;VALUE=DATE:"

  /** The lines of `build_due_date_ics` for a due date (a datetime is reduced to its date).
      `uid` is the random UUID text and `stamp` the formatted UTC time, both supplied by
      the caller. None where `due + timedelta(days=1)` overflows. */
  function IcsLines(clientName: string, intakeType: string, due: Moment, uid: string, stamp: string)
    : (r: Option<seq<string>>)
    ensures r.None? <==> due.date == LastDate
    ensures r.Some? ==> |r.value| == 12
    ensures r.Some? ==> r.value[0] == "BEGIN:VCALENDAR" && r.value[|r.value| - 1] == "END:VCALENDAR"
    ensures r.Some? ==> StartsWith(r.value[6], DtStartKey) && StartsWith(r.value[7], DtEndKey)
  {
    var day := due.date;
    match NextDay(day)
    case None => None
    case Some(next) =>
      Some([
        "BEGIN:VCALENDAR",
        "VERSION:2.0",
        "PRODID:-//The Tax Shelter//Sherpa Check-In//EN",
        "BEGIN:VEVENT",
        "UID:" + uid + IcsDomain,
        "DTSTAMP:" + stamp,
        DtStartKey + FormatCompact(day),
        DtEndKey + FormatCompact(next),
        "SUMMARY:Return due for " + clientName,
        "DESCRIPTION:" + intakeType + " intake for " + clientName + " is due.",
        "END:VEVENT",
        "END:VCALENDAR"])
  }

  /** The attachment text: the lines, each ended by a newline. */
  function IcsText(lines: seq<string>): string
  {
    Join(lines, "\n") + "\n"
  }

  /** The event is an all-day event on the due date: DTSTART reads back as the due date
      and DTEND as the day right after it, so the exclusive end of sections 3.6.1 and
      3.8.2.2 of RFC 5545 covers exactly the due date. */
  lemma {:induction false} IcsAllDayWindow(clientName: string, intakeType: string, due: Moment, uid: string, stamp: string)
    requires due.date != LastDate
    ensures var r := IcsLines(clientName, intakeType, due, uid, stamp);
      && r.Some?
      && ParseCompact(r.value[6][|DtStartKey|..]) == Some(due.date)
      && ParseCompact(r.value[7][|DtEndKey|..]).Some?
      && var end := ParseCompact(r.value[7][|DtEndKey|..]).value;
         && Before(due.date, end)
         && (forall e: ValidDate :: Before(due.date, e) ==> !Before(e, end))
  {
    var next := NextDay(due.date).value;
    var r := IcsLines(clientName, intakeType, due, uid, stamp).value;
    assert r[6][|DtStartKey|..] == FormatCompact(due.date);
    assert r[7][|DtEndKey|..] == FormatCompact(next);
    CompactRoundTrip(due.date);
    CompactRoundTrip(next);
  }
}
