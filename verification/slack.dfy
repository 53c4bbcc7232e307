/** app.py: the message of `send_slack_notification`. The POST itself (five-second
    timeout, failures only logged) is not modelled; the function builds what would be
    posted, or nothing when no webhook is configured. */
module Slack {
  import opened Nullable
  import opened Text

  /** The one professional whose desk intakes are announced. */
  const NotifiedProfessional := "Ken Lill"

  const EmailLabel := "Email: "
  const PhoneLabel := "Phone: "
  const NotesLabel := "Notes: "

  /** Python truthiness of an optional string. */
  predicate Filled(v: Option<string>) {
    v.Some? && v.value != ""
  }

  function Headline(clientName: string, intakeType: string): string {
    ":wave: *" + clientName + "* just checked in (" + intakeType + ")"
  }

  function OptionalLine(tag: string, v: Option<string>): seq<string> {
    if Filled(v) then [tag + v.value] else []
  }

  /** The message lines: None when the webhook is unset or empty; otherwise the headline
      followed by an Email, a Phone and a Notes line, each present exactly when its value
      is non-empty. */
  function SlackLines(
    webhook: Option<string>,
    clientName: string,
    intakeType: string,
    email: Option<string>,
    phone: Option<string>,
    notes: Option<string>): (r: Option<seq<string>>)
    ensures r.None? <==> !Filled(webhook)
    ensures r.Some? ==> 1 <= |r.value| <= 4 && r.value[0] == Headline(clientName, intakeType)
  {
    if !Filled(webhook) then None
    else Some([Headline(clientName, intakeType)] + OptionalLine(EmailLabel, email)
              + OptionalLine(PhoneLabel, phone) + OptionalLine(NotesLabel, notes))
  }

  /** The text posted: the lines joined by newlines. */
  function SlackText(lines: seq<string>): string {
    Join(lines, "\n")
  }

  /** A line with one label never starts with another. */
  lemma LabelsDistinct(s: string)
    ensures StartsWith(PhoneLabel + s, EmailLabel) == false
    ensures StartsWith(NotesLabel + s, EmailLabel) == false
    ensures StartsWith(EmailLabel + s, PhoneLabel) == false
    ensures StartsWith(NotesLabel + s, PhoneLabel) == false
    ensures StartsWith(EmailLabel + s, NotesLabel) == false
    ensures StartsWith(PhoneLabel + s, NotesLabel) == false
  {
    assert (PhoneLabel + s)[0] == 'P' && (NotesLabel + s)[0] == 'N' && (EmailLabel + s)[0] == 'E';
  }

  /** A value's line is in the message exactly when the value is non-empty, and then it
      carries the value after its label. */
  lemma {:induction false} SlackLinesPresence(
    webhook: Option<string>,
    clientName: string,
    intakeType: string,
    email: Option<string>,
    phone: Option<string>,
    notes: Option<string>)
    requires Filled(webhook)
    ensures var lines := SlackLines(webhook, clientName, intakeType, email, phone, notes).value;
      && (Filled(email) <==> exists i :: 1 <= i < |lines| && StartsWith(lines[i], EmailLabel))
      && (Filled(phone) <==> exists i :: 1 <= i < |lines| && StartsWith(lines[i], PhoneLabel))
      && (Filled(notes) <==> exists i :: 1 <= i < |lines| && StartsWith(lines[i], NotesLabel))
      && (Filled(email) ==> EmailLabel + email.value in lines)
      && (Filled(phone) ==> PhoneLabel + phone.value in lines)
      && (Filled(notes) ==> NotesLabel + notes.value in lines)
      && |lines| == 1 + |OptionalLine(EmailLabel, email)| + |OptionalLine(PhoneLabel, phone)| + |OptionalLine(NotesLabel, notes)|
  {
    var e, p, n := OptionalLine(EmailLabel, email), OptionalLine(PhoneLabel, phone), OptionalLine(NotesLabel, notes);
    var lines := SlackLines(webhook, clientName, intakeType, email, phone, notes).value;
    assert lines == [Headline(clientName, intakeType)] + e + p + n;
    var tail := lines[1..];
    assert tail == e + p + n;
    if Filled(email) { LabelsDistinct(email.value); }
    if Filled(phone) { LabelsDistinct(phone.value); }
    if Filled(notes) { LabelsDistinct(notes.value); }
    forall i | 1 <= i < |lines|
      ensures (StartsWith(lines[i], EmailLabel) ==> Filled(email) && lines[i] == EmailLabel + email.value)
      ensures (StartsWith(lines[i], PhoneLabel) ==> Filled(phone) && lines[i] == PhoneLabel + phone.value)
      ensures (StartsWith(lines[i], NotesLabel) ==> Filled(notes) && lines[i] == NotesLabel + notes.value)
    {
      assert lines[i] in e + p + n;
      if lines[i] in e {
        assert lines[i] == EmailLabel + email.value;
        assert StartsWith(lines[i], EmailLabel);
      } else if lines[i] in p {
        assert lines[i] == PhoneLabel + phone.value;
        assert StartsWith(lines[i], PhoneLabel);
      } else {
        assert lines[i] == NotesLabel + notes.value;
        assert StartsWith(lines[i], NotesLabel);
      }
    }
    if Filled(email) {
      assert lines[1] == EmailLabel + email.value;
      assert StartsWith(lines[1], EmailLabel);
    }
    if Filled(phone) {
      var k := 1 + |e|;
      assert lines[k] == PhoneLabel + phone.value;
      assert StartsWith(lines[k], PhoneLabel);
    }
    if Filled(notes) {
      var k := 1 + |e| + |p|;
      assert lines[k] == NotesLabel + notes.value;
      assert StartsWith(lines[k], NotesLabel);
    }
  }
}
