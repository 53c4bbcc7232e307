/** excel_utils.py over an abstract workbook: an ordered list of titled sheets, each a
    list of rows (row 1 first). Opening and saving the file are reduced to which book is
    read; the clock reading for received and sent dates is a parameter. */
module Workbook {
  import opened Nullable
  import opened Calendar

  /** What a cell holds: nothing, text, a number, or a date or datetime. */
  datatype Cell = Blank | Str(text: string) | Num(value: int) | At(moment: Moment)

  type Row = seq<Cell>

  datatype Sheet = Sheet(title: string, rows: seq<Row>)

  type Book = seq<Sheet>

  /** The title openpyxl gives the one sheet of a new workbook. */
  const DefaultTitle := "Sheet"
  const IntakeTitle := "Intake"
  const MailLogTitle := "MailLog"

  const IntakeHeaders := ["IntakeID", "DateTimeReceived", "ClientName", "ClientEmail", "ClientPhone",
                          "Professional", "IntakeType", "DueDate", "Status", "CompletedDate", "Notes"]
  const MailLogHeaders := ["MailID", "DateSent", "ClientName", "Professional", "ItemType", "Method",
                           "TrackingNumber", "SentBy", "Notes"]

  /** `Workbook()`: one empty sheet titled 'Sheet'. */
  const NewBook: Book := [Sheet(DefaultTitle, [])]

  /** The workbook file: absent; present but rejected by openpyxl as an invalid file
      (`InvalidFileException`); present but failing to load in any other way (a corrupt
      archive, a path that cannot be read), with the exception's text; or a workbook. */
  datatype StoredFile = Absent | Invalid | LoadFailed(reason: string) | Readable(book: Book)

  /** The book `_ensure_workbook` starts from: the file's, or a new one when the file is
      absent or invalid; None when loading raised anything else, which propagates. */
  function Opened(f: StoredFile): (b: Option<Book>)
    ensures b.None? <==> f.LoadFailed?
    ensures f.Readable? ==> b == Some(f.book)
    ensures f.Absent? || f.Invalid? ==> b == Some(NewBook)
  {
    match f
    case Absent => Some(NewBook)
    case Invalid => Some(NewBook)
    case LoadFailed(_) => None
    case Readable(book) => Some(book)
  }

  predicate HasTitle(b: Book, title: string) {
    exists i :: 0 <= i < |b| && b[i].title == title
  }

  /** openpyxl keeps sheet titles unique. */
  predicate DistinctTitles(b: Book) {
    forall i, j :: 0 <= i < j < |b| ==> b[i].title != b[j].title
  }

  /** `wb[title]`: the first sheet with that title. */
  function IndexOf(b: Book, title: string): (r: Option<nat>)
    ensures r.None? <==> !HasTitle(b, title)
    ensures r.Some? ==> r.value < |b| && b[r.value].title == title
    ensures r.Some? ==> forall i :: 0 <= i < r.value ==> b[i].title != title
  {
    if |b| == 0 then None
    else if b[0].title == title then Some(0)
    else match IndexOf(b[1..], title)
      case None => None
      case Some(k) => Some(k + 1)
  }

  /** With unique titles a sheet is found at its own position. */
  lemma IndexOfDistinct(b: Book, i: nat)
    requires DistinctTitles(b) && i < |b|
    ensures IndexOf(b, b[i].title) == Some(i)
  {
  }

  function HeaderRow(headers: seq<string>): (r: Row)
    ensures |r| == |headers|
    ensures forall k :: 0 <= k < |r| ==> r[k] == Str(headers[k])
  {
    seq(|headers|, k requires 0 <= k < |headers| => Str(headers[k]))
  }

  /** The header test of `_ensure_workbook`: cell A1 holds the first header. */
  predicate Headed(s: Sheet, first: string) {
    |s.rows| > 0 && |s.rows[0]| > 0 && s.rows[0][0] == Str(first)
  }

  /** `ws.insert_rows(1)` and the header written into row 1, unless A1 already holds the
      first header. Existing rows move down by one and none is lost. */
  function WithHeader(s: Sheet, headers: seq<string>): (r: Sheet)
    requires |headers| > 0
    ensures r.title == s.title && Headed(r, headers[0])
    ensures Headed(s, headers[0]) ==> r == s
    ensures !Headed(s, headers[0]) ==> r.rows == [HeaderRow(headers)] + s.rows
  {
    if Headed(s, headers[0]) then s else s.(rows := [HeaderRow(headers)] + s.rows)
  }

  /** The header step on the sheet with the given title; no other sheet changes. */
  function FixHeader(b: Book, title: string, headers: seq<string>): (r: Book)
    requires HasTitle(b, title) && |headers| > 0
    ensures |r| == |b| && HasTitle(r, title)
    ensures var i := IndexOf(b, title).value;
      && r[i] == WithHeader(b[i], headers)
      && forall j :: 0 <= j < |b| && j != i ==> r[j] == b[j]
  {
    var i := IndexOf(b, title).value;
    var r := b[i := WithHeader(b[i], headers)];
    assert r[i].title == title;
    r
  }

  /** The book with an Intake sheet in it: a lone default sheet is renamed, any other
      book without one gets a new empty sheet at the end. */
  function WithIntakeSheet(b: Book): (r: Book)
    ensures HasTitle(r, IntakeTitle)
    ensures HasTitle(b, IntakeTitle) ==> r == b
    ensures !HasTitle(b, IntakeTitle) && HasTitle(b, DefaultTitle) && |b| == 1 ==>
      r == [b[0].(title := IntakeTitle)] && IndexOf(r, IntakeTitle) == Some(0)
    ensures !HasTitle(b, IntakeTitle) && !(HasTitle(b, DefaultTitle) && |b| == 1) ==>
      r == b + [Sheet(IntakeTitle, [])] && IndexOf(r, IntakeTitle) == Some(|b|)
  {
    if HasTitle(b, IntakeTitle) then b
    else if HasTitle(b, DefaultTitle) && |b| == 1 then
      var r := [b[0].(title := IntakeTitle)];
      assert r[0].title == IntakeTitle;
      r
    else
      var r := b + [Sheet(IntakeTitle, [])];
      assert r[|b|].title == IntakeTitle;
      assert forall i :: 0 <= i < |b| ==> r[i] == b[i];
      r
  }

  /** Making sure the Intake sheet exists, corrected: after the sheet is found, renamed
      or created, row 1 gets the header unless A1 already holds it. */
  function EnsureIntake(b: Book): (r: Book)
    ensures HasTitle(r, IntakeTitle)
  {
    FixHeader(WithIntakeSheet(b), IntakeTitle, IntakeHeaders)
  }

  /** The Intake step as excel_utils.py:63-79 writes it: after renaming a lone default
      sheet the header is appended after that sheet's rows. */
  function EnsureIntakeAsWritten(b: Book): (r: Book)
    ensures HasTitle(r, IntakeTitle)
  {
    if HasTitle(b, IntakeTitle) then FixHeader(b, IntakeTitle, IntakeHeaders)
    else if HasTitle(b, DefaultTitle) && |b| == 1 then
      var r := [Sheet(IntakeTitle, b[0].rows + [HeaderRow(IntakeHeaders)])];
      assert r[0].title == IntakeTitle;
      r
    else
      var r := b + [Sheet(IntakeTitle, [HeaderRow(IntakeHeaders)])];
      assert r[|b|].title == IntakeTitle;
      r
  }

  /** Making sure the MailLog sheet exists with its header. */
  function EnsureMailLog(b: Book): (r: Book)
    ensures HasTitle(r, MailLogTitle)
    ensures forall t :: t != MailLogTitle && HasTitle(b, t) ==> HasTitle(r, t)
  {
    if HasTitle(b, MailLogTitle) then
      var r := FixHeader(b, MailLogTitle, MailLogHeaders);
      assert forall i :: 0 <= i < |b| ==> r[i].title == b[i].title;
      r
    else
      var r := b + [Sheet(MailLogTitle, [HeaderRow(MailLogHeaders)])];
      assert r[|b|].title == MailLogTitle;
      assert forall i :: 0 <= i < |b| ==> r[i] == b[i];
      r
  }

  function RemoveAt(b: Book, i: nat): (r: Book)
    requires i < |b|
    ensures |r| == |b| - 1
  {
    b[..i] + b[i + 1..]
  }

  /** `del wb['Sheet']` once both target sheets exist. */
  function DropDefault(b: Book): (r: Book)
    ensures forall t :: t != DefaultTitle && HasTitle(b, t) ==> HasTitle(r, t)
  {
    if HasTitle(b, DefaultTitle) && HasTitle(b, IntakeTitle) && HasTitle(b, MailLogTitle) then
      var k := IndexOf(b, DefaultTitle).value;
      var r := RemoveAt(b, k);
      assert forall i :: 0 <= i < |b| && i != k ==> b[i] in r by {
        forall i | 0 <= i < |b| && i != k ensures b[i] in r {
          if i < k { assert r[i] == b[i]; } else { assert r[i - 1] == b[i]; }
        }
      }
      r
    else b
  }

  /** `_ensure_workbook`, corrected: both target sheets exist afterwards. */
  function EnsureWorkbook(b: Book): (r: Book)
    ensures HasTitle(r, IntakeTitle) && HasTitle(r, MailLogTitle)
  {
    DropDefault(EnsureMailLog(EnsureIntake(b)))
  }

  /** `_ensure_workbook` as written. */
  function EnsureWorkbookAsWritten(b: Book): (r: Book)
    ensures HasTitle(r, IntakeTitle) && HasTitle(r, MailLogTitle)
  {
    DropDefault(EnsureMailLog(EnsureIntakeAsWritten(b)))
  }

  // ---------------------------------------------------------------------------
  // What the corrected `_ensure_workbook` guarantees
  // ---------------------------------------------------------------------------

  /** The rows the Intake sheet starts from: its own, those of a lone default sheet that
      gets renamed, or none for a new sheet. */
  function IntakeOrigin(b: Book): seq<Row>
  {
    if HasTitle(b, IntakeTitle) then b[IndexOf(b, IntakeTitle).value].rows
    else if HasTitle(b, DefaultTitle) && |b| == 1 then b[0].rows
    else []
  }

  /** The rows the MailLog sheet starts from. */
  function MailLogOrigin(b: Book): seq<Row>
  {
    if HasTitle(b, MailLogTitle) then b[IndexOf(b, MailLogTitle).value].rows else []
  }

  /** Replacing a sheet by one with the same title keeps titles unique, and keeps every
      other sheet. */
  lemma ReplaceKeepsOthers(b: Book, i: nat, s: Sheet)
    requires DistinctTitles(b) && i < |b| && s.title == b[i].title
    ensures DistinctTitles(b[i := s]) && s in b[i := s]
    ensures forall x :: x in b && x.title != s.title ==> x in b[i := s]
  {
    var r := b[i := s];
    assert r[i] == s;
    forall x | x in b && x.title != s.title ensures x in r {
      var j :| 0 <= j < |b| && b[j] == x;
      assert r[j] == x;
    }
  }

  lemma {:induction false} EnsureIntakeShape(b: Book)
    requires DistinctTitles(b)
    ensures var r := EnsureIntake(b);
      && DistinctTitles(r)
      && WithHeader(Sheet(IntakeTitle, IntakeOrigin(b)), IntakeHeaders) in r
      && (forall x :: x in b && x.title != IntakeTitle && x.title != DefaultTitle ==> x in r)
      && (forall t :: t != IntakeTitle && HasTitle(r, t) ==> HasTitle(b, t))
  {
    var b1 := WithIntakeSheet(b);
    WithIntakeSheetTitles(b);
    assert DistinctTitles(b1) by {
      if !HasTitle(b, IntakeTitle) && !(HasTitle(b, DefaultTitle) && |b| == 1) {
        assert forall i :: 0 <= i < |b| ==> b1[i] == b[i];
      }
    }
    var i := IndexOf(b1, IntakeTitle).value;
    assert b1[i] == Sheet(IntakeTitle, IntakeOrigin(b));
    ReplaceKeepsOthers(b1, i, WithHeader(b1[i], IntakeHeaders));
    assert forall x :: x in b && x.title != IntakeTitle && x.title != DefaultTitle ==> x in b1;
    var r := EnsureIntake(b);
    assert r == b1[i := WithHeader(b1[i], IntakeHeaders)];
    forall t | t != IntakeTitle && HasTitle(r, t)
      ensures HasTitle(b, t)
    {
      var k :| 0 <= k < |r| && r[k].title == t;
      assert b1[k].title == t;
      assert k < |b| && b[k].title == t;
    }
  }

  /** Only the Intake title is new: every other sheet of the result sits where it was. */
  lemma WithIntakeSheetTitles(b: Book)
    ensures var r := WithIntakeSheet(b);
      forall k :: 0 <= k < |r| ==> r[k].title == IntakeTitle || (k < |b| && r[k].title == b[k].title)
  {
  }

  lemma {:induction false} EnsureMailLogShape(b: Book)
    requires DistinctTitles(b)
    ensures var r := EnsureMailLog(b);
      && DistinctTitles(r)
      && WithHeader(Sheet(MailLogTitle, MailLogOrigin(b)), MailLogHeaders) in r
      && (forall x :: x in b && x.title != MailLogTitle ==> x in r)
      && (HasTitle(r, DefaultTitle) ==> HasTitle(b, DefaultTitle))
  {
    var r := EnsureMailLog(b);
    if HasTitle(b, MailLogTitle) {
      var i := IndexOf(b, MailLogTitle).value;
      ReplaceKeepsOthers(b, i, WithHeader(b[i], MailLogHeaders));
      if HasTitle(r, DefaultTitle) {
        var k :| 0 <= k < |r| && r[k].title == DefaultTitle;
        assert b[k].title == DefaultTitle;
      }
    } else {
      assert r == b + [Sheet(MailLogTitle, [HeaderRow(MailLogHeaders)])];
      assert r[|b|] == WithHeader(Sheet(MailLogTitle, []), MailLogHeaders);
      forall x | x in b ensures x in r {
        var j :| 0 <= j < |b| && b[j] == x;
        assert r[j] == x;
      }
      if HasTitle(r, DefaultTitle) {
        var k :| 0 <= k < |r| && r[k].title == DefaultTitle;
        assert k < |b| && b[k].title == DefaultTitle;
      }
    }
  }

  lemma {:induction false} DropDefaultShape(b: Book)
    requires DistinctTitles(b) && HasTitle(b, IntakeTitle) && HasTitle(b, MailLogTitle)
    ensures var r := DropDefault(b);
      && DistinctTitles(r)
      && !HasTitle(r, DefaultTitle)
      && (forall x :: x in b && x.title != DefaultTitle ==> x in r)
  {
    if HasTitle(b, DefaultTitle) {
      var k := IndexOf(b, DefaultTitle).value;
      var r := RemoveAt(b, k);
      assert forall i :: 0 <= i < |r| ==> r[i] == b[if i < k then i else i + 1];
      forall i, j | 0 <= i < j < |r|
        ensures r[i].title != r[j].title
      {
        assert (if i < k then i else i + 1) < (if j < k then j else j + 1);
      }
      forall i | 0 <= i < |r|
        ensures r[i].title != DefaultTitle
      {
        assert (if i < k then i else i + 1) != k;
      }
      forall x | x in b && x.title != DefaultTitle ensures x in r {
        var j :| 0 <= j < |b| && b[j] == x;
        assert j != k;
        assert r[if j < k then j else j - 1] == x;
      }
    }
  }

  /** After the corrected `_ensure_workbook` on a book with unique titles: titles are still
      unique; the Intake and MailLog sheets are there with their headers in row 1, above
      every row they had before (a lone default sheet's rows count as the Intake sheet's);
      no default 'Sheet' is left; every other sheet is kept. */
  lemma {:induction false} EnsureWorkbookShape(b: Book)
    requires DistinctTitles(b)
    ensures var r := EnsureWorkbook(b);
      && DistinctTitles(r)
      && WithHeader(Sheet(IntakeTitle, IntakeOrigin(b)), IntakeHeaders) in r
      && WithHeader(Sheet(MailLogTitle, MailLogOrigin(b)), MailLogHeaders) in r
      && !HasTitle(r, DefaultTitle)
      && (forall x :: x in b && x.title != IntakeTitle && x.title != MailLogTitle && x.title != DefaultTitle ==> x in r)
  {
    var si := WithHeader(Sheet(IntakeTitle, IntakeOrigin(b)), IntakeHeaders);
    var sm := WithHeader(Sheet(MailLogTitle, MailLogOrigin(b)), MailLogHeaders);
    var b1 := EnsureIntake(b);
    EnsureIntakeShape(b);
    MailLogOriginKept(b);
    var b2 := EnsureMailLog(b1);
    EnsureMailLogShape(b1);
    assert si in b2 && sm in b2;
    assert forall x :: x in b && x.title != IntakeTitle && x.title != MailLogTitle && x.title != DefaultTitle ==> x in b2;
    DropDefaultShape(b2);
  }

  /** The Intake step leaves the MailLog sheet where it was. */
  lemma MailLogOriginKept(b: Book)
    requires DistinctTitles(b)
    ensures MailLogOrigin(EnsureIntake(b)) == MailLogOrigin(b)
  {
    var b1 := EnsureIntake(b);
    EnsureIntakeShape(b);
    if HasTitle(b, MailLogTitle) {
      var j := IndexOf(b, MailLogTitle).value;
      assert b[j] in b1;
      var k :| 0 <= k < |b1| && b1[k] == b[j];
      IndexOfDistinct(b1, k);
      assert MailLogOrigin(b1) == b1[k].rows;
    } else {
      assert !HasTitle(b1, MailLogTitle);
    }
  }

  /** A book with unique titles, both target sheets headed and no default sheet. */
  predicate Ensured(b: Book) {
    && DistinctTitles(b)
    && (exists i :: 0 <= i < |b| && b[i].title == IntakeTitle && Headed(b[i], IntakeHeaders[0]))
    && (exists i :: 0 <= i < |b| && b[i].title == MailLogTitle && Headed(b[i], MailLogHeaders[0]))
    && !HasTitle(b, DefaultTitle)
  }

  /** A headed Intake sheet is left as it is. */
  lemma IntakeFixed(b: Book, i: nat)
    requires DistinctTitles(b) && i < |b| && b[i].title == IntakeTitle && Headed(b[i], IntakeHeaders[0])
    ensures EnsureIntake(b) == b
  {
    IndexOfDistinct(b, i);
    assert WithIntakeSheet(b) == b;
    assert b[i := WithHeader(b[i], IntakeHeaders)] == b;
  }

  /** A headed MailLog sheet is left as it is. */
  lemma MailLogFixed(b: Book, j: nat)
    requires DistinctTitles(b) && j < |b| && b[j].title == MailLogTitle && Headed(b[j], MailLogHeaders[0])
    ensures EnsureMailLog(b) == b
  {
    IndexOfDistinct(b, j);
    assert b[j := WithHeader(b[j], MailLogHeaders)] == b;
  }

  /** An ensured book is left exactly as it is. */
  lemma EnsuredIsFixed(b: Book)
    requires Ensured(b)
    ensures EnsureWorkbook(b) == b
  {
    var i :| 0 <= i < |b| && b[i].title == IntakeTitle && Headed(b[i], IntakeHeaders[0]);
    IntakeFixed(b, i);
    var j :| 0 <= j < |b| && b[j].title == MailLogTitle && Headed(b[j], MailLogHeaders[0]);
    MailLogFixed(b, j);
    assert DropDefault(b) == b;
  }

  /** The corrected `_ensure_workbook` is idempotent. */
  lemma EnsureWorkbookIdempotent(b: Book)
    requires DistinctTitles(b)
    ensures EnsureWorkbook(EnsureWorkbook(b)) == EnsureWorkbook(b)
  {
    var r := EnsureWorkbook(b);
    EnsureWorkbookShape(b);
    var si := WithHeader(Sheet(IntakeTitle, IntakeOrigin(b)), IntakeHeaders);
    var sm := WithHeader(Sheet(MailLogTitle, MailLogOrigin(b)), MailLogHeaders);
    var i :| 0 <= i < |r| && r[i] == si;
    var j :| 0 <= j < |r| && r[j] == sm;
    assert Ensured(r);
    EnsuredIsFixed(r);
  }

  // ---------------------------------------------------------------------------
  // The rename branch as written
  // ---------------------------------------------------------------------------

  /** As written, a lone default sheet that already holds a row becomes an Intake sheet
      whose row 1 is that row and whose header sits below it; the next call then inserts a
      second header above, so the function is not idempotent. */
  lemma AsWrittenMisplacesHeader()
    ensures var b := [Sheet(DefaultTitle, [[Str("x")]])];
      var once := EnsureWorkbookAsWritten(b);
      && DistinctTitles(b)
      && once[0].title == IntakeTitle
      && once[0].rows == [[Str("x")], HeaderRow(IntakeHeaders)]
      && EnsureWorkbookAsWritten(once) != once
  {
    var b := [Sheet(DefaultTitle, [[Str("x")]])];
    var h := HeaderRow(IntakeHeaders);
    var m := HeaderRow(MailLogHeaders);
    assert b[0].title == DefaultTitle && !HasTitle(b, IntakeTitle);
    assert [[Str("x")]] + [h] == [[Str("x")], h];
    var b1 := EnsureIntakeAsWritten(b);
    assert b1 == [Sheet(IntakeTitle, [[Str("x")], h])];
    assert !HasTitle(b1, MailLogTitle);
    var b2 := EnsureMailLog(b1);
    assert b2 == [Sheet(IntakeTitle, [[Str("x")], h]), Sheet(MailLogTitle, [m])];
    assert !HasTitle(b2, DefaultTitle);
    var once := EnsureWorkbookAsWritten(b);
    assert once == b2;
    var c1 := EnsureIntakeAsWritten(once);
    assert IndexOf(once, IntakeTitle) == Some(0);
    assert !Headed(once[0], IntakeHeaders[0]);
    assert c1[0].rows == [h, [Str("x")], h];
    assert IndexOf(c1, MailLogTitle) == Some(1);
    var c2 := EnsureMailLog(c1);
    assert c2[0] == c1[0];
    assert |EnsureWorkbookAsWritten(once)[0].rows| == 3;
  }

  /** Outside that branch the code as written and the corrected definition agree. */
  lemma AsWrittenAgreesElsewhere(b: Book)
    requires HasTitle(b, IntakeTitle) || !HasTitle(b, DefaultTitle) || |b| != 1 || b[0].rows == []
    ensures EnsureWorkbookAsWritten(b) == EnsureWorkbook(b)
  {
    if HasTitle(b, IntakeTitle) {
      assert EnsureIntakeAsWritten(b) == EnsureIntake(b);
    } else if HasTitle(b, DefaultTitle) && |b| == 1 {
      var h := HeaderRow(IntakeHeaders);
      var r := EnsureIntake(b);
      assert WithIntakeSheet(b) == [Sheet(IntakeTitle, [])];
      assert [h] + [] == [h];
      assert |r| == 1 && r[0] == Sheet(IntakeTitle, [h]);
      assert b[0].rows + [h] == [h];
      assert EnsureIntakeAsWritten(b) == r;
    } else {
      var h := HeaderRow(IntakeHeaders);
      var r := EnsureIntake(b);
      assert [h] + [] == [h];
      assert r[|b|] == Sheet(IntakeTitle, [h]);
      assert forall j :: 0 <= j < |b| ==> r[j] == b[j];
      assert EnsureIntakeAsWritten(b) == r;
    }
  }

  // ---------------------------------------------------------------------------
  // Appending rows
  // ---------------------------------------------------------------------------

  /** `value or ""`. */
  function OrEmpty(v: Option<string>): (r: string)
    ensures v.Some? && v.value != "" ==> r == v.value
    ensures r == "" <==> (v.None? || v.value == "")
  {
    if v.Some? then v.value else ""
  }

  /** The DueDate cell: empty for None, the value itself for a date or datetime, and
      `str()` of anything else (so an empty string is kept as text). */
  function DueCell(due: Option<DueValue>): (c: Cell)
    ensures due.None? <==> c.Blank?
  {
    match due
    case None => Blank
    case Some(When(m)) => At(m)
    case Some(Plain(s)) => Str(s)
  }

  /** The row of `append_intake_row`, aligned with the eleven Intake headers. */
  function IntakeRow(
    intakeId: int,
    received: Moment,
    clientName: string,
    professional: string,
    intakeType: string,
    email: Option<string>,
    phone: Option<string>,
    due: Option<DueValue>,
    status: string,
    notes: Option<string>): (r: Row)
    ensures |r| == |IntakeHeaders|
  {
    [Num(intakeId), At(received), Str(clientName), Str(OrEmpty(email)), Str(OrEmpty(phone)),
     Str(professional), Str(intakeType), DueCell(due), Str(status), Blank, Str(OrEmpty(notes))]
  }

  /** Each Intake header names the value in its column: CompletedDate is empty, DueDate
      is empty exactly when no due date is given, and email, phone and notes hold their
      text, or '' when it is None or empty. */
  lemma IntakeRowAligned(
    intakeId: int, received: Moment, clientName: string, professional: string, intakeType: string,
    email: Option<string>, phone: Option<string>, due: Option<DueValue>, status: string, notes: Option<string>)
    ensures var r := IntakeRow(intakeId, received, clientName, professional, intakeType, email, phone, due, status, notes);
      && IntakeHeaders[0] == "IntakeID" && r[0] == Num(intakeId)
      && IntakeHeaders[1] == "DateTimeReceived" && r[1] == At(received)
      && IntakeHeaders[2] == "ClientName" && r[2] == Str(clientName)
      && IntakeHeaders[3] == "ClientEmail" && (email.Some? && email.value != "" ==> r[3] == Str(email.value))
      && ((email.None? || email.value == "") ==> r[3] == Str(""))
      && IntakeHeaders[4] == "ClientPhone" && (phone.Some? && phone.value != "" ==> r[4] == Str(phone.value))
      && ((phone.None? || phone.value == "") ==> r[4] == Str(""))
      && IntakeHeaders[5] == "Professional" && r[5] == Str(professional)
      && IntakeHeaders[6] == "IntakeType" && r[6] == Str(intakeType)
      && IntakeHeaders[7] == "DueDate" && (r[7].Blank? <==> due.None?)
      && IntakeHeaders[8] == "Status" && r[8] == Str(status)
      && IntakeHeaders[9] == "CompletedDate" && r[9] == Blank
      && IntakeHeaders[10] == "Notes" && (notes.Some? && notes.value != "" ==> r[10] == Str(notes.value))
      && ((notes.None? || notes.value == "") ==> r[10] == Str(""))
  {
  }

  /** The row of `append_mail_row`, aligned with the nine MailLog headers; DateSent is the
      date part of the clock reading. */
  function MailRow(
    mailId: int,
    sent: ValidDate,
    clientName: string,
    professional: string,
    itemType: string,
    delivery: string,
    trackingNumber: Option<string>,
    sentBy: Option<string>,
    notes: Option<string>): (r: Row)
    ensures |r| == |MailLogHeaders|
  {
    [Num(mailId), At(OnDay(sent)), Str(clientName), Str(professional), Str(itemType), Str(delivery),
     Str(OrEmpty(trackingNumber)), Str(OrEmpty(sentBy)), Str(OrEmpty(notes))]
  }

  /** Each MailLog header names the value in its column: tracking number, sent-by and
      notes hold their text, or '' when it is None or empty. */
  lemma MailRowAligned(
    mailId: int, sent: ValidDate, clientName: string, professional: string, itemType: string,
    delivery: string, trackingNumber: Option<string>, sentBy: Option<string>, notes: Option<string>)
    ensures var r := MailRow(mailId, sent, clientName, professional, itemType, delivery, trackingNumber, sentBy, notes);
      && MailLogHeaders[0] == "MailID" && r[0] == Num(mailId)
      && MailLogHeaders[1] == "DateSent" && r[1] == At(OnDay(sent))
      && MailLogHeaders[2] == "ClientName" && r[2] == Str(clientName)
      && MailLogHeaders[3] == "Professional" && r[3] == Str(professional)
      && MailLogHeaders[4] == "ItemType" && r[4] == Str(itemType)
      && MailLogHeaders[5] == "Method" && r[5] == Str(delivery)
      && MailLogHeaders[6] == "TrackingNumber" && (trackingNumber.Some? && trackingNumber.value != "" ==> r[6] == Str(trackingNumber.value))
      && ((trackingNumber.None? || trackingNumber.value == "") ==> r[6] == Str(""))
      && MailLogHeaders[7] == "SentBy" && (sentBy.Some? && sentBy.value != "" ==> r[7] == Str(sentBy.value))
      && ((sentBy.None? || sentBy.value == "") ==> r[7] == Str(""))
      && MailLogHeaders[8] == "Notes" && (notes.Some? && notes.value != "" ==> r[8] == Str(notes.value))
      && ((notes.None? || notes.value == "") ==> r[8] == Str(""))
  {
  }

  /** `ws.append(row)` on the sheet with the given title of the ensured book. Exactly
      that sheet gains the row, at its end; every other sheet is unchanged. */
  function AppendTo(b: Book, title: string, row: Row): (r: Book)
    requires HasTitle(b, title)
    ensures |r| == |b|
    ensures forall j :: 0 <= j < |b| && b[j].title != title ==> r[j] == b[j]
    ensures forall j :: 0 <= j < |b| && j != IndexOf(b, title).value ==> r[j] == b[j]
    ensures var i := IndexOf(b, title).value;
      r[i].title == title && |r[i].rows| == |b[i].rows| + 1
    ensures var i := IndexOf(b, title).value;
      r[i].rows[..|b[i].rows|] == b[i].rows && r[i].rows[|b[i].rows|] == row
  {
    var i := IndexOf(b, title).value;
    b[i := b[i].(rows := b[i].rows + [row])]
  }

  /** `append_intake_row` with the corrected `_ensure_workbook`: the workbook saved
      afterwards. */
  function AppendIntakeRow(b: Book, row: Row): (r: Book)
    ensures |r| == |EnsureWorkbook(b)|
  {
    AppendTo(EnsureWorkbook(b), IntakeTitle, row)
  }

  /** `append_mail_row` with the corrected `_ensure_workbook`. */
  function AppendMailRow(b: Book, row: Row): (r: Book)
    ensures |r| == |EnsureWorkbook(b)|
  {
    AppendTo(EnsureWorkbook(b), MailLogTitle, row)
  }

  /** With unique titles, appending to one sheet keeps titles unique and every other
      sheet. */
  lemma AppendToEffect(e: Book, i: nat, row: Row)
    requires DistinctTitles(e) && i < |e|
    ensures var r := AppendTo(e, e[i].title, row);
      && DistinctTitles(r)
      && e[i].(rows := e[i].rows + [row]) in r
      && (forall x :: x in e && x.title != e[i].title ==> x in r)
  {
    IndexOfDistinct(e, i);
    ReplaceKeepsOthers(e, i, e[i].(rows := e[i].rows + [row]));
  }

  /** With the corrected `_ensure_workbook`: after appending an intake row to a book with
      unique titles, the Intake sheet holds its header, the rows it had, and the new row
      last; the MailLog sheet is the ensured one and nothing else is touched. The code as
      written does the same except on a lone non-empty default sheet, see
      `AppendsAsWrittenAgree` and `AppendsAsWrittenOnLoneSheet`. */
  lemma {:induction false} AppendIntakeRowEffect(b: Book, row: Row)
    requires DistinctTitles(b)
    ensures var r := AppendIntakeRow(b, row);
      && DistinctTitles(r)
      && Sheet(IntakeTitle, WithHeader(Sheet(IntakeTitle, IntakeOrigin(b)), IntakeHeaders).rows + [row]) in r
      && WithHeader(Sheet(MailLogTitle, MailLogOrigin(b)), MailLogHeaders) in r
      && (forall x :: x in b && x.title != IntakeTitle && x.title != MailLogTitle && x.title != DefaultTitle ==> x in r)
  {
    var e := EnsureWorkbook(b);
    EnsureWorkbookShape(b);
    var si := WithHeader(Sheet(IntakeTitle, IntakeOrigin(b)), IntakeHeaders);
    var i :| 0 <= i < |e| && e[i] == si;
    AppendToEffect(e, i, row);
  }

  /** The same for a mail row and the MailLog sheet, with the corrected
      `_ensure_workbook`. */
  lemma {:induction false} AppendMailRowEffect(b: Book, row: Row)
    requires DistinctTitles(b)
    ensures var r := AppendMailRow(b, row);
      && DistinctTitles(r)
      && Sheet(MailLogTitle, WithHeader(Sheet(MailLogTitle, MailLogOrigin(b)), MailLogHeaders).rows + [row]) in r
      && WithHeader(Sheet(IntakeTitle, IntakeOrigin(b)), IntakeHeaders) in r
      && (forall x :: x in b && x.title != IntakeTitle && x.title != MailLogTitle && x.title != DefaultTitle ==> x in r)
  {
    var e := EnsureWorkbook(b);
    EnsureWorkbookShape(b);
    var sm := WithHeader(Sheet(MailLogTitle, MailLogOrigin(b)), MailLogHeaders);
    var i :| 0 <= i < |e| && e[i] == sm;
    AppendToEffect(e, i, row);
  }

  // ---------------------------------------------------------------------------
  // Appending rows as written
  // ---------------------------------------------------------------------------

  /** `append_intake_row` as written: the workbook saved afterwards. */
  function AppendIntakeRowAsWritten(b: Book, row: Row): (r: Book)
    ensures |r| == |EnsureWorkbookAsWritten(b)|
  {
    AppendTo(EnsureWorkbookAsWritten(b), IntakeTitle, row)
  }

  /** `append_mail_row` as written. */
  function AppendMailRowAsWritten(b: Book, row: Row): (r: Book)
    ensures |r| == |EnsureWorkbookAsWritten(b)|
  {
    AppendTo(EnsureWorkbookAsWritten(b), MailLogTitle, row)
  }

  /** Outside the lone-default-sheet branch both appends as written save exactly what the
      corrected ones do, so `AppendIntakeRowEffect` and `AppendMailRowEffect` describe them. */
  lemma AppendsAsWrittenAgree(b: Book, row: Row)
    requires HasTitle(b, IntakeTitle) || !HasTitle(b, DefaultTitle) || |b| != 1 || b[0].rows == []
    ensures AppendIntakeRowAsWritten(b, row) == AppendIntakeRow(b, row)
    ensures AppendMailRowAsWritten(b, row) == AppendMailRow(b, row)
  {
    AsWrittenAgreesElsewhere(b);
  }

  /** In that branch, as written, the Intake sheet holds the old rows, then the header,
      then an appended intake row; a new MailLog sheet holds its header and any appended
      mail row. */
  lemma AppendsAsWrittenOnLoneSheet(rows: seq<Row>, row: Row)
    ensures var b := [Sheet(DefaultTitle, rows)];
      var h := HeaderRow(IntakeHeaders);
      var m := HeaderRow(MailLogHeaders);
      && AppendIntakeRowAsWritten(b, row) == [Sheet(IntakeTitle, rows + [h] + [row]), Sheet(MailLogTitle, [m])]
      && AppendMailRowAsWritten(b, row) == [Sheet(IntakeTitle, rows + [h]), Sheet(MailLogTitle, [m, row])]
  {
    var b := [Sheet(DefaultTitle, rows)];
    var h := HeaderRow(IntakeHeaders);
    var m := HeaderRow(MailLogHeaders);
    assert b[0].title == DefaultTitle && !HasTitle(b, IntakeTitle);
    var b1 := EnsureIntakeAsWritten(b);
    assert b1 == [Sheet(IntakeTitle, rows + [h])];
    assert !HasTitle(b1, MailLogTitle);
    var b2 := EnsureMailLog(b1);
    assert b2 == [Sheet(IntakeTitle, rows + [h]), Sheet(MailLogTitle, [m])];
    assert !HasTitle(b2, DefaultTitle);
    assert EnsureWorkbookAsWritten(b) == b2;
    assert IndexOf(b2, IntakeTitle) == Some(0);
    assert IndexOf(b2, MailLogTitle) == Some(1);
    assert [m] + [row] == [m, row];
  }
}
