/** The record store of db.py: the `checkin_events` and `mail_log` tables, each row carrying
    the Excel sync envelope (`excel_write_status`, `excel_last_error`, `excel_written_at`),
    the updates the sync bookkeeping performs on it, and the "pending" query the
    reconciliation worker runs. A table is a sequence of rows; `D` is the row's own
    columns, which the sync bookkeeping never reads. */
module Store {
  import opened Nullable

  /** A row's UUID, as text. */
  type Id = string

  /** A TIMESTAMPTZ value; only its order matters here. */
  type Instant = int

  const PENDING := "pending"
  const SUCCESS := "success"
  const FAILED := "failed"

  /** The sync envelope. `status` is free text in the schema; the service writes
      "pending", "success" and "failed". */
  datatype Envelope = Envelope(status: string, lastError: Option<string>, writtenAt: Option<Instant>)

  /** The column defaults a new row gets: 'pending', NULL, NULL. */
  const Fresh := Envelope(PENDING, None, None)

  datatype Row<D> = Row(id: Id, data: D, createdAt: Instant, sync: Envelope)

  type Table<D> = seq<Row<D>>

  /** The arguments of `insert_checkin`. */
  datatype CheckinEntry = CheckinEntry(
    clientName: string,
    professional: string,
    professionalId: Option<int>,
    clientEmail: Option<string>,
    clientPhone: Option<string>,
    intakeType: string,
    notes: Option<string>)

  /** The non-sync columns of `checkin_events`. */
  datatype CheckinFields = CheckinFields(
    entry: CheckinEntry,
    handled: bool,
    emailSent: bool,
    emailError: Option<string>)

  /** The arguments of `insert_mail_record`, which are all the non-sync columns of `mail_log`. */
  datatype MailEntry = MailEntry(
    clientName: string,
    professionalId: int,
    professionalName: Option<string>,
    itemType: string,
    delivery: string,
    trackingNumber: Option<string>,
    sentBy: Option<string>,
    notes: Option<string>)

  predicate FreeId<D>(t: Table<D>, id: Id) {
    forall i :: 0 <= i < |t| ==> t[i].id != id
  }

  /** The primary-key constraint. */
  predicate UniqueIds<D>(t: Table<D>) {
    forall i, j :: 0 <= i < j < |t| ==> t[i].id != t[j].id
  }

  // ---------------------------------------------------------------------------
  // Inserting rows
  // ---------------------------------------------------------------------------

  /** INSERT of a row with a fresh UUID; None when the id is taken (a primary-key
      violation). The new row gets the default sync envelope. */
  function Insert<D>(t: Table<D>, id: Id, data: D, now: Instant): (r: Option<Table<D>>)
    ensures r.None? <==> !FreeId(t, id)
    ensures r.Some? ==> |r.value| == |t| + 1 && r.value[..|t|] == t
    ensures r.Some? ==> r.value[|t|].id == id && r.value[|t|].data == data && r.value[|t|].createdAt == now
    ensures r.Some? ==> r.value[|t|].sync.status == PENDING
    ensures r.Some? ==> r.value[|t|].sync.lastError.None? && r.value[|t|].sync.writtenAt.None?
    ensures r.Some? && UniqueIds(t) ==> UniqueIds(r.value)
  {
    if FreeId(t, id) then Some(t + [Row(id, data, now, Fresh)]) else None
  }

  /** `insert_checkin`: handled and email_sent default to FALSE, email_error to NULL. */
  function InsertCheckin(t: Table<CheckinFields>, id: Id, entry: CheckinEntry, now: Instant)
    : (r: Option<Table<CheckinFields>>)
    ensures r.None? <==> !FreeId(t, id)
    ensures r.Some? ==> |r.value| == |t| + 1 && r.value[..|t|] == t
    ensures r.Some? ==> var row := r.value[|t|];
      && row.id == id && row.data.entry == entry && row.createdAt == now
      && !row.data.handled && !row.data.emailSent && row.data.emailError.None?
      && row.sync.status == PENDING && row.sync.lastError.None? && row.sync.writtenAt.None?
  {
    Insert(t, id, CheckinFields(entry, false, false, None), now)
  }

  /** `insert_mail_record`. */
  function InsertMail(t: Table<MailEntry>, id: Id, entry: MailEntry, now: Instant)
    : (r: Option<Table<MailEntry>>)
    ensures r.None? <==> !FreeId(t, id)
    ensures r.Some? ==> |r.value| == |t| + 1 && r.value[..|t|] == t
    ensures r.Some? ==> var row := r.value[|t|];
      && row.id == id && row.data == entry && row.createdAt == now
      && row.sync.status == PENDING && row.sync.lastError.None? && row.sync.writtenAt.None?
  {
    Insert(t, id, entry, now)
  }

  // ---------------------------------------------------------------------------
  // Updating rows
  // ---------------------------------------------------------------------------

  /** `UPDATE ... WHERE id = %s`: f applied to every row with that id. */
  function MapRows<D>(t: Table<D>, id: Id, f: Row<D> -> Row<D>): (r: Table<D>)
    ensures |r| == |t|
    ensures forall i :: 0 <= i < |t| && t[i].id == id ==> r[i] == f(t[i])
    ensures forall i :: 0 <= i < |t| && t[i].id != id ==> r[i] == t[i]
  {
    if |t| == 0 then []
    else [if t[0].id == id then f(t[0]) else t[0]] + MapRows(t[1..], id, f)
  }

  /** The envelope after `update_*_excel_status(id, status, error)` at time `now`. */
  function Recorded(e: Envelope, status: string, error: Option<string>, now: Instant): Envelope
  {
    if status == SUCCESS then Envelope(status, None, Some(now))
    else e.(status := status, lastError := error)
  }

  /** `update_checkin_excel_status` and `update_mail_excel_status`: recording success
      clears the error and stamps the time; any other status is stored with the given
      error and leaves the timestamp alone. Only the rows with that id change, and only
      their envelope. */
  function UpdateSyncStatus<D>(t: Table<D>, id: Id, status: string, error: Option<string>, now: Instant)
    : (r: Table<D>)
    ensures |r| == |t|
    ensures forall i :: 0 <= i < |t| ==>
      r[i].id == t[i].id && r[i].data == t[i].data && r[i].createdAt == t[i].createdAt
    ensures forall i :: 0 <= i < |t| && t[i].id != id ==> r[i] == t[i]
    ensures forall i :: 0 <= i < |t| && t[i].id == id && status == SUCCESS ==>
      r[i].sync == Envelope(SUCCESS, None, Some(now))
    ensures forall i :: 0 <= i < |t| && t[i].id == id && status != SUCCESS ==>
      r[i].sync == Envelope(status, error, t[i].sync.writtenAt)
  {
    MapRows(t, id, (row: Row<D>) => row.(sync := Recorded(row.sync, status, error, now)))
  }

  /** An update for an id no row has changes nothing. */
  lemma UnknownIdUnchanged<D>(t: Table<D>, id: Id, status: string, error: Option<string>, now: Instant)
    requires FreeId(t, id)
    ensures UpdateSyncStatus(t, id, status, error, now) == t
  {
    var r := UpdateSyncStatus(t, id, status, error, now);
    assert forall i :: 0 <= i < |t| ==> r[i] == t[i];
  }

  /** Recording success twice is recording it once, at the later time: status and error
      are the same whatever the error arguments were. */
  lemma SuccessIdempotent<D>(t: Table<D>, id: Id, e1: Option<string>, e2: Option<string>, n1: Instant, n2: Instant)
    ensures UpdateSyncStatus(UpdateSyncStatus(t, id, SUCCESS, e1, n1), id, SUCCESS, e2, n2)
         == UpdateSyncStatus(t, id, SUCCESS, None, n2)
  {
    var a := UpdateSyncStatus(UpdateSyncStatus(t, id, SUCCESS, e1, n1), id, SUCCESS, e2, n2);
    var b := UpdateSyncStatus(t, id, SUCCESS, None, n2);
    assert forall i :: 0 <= i < |t| ==> a[i] == b[i];
  }

  /** `mark_handled`: sets `handled` on the row with that id; the sync envelope and every
      other column stay as they were. */
  function MarkHandled(t: Table<CheckinFields>, id: Id): (r: Table<CheckinFields>)
    ensures |r| == |t|
    ensures forall i :: 0 <= i < |t| ==>
      && r[i].id == t[i].id && r[i].createdAt == t[i].createdAt && r[i].sync == t[i].sync
      && r[i].data.entry == t[i].data.entry
      && r[i].data.emailSent == t[i].data.emailSent && r[i].data.emailError == t[i].data.emailError
      && r[i].data.handled == (t[i].data.handled || t[i].id == id)
  {
    MapRows(t, id, (row: Row<CheckinFields>) => row.(data := row.data.(handled := true)))
  }

  /** `update_checkin_email_status`: sets email_sent and email_error on the row with that
      id; the sync envelope and every other column stay as they were. */
  function UpdateCheckinEmailStatus(t: Table<CheckinFields>, id: Id, success: bool, error: Option<string>)
    : (r: Table<CheckinFields>)
    ensures |r| == |t|
    ensures forall i :: 0 <= i < |t| ==>
      && r[i].id == t[i].id && r[i].createdAt == t[i].createdAt && r[i].sync == t[i].sync
      && r[i].data.entry == t[i].data.entry && r[i].data.handled == t[i].data.handled
    ensures forall i :: 0 <= i < |t| && t[i].id == id ==>
      r[i].data.emailSent == success && r[i].data.emailError == error
    ensures forall i :: 0 <= i < |t| && t[i].id != id ==> r[i] == t[i]
  {
    MapRows(t, id, (row: Row<CheckinFields>) => row.(data := row.data.(emailSent := success, emailError := error)))
  }

  // ---------------------------------------------------------------------------
  // Envelope consistency
  // ---------------------------------------------------------------------------

  /** The envelope invariant the service keeps: a known status; success means no error
      and a write time; failed means an error is stored; a write time is never earlier
      than the row's creation. */
  predicate Consistent(e: Envelope, createdAt: Instant) {
    && (e.status == PENDING || e.status == SUCCESS || e.status == FAILED)
    && (e.status == SUCCESS ==> e.lastError.None? && e.writtenAt.Some?)
    && (e.status == FAILED ==> e.lastError.Some?)
    && (e.writtenAt.Some? ==> createdAt <= e.writtenAt.value)
  }

  predicate AllConsistent<D>(t: Table<D>) {
    forall i :: 0 <= i < |t| ==> Consistent(t[i].sync, t[i].createdAt)
  }

  /** The updates the service issues (success, or failed with an error, at a time no
      earlier than the row's creation) keep every envelope consistent. */
  lemma UpdateKeepsConsistent<D>(t: Table<D>, id: Id, status: string, error: Option<string>, now: Instant)
    requires AllConsistent(t)
    requires status == SUCCESS || (status == FAILED && error.Some?)
    requires forall i :: 0 <= i < |t| && t[i].id == id ==> t[i].createdAt <= now
    ensures AllConsistent(UpdateSyncStatus(t, id, status, error, now))
  {
  }

  // ---------------------------------------------------------------------------
  // How callers record an attempt
  // ---------------------------------------------------------------------------

  /** How one sync attempt ended as its caller sees it: the `(success, error)` pair the
      sync function returned, or an exception with its text. */
  datatype Attempt = Returned(success: bool, error: Option<string>) | Raised(message: string)

  predicate Succeeded(a: Attempt) {
    a.Returned? && a.success
  }

  /** A failure that returned comes with an error message. */
  predicate Explained(a: Attempt) {
    a.Returned? && !a.success ==> a.error.Some?
  }

  /** The status update worker.py and app.py issue for an attempt. */
  function OutcomeStatus(a: Attempt): (string, Option<string>)
  {
    match a
    case Returned(true, _) => (SUCCESS, None)
    case Returned(false, error) => (FAILED, error)
    case Raised(message) => (FAILED, Some(message))
  }

  /** Recording one attempt: the row becomes 'success' exactly when the attempt succeeded,
      otherwise 'failed' with the returned error or the exception text. */
  function RecordAttempt<D>(t: Table<D>, id: Id, a: Attempt, now: Instant): (r: Table<D>)
    ensures |r| == |t|
    ensures forall i :: 0 <= i < |t| && t[i].id != id ==> r[i] == t[i]
    ensures forall i :: 0 <= i < |t| && t[i].id == id ==>
      && r[i].data == t[i].data
      && (r[i].sync.status == SUCCESS <==> Succeeded(a))
      && (!Succeeded(a) ==> r[i].sync.status == FAILED)
      && (a.Returned? && !a.success ==> r[i].sync.lastError == a.error)
      && (a.Raised? ==> r[i].sync.lastError == Some(a.message))
      && (Succeeded(a) ==> r[i].sync.lastError.None? && r[i].sync.writtenAt == Some(now))
  {
    var (status, error) := OutcomeStatus(a);
    UpdateSyncStatus(t, id, status, error, now)
  }

  // ---------------------------------------------------------------------------
  // The pending query
  // ---------------------------------------------------------------------------

  /** LIMIT of the pending query. */
  const PendingLimit := 100

  /** `excel_write_status IN ('pending', 'failed')`. */
  predicate NeedsSync<D>(row: Row<D>) {
    row.sync.status == PENDING || row.sync.status == FAILED
  }

  /** The rows the WHERE clause keeps, in table order. */
  function Eligible<D>(t: Table<D>): (r: Table<D>)
    ensures |r| <= |t|
    ensures forall x :: x in r ==> x in t && NeedsSync(x)
    ensures forall x :: x in t && NeedsSync(x) ==> x in r
  {
    if |t| == 0 then []
    else
      assert t == [t[0]] + t[1..];
      if NeedsSync(t[0]) then [t[0]] + Eligible(t[1..]) else Eligible(t[1..])
  }

  /** ORDER BY created_at ASC. */
  predicate OldestFirst<D>(s: seq<Row<D>>) {
    forall i, j :: 0 <= i < j < |s| ==> s[i].createdAt <= s[j].createdAt
  }

  function InsertByAge<D>(x: Row<D>, s: seq<Row<D>>): (r: seq<Row<D>>)
    requires OldestFirst(s)
    ensures OldestFirst(r)
    ensures multiset(r) == multiset(s) + multiset{x}
  {
    if |s| == 0 || x.createdAt <= s[0].createdAt then [x] + s
    else
      assert s == [s[0]] + s[1..];
      var rest := InsertByAge(x, s[1..]);
      InsertByAgeBound(x, s, rest);
      [s[0]] + rest
  }

  /** The step InsertByAge needs: s[0] is no younger than anything inserted after it. */
  lemma InsertByAgeBound<D>(x: Row<D>, s: seq<Row<D>>, rest: seq<Row<D>>)
    requires OldestFirst(s) && |s| > 0 && s[0].createdAt < x.createdAt
    requires multiset(rest) == multiset(s[1..]) + multiset{x}
    ensures forall k :: 0 <= k < |rest| ==> s[0].createdAt <= rest[k].createdAt
  {
    forall k | 0 <= k < |rest|
      ensures s[0].createdAt <= rest[k].createdAt
    {
      assert rest[k] in multiset(rest);
      if rest[k] != x {
        assert rest[k] in multiset(s[1..]);
        var j :| 0 <= j < |s[1..]| && s[1..][j] == rest[k];
        assert s[j + 1] == rest[k];
      }
    }
  }

  function SortByAge<D>(s: seq<Row<D>>): (r: seq<Row<D>>)
    ensures OldestFirst(r)
    ensures multiset(r) == multiset(s)
  {
    if |s| == 0 then []
    else
      assert s == [s[0]] + s[1..];
      InsertByAge(s[0], SortByAge(s[1..]))
  }

  /** Two sequences with the same elements, one with unique ids: the other has them too. */
  lemma {:induction false} SameElementsUnique<D>(a: seq<Row<D>>, b: seq<Row<D>>)
    requires multiset(a) == multiset(b) && UniqueIds(a)
    ensures UniqueIds(b)
  {
    forall i, j | 0 <= i < j < |b|
      ensures b[i].id != b[j].id
    {
      if b[i].id == b[j].id {
        assert b[i] in multiset(a) && b[j] in multiset(a);
        var p :| 0 <= p < |a| && a[p] == b[i];
        var q :| 0 <= q < |a| && a[q] == b[j];
        assert p == q;
        // the same row twice in b means it occurs twice in a
        var without := b[..i] + b[i + 1..];
        assert b == b[..i] + [b[i]] + b[i + 1..];
        assert b[j] in without by {
          assert without[j - 1] == b[j];
        }
        assert multiset(b) == multiset(without) + multiset{b[i]};
        assert multiset(b)[b[i]] >= 2;
        OccursOnce(a, p);
        assert false;
      }
    }
  }

  /** In a sequence with unique ids, each row occurs once. */
  lemma {:induction false} OccursOnce<D>(a: seq<Row<D>>, p: nat)
    requires UniqueIds(a) && p < |a|
    ensures multiset(a)[a[p]] == 1
  {
    if p == 0 {
      assert a == [a[0]] + a[1..];
      forall q | 0 <= q < |a[1..]|
        ensures a[1..][q] != a[0]
      {
        assert a[q + 1].id != a[0].id;
      }
    } else {
      assert a == [a[0]] + a[1..];
      assert a[1..][p - 1] == a[p];
      assert UniqueIds(a[1..]);
      OccursOnce(a[1..], p - 1);
      assert a[0] != a[p] by {
        assert a[0].id != a[p].id;
      }
    }
  }

  /** A filter of a table with unique ids has unique ids. */
  lemma {:induction false} EligibleUnique<D>(t: Table<D>)
    requires UniqueIds(t)
    ensures UniqueIds(Eligible(t))
  {
    if |t| > 0 {
      assert UniqueIds(t[1..]);
      EligibleUnique(t[1..]);
      if NeedsSync(t[0]) {
        var rest := Eligible(t[1..]);
        forall k | 0 <= k < |rest|
          ensures rest[k].id != t[0].id
        {
          assert rest[k] in t[1..];
          var j :| 0 <= j < |t[1..]| && t[1..][j] == rest[k];
          assert t[j + 1] == rest[k];
        }
      }
    }
  }

  /** In an oldest-first sequence, every element of the first k is no younger than any
      element outside them. */
  lemma {:induction false} PrefixIsOldest<D>(s: seq<Row<D>>, k: nat)
    requires OldestFirst(s) && k <= |s|
    ensures forall x, y :: x in s && x !in s[..k] && y in s[..k] ==> y.createdAt <= x.createdAt
  {
    assert forall m :: 0 <= m < k ==> s[m] in s[..k] by {
      forall m | 0 <= m < k ensures s[m] in s[..k] {
        assert s[..k][m] == s[m];
      }
    }
    forall x, y | x in s && x !in s[..k] && y in s[..k]
      ensures y.createdAt <= x.createdAt
    {
      var j :| 0 <= j < |s| && s[j] == x;
      var i :| 0 <= i < k && s[..k][i] == y;
      assert k <= j;
    }
  }

  /** Sorting keeps exactly the elements. */
  lemma SortedSameElements<D>(t: Table<D>)
    ensures |SortByAge(Eligible(t))| == |Eligible(t)|
    ensures forall x :: x in SortByAge(Eligible(t)) <==> x in Eligible(t)
  {
    var s := SortByAge(Eligible(t));
    assert |multiset(s)| == |multiset(Eligible(t))|;
    forall x
      ensures x in s <==> x in Eligible(t)
    {
      assert x in s <==> x in multiset(s);
      assert x in Eligible(t) <==> x in multiset(Eligible(t));
    }
  }

  /** `get_pending_excel_checkins` / `get_pending_excel_mail`: rows whose status is
      'pending' or 'failed', oldest first, at most 100 of them. */
  function PendingRows<D>(t: Table<D>): (r: seq<Row<D>>)
    ensures |r| <= PendingLimit
    ensures forall x :: x in r ==> x in t && NeedsSync(x)
    ensures OldestFirst(r)
  {
    var s := SortByAge(Eligible(t));
    var k := if |s| <= PendingLimit then |s| else PendingLimit;
    PrefixOfEligible(t, k);
    s[..k]
  }

  lemma PrefixOfEligible<D>(t: Table<D>, k: nat)
    requires k <= |SortByAge(Eligible(t))|
    ensures forall x :: x in SortByAge(Eligible(t))[..k] ==> x in t && NeedsSync(x)
    ensures OldestFirst(SortByAge(Eligible(t))[..k])
  {
    var e := Eligible(t);
    var s := SortByAge(e);
    assert OldestFirst(s[..k]) by {
      forall i, j | 0 <= i < j < k
        ensures s[..k][i].createdAt <= s[..k][j].createdAt
      {
        assert s[..k][i] == s[i] && s[..k][j] == s[j];
      }
    }
    forall x | x in s[..k]
      ensures x in t && NeedsSync(x)
    {
      var i :| 0 <= i < k && s[..k][i] == x;
      assert x == s[i];
      assert x in multiset(s);
      assert x in multiset(e);
      assert x in e;
    }
  }

  lemma PrefixElements<D>(s: seq<Row<D>>, k: nat)
    requires k <= |s|
    ensures forall x :: x in s[..k] ==> x in s
    ensures k == |s| ==> s[..k] == s
  {
  }

  /** The query returns as many rows as are eligible, up to the limit. */
  lemma PendingCount<D>(t: Table<D>)
    ensures |PendingRows(t)| == if |Eligible(t)| <= PendingLimit then |Eligible(t)| else PendingLimit
  {
    SortedSameElements(t);
  }

  /** The result is the oldest-first prefix of the eligible rows: no eligible row left
      out is older than a row returned, and with no more than 100 eligible rows none is
      left out. */
  lemma PendingOldestPrefix<D>(t: Table<D>)
    ensures forall x, y ::
              x in t && NeedsSync(x) && x !in PendingRows(t) && y in PendingRows(t)
              ==> y.createdAt <= x.createdAt
    ensures |Eligible(t)| <= PendingLimit ==>
      forall x :: x in t && NeedsSync(x) ==> x in PendingRows(t)
  {
    var s := SortByAge(Eligible(t));
    var k := if |s| <= PendingLimit then |s| else PendingLimit;
    SortedSameElements(t);
    PrefixIsOldest(s, k);
    PrefixElements(s, k);
  }

  /** With unique ids in the table, the pending query returns each row at most once. */
  lemma PendingUnique<D>(t: Table<D>)
    requires UniqueIds(t)
    ensures UniqueIds(PendingRows(t))
  {
    EligibleUnique(t);
    SameElementsUnique(Eligible(t), SortByAge(Eligible(t)));
  }

  /** The pending query never returns a row already synced. */
  lemma PendingNeverSucceeded<D>(t: Table<D>)
    ensures forall x :: x in PendingRows(t) ==> x.sync.status != SUCCESS
  {
  }
}
