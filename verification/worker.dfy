/** worker.py: one reconciliation cycle. Each table's pending rows are fetched (oldest
    first, at most 100), each is handed to the sync oracle once, and each gets exactly one
    status update, in fetch order; an exception from one record's sync is recorded as a
    failure and the loop goes on. The per-record pacing sleep, the inter-cycle sleep and
    the endless outer loop are not modelled; `clock(i)` is the time of the i-th update. */
module Worker {
  import opened Nullable
  import opened Store

  /** One status update issued by the worker. */
  datatype Update = Update(id: Id, status: string, error: Option<string>, at: Instant)

  /** The updates applied in order. */
  function ApplyAll<D>(t: Table<D>, us: seq<Update>): (r: Table<D>)
    ensures |r| == |t|
    ensures forall i :: 0 <= i < |t| ==>
      r[i].id == t[i].id && r[i].data == t[i].data && r[i].createdAt == t[i].createdAt
  {
    if |us| == 0 then t
    else
      var last := us[|us| - 1];
      UpdateSyncStatus(ApplyAll(t, us[..|us| - 1]), last.id, last.status, last.error, last.at)
  }

  /** `u` is what the worker records for `row` after attempt `a` at time `at`: success
      exactly when the attempt succeeded, otherwise failed with the returned error or the
      exception text. */
  predicate Records<D>(u: Update, row: Row<D>, a: Attempt, at: Instant) {
    && u.id == row.id && u.at == at
    && (Succeeded(a) ==> u.status == SUCCESS && u.error.None?)
    && (a.Returned? && !a.success ==> u.status == FAILED && u.error == a.error)
    && (a.Raised? ==> u.status == FAILED && u.error == Some(a.message))
  }

  /** The number of rows whose attempt succeeded. */
  function CountSucceeded<D>(rows: seq<Row<D>>, sync: Row<D> -> Attempt): (n: nat)
    ensures n <= |rows|
  {
    if |rows| == 0 then 0
    else CountSucceeded(rows[..|rows| - 1], sync) + (if Succeeded(sync(rows[|rows| - 1])) then 1 else 0)
  }

  /** The update recorded for one row after attempt `a` at time `at`. */
  function UpdateOf<D>(row: Row<D>, a: Attempt, at: Instant): Update
  {
    Update(row.id, OutcomeStatus(a).0, OutcomeStatus(a).1, at)
  }

  /** The updates issued for the fetched rows, as a reference definition. */
  function UpdatesFor<D>(fetched: seq<Row<D>>, sync: Row<D> -> Attempt, clock: nat -> Instant): (us: seq<Update>)
    ensures |us| == |fetched|
  {
    seq(|fetched|, i requires 0 <= i < |fetched| => UpdateOf(fetched[i], sync(fetched[i]), clock(i)))
  }

  /** The updates a cycle issues for table t. */
  function CycleUpdates<D>(t: Table<D>, sync: Row<D> -> Attempt, clock: nat -> Instant): (us: seq<Update>)
    ensures |us| == |PendingRows(t)|
  {
    UpdatesFor(PendingRows(t), sync, clock)
  }

  /** The reference updates record each fetched row's own attempt. */
  lemma UpdatesForRecord<D>(fetched: seq<Row<D>>, sync: Row<D> -> Attempt, clock: nat -> Instant)
    ensures forall i :: 0 <= i < |fetched| ==>
      Records(UpdatesFor(fetched, sync, clock)[i], fetched[i], sync(fetched[i]), clock(i))
  {
  }

  /** Applying one more update. */
  lemma ApplyAllSnoc<D>(t: Table<D>, us: seq<Update>, u: Update)
    ensures ApplyAll(t, us + [u]) == UpdateSyncStatus(ApplyAll(t, us), u.id, u.status, u.error, u.at)
  {
    assert (us + [u])[..|us|] == us;
  }

  /** Counting one more row. */
  lemma CountSucceededSnoc<D>(rows: seq<Row<D>>, i: nat, sync: Row<D> -> Attempt)
    requires i < |rows|
    ensures CountSucceeded(rows[..i + 1], sync)
         == CountSucceeded(rows[..i], sync) + (if Succeeded(sync(rows[i])) then 1 else 0)
  {
    assert rows[..i + 1][..i] == rows[..i];
  }

  /** One record's turn in the loop: a success, a returned failure or an exception
      becomes the status update that records it. */
  method RecordOne<D>(row: Row<D>, a: Attempt, at: Instant) returns (u: Update, ok: bool)
    ensures Records(u, row, a, at)
    ensures ok <==> Succeeded(a)
    ensures u == UpdateOf(row, a, at)
  {
    match a {
      case Returned(true, _) =>
        u, ok := Update(row.id, SUCCESS, None, at), true;
      case Returned(false, error) =>
        u, ok := Update(row.id, FAILED, error, at), false;
      case Raised(message) =>
        u, ok := Update(row.id, FAILED, Some(message), at), false;
    }
  }

  /** The loop of a retry function over the rows it fetched. */
  method SyncEach<D>(t: Table<D>, fetched: seq<Row<D>>, sync: Row<D> -> Attempt, clock: nat -> Instant)
    returns (t': Table<D>, updates: seq<Update>, synced: nat)
    ensures updates == UpdatesFor(fetched, sync, clock)
    ensures t' == ApplyAll(t, updates)
    ensures synced == CountSucceeded(fetched, sync)
  {
    ghost var reference := UpdatesFor(fetched, sync, clock);
    t', updates, synced := t, [], 0;
    for i := 0 to |fetched|
      invariant updates == reference[..i]
      invariant t' == ApplyAll(t, updates)
      invariant synced == CountSucceeded(fetched[..i], sync)
    {
      var u, ok := RecordOne(fetched[i], sync(fetched[i]), clock(i));
      ApplyAllSnoc(t, updates, u);
      CountSucceededSnoc(fetched, i, sync);
      assert reference[..i + 1] == updates + [u];
      t' := UpdateSyncStatus(t', u.id, u.status, u.error, u.at);
      updates := updates + [u];
      if ok {
        synced := synced + 1;
      }
    }
    assert fetched[..|fetched|] == fetched;
    assert reference[..|fetched|] == reference;
  }

  /** `retry_failed_checkins` / `retry_failed_mail`: every fetched row gets exactly one
      status update, in fetch order, recording its own attempt; the table afterwards is
      the table with those updates applied; the count returned is the number of rows whose
      sync succeeded; with nothing pending nothing changes and 0 is returned. */
  method RetryFailed<D>(t: Table<D>, sync: Row<D> -> Attempt, clock: nat -> Instant)
    returns (t': Table<D>, updates: seq<Update>, synced: nat)
    ensures |updates| == |PendingRows(t)|
    ensures forall i :: 0 <= i < |updates| ==>
      Records(updates[i], PendingRows(t)[i], sync(PendingRows(t)[i]), clock(i))
    ensures updates == CycleUpdates(t, sync, clock)
    ensures t' == ApplyAll(t, updates)
    ensures synced == CountSucceeded(PendingRows(t), sync)
    ensures |PendingRows(t)| == 0 ==> synced == 0 && t' == t
  {
    var pending := PendingRows(t);
    if |pending| == 0 {
      return t, [], 0;
    }
    t', updates, synced := SyncEach(t, pending, sync, clock);
    UpdatesForRecord(pending, sync, clock);
  }

  predicate DistinctIds(us: seq<Update>) {
    forall a, b :: 0 <= a < b < |us| ==> us[a].id != us[b].id
  }

  /** With distinct ids, each update lands on the rows with its id and nothing else
      changes. */
  lemma {:induction false} ApplyAllEffect<D>(t: Table<D>, us: seq<Update>, j: nat)
    requires j < |t| && DistinctIds(us)
    ensures (forall k :: 0 <= k < |us| ==> us[k].id != t[j].id) ==> ApplyAll(t, us)[j] == t[j]
    ensures forall k :: 0 <= k < |us| && us[k].id == t[j].id ==>
      ApplyAll(t, us)[j].sync == Recorded(t[j].sync, us[k].status, us[k].error, us[k].at)
  {
    if |us| > 0 {
      var init := us[..|us| - 1];
      var last := us[|us| - 1];
      assert DistinctIds(init);
      ApplyAllEffect(t, init, j);
      var prev := ApplyAll(t, init);
      UpdateAt(prev, last.id, last.status, last.error, last.at, j);
      if last.id == t[j].id {
        assert forall k :: 0 <= k < |init| ==> init[k].id != t[j].id;
        assert prev[j] == t[j];
        forall k | 0 <= k < |us| && us[k].id == t[j].id
          ensures k == |us| - 1
        {
        }
      } else {
        forall k | 0 <= k < |us| && us[k].id == t[j].id
          ensures k < |init| && init[k] == us[k]
        {
        }
      }
    }
  }

  /** One update, seen from one row. */
  lemma UpdateAt<D>(t: Table<D>, id: Id, status: string, error: Option<string>, now: Instant, j: nat)
    requires j < |t|
    ensures UpdateSyncStatus(t, id, status, error, now)[j]
         == if t[j].id == id then t[j].(sync := Recorded(t[j].sync, status, error, now)) else t[j]
  {
  }

  /** Applying the updates for rows with distinct ids: each row that was fetched holds
      what its own attempt earned, and every other row is unchanged. */
  lemma FetchedRecorded<D>(t: Table<D>, fetched: seq<Row<D>>, sync: Row<D> -> Attempt, clock: nat -> Instant, j: nat)
    requires UniqueIds(fetched) && j < |t|
    ensures var t' := ApplyAll(t, UpdatesFor(fetched, sync, clock));
      && (forall i :: 0 <= i < |fetched| && t[j].id == fetched[i].id ==>
            t'[j].sync == Recorded(t[j].sync, OutcomeStatus(sync(fetched[i])).0, OutcomeStatus(sync(fetched[i])).1, clock(i)))
      && ((forall i :: 0 <= i < |fetched| ==> fetched[i].id != t[j].id) ==> t'[j] == t[j])
  {
    var us := UpdatesFor(fetched, sync, clock);
    assert forall i :: 0 <= i < |us| ==> us[i] == UpdateOf(fetched[i], sync(fetched[i]), clock(i));
    assert DistinctIds(us);
    ApplyAllEffect(t, us, j);
  }

  /** What recording an attempt does to an envelope. */
  lemma RecordedAttempt(e: Envelope, a: Attempt, now: Instant)
    ensures var r := Recorded(e, OutcomeStatus(a).0, OutcomeStatus(a).1, now);
      && (r.status == SUCCESS <==> Succeeded(a))
      && (!Succeeded(a) ==> r.status == FAILED)
      && (Succeeded(a) ==> r.lastError.None? && r.writtenAt == Some(now))
  {
  }

  /** After a cycle on a table with unique ids, each fetched row holds exactly the
      envelope its own attempt earned, and every row that was not fetched is unchanged. */
  lemma CycleRecordsEachFetched<D>(t: Table<D>, sync: Row<D> -> Attempt, clock: nat -> Instant, j: nat)
    requires UniqueIds(t) && j < |t|
    ensures var fetched := PendingRows(t);
      var t' := ApplyAll(t, CycleUpdates(t, sync, clock));
      && (forall i :: 0 <= i < |fetched| && t[j].id == fetched[i].id ==>
            && (t'[j].sync.status == SUCCESS <==> Succeeded(sync(fetched[i])))
            && (!Succeeded(sync(fetched[i])) ==> t'[j].sync.status == FAILED)
            && (Succeeded(sync(fetched[i])) ==> t'[j].sync.lastError.None? && t'[j].sync.writtenAt == Some(clock(i))))
      && ((forall i :: 0 <= i < |fetched| ==> fetched[i].id != t[j].id) ==> t'[j] == t[j])
  {
    var fetched := PendingRows(t);
    PendingUnique(t);
    FetchedRecorded(t, fetched, sync, clock, j);
    forall i | 0 <= i < |fetched| && t[j].id == fetched[i].id {
      RecordedAttempt(t[j].sync, sync(fetched[i]), clock(i));
    }
  }

  /** A cycle keeps every envelope consistent when no returned failure lacks an error and
      the clock never runs behind a row's creation. */
  lemma {:induction false} ApplyAllKeepsConsistent<D>(t: Table<D>, us: seq<Update>)
    requires AllConsistent(t)
    requires forall k :: 0 <= k < |us| ==>
      us[k].status == SUCCESS || (us[k].status == FAILED && us[k].error.Some?)
    requires forall k, j :: 0 <= k < |us| && 0 <= j < |t| && t[j].id == us[k].id ==> t[j].createdAt <= us[k].at
    ensures AllConsistent(ApplyAll(t, us))
  {
    if |us| > 0 {
      var init := us[..|us| - 1];
      var last := us[|us| - 1];
      ApplyAllKeepsConsistent(t, init);
      UpdateKeepsConsistent(ApplyAll(t, init), last.id, last.status, last.error, last.at);
    }
  }

  lemma CycleKeepsConsistent<D>(t: Table<D>, sync: Row<D> -> Attempt, clock: nat -> Instant)
    requires AllConsistent(t)
    requires forall i :: 0 <= i < |PendingRows(t)| ==> Explained(sync(PendingRows(t)[i]))
    requires forall i :: 0 <= i < |PendingRows(t)| ==> PendingRows(t)[i].createdAt <= clock(i)
    requires UniqueIds(t)
    ensures AllConsistent(ApplyAll(t, CycleUpdates(t, sync, clock)))
  {
    var fetched := PendingRows(t);
    var us := CycleUpdates(t, sync, clock);
    forall k, j | 0 <= k < |us| && 0 <= j < |t| && t[j].id == us[k].id
      ensures t[j].createdAt <= us[k].at
    {
      assert fetched[k] in t;
      var p :| 0 <= p < |t| && t[p] == fetched[k];
      assert p == j;
    }
    ApplyAllKeepsConsistent(t, us);
  }

  /** Both tables. */
  datatype Db = Db(checkins: Table<CheckinFields>, mail: Table<MailEntry>)

  datatype CycleReport = Completed(checkinsSynced: nat, mailSynced: nat) | Aborted(reason: string)

  /** One iteration of `run_worker`: check-ins first, then mail. A store error while
      fetching a table is caught at cycle level: the cycle ends with that error, keeping
      the updates already made (so a mail fetch error keeps the check-in updates). */
  method RunCycle(
    db: Db,
    syncCheckin: Row<CheckinFields> -> Attempt,
    syncMail: Row<MailEntry> -> Attempt,
    checkinClock: nat -> Instant,
    mailClock: nat -> Instant,
    checkinFetchError: Option<string>,
    mailFetchError: Option<string>) returns (db': Db, report: CycleReport)
    ensures checkinFetchError.Some? ==> db' == db && report == Aborted(checkinFetchError.value)
    ensures checkinFetchError.None? ==>
      db'.checkins == ApplyAll(db.checkins, CycleUpdates(db.checkins, syncCheckin, checkinClock))
    ensures checkinFetchError.None? && mailFetchError.Some? ==>
      db'.mail == db.mail && report == Aborted(mailFetchError.value)
    ensures checkinFetchError.None? && mailFetchError.None? ==>
      && db'.mail == ApplyAll(db.mail, CycleUpdates(db.mail, syncMail, mailClock))
      && report == Completed(CountSucceeded(PendingRows(db.checkins), syncCheckin),
                             CountSucceeded(PendingRows(db.mail), syncMail))
  {
    if checkinFetchError.Some? {
      return db, Aborted(checkinFetchError.value);
    }
    var checkins, _, checkinsSynced := RetryFailed(db.checkins, syncCheckin, checkinClock);
    if mailFetchError.Some? {
      return Db(checkins, db.mail), Aborted(mailFetchError.value);
    }
    var mail, _, mailSynced := RetryFailed(db.mail, syncMail, mailClock);
    return Db(checkins, mail), Completed(checkinsSynced, mailSynced);
  }
}
