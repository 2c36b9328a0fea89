/**
 * `publishPrekey` and `storeSignalKeys` read a row and later save it, without a lock in between. Elsewhere both are
 * one step; here the save writes what an earlier state of the run held, and the results say exactly when that harms.
 */
module PrekeyStaleWrites {
  import opened Common
  import opened PrekeyBundles
  import opened PrekeyTable
  import opened PrekeyPool
  import opened PrekeyProperties
  import opened PrekeyQueueRuns

  /** storeSignalKeys saves the row it read, with the backup and its time. */
  function SaveStaleStore(s: State, i: nat, read: Row, backup: Backup, stamp: int): State
    requires i < |s.rows|
  {
    s.(rows := s.rows[i := read.(bundle := Spread(read.bundle, EMPTY_OBJECT.(backup := Some(backup))),
                                 lastBackup := Some(stamp))])
  }

  /** publishPrekey saves the row it read, with the body merged over it. */
  function SaveStalePublish(s: State, i: nat, read: Row, body: Bundle): State
    requires i < |s.rows|
  {
    s.(rows := s.rows[i := read.(bundle := Spread(read.bundle, body))])
  }

  /** Either handler inserts a row when it found none. */
  function InsertStale(s: State, row: Row): State {
    s.(rows := s.rows + [row])
  }

  /** A stale store is the atomic one exactly when nothing but the backup and its time changed since the read. */
  lemma StaleSaveIsAtomicIff(s: State, i: nat, read: Row, backup: Backup, now: int, stamp: int)
    requires i < |s.rows| && FindRow(s.rows, s.rows[i].userId, s.rows[i].deviceId) == i
    requires read.userId == s.rows[i].userId && read.deviceId == s.rows[i].deviceId
    requires BackupAllowed(s.rows[i].lastBackup, now)
    ensures SaveStaleStore(s, i, read, backup, stamp).rows
            == Store(s.rows, s.rows[i].userId, s.rows[i].deviceId, backup, now, stamp)
            <==> read.bundle.(backup := None) == s.rows[i].bundle.(backup := None)
  {
    var a := SaveStaleStore(s, i, read, backup, stamp).rows;
    var b := Store(s.rows, s.rows[i].userId, s.rows[i].deviceId, backup, now, stamp);
    assert forall j :: 0 <= j < |a| && j != i ==> a[j] == b[j];
    assert a[i] == b[i] <==> a[i].bundle == b[i].bundle;
    assert a == b <==> a[i] == b[i];
    assert a[i].bundle == read.bundle.(backup := Some(backup));
    assert b[i].bundle == s.rows[i].bundle.(backup := Some(backup));
  }

  // ---------- Prekeys that come back ----------

  /** The prekeys that were handed out and are in a pool again. */
  ghost predicate BackInAPool(s: State, k: PreKey) {
    Taken(s, k) && k in Bag(s.rows)
  }

  /** Overwriting a row brings back exactly the handed-out prekeys that are in the pool written. */
  lemma OverwriteBringsBack(s: State, i: nat, row: Row, k: PreKey)
    requires Inv(s) && i < |s.rows|
    ensures BackInAPool(s.(rows := s.rows[i := row]), k) <==> Taken(s, k) && k in Pool(row.bundle)
  {
    BagUpdateAt(s.rows, i, row, k);
    BagUpdateAt(s.rows[i := row], i, row, k);
    assert Taken(s, k) ==> k !in Bag(s.rows);
    assert Taken(s.(rows := s.rows[i := row]), k) <==> Taken(s, k);
  }

  lemma {:induction false} KeysFromAreTaken(takes: seq<Take>, row: nat, k: PreKey)
    requires k in KeysFrom(takes, row)
    ensures exists a :: 0 <= a < |takes| && takes[a].key == k
  {
    if k in KeysFrom(takes[..|takes| - 1], row) {
      KeysFromAreTaken(takes[..|takes| - 1], row, k);
    }
  }

  lemma TakenFromRow(s: State, takes: seq<Take>, row: nat, k: PreKey)
    requires takes <= s.takes && k in KeysFrom(s.takes[|takes|..], row)
    ensures Taken(s, k)
  {
    KeysFromAreTaken(s.takes[|takes|..], row, k);
    var a :| 0 <= a < |s.takes[|takes|..]| && s.takes[|takes|..][a].key == k;
    assert s.takes[|takes| + a].key == k;
  }

  /**
   * A store that read row `i` and saves after a run without a publish of that device: the prekeys it puts back into
   * a pool after they were handed out are exactly those that requests took from the row since the read. So the pools
   * stay sound exactly when no request took one.
   */
  lemma StaleStoreBringsBack(s: State, es: seq<Event>, i: nat, backup: Backup, stamp: int, k: PreKey)
    requires Inv(s) && FreshRun(s, es) && i < |s.rows|
    requires forall e :: e in es ==> !Publishes(e, s.rows[i].userId, s.rows[i].deviceId)
    ensures var s' := Run(s, es);
            && i < |s'.rows| && s.takes <= s'.takes
            && var stale := SaveStaleStore(s', i, s.rows[i], backup, stamp);
               var taken := KeysFrom(s'.takes[|s.takes|..], i);
               && (BackInAPool(stale, k) <==> k in taken)
               && (KeysOk(stale) <==> taken == [])
  {
    RunKeepsInv(s, es);
    BetweenPublishesARowOnlyDrains(s, es, i);
    var s' := Run(s, es);
    var stale := SaveStaleStore(s', i, s.rows[i], backup, stamp);
    RestoringBringsBack(s', s.takes, i, stale.rows[i], KeysFrom(s'.takes[|s.takes|..], i));
  }

  /** A pool that gets back the keys taken from it. */
  lemma RestoringBringsBack(s: State, before: seq<Take>, i: nat, row: Row, taken: seq<PreKey>)
    requires Inv(s) && i < |s.rows| && before <= s.takes
    requires taken == KeysFrom(s.takes[|before|..], i) && Pool(row.bundle) == taken + Pool(s.rows[i].bundle)
    ensures var stale := s.(rows := s.rows[i := row]);
            && (forall k :: BackInAPool(stale, k) <==> k in taken)
            && (KeysOk(stale) <==> taken == [])
  {
    var stale := s.(rows := s.rows[i := row]);
    forall k
      ensures BackInAPool(stale, k) <==> k in taken
    {
      RestoredKeyIsTaken(s, before, i, row, taken, k);
    }
    if taken == [] {
      BagAfterMerge(s.rows, i, row);
      SameBagKeepsKeys(s, stale);
    } else {
      BackInAPoolIsWrong(stale, taken[0]);
    }
  }

  lemma SameBagKeepsKeys(s: State, s': State)
    requires KeysOk(s) && s'.takes == s.takes && Bag(s'.rows) == Bag(s.rows)
    ensures KeysOk(s')
  {
  }

  lemma BackInAPoolIsWrong(s: State, k: PreKey)
    requires BackInAPool(s, k)
    ensures !KeysOk(s)
  {
  }

  lemma RestoredKeyIsTaken(s: State, before: seq<Take>, i: nat, row: Row, taken: seq<PreKey>, k: PreKey)
    requires Inv(s) && i < |s.rows| && before <= s.takes
    requires taken == KeysFrom(s.takes[|before|..], i) && Pool(row.bundle) == taken + Pool(s.rows[i].bundle)
    ensures BackInAPool(s.(rows := s.rows[i := row]), k) <==> k in taken
  {
    OverwriteBringsBack(s, i, row, k);
    BagUpdateAt(s.rows, i, row, k);
    if k in taken {
      TakenFromRow(s, before, i, k);
    }
    if k in Pool(s.rows[i].bundle) {
      assert Held(s.rows[i], k) > 0;
      assert k in Bag(s.rows);
    }
  }

  /** A stale publish with a fresh pool brings nothing back: it replaces the pool, whatever it read. */
  lemma StalePublishKeepsKeys(s: State, i: nat, read: Row, body: Bundle)
    requires Inv(s) && i < |s.rows| && body.preKeys.Some?
    requires FindRow(s.rows, s.rows[i].userId, s.rows[i].deviceId) == i
    requires FreshKeys(s, PublishBundle(s.rows[i].userId, s.rows[i].deviceId, body))
    ensures KeysOk(SaveStalePublish(s, i, read, body))
  {
    var e := PublishBundle(s.rows[i].userId, s.rows[i].deviceId, body);
    var published := Publish(s.rows, e.userId, e.deviceId, body);
    var stale := SaveStalePublish(s, i, read, body);
    PublishKeepsKeys(s, e);
    BagAfterMerge(published, i, stale.rows[i]);
    assert published[i := stale.rows[i]] == stale.rows;
  }

  /**
   * With a queued prekey, a store that read the row before a request and saves after it: the next request of that user
   * is served the same prekey.
   */
  lemma StaleStoreServesAPrekeyTwice(s: State, u: string, backup: Backup, t: nat, t': nat, stamp: int)
    requires t != t' && t !in s.txns && t' !in s.txns && !UserLocked(s, u) && Queue(s.rows, u) != []
    ensures ChosenRow(s.rows, u) >= 0 && |Run(s, GetEvents(t, u)).rows| == |s.rows|
    ensures var i := ChosenRow(s.rows, u);
            var served := Run(s, GetEvents(t, u));
            var stale := SaveStaleStore(served, i, s.rows[i], backup, stamp);
            var again := Run(stale, GetEvents(t', u));
            ServedKey(again, t, Queue(s.rows, u)[0]) && ServedKey(again, t', Queue(s.rows, u)[0])
  {
    if ChosenRow(s.rows, u) < 0 {
      NoPublishedRowNoQueue(s.rows, u);
    }
    UndisturbedRequestIsOneGet(s, t, u);
    var i, served := ChosenRow(s.rows, u), Run(s, GetEvents(t, u));
    var stale := SaveStaleStore(served, i, s.rows[i], backup, stamp);
    assert served.rows == SaveConsumed(s.rows, i);
    assert stale.rows == s.rows[i := stale.rows[i]];
    SamePoolSameQueue(s.rows, i, stale.rows[i], u);
    StillUnlocked(s, stale, t, u);
    UndisturbedRequestIsOneGet(stale, t', u);
  }

  lemma StillUnlocked(s: State, s': State, t: nat, u: string)
    requires !UserLocked(s, u) && t in s'.txns && s'.txns == s.txns[t := s'.txns[t]] && s'.txns[t].phase.Answered?
    ensures !UserLocked(s', u)
  {
  }

  // ---------- Backups that get lost ----------

  lemma StepAppends(s: State, e: Event, i: nat)
    requires Inv(s) && i < |s.rows|
    ensures var s' := Step(s, e);
            && s.backups <= s'.backups && i < |s'.rows|
            && s'.rows[i].userId == s.rows[i].userId && s'.rows[i].deviceId == s.rows[i].deviceId
  {
    if Consumes(s, e) {
      CommitTouchesNoBackup(s, e);
    } else {
      OtherStepAppends(s, e, i);
    }
  }

  lemma OtherStepAppends(s: State, e: Event, i: nat)
    requires i < |s.rows| && !Consumes(s, e)
    ensures var s' := Step(s, e);
            && s.backups <= s'.backups && i < |s'.rows|
            && s'.rows[i].userId == s.rows[i].userId && s'.rows[i].deviceId == s.rows[i].deviceId
  {
    if !e.PublishBundle? && !e.StoreKeys? {
      assert Step(s, e).rows == s.rows && Step(s, e).backups == s.backups;
    }
  }

  lemma {:induction false} RunAppends(s: State, es: seq<Event>, i: nat)
    requires Inv(s) && FreshRun(s, es) && i < |s.rows|
    ensures var s' := Run(s, es);
            && s.backups <= s'.backups && i < |s'.rows|
            && s'.rows[i].userId == s.rows[i].userId && s'.rows[i].deviceId == s.rows[i].deviceId
    decreases |es|
  {
    if es != [] {
      StepAppends(s, es[0], i);
      StepKeepsInv(s, es[0]);
      RunAppends(Step(s, es[0]), es[1..], i);
    }
  }

  /** Some backup of the device was accepted after the first `from`. */
  ghost predicate AcceptedSince(log: seq<Accepted>, from: nat, userId: string, deviceId: string) {
    exists a :: from <= a < |log| && log[a].userId == userId && log[a].deviceId == deviceId
  }

  lemma LogMovesOnIff(log: seq<Accepted>, log': seq<Accepted>, userId: string, deviceId: string)
    requires log <= log' && DayApart(log')
    ensures LoggedTime(log, userId, deviceId) == LoggedTime(log', userId, deviceId)
            && LoggedBlob(log, userId, deviceId) == LoggedBlob(log', userId, deviceId)
            <==> !AcceptedSince(log', |log|, userId, deviceId)
  {
    var i, j := LastBackup(log, userId, deviceId), LastBackup(log', userId, deviceId);
    if AcceptedSince(log', |log|, userId, deviceId) {
      assert i < |log| <= j;
      if i >= 0 {
        assert log'[i] == log[i];
        assert log'[j].at - log'[i].at >= 24 * 3_600_000;
      }
    } else {
      assert j < |log|;
      assert j >= 0 ==> log[j] == log'[j];
      assert i >= 0 ==> log'[i] == log[i];
      assert i == j;
    }
  }

  /**
   * A publish that read row `i` and saves after any run: the row still shows the device's last accepted backup
   * exactly when no backup of the device was accepted since the read.
   */
  lemma StalePublishKeepsTheBackupIff(s: State, es: seq<Event>, i: nat, body: Bundle)
    requires Inv(s) && BackupsOk(s) && FreshRun(s, es) && i < |s.rows| && body.backup == None
    requires forall e :: e in es ==> PlainEvent(e)
    ensures var s' := Run(s, es);
            && i < |s'.rows|
            && (RowAgrees(SaveStalePublish(s', i, s.rows[i], body).rows[i], s'.backups)
                <==> !AcceptedSince(s'.backups, |s.backups|, s.rows[i].userId, s.rows[i].deviceId))
  {
    RunAppends(s, es, i);
    RowsHoldTheLastAcceptedBackup(s, es);
    LogMovesOnIff(s.backups, Run(s, es).backups, s.rows[i].userId, s.rows[i].deviceId);
    assert RowAgrees(s.rows[i], s.backups);
  }

  // ---------- Rows that get doubled ----------

  predicate WritesDevice(e: Event, userId: string, deviceId: string) {
    (e.PublishBundle? || e.StoreKeys?) && e.userId == userId && e.deviceId == deviceId
  }

  lemma StepAddsTheRowIff(s: State, e: Event, userId: string, deviceId: string)
    requires Inv(s)
    ensures FindRow(Step(s, e).rows, userId, deviceId) >= 0
            <==> FindRow(s.rows, userId, deviceId) >= 0 || WritesDevice(e, userId, deviceId)
  {
    var rows, rows', i := s.rows, Step(s, e).rows, FindRow(s.rows, userId, deviceId);
    if i >= 0 {
      StepAppends(s, e, i);
      FoundAt(rows', i, userId, deviceId);
    } else if Consumes(s, e) {
      CommitTouchesNoBackup(s, e);
      StillNotFound(rows, rows', userId, deviceId);
    } else {
      OtherStepAddsTheRow(s, e, userId, deviceId);
    }
  }

  lemma FoundAt(rows: seq<Row>, i: nat, userId: string, deviceId: string)
    requires i < |rows| && rows[i].userId == userId && rows[i].deviceId == deviceId
    ensures FindRow(rows, userId, deviceId) >= 0
  {
  }

  lemma StillNotFound(rows: seq<Row>, rows': seq<Row>, userId: string, deviceId: string)
    requires FindRow(rows, userId, deviceId) < 0 && |rows'| == |rows|
    requires forall j :: 0 <= j < |rows| ==> rows'[j].userId == rows[j].userId && rows'[j].deviceId == rows[j].deviceId
    ensures FindRow(rows', userId, deviceId) < 0
  {
  }

  lemma OtherStepAddsTheRow(s: State, e: Event, userId: string, deviceId: string)
    requires !Consumes(s, e) && FindRow(s.rows, userId, deviceId) < 0
    ensures FindRow(Step(s, e).rows, userId, deviceId) >= 0 <==> WritesDevice(e, userId, deviceId)
  {
    if WritesDevice(e, userId, deviceId) {
      FoundAt(Step(s, e).rows, |s.rows|, userId, deviceId);
    } else if !e.PublishBundle? && !e.StoreKeys? {
      assert Step(s, e).rows == s.rows;
    }
  }

  lemma {:induction false} RunAddsTheRowIff(s: State, es: seq<Event>, userId: string, deviceId: string)
    requires Inv(s) && FreshRun(s, es)
    ensures FindRow(Run(s, es).rows, userId, deviceId) >= 0
            <==> FindRow(s.rows, userId, deviceId) >= 0 || exists e :: e in es && WritesDevice(e, userId, deviceId)
    decreases |es|
  {
    if es != [] {
      StepAddsTheRowIff(s, es[0], userId, deviceId);
      StepKeepsInv(s, es[0]);
      RunAddsTheRowIff(Step(s, es[0]), es[1..], userId, deviceId);
      assert forall e :: e in es <==> e == es[0] || e in es[1..];
    }
  }

  /**
   * A first write of a device that found no row and inserts one after any run: the device has one row exactly when
   * no other write of the device came in between.
   */
  lemma StaleInsertKeepsOneRowIff(s: State, es: seq<Event>, row: Row)
    requires Inv(s) && FreshRun(s, es) && FindRow(s.rows, row.userId, row.deviceId) < 0
    ensures OneRowPerDevice(InsertStale(Run(s, es), row).rows)
            <==> !exists e :: e in es && WritesDevice(e, row.userId, row.deviceId)
  {
    RunKeepsInv(s, es);
    RunAddsTheRowIff(s, es, row.userId, row.deviceId);
    var rows := Run(s, es).rows;
    var i := FindRow(rows, row.userId, row.deviceId);
    var rows' := rows + [row];
    if i >= 0 {
      assert rows'[i].deviceId == rows'[|rows|].deviceId;
    }
  }
}
