/** The `prekeys` table: row selection, the upserts, and the FIFO queue its pools form together. */
module PrekeyTable {
  import opened Common
  import opened PrekeyBundles

  /** `lastBackup` is the backup time in milliseconds. Rows are kept in `createdAt` order. */
  datatype Row = Row(userId: string, deviceId: string, bundle: Bundle, lastBackup: Option<int>)

  const MS_PER_HOUR := 3_600_000
  const BACKUP_INTERVAL_HOURS := 24

  // ---------- Selecting a row ----------

  predicate Usable(row: Row, userId: string, needKey: bool) {
    row.userId == userId && IsPrekeyBundle(row.bundle) && (needKey ==> Pool(row.bundle) != [])
  }

  /** The newest usable row, or -1. */
  function Newest(rows: seq<Row>, userId: string, needKey: bool): (i: int)
    ensures -1 <= i < |rows|
    ensures i >= 0 ==> Usable(rows[i], userId, needKey)
    ensures forall j :: i < j < |rows| ==> !Usable(rows[j], userId, needKey)
  {
    if rows == [] then -1
    else if Usable(rows[|rows| - 1], userId, needKey) then |rows| - 1
    else Newest(rows[..|rows| - 1], userId, needKey)
  }

  /** Prefer a row that still has a one-time prekey, then any published row. */
  function ChosenRow(rows: seq<Row>, userId: string): (i: int)
    ensures -1 <= i < |rows|
    ensures i >= 0 ==> Usable(rows[i], userId, false)
  {
    var withKey := Newest(rows, userId, true);
    if withKey >= 0 then withKey else Newest(rows, userId, false)
  }

  /**
   * A row is chosen exactly when the user has a published one. It has a prekey if any row of the user has one, and
   * every newer published row of the user has none; without any prekey it is the newest published row.
   */
  lemma ChosenRowMeans(rows: seq<Row>, userId: string)
    ensures var i := ChosenRow(rows, userId);
            && (i >= 0 <==> exists j :: 0 <= j < |rows| && rows[j].userId == userId && rows[j].bundle.preKeys.Some?)
            && (i >= 0 ==> rows[i].userId == userId && rows[i].bundle.preKeys.Some?)
            && forall j :: 0 <= j < |rows| && j != i && rows[j].userId == userId && rows[j].bundle.preKeys.Some? ==>
                 && (j > i ==> rows[j].bundle.preKeys == Some([]))
                 && (rows[i].bundle.preKeys == Some([]) ==> j < i && rows[j].bundle.preKeys == Some([]))
  {
    var withKey, any := Newest(rows, userId, true), Newest(rows, userId, false);
    forall j | 0 <= j < |rows| && rows[j].userId == userId && rows[j].bundle.preKeys.Some?
      ensures any >= 0 && j <= any && (j > withKey ==> rows[j].bundle.preKeys == Some([]))
    {
      assert Usable(rows[j], userId, false);
      assert j > withKey ==> !Usable(rows[j], userId, true);
    }
    assert any >= 0 ==> Usable(rows[any], userId, false);
    assert withKey >= 0 ==> Usable(rows[withKey], userId, true);
  }

  /** Two tables that hold the same rows for one user, at the same places. */
  ghost predicate SameFor(userId: string, a: seq<Row>, b: seq<Row>) {
    |a| == |b|
    && forall i :: 0 <= i < |a| ==>
      (a[i].userId == userId <==> b[i].userId == userId) && (a[i].userId == userId ==> a[i] == b[i])
  }

  lemma ChosenRowIsPerUser(userId: string, a: seq<Row>, b: seq<Row>)
    requires SameFor(userId, a, b)
    ensures ChosenRow(a, userId) == ChosenRow(b, userId)
  {
  }

  /** findOne by user and device: the row's index, or -1. */
  function FindRow(rows: seq<Row>, userId: string, deviceId: string): (i: int)
    ensures -1 <= i < |rows|
    ensures i >= 0 ==> rows[i].userId == userId && rows[i].deviceId == deviceId
    ensures i < 0 ==> forall j :: 0 <= j < |rows| ==> !(rows[j].userId == userId && rows[j].deviceId == deviceId)
  {
    if rows == [] then -1
    else if rows[|rows| - 1].userId == userId && rows[|rows| - 1].deviceId == deviceId then |rows| - 1
    else FindRow(rows[..|rows| - 1], userId, deviceId)
  }

  ghost predicate OneRowPerDevice(rows: seq<Row>) {
    forall i, j :: 0 <= i < j < |rows| && rows[i].userId == rows[j].userId ==> rows[i].deviceId != rows[j].deviceId
  }

  // ---------- Writing ----------

  /** publishPrekey: merge the body into the device's row, or insert one. */
  function Publish(rows: seq<Row>, userId: string, deviceId: string, body: Bundle): seq<Row> {
    var i := FindRow(rows, userId, deviceId);
    if i >= 0 then rows[i := rows[i].(bundle := Spread(rows[i].bundle, body))]
    else rows + [Row(userId, deviceId, body, None)]
  }

  /** The 24-hour limit, on exact milliseconds. */
  predicate BackupAllowed(last: Option<int>, now: int) {
    last.Some? ==> now - last.value >= BACKUP_INTERVAL_HOURS * MS_PER_HOUR
  }

  /** Math.ceil(24 - hoursSinceLastBackup) */
  function HoursRemaining(last: int, now: int): int {
    -((now - last - BACKUP_INTERVAL_HOURS * MS_PER_HOUR) / MS_PER_HOUR)
  }

  predicate StoreAccepted(rows: seq<Row>, userId: string, deviceId: string, now: int) {
    var i := FindRow(rows, userId, deviceId);
    i >= 0 ==> BackupAllowed(rows[i].lastBackup, now)
  }

  /** storeSignalKeys after validation: the clock is read once for the limit and once for the stamp. */
  function Store(rows: seq<Row>, userId: string, deviceId: string, backup: Backup, now: int, stamp: int): seq<Row> {
    var i := FindRow(rows, userId, deviceId);
    if !StoreAccepted(rows, userId, deviceId, now) then rows
    else if i >= 0 then
      rows[i := rows[i].(bundle := Spread(rows[i].bundle, EMPTY_OBJECT.(backup := Some(backup))),
                         lastBackup := Some(stamp))]
    else rows + [Row(userId, deviceId, EMPTY_OBJECT.(backup := Some(backup)), Some(stamp))]
  }

  /** Saving a row after one of its prekeys was handed out. */
  function SaveConsumed(rows: seq<Row>, i: nat): seq<Row>
    requires i < |rows| && IsPrekeyBundle(rows[i].bundle)
  {
    var c := Consume(rows[i].bundle);
    if c.consumed then rows[i := rows[i].(bundle := c.storedBundle.value)] else rows
  }

  /** The figure in the refusal is between 1 and 24 and is the least wait, in whole hours, that is accepted. */
  lemma RefusalNamesTheLeastWait(last: int, now: int, wait: int)
    requires last <= now && !BackupAllowed(Some(last), now)
    ensures now - last < 24 * 3_600_000
    ensures 1 <= HoursRemaining(last, now) <= 24
    ensures now + wait * 3_600_000 - last >= 24 * 3_600_000 <==> wait >= HoursRemaining(last, now)
    ensures BackupAllowed(Some(last), now + wait * 3_600_000) <==> wait >= HoursRemaining(last, now)
  {
  }

  /** A publish and a store on one device commute exactly when the published body cannot clobber the backup. */
  lemma PublishAndStoreCommuteIff(rows: seq<Row>, userId: string, deviceId: string, body: Bundle, backup: Backup,
                                  now: int, stamp: int)
    ensures Store(Publish(rows, userId, deviceId, body), userId, deviceId, backup, now, stamp)
            == Publish(Store(rows, userId, deviceId, backup, now, stamp), userId, deviceId, body)
            <==> body.backup in {None, Some(backup)} || !StoreAccepted(rows, userId, deviceId, now)
  {
    var i := FindRow(rows, userId, deviceId);
    var published := Publish(rows, userId, deviceId, body);
    var stored := Store(rows, userId, deviceId, backup, now, stamp);
    var at := if i >= 0 then i else |rows|;
    FindRowAfterUpsert(rows, published, userId, deviceId, at);
    if StoreAccepted(rows, userId, deviceId, now) {
      FindRowAfterUpsert(rows, stored, userId, deviceId, at);
      var ps := Store(published, userId, deviceId, backup, now, stamp);
      var sp := Publish(stored, userId, deviceId, body);
      assert ps[at].bundle.backup == Some(backup);
      assert sp[at].bundle.backup == Over(Some(backup), body.backup);
      assert forall j :: 0 <= j < |ps| && j != at ==> ps[j] == sp[j];
      if body.backup in {None, Some(backup)} {
        assert ps[at] == sp[at];
        assert ps == sp;
      }
    }
  }

  lemma FindRowAfterUpsert(rows: seq<Row>, rows': seq<Row>, userId: string, deviceId: string, at: nat)
    requires FindRow(rows, userId, deviceId) == if at < |rows| then at else -1
    requires |rows'| == if at < |rows| then |rows| else |rows| + 1
    requires at < |rows'| && rows'[at].userId == userId && rows'[at].deviceId == deviceId
    requires forall j :: 0 <= j < |rows| && j != at ==> rows'[j] == rows[j]
    ensures FindRow(rows', userId, deviceId) == at
  {
    if at < |rows| {
      FindRowIsLast(rows, userId, deviceId);
    }
    FindRowIsLast(rows', userId, deviceId);
  }

  lemma {:induction false} FindRowIsLast(rows: seq<Row>, userId: string, deviceId: string)
    ensures var i := FindRow(rows, userId, deviceId);
            forall j :: i < j < |rows| ==> !(rows[j].userId == userId && rows[j].deviceId == deviceId)
  {
    if rows != [] {
      var init := rows[..|rows| - 1];
      FindRowIsLast(init, userId, deviceId);
      var i := FindRow(rows, userId, deviceId);
      forall j | i < j < |rows|
        ensures !(rows[j].userId == userId && rows[j].deviceId == deviceId)
      {
        if j < |rows| - 1 {
          assert rows[j] == init[j];
        }
      }
    }
  }

  // ---------- The queue of one-time prekeys ----------

  /** All pools of a user as one queue, newest row first. */
  function Queue(rows: seq<Row>, userId: string): seq<PreKey> {
    if rows == [] then [] else PoolFor(rows[|rows| - 1], userId) + Queue(rows[..|rows| - 1], userId)
  }

  function PoolFor(row: Row, userId: string): seq<PreKey> {
    if row.userId == userId then Pool(row.bundle) else []
  }

  lemma {:induction false} QueueSplit(older: seq<Row>, newer: seq<Row>, userId: string)
    ensures Queue(older + newer, userId) == Queue(newer, userId) + Queue(older, userId)
  {
    if newer == [] {
      assert older + newer == older;
    } else {
      var init, last := newer[..|newer| - 1], newer[|newer| - 1];
      QueueSplit(older, init, userId);
      assert (older + newer)[..|older + newer| - 1] == older + init;
      ConcatAssociates(PoolFor(last, userId), Queue(init, userId), Queue(older, userId));
    }
  }

  lemma {:induction false} QueueOfDrainedRows(rows: seq<Row>, userId: string)
    requires forall j :: 0 <= j < |rows| && rows[j].userId == userId ==> Pool(rows[j].bundle) == []
    ensures Queue(rows, userId) == []
  {
    if rows != [] {
      QueueOfDrainedRows(rows[..|rows| - 1], userId);
    }
  }

  /** A row seen from the queue: what is in front of its pool, and what is behind. */
  lemma QueueAround(rows: seq<Row>, i: nat, userId: string)
    requires i < |rows|
    ensures Queue(rows, userId)
            == Queue(rows[i + 1..], userId) + (PoolFor(rows[i], userId) + Queue(rows[..i], userId))
  {
    QueueSplit(rows[..i + 1], rows[i + 1..], userId);
    assert rows == rows[..i + 1] + rows[i + 1..];
    assert rows[..i + 1][..i] == rows[..i];
  }

  /** Consuming from the chosen row, seen from its user's queue. */
  lemma ConsumePopsOwnQueue(rows: seq<Row>, userId: string)
    requires ChosenRow(rows, userId) >= 0
    ensures var i, queue := ChosenRow(rows, userId), Queue(rows, userId);
            && (Consume(rows[i].bundle).consumed <==> queue != [])
            && (queue != [] ==> Pool(Consume(rows[i].bundle).clientBundle) == [queue[0]]
                                && Queue(SaveConsumed(rows, i), userId) == queue[1..])
  {
    var i := ChosenRow(rows, userId);
    if Pool(rows[i].bundle) == [] {
      forall j | 0 <= j < |rows| && rows[j].userId == userId
        ensures Pool(rows[j].bundle) == []
      {
        assert Newest(rows, userId, true) < 0;
        assert !Usable(rows[j], userId, true);
      }
      QueueOfDrainedRows(rows, userId);
    } else {
      var rows' := SaveConsumed(rows, i);
      QueueAround(rows, i, userId);
      QueueAround(rows', i, userId);
      assert rows'[i + 1..] == rows[i + 1..] && rows'[..i] == rows[..i];
      QueueOfDrainedRows(rows[i + 1..], userId);
      PopHead(Pool(rows[i].bundle), Pool(rows'[i].bundle), Queue(rows[..i], userId));
    }
  }

  lemma PopHead(pool: seq<PreKey>, rest: seq<PreKey>, behind: seq<PreKey>)
    requires pool != [] && rest == pool[1..]
    ensures ([] + (pool + behind))[0] == pool[0] && [] + (rest + behind) == ([] + (pool + behind))[1..]
  {
  }

  /** Consuming one user's prekey does not touch another user's queue. */
  lemma ConsumeKeepsOtherQueues(rows: seq<Row>, i: nat, v: string)
    requires i < |rows| && IsPrekeyBundle(rows[i].bundle) && rows[i].userId != v
    ensures Queue(SaveConsumed(rows, i), v) == Queue(rows, v)
  {
    var rows' := SaveConsumed(rows, i);
    QueueAround(rows, i, v);
    QueueAround(rows', i, v);
    assert rows'[i + 1..] == rows[i + 1..] && rows'[..i] == rows[..i];
  }

  lemma AddedRowsStayInFront(seenRows: seq<Row>, added: seq<Row>, userId: string)
    requires ChosenRow(seenRows, userId) >= 0
    ensures var i := ChosenRow(seenRows, userId);
            var front, queue := Queue(added, userId), Queue(seenRows, userId);
            && (seenRows + added)[i] == seenRows[i]
            && Queue(seenRows + added, userId) == front + queue
            && (Consume(seenRows[i].bundle).consumed <==> queue != [])
            && (queue != [] ==> Pool(Consume(seenRows[i].bundle).clientBundle) == [queue[0]]
                                && Queue(SaveConsumed(seenRows + added, i), userId) == front + queue[1..])
  {
    var i := ChosenRow(seenRows, userId);
    QueueSplit(seenRows, added, userId);
    ConsumePopsOwnQueue(seenRows, userId);
    SaveAmongSeen(seenRows, added, i);
    QueueSplit(SaveConsumed(seenRows, i), added, userId);
  }

  lemma SaveAmongSeen(seenRows: seq<Row>, added: seq<Row>, i: nat)
    requires i < |seenRows| && IsPrekeyBundle(seenRows[i].bundle)
    ensures SaveConsumed(seenRows + added, i) == SaveConsumed(seenRows, i) + added
  {
  }

  /**
   * Consuming from the row chosen among the first `seen` rows removes the head of their queue and
   * nothing else. Rows added later stay in front, untouched.
   */
  lemma ConsumePopsTheHead(rows: seq<Row>, seen: nat, userId: string)
    requires seen <= |rows| && ChosenRow(rows[..seen], userId) >= 0
    ensures var i := ChosenRow(rows[..seen], userId);
            var front, queue := Queue(rows[seen..], userId), Queue(rows[..seen], userId);
            && Queue(rows, userId) == front + queue
            && (Consume(rows[i].bundle).consumed <==> queue != [])
            && (queue != [] ==> Pool(Consume(rows[i].bundle).clientBundle) == [queue[0]]
                                && Queue(SaveConsumed(rows, i), userId) == front + queue[1..])
  {
    assert rows == rows[..seen] + rows[seen..];
    AddedRowsStayInFront(rows[..seen], rows[seen..], userId);
  }

  // ---------- Uninterrupted gets ----------

  /** The table after one get, and the keys it handed out. */
  function AfterGet(rows: seq<Row>, userId: string): seq<Row> {
    var i := ChosenRow(rows, userId);
    if i < 0 then rows else SaveConsumed(rows, i)
  }

  function HandedOut(rows: seq<Row>, userId: string): seq<PreKey> {
    var i := ChosenRow(rows, userId);
    if i < 0 then [] else Pool(Consume(rows[i].bundle).clientBundle)
  }

  function AfterGets(rows: seq<Row>, userId: string, n: nat): seq<Row> {
    if n == 0 then rows else AfterGet(AfterGets(rows, userId, n - 1), userId)
  }

  lemma NoPublishedRowNoQueue(rows: seq<Row>, userId: string)
    requires ChosenRow(rows, userId) < 0
    ensures Queue(rows, userId) == []
  {
  }

  /** One get pops the head of the user's queue, if there is one. */
  lemma OneGet(rows: seq<Row>, userId: string)
    ensures var queue := Queue(rows, userId);
            if queue == [] then HandedOut(rows, userId) == [] && Queue(AfterGet(rows, userId), userId) == []
            else HandedOut(rows, userId) == [queue[0]] && Queue(AfterGet(rows, userId), userId) == queue[1..]
  {
    if ChosenRow(rows, userId) < 0 {
      NoPublishedRowNoQueue(rows, userId);
    } else {
      ConsumePopsOwnQueue(rows, userId);
    }
  }

  function From(queue: seq<PreKey>, k: nat): seq<PreKey> {
    if k <= |queue| then queue[k..] else []
  }

  /** A get on a table whose queue is what `k` gets left of `queue`. */
  lemma NextGet(now: seq<Row>, userId: string, queue: seq<PreKey>, k: nat)
    requires Queue(now, userId) == From(queue, k)
    ensures HandedOut(now, userId) == if k < |queue| then [queue[k]] else []
    ensures Queue(AfterGet(now, userId), userId) == From(queue, k + 1)
  {
    OneGet(now, userId);
  }

  /** What the k-th of several gets finds queued: everything after the first k keys. */
  lemma {:induction false} QueueAfterGets(rows: seq<Row>, userId: string, queue: seq<PreKey>, k: nat)
    requires queue == Queue(rows, userId)
    ensures Queue(AfterGets(rows, userId, k), userId) == From(queue, k)
  {
    if k > 0 {
      QueueAfterGets(rows, userId, queue, k - 1);
      NextGet(AfterGets(rows, userId, k - 1), userId, queue, k - 1);
    }
  }

  /**
   * Of the gets that follow one another from `rows`, number k (from 0) hands out exactly the k-th key of the queue,
   * and a keyless bundle once the queue is used up; the keys after it stay queued, in order.
   */
  lemma GetsDrainTheQueueInOrder(rows: seq<Row>, userId: string, k: nat)
    ensures var queue, now := Queue(rows, userId), AfterGets(rows, userId, k);
            && HandedOut(now, userId) == (if k < |queue| then [queue[k]] else [])
            && Queue(AfterGet(now, userId), userId) == From(queue, k + 1)
  {
    QueueAfterGets(rows, userId, Queue(rows, userId), k);
    NextGet(AfterGets(rows, userId, k), userId, Queue(rows, userId), k);
  }
}
