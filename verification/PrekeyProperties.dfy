/** What holds of every run of prekey requests, publishes and key backups. */
module PrekeyProperties {
  import opened Common
  import opened PrekeyBundles
  import opened PrekeyTable
  import opened PrekeyPool

  // ---------- One-time prekeys are one-time ----------

  ghost predicate ServedKey(s: State, t: nat, k: PreKey) {
    && t in s.txns && s.txns[t].phase.Answered? && s.txns[t].phase.reply.Served?
    && k in Pool(s.txns[t].phase.reply.bundle)
  }

  lemma ServedKeyIsGone(s: State, t: nat, k: PreKey, t': nat)
    requires Inv(s) && ServedKey(s, t, k)
    ensures k !in Bag(s.rows) && Pool(s.txns[t].phase.reply.bundle) == [k]
    ensures ServedKey(s, t', k) ==> t == t'
  {
  }

  /**
   * In every run, whatever fails: a prekey is in at most one response, a response holds at most one prekey and
   * never the backup, and a prekey in a response is in no committed pool any more.
   */
  lemma NoPrekeyIsServedTwice(es: seq<Event>)
    requires FreshRun(INIT, es)
    ensures var s := Run(INIT, es);
            && (forall t, t', k :: ServedKey(s, t, k) && ServedKey(s, t', k) ==> t == t')
            && (forall t, k :: ServedKey(s, t, k)
                  ==> k !in Bag(s.rows) && Pool(s.txns[t].phase.reply.bundle) == [k])
            && (forall t :: t in s.txns && s.txns[t].phase.Answered? && s.txns[t].phase.reply.Served?
                  ==> s.txns[t].phase.reply.bundle.backup == None)
  {
    var s := Run(INIT, es);
    assert Inv(s) by {
      RunKeepsInv(INIT, es);
    }
    forall t, t', k | ServedKey(s, t, k) && ServedKey(s, t', k)
      ensures t == t'
    {
      ServedKeyIsGone(s, t, k, t');
    }
    forall t, k | ServedKey(s, t, k)
      ensures k !in Bag(s.rows) && Pool(s.txns[t].phase.reply.bundle) == [k]
    {
      ServedKeyIsGone(s, t, k, t);
    }
    forall t | t in s.txns && s.txns[t].phase.Answered? && s.txns[t].phase.reply.Served?
      ensures s.txns[t].phase.reply.bundle.backup == None
    {
      assert ReplyOk(s, t, s.txns[t].phase.reply);
    }
  }

  // ---------- The store is one FIFO queue per user ----------

  /** Does this event, in this state, commit the removal of a prekey? */
  predicate Consumes(s: State, e: Event) {
    (e.Commit? || e.CommitReportedLost?) && e.txn in s.txns && s.txns[e.txn].phase.Saved?
  }

  lemma StepTakesNothing(s: State, e: Event)
    requires !Consumes(s, e)
    ensures Step(s, e).takes == s.takes
  {
  }

  /**
   * A consuming commit pops the head of its user's queue, as the queue stood when the rows were read; keys of
   * rows added since stay in front of it, in order. No other user's queue changes.
   */
  lemma CommitPopsTheHead(s: State, e: Event)
    requires Inv(s) && Consumes(s, e)
    ensures var u, p := s.txns[e.txn].userId, s.txns[e.txn].phase;
            var s' := Step(s, e);
            var added, queue := Queue(s.rows[p.seen..], u), Queue(s.rows[..p.seen], u);
            && Queue(s.rows, u) == added + queue
            && queue != []
            && s'.takes == s.takes + [Take(e.txn, u, p.row, queue[0])]
            && Queue(s'.rows, u) == added + queue[1..]
            && (forall v :: v != u ==> Queue(s'.rows, v) == Queue(s.rows, v))
            && (e.Commit? ==> Pool(s'.txns[e.txn].phase.reply.bundle) == [queue[0]])
  {
    ApplyFacts(s, e.txn);
    assert HoldOk(s.rows, s.txns[e.txn]);
    var p, u := s.txns[e.txn].phase, s.txns[e.txn].userId;
    ConsumePopsTheHead(s.rows, p.seen, u);
    forall v | v != u
      ensures Queue(Step(s, e).rows, v) == Queue(s.rows, v)
    {
      ConsumeKeepsOtherQueues(s.rows, p.row, v);
    }
  }

  /** A bundle without a prekey is committed only when every row that was read is drained. */
  lemma KeylessOnlyWhenDrained(s: State, e: Event)
    requires Inv(s) && e.Commit? && e.txn in s.txns && s.txns[e.txn].phase.Picked?
    requires Step(s, e) != s
    ensures var x, x' := s.txns[e.txn], Step(s, e).txns[e.txn];
            && Queue(s.rows[..x.phase.seen], x.userId) == []
            && x'.phase.Answering? && x'.phase.reply.Served? && Pool(x'.phase.reply.bundle) == []
            && Step(s, e).rows == s.rows
  {
    var x := s.txns[e.txn];
    assert HoldOk(s.rows, x);
    assert Step(s, e) == To(s, e.txn, Answering(Served(DeviceOf(s, x.phase.row), x.phase.result.clientBundle)));
    ConsumePopsTheHead(s.rows, x.phase.seen, x.userId);
  }

  /** No other event of a request, no failure and no key backup moves any queue. */
  lemma OnlyCommitsAndPublishesMoveQueues(s: State, e: Event, u: string)
    requires !e.PublishBundle? && !Consumes(s, e)
    ensures Queue(Step(s, e).rows, u) == Queue(s.rows, u)
  {
    if e.StoreKeys? {
      StoreKeepsQueues(s.rows, e.userId, e.deviceId, e.backup, e.now, e.stamp, u);
    }
  }

  lemma StoreKeepsQueues(rows: seq<Row>, userId: string, deviceId: string, backup: Backup, now: int, stamp: int, u: string)
    ensures Queue(Store(rows, userId, deviceId, backup, now, stamp), u) == Queue(rows, u)
  {
    var i := FindRow(rows, userId, deviceId);
    var rows' := Store(rows, userId, deviceId, backup, now, stamp);
    if rows' != rows {
      if i >= 0 {
        SamePoolSameQueue(rows, i, rows'[i], u);
      } else {
        assert rows'[..|rows|] == rows;
        assert PoolFor(rows'[|rows|], u) + Queue(rows, u) == Queue(rows, u);
      }
    }
  }

  lemma SamePoolSameQueue(rows: seq<Row>, i: nat, row: Row, u: string)
    requires i < |rows| && PoolFor(row, u) == PoolFor(rows[i], u)
    ensures Queue(rows[i := row], u) == Queue(rows, u)
  {
    var rows' := rows[i := row];
    QueueAround(rows, i, u);
    QueueAround(rows', i, u);
    assert rows'[i + 1..] == rows[i + 1..] && rows'[..i] == rows[..i];
  }

  // ---------- What happens to one row between publishes ----------

  predicate Publishes(e: Event, userId: string, deviceId: string) {
    e.PublishBundle? && e.userId == userId && e.deviceId == deviceId
  }

  function KeysFrom(takes: seq<Take>, row: nat): seq<PreKey> {
    if takes == [] then []
    else KeysFrom(takes[..|takes| - 1], row) + (if takes[|takes| - 1].row == row then [takes[|takes| - 1].key] else [])
  }

  lemma {:induction false} KeysFromSplit(a: seq<Take>, b: seq<Take>, row: nat)
    ensures KeysFrom(a + b, row) == KeysFrom(a, row) + KeysFrom(b, row)
  {
    if b == [] {
      assert a + b == a;
    } else {
      var init := b[..|b| - 1];
      KeysFromSplit(a, init, row);
      assert (a + b)[..|a + b| - 1] == a + init;
      ConcatAssociates(KeysFrom(a, row), KeysFrom(init, row), if b[|b| - 1].row == row then [b[|b| - 1].key] else []);
    }
  }

  /** From one table to a later one: row `i` lost exactly `keys`, in order, from the front of its pool. */
  ghost predicate OnlyLost(before: Row, after: Row, keys: seq<PreKey>) {
    && after.userId == before.userId && after.deviceId == before.deviceId
    && Pool(before.bundle) == keys + Pool(after.bundle)
    && after.bundle.(preKeys := before.bundle.preKeys, backup := before.bundle.backup) == before.bundle
  }

  lemma CommitOnlyConsumes(s: State, e: Event, i: nat)
    requires Inv(s) && i < |s.rows| && Consumes(s, e)
    ensures var s' := Step(s, e);
            && |s'.rows| == |s.rows| && |s'.takes| == |s.takes| + 1 && s'.takes[..|s.takes|] == s.takes
            && OnlyLost(s.rows[i], s'.rows[i], KeysFrom(s'.takes[|s.takes|..], i))
  {
    ApplyFacts(s, e.txn);
    assert HoldOk(s.rows, s.txns[e.txn]);
    var p := s.txns[e.txn].phase;
    var take := Take(e.txn, s.txns[e.txn].userId, p.row, Pool(p.result.clientBundle)[0]);
    var s' := Step(s, e);
    assert s'.takes == s.takes + [take];
    assert s'.takes[|s.takes|..] == [take];
    assert [take][..0] == [];
    assert KeysFrom([take], i) == if p.row == i then [take.key] else [];
  }

  lemma StepOnlyConsumes(s: State, e: Event, i: nat)
    requires Inv(s) && i < |s.rows| && !Publishes(e, s.rows[i].userId, s.rows[i].deviceId)
    ensures var s' := Step(s, e);
            && i < |s'.rows| && |s.takes| <= |s'.takes| && s'.takes[..|s.takes|] == s.takes
            && OnlyLost(s.rows[i], s'.rows[i], KeysFrom(s'.takes[|s.takes|..], i))
  {
    var s' := Step(s, e);
    if Consumes(s, e) {
      CommitOnlyConsumes(s, e, i);
    } else {
      OtherStepsKeepRow(s, e, i);
      assert KeysFrom(s'.takes[|s.takes|..], i) == [];
    }
  }

  lemma OtherStepsKeepRow(s: State, e: Event, i: nat)
    requires i < |s.rows| && !Consumes(s, e) && !Publishes(e, s.rows[i].userId, s.rows[i].deviceId)
    ensures var s' := Step(s, e);
            && i < |s'.rows| && s'.takes == s.takes
            && Pool(s'.rows[i].bundle) == Pool(s.rows[i].bundle) && OnlyLost(s.rows[i], s'.rows[i], [])
  {
    var s' := Step(s, e);
    if e.PublishBundle? {
      assert s'.rows[i] == s.rows[i];
    } else if e.StoreKeys? {
      assert s'.rows[i].bundle.(backup := None) == s.rows[i].bundle.(backup := None);
    } else {
      assert s'.rows == s.rows;
    }
  }

  lemma TakesCompose(t: seq<Take>, t1: seq<Take>, t2: seq<Take>, i: nat)
    requires |t| <= |t1| <= |t2| && t1[..|t|] == t && t2[..|t1|] == t1
    ensures t2[..|t|] == t
    ensures KeysFrom(t2[|t|..], i) == KeysFrom(t1[|t|..], i) + KeysFrom(t2[|t1|..], i)
  {
    assert t2[..|t|] == t2[..|t1|][..|t|];
    assert t2[|t|..|t1|] == t2[..|t1|][|t|..];
    assert t2[|t|..] == t1[|t|..] + t2[|t1|..];
    KeysFromSplit(t1[|t|..], t2[|t1|..], i);
  }

  lemma LossesCompose(a: Row, b: Row, c: Row, first: seq<PreKey>, second: seq<PreKey>)
    requires OnlyLost(a, b, first) && OnlyLost(b, c, second)
    ensures OnlyLost(a, c, first + second)
  {
  }

  /**
   * Over any run without a publish to a row's device, the row keeps its place, its identity fields stay, and its
   * pool loses exactly the prefix that requests took from it, in the order they took it.
   */
  lemma {:induction false} BetweenPublishesARowOnlyDrains(s: State, es: seq<Event>, i: nat)
    requires Inv(s) && FreshRun(s, es) && i < |s.rows|
    requires forall e :: e in es ==> !Publishes(e, s.rows[i].userId, s.rows[i].deviceId)
    ensures var s' := Run(s, es);
            && i < |s'.rows| && |s.takes| <= |s'.takes| && s'.takes[..|s.takes|] == s.takes
            && OnlyLost(s.rows[i], s'.rows[i], KeysFrom(s'.takes[|s.takes|..], i))
    decreases |es|
  {
    if es == [] {
      assert s.takes[|s.takes|..] == [];
    } else {
      var s1 := Step(s, es[0]);
      StepOnlyConsumes(s, es[0], i);
      StepKeepsInv(s, es[0]);
      BetweenPublishesARowOnlyDrains(s1, es[1..], i);
      var s' := Run(s1, es[1..]);
      TakesCompose(s.takes, s1.takes, s'.takes, i);
      LossesCompose(s.rows[i], s1.rows[i], s'.rows[i],
                    KeysFrom(s1.takes[|s.takes|..], i), KeysFrom(s'.takes[|s1.takes|..], i));
    }
  }

  predicate Complete(body: Bundle) {
    && body.identityKey.Some? && body.registrationId.Some? && body.signedPreKey.Some? && body.preKeys.Some?
    && body.backup == None
  }

  /**
   * After a device's last publish, its row shows that publish: the identity fields as published, the pool as
   * published minus the prefix consumed since. A publish never touches a backup it does not carry.
   */
  lemma RowShowsTheLastPublish(s: State, e: Event, es: seq<Event>)
    requires Inv(s) && e.PublishBundle? && Complete(e.body)
    requires !DeviceRowLocked(s, e.userId, e.deviceId)
    requires FreshRun(s, [e] + es)
    requires forall x :: x in es ==> !Publishes(x, e.userId, e.deviceId)
    ensures var s1 := Step(s, e);
            var s' := Run(s, [e] + es);
            var i := FindRow(s1.rows, e.userId, e.deviceId);
            && 0 <= i < |s'.rows|
            && s'.rows[i].userId == e.userId && s'.rows[i].deviceId == e.deviceId
            && s'.rows[i].bundle.(preKeys := None, backup := None) == e.body.(preKeys := None)
            && |s.takes| <= |s'.takes|
            && Pool(e.body) == KeysFrom(s'.takes[|s.takes|..], i) + Pool(s'.rows[i].bundle)
            && s1.rows[i].bundle.backup == (if i < |s.rows| then s.rows[i].bundle.backup else None)
  {
    var s1 := Step(s, e);
    assert ([e] + es)[1..] == es;
    assert FreshKeys(s, e) && FreshRun(s1, es);
    StepKeepsInv(s, e);
    var i0 := FindRow(s.rows, e.userId, e.deviceId);
    var at := if i0 >= 0 then i0 else |s.rows|;
    FindRowAfterUpsert(s.rows, s1.rows, e.userId, e.deviceId, at);
    assert s1.takes == s.takes && Pool(s1.rows[at].bundle) == Pool(e.body);
    assert s1.rows[at].bundle.(preKeys := None, backup := None) == e.body.(preKeys := None);
    BetweenPublishesARowOnlyDrains(s1, es, at);
  }

  // ---------- Encrypted key backups ----------

  /** The last accepted backup of a device, or -1. */
  function LastBackup(log: seq<Accepted>, userId: string, deviceId: string): (i: int)
    ensures -1 <= i < |log|
    ensures i >= 0 ==> log[i].userId == userId && log[i].deviceId == deviceId
    ensures forall j :: i < j < |log| ==> !(log[j].userId == userId && log[j].deviceId == deviceId)
  {
    if log == [] then -1
    else if log[|log| - 1].userId == userId && log[|log| - 1].deviceId == deviceId then |log| - 1
    else LastBackup(log[..|log| - 1], userId, deviceId)
  }

  function LoggedTime(log: seq<Accepted>, userId: string, deviceId: string): Option<int> {
    var i := LastBackup(log, userId, deviceId);
    if i < 0 then None else Some(log[i].at)
  }

  function LoggedBlob(log: seq<Accepted>, userId: string, deviceId: string): Option<Backup> {
    var i := LastBackup(log, userId, deviceId);
    if i < 0 then None else Some(log[i].backup)
  }

  ghost predicate DayApart(log: seq<Accepted>) {
    forall a, b :: 0 <= a < b < |log| && log[a].userId == log[b].userId && log[a].deviceId == log[b].deviceId
      ==> log[b].at - log[a].at >= 24 * 3_600_000
  }

  ghost predicate RowAgrees(row: Row, log: seq<Accepted>) {
    && row.lastBackup == LoggedTime(log, row.userId, row.deviceId)
    && row.bundle.backup == LoggedBlob(log, row.userId, row.deviceId)
  }

  /** Every row agrees with the log of accepted backups, and a device without a row has none. */
  ghost predicate BackupsOk(s: State) {
    && DayApart(s.backups)
    && OneRowPerDevice(s.rows)
    && (forall i :: 0 <= i < |s.rows| ==> RowAgrees(s.rows[i], s.backups))
    && (forall a :: 0 <= a < |s.backups| ==> FindRow(s.rows, s.backups[a].userId, s.backups[a].deviceId) >= 0)
  }

  /** Publishers send no backup field, and the second clock reading of a store is not before the first. */
  predicate PlainEvent(e: Event) {
    (e.PublishBundle? ==> e.body.backup == None) && (e.StoreKeys? ==> e.now <= e.stamp)
  }

  lemma AcceptedIsDayLater(s: State, e: Event)
    requires BackupsOk(s) && e.StoreKeys? && PlainEvent(e) && StoreAccepted(s.rows, e.userId, e.deviceId, e.now)
    ensures DayApart(s.backups + [Accepted(e.userId, e.deviceId, e.backup, e.stamp)])
  {
  }

  lemma StoreKeepsBackups(s: State, e: Event)
    requires BackupsOk(s) && e.StoreKeys? && PlainEvent(e) && Step(s, e) != s
    requires OneRowPerDevice(Step(s, e).rows)
    ensures BackupsOk(Step(s, e))
  {
    var x := Accepted(e.userId, e.deviceId, e.backup, e.stamp);
    var rows' := Store(s.rows, e.userId, e.deviceId, e.backup, e.now, e.stamp);
    assert Step(s, e) == s.(rows := rows', backups := s.backups + [x]);
    AcceptedIsDayLater(s, e);
    LoggedStoreAgrees(s, x, e.now);
  }

  lemma LoggedStoreAgrees(s: State, x: Accepted, now: int)
    requires BackupsOk(s) && StoreAccepted(s.rows, x.userId, x.deviceId, now) && DayApart(s.backups + [x])
    requires OneRowPerDevice(Store(s.rows, x.userId, x.deviceId, x.backup, now, x.at))
    ensures BackupsOk(s.(rows := Store(s.rows, x.userId, x.deviceId, x.backup, now, x.at), backups := s.backups + [x]))
  {
    var rows' := Store(s.rows, x.userId, x.deviceId, x.backup, now, x.at);
    var at := StoredRow(s.rows, x, now);
    StoreKeepsAgreement(s, rows', x, at);
    LoggedRowsStay(s, rows');
  }

  /** The row that an accepted store wrote, and everything it left alone. */
  lemma StoredRow(rows: seq<Row>, x: Accepted, now: int) returns (at: nat)
    requires StoreAccepted(rows, x.userId, x.deviceId, now)
    ensures var rows' := Store(rows, x.userId, x.deviceId, x.backup, now, x.at);
            && at <= |rows| && |rows'| == (if at < |rows| then |rows| else |rows| + 1)
            && (forall j :: 0 <= j < |rows| && j != at ==> rows'[j] == rows[j])
            && (forall j :: 0 <= j < |rows| ==> rows'[j].userId == rows[j].userId && rows'[j].deviceId == rows[j].deviceId)
            && rows'[at].userId == x.userId && rows'[at].deviceId == x.deviceId
            && rows'[at].lastBackup == Some(x.at) && rows'[at].bundle.backup == Some(x.backup)
            && FindRow(rows', x.userId, x.deviceId) >= 0
  {
    var i := FindRow(rows, x.userId, x.deviceId);
    at := if i >= 0 then i else |rows|;
    FindRowAfterUpsert(rows, Store(rows, x.userId, x.deviceId, x.backup, now, x.at), x.userId, x.deviceId, at);
  }

  lemma StoreKeepsAgreement(s: State, rows': seq<Row>, x: Accepted, at: nat)
    requires BackupsOk(s) && OneRowPerDevice(rows')
    requires at <= |s.rows| && |rows'| == if at < |s.rows| then |s.rows| else |s.rows| + 1
    requires forall j :: 0 <= j < |s.rows| && j != at ==> rows'[j] == s.rows[j]
    requires rows'[at].userId == x.userId && rows'[at].deviceId == x.deviceId
    requires rows'[at].lastBackup == Some(x.at) && rows'[at].bundle.backup == Some(x.backup)
    ensures forall j :: 0 <= j < |rows'| ==> RowAgrees(rows'[j], s.backups + [x])
  {
  }

  lemma LoggedRowsStay(s: State, rows': seq<Row>)
    requires BackupsOk(s) && |s.rows| <= |rows'|
    requires forall j :: 0 <= j < |s.rows| ==> rows'[j].userId == s.rows[j].userId && rows'[j].deviceId == s.rows[j].deviceId
    ensures forall a :: 0 <= a < |s.backups| ==> FindRow(rows', s.backups[a].userId, s.backups[a].deviceId) >= 0
  {
  }

  /** Rows added without a backup, or changed without touching backup and backup time. */
  lemma OtherWritesKeepBackups(s: State, s': State)
    requires BackupsOk(s) && OneRowPerDevice(s'.rows) && s'.backups == s.backups && |s.rows| <= |s'.rows|
    requires forall j :: 0 <= j < |s.rows| ==>
               && s'.rows[j].userId == s.rows[j].userId && s'.rows[j].deviceId == s.rows[j].deviceId
               && s'.rows[j].lastBackup == s.rows[j].lastBackup && s'.rows[j].bundle.backup == s.rows[j].bundle.backup
    requires forall j :: |s.rows| <= j < |s'.rows| ==>
               && s'.rows[j].lastBackup == None && s'.rows[j].bundle.backup == None
               && FindRow(s.rows, s'.rows[j].userId, s'.rows[j].deviceId) < 0
    ensures BackupsOk(s')
  {
  }

  lemma PublishKeepsBackups(s: State, e: Event)
    requires BackupsOk(s) && e.PublishBundle? && PlainEvent(e) && OneRowPerDevice(Step(s, e).rows)
    ensures BackupsOk(Step(s, e))
  {
    OtherWritesKeepBackups(s, Step(s, e));
  }

  lemma CommitTouchesNoBackup(s: State, e: Event)
    requires Inv(s) && Consumes(s, e)
    ensures var s' := Step(s, e);
            && s'.backups == s.backups && |s'.rows| == |s.rows|
            && forall j :: 0 <= j < |s.rows| ==>
                 && s'.rows[j].userId == s.rows[j].userId && s'.rows[j].deviceId == s.rows[j].deviceId
                 && s'.rows[j].lastBackup == s.rows[j].lastBackup && s'.rows[j].bundle.backup == s.rows[j].bundle.backup
  {
    ApplyFacts(s, e.txn);
  }

  lemma CommitKeepsBackups(s: State, e: Event)
    requires Inv(s) && BackupsOk(s) && Consumes(s, e) && OneRowPerDevice(Step(s, e).rows)
    ensures BackupsOk(Step(s, e))
  {
    CommitTouchesNoBackup(s, e);
    OtherWritesKeepBackups(s, Step(s, e));
  }

  lemma StepKeepsBackups(s: State, e: Event)
    requires Inv(s) && BackupsOk(s) && PlainEvent(e) && OneRowPerDevice(Step(s, e).rows)
    ensures BackupsOk(Step(s, e))
  {
    if e.StoreKeys? {
      if Step(s, e) != s { StoreKeepsBackups(s, e); }
    } else if e.PublishBundle? {
      PublishKeepsBackups(s, e);
    } else if Consumes(s, e) {
      CommitKeepsBackups(s, e);
    } else {
      var s' := Step(s, e);
      assert s' == s.(txns := s'.txns);
    }
  }

  /**
   * In every run: at most one row per device; its backup and backup time are those of the last accepted store,
   * whatever was published or consumed since; accepted backups of one device are at least 24 hours apart.
   */
  lemma {:induction false} RowsHoldTheLastAcceptedBackup(s: State, es: seq<Event>)
    requires Inv(s) && BackupsOk(s) && FreshRun(s, es)
    requires forall e :: e in es ==> PlainEvent(e)
    ensures BackupsOk(Run(s, es))
    decreases |es|
  {
    if es != [] {
      StepKeepsInv(s, es[0]);
      StepKeepsBackups(s, es[0]);
      RowsHoldTheLastAcceptedBackup(Step(s, es[0]), es[1..]);
    }
  }

  lemma BackupsFromTheStart(es: seq<Event>)
    requires FreshRun(INIT, es) && forall e :: e in es ==> PlainEvent(e)
    ensures BackupsOk(Run(INIT, es))
  {
    RowsHoldTheLastAcceptedBackup(INIT, es);
  }
}
