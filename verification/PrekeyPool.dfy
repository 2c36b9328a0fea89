/**
 * Concurrent prekey requests. Each `getPrekeyBundle` is a transaction of separate steps that may fail at
 * any of them; publishes and stores interleave with it. A disabled event leaves the state as it is, so every
 * list of events is a run.
 */
module PrekeyPool {
  import opened Common
  import opened PrekeyBundles
  import opened PrekeyTable

  datatype Reply = NotFound | Served(deviceId: string, bundle: Bundle)

  datatype Phase =
    | Begun
    | Read(snapshot: seq<Row>)
    | Picked(seen: nat, row: nat, result: Consumption)
    | Saved(seen: nat, row: nat, result: Consumption)
    | Unserved
    | Answering(reply: Reply)
    | Answered(reply: Reply)
    | Failed

  datatype Txn = Txn(userId: string, phase: Phase)

  /** A committed removal of `key` from row `row` of `userId`, and an accepted backup: histories for the statements. */
  datatype Take = Take(txn: nat, userId: string, row: nat, key: PreKey)
  datatype Accepted = Accepted(userId: string, deviceId: string, backup: Backup, at: int)

  datatype State = State(rows: seq<Row>, txns: map<nat, Txn>, takes: seq<Take>, backups: seq<Accepted>)

  const INIT := State([], map[], [], [])

  datatype Event =
    | Begin(txn: nat, userId: string)
    | LockAndRead(txn: nat)
    | Pick(txn: nat)
    | Save(txn: nat)
    | Commit(txn: nat)
    | CommitReportedLost(txn: nat) // the database committed, the caller saw an error
    | Fail(txn: nat)               // an error at any step, and the rollback
    | Answer(txn: nat)
    | PublishBundle(userId: string, deviceId: string, body: Bundle)
    | StoreKeys(userId: string, deviceId: string, backup: Backup, now: int, stamp: int)

  predicate Holds(p: Phase) {
    p.Read? || p.Picked? || p.Saved?
  }

  function Seen(p: Phase): nat
    requires Holds(p)
  {
    if p.Read? then |p.snapshot| else p.seen
  }

  /** SELECT ... FOR UPDATE by a holder blocks another reader of the same user's rows. */
  predicate UserLocked(s: State, userId: string) {
    exists t :: t in s.txns && Holds(s.txns[t].phase) && s.txns[t].userId == userId
  }

  /** ... and a writer of one of the rows it read. */
  predicate RowLocked(s: State, i: nat)
    requires i < |s.rows|
  {
    exists t :: t in s.txns && Holds(s.txns[t].phase) && s.txns[t].userId == s.rows[i].userId && i < Seen(s.txns[t].phase)
  }

  predicate DeviceRowLocked(s: State, userId: string, deviceId: string) {
    var i := FindRow(s.rows, userId, deviceId);
    i >= 0 && RowLocked(s, i)
  }

  function To(s: State, t: nat, p: Phase): State
    requires t in s.txns
  {
    s.(txns := s.txns[t := s.txns[t].(phase := p)])
  }

  /** The write of a saved transaction becomes visible. */
  function Apply(s: State, t: nat): State
    requires t in s.txns && s.txns[t].phase.Saved?
  {
    var p := s.txns[t].phase;
    if p.row < |s.rows| && p.result.consumed && p.result.storedBundle.Some? && Pool(p.result.clientBundle) != [] then
      s.(rows := s.rows[p.row := s.rows[p.row].(bundle := p.result.storedBundle.value)],
         takes := s.takes + [Take(t, s.txns[t].userId, p.row, Pool(p.result.clientBundle)[0])])
    else s
  }

  function DeviceOf(s: State, row: nat): string {
    if row < |s.rows| then s.rows[row].deviceId else ""
  }

  function Step(s: State, e: Event): State {
    match e
    case Begin(t, u) => if t in s.txns then s else s.(txns := s.txns[t := Txn(u, Begun)])
    case PublishBundle(u, d, body) =>
      if DeviceRowLocked(s, u, d) then s else s.(rows := Publish(s.rows, u, d, body))
    case StoreKeys(u, d, backup, now, stamp) =>
      if DeviceRowLocked(s, u, d) || !StoreAccepted(s.rows, u, d, now) then s
      else s.(rows := Store(s.rows, u, d, backup, now, stamp), backups := s.backups + [Accepted(u, d, backup, stamp)])
    case _ => if e.txn in s.txns then TxnStep(s, e.txn, e) else s
  }

  function TxnStep(s: State, t: nat, e: Event): State
    requires t in s.txns
  {
    var x := s.txns[t];
    match (e, x.phase)
    case (LockAndRead(_), Begun) =>
      if UserLocked(s, x.userId) then s
      else if forall i :: 0 <= i < |s.rows| ==> s.rows[i].userId != x.userId then To(s, t, Unserved)
      else To(s, t, Read(s.rows))
    case (Pick(_), Read(rows)) =>
      var i := ChosenRow(rows, x.userId);
      if i < 0 then To(s, t, Unserved) else To(s, t, Picked(|rows|, i, Consume(rows[i].bundle)))
    case (Save(_), Picked(seen, row, result)) =>
      if result.consumed then To(s, t, Saved(seen, row, result)) else s
    case (Commit(_), Saved(_, row, result)) =>
      To(Apply(s, t), t, Answering(Served(DeviceOf(s, row), result.clientBundle)))
    case (Commit(_), Picked(_, row, result)) =>
      if result.consumed then s else To(s, t, Answering(Served(DeviceOf(s, row), result.clientBundle)))
    case (Commit(_), Unserved) => To(s, t, Answering(NotFound))
    case (CommitReportedLost(_), Saved(_, _, _)) => To(Apply(s, t), t, Failed)
    case (Answer(_), Answering(reply)) => To(s, t, Answered(reply))
    case (Fail(_), p) => if p.Answered? then s else To(s, t, Failed)
    case _ => s
  }

  function Run(s: State, es: seq<Event>): State
    decreases |es|
  {
    if es == [] then s else Run(Step(s, es[0]), es[1..])
  }

  // ---------- Assumption on publishers ----------

  function Bag(rows: seq<Row>): multiset<PreKey> {
    if rows == [] then multiset{} else Bag(rows[..|rows| - 1]) + multiset(Pool(rows[|rows| - 1].bundle))
  }

  /**
   * A published pool has no repeats, no prekey already handed out and none that another row offers. It may
   * repeat prekeys still in the device's own pool.
   */
  ghost predicate FreshKeys(s: State, e: Event) {
    e.PublishBundle? && e.body.preKeys.Some? ==>
      var i := FindRow(s.rows, e.userId, e.deviceId);
      var own := if i >= 0 then multiset(Pool(s.rows[i].bundle)) else multiset{};
      var pool := multiset(Pool(e.body));
      forall k :: k in pool ==> pool[k] == 1 && k !in Bag(s.rows) - own && !Taken(s, k)
  }

  ghost predicate Taken(s: State, k: PreKey) {
    exists a :: 0 <= a < |s.takes| && s.takes[a].key == k
  }

  ghost predicate FreshRun(s: State, es: seq<Event>)
    decreases |es|
  {
    es != [] ==> FreshKeys(s, es[0]) && FreshRun(Step(s, es[0]), es[1..])
  }

  // ---------- The invariant ----------

  ghost predicate KeysOk(s: State) {
    && (forall k :: Bag(s.rows)[k] <= 1)
    && (forall a :: 0 <= a < |s.takes| ==> s.takes[a].key !in Bag(s.rows))
    && (forall a, b :: 0 <= a < b < |s.takes| ==> s.takes[a].key != s.takes[b].key && s.takes[a].txn != s.takes[b].txn)
  }

  predicate Settled(p: Phase) {
    p.Answering? || p.Answered? || p.Failed?
  }

  /** What a row-holding transaction remembers is still what the table says. */
  ghost predicate HoldOk(rows: seq<Row>, x: Txn) {
    match x.phase
    case Read(snapshot) => |snapshot| <= |rows| && SameFor(x.userId, snapshot, rows[..|snapshot|])
    case Picked(seen, row, result) => PickOk(rows, x.userId, seen, row, result)
    case Saved(seen, row, result) => PickOk(rows, x.userId, seen, row, result) && result.consumed
    case _ => true
  }

  ghost predicate PickOk(rows: seq<Row>, userId: string, seen: nat, row: nat, result: Consumption) {
    && seen <= |rows|
    && row == ChosenRow(rows[..seen], userId)
    && result == Consume(rows[row].bundle)
  }

  /** A reply carries at most one prekey, one that this transaction took, and never the backup. */
  ghost predicate ReplyOk(s: State, t: nat, reply: Reply) {
    reply.Served? ==>
      && reply.bundle.backup == None
      && (Pool(reply.bundle) == []
          || exists a :: 0 <= a < |s.takes| && s.takes[a].txn == t && Pool(reply.bundle) == [s.takes[a].key])
  }

  ghost predicate TxnsOk(s: State) {
    && (forall t :: t in s.txns ==> HoldOk(s.rows, s.txns[t]))
    && (forall t :: t in s.txns && s.txns[t].phase.Answering? ==> ReplyOk(s, t, s.txns[t].phase.reply))
    && (forall t :: t in s.txns && s.txns[t].phase.Answered? ==> ReplyOk(s, t, s.txns[t].phase.reply))
    && (forall a :: 0 <= a < |s.takes| ==> s.takes[a].txn in s.txns && Settled(s.txns[s.takes[a].txn].phase))
    && OneHolder(s)
  }

  ghost predicate Inv(s: State) {
    KeysOk(s) && TxnsOk(s) && OneRowPerDevice(s.rows)
  }

  // ---------- Every step keeps the invariant ----------

  function Held(row: Row, k: PreKey): nat {
    multiset(Pool(row.bundle))[k]
  }

  lemma {:induction false} BagUpdateAt(rows: seq<Row>, i: nat, row: Row, k: PreKey)
    requires i < |rows|
    ensures Bag(rows[i := row])[k] + Held(rows[i], k) == Bag(rows)[k] + Held(row, k)
    ensures Held(rows[i], k) <= Bag(rows)[k]
  {
    var n, rows' := |rows| - 1, rows[i := row];
    BagAt(rows, k);
    BagAt(rows', k);
    if i == n {
      assert rows'[..n] == rows[..n];
    } else {
      var init := rows[..n];
      BagUpdateAt(init, i, row, k);
      assert rows'[..n] == init[i := row];
    }
  }

  lemma BagAt(rows: seq<Row>, k: PreKey)
    requires rows != []
    ensures Bag(rows)[k] == Bag(rows[..|rows| - 1])[k] + Held(rows[|rows| - 1], k)
  {
  }

  lemma BagUpdate(rows: seq<Row>, i: nat, row: Row)
    requires i < |rows|
    ensures Bag(rows[i := row]) + multiset(Pool(rows[i].bundle)) == Bag(rows) + multiset(Pool(row.bundle))
    ensures multiset(Pool(rows[i].bundle)) <= Bag(rows)
  {
    forall k {
      BagUpdateAt(rows, i, row, k);
    }
  }

  lemma HeadOut(pool: seq<PreKey>)
    requires pool != []
    ensures multiset(pool) == multiset(pool[1..]) + multiset{pool[0]}
  {
    assert pool == [pool[0]] + pool[1..];
  }

  lemma Cancel(a: multiset<PreKey>, b: multiset<PreKey>, extra: multiset<PreKey>, p: multiset<PreKey>)
    requires a + (p + extra) == b + p
    ensures b == a + extra
  {
    forall k
      ensures b[k] == (a + extra)[k]
    {
      assert (a + (p + extra))[k] == a[k] + p[k] + extra[k];
      assert (b + p)[k] == b[k] + p[k];
    }
  }

  lemma Swap(a: multiset<PreKey>, b: multiset<PreKey>, own: multiset<PreKey>, pool: multiset<PreKey>)
    requires a + own == b + pool && own <= b
    ensures a == b - own + pool
  {
    forall k
      ensures a[k] == (b - own + pool)[k]
    {
      assert (a + own)[k] == (b + pool)[k];
    }
  }

  /** Handing out the head of a row's pool moves exactly that prekey out of the bag. */
  lemma BagAfterConsume(rows: seq<Row>, i: nat)
    requires i < |rows| && IsPrekeyBundle(rows[i].bundle) && Pool(rows[i].bundle) != []
    ensures Bag(rows) == Bag(SaveConsumed(rows, i)) + multiset{Pool(rows[i].bundle)[0]}
  {
    var rows' := SaveConsumed(rows, i);
    var pool, rest := Pool(rows[i].bundle), Pool(rows'[i].bundle);
    BagUpdate(rows, i, rows'[i]);
    assert rest == pool[1..];
    HeadOut(pool);
    Cancel(Bag(rows'), Bag(rows), multiset{pool[0]}, multiset(rest));
  }

  /** Rewriting a row without touching its pool keeps the bag. */
  lemma BagAfterMerge(rows: seq<Row>, i: nat, row: Row)
    requires i < |rows| && Pool(row.bundle) == Pool(rows[i].bundle)
    ensures Bag(rows[i := row]) == Bag(rows)
  {
    BagUpdate(rows, i, row);
    var pool := multiset(Pool(row.bundle));
    assert pool + multiset{} == pool;
    Cancel(Bag(rows[i := row]), Bag(rows), multiset{}, pool);
  }

  /** Rewriting one unlocked row, or adding one, disturbs no transaction. */
  lemma WriteKeepsHolds(s: State, rows: seq<Row>, at: nat)
    requires TxnsOk(s)
    requires at <= |s.rows| && |rows| == if at < |s.rows| then |s.rows| else |s.rows| + 1
    requires forall j :: 0 <= j < |s.rows| && j != at ==> rows[j] == s.rows[j]
    requires at < |s.rows| ==> rows[at].userId == s.rows[at].userId
    requires at < |s.rows| ==>
               forall t :: t in s.txns && Holds(s.txns[t].phase) && at < Seen(s.txns[t].phase)
                           ==> s.txns[t].userId != s.rows[at].userId
    ensures forall t :: t in s.txns ==> HoldOk(rows, s.txns[t])
  {
    forall t | t in s.txns
      ensures HoldOk(rows, s.txns[t])
    {
      var x := s.txns[t];
      if Holds(x.phase) {
        var n := Seen(x.phase);
        assert HoldOk(s.rows, x);
        assert SameFor(x.userId, s.rows[..n], rows[..n]);
        ChosenRowIsPerUser(x.userId, s.rows[..n], rows[..n]);
        if !x.phase.Read? {
          assert s.rows[..n][x.phase.row] == s.rows[x.phase.row];
          assert rows[..n][x.phase.row] == rows[x.phase.row];
        }
      }
    }
  }

  lemma WriteKeepsTxns(s: State, rows: seq<Row>, backups: seq<Accepted>, at: nat)
    requires TxnsOk(s)
    requires at <= |s.rows| && |rows| == if at < |s.rows| then |s.rows| else |s.rows| + 1
    requires forall j :: 0 <= j < |s.rows| && j != at ==> rows[j] == s.rows[j]
    requires at < |s.rows| ==> rows[at].userId == s.rows[at].userId && !RowLocked(s, at)
    ensures TxnsOk(s.(rows := rows, backups := backups))
  {
    WriteKeepsHolds(s, rows, at);
    var s' := s.(rows := rows, backups := backups);
    forall t | t in s.txns && (s.txns[t].phase.Answering? || s.txns[t].phase.Answered?)
      ensures ReplyOk(s', t, s.txns[t].phase.reply)
    {
      assert ReplyOk(s, t, s.txns[t].phase.reply);
    }
  }

  lemma UpsertKeepsOneRow(rows: seq<Row>, rows': seq<Row>, userId: string, deviceId: string)
    requires OneRowPerDevice(rows)
    requires var i := FindRow(rows, userId, deviceId);
             if i >= 0 then
               |rows'| == |rows|
               && forall j :: 0 <= j < |rows| ==> rows'[j].userId == rows[j].userId && rows'[j].deviceId == rows[j].deviceId
             else
               |rows'| == |rows| + 1 && rows'[|rows|].userId == userId && rows'[|rows|].deviceId == deviceId
               && forall j :: 0 <= j < |rows| ==> rows'[j] == rows[j]
    ensures OneRowPerDevice(rows')
  {
  }

  lemma PublishKeepsKeys(s: State, e: Event)
    requires KeysOk(s) && e.PublishBundle? && FreshKeys(s, e)
    ensures KeysOk(s.(rows := Publish(s.rows, e.userId, e.deviceId, e.body)))
  {
    var i := FindRow(s.rows, e.userId, e.deviceId);
    var rows := Publish(s.rows, e.userId, e.deviceId, e.body);
    if i >= 0 {
      BagUpdate(s.rows, i, rows[i]);
    } else {
      assert rows[..|rows| - 1] == s.rows;
    }
    var bag, pool := Bag(rows), multiset(Pool(e.body));
    if e.body.preKeys.Some? {
      var own := if i >= 0 then multiset(Pool(s.rows[i].bundle)) else multiset{};
      if i >= 0 {
        assert Pool(rows[i].bundle) == Pool(e.body);
        Swap(bag, Bag(s.rows), own, pool);
      }
      assert bag == Bag(s.rows) - own + pool;
      forall k
        ensures bag[k] <= 1
      {
        if k in pool {
          assert (Bag(s.rows) - own)[k] == 0;
        }
      }
      forall a | 0 <= a < |s.takes|
        ensures s.takes[a].key !in bag
      {
        assert Taken(s, s.takes[a].key);
      }
    } else if i >= 0 {
      BagAfterMerge(s.rows, i, rows[i]);
    }
  }

  lemma PublishKeepsInv(s: State, e: Event)
    requires Inv(s) && e.PublishBundle? && FreshKeys(s, e) && !DeviceRowLocked(s, e.userId, e.deviceId)
    ensures Inv(Step(s, e))
  {
    var i := FindRow(s.rows, e.userId, e.deviceId);
    var rows := Publish(s.rows, e.userId, e.deviceId, e.body);
    WriteKeepsTxns(s, rows, s.backups, if i >= 0 then i else |s.rows|);
    UpsertKeepsOneRow(s.rows, rows, e.userId, e.deviceId);
    PublishKeepsKeys(s, e);
  }

  lemma StoreKeepsBag(rows: seq<Row>, userId: string, deviceId: string, backup: Backup, now: int, stamp: int)
    ensures Bag(Store(rows, userId, deviceId, backup, now, stamp)) == Bag(rows)
  {
    var i := FindRow(rows, userId, deviceId);
    var rows' := Store(rows, userId, deviceId, backup, now, stamp);
    if i < 0 {
      assert rows'[..|rows|] == rows || rows' == rows;
    } else if StoreAccepted(rows, userId, deviceId, now) {
      BagAfterMerge(rows, i, rows'[i]);
    }
  }

  lemma StoreKeepsInv(s: State, e: Event)
    requires Inv(s) && e.StoreKeys? && !DeviceRowLocked(s, e.userId, e.deviceId)
    requires StoreAccepted(s.rows, e.userId, e.deviceId, e.now)
    ensures Inv(Step(s, e))
  {
    var i := FindRow(s.rows, e.userId, e.deviceId);
    var s' := Step(s, e);
    WriteKeepsTxns(s, s'.rows, s'.backups, if i >= 0 then i else |s.rows|);
    UpsertKeepsOneRow(s.rows, s'.rows, e.userId, e.deviceId);
    StoreKeepsBag(s.rows, e.userId, e.deviceId, e.backup, e.now, e.stamp);
  }

  lemma ApplyFacts(s: State, t: nat)
    requires Inv(s) && t in s.txns && s.txns[t].phase.Saved?
    ensures var p := s.txns[t].phase;
            && p.row < |s.rows| && IsPrekeyBundle(s.rows[p.row].bundle)
            && s.rows[p.row].userId == s.txns[t].userId && p.row < p.seen
            && Pool(p.result.clientBundle) == [Pool(p.result.clientBundle)[0]]
            && Apply(s, t) == s.(rows := SaveConsumed(s.rows, p.row),
                                 takes := s.takes + [Take(t, s.txns[t].userId, p.row, Pool(p.result.clientBundle)[0])])
  {
  }

  lemma TakenKeyLeavesTheBag(s: State, t: nat)
    requires Inv(s) && t in s.txns && s.txns[t].phase.Saved?
    ensures var key := Pool(s.txns[t].phase.result.clientBundle)[0];
            && Bag(s.rows)[key] == 1
            && forall k :: Bag(s.rows)[k] == Bag(Apply(s, t).rows)[k] + (if k == key then 1 else 0)
  {
    ApplyFacts(s, t);
    var p := s.txns[t].phase;
    assert HoldOk(s.rows, s.txns[t]);
    BagAfterConsume(s.rows, p.row);
    var key := Pool(p.result.clientBundle)[0];
    forall k
      ensures Bag(s.rows)[k] == Bag(Apply(s, t).rows)[k] + (if k == key then 1 else 0)
    {
      assert (Bag(Apply(s, t).rows) + multiset{key})[k] == Bag(Apply(s, t).rows)[k] + multiset{key}[k];
    }
  }

  lemma TakesAreOthers(s: State, t: nat, a: nat)
    requires Inv(s) && t in s.txns && s.txns[t].phase.Saved? && a < |s.takes|
    ensures var key := Pool(s.txns[t].phase.result.clientBundle)[0];
            s.takes[a].key != key && s.takes[a].txn != t && s.takes[a].key !in Bag(Apply(s, t).rows)
  {
    TakenKeyLeavesTheBag(s, t);
    assert Settled(s.txns[s.takes[a].txn].phase);
    assert Bag(s.rows)[s.takes[a].key] == 0;
  }

  lemma ApplyKeepsKeys(s: State, t: nat)
    requires Inv(s) && t in s.txns && s.txns[t].phase.Saved?
    ensures KeysOk(Apply(s, t))
  {
    ApplyFacts(s, t);
    TakenKeyLeavesTheBag(s, t);
    forall a | 0 <= a < |s.takes|
      ensures s.takes[a].key != Pool(s.txns[t].phase.result.clientBundle)[0]
      ensures s.takes[a].txn != t && s.takes[a].key !in Bag(Apply(s, t).rows)
    {
      TakesAreOthers(s, t, a);
    }
    OneMoreTake(s, Apply(s, t));
  }

  lemma OneMoreTake(s: State, s': State)
    requires KeysOk(s) && |s'.takes| == |s.takes| + 1 && s'.takes[..|s.takes|] == s.takes
    requires forall k :: Bag(s'.rows)[k] <= Bag(s.rows)[k]
    requires s'.takes[|s.takes|].key !in Bag(s'.rows)
    requires forall a :: 0 <= a < |s.takes| ==>
               s.takes[a].key != s'.takes[|s.takes|].key && s.takes[a].txn != s'.takes[|s.takes|].txn
    ensures KeysOk(s')
  {
    var n := |s.takes|;
    forall k
      ensures Bag(s'.rows)[k] <= 1
    {
      assert Bag(s'.rows)[k] <= Bag(s.rows)[k];
    }
    forall a | 0 <= a <= n
      ensures s'.takes[a].key !in Bag(s'.rows)
      ensures forall b :: a < b <= n ==> s'.takes[a].key != s'.takes[b].key && s'.takes[a].txn != s'.takes[b].txn
    {
      if a < n {
        assert s'.takes[a] == s.takes[a] && s.takes[a].key !in Bag(s.rows);
        assert forall b :: a < b < n ==> s'.takes[b] == s.takes[b];
      }
    }
  }

  lemma CommitKeepsHolds(s: State, t: nat, p: Phase)
    requires Inv(s) && t in s.txns && s.txns[t].phase.Saved? && Settled(p)
    ensures forall x :: x in s.txns ==> HoldOk(Apply(s, t).rows, To(Apply(s, t), t, p).txns[x])
  {
    ApplyFacts(s, t);
    var freed := To(s, t, Failed);
    LocalStepKeepsInv(s, t, Failed);
    var row := s.txns[t].phase.row;
    forall x | x in freed.txns && Holds(freed.txns[x].phase) && row < Seen(freed.txns[x].phase)
      ensures freed.txns[x].userId != s.rows[row].userId
    {
      assert x != t && Holds(s.txns[x].phase) && Holds(s.txns[t].phase);
    }
    WriteKeepsHolds(freed, SaveConsumed(s.rows, row), row);
    assert forall x :: x in s.txns && x != t ==> HoldOk(SaveConsumed(s.rows, row), freed.txns[x]);
  }

  lemma CommitKeepsReplies(s: State, t: nat, p: Phase)
    requires Inv(s) && t in s.txns && s.txns[t].phase.Saved?
    requires p == Failed || p == Answering(Served(DeviceOf(s, s.txns[t].phase.row), s.txns[t].phase.result.clientBundle))
    ensures var s' := To(Apply(s, t), t, p);
            forall x :: x in s'.txns && (s'.txns[x].phase.Answering? || s'.txns[x].phase.Answered?)
                        ==> ReplyOk(s', x, s'.txns[x].phase.reply)
  {
    ApplyFacts(s, t);
    var s' := To(Apply(s, t), t, p);
    assert s'.takes[|s.takes|].txn == t;
    forall x | x in s'.txns && (s'.txns[x].phase.Answering? || s'.txns[x].phase.Answered?)
      ensures ReplyOk(s', x, s'.txns[x].phase.reply)
    {
      if x == t {
        assert HoldOk(s.rows, s.txns[t]);
      } else {
        assert ReplyOk(s, x, s.txns[x].phase.reply);
        assert forall a :: 0 <= a < |s.takes| ==> s'.takes[a] == s.takes[a];
      }
    }
  }

  lemma CommitKeepsInv(s: State, t: nat, p: Phase)
    requires Inv(s) && t in s.txns && s.txns[t].phase.Saved?
    requires p == Failed || p == Answering(Served(DeviceOf(s, s.txns[t].phase.row), s.txns[t].phase.result.clientBundle))
    ensures Inv(To(Apply(s, t), t, p))
  {
    ApplyKeepsKeys(s, t);
    CommitKeepsHolds(s, t, p);
    CommitKeepsReplies(s, t, p);
    CommitKeepsOwners(s, t, p);
  }

  lemma CommitKeepsOwners(s: State, t: nat, p: Phase)
    requires Inv(s) && t in s.txns && s.txns[t].phase.Saved? && Settled(p)
    ensures var s' := To(Apply(s, t), t, p);
            && OneRowPerDevice(s'.rows)
            && (forall a :: 0 <= a < |s'.takes| ==> s'.takes[a].txn in s'.txns && Settled(s'.txns[s'.takes[a].txn].phase))
            && OneHolder(s')
  {
  }

  /** What a transaction's next phase must satisfy is what its current phase guarantees. */
  lemma NextPhaseOk(s: State, e: Event)
    requires Inv(s) && !e.Begin? && !e.PublishBundle? && !e.StoreKeys? && e.txn in s.txns
    requires !((e.Commit? || e.CommitReportedLost?) && s.txns[e.txn].phase.Saved?)
    ensures Inv(TxnStep(s, e.txn, e))
  {
    var t := e.txn;
    var x := s.txns[t];
    var s' := TxnStep(s, t, e);
    assert HoldOk(s.rows, x);
    if s' != s {
      if e.LockAndRead? {
        assert s.rows[..|s.rows|] == s.rows;
      } else if e.Pick? {
        ChosenRowIsPerUser(x.userId, x.phase.snapshot, s.rows[..|x.phase.snapshot|]);
      }
      LocalStepKeepsInv(s, t, s'.txns[t].phase);
    }
  }

  lemma TxnStepKeepsInv(s: State, e: Event)
    requires Inv(s) && !e.Begin? && !e.PublishBundle? && !e.StoreKeys? && e.txn in s.txns
    ensures Inv(TxnStep(s, e.txn, e))
  {
    if s.txns[e.txn].phase.Saved? && (e.Commit? || e.CommitReportedLost?) {
      CommitKeepsInv(s, e.txn, TxnStep(s, e.txn, e).txns[e.txn].phase);
    } else {
      NextPhaseOk(s, e);
    }
  }

  ghost predicate OneHolder(s: State) {
    forall t, t' ::
      (t in s.txns && t' in s.txns && Holds(s.txns[t].phase) && Holds(s.txns[t'].phase)
       && s.txns[t].userId == s.txns[t'].userId)
      ==> t == t'
  }

  lemma LocalStepKeepsInv(s: State, t: nat, p: Phase)
    requires Inv(s) && t in s.txns
    requires HoldOk(s.rows, s.txns[t].(phase := p))
    requires p.Answering? || p.Answered? ==> ReplyOk(s, t, p.reply)
    requires Settled(s.txns[t].phase) ==> Settled(p)
    requires Holds(p) ==> Holds(s.txns[t].phase) || !UserLocked(s, s.txns[t].userId)
    ensures Inv(To(s, t, p))
  {
  }

  lemma BeginKeepsInv(s: State, t: nat, u: string)
    requires Inv(s)
    ensures Inv(Step(s, Begin(t, u)))
  {
    if t !in s.txns {
      BeginKeepsTxns(s, t, u);
    }
  }

  lemma BeginKeepsTxns(s: State, t: nat, u: string)
    requires TxnsOk(s) && t !in s.txns
    ensures TxnsOk(s.(txns := s.txns[t := Txn(u, Begun)]))
  {
    var s' := s.(txns := s.txns[t := Txn(u, Begun)]);
    forall x | x in s'.txns && (s'.txns[x].phase.Answering? || s'.txns[x].phase.Answered?)
      ensures ReplyOk(s', x, s'.txns[x].phase.reply)
    {
      assert ReplyOk(s, x, s.txns[x].phase.reply);
    }
  }

  lemma StepKeepsInv(s: State, e: Event)
    requires Inv(s) && FreshKeys(s, e)
    ensures Inv(Step(s, e))
  {
    match e
    case Begin(t, u) => BeginKeepsInv(s, t, u);
    case PublishBundle(u, d, body) => if !DeviceRowLocked(s, u, d) { PublishKeepsInv(s, e); }
    case StoreKeys(u, d, _, now, _) =>
      if !DeviceRowLocked(s, u, d) && StoreAccepted(s.rows, u, d, now) { StoreKeepsInv(s, e); }
    case _ => if e.txn in s.txns { TxnStepKeepsInv(s, e); }
  }

  lemma {:induction false} RunKeepsInv(s: State, es: seq<Event>)
    requires Inv(s) && FreshRun(s, es)
    ensures Inv(Run(s, es))
    decreases |es|
  {
    if es != [] {
      StepKeepsInv(s, es[0]);
      RunKeepsInv(Step(s, es[0]), es[1..]);
    }
  }
}
