/** The FIFO queue of a user over whole runs of interleaved requests, and over one undisturbed request. */
module PrekeyQueueRuns {
  import opened Common
  import opened PrekeyBundles
  import opened PrekeyTable
  import opened PrekeyPool
  import opened PrekeyProperties

  // ---------- Pools of one user stay where they are ----------

  /** For `u`, the pools of the table stay as they are, and rows that are added have none. */
  ghost predicate PoolsKept(rows: seq<Row>, rows': seq<Row>, u: string) {
    && |rows| <= |rows'|
    && (forall i :: 0 <= i < |rows| ==> PoolFor(rows'[i], u) == PoolFor(rows[i], u))
    && (forall i :: |rows| <= i < |rows'| ==> PoolFor(rows'[i], u) == [])
  }

  lemma {:induction false} SamePoolsSameQueue(a: seq<Row>, b: seq<Row>, u: string)
    requires |a| == |b| && forall i :: 0 <= i < |a| ==> PoolFor(a[i], u) == PoolFor(b[i], u)
    ensures Queue(a, u) == Queue(b, u)
  {
    if a != [] {
      SamePoolsSameQueue(a[..|a| - 1], b[..|b| - 1], u);
    }
  }

  lemma KeptPoolsKeepQueues(rows: seq<Row>, rows': seq<Row>, u: string, n: nat)
    requires PoolsKept(rows, rows', u) && n <= |rows|
    ensures Queue(rows'[n..], u) == Queue(rows[n..], u)
  {
    var kept, added := rows'[n..|rows|], rows'[|rows|..];
    assert rows'[n..] == kept + added;
    QueueSplit(kept, added, u);
    QueueOfDrainedRows(added, u);
    SamePoolsSameQueue(kept, rows[n..], u);
  }

  /** Does this event commit the removal of one of the user's prekeys? */
  predicate ConsumesFor(s: State, e: Event, u: string) {
    Consumes(s, e) && s.txns[e.txn].userId == u
  }

  predicate PublishesFor(e: Event, u: string) {
    e.PublishBundle? && e.userId == u
  }

  lemma StepKeepsPools(s: State, e: Event, u: string)
    requires Inv(s) && !PublishesFor(e, u) && !ConsumesFor(s, e, u)
    ensures PoolsKept(s.rows, Step(s, e).rows, u)
  {
    if Consumes(s, e) {
      OtherCommitKeepsPools(s, e, u);
    } else {
      OtherStepKeepsPools(s, e, u);
    }
  }

  lemma OtherCommitKeepsPools(s: State, e: Event, u: string)
    requires Inv(s) && Consumes(s, e) && !ConsumesFor(s, e, u)
    ensures PoolsKept(s.rows, Step(s, e).rows, u)
  {
    ApplyFacts(s, e.txn);
    var row := s.txns[e.txn].phase.row;
    assert Step(s, e).rows == SaveConsumed(s.rows, row);
  }

  lemma OtherStepKeepsPools(s: State, e: Event, u: string)
    requires !PublishesFor(e, u) && !Consumes(s, e)
    ensures PoolsKept(s.rows, Step(s, e).rows, u)
  {
    if !e.PublishBundle? && !e.StoreKeys? {
      assert Step(s, e).rows == s.rows;
    }
  }

  // ---------- One step ----------

  /** What requests of `u` that hold their rows have not seen contains no prekey of `u`. */
  ghost predicate AllSeen(s: State, u: string) {
    forall t :: t in s.txns && Holds(s.txns[t].phase) && s.txns[t].userId == u ==>
      Seen(s.txns[t].phase) <= |s.rows| && Queue(s.rows[Seen(s.txns[t].phase)..], u) == []
  }

  /** The request held its rows already, with the same view of them. */
  ghost predicate HeldAlready(s: State, s': State, t: nat)
    requires t in s'.txns && Holds(s'.txns[t].phase)
  {
    && t in s.txns && Holds(s.txns[t].phase) && s.txns[t].userId == s'.txns[t].userId
    && Seen(s.txns[t].phase) == Seen(s'.txns[t].phase)
  }

  lemma HeldOrJustRead(s: State, e: Event, t: nat)
    requires Inv(s) && t in Step(s, e).txns && Holds(Step(s, e).txns[t].phase)
    ensures var s' := Step(s, e);
            HeldAlready(s, s', t) || (s'.rows == s.rows && Seen(s'.txns[t].phase) == |s'.rows|)
  {
    if Consumes(s, e) {
      assert t != e.txn;
    } else if e.Begin? || e.PublishBundle? || e.StoreKeys? || t != e.txn {
      assert t in s.txns && s.txns[t] == Step(s, e).txns[t];
    } else {
      OwnStepHolds(s, e);
    }
  }

  lemma OwnStepHolds(s: State, e: Event)
    requires !e.Begin? && !e.PublishBundle? && !e.StoreKeys? && !Consumes(s, e)
    requires e.txn in s.txns && Holds(Step(s, e).txns[e.txn].phase)
    ensures var s' := Step(s, e);
            HeldAlready(s, s', e.txn) || (s'.rows == s.rows && Seen(s'.txns[e.txn].phase) == |s'.rows|)
  {
  }

  lemma AllSeenCarriesOver(s: State, s': State, u: string)
    requires AllSeen(s, u) && PoolsKept(s.rows, s'.rows, u)
    requires forall t :: t in s'.txns && Holds(s'.txns[t].phase) ==>
               HeldAlready(s, s', t) || Seen(s'.txns[t].phase) == |s'.rows|
    ensures AllSeen(s', u)
  {
    forall t | t in s'.txns && Holds(s'.txns[t].phase) && s'.txns[t].userId == u
      ensures Seen(s'.txns[t].phase) <= |s'.rows| && Queue(s'.rows[Seen(s'.txns[t].phase)..], u) == []
    {
      if HeldAlready(s, s', t) {
        KeptPoolsKeepQueues(s.rows, s'.rows, u, Seen(s.txns[t].phase));
      }
    }
  }

  lemma StepKeepsAllSeen(s: State, e: Event, u: string)
    requires Inv(s) && AllSeen(s, u) && !PublishesFor(e, u) && !ConsumesFor(s, e, u)
    ensures AllSeen(Step(s, e), u)
  {
    var s' := Step(s, e);
    StepKeepsPools(s, e, u);
    forall t | t in s'.txns && Holds(s'.txns[t].phase)
      ensures HeldAlready(s, s', t) || Seen(s'.txns[t].phase) == |s'.rows|
    {
      HeldOrJustRead(s, e, t);
    }
    AllSeenCarriesOver(s, s', u);
  }

  lemma OwnCommitKeepsAllSeen(s: State, e: Event, u: string)
    requires Inv(s) && ConsumesFor(s, e, u)
    ensures AllSeen(Step(s, e), u)
  {
    var s' := Step(s, e);
    forall t | t in s'.txns && Holds(s'.txns[t].phase)
      ensures s'.txns[t].userId != u
    {
      assert t != e.txn && t in s.txns && s'.txns[t] == s.txns[t];
    }
  }

  function KeysFor(takes: seq<Take>, u: string): seq<PreKey> {
    if takes == [] then []
    else KeysFor(takes[..|takes| - 1], u) + (if takes[|takes| - 1].userId == u then [takes[|takes| - 1].key] else [])
  }

  lemma {:induction false} KeysForSplit(a: seq<Take>, b: seq<Take>, u: string)
    ensures KeysFor(a + b, u) == KeysFor(a, u) + KeysFor(b, u)
  {
    if b == [] {
      assert a + b == a;
    } else {
      var init := b[..|b| - 1];
      KeysForSplit(a, init, u);
      assert (a + b)[..|a + b| - 1] == a + init;
      ConcatAssociates(KeysFor(a, u), KeysFor(init, u), if b[|b| - 1].userId == u then [b[|b| - 1].key] else []);
    }
  }

  /** The event commits a request of `u` that hands out a bundle, with a prekey or without. */
  predicate Serves(s: State, e: Event, u: string) {
    ConsumesFor(s, e, u)
    || (e.Commit? && e.txn in s.txns && s.txns[e.txn].userId == u
        && s.txns[e.txn].phase.Picked? && !s.txns[e.txn].phase.result.consumed)
  }

  function FirstOf(queue: seq<PreKey>, n: nat): nat {
    if n < |queue| then n else |queue|
  }

  /** From `before` to `after`, exactly the first `n` keys of the queue were handed out, in order. */
  ghost predicate Drained(before: State, after: State, u: string, n: nat) {
    var queue := Queue(before.rows, u);
    && n <= |queue|
    && before.takes <= after.takes
    && KeysFor(after.takes[|before.takes|..], u) == queue[..n]
    && Queue(after.rows, u) == queue[n..]
  }

  lemma OneTakeDrains(s: State, s': State, u: string, take: Take)
    requires Queue(s.rows, u) != [] && take.userId == u && take.key == Queue(s.rows, u)[0]
    requires s'.takes == s.takes + [take] && Queue(s'.rows, u) == Queue(s.rows, u)[1..]
    ensures Drained(s, s', u, 1)
  {
    assert s'.takes[|s.takes|..] == [take];
    assert [take][..0] == [];
    assert KeysFor([take], u) == [take.key];
  }

  lemma OwnCommitDrains(s: State, e: Event, u: string)
    requires Inv(s) && AllSeen(s, u) && ConsumesFor(s, e, u)
    ensures Drained(s, Step(s, e), u, 1)
  {
    var p := s.txns[e.txn].phase;
    var queue := Queue(s.rows[..p.seen], u);
    assert Queue(s.rows[p.seen..], u) == [];
    CommitPopsTheHead(s, e);
    assert [] + queue == queue && [] + queue[1..] == queue[1..];
    OneTakeDrains(s, Step(s, e), u, Take(e.txn, u, p.row, queue[0]));
  }

  lemma OtherTakesDrainNothing(s: State, s': State, u: string, others: seq<Take>)
    requires PoolsKept(s.rows, s'.rows, u) && s'.takes == s.takes + others
    requires |others| <= 1 && forall x :: x in others ==> x.userId != u
    ensures Drained(s, s', u, 0)
  {
    KeptPoolsKeepQueues(s.rows, s'.rows, u, 0);
    assert s.rows[0..] == s.rows && s'.rows[0..] == s'.rows;
    assert s'.takes[|s.takes|..] == others;
    assert others != [] ==> others[..0] == [] && others[0] in others;
    assert KeysFor(others, u) == [];
  }

  lemma OtherStepDrainsNothing(s: State, e: Event, u: string)
    requires Inv(s) && !PublishesFor(e, u) && !ConsumesFor(s, e, u)
    ensures Drained(s, Step(s, e), u, 0)
  {
    StepKeepsPools(s, e, u);
    if Consumes(s, e) {
      ApplyFacts(s, e.txn);
      var p := s.txns[e.txn].phase;
      OtherTakesDrainNothing(s, Step(s, e), u,
                             [Take(e.txn, s.txns[e.txn].userId, p.row, Pool(p.result.clientBundle)[0])]);
    } else {
      StepTakesNothing(s, e);
      assert s.takes + [] == s.takes;
      OtherTakesDrainNothing(s, Step(s, e), u, []);
    }
  }

  /** A request is served without a prekey only when the user's whole queue is empty. */
  lemma ServedKeylessOnlyFromAnEmptyQueue(s: State, e: Event, u: string)
    requires Inv(s) && AllSeen(s, u) && Serves(s, e, u) && !ConsumesFor(s, e, u)
    ensures Queue(s.rows, u) == []
  {
    var p := s.txns[e.txn].phase;
    assert HoldOk(s.rows, s.txns[e.txn]);
    ConsumePopsTheHead(s.rows, p.seen, u);
  }

  lemma StepDrains(s: State, e: Event, u: string)
    requires Inv(s) && AllSeen(s, u) && !PublishesFor(e, u)
    ensures AllSeen(Step(s, e), u)
    ensures Drained(s, Step(s, e), u, FirstOf(Queue(s.rows, u), if Serves(s, e, u) then 1 else 0))
  {
    if ConsumesFor(s, e, u) {
      OwnCommitKeepsAllSeen(s, e, u);
      OwnCommitDrains(s, e, u);
    } else {
      StepKeepsAllSeen(s, e, u);
      OtherStepDrainsNothing(s, e, u);
      if Serves(s, e, u) {
        ServedKeylessOnlyFromAnEmptyQueue(s, e, u);
      }
    }
  }

  // ---------- Whole runs ----------

  /** How many requests of `u` commit a bundle in the run. */
  function Served(s: State, es: seq<Event>, u: string): nat
    decreases |es|
  {
    if es == [] then 0 else (if Serves(s, es[0], u) then 1 else 0) + Served(Step(s, es[0]), es[1..], u)
  }

  lemma DrainsCompose(a: State, b: State, c: State, u: string, m: nat, n: nat)
    requires Drained(a, b, u, m) && Drained(b, c, u, n)
    ensures Drained(a, c, u, m + n)
  {
    var first, second := b.takes[|a.takes|..], c.takes[|b.takes|..];
    assert c.takes[|a.takes|..] == first + second;
    KeysForSplit(first, second, u);
    var queue := Queue(a.rows, u);
    assert queue[..m + n] == queue[..m] + queue[m..][..n];
    assert queue[m..][n..] == queue[m + n..];
  }

  lemma FirstsCompose(a: State, b: State, c: State, u: string, m: nat, n: nat)
    requires Drained(a, b, u, FirstOf(Queue(a.rows, u), m)) && Drained(b, c, u, FirstOf(Queue(b.rows, u), n))
    ensures Drained(a, c, u, FirstOf(Queue(a.rows, u), m + n))
  {
    DrainsCompose(a, b, c, u, FirstOf(Queue(a.rows, u), m), FirstOf(Queue(b.rows, u), n));
  }

  /**
   * Over any run of interleaved requests with any failures, in which `u` publishes nothing: if n requests of `u`
   * commit a bundle and N keys were queued, exactly the first min(n, N) keys of the queue are handed out, in order,
   * and the rest stays queued, in order.
   */
  lemma {:induction false} RunDrainsTheQueueInOrder(s: State, es: seq<Event>, u: string)
    requires Inv(s) && AllSeen(s, u) && FreshRun(s, es)
    requires forall e :: e in es ==> !PublishesFor(e, u)
    ensures Drained(s, Run(s, es), u, FirstOf(Queue(s.rows, u), Served(s, es, u)))
    decreases |es|
  {
    if es == [] {
      assert s.takes[|s.takes|..] == [];
    } else {
      var s1 := Step(s, es[0]);
      StepDrains(s, es[0], u);
      StepKeepsInv(s, es[0]);
      RunDrainsTheQueueInOrder(s1, es[1..], u);
      FirstsCompose(s, s1, Run(s1, es[1..]), u, if Serves(s, es[0], u) then 1 else 0, Served(s1, es[1..], u));
    }
  }

  /** The same from any moment of a run at which no request of `u` holds its rows. */
  lemma QueueDrainsFromAnyIdleMoment(before: seq<Event>, es: seq<Event>, u: string)
    requires FreshRun(INIT, before) && !UserLocked(Run(INIT, before), u)
    requires FreshRun(Run(INIT, before), es) && forall e :: e in es ==> !PublishesFor(e, u)
    ensures var s := Run(INIT, before);
            Drained(s, Run(s, es), u, FirstOf(Queue(s.rows, u), Served(s, es, u)))
  {
    RunKeepsInv(INIT, before);
    RunDrainsTheQueueInOrder(Run(INIT, before), es, u);
  }

  // ---------- One undisturbed request ----------

  function GetEvents(t: nat, userId: string): seq<Event> {
    [Begin(t, userId), LockAndRead(t), Pick(t), Save(t), Commit(t), Answer(t)]
  }

  lemma RunCons(s: State, e: Event, es: seq<Event>)
    ensures Run(s, [e] + es) == Run(Step(s, e), es)
  {
  }

  lemma RunSix(s: State, a: Event, b: Event, c: Event, d: Event, e: Event, f: Event)
    ensures Run(s, [a, b, c, d, e, f]) == Step(Step(Step(Step(Step(Step(s, a), b), c), d), e), f)
  {
    var s1 := Step(s, a);
    var s2 := Step(s1, b);
    var s3 := Step(s2, c);
    var s4 := Step(s3, d);
    var s5 := Step(s4, e);
    assert [a, b, c, d, e, f] == [a] + ([b] + ([c] + ([d] + ([e] + ([f] + [])))));
    RunCons(s, a, [b] + ([c] + ([d] + ([e] + ([f] + [])))));
    RunCons(s1, b, [c] + ([d] + ([e] + ([f] + []))));
    RunCons(s2, c, [d] + ([e] + ([f] + [])));
    RunCons(s3, d, [e] + ([f] + []));
    RunCons(s4, e, [f] + []);
    RunCons(s5, f, []);
  }

  function Holding(s: State, t: nat, x: Txn): State {
    s.(txns := s.txns[t := x])
  }

  /** The reply of one get on the table. */
  function ReplyTo(rows: seq<Row>, u: string): Reply {
    var i := ChosenRow(rows, u);
    if i < 0 then NotFound else Reply.Served(rows[i].deviceId, Consume(rows[i].bundle).clientBundle)
  }

  lemma BeginAndRead(s: State, t: nat, u: string)
    requires t !in s.txns && !UserLocked(s, u)
    ensures Step(Step(s, Begin(t, u)), LockAndRead(t))
            == Holding(s, t, Txn(u, if exists i :: 0 <= i < |s.rows| && s.rows[i].userId == u then Read(s.rows) else Unserved))
  {
  }

  /** Without a publishable row the answer is NotFound, however far the request came. */
  lemma NothingToServe(s: State, t: nat, u: string, p: Phase)
    requires ChosenRow(s.rows, u) < 0 && (p == Read(s.rows) || p == Unserved)
    ensures Step(Step(Step(Step(Holding(s, t, Txn(u, p)), Pick(t)), Save(t)), Commit(t)), Answer(t))
            == Holding(s, t, Txn(u, Answered(NotFound)))
  {
    var s3 := Step(Holding(s, t, Txn(u, p)), Pick(t));
    assert s3 == Holding(s, t, Txn(u, Unserved));
    assert Step(s3, Save(t)) == s3;
    assert Step(s3, Commit(t)) == Holding(s, t, Txn(u, Answering(NotFound)));
  }

  lemma KeylessToServe(s: State, t: nat, u: string)
    requires ChosenRow(s.rows, u) >= 0 && !Consume(s.rows[ChosenRow(s.rows, u)].bundle).consumed
    ensures Step(Step(Step(Step(Holding(s, t, Txn(u, Read(s.rows))), Pick(t)), Save(t)), Commit(t)), Answer(t))
            == Holding(s, t, Txn(u, Answered(ReplyTo(s.rows, u))))
  {
    var i := ChosenRow(s.rows, u);
    var s3 := Step(Holding(s, t, Txn(u, Read(s.rows))), Pick(t));
    assert s3 == Holding(s, t, Txn(u, Picked(|s.rows|, i, Consume(s.rows[i].bundle))));
    assert Step(s3, Save(t)) == s3;
    assert Step(s3, Commit(t)) == Holding(s, t, Txn(u, Answering(ReplyTo(s.rows, u))));
  }

  lemma PickAndSave(s: State, t: nat, u: string)
    requires ChosenRow(s.rows, u) >= 0 && Consume(s.rows[ChosenRow(s.rows, u)].bundle).consumed
    ensures var s2 := Holding(s, t, Txn(u, Read(s.rows)));
            var i := ChosenRow(s.rows, u);
            Step(Step(s2, Pick(t)), Save(t)) == Holding(s, t, Txn(u, Saved(|s.rows|, i, Consume(s.rows[i].bundle))))
  {
  }

  lemma CommitAndAnswer(s: State, t: nat, u: string)
    requires ChosenRow(s.rows, u) >= 0 && Consume(s.rows[ChosenRow(s.rows, u)].bundle).consumed
    ensures var i := ChosenRow(s.rows, u);
            var c := Consume(s.rows[i].bundle);
            var s' := Step(Step(Holding(s, t, Txn(u, Saved(|s.rows|, i, c))), Commit(t)), Answer(t));
            && s'.rows == SaveConsumed(s.rows, i) && s'.takes == s.takes + [Take(t, u, i, Pool(s.rows[i].bundle)[0])]
            && s'.backups == s.backups
            && s'.txns == s.txns[t := Txn(u, Answered(ReplyTo(s.rows, u)))]
  {
  }

  /**
   * An undisturbed request has the effect of one get on the table: with a queued key it pops the head and answers
   * with it; with a publishable row and no key it answers a keyless bundle; without one it answers NotFound. In the
   * last two cases nothing changes.
   */
  lemma UndisturbedRequestIsOneGet(s: State, t: nat, u: string)
    requires t !in s.txns && !UserLocked(s, u)
    ensures var s', queue := Run(s, GetEvents(t, u)), Queue(s.rows, u);
            && s'.rows == AfterGet(s.rows, u)
            && s'.txns == s.txns[t := Txn(u, Answered(ReplyTo(s.rows, u)))]
            && (ReplyTo(s.rows, u) == NotFound ==> queue == [])
            && (queue == [] ==> s'.rows == s.rows && s'.takes == s.takes)
            && (queue != [] ==> KeysFor(s'.takes, u) == KeysFor(s.takes, u) + [queue[0]])
            && (ReplyTo(s.rows, u).Served? ==>
                  Pool(ReplyTo(s.rows, u).bundle) == if queue == [] then [] else [queue[0]])
  {
    RunSix(s, Begin(t, u), LockAndRead(t), Pick(t), Save(t), Commit(t), Answer(t));
    BeginAndRead(s, t, u);
    var i := ChosenRow(s.rows, u);
    if i < 0 {
      NoPublishedRowNoQueue(s.rows, u);
      NothingToServe(s, t, u, Step(Step(s, Begin(t, u)), LockAndRead(t)).txns[t].phase);
    } else {
      ConsumePopsOwnQueue(s.rows, u);
      if Consume(s.rows[i].bundle).consumed {
        PickAndSave(s, t, u);
        CommitAndAnswer(s, t, u);
        var take := Take(t, u, i, Pool(s.rows[i].bundle)[0]);
        assert (s.takes + [take])[..|s.takes|] == s.takes;
      } else {
        KeylessToServe(s, t, u);
      }
    }
  }
}
