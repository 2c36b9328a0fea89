/** What a client is answered: a bundle with the identity fields of the row it came from, as last published. */
module PrekeyResponses {
  import opened PrekeyBundles
  import opened PrekeyTable
  import opened PrekeyPool
  import opened PrekeyProperties
  import opened Common

  predicate HasReply(p: Phase) {
    p.Answering? || p.Answered?
  }

  /** A committed answer names the device of the row it consumed from and carries its identity fields, not its backup. */
  lemma CommitAnswersTheRow(s: State, e: Event)
    requires Inv(s) && e.Commit? && e.txn in s.txns && !HasReply(s.txns[e.txn].phase)
    requires var p' := Step(s, e).txns[e.txn].phase; HasReply(p') && p'.reply.Served?
    ensures var x, reply := s.txns[e.txn], Step(s, e).txns[e.txn].phase.reply;
            && (x.phase.Picked? || x.phase.Saved?) && x.phase.row < |s.rows|
            && var row := s.rows[x.phase.row];
            && row.userId == x.userId && row.deviceId == reply.deviceId
            && reply.bundle.(preKeys := None) == row.bundle.(preKeys := None, backup := None)
  {
    assert HoldOk(s.rows, s.txns[e.txn]);
  }

  lemma StepKeepsReply(s: State, e: Event, t: nat)
    requires t in s.txns
    ensures var x, x' := s.txns[t], Step(s, e).txns[t];
            && x'.userId == x.userId
            && (Settled(x.phase) ==> Settled(x'.phase))
            && (Settled(x.phase) && HasReply(x'.phase) ==> HasReply(x.phase) && x'.phase.reply == x.phase.reply)
            && (!Settled(x.phase) && Settled(x'.phase) && HasReply(x'.phase) ==> e.Commit? && e.txn == t)
  {
  }

  /** Once a request is settled, its reply is the one it has. */
  lemma {:induction false} SettledReplyStays(s: State, es: seq<Event>, t: nat)
    requires t in s.txns && Settled(s.txns[t].phase)
    ensures t in Run(s, es).txns
    ensures var x, x' := s.txns[t], Run(s, es).txns[t];
            && x'.userId == x.userId
            && (HasReply(x'.phase) ==> HasReply(x.phase) && x'.phase.reply == x.phase.reply)
    decreases |es|
  {
    if es != [] {
      StepKeepsReply(s, es[0], t);
      SettledReplyStays(Step(s, es[0]), es[1..], t);
    }
  }

  /** Request `t` has been answered with a bundle of this device. */
  ghost predicate AnswersFrom(s: State, t: nat, userId: string, deviceId: string) {
    && t in s.txns && s.txns[t].userId == userId && HasReply(s.txns[t].phase)
    && s.txns[t].phase.reply.Served? && s.txns[t].phase.reply.deviceId == deviceId
  }

  ghost predicate Unsettled(s: State, t: nat) {
    t in s.txns ==> !Settled(s.txns[t].phase)
  }

  lemma StepAnswersFromRow(s: State, e: Event, i: nat, t: nat)
    requires Inv(s) && i < |s.rows| && Unsettled(s, t)
    requires AnswersFrom(Step(s, e), t, s.rows[i].userId, s.rows[i].deviceId)
    ensures Step(s, e).txns[t].phase.reply.bundle.(preKeys := None) == s.rows[i].bundle.(preKeys := None, backup := None)
  {
    if t in s.txns {
      StepKeepsReply(s, e, t);
      CommitAnswersTheRow(s, e);
      assert s.txns[t].phase.row == i;
    }
  }

  /** Over a run without a publish of row `i`'s device, every answer made in it shows the identity fields of the row. */
  lemma {:induction false} AnswersShowTheRow(s: State, es: seq<Event>, i: nat, t: nat)
    requires Inv(s) && FreshRun(s, es) && i < |s.rows| && Unsettled(s, t)
    requires forall e :: e in es ==> !Publishes(e, s.rows[i].userId, s.rows[i].deviceId)
    requires AnswersFrom(Run(s, es), t, s.rows[i].userId, s.rows[i].deviceId)
    ensures Run(s, es).txns[t].phase.reply.bundle.(preKeys := None) == s.rows[i].bundle.(preKeys := None, backup := None)
    decreases |es|
  {
    assert es != [];
    var s1 := Step(s, es[0]);
    StepKeepsInv(s, es[0]);
    StepOnlyConsumes(s, es[0], i);
    assert s1.rows[i].bundle.(preKeys := None, backup := None) == s.rows[i].bundle.(preKeys := None, backup := None);
    if Unsettled(s1, t) {
      AnswersShowTheRow(s1, es[1..], i, t);
    } else {
      SettledReplyStays(s1, es[1..], t);
      StepAnswersFromRow(s, es[0], i, t);
    }
  }

  /**
   * Every bundle of a device that is answered after its last publish, by a request not settled before, carries exactly
   * the identity key, registration id and signed prekey of that publish.
   */
  lemma AnswersShowTheLastPublish(s: State, e: Event, es: seq<Event>, t: nat)
    requires Inv(s) && e.PublishBundle? && Complete(e.body) && !DeviceRowLocked(s, e.userId, e.deviceId)
    requires FreshRun(s, [e] + es) && forall x :: x in es ==> !Publishes(x, e.userId, e.deviceId)
    requires Unsettled(s, t) && AnswersFrom(Run(s, [e] + es), t, e.userId, e.deviceId)
    ensures var bundle := Run(s, [e] + es).txns[t].phase.reply.bundle;
            && bundle.identityKey == e.body.identityKey && bundle.registrationId == e.body.registrationId
            && bundle.signedPreKey == e.body.signedPreKey && bundle.backup == None
  {
    var s1 := Step(s, e);
    assert ([e] + es)[1..] == es;
    assert FreshKeys(s, e) && FreshRun(s1, es);
    StepKeepsInv(s, e);
    var i0 := FindRow(s.rows, e.userId, e.deviceId);
    var at := if i0 >= 0 then i0 else |s.rows|;
    assert s1.rows[at].userId == e.userId && s1.rows[at].deviceId == e.deviceId;
    assert s1.rows[at].bundle.(preKeys := None, backup := None) == e.body.(preKeys := None);
    AnswersShowTheRow(s1, es, at, t);
  }

  // ---------- Failures ----------

  /** A failure before the answer is sent rolls back: the table stays, and the request is over without an answer. */
  lemma AFailureRollsBack(s: State, t: nat, es: seq<Event>)
    requires t in s.txns && !s.txns[t].phase.Answered?
    ensures var s' := Step(s, Fail(t));
            && s'.rows == s.rows && s'.takes == s.takes && s'.backups == s.backups
            && t in Run(s', es).txns && !HasReply(Run(s', es).txns[t].phase)
  {
    SettledReplyStays(Step(s, Fail(t)), es, t);
  }

  /**
   * When only the acknowledgement of a commit is lost, the prekey is gone: it has left the queue, and however the run
   * goes on it is in no pool and in no response.
   */
  lemma ALostCommitLosesItsKey(s: State, t: nat, es: seq<Event>)
    requires Inv(s) && t in s.txns && s.txns[t].phase.Saved? && FreshRun(Step(s, CommitReportedLost(t)), es)
    ensures var key := Pool(s.txns[t].phase.result.clientBundle)[0];
            var s' := Run(Step(s, CommitReportedLost(t)), es);
            && Bag(s.rows)[key] == 1 && key !in Bag(s'.rows)
            && forall x :: !ServedKey(s', x, key)
  {
    var s1 := Step(s, CommitReportedLost(t));
    TakenKeyLeavesTheBag(s, t);
    LostCommitTakes(s, t);
    StepKeepsInv(s, CommitReportedLost(t));
    RunKeepsInv(s1, es);
    TakesStay(s1, es);
    SettledReplyStays(s1, es, t);
    OnlyItsTakerIsServed(Run(s1, es), |s.takes|);
  }

  lemma LostCommitTakes(s: State, t: nat)
    requires Inv(s) && t in s.txns && s.txns[t].phase.Saved?
    ensures var p, s1 := s.txns[t].phase, Step(s, CommitReportedLost(t));
            && s1.takes == s.takes + [Take(t, s.txns[t].userId, p.row, Pool(p.result.clientBundle)[0])]
            && t in s1.txns && s1.txns[t].phase == Failed
  {
    ApplyFacts(s, t);
  }

  /** A taken prekey is in no pool, and only the request that took it can be answered with it. */
  lemma OnlyItsTakerIsServed(s: State, a: nat)
    requires Inv(s) && a < |s.takes|
    ensures s.takes[a].key !in Bag(s.rows) && forall x :: ServedKey(s, x, s.takes[a].key) ==> x == s.takes[a].txn
  {
    forall x | ServedKey(s, x, s.takes[a].key)
      ensures x == s.takes[a].txn
    {
      assert ReplyOk(s, x, s.txns[x].phase.reply);
    }
  }

  lemma StepKeepsTakes(s: State, e: Event)
    requires Inv(s)
    ensures s.takes <= Step(s, e).takes
  {
    if Consumes(s, e) {
      ApplyFacts(s, e.txn);
    } else {
      StepTakesNothing(s, e);
    }
  }

  lemma {:induction false} TakesStay(s: State, es: seq<Event>)
    requires Inv(s) && FreshRun(s, es)
    ensures s.takes <= Run(s, es).takes
    decreases |es|
  {
    if es != [] {
      StepKeepsTakes(s, es[0]);
      StepKeepsInv(s, es[0]);
      TakesStay(Step(s, es[0]), es[1..]);
    }
  }
}
