/**
 * The user-details RPC: the client's correlation map and its timers, the responder, and a network that may lose,
 * duplicate and reorder. Time is discrete, and a timer that is due fires before the clock moves on.
 */
module UserDetailsRpc {
  import Common

  const TIMEOUT_MS := 5000

  /** The argument of a callback: null, the selected columns of a user row, or the responder's error object. */
  datatype Value = Null | User(id: string, username: string, email: string, createdAt: int, updatedAt: int) | ErrorObject

  /** A row of the `users` table; further columns are not part of this model. */
  datatype Account = Account(id: string, username: string, email: string, password: string, createdAt: int, updatedAt: int)

  /** The table by its primary key. */
  type Users = m: map<string, Account> | forall id :: id in m ==> m[id].id == id witness map[]

  datatype Cause = TimedOut | Replied

  datatype Entry = Entry(callback: nat, timer: nat)

  datatype Invocation = Invocation(correlationId: nat, callback: nat, value: Value, cause: Cause, at: nat)

  // ---------- The client ----------

  /** `timers` holds the live timers, each named by its correlation id, with the time it is due. */
  datatype Client = Client(now: nat, entries: map<nat, Entry>, timers: map<nat, nat>, invoked: seq<Invocation>)

  function Register(c: Client, id: nat, callback: nat): Client {
    c.(entries := c.entries[id := Entry(callback, id)], timers := c.timers[id := c.now + TIMEOUT_MS])
  }

  /** Finishing a call: its timer is gone, its callback has run once, its entry is gone. */
  function Settle(c: Client, id: nat, value: Value, cause: Cause): Client
    requires id in c.entries
  {
    c.(timers := c.timers - {id},
       entries := c.entries - {id},
       invoked := c.invoked + [Invocation(id, c.entries[id].callback, value, cause, c.now)])
  }

  function Receive(c: Client, id: nat, value: Value): Client {
    if id in c.entries then Settle(c, id, value, Replied) else c
  }

  /** A due timer fires; firing removes it from the live timers. */
  function Expire(c: Client, id: nat): Client {
    if id in c.timers && c.timers[id] <= c.now then
      if id in c.entries then Settle(c, id, Null, TimedOut) else c.(timers := c.timers - {id})
    else c
  }

  class RpcClient {
    var now: nat
    var correlationMap: map<nat, Entry>
    var timers: map<nat, nat>
    var invoked: seq<Invocation>

    ghost function View(): Client
      reads this
    {
      Client(now, correlationMap, timers, invoked)
    }

    ghost predicate Valid()
      reads this
    {
      forall id :: id in correlationMap ==> correlationMap[id].timer == id
    }

    constructor ()
      ensures Valid() && View() == Client(0, map[], map[], [])
    {
      now, correlationMap, timers, invoked := 0, map[], map[], [];
    }

    /** Sending happens after registering, so a send that throws leaves the timer to settle the call. */
    method GetUserDetails(callback: nat, correlationId: nat, sendFails: bool) returns (sent: bool)
      requires Valid()
      modifies this
      ensures Valid() && View() == Register(old(View()), correlationId, callback) && sent == !sendFails
    {
      timers := timers[correlationId := now + TIMEOUT_MS];
      correlationMap := correlationMap[correlationId := Entry(callback, correlationId)];
      sent := !sendFails;
    }

    method OnResponse(correlationId: nat, value: Value)
      requires Valid()
      modifies this
      ensures Valid() && View() == Receive(old(View()), correlationId, value)
      ensures correlationId in old(correlationMap) ==>
                invoked == old(invoked)
                  + [Invocation(correlationId, old(correlationMap)[correlationId].callback, value, Replied, now)]
      ensures correlationId !in correlationMap
    {
      if correlationId in correlationMap {
        var entry := correlationMap[correlationId];
        timers := timers - {entry.timer};
        invoked := invoked + [Invocation(correlationId, entry.callback, value, Replied, now)];
        correlationMap := correlationMap - {correlationId};
      }
    }

    method OnTimeout(correlationId: nat)
      requires Valid()
      modifies this
      ensures Valid() && View() == Expire(old(View()), correlationId)
    {
      if correlationId in timers && timers[correlationId] <= now {
        timers := timers - {correlationId};
        if correlationId in correlationMap {
          var entry := correlationMap[correlationId];
          invoked := invoked + [Invocation(correlationId, entry.callback, Null, TimedOut, now)];
          correlationMap := correlationMap - {correlationId};
        }
      }
    }
  }

  // ---------- Client, network and responder ----------

  datatype Call = Call(userId: string, callback: nat, at: nat)
  datatype Request = Request(correlationId: nat, userId: string)
  datatype Reply = Reply(correlationId: nat, value: Value)

  /** findOne with its select list. */
  function Found(users: Users, userId: string): Value {
    if userId in users then
      var row := users[userId];
      User(row.id, row.username, row.email, row.createdAt, row.updatedAt)
    else Null
  }

  /** Where the responder fails; `first` and `second` are its attempts to send. */
  datatype ResponderFault = ResponderFault(lookup: bool, first: bool, second: bool)

  /** The responder's channel: replies that were sent, and the deliveries that were acknowledged. */
  class Responder {
    var sent: seq<Reply>
    var acked: seq<nat>

    constructor ()
      ensures sent == [] && acked == []
    {
      sent, acked := [], [];
    }

    /**
     * The request consumer; a delivery whose content does not parse has no user id. Whatever fails, the delivery is
     * acknowledged exactly once and at most one reply is sent, under its correlation id: the user's row or null, or
     * the error object after a failure. No reply is sent, and the exception leaves the handler, exactly when the
     * error object cannot be sent either.
     */
    method HandleRequest(delivery: nat, correlationId: nat, content: Common.Option<string>, users: Users,
                         fault: ResponderFault)
      returns (threw: bool)
      modifies this
      ensures acked == old(acked) + [delivery]
      ensures var failed := content == Common.None || fault.lookup || fault.first;
              && (threw <==> failed && fault.second)
              && (threw ==> sent == old(sent))
              && (failed && !threw ==> sent == old(sent) + [Reply(correlationId, ErrorObject)])
              && (!failed && content.value !in users ==> sent == old(sent) + [Reply(correlationId, Null)])
              && (!failed && content.value in users ==>
                    var row := users[content.value];
                    sent == old(sent)
                      + [Reply(correlationId, User(content.value, row.username, row.email, row.createdAt, row.updatedAt))])
    {
      threw := false;
      var replied := false;
      if content.Some? && !fault.lookup {
        var value := Found(users, content.value);
        if !fault.first {
          sent := sent + [Reply(correlationId, value)];
          replied := true;
        }
      }
      if !replied {
        // The catch block; sending may fail again.
        if fault.second {
          threw := true;
        } else {
          sent := sent + [Reply(correlationId, ErrorObject)];
        }
      }
      // The finally block.
      acked := acked + [delivery];
    }
  }

  /**
   * `requests` and `replies` hold everything ever sent: a message in them may arrive at any later time, any number
   * of times, in any order, or never. `lookups` remembers what the replies were made from.
   */
  datatype State = State(client: Client, calls: map<nat, Call>, requests: set<Request>, replies: set<Reply>,
                         lookups: set<Lookup>)

  /** A request that the responder answered, with the table it looked in, or with a failure. */
  datatype Lookup = Lookup(request: Request, users: Users, failed: bool)

  datatype Event =
    | GetDetails(correlationId: nat, userId: string, callback: nat, sendFails: bool)
    | Respond(lookup: Lookup) // the responder handles a copy of a request and sends a reply
    | Deliver(reply: Reply)
    | Fire(correlationId: nat)
    | Tick

  const INIT := State(Client(0, map[], map[], []), map[], {}, {}, {})

  predicate TimerDue(c: Client) {
    exists id :: id in c.timers && c.timers[id] <= c.now
  }

  /** Correlation ids are fresh; the responder answers with the request's own correlation id. */
  function Step(s: State, e: Event): State {
    match e
    case GetDetails(id, user, callback, sendFails) =>
      if id in s.calls then s
      else State(Register(s.client, id, callback), s.calls[id := Call(user, callback, s.client.now)],
                 if sendFails then s.requests else s.requests + {Request(id, user)}, s.replies, s.lookups)
    case Respond(lookup) =>
      if lookup.request in s.requests then
        var value := if lookup.failed then ErrorObject else Found(lookup.users, lookup.request.userId);
        s.(replies := s.replies + {Reply(lookup.request.correlationId, value)}, lookups := s.lookups + {lookup})
      else s
    case Deliver(reply) =>
      if reply in s.replies then s.(client := Receive(s.client, reply.correlationId, reply.value)) else s
    case Fire(id) => s.(client := Expire(s.client, id))
    case Tick => if TimerDue(s.client) then s else s.(client := s.client.(now := s.client.now + 1))
  }

  function Run(es: seq<Event>): State {
    if es == [] then INIT else Step(Run(es[..|es| - 1]), es[|es| - 1])
  }

  // ---------- What holds in every run ----------

  ghost predicate Invoked(s: State, id: nat) {
    exists k :: 0 <= k < |s.client.invoked| && s.client.invoked[k].correlationId == id
  }

  /** The reply was made from this lookup of the user: the row that was there, null for none, or the error object. */
  predicate MadeFrom(l: Lookup, id: nat, userId: string, value: Value) {
    && l.request == Request(id, userId)
    && if l.failed then value == ErrorObject
       else if userId in l.users then
         var row := l.users[userId];
         value == User(userId, row.username, row.email, row.createdAt, row.updatedAt)
       else value == Null
  }

  ghost predicate IsAnswer(s: State, id: nat, userId: string, value: Value) {
    exists l :: l in s.lookups && MadeFrom(l, id, userId, value)
  }

  /** One invocation: the right callback, in time, with null at the deadline or the answer to this very request. */
  ghost predicate InvocationOk(s: State, x: Invocation) {
    && x.correlationId in s.calls
    && var call := s.calls[x.correlationId];
    && x.callback == call.callback
    && x.at <= call.at + 5000
    && (x.cause == TimedOut ==> x.value == Null && x.at == call.at + 5000)
    && (x.cause == Replied ==>
          && Reply(x.correlationId, x.value) in s.replies && Request(x.correlationId, call.userId) in s.requests
          && IsAnswer(s, x.correlationId, call.userId, x.value))
  }

  /** A call in the map: its timer is live, aims at its deadline, and the deadline is not past. */
  ghost predicate EntryOk(s: State, id: nat)
    requires id in s.client.entries
  {
    && id in s.calls && s.client.entries[id] == Entry(s.calls[id].callback, id)
    && id in s.client.timers && s.client.timers[id] == s.calls[id].at + TIMEOUT_MS
    && s.client.now <= s.client.timers[id]
    && !Invoked(s, id)
  }

  ghost predicate Inv(s: State) {
    && s.client.entries.Keys == s.client.timers.Keys
    && (forall id :: id in s.client.entries ==> EntryOk(s, id))
    && (forall id :: id in s.calls ==> id in s.client.entries || Invoked(s, id))
    && (forall k :: 0 <= k < |s.client.invoked| ==> InvocationOk(s, s.client.invoked[k]))
    && (forall k, l :: 0 <= k < l < |s.client.invoked|
          ==> s.client.invoked[k].correlationId != s.client.invoked[l].correlationId)
    && (forall q :: q in s.requests ==> q.correlationId in s.calls && s.calls[q.correlationId].userId == q.userId)
    && (forall p :: p in s.replies ==>
          && p.correlationId in s.calls && Request(p.correlationId, s.calls[p.correlationId].userId) in s.requests
          && IsAnswer(s, p.correlationId, s.calls[p.correlationId].userId, p.value))
  }

  lemma InvocationStaysOk(s: State, s': State, x: Invocation)
    requires InvocationOk(s, x) && s.requests <= s'.requests && s.replies <= s'.replies && s.lookups <= s'.lookups
    requires forall id :: id in s.calls ==> id in s'.calls && s'.calls[id] == s.calls[id]
    ensures InvocationOk(s', x)
  {
  }

  lemma StaysInvoked(s: State, s': State, id: nat)
    requires Invoked(s, id) && s.client.invoked <= s'.client.invoked
    ensures Invoked(s', id)
  {
    var k :| 0 <= k < |s.client.invoked| && s.client.invoked[k].correlationId == id;
    assert s'.client.invoked[k].correlationId == id;
  }

  lemma SettleKeepsInv(s: State, id: nat, value: Value, cause: Cause)
    requires Inv(s) && id in s.client.entries
    requires InvocationOk(s, Invocation(id, s.client.entries[id].callback, value, cause, s.client.now))
    ensures Inv(s.(client := Settle(s.client, id, value, cause)))
  {
    var s' := s.(client := Settle(s.client, id, value, cause));
    var n := |s.client.invoked|;
    assert EntryOk(s, id);
    assert s'.client.invoked[n].correlationId == id;
    assert forall k :: 0 <= k < n ==> s'.client.invoked[k] == s.client.invoked[k];
    forall x | x in s'.client.entries
      ensures EntryOk(s', x)
    {
      assert EntryOk(s, x);
      assert Invoked(s', x) ==> Invoked(s, x);
    }
    forall x | x in s'.calls
      ensures x in s'.client.entries || Invoked(s', x)
    {
      if x != id && x !in s.client.entries {
        StaysInvoked(s, s', x);
      }
    }
    assert forall i, user, value :: IsAnswer(s, i, user, value) ==> IsAnswer(s', i, user, value);
    forall k | 0 <= k <= n
      ensures InvocationOk(s', s'.client.invoked[k])
    {
      if k < n {
        InvocationStaysOk(s, s', s.client.invoked[k]);
      } else {
        InvocationStaysOk(s, s', s'.client.invoked[n]);
      }
    }
  }

  lemma RegisterKeepsInv(s: State, e: Event)
    requires Inv(s) && e.GetDetails? && e.correlationId !in s.calls
    ensures Inv(Step(s, e))
  {
    var s' := Step(s, e);
    forall k | 0 <= k < |s.client.invoked|
      ensures InvocationOk(s', s'.client.invoked[k])
    {
      InvocationStaysOk(s, s', s.client.invoked[k]);
    }
    forall id | id in s'.client.entries
      ensures EntryOk(s', id)
    {
      if id != e.correlationId {
        assert EntryOk(s, id);
      } else {
        assert forall k :: 0 <= k < |s.client.invoked| ==> InvocationOk(s, s.client.invoked[k]);
      }
    }
    assert forall id, user, value :: IsAnswer(s, id, user, value) ==> IsAnswer(s', id, user, value);
  }

  /** A change of clock or network only. */
  lemma OtherStepsKeepInv(s: State, s': State)
    requires Inv(s) && s'.calls == s.calls && s'.requests == s.requests
    requires s.replies <= s'.replies && s.lookups <= s'.lookups
    requires s'.client == s.client.(now := s'.client.now)
    requires forall id :: id in s.client.timers ==> s'.client.now <= s.client.timers[id]
    requires forall p :: p in s'.replies - s.replies ==>
               && p.correlationId in s.calls && Request(p.correlationId, s.calls[p.correlationId].userId) in s.requests
               && IsAnswer(s', p.correlationId, s.calls[p.correlationId].userId, p.value)
    ensures Inv(s')
  {
    assert forall id, user, value :: IsAnswer(s, id, user, value) ==> IsAnswer(s', id, user, value);
    forall k | 0 <= k < |s.client.invoked|
      ensures InvocationOk(s', s'.client.invoked[k])
    {
      InvocationStaysOk(s, s', s.client.invoked[k]);
    }
    forall id | id in s'.client.entries
      ensures EntryOk(s', id)
    {
      assert EntryOk(s, id);
    }
  }

  lemma RespondKeepsInv(s: State, l: Lookup)
    requires Inv(s) && l.request in s.requests
    ensures Inv(Step(s, Respond(l)))
  {
    var s' := Step(s, Respond(l));
    assert l in s'.lookups;
    forall p | p in s'.replies - s.replies
      ensures p.correlationId in s.calls && Request(p.correlationId, s.calls[p.correlationId].userId) in s.requests
      ensures IsAnswer(s', p.correlationId, s.calls[p.correlationId].userId, p.value)
    {
      assert MadeFrom(l, p.correlationId, s.calls[p.correlationId].userId, p.value);
    }
    OtherStepsKeepInv(s, s');
  }

  lemma StepKeepsInv(s: State, e: Event)
    requires Inv(s)
    ensures Inv(Step(s, e))
  {
    match e
    case GetDetails(id, _, _, _) => if id !in s.calls { RegisterKeepsInv(s, e); }
    case Respond(lookup) => if lookup.request in s.requests { RespondKeepsInv(s, lookup); }
    case Deliver(reply) =>
      var id := reply.correlationId;
      if reply in s.replies && id in s.client.entries {
        assert EntryOk(s, id);
        SettleKeepsInv(s, id, reply.value, Replied);
      }
    case Fire(id) =>
      if id in s.client.timers && s.client.timers[id] <= s.client.now {
        assert EntryOk(s, id);
        SettleKeepsInv(s, id, Null, TimedOut);
      }
    case Tick =>
      if !TimerDue(s.client) {
        OtherStepsKeepInv(s, Step(s, e));
      }
  }

  lemma {:induction false} RunKeepsInv(es: seq<Event>)
    ensures Inv(Run(es))
  {
    if es != [] {
      RunKeepsInv(es[..|es| - 1]);
      StepKeepsInv(Run(es[..|es| - 1]), es[|es| - 1]);
    }
  }

  /** Every lookup behind a reply is one that the responder made in this run. */
  lemma {:induction false} LookupsHappened(es: seq<Event>, l: Lookup)
    requires l in Run(es).lookups
    ensures Respond(l) in es
  {
    if l in Run(es[..|es| - 1]).lookups {
      LookupsHappened(es[..|es| - 1], l);
    }
  }

  /**
   * In every run: a call is in the map exactly while its callback is pending and its timer live; no callback runs
   * twice; each runs within 5000 ms, with null or with what the responder found for its own request;
   * and once more than 5000 ms have passed since a call, its callback has run.
   */
  lemma EveryCallbackRunsOnceInTime(es: seq<Event>)
    ensures var s := Run(es);
            && (forall id :: id in s.calls ==>
                  && (id in s.client.entries <==> !Invoked(s, id))
                  && (id in s.client.entries <==> id in s.client.timers)
                  && (s.client.now > s.calls[id].at + 5000 ==> Invoked(s, id)))
            && (forall id :: id in s.client.timers ==> id in s.calls)
            && (forall k :: 0 <= k < |s.client.invoked| ==> InvocationOk(s, s.client.invoked[k]))
            && (forall k, l :: 0 <= k < l < |s.client.invoked|
                  ==> s.client.invoked[k].correlationId != s.client.invoked[l].correlationId)
  {
    RunKeepsInv(es);
    var s := Run(es);
    forall id | id in s.client.entries
      ensures id in s.calls && !Invoked(s, id) && s.client.now <= s.calls[id].at + TIMEOUT_MS
    {
      assert EntryOk(s, id);
    }
  }

  /** A reply that arrives while its call is pending is what the callback gets; the call is over with it. */
  lemma APendingCallTakesTheReply(s: State, reply: Reply)
    requires Inv(s) && reply in s.replies && reply.correlationId in s.client.entries
    ensures var id, c := reply.correlationId, Step(s, Deliver(reply)).client;
            && c.invoked == s.client.invoked + [Invocation(id, s.calls[id].callback, reply.value, Replied, s.client.now)]
            && id !in c.entries && id !in c.timers
  {
    assert EntryOk(s, reply.correlationId);
  }

  /** The clock is never stuck: a due timer can fire, and firing it runs its callback. */
  lemma ADueTimerSettlesItsCall(s: State, id: nat)
    requires Inv(s) && id in s.client.timers && s.client.timers[id] <= s.client.now
    ensures var s' := Step(s, Fire(id));
            Invoked(s', id) && s'.client.timers == s.client.timers - {id} && s'.client.now == s.calls[id].at + 5000
  {
    assert EntryOk(s, id);
    var s' := Step(s, Fire(id));
    assert s'.client.invoked[|s.client.invoked|].correlationId == id;
  }

  /** A call that nothing disturbs gets the row that the responder found. */
  lemma AnUndisturbedCallGetsTheRow(s: State, id: nat, userId: string, callback: nat, users: Users)
    requires id !in s.calls && userId in users
    ensures var row := users[userId];
            var value := User(userId, row.username, row.email, row.createdAt, row.updatedAt);
            var called := Step(s, GetDetails(id, userId, callback, false));
            var answered := Step(called, Respond(Lookup(Request(id, userId), users, false)));
            Step(answered, Deliver(Reply(id, value))).client.invoked
            == s.client.invoked + [Invocation(id, callback, value, Replied, s.client.now)]
  {
  }

  /** What the clock does on its own: it ticks, and due timers fire. */
  predicate OnlyTime(es: seq<Event>) {
    forall e :: e in es ==> e.Tick? || e.Fire?
  }

  lemma RunSnoc(es: seq<Event>, e: Event)
    ensures Run(es + [e]) == Step(Run(es), e)
  {
    assert (es + [e])[..|es|] == es;
  }

  /** How long the call can stay pending, and how many timers may fire before the clock moves. */
  ghost function Left(s: State, id: nat): nat {
    if id in s.client.entries && id in s.calls && s.client.now <= s.calls[id].at + 5000
    then 1 + s.calls[id].at + 5000 - s.client.now else 0
  }

  /** The next thing that time does, while call `id` is pending. */
  lemma TimePasses(s: State, id: nat) returns (e: Event)
    requires Inv(s) && id in s.client.entries
    ensures e.Tick? || e.Fire?
    ensures var s' := Step(s, e);
            && s'.calls == s.calls
            && (Left(s', id) < Left(s, id) || (Left(s', id) == Left(s, id) && |s'.client.timers| < |s.client.timers|))
  {
    assert EntryOk(s, id);
    if TimerDue(s.client) {
      var x :| x in s.client.timers && s.client.timers[x] <= s.client.now;
      assert EntryOk(s, x);
      e := Fire(x);
      assert Step(s, e).client.timers == s.client.timers - {x};
      assert |s.client.timers - {x}| < |s.client.timers|;
    } else {
      e := Tick;
    }
  }

  /** The same at the end of a run. */
  lemma TimePassesAfter(es: seq<Event>, id: nat) returns (e: Event)
    requires id in Run(es).calls && !Invoked(Run(es), id)
    ensures e.Tick? || e.Fire?
    ensures var s, s' := Run(es), Run(es + [e]);
            && id in s'.calls
            && (Left(s', id) < Left(s, id) || (Left(s', id) == Left(s, id) && |s'.client.timers| < |s.client.timers|))
  {
    RunKeepsInv(es);
    e := TimePasses(Run(es), id);
    RunSnoc(es, e);
  }

  /** Every call comes to its callback by the passing of time alone, with every message lost from now on. */
  lemma {:induction false} TimeSettlesEveryCall(es: seq<Event>, id: nat) returns (more: seq<Event>)
    requires id in Run(es).calls
    ensures OnlyTime(more) && Invoked(Run(es + more), id)
    decreases Left(Run(es), id), |Run(es).client.timers|
  {
    if Invoked(Run(es), id) {
      more := [];
      assert es + more == es;
    } else {
      var e := TimePassesAfter(es, id);
      var rest := TimeSettlesEveryCall(es + [e], id);
      more := [e] + rest;
      assert es + [e] + rest == es + more;
    }
  }
}
