/**
 * The Redis-backed presence store. Every operation is a sequence of separate Redis commands; commands of different
 * operations interleave freely. Redis removes a set when its last member goes.
 */
module RedisPresence {
  import opened Presence

  /** SREM; SADD is `Connected`. */
  function Srem(p: Sockets, user: string, socket: string): Sockets {
    if SocketsOf(p, user) - {socket} == {} then p - {user} else p[user := SocketsOf(p, user) - {socket}]
  }

  function Scard(p: Sockets, user: string): nat {
    |SocketsOf(p, user)|
  }

  // ---------- One operation at a time ----------

  class RedisServer {
    var sockets: Sockets
    var online: set<string>

    constructor ()
      ensures sockets == map[] && online == {}
    {
      sockets, online := map[], {};
    }
  }

  class RedisPresenceStore {
    const redis: RedisServer

    constructor (redis: RedisServer)
      ensures this.redis == redis
    {
      this.redis := redis;
    }

    method Connect(userId: string, socketId: string) returns (first: bool)
      modifies redis
      ensures redis.sockets == Connected(old(redis.sockets), userId, socketId)
      ensures redis.online == if first then old(redis.online) + {userId} else old(redis.online)
      ensures first <==> Scard(redis.sockets, userId) == 1
      ensures SocketsOf(old(redis.sockets), userId) != {socketId} ==> first == IsFirst(old(redis.sockets), userId)
    {
      redis.sockets := Connected(redis.sockets, userId, socketId);
      var count := Scard(redis.sockets, userId);
      ConnectFlagAgreesIff(old(redis.sockets), userId, socketId);
      if count == 1 {
        redis.online := redis.online + {userId};
        return true;
      }
      return false;
    }

    method Disconnect(userId: string, socketId: string) returns (last: bool)
      requires NoEmptySet(redis.sockets)
      modifies redis
      ensures redis.sockets == Disconnected(old(redis.sockets), userId, socketId)
      ensures redis.online == if last then old(redis.online) - {userId} else old(redis.online)
      ensures last <==> Scard(redis.sockets, userId) == 0
      ensures userId in old(redis.sockets) ==> last == IsLast(old(redis.sockets), userId, socketId)
    {
      redis.sockets := Srem(redis.sockets, userId, socketId);
      var count := Scard(redis.sockets, userId);
      if count == 0 {
        redis.online := redis.online - {userId};
        return true;
      }
      return false;
    }

    method GetOnlineUserIds(excludeUserId: string) returns (ids: set<string>)
      ensures ids == redis.online - {excludeUserId}
    {
      ids := set u | u in redis.online && u != excludeUserId;
    }
  }

  /** On connect, "the set now has one member" is "this was the first socket" except for a repeat of the only one. */
  lemma ConnectFlagAgreesIff(p: Sockets, user: string, socket: string)
    ensures (Scard(Connected(p, user, socket), user) == 1 <==> IsFirst(p, user)) <==> SocketsOf(p, user) != {socket}
  {
    var before := SocketsOf(p, user);
    if before != {} && before != {socket} {
      var x :| x in before && x != socket;
      assert {x, socket} <= before + {socket};
      assert |before + {socket}| >= 2 by {
        assert before + {socket} == {x, socket} + (before + {socket} - {x, socket});
      }
    } else {
      assert before + {socket} == {socket};
    }
  }

  /** On disconnect, "the set is now empty" is "this was the last socket" exactly for a user who was online. */
  lemma DisconnectFlagAgreesIff(p: Sockets, user: string, socket: string)
    requires NoEmptySet(p)
    ensures (Scard(Srem(p, user, socket), user) == 0 <==> IsLast(p, user, socket)) <==> user in p
  {
  }

  // ---------- Interleaved commands ----------

  datatype Pc = ToWrite | ToCount | ToMark

  datatype Op = Op(user: string, socket: string, connects: bool, pc: Pc)

  datatype State = State(sockets: Sockets, online: set<string>, ops: map<nat, Op>, returned: map<nat, bool>)

  datatype Event = Invoke(op: nat, user: string, socket: string, connects: bool) | Command(op: nat)

  const INIT := State(map[], {}, map[], map[])

  function Return(r: State, o: nat, flag: bool): State {
    r.(ops := r.ops - {o}, returned := r.returned[o := flag])
  }

  /** The next Redis command of an operation. */
  function Run1(r: State, o: nat): State
    requires o in r.ops
  {
    var op := r.ops[o];
    match op.pc
    case ToWrite =>
      r.(sockets := if op.connects then Connected(r.sockets, op.user, op.socket) else Srem(r.sockets, op.user, op.socket),
         ops := r.ops[o := op.(pc := ToCount)])
    case ToCount =>
      if Scard(r.sockets, op.user) == (if op.connects then 1 else 0) then r.(ops := r.ops[o := op.(pc := ToMark)])
      else Return(r, o, false)
    case ToMark =>
      Return(r.(online := if op.connects then r.online + {op.user} else r.online - {op.user}), o, true)
  }

  function Step(r: State, e: Event): State {
    match e
    case Invoke(o, u, s, c) =>
      if o in r.ops || o in r.returned then r else r.(ops := r.ops[o := Op(u, s, c, ToWrite)])
    case Command(o) => if o in r.ops then Run1(r, o) else r
  }

  function Run(es: seq<Event>): State {
    if es == [] then INIT else Step(Run(es[..|es| - 1]), es[|es| - 1])
  }

  /** The local store running the same operations, each when its first command runs. */
  datatype Local = Local(sockets: Sockets, flags: map<nat, bool>)

  function LocalStep(l: Local, r: State, e: Event): Local {
    if e.Command? && e.op in r.ops && r.ops[e.op].pc == ToWrite then
      var op := r.ops[e.op];
      if op.connects then
        Local(Connected(l.sockets, op.user, op.socket), l.flags[e.op := IsFirst(l.sockets, op.user)])
      else
        Local(Disconnected(l.sockets, op.user, op.socket), l.flags[e.op := IsLast(l.sockets, op.user, op.socket)])
    else l
  }

  function LocalRun(es: seq<Event>): Local {
    if es == [] then Local(map[], map[])
    else LocalStep(LocalRun(es[..|es| - 1]), Run(es[..|es| - 1]), es[|es| - 1])
  }

  // ---------- Assumptions on callers ----------

  predicate Busy(r: State, user: string) {
    exists o :: o in r.ops && r.ops[o].user == user
  }

  /** A connect does not repeat the user's only socket; a disconnect is of a user with a socket. */
  predicate Sensible(sockets: Sockets, user: string, socket: string, connects: bool) {
    if connects then SocketsOf(sockets, user) != {socket} else user in sockets
  }

  /** A new operation does not overlap another one of the same user. */
  predicate Allowed(r: State, e: Event) {
    e.Invoke? && e.op !in r.ops && e.op !in r.returned ==>
      !Busy(r, e.user) && Sensible(r.sockets, e.user, e.socket, e.connects)
  }

  ghost predicate WellBehaved(es: seq<Event>) {
    forall n :: 0 <= n < |es| ==> Allowed(Run(es[..n]), es[n])
  }

  // ---------- Simulation ----------

  ghost predicate OpOk(r: State, l: Local, o: nat)
    requires o in r.ops
  {
    var op := r.ops[o];
    match op.pc
    case ToWrite =>
      && o !in l.flags && (op.user in r.online <==> op.user in r.sockets)
      && Sensible(r.sockets, op.user, op.socket, op.connects)
    case ToCount =>
      && o in l.flags
      && (l.flags[o] <==> Scard(r.sockets, op.user) == if op.connects then 1 else 0)
      && (op.connects ==> op.user in r.sockets)
      && (op.user in r.online <==> !op.connects || !l.flags[o])
    case ToMark =>
      && o in l.flags && l.flags[o]
      && (op.user in r.sockets <==> op.connects)
      && (op.user in r.online <==> !op.connects)
  }

  ghost predicate Sim(r: State, l: Local) {
    && r.sockets == l.sockets && NoEmptySet(r.sockets)
    && (forall o :: o in r.ops ==> o !in r.returned && OpOk(r, l, o))
    && (forall o, o' :: o in r.ops && o' in r.ops && r.ops[o].user == r.ops[o'].user ==> o == o')
    && (forall o :: o in r.returned ==> o in l.flags && l.flags[o] == r.returned[o])
    && (forall o :: o in l.flags ==> o in r.ops || o in r.returned)
    && (forall u :: !Busy(r, u) ==> (u in r.online <==> u in r.sockets))
  }

  lemma InvokeKeepsSim(r: State, l: Local, e: Event)
    requires Sim(r, l) && e.Invoke? && Allowed(r, e)
    ensures Sim(Step(r, e), l)
  {
    if e.op !in r.ops && e.op !in r.returned {
      var r' := Step(r, e);
      forall u | !Busy(r', u)
        ensures u in r'.online <==> u in r'.sockets
      {
        assert !Busy(r, u) by {
          forall o | o in r.ops
            ensures r.ops[o].user != u
          {
            assert o in r'.ops && r'.ops[o] == r.ops[o];
          }
        }
      }
      forall o | o in r'.ops
        ensures OpOk(r', l, o)
      {
        if o != e.op {
          assert OpOk(r, l, o);
        }
      }
    }
  }

  lemma StillBusy(r: State, r': State, u: string)
    requires forall o :: o in r.ops && r.ops[o].user == u ==> o in r'.ops && r'.ops[o].user == u
    requires !Busy(r', u)
    ensures !Busy(r, u)
  {
  }

  lemma WrittenOpOk(r: State, l: Local, o: nat)
    requires Sim(r, l) && o in r.ops && r.ops[o].pc == ToWrite
    ensures OpOk(Run1(r, o), LocalStep(l, r, Command(o)), o)
  {
    var op := r.ops[o];
    assert OpOk(r, l, o);
    ConnectFlagAgreesIff(r.sockets, op.user, op.socket);
    DisconnectFlagAgreesIff(r.sockets, op.user, op.socket);
  }

  lemma OthersOpOk(r: State, l: Local, o: nat, x: nat)
    requires Sim(r, l) && o in r.ops && r.ops[o].pc == ToWrite && x in Run1(r, o).ops && x != o
    ensures OpOk(Run1(r, o), LocalStep(l, r, Command(o)), x)
  {
    assert OpOk(r, l, x) && r.ops[x].user != r.ops[o].user;
  }

  lemma WriteKeepsSim(r: State, l: Local, o: nat)
    requires Sim(r, l) && o in r.ops && r.ops[o].pc == ToWrite
    ensures Sim(Run1(r, o), LocalStep(l, r, Command(o)))
  {
    var op := r.ops[o];
    var r', l' := Run1(r, o), LocalStep(l, r, Command(o));
    assert OpOk(r, l, o);
    forall x | x in r'.ops
      ensures OpOk(r', l', x)
    {
      if x == o {
        WrittenOpOk(r, l, o);
      } else {
        OthersOpOk(r, l, o, x);
      }
    }
    forall u | !Busy(r', u)
      ensures u in r'.online <==> u in r'.sockets
    {
      assert r'.ops[o].user == op.user;
      StillBusy(r, r', u);
    }
  }

  lemma CountKeepsSim(r: State, l: Local, o: nat)
    requires Sim(r, l) && o in r.ops && r.ops[o].pc == ToCount
    ensures Sim(Run1(r, o), l)
  {
    var op := r.ops[o];
    var r' := Run1(r, o);
    assert OpOk(r, l, o);
    forall x | x in r'.ops
      ensures OpOk(r', l, x)
    {
      assert OpOk(r, l, x);
    }
    if o in r'.ops {
      assert r'.ops[o].user == op.user;
      assert Busy(r', op.user);
    }
    forall u | !Busy(r', u)
      ensures u in r'.online <==> u in r'.sockets
    {
      if u != op.user {
        StillBusy(r, r', u);
      }
    }
  }

  lemma MarkKeepsSim(r: State, l: Local, o: nat)
    requires Sim(r, l) && o in r.ops && r.ops[o].pc == ToMark
    ensures Sim(Run1(r, o), l)
  {
    var op := r.ops[o];
    var r' := Run1(r, o);
    assert OpOk(r, l, o);
    forall x | x in r'.ops
      ensures OpOk(r', l, x)
    {
      assert OpOk(r, l, x) && r.ops[x].user != op.user;
    }
    forall u | !Busy(r', u)
      ensures u in r'.online <==> u in r'.sockets
    {
      if u != op.user {
        StillBusy(r, r', u);
      }
    }
  }

  lemma {:induction false} RunSimulates(es: seq<Event>)
    requires WellBehaved(es)
    ensures Sim(Run(es), LocalRun(es))
  {
    if es != [] {
      var init, e := es[..|es| - 1], es[|es| - 1];
      assert forall n :: 0 <= n <= |init| ==> init[..n] == es[..n];
      RunSimulates(init);
      var r, l := Run(init), LocalRun(init);
      assert Allowed(r, e);
      if e.Invoke? {
        InvokeKeepsSim(r, l, e);
      } else if e.op in r.ops {
        match r.ops[e.op].pc
        case ToWrite => WriteKeepsSim(r, l, e.op);
        case ToCount => CountKeepsSim(r, l, e.op);
        case ToMark => MarkKeepsSim(r, l, e.op);
      }
    }
  }

  /**
   * Whatever the interleaving of different users' commands: every finished operation returned the flag of the local
   * store, the socket sets are the local store's, and a user without an operation in flight is in `ps:online`
   * exactly when they have a socket.
   */
  lemma RedisMatchesTheLocalStore(es: seq<Event>)
    requires WellBehaved(es)
    ensures var r, l := Run(es), LocalRun(es);
            && (forall o :: o in r.returned ==> o in l.flags && r.returned[o] == l.flags[o])
            && r.sockets == l.sockets
            && (forall u :: !Busy(r, u) ==> (u in r.online <==> SocketsOf(r.sockets, u) != {}))
  {
    RunSimulates(es);
  }

  /** The assumption is needed: two overlapping first connects of one user leave the user with sockets, yet offline. */
  lemma OverlappingConnectsLoseTheUser(u: string, a: string, b: string)
    requires a != b
    ensures var r := Run([Invoke(0, u, a, true), Invoke(1, u, b, true), Command(0), Command(1), Command(0), Command(1)]);
            r.ops == map[] && SocketsOf(r.sockets, u) == {a, b} && u !in r.online
  {
    var e0, e1 := Invoke(0, u, a, true), Invoke(1, u, b, true);
    RunSnoc([e0], [], e0);
    RunSnoc([e0, e1], [e0], e1);
    RunSnoc([e0, e1, Command(0)], [e0, e1], Command(0));
    RunSnoc([e0, e1, Command(0), Command(1)], [e0, e1, Command(0)], Command(1));
    RunSnoc([e0, e1, Command(0), Command(1), Command(0)], [e0, e1, Command(0), Command(1)], Command(0));
    RunSnoc([e0, e1, Command(0), Command(1), Command(0), Command(1)],
            [e0, e1, Command(0), Command(1), Command(0)], Command(1));
    var written := Run([e0, e1, Command(0), Command(1)]);
    assert written.sockets[u] == {a, b};
    assert |{a, b}| == 2;
  }

  lemma RunSnoc(all: seq<Event>, es: seq<Event>, e: Event)
    requires all == es + [e]
    ensures Run(all) == Step(Run(es), e)
  {
  }
}
