/** Who is online: the meaning of the presence interface, and the in-memory store. */
module Presence {
  import opened Common

  /** The open sockets of every online user. */
  type Sockets = map<string, set<string>>

  predicate NoEmptySet(p: Sockets) {
    forall u :: u in p ==> p[u] != {}
  }

  function SocketsOf(p: Sockets, user: string): set<string> {
    if user in p then p[user] else {}
  }

  function Connected(p: Sockets, user: string, socket: string): Sockets {
    p[user := SocketsOf(p, user) + {socket}]
  }

  predicate IsFirst(p: Sockets, user: string) {
    SocketsOf(p, user) == {}
  }

  function Disconnected(p: Sockets, user: string, socket: string): Sockets {
    if user !in p then p
    else if p[user] - {socket} == {} then p - {user}
    else p[user := p[user] - {socket}]
  }

  predicate IsLast(p: Sockets, user: string, socket: string) {
    user in p && p[user] - {socket} == {}
  }

  // ---------- The presence events of a run ----------

  datatype Event = Connect(user: string, socket: string) | Disconnect(user: string, socket: string) | Compact

  function Next(p: Sockets, e: Event): Sockets {
    match e
    case Connect(u, s) => Connected(p, u, s)
    case Disconnect(u, s) => Disconnected(p, u, s)
    case Compact => p
  }

  function After(es: seq<Event>): Sockets {
    if es == [] then map[] else Next(After(es[..|es| - 1]), es[|es| - 1])
  }

  /** The online flags that a run broadcasts about one user, in order. */
  function Broadcasts(es: seq<Event>, user: string): seq<bool> {
    if es == [] then []
    else
      var p, e := After(es[..|es| - 1]), es[|es| - 1];
      Broadcasts(es[..|es| - 1], user)
      + (if e.Connect? && e.user == user && IsFirst(p, user) then [true]
         else if e.Disconnect? && e.user == user && IsLast(p, user, e.socket) then [false]
         else [])
  }

  /**
   * In every run, repeated and unknown sockets included: a user's presence events alternate, starting with online,
   * the last one says whether the user is online now, and no empty socket set stays behind.
   */
  lemma {:induction false} BroadcastsAlternate(es: seq<Event>, user: string)
    ensures var log := Broadcasts(es, user);
            && (forall k :: 0 <= k < |log| ==> (log[k] <==> k % 2 == 0))
            && (user in After(es) <==> log != [] && log[|log| - 1])
            && NoEmptySet(After(es))
  {
    if es != [] {
      var init, e := es[..|es| - 1], es[|es| - 1];
      BroadcastsAlternate(init, user);
      var p, log := After(init), Broadcasts(init, user);
      assert e.Connect? && e.user == user ==> user in After(es);
      assert IsFirst(p, user) <==> user !in p;
      assert user in p <==> |log| % 2 == 1;
    }
  }

  /** Connected, and not disconnected since. */
  predicate Open(es: seq<Event>, user: string, socket: string) {
    es != [] &&
    var e := es[|es| - 1];
    if e.Connect? && e.user == user && e.socket == socket then true
    else if e.Disconnect? && e.user == user && e.socket == socket then false
    else Open(es[..|es| - 1], user, socket)
  }

  /** The map holds exactly the open sockets. */
  lemma {:induction false} MapHoldsTheOpenSockets(es: seq<Event>, user: string, socket: string)
    ensures socket in SocketsOf(After(es), user) <==> Open(es, user, socket)
  {
    if es != [] {
      MapHoldsTheOpenSockets(es[..|es| - 1], user, socket);
    }
  }

  // ---------- The in-memory store ----------

  /** A JavaScript Set held by reference. */
  class SocketSet {
    var members: set<string>

    constructor ()
      ensures members == {}
    {
      members := {};
    }
  }

  class LocalPresenceStore {
    var sockets: map<string, SocketSet>
    ghost var Contents: Sockets
    ghost var Repr: set<SocketSet>

    /** Every user has a set object of their own, it is not empty, and Contents is what the objects hold. */
    ghost predicate Valid()
      reads this, Repr
    {
      && Contents.Keys == sockets.Keys
      && (forall u :: u in sockets ==>
            sockets[u] in Repr && sockets[u].members == Contents[u] && Contents[u] != {})
      && (forall u, v :: u in sockets && v in sockets && u != v ==> sockets[u] != sockets[v])
    }

    constructor ()
      ensures Valid() && fresh(Repr) && Contents == map[]
    {
      sockets, Contents, Repr := map[], map[], {};
    }

    method Connect(userId: string, socketId: string) returns (isFirst: bool)
      requires Valid()
      modifies this, Repr
      ensures Valid() && fresh(Repr - old(Repr))
      ensures Contents == Connected(old(Contents), userId, socketId)
      ensures isFirst == IsFirst(old(Contents), userId)
    {
      if userId !in sockets {
        var empty := new SocketSet();
        sockets := sockets[userId := empty];
        Repr := Repr + {empty};
      }
      var entry := sockets[userId];
      isFirst := |entry.members| == 0;
      entry.members := entry.members + {socketId};
      Contents := Connected(Contents, userId, socketId);
    }

    method Disconnect(userId: string, socketId: string) returns (isLast: bool)
      requires Valid()
      modifies this, Repr
      ensures Valid() && Repr == old(Repr)
      ensures Contents == Disconnected(old(Contents), userId, socketId)
      ensures isLast == IsLast(old(Contents), userId, socketId)
    {
      if userId !in sockets { return false; }
      var entry := sockets[userId];
      entry.members := entry.members - {socketId};
      isLast := |entry.members| == 0;
      if isLast {
        sockets := sockets - {userId};
      }
      Contents := Disconnected(Contents, userId, socketId);
    }

    method IsOnline(userId: string) returns (online: bool)
      requires Valid()
      ensures online <==> userId in Contents
    {
      online := userId in sockets && |sockets[userId].members| > 0;
    }

    method GetOnlineUserIds(excludeUserId: string) returns (ids: seq<string>)
      requires Valid()
      ensures NoRepeats(ids)
      ensures forall u :: u in ids <==> u in Contents && u != excludeUserId
    {
      ids := [];
      var rest := sockets.Keys;
      while rest != {}
        invariant rest <= sockets.Keys
        invariant NoRepeats(ids)
        invariant forall u :: u in ids <==> u in sockets && u !in rest && u != excludeUserId
        decreases rest
      {
        var uid :| uid in rest;
        if uid != excludeUserId && |sockets[uid].members| > 0 {
          ids := ids + [uid];
        }
        rest := rest - {uid};
      }
    }

    /** Clears the map and refills it: the same set objects under the same users. */
    method Compact()
      requires Valid()
      modifies this
      ensures Valid() && sockets == old(sockets) && Contents == old(Contents)
    {
      var live: map<string, SocketSet> := map[];
      var rest := sockets.Keys;
      while rest != {}
        invariant rest <= sockets.Keys
        invariant live.Keys == sockets.Keys - rest
        invariant forall u :: u in live ==> live[u] == sockets[u]
        decreases rest
      {
        var uid :| uid in rest;
        if |sockets[uid].members| > 0 {
          live := live[uid := sockets[uid]];
        }
        rest := rest - {uid};
      }
      assert live == sockets;
      sockets := map[];
      rest := live.Keys;
      while rest != {}
        invariant rest <= live.Keys
        invariant sockets.Keys == live.Keys - rest
        invariant forall u :: u in sockets ==> sockets[u] == live[u]
        invariant Contents == old(Contents) && Repr == old(Repr)
        decreases rest
      {
        var uid :| uid in rest;
        sockets := sockets[uid := live[uid]];
        rest := rest - {uid};
      }
      assert sockets == live;
    }

    method Shutdown()
      modifies this
      ensures Valid() && Contents == map[]
    {
      sockets, Contents := map[], map[];
    }
  }
}
