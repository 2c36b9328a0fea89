/** Two overlapping operations of one user on the Redis store, and exactly which orders of their commands do harm. */
module RedisOverlap {
  import Presence
  import opened RedisPresence

  // ---------- The two operations on their own ----------

  datatype Phase = AtWrite | AtCount | AtMark | Finished

  /** What one user's keys hold, and how far the operations `true` and `false` have come. */
  datatype Pair = Pair(members: set<string>, online: bool, first: Phase, second: Phase)

  datatype Call = Call(socket: string, connects: bool)

  /** The operation of each name. */
  datatype Calls = Calls(first: Call, second: Call)

  function CallOf(c: Calls, m: bool): Call {
    if m then c.first else c.second
  }

  function PhaseOf(d: Pair, m: bool): Phase {
    if m then d.first else d.second
  }

  function GoTo(d: Pair, m: bool, p: Phase): Pair {
    if m then d.(first := p) else d.(second := p)
  }

  /** What one operation sees: the user's keys and its own phase. */
  datatype One = One(members: set<string>, online: bool, phase: Phase)

  function Next(x: One, call: Call): One {
    match x.phase
    case AtWrite => One(if call.connects then x.members + {call.socket} else x.members - {call.socket}, x.online, AtCount)
    case AtCount => x.(phase := if |x.members| == (if call.connects then 1 else 0) then AtMark else Finished)
    case AtMark => One(x.members, call.connects, Finished)
    case Finished => x
  }

  /** The next command of operation `m`. */
  function Move(d: Pair, c: Calls, m: bool): Pair {
    var x := Next(One(d.members, d.online, PhaseOf(d, m)), CallOf(c, m));
    GoTo(d.(members := x.members, online := x.online), m, x.phase)
  }

  function Play(d: Pair, c: Calls, moves: seq<bool>): Pair
    decreases |moves|
  {
    if moves == [] then d else Play(Move(d, c, moves[0]), c, moves[1..])
  }

  predicate Ended(d: Pair) {
    d.first == Finished && d.second == Finished
  }

  lemma NotEndedYet(d: Pair, c: Calls, moves: seq<bool>)
    requires !Ended(d) && Ended(Play(d, c, moves))
    ensures moves != [] && Play(d, c, moves) == Play(Move(d, c, moves[0]), c, moves[1..])
    ensures moves == [moves[0]] + moves[1..]
  {
  }

  /** `ps:online` has the user exactly when there is a socket. */
  predicate Agrees(d: Pair) {
    d.online <==> d.members != {}
  }

  /**
   * The orders that do harm. Two connects: the first socket's count comes after the other one was written. A
   * disconnect of the last socket and a connect: the disconnect counts zero, the connect runs as a whole, and then
   * the disconnect takes the mark away.
   */
  predicate Harmful(before: set<string>, c: Calls, moves: seq<bool>) {
    if c.first.connects && c.second.connects then before == {} && |moves| >= 2 && moves[0] != moves[1]
    else if !c.first.connects && !c.second.connects then false
    else
      var gone := !c.first.connects;
      && before - {CallOf(c, gone).socket} == {}
      && [gone, gone, !gone, !gone, !gone] <= moves
  }

  // ---------- Two connects ----------

  /** Someone has marked or will mark the user online. */
  predicate WillBeOnline(d: Pair, c: Calls) {
    && c.first.connects && c.second.connects && d.members != {}
    && (d.online || d.first == AtMark || d.second == AtMark)
  }

  /** Both are written and neither sees a single member. */
  predicate MissedEachOther(d: Pair, c: Calls) {
    && c.first.connects && c.second.connects && !d.online && |d.members| == 2
    && d.first in {AtCount, Finished} && d.second in {AtCount, Finished}
  }

  lemma {:induction false} OnlineInTheEnd(d: Pair, c: Calls, moves: seq<bool>)
    requires WillBeOnline(d, c) && Ended(Play(d, c, moves))
    ensures Agrees(Play(d, c, moves))
    decreases |moves|
  {
    if moves != [] {
      OnlineInTheEnd(Move(d, c, moves[0]), c, moves[1..]);
    }
  }

  lemma {:induction false} OfflineInTheEnd(d: Pair, c: Calls, moves: seq<bool>)
    requires MissedEachOther(d, c) && Ended(Play(d, c, moves))
    ensures !Agrees(Play(d, c, moves))
    decreases |moves|
  {
    if moves != [] {
      OfflineInTheEnd(Move(d, c, moves[0]), c, moves[1..]);
    }
  }

  lemma FirstConnects(d: Pair, c: Calls, moves: seq<bool>)
    requires d == Pair({}, false, AtWrite, AtWrite) && c.first.connects && c.second.connects
    requires c.first.socket != c.second.socket && Ended(Play(d, c, moves))
    ensures |moves| >= 2 && (Agrees(Play(d, c, moves)) <==> moves[0] == moves[1])
  {
    NotEndedYet(d, c, moves);
    var m, rest1 := moves[0], moves[1..];
    var d1 := Move(d, c, m);
    assert d1.members == {CallOf(c, m).socket};
    NotEndedYet(d1, c, rest1);
    var d2 := Move(d1, c, rest1[0]);
    if rest1[0] == m {
      OnlineInTheEnd(d2, c, rest1[1..]);
    } else {
      assert d2.members == {c.first.socket, c.second.socket};
      OfflineInTheEnd(d2, c, rest1[1..]);
    }
  }

  // ---------- Two disconnects ----------

  /** Some sockets are left whatever happens, or whoever is last will see none. */
  predicate WillBeRight(d: Pair, c: Calls) {
    && !c.first.connects && !c.second.connects
    && var left := d.members - {c.first.socket, c.second.socket};
    if left != {} then d.online && d.first != AtMark && d.second != AtMark
    else
      && (d.first != AtWrite && d.second != AtWrite ==> d.members == {})
      && (d.first == AtWrite || c.first.socket !in d.members) && (d.second == AtWrite || c.second.socket !in d.members)
      && (d.online ==> d.first in {AtWrite, AtMark} || d.second in {AtWrite, AtMark}
                       || (d.members == {} && (d.first == AtCount || d.second == AtCount)))
  }

  lemma WillBeRightStays(d: Pair, c: Calls, m: bool)
    requires WillBeRight(d, c)
    ensures WillBeRight(Move(d, c, m), c)
  {
    var d' := Move(d, c, m);
    assert d'.members - {c.first.socket, c.second.socket} == d.members - {c.first.socket, c.second.socket};
  }

  lemma {:induction false} RightInTheEnd(d: Pair, c: Calls, moves: seq<bool>)
    requires WillBeRight(d, c) && Ended(Play(d, c, moves))
    ensures Agrees(Play(d, c, moves))
    decreases |moves|
  {
    if moves != [] {
      WillBeRightStays(d, c, moves[0]);
      RightInTheEnd(Move(d, c, moves[0]), c, moves[1..]);
    }
  }

  // ---------- A connect and a disconnect ----------

  predicate Mixed(c: Calls, gone: bool) {
    !CallOf(c, gone).connects && CallOf(c, !gone).connects && c.first.socket != c.second.socket
  }

  /** The disconnect cannot see an empty set any more, and the user is or will be marked online. */
  predicate Safe(d: Pair, c: Calls, gone: bool) {
    var y := CallOf(c, !gone).socket;
    && PhaseOf(d, gone) != AtMark
    && (y in d.members || d.members - {c.first.socket, c.second.socket} != {})
    && (d.online || (d.members == {y} && PhaseOf(d, !gone) in {AtCount, AtMark}))
  }

  lemma SafeStays(d: Pair, c: Calls, gone: bool, m: bool)
    requires Mixed(c, gone) && Safe(d, c, gone)
    ensures Safe(Move(d, c, m), c, gone)
  {
    var d' := Move(d, c, m);
    if PhaseOf(d, m) == AtWrite {
      assert d.members - {c.first.socket, c.second.socket} == d'.members - {c.first.socket, c.second.socket};
      assert m == gone && d.members == {CallOf(c, !gone).socket} ==> d'.members == d.members;
    }
  }

  lemma {:induction false} SafeInTheEnd(d: Pair, c: Calls, gone: bool, moves: seq<bool>)
    requires Mixed(c, gone) && Safe(d, c, gone) && Ended(Play(d, c, moves))
    ensures Agrees(Play(d, c, moves))
    decreases |moves|
  {
    if moves != [] {
      SafeStays(d, c, gone, moves[0]);
      SafeInTheEnd(Move(d, c, moves[0]), c, gone, moves[1..]);
    }
  }

  /** The disconnect is over, and the connect has the keys to itself. */
  predicate Alone(d: Pair, c: Calls, gone: bool) {
    && PhaseOf(d, gone) == Finished
    && match PhaseOf(d, !gone)
       case AtWrite => d.members == {}
       case Finished => d.members == {CallOf(c, !gone).socket} && d.online
       case _ => d.members == {CallOf(c, !gone).socket}
  }

  lemma {:induction false} AloneInTheEnd(d: Pair, c: Calls, gone: bool, moves: seq<bool>)
    requires Mixed(c, gone) && Alone(d, c, gone) && Ended(Play(d, c, moves))
    ensures Agrees(Play(d, c, moves))
    decreases |moves|
  {
    if moves != [] {
      AloneInTheEnd(Move(d, c, moves[0]), c, gone, moves[1..]);
    }
  }

  /** The connect is over, and the disconnect is still to take the mark away. */
  predicate Late(d: Pair, c: Calls, gone: bool) {
    && PhaseOf(d, !gone) == Finished && d.members != {}
    && (PhaseOf(d, gone) == AtMark || (PhaseOf(d, gone) == Finished && !d.online))
  }

  lemma {:induction false} LateInTheEnd(d: Pair, c: Calls, gone: bool, moves: seq<bool>)
    requires Mixed(c, gone) && Late(d, c, gone) && Ended(Play(d, c, moves))
    ensures !Agrees(Play(d, c, moves))
    decreases |moves|
  {
    if moves != [] {
      LateInTheEnd(Move(d, c, moves[0]), c, gone, moves[1..]);
    }
  }

  /** The disconnect has counted zero and is to take the mark away; the connect has not begun. */
  lemma CountedZero(d: Pair, c: Calls, gone: bool, moves: seq<bool>)
    requires Mixed(c, gone) && d.members == {} && PhaseOf(d, gone) == AtMark && PhaseOf(d, !gone) == AtWrite
    requires Ended(Play(d, c, moves))
    ensures Agrees(Play(d, c, moves)) <==> !([!gone, !gone, !gone] <= moves)
  {
    NotEndedYet(d, c, moves);
    var d1, rest1 := Move(d, c, moves[0]), moves[1..];
    if moves[0] == gone {
      AloneInTheEnd(d1, c, gone, rest1);
    } else {
      assert d1.members == {CallOf(c, !gone).socket};
      NotEndedYet(d1, c, rest1);
      var d2, rest2 := Move(d1, c, rest1[0]), rest1[1..];
      if rest1[0] == gone {
        AloneInTheEnd(d2, c, gone, rest2);
      } else {
        NotEndedYet(d2, c, rest2);
        var d3, rest3 := Move(d2, c, rest2[0]), rest2[1..];
        if rest2[0] == gone {
          AloneInTheEnd(d3, c, gone, rest3);
        } else {
          LateInTheEnd(d3, c, gone, rest3);
          assert moves == [!gone, !gone, !gone] + rest3;
        }
      }
    }
  }

  lemma PrefixHead(x: bool, order: seq<bool>, moves: seq<bool>)
    requires moves != []
    ensures [x] + order <= moves <==> moves[0] == x && order <= moves[1..]
  {
    if moves[0] == x && order <= moves[1..] {
      assert moves == [x] + order + moves[1..][|order|..];
    }
    if [x] + order <= moves {
      assert ([x] + order)[0] == x;
      assert moves[1..][..|order|] == moves[..|order| + 1][1..] == ([x] + order)[1..] == order;
    }
  }

  /** The connect has written before the disconnect could count zero. */
  lemma ConnectWroteInTime(d: Pair, c: Calls, gone: bool, moves: seq<bool>)
    requires Mixed(c, gone) && d.members == {} && PhaseOf(d, gone) != AtMark && PhaseOf(d, !gone) == AtWrite
    requires Ended(Play(Move(d, c, !gone), c, moves))
    ensures Agrees(Play(Move(d, c, !gone), c, moves))
  {
    assert Move(d, c, !gone).members == {CallOf(c, !gone).socket};
    SafeInTheEnd(Move(d, c, !gone), c, gone, moves);
  }

  /** The disconnect has taken the last socket, and the connect has not begun. */
  lemma LastSocketGone(d: Pair, c: Calls, gone: bool, moves: seq<bool>)
    requires Mixed(c, gone) && d.members == {} && PhaseOf(d, gone) == AtCount && PhaseOf(d, !gone) == AtWrite
    requires Ended(Play(d, c, moves))
    ensures Agrees(Play(d, c, moves)) <==> !([gone] + [!gone, !gone, !gone] <= moves)
  {
    NotEndedYet(d, c, moves);
    PrefixHead(gone, [!gone, !gone, !gone], moves);
    if moves[0] == gone {
      CountedZero(Move(d, c, gone), c, gone, moves[1..]);
    } else {
      ConnectWroteInTime(d, c, gone, moves[1..]);
    }
  }

  /** A disconnect that leaves no socket, and a connect. */
  lemma LastSocketGoes(d: Pair, c: Calls, gone: bool, moves: seq<bool>)
    requires Mixed(c, gone) && d.first == AtWrite && d.second == AtWrite && Agrees(d)
    requires CallOf(c, !gone).socket !in d.members && d.members - {CallOf(c, gone).socket} == {}
    requires Ended(Play(d, c, moves))
    ensures Agrees(Play(d, c, moves)) <==> !([gone, gone, !gone, !gone, !gone] <= moves)
  {
    NotEndedYet(d, c, moves);
    PrefixHead(gone, [gone] + [!gone, !gone, !gone], moves);
    assert [gone, gone, !gone, !gone, !gone] == [gone] + ([gone] + [!gone, !gone, !gone]);
    if moves[0] == gone {
      LastSocketGone(Move(d, c, gone), c, gone, moves[1..]);
    } else {
      var d1 := Move(d, c, !gone);
      assert d.members == {} ==> d1.members == {CallOf(c, !gone).socket};
      SafeInTheEnd(d1, c, gone, moves[1..]);
    }
  }

  // ---------- Any two operations ----------

  /** Sockets that connect are new. */
  predicate NewSockets(before: set<string>, c: Calls) {
    && (c.first.connects ==> c.first.socket !in before) && (c.second.connects ==> c.second.socket !in before)
    && (c.first.connects || c.second.connects ==> c.first.socket != c.second.socket)
  }

  lemma PairAgreesIff(d: Pair, c: Calls, moves: seq<bool>)
    requires d.first == AtWrite && d.second == AtWrite && Agrees(d) && NewSockets(d.members, c)
    requires Ended(Play(d, c, moves))
    ensures Agrees(Play(d, c, moves)) <==> !Harmful(d.members, c, moves)
  {
    if c.first.connects && c.second.connects {
      if d.members == {} {
        FirstConnects(d, c, moves);
      } else {
        OnlineInTheEnd(d, c, moves);
      }
    } else if !c.first.connects && !c.second.connects {
      RightInTheEnd(d, c, moves);
    } else {
      var gone := !c.first.connects;
      if d.members - {CallOf(c, gone).socket} == {} {
        LastSocketGoes(d, c, gone, moves);
      } else {
        assert d.members - {CallOf(c, gone).socket} == d.members - {c.first.socket, c.second.socket};
        SafeInTheEnd(d, c, gone, moves);
      }
    }
  }

  // ---------- In the store, among the operations of other users ----------

  function RunFrom(r: State, es: seq<Event>): State
    decreases |es|
  {
    if es == [] then r else RunFrom(Step(r, es[0]), es[1..])
  }

  /** Which of the two operations each of their commands belongs to, in order. */
  function Moves(es: seq<Event>, a: nat, b: nat): seq<bool> {
    if es == [] then []
    else (if es[0].Command? && es[0].op in {a, b} then [es[0].op == a] else []) + Moves(es[1..], a, b)
  }

  function PhaseIn(r: State, o: nat): Phase {
    if o !in r.ops then Finished
    else match r.ops[o].pc
      case ToWrite => AtWrite
      case ToCount => AtCount
      case ToMark => AtMark
  }

  function PairIn(r: State, u: string, a: nat, b: nat): Pair {
    Pair(Presence.SocketsOf(r.sockets, u), u in r.online, PhaseIn(r, a), PhaseIn(r, b))
  }

  ghost predicate OpIs(r: State, u: string, o: nat, call: Call) {
    if o in r.ops then r.ops[o].user == u && r.ops[o].socket == call.socket && r.ops[o].connects == call.connects
    else o in r.returned
  }

  /** The user's operations are `a` and `b`, with these calls; each may have returned. */
  ghost predicate OnlyTwo(r: State, u: string, a: nat, b: nat, c: Calls) {
    && a != b && Presence.NoEmptySet(r.sockets)
    && OpIs(r, u, a, c.first) && OpIs(r, u, b, c.second)
    && forall o :: o in r.ops && r.ops[o].user == u ==> o == a || o == b
  }

  lemma InvokeKeepsThePair(r: State, e: Event, u: string, a: nat, b: nat, c: Calls)
    requires OnlyTwo(r, u, a, b, c) && e.Invoke? && e.user != u
    ensures OnlyTwo(Step(r, e), u, a, b, c) && PairIn(Step(r, e), u, a, b) == PairIn(r, u, a, b)
  {
  }

  lemma CommandKeepsNoEmptySet(r: State, o: nat)
    requires Presence.NoEmptySet(r.sockets)
    ensures Presence.NoEmptySet(Step(r, Command(o)).sockets)
  {
  }

  lemma OtherCommandKeepsKeys(r: State, o: nat, u: string)
    requires o in r.ops ==> r.ops[o].user != u
    ensures var r' := Step(r, Command(o));
            Presence.SocketsOf(r'.sockets, u) == Presence.SocketsOf(r.sockets, u) && (u in r'.online <==> u in r.online)
  {
  }

  /** A command leaves every other operation alone, and its own one in flight or returned. */
  lemma CommandKeepsOps(r: State, o: nat)
    requires o in r.ops
    ensures var r' := Step(r, Command(o));
            && r'.ops - {o} == r.ops - {o} && r'.returned - {o} == r.returned - {o}
            && if o in r'.ops then r'.ops[o] == r.ops[o].(pc := r'.ops[o].pc) else o in r'.returned
  {
    match r.ops[o].pc
    case ToWrite =>
    case ToCount =>
    case ToMark =>
  }

  lemma OtherCommandKeepsThePair(r: State, o: nat, u: string, a: nat, b: nat, c: Calls)
    requires OnlyTwo(r, u, a, b, c) && o != a && o != b
    ensures OnlyTwo(Step(r, Command(o)), u, a, b, c) && PairIn(Step(r, Command(o)), u, a, b) == PairIn(r, u, a, b)
  {
    CommandKeepsNoEmptySet(r, o);
    OtherCommandKeepsKeys(r, o, u);
    if o in r.ops {
      CommandKeepsOps(r, o);
      OthersAfter(r, Step(r, Command(o)), o);
    }
  }

  lemma OthersAfter(r: State, r': State, o: nat)
    requires r'.ops - {o} == r.ops - {o} && r'.returned - {o} == r.returned - {o}
    ensures forall x :: x != o ==> (x in r'.ops <==> x in r.ops) && (x in r'.returned <==> x in r.returned)
    ensures forall x :: x != o && x in r.ops ==> r'.ops[x] == r.ops[x]
  {
    forall x | x != o
      ensures (x in r'.ops <==> x in r.ops) && (x in r'.returned <==> x in r.returned)
      ensures x in r.ops ==> r'.ops[x] == r.ops[x]
    {
      assert x in r'.ops <==> x in r'.ops - {o};
      assert x in r.ops <==> x in r.ops - {o};
      assert x in r'.returned <==> x in r'.returned - {o};
      assert x in r.returned <==> x in r.returned - {o};
      assert x in r.ops ==> (r'.ops - {o})[x] == (r.ops - {o})[x];
    }
  }

  function OneIn(r: State, u: string, o: nat): One {
    One(Presence.SocketsOf(r.sockets, u), u in r.online, PhaseIn(r, o))
  }

  lemma CommandIsNext(r: State, o: nat, u: string, call: Call)
    requires Presence.NoEmptySet(r.sockets) && OpIs(r, u, o, call)
    ensures OneIn(Step(r, Command(o)), u, o) == Next(OneIn(r, u, o), call)
  {
  }

  lemma StepMovesThePair(r: State, e: Event, u: string, a: nat, b: nat, c: Calls)
    requires OnlyTwo(r, u, a, b, c) && (e.Invoke? ==> e.user != u)
    ensures OnlyTwo(Step(r, e), u, a, b, c)
    ensures PairIn(Step(r, e), u, a, b)
            == if e.Command? && e.op in {a, b} then Move(PairIn(r, u, a, b), c, e.op == a) else PairIn(r, u, a, b)
  {
    if e.Command? && e.op in {a, b} {
      var call := CallOf(c, e.op == a);
      CommandIsNext(r, e.op, u, call);
      CommandKeepsNoEmptySet(r, e.op);
      if e.op in r.ops {
        CommandKeepsOps(r, e.op);
        OthersAfter(r, Step(r, e), e.op);
      }
    } else if e.Invoke? {
      InvokeKeepsThePair(r, e, u, a, b, c);
    } else {
      OtherCommandKeepsThePair(r, e.op, u, a, b, c);
    }
  }

  lemma {:induction false} RunPlaysThePair(r: State, es: seq<Event>, u: string, a: nat, b: nat, c: Calls)
    requires OnlyTwo(r, u, a, b, c) && forall e :: e in es && e.Invoke? ==> e.user != u
    ensures OnlyTwo(RunFrom(r, es), u, a, b, c)
    ensures PairIn(RunFrom(r, es), u, a, b) == Play(PairIn(r, u, a, b), c, Moves(es, a, b))
    decreases |es|
  {
    if es != [] {
      StepMovesThePair(r, es[0], u, a, b, c);
      RunPlaysThePair(Step(r, es[0]), es[1..], u, a, b, c);
      var rest := Moves(es[1..], a, b);
      if es[0].Command? && es[0].op in {a, b} {
        assert Moves(es, a, b)[1..] == rest;
      } else {
        assert Moves(es, a, b) == rest;
      }
    }
  }

  /**
   * Two operations of one user overlap in any way, among any commands of other users. When both have returned, the
   * user is in `ps:online` exactly with a socket if and only if the order of their commands is not a harmful one.
   */
  lemma OverlapAgreesIff(r: State, es: seq<Event>, u: string, a: nat, b: nat)
    requires a in r.ops && b in r.ops && r.ops[a].pc == ToWrite && r.ops[b].pc == ToWrite
    requires OnlyTwo(r, u, a, b, Calls(Call(r.ops[a].socket, r.ops[a].connects), Call(r.ops[b].socket, r.ops[b].connects)))
    requires u in r.online <==> u in r.sockets
    requires NewSockets(Presence.SocketsOf(r.sockets, u),
                        Calls(Call(r.ops[a].socket, r.ops[a].connects), Call(r.ops[b].socket, r.ops[b].connects)))
    requires (forall e :: e in es && e.Invoke? ==> e.user != u) && !Busy(RunFrom(r, es), u)
    ensures var r' := RunFrom(r, es);
            var calls := Calls(Call(r.ops[a].socket, r.ops[a].connects), Call(r.ops[b].socket, r.ops[b].connects));
            (u in r'.online <==> Presence.SocketsOf(r'.sockets, u) != {})
            <==> !Harmful(Presence.SocketsOf(r.sockets, u), calls, Moves(es, a, b))
  {
    var calls := Calls(Call(r.ops[a].socket, r.ops[a].connects), Call(r.ops[b].socket, r.ops[b].connects));
    RunPlaysThePair(r, es, u, a, b, calls);
    PairAgreesIff(PairIn(r, u, a, b), calls, Moves(es, a, b));
  }
}
