/** The typing indicator: one map of timers, rebuilt from time to time, in step with the live timers. */
module TypingIndicator {
  const TYPING_MS := 3000

  datatype Timer = Timer(user: string, receiver: string, due: nat)

  /** `typing` sent to the room of `to` about `user`. */
  datatype Emit = Emit(to: string, user: string, isTyping: bool)

  datatype Latest = Latest(receiver: string, at: nat)

  /** `latest` remembers each user's last typing:true, for the statements. */
  datatype State = State(
    now: nat,
    timeouts: map<string, nat>,
    timers: map<nat, Timer>,
    nextTimer: nat,
    emits: seq<Emit>,
    latest: map<string, Latest>)

  const INIT := State(0, map[], map[], 0, [], map[])

  datatype Event =
    | Typing(user: string, receiver: string, isTyping: bool)
    | Sent(user: string, receiver: string) // a message was stored and is passed on
    | Disconnected(user: string)
    | Fire(timer: nat)
    | Compact
    | Tick

  /** clearTimeout and delete, if the user has a timer. */
  function Clear(s: State, user: string): State {
    if user in s.timeouts then s.(timers := s.timers - {s.timeouts[user]}, timeouts := s.timeouts - {user}) else s
  }

  function Send(s: State, x: Emit): State {
    s.(emits := s.emits + [x])
  }

  function Start(s: State, user: string, receiver: string): State {
    s.(timers := s.timers[s.nextTimer := Timer(user, receiver, s.now + TYPING_MS)],
       timeouts := s.timeouts[user := s.nextTimer],
       nextTimer := s.nextTimer + 1,
       latest := s.latest[user := Latest(receiver, s.now)])
  }

  predicate TimerDue(s: State) {
    exists t :: t in s.timers && s.timers[t].due <= s.now
  }

  function Step(s: State, e: Event): State {
    match e
    case Typing(u, r, isTyping) =>
      var sent := Send(Clear(s, u), Emit(r, u, isTyping));
      if isTyping then Start(sent, u, r) else sent
    case Sent(u, r) => Send(Clear(s, u), Emit(r, u, false))
    case Disconnected(u) => Clear(s, u)
    case Fire(t) =>
      if t in s.timers && s.timers[t].due <= s.now then
        var x := s.timers[t];
        Send(s.(timers := s.timers - {t}, timeouts := s.timeouts - {x.user}), Emit(x.receiver, x.user, false))
      else s
    case Compact => s
    case Tick => if TimerDue(s) then s else s.(now := s.now + 1)
  }

  /** The handlers as they update the module's map and the timers. */
  class Handlers {
    var now: nat
    var typingTimeouts: map<string, nat>
    var timers: map<nat, Timer>
    var nextTimer: nat
    var emits: seq<Emit>
    ghost var latest: map<string, Latest>

    ghost function View(): State
      reads this
    {
      State(now, typingTimeouts, timers, nextTimer, emits, latest)
    }

    constructor ()
      ensures View() == INIT
    {
      now, typingTimeouts, timers, nextTimer, emits, latest := 0, map[], map[], 0, [], map[];
    }

    method ClearTyping(userId: string)
      modifies this
      ensures View() == Clear(old(View()), userId)
    {
      if userId in typingTimeouts {
        timers := timers - {typingTimeouts[userId]};
        typingTimeouts := typingTimeouts - {userId};
      }
    }

    method HandleTyping(userId: string, receiverId: string, isTyping: bool)
      modifies this
      ensures View() == Step(old(View()), Typing(userId, receiverId, isTyping))
      ensures emits == old(emits) + [Emit(receiverId, userId, isTyping)]
      ensures userId in typingTimeouts <==> isTyping
      ensures isTyping ==> typingTimeouts[userId] in timers
                           && timers[typingTimeouts[userId]] == Timer(userId, receiverId, now + 3000)
      ensures userId in old(typingTimeouts) && old(typingTimeouts)[userId] != old(nextTimer) ==>
                old(typingTimeouts)[userId] !in timers
    {
      ClearTyping(userId);
      if isTyping {
        emits := emits + [Emit(receiverId, userId, true)];
        var timeout := nextTimer;
        timers := timers[timeout := Timer(userId, receiverId, now + TYPING_MS)];
        nextTimer := nextTimer + 1;
        typingTimeouts := typingTimeouts[userId := timeout];
        latest := latest[userId := Latest(receiverId, now)];
      } else {
        emits := emits + [Emit(receiverId, userId, false)];
      }
    }

    method AfterSend(userId: string, receiverId: string)
      modifies this
      ensures View() == Step(old(View()), Sent(userId, receiverId))
      ensures emits == old(emits) + [Emit(receiverId, userId, false)] && userId !in typingTimeouts
    {
      ClearTyping(userId);
      emits := emits + [Emit(receiverId, userId, false)];
    }

    method OnDisconnect(userId: string)
      modifies this
      ensures View() == Step(old(View()), Disconnected(userId))
      ensures emits == old(emits) && userId !in typingTimeouts
    {
      ClearTyping(userId);
    }

    method OnTimeout(timer: nat)
      modifies this
      ensures View() == Step(old(View()), Fire(timer))
    {
      if timer in timers && timers[timer].due <= now {
        var x := timers[timer];
        timers := timers - {timer};
        emits := emits + [Emit(x.receiver, x.user, false)];
        typingTimeouts := typingTimeouts - {x.user};
      }
    }

    /** The map is rebuilt entry by entry. */
    method CompactTimeouts()
      modifies this
      ensures View() == Step(old(View()), Compact)
    {
      var copy: map<string, nat> := map[];
      var rest := typingTimeouts.Keys;
      while rest != {}
        invariant rest <= typingTimeouts.Keys
        invariant copy == map u | u in typingTimeouts && u !in rest :: typingTimeouts[u]
        invariant View() == old(View())
        decreases rest
      {
        var uid :| uid in rest;
        copy := copy[uid := typingTimeouts[uid]];
        rest := rest - {uid};
      }
      typingTimeouts := copy;
    }
  }

  // ---------- What holds in every run ----------

  /** The user's timer is live, aims at the receiver of the latest typing:true, and is due 3000 ms after it. */
  ghost predicate UserTimerOk(s: State, u: string)
    requires u in s.timeouts
  {
    var t := s.timeouts[u];
    && t in s.timers && u in s.latest
    && s.timers[t] == Timer(u, s.latest[u].receiver, s.latest[u].at + 3000)
    && s.now <= s.timers[t].due
  }

  ghost predicate Inv(s: State) {
    && (forall u :: u in s.timeouts ==> UserTimerOk(s, u))
    && (forall t :: t in s.timers ==>
          t < s.nextTimer && s.timers[t].user in s.timeouts && s.timeouts[s.timers[t].user] == t)
  }

  lemma ClearKeepsInv(s: State, u: string)
    requires Inv(s)
    ensures Inv(Clear(s, u))
  {
  }

  lemma TypingKeepsInv(s: State, u: string, r: string, isTyping: bool)
    requires Inv(s)
    ensures Inv(Step(s, Typing(u, r, isTyping)))
  {
  }

  lemma StepKeepsInv(s: State, e: Event)
    requires Inv(s)
    ensures Inv(Step(s, e))
  {
    match e
    case Typing(u, r, isTyping) => TypingKeepsInv(s, u, r, isTyping);
    case Sent(u, r) =>
      ClearKeepsInv(s, u);
      var s' := Step(s, e);
      assert forall v :: v in s'.timeouts ==> UserTimerOk(Clear(s, u), v);
    case Disconnected(u) => ClearKeepsInv(s, u);
    case Fire(t) =>
      var s' := Step(s, e);
      assert forall v :: v in s'.timeouts ==> UserTimerOk(s, v);
    case Compact =>
    case Tick =>
      if !TimerDue(s) {
        var s' := Step(s, e);
        assert forall v :: v in s'.timeouts ==> UserTimerOk(s, v);
      }
  }

  function Run(s: State, es: seq<Event>): State
    decreases |es|
  {
    if es == [] then s else Run(Step(s, es[0]), es[1..])
  }

  /** In every run the live timers are exactly the map's values, at most one per user, aimed and due as they should be. */
  lemma {:induction false} TimersMatchTheMap(s: State, es: seq<Event>)
    requires Inv(s)
    ensures Inv(Run(s, es))
    ensures forall t :: t in Run(s, es).timers <==> exists u :: u in Run(s, es).timeouts && Run(s, es).timeouts[u] == t
    decreases |es|
  {
    if es == [] {
      forall t | exists u :: u in s.timeouts && s.timeouts[u] == t
        ensures t in s.timers
      {
        var u :| u in s.timeouts && s.timeouts[u] == t;
        assert UserTimerOk(s, u);
      }
    } else {
      StepKeepsInv(s, es[0]);
      TimersMatchTheMap(Step(s, es[0]), es[1..]);
    }
  }

  // ---------- A user who does nothing more ----------

  predicate ActsAs(e: Event, user: string) {
    (e.Typing? || e.Sent? || e.Disconnected?) && e.user == user
  }

  function About(emits: seq<Emit>, user: string): seq<Emit> {
    if emits == [] then []
    else About(emits[..|emits| - 1], user) + (if emits[|emits| - 1].user == user then [emits[|emits| - 1]] else [])
  }

  /** What happened about `user` from `s` to `s'` while the user did nothing. */
  ghost predicate QuietEffect(s: State, s': State, user: string) {
    && s.now <= s'.now
    && if user !in s.timeouts then
         user !in s'.timeouts && About(s'.emits, user) == About(s.emits, user)
       else
         s.timeouts[user] in s.timers
         && var x := s.timers[s.timeouts[user]];
            if user in s'.timeouts then
              s'.timeouts[user] == s.timeouts[user] && s'.timers == s'.timers[s.timeouts[user] := x]
              && About(s'.emits, user) == About(s.emits, user)
            else
              About(s'.emits, user) == About(s.emits, user) + [Emit(x.receiver, user, false)]
  }

  lemma AboutSnoc(emits: seq<Emit>, x: Emit, user: string)
    ensures About(emits + [x], user) == About(emits, user) + (if x.user == user then [x] else [])
  {
  }

  lemma QuietClear(s: State, other: string, user: string)
    requires Inv(s) && other != user
    ensures QuietEffect(s, Clear(s, other), user)
  {
  }

  lemma QuietTyping(s: State, e: Event, user: string)
    requires Inv(s) && (e.Typing? || e.Sent?) && e.user != user
    ensures QuietEffect(s, Step(s, e), user)
  {
    QuietClear(s, e.user, user);
    AboutSnoc(Clear(s, e.user).emits, Emit(e.receiver, e.user, if e.Typing? then e.isTyping else false), user);
    if user in s.timeouts {
      assert UserTimerOk(s, user);
    }
  }

  lemma QuietFire(s: State, t: nat, user: string)
    requires Inv(s) && t in s.timers && s.timers[t].due <= s.now
    ensures QuietEffect(s, Step(s, Fire(t)), user)
  {
    var x := s.timers[t];
    AboutSnoc(s.emits, Emit(x.receiver, x.user, false), user);
    if user in s.timeouts {
      assert UserTimerOk(s, user);
    }
  }

  lemma QuietStep(s: State, e: Event, user: string)
    requires Inv(s) && !ActsAs(e, user)
    ensures QuietEffect(s, Step(s, e), user)
  {
    if user in s.timeouts {
      assert UserTimerOk(s, user);
    }
    match e
    case Typing(_, _, _) => QuietTyping(s, e, user);
    case Sent(_, _) => QuietTyping(s, e, user);
    case Disconnected(other) => QuietClear(s, other, user);
    case Fire(t) => if t in s.timers && s.timers[t].due <= s.now { QuietFire(s, t, user); }
    case Compact =>
    case Tick =>
  }

  /**
   * A user with a live timer who does nothing more, whatever others do: the receiver gets exactly one
   * isTyping:false about them, and has it once the clock has passed the deadline. Without a timer nothing is sent.
   */
  lemma {:induction false} QuietUserStopsTypingOnce(s: State, es: seq<Event>, user: string)
    requires Inv(s) && forall e :: e in es ==> !ActsAs(e, user)
    ensures QuietEffect(s, Run(s, es), user)
    ensures user in s.timeouts && Run(s, es).now > s.timers[s.timeouts[user]].due ==> user !in Run(s, es).timeouts
    decreases |es|
  {
    if es == [] {
      if user in s.timeouts {
        assert UserTimerOk(s, user);
      }
    } else {
      var s1 := Step(s, es[0]);
      QuietStep(s, es[0], user);
      StepKeepsInv(s, es[0]);
      QuietUserStopsTypingOnce(s1, es[1..], user);
      TimersMatchTheMap(s1, es[1..]);
      if user in s1.timeouts && user in Run(s1, es[1..]).timeouts {
        assert UserTimerOk(Run(s1, es[1..]), user);
      }
    }
  }

  /** What the clock does on its own: it ticks, and due timers fire. */
  predicate OnlyTime(es: seq<Event>) {
    forall e :: e in es ==> e.Tick? || e.Fire?
  }

  lemma RunCons(s: State, e: Event, es: seq<Event>)
    ensures Run(s, [e] + es) == Run(Step(s, e), es)
  {
  }

  /** How long the user's timer may run, in ticks. */
  ghost function Left(s: State, user: string): nat {
    if user in s.timeouts && s.timeouts[user] in s.timers && s.now <= s.timers[s.timeouts[user]].due
    then 1 + s.timers[s.timeouts[user]].due - s.now else 0
  }

  /** The next thing that time does, while the user is typing. */
  lemma TimePasses(s: State, user: string) returns (e: Event)
    requires Inv(s) && user in s.timeouts
    ensures e.Tick? || e.Fire?
    ensures var s' := Step(s, e);
            Left(s', user) < Left(s, user) || (Left(s', user) == Left(s, user) && |s'.timers| < |s.timers|)
  {
    assert UserTimerOk(s, user);
    if TimerDue(s) {
      var t :| t in s.timers && s.timers[t].due <= s.now;
      e := Fire(t);
      assert Step(s, e).timers == s.timers - {t};
      assert |s.timers - {t}| < |s.timers|;
    } else {
      e := Tick;
    }
  }

  /** The passing of time alone ends every typing state; by `QuietUserStopsTypingOnce` with one isTyping:false. */
  lemma {:induction false} TimeStopsTyping(s: State, user: string) returns (es: seq<Event>)
    requires Inv(s)
    ensures OnlyTime(es) && user !in Run(s, es).timeouts
    decreases Left(s, user), |s.timers|
  {
    if user !in s.timeouts {
      es := [];
    } else {
      var e := TimePasses(s, user);
      StepKeepsInv(s, e);
      var rest := TimeStopsTyping(Step(s, e), user);
      es := [e] + rest;
      RunCons(s, e, rest);
    }
  }
}
