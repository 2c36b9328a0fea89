/** Offset paging through a conversation. The table is kept in `createdAt` order, which is strict. */
module Paging {
  import opened Common
  import opened Messages

  const DEFAULT_LIMIT := 50
  const MAX_LIMIT := 200

  /** Math.min(Number(query.limit) || 50, 200); None stands for an absent or non-numeric parameter. */
  function Limit(raw: Option<int>): int {
    var n := if raw == None || raw.value == 0 then DEFAULT_LIMIT else raw.value;
    if n < MAX_LIMIT then n else MAX_LIMIT
  }

  /** Math.max(Number(query.offset) || 0, 0) */
  function Offset(raw: Option<int>): nat {
    if raw == None || raw.value < 0 then 0 else raw.value
  }

  /** All messages between two users, oldest first. */
  function Conversation(t: seq<Message>, a: string, b: string): seq<Message> {
    if t == [] then []
    else Conversation(t[..|t| - 1], a, b) + (if Between(t[|t| - 1], a, b) then [t[|t| - 1]] else [])
  }

  /** `at` holds, in order, exactly the positions of the messages that one of the two users sent to the other. */
  ghost predicate PlacesOf(t: seq<Message>, a: string, b: string, at: seq<nat>) {
    && (forall k :: 0 <= k < |at| ==> at[k] < |t|)
    && (forall k, l :: 0 <= k < l < |at| ==> at[k] < at[l])
    && (forall i :: 0 <= i < |t| ==>
          (i in at <==> (t[i].sender == a && t[i].receiver == b) || (t[i].sender == b && t[i].receiver == a)))
  }

  lemma PlacesSnoc(t: seq<Message>, a: string, b: string, at: seq<nat>)
    requires t != [] && PlacesOf(t[..|t| - 1], a, b, at)
    ensures PlacesOf(t, a, b, if Between(t[|t| - 1], a, b) then at + [|t| - 1] else at)
  {
    var n := |t| - 1;
    assert forall i :: 0 <= i < n ==> t[..n][i] == t[i];
    assert n !in at;
  }

  /** The conversation is the table without the rows of others. */
  lemma {:induction false} ConversationSelects(t: seq<Message>, a: string, b: string) returns (at: seq<nat>)
    ensures PlacesOf(t, a, b, at) && |at| == |Conversation(t, a, b)|
    ensures forall k :: 0 <= k < |at| ==> Conversation(t, a, b)[k] == t[at[k]]
  {
    if t == [] {
      at := [];
    } else {
      var n := |t| - 1;
      at := ConversationSelects(t[..n], a, b);
      PlacesSnoc(t, a, b, at);
      if Between(t[n], a, b) {
        at := at + [n];
      }
    }
  }

  /** How many messages of the table one of the two users sent to the other. */
  ghost function CountBetween(t: seq<Message>, a: string, b: string): nat {
    |set i: nat | i < |t| && ((t[i].sender == a && t[i].receiver == b) || (t[i].sender == b && t[i].receiver == a))|
  }

  /** The number of listed messages, and that each one is of the two users, counted on the table. */
  lemma ConversationCounts(t: seq<Message>, a: string, b: string)
    ensures |Conversation(t, a, b)| == CountBetween(t, a, b)
    ensures forall m :: m in Conversation(t, a, b) <==>
              m in t && ((m.sender == a && m.receiver == b) || (m.sender == b && m.receiver == a))
  {
    var at := ConversationSelects(t, a, b);
    var places := set i: nat | i < |t| && ((t[i].sender == a && t[i].receiver == b) || (t[i].sender == b && t[i].receiver == a));
    assert places == ToSet(at);
    DistinctCount(at);
    forall m
      ensures m in Conversation(t, a, b) <==>
              m in t && ((m.sender == a && m.receiver == b) || (m.sender == b && m.receiver == a))
    {
      if m in t && ((m.sender == a && m.receiver == b) || (m.sender == b && m.receiver == a)) {
        var i :| 0 <= i < |t| && t[i] == m;
        assert i in at;
        var k :| 0 <= k < |at| && at[k] == i;
        assert Conversation(t, a, b)[k] == m;
      }
      if m in Conversation(t, a, b) {
        var k :| 0 <= k < |at| && Conversation(t, a, b)[k] == m;
        assert t[at[k]] == m && at[k] in at;
      }
    }
  }

  function ToSet(at: seq<nat>): set<nat> {
    set i | i in at
  }

  lemma {:induction false} DistinctCount(at: seq<nat>)
    requires forall k, l :: 0 <= k < l < |at| ==> at[k] < at[l]
    ensures |ToSet(at)| == |at|
  {
    if at != [] {
      var init, last := at[..|at| - 1], at[|at| - 1];
      DistinctCount(init);
      assert at == init + [last];
      assert ToSet(at) == ToSet(init) + {last};
    }
  }

  function NonNegative(n: int): nat {
    if n < 0 then 0 else n
  }

  /** The slice a request returns: `offset` back from the newest message, `limit` messages, oldest first. */
  function Page(conversation: seq<Message>, limit: nat, offset: nat): seq<Message> {
    var n := |conversation|;
    conversation[NonNegative(n - offset - limit)..NonNegative(n - offset)]
  }

  datatype Reply = Refused | Fetched(data: seq<Message>, total: nat, limit: nat, offset: nat, hasMore: bool)

  method ReverseInPlace(a: array<Message>)
    modifies a
    ensures a[..] == Reversed(old(a[..]))
  {
    var lo, hi := 0, a.Length;
    while lo + 1 < hi
      invariant 0 <= lo <= hi && lo + hi == a.Length
      invariant forall k :: lo <= k < hi ==> a[k] == old(a[k])
      invariant forall k :: 0 <= k < lo || hi <= k < a.Length ==> a[k] == old(a[a.Length - 1 - k])
    {
      hi := hi - 1;
      a[lo], a[hi] := a[hi], a[lo];
      lo := lo + 1;
    }
  }

  /** fetchConversation: select newest first, skip and take, then reverse in place. A negative LIMIT is an SQL error. */
  method FetchConversation(t: seq<Message>, a: string, b: string, rawLimit: Option<int>, rawOffset: Option<int>)
    returns (r: Reply)
    ensures r.Refused? <==> rawLimit.Some? && rawLimit.value < 0
    ensures r.Fetched? ==>
              && r.limit == (if rawLimit == None || rawLimit.value == 0 then 50
                             else if rawLimit.value <= 200 then rawLimit.value else 200)
              && r.offset == (if rawOffset == None || rawOffset.value < 0 then 0 else rawOffset.value)
    ensures r.Fetched? ==>
              && (forall m :: m in r.data ==>
                    m in t && ((m.sender == a && m.receiver == b) || (m.sender == b && m.receiver == a)))
              && r.total == CountBetween(t, a, b)
    ensures r.Fetched? ==>
              && r.total == |Conversation(t, a, b)|
              && r.data == Page(Conversation(t, a, b), r.limit, r.offset)
              && (r.hasMore <==> r.offset + r.limit < r.total)
              && |r.data| <= r.limit
  {
    var limit, offset := Limit(rawLimit), Offset(rawOffset);
    if limit < 0 { return Refused; }
    var conversation := Conversation(t, a, b);
    var data := SkipTakeReverse(Reversed(conversation), limit, offset);
    ReversedSliceIsPage(conversation, limit, offset);
    PageIsOfThePair(t, a, b, limit, offset);
    r := Fetched(data, |conversation|, limit, offset, offset + limit < |conversation|);
  }

  /** skip(offset), take(limit), and the reversal for display. */
  method SkipTakeReverse(newestFirst: seq<Message>, limit: nat, offset: nat) returns (data: seq<Message>)
    ensures var n := |newestFirst|;
            var skip := if offset < n then offset else n;
            var end := if skip + limit < n then skip + limit else n;
            data == Reversed(newestFirst[skip..end])
  {
    var total := |newestFirst|;
    var skip := if offset < total then offset else total;
    var end := if skip + limit < total then skip + limit else total;
    var selected := newestFirst[skip..end];
    var messages := new Message[|selected|](k requires 0 <= k < |selected| => selected[k]);
    assert messages[..] == selected;
    ReverseInPlace(messages);
    data := messages[..];
  }

  lemma PageIsOfThePair(t: seq<Message>, a: string, b: string, limit: nat, offset: nat)
    ensures |Conversation(t, a, b)| == CountBetween(t, a, b)
    ensures forall m :: m in Page(Conversation(t, a, b), limit, offset) ==>
              m in t && ((m.sender == a && m.receiver == b) || (m.sender == b && m.receiver == a))
  {
    ConversationCounts(t, a, b);
    forall m | m in Page(Conversation(t, a, b), limit, offset)
      ensures m in Conversation(t, a, b)
    {
    }
  }

  /** Skipping and taking from the newest end, then reversing, is the page. */
  lemma ReversedSliceIsPage(conversation: seq<Message>, limit: nat, offset: nat)
    ensures var n := |conversation|;
            var skip := if offset < n then offset else n;
            var end := if skip + limit < n then skip + limit else n;
            Reversed(Reversed(conversation)[skip..end]) == Page(conversation, limit, offset)
  {
  }

  // ---------- Walking the pages ----------

  /** The same conversation for either participant. */
  lemma {:induction false} ConversationIsSymmetric(t: seq<Message>, a: string, b: string)
    ensures Conversation(t, a, b) == Conversation(t, b, a)
  {
    if t != [] {
      ConversationIsSymmetric(t[..|t| - 1], a, b);
    }
  }

  /** The pages of a walk over an unchanging table, in the order they are fetched. */
  function Walk(conversation: seq<Message>, limit: nat, offset: nat): seq<seq<Message>>
    requires limit > 0
    decreases NonNegative(|conversation| - offset)
  {
    [Page(conversation, limit, offset)]
    + if offset + limit < |conversation| then Walk(conversation, limit, offset + limit) else []
  }

  /** Pages joined with the last fetched one first. */
  function JoinBackwards(pages: seq<seq<Message>>): seq<Message> {
    if pages == [] then [] else JoinBackwards(pages[1..]) + pages[0]
  }

  lemma {:induction false} WalkFromCoversTheRest(conversation: seq<Message>, limit: nat, offset: nat)
    requires limit > 0
    ensures JoinBackwards(Walk(conversation, limit, offset)) == conversation[..NonNegative(|conversation| - offset)]
    decreases NonNegative(|conversation| - offset)
  {
    var first := Page(conversation, limit, offset);
    if offset + limit < |conversation| {
      WalkFromCoversTheRest(conversation, limit, offset + limit);
      JoinStep(first, Walk(conversation, limit, offset + limit));
    } else {
      JoinStep(first, []);
    }
    PagesMeet(conversation, limit, offset);
  }

  lemma JoinStep(first: seq<Message>, rest: seq<seq<Message>>)
    ensures JoinBackwards([first] + rest) == JoinBackwards(rest) + first
  {
  }

  lemma PagesMeet(conversation: seq<Message>, limit: nat, offset: nat)
    ensures conversation[..NonNegative(|conversation| - (offset + limit))] + Page(conversation, limit, offset)
            == conversation[..NonNegative(|conversation| - offset)]
  {
  }

  /** On an unchanging table the walk ends, and its pages make up the whole conversation, each message once. */
  lemma WalkIsTheConversation(t: seq<Message>, a: string, b: string, limit: nat)
    requires limit > 0
    ensures JoinBackwards(Walk(Conversation(t, a, b), limit, 0)) == Conversation(t, a, b)
    ensures Walk(Conversation(t, a, b), limit, 0) == Walk(Conversation(t, b, a), limit, 0)
  {
    WalkFromCoversTheRest(Conversation(t, a, b), limit, 0);
    ConversationIsSymmetric(t, a, b);
  }

  /** A later table: messages were appended and statuses may have changed. */
  ghost predicate Extends(t: seq<Message>, t': seq<Message>) {
    |t| <= |t'| && forall i :: 0 <= i < |t| ==> t'[i] == t[i].(status := t'[i].status)
  }

  lemma {:induction false} ConversationExtends(t: seq<Message>, t': seq<Message>, a: string, b: string)
    requires Extends(t, t')
    ensures Extends(Conversation(t, a, b), Conversation(t', a, b))
    ensures |t| == |t'| ==> |Conversation(t, a, b)| == |Conversation(t', a, b)|
    decreases |t'|
  {
    if t' != [] {
      var init' := t'[..|t'| - 1];
      if |t| < |t'| {
        ConversationExtends(t, init', a, b);
        assert Conversation(init', a, b) <= Conversation(t', a, b);
      } else {
        ConversationExtends(t[..|t| - 1], init', a, b);
        assert Conversation(t[..|t| - 1], a, b) <= Conversation(t, a, b);
        assert Between(t[|t| - 1], a, b) <==> Between(t'[|t| - 1], a, b);
      }
    }
  }

  ghost predicate OnPage(tables: seq<seq<Message>>, a: string, b: string, limit: nat, k: nat, id: nat)
    requires k < |tables|
  {
    exists m :: m in Page(Conversation(tables[k], a, b), limit, k * limit) && m.id == id
  }

  ghost predicate GrowsBetweenRequests(tables: seq<seq<Message>>) {
    forall k :: 0 <= k < |tables| - 1 ==> Extends(tables[k], tables[k + 1])
  }

  lemma OnThisPage(conversation: seq<Message>, limit: nat, offset: nat, x: nat)
    requires |conversation| - offset - limit <= x < |conversation| - offset
    ensures conversation[x] in Page(conversation, limit, offset)
  {
    var from := NonNegative(|conversation| - offset - limit);
    assert Page(conversation, limit, offset)[x - from] == conversation[x];
  }

  /** Message `x` of the conversation is not newer than page `k`: it is on page `k` or a later one. */
  lemma {:induction false} StillAhead(tables: seq<seq<Message>>, a: string, b: string, limit: nat, k: nat, x: nat)
    returns (page: nat)
    requires limit > 0 && k < |tables| && GrowsBetweenRequests(tables)
    requires (|tables| - 1) * limit + limit >= |Conversation(tables[|tables| - 1], a, b)|
    requires x < |Conversation(tables[k], a, b)| - k * limit
    ensures k <= page < |tables| && x < |Conversation(tables[k], a, b)|
    ensures OnPage(tables, a, b, limit, page, Conversation(tables[k], a, b)[x].id)
    decreases |tables| - k
  {
    var here := Conversation(tables[k], a, b);
    if |here| - k * limit - limit <= x {
      page := k;
      OnThisPage(here, limit, k * limit, x);
    } else {
      var next := Conversation(tables[k + 1], a, b);
      ConversationExtends(tables[k], tables[k + 1], a, b);
      assert (k + 1) * limit == k * limit + limit;
      page := StillAhead(tables, a, b, limit, k + 1, x);
      assert next[x].id == here[x].id;
    }
  }

  /**
   * Request k of a walk reads the table `tables[k]` at offset k * limit, and messages may arrive in between. If the
   * last request says there is no more, every message that existed at the first request is on some page.
   */
  lemma NoMessageIsMissed(tables: seq<seq<Message>>, a: string, b: string, limit: nat, m: Message)
    requires limit > 0 && tables != [] && GrowsBetweenRequests(tables)
    requires !((|tables| - 1) * limit + limit < |Conversation(tables[|tables| - 1], a, b)|)
    requires m in Conversation(tables[0], a, b)
    ensures exists k :: 0 <= k < |tables| && OnPage(tables, a, b, limit, k, m.id)
  {
    var x :| 0 <= x < |Conversation(tables[0], a, b)| && Conversation(tables[0], a, b)[x] == m;
    var page := StillAhead(tables, a, b, limit, 0, x);
  }
}
