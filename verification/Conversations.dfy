/** The inbox query of getConversations, stage by stage, and what it means. */
module Conversations {
  import opened Messages

  /** A row of the UNION ALL. */
  datatype Entry = Entry(partner: string, lastSender: string, text: string, time: int)

  /** A row of the result. */
  datatype Row = Row(partner: string, lastSender: string, text: string, time: int, unread: nat)

  // ---------- The query ----------

  function Sent(t: seq<Message>, user: string): seq<Entry> {
    if t == [] then []
    else
      var m := t[|t| - 1];
      Sent(t[..|t| - 1], user) + (if m.sender == user then [Entry(m.receiver, m.sender, m.text, m.createdAt)] else [])
  }

  function Received(t: seq<Message>, user: string): seq<Entry> {
    if t == [] then []
    else
      var m := t[|t| - 1];
      Received(t[..|t| - 1], user) + (if m.receiver == user then [Entry(m.sender, m.sender, m.text, m.createdAt)] else [])
  }

  /** all_messages: UNION ALL keeps duplicates. */
  function AllMessages(t: seq<Message>, user: string): seq<Entry> {
    Sent(t, user) + Received(t, user)
  }

  /** The rows of `i`'s partition that the numbering `rn` puts before `i`. */
  function Before(all: seq<Entry>, rn: seq<nat>, i: nat): set<nat>
    requires i < |all| == |rn|
  {
    set j: nat | j < |all| && all[j].partner == all[i].partner && rn[j] < rn[i]
  }

  /**
   * ranked_messages: `rn` is a possible value of ROW_NUMBER() OVER (PARTITION BY partner ORDER BY time DESC).
   * SQL leaves the order among equal times open, so this is a relation.
   */
  ghost predicate IsRowNumber(all: seq<Entry>, rn: seq<nat>) {
    && |rn| == |all|
    && (forall i, j :: 0 <= i < j < |all| && all[i].partner == all[j].partner ==> rn[i] != rn[j])
    && (forall i, j :: 0 <= i < |all| && 0 <= j < |all| && all[i].partner == all[j].partner && rn[i] < rn[j]
          ==> all[i].time >= all[j].time)
    && (forall i :: 0 <= i < |all| ==> rn[i] == 1 + |Before(all, rn, i)|)
  }

  /** unread_counts: WHERE "receiverId" = user AND status != 'Seen' */
  function UnreadRows(t: seq<Message>, user: string): seq<Message> {
    if t == [] then []
    else
      var m := t[|t| - 1];
      UnreadRows(t[..|t| - 1], user) + (if m.receiver == user && m.status != Seen then [m] else [])
  }

  /** The rows of one group. */
  function Group(rows: seq<Message>, sender: string): seq<Message> {
    if rows == [] then []
    else
      var m := rows[|rows| - 1];
      Group(rows[..|rows| - 1], sender) + (if m.sender == sender then [m] else [])
  }

  /** unread_counts: GROUP BY "senderId" makes a group per sender that occurs, COUNT(*) its number of rows. */
  function UnreadCounts(t: seq<Message>, user: string): map<string, nat> {
    var rows := UnreadRows(t, user);
    map m | m in rows :: m.sender := |Group(rows, m.sender)|
  }

  /** LEFT JOIN unread_counts, COALESCE(..., 0) */
  function Joined(e: Entry, counts: map<string, nat>): Row {
    Row(e.partner, e.lastSender, e.text, e.time, if e.partner in counts then counts[e.partner] else 0)
  }

  ghost predicate SortedByTimeDesc(out: seq<Row>) {
    forall i, j :: 0 <= i < j < |out| ==> out[i].time >= out[j].time
  }

  /** WHERE rn = 1 ORDER BY time DESC: `sel` lists the selected rows of `all` in the order they are returned. */
  ghost predicate Selects(all: seq<Entry>, rn: seq<nat>, sel: seq<nat>)
    requires |rn| == |all|
  {
    && (forall k :: 0 <= k < |sel| ==> sel[k] < |all| && rn[sel[k]] == 1)
    && (forall k, l :: 0 <= k < l < |sel| ==> sel[k] != sel[l])
    && (forall i :: 0 <= i < |all| && rn[i] == 1 ==> i in sel)
  }

  ghost predicate ResultVia(t: seq<Message>, user: string, rn: seq<nat>, sel: seq<nat>, out: seq<Row>) {
    var all := AllMessages(t, user);
    && IsRowNumber(all, rn)
    && Selects(all, rn, sel)
    && |out| == |sel|
    && (forall k :: 0 <= k < |out| ==> out[k] == Joined(all[sel[k]], UnreadCounts(t, user)))
    && SortedByTimeDesc(out)
  }

  /** The database may answer the query with `out`. */
  ghost predicate IsResult(t: seq<Message>, user: string, out: seq<Row>) {
    exists rn, sel :: ResultVia(t, user, rn, sel, out)
  }

  // ---------- Its meaning ----------

  /** The row shows a message of maximal time with its partner, and the unread count from that partner. */
  ghost predicate Shows(t: seq<Message>, user: string, r: Row) {
    && (exists m :: m in t && Between(m, user, r.partner)
                    && m.sender == r.lastSender && m.text == r.text && m.createdAt == r.time)
    && (forall m :: m in t && Between(m, user, r.partner) ==> m.createdAt <= r.time)
    && r.unread == CountUnread(t, r.partner, user)
  }

  /** One row per partner, each the latest message and the unread count, newest conversation first. */
  ghost predicate Means(t: seq<Message>, user: string, out: seq<Row>) {
    && (forall k, l :: 0 <= k < l < |out| ==> out[k].partner != out[l].partner)
    && (forall k :: 0 <= k < |out| ==> Shows(t, user, out[k]))
    && (forall m, p :: m in t && Between(m, user, p) ==> HasRow(out, p))
    && SortedByTimeDesc(out)
  }

  ghost predicate HasRow(out: seq<Row>, p: string) {
    exists k :: 0 <= k < |out| && out[k].partner == p
  }

  // ---------- UNION ALL lists the messages of the user ----------

  /** The entry that a message contributes for `partner`. */
  function EntryOf(m: Message, partner: string): Entry {
    Entry(partner, m.sender, m.text, m.createdAt)
  }

  lemma {:induction false} SentLists(t: seq<Message>, user: string, e: Entry)
    ensures e in Sent(t, user) <==> exists m :: m in t && m.sender == user && e == EntryOf(m, m.receiver)
  {
    if t != [] {
      var init, last := t[..|t| - 1], t[|t| - 1];
      SentLists(init, user, e);
      assert forall m :: m in t <==> m in init || m == last;
    }
  }

  lemma {:induction false} ReceivedLists(t: seq<Message>, user: string, e: Entry)
    ensures e in Received(t, user) <==> exists m :: m in t && m.receiver == user && e == EntryOf(m, m.sender)
  {
    if t != [] {
      var init, last := t[..|t| - 1], t[|t| - 1];
      ReceivedLists(init, user, e);
      assert forall m :: m in t <==> m in init || m == last;
    }
  }

  lemma AllMessagesLists(t: seq<Message>, user: string, e: Entry)
    ensures e in AllMessages(t, user) <==> exists m :: m in t && Between(m, user, e.partner) && e == EntryOf(m, e.partner)
  {
    SentLists(t, user, e);
    ReceivedLists(t, user, e);
    if m :| m in t && Between(m, user, e.partner) && e == EntryOf(m, e.partner) {
      assert m.sender == user ==> e in Sent(t, user) || e in Received(t, user);
    }
  }

  /** The rows that WHERE leaves for the unread counts are the unread messages of each sender. */
  lemma {:induction false} GroupIsUnread(t: seq<Message>, user: string, sender: string)
    ensures |Group(UnreadRows(t, user), sender)| == CountUnread(t, sender, user)
    ensures forall m :: m in UnreadRows(t, user) <==> m in t && m.receiver == user && m.status != Seen
  {
    if t != [] {
      var init, last := t[..|t| - 1], t[|t| - 1];
      GroupIsUnread(init, user, sender);
      GroupSnoc(UnreadRows(init, user), last, sender);
      assert UnreadRows(init, user) + [] == UnreadRows(init, user);
      assert forall m :: m in t <==> m in init || m == last;
    }
  }

  lemma GroupSnoc(rows: seq<Message>, m: Message, sender: string)
    ensures Group(rows + [m], sender) == Group(rows, sender) + (if m.sender == sender then [m] else [])
  {
  }

  /** The left join with COALESCE is the plain count: a partner without a group has no unread message. */
  lemma JoinIsCount(t: seq<Message>, user: string, e: Entry)
    ensures Joined(e, UnreadCounts(t, user)).unread == CountUnread(t, e.partner, user)
  {
    GroupIsUnread(t, user, e.partner);
    CountPositiveIff(t, e.partner, user);
  }

  // ---------- rn = 1 picks one latest entry of every partition ----------

  lemma {:induction false} PartitionHasFirst(all: seq<Entry>, rn: seq<nat>, i: nat) returns (j: nat)
    requires IsRowNumber(all, rn) && i < |all|
    ensures j < |all| && all[j].partner == all[i].partner && rn[j] == 1
    decreases rn[i]
  {
    if rn[i] == 1 {
      j := i;
    } else {
      assert Before(all, rn, i) != {};
      var k :| k in Before(all, rn, i);
      j := PartitionHasFirst(all, rn, k);
    }
  }

  lemma FirstIsLatest(all: seq<Entry>, rn: seq<nat>, i: nat, j: nat)
    requires IsRowNumber(all, rn) && i < |all| && j < |all| && rn[i] == 1 && all[j].partner == all[i].partner
    ensures all[j].time <= all[i].time
  {
  }

  lemma OneFirstPerPartition(all: seq<Entry>, rn: seq<nat>, i: nat, j: nat)
    requires IsRowNumber(all, rn) && i < |all| && j < |all| && i != j && rn[i] == rn[j]
    ensures all[i].partner != all[j].partner
  {
  }

  lemma ResultRowShows(t: seq<Message>, user: string, rn: seq<nat>, sel: seq<nat>, out: seq<Row>, k: nat)
    requires ResultVia(t, user, rn, sel, out) && k < |out|
    ensures Shows(t, user, out[k])
  {
    var all := AllMessages(t, user);
    var e, r := all[sel[k]], out[k];
    assert e in all;
    AllMessagesLists(t, user, e);
    JoinIsCount(t, user, e);
    forall m | m in t && Between(m, user, r.partner)
      ensures m.createdAt <= r.time
    {
      AllMessagesLists(t, user, EntryOf(m, r.partner));
      var j :| 0 <= j < |all| && all[j] == EntryOf(m, r.partner);
      FirstIsLatest(all, rn, sel[k], j);
    }
  }

  lemma ResultMeans(t: seq<Message>, user: string, rn: seq<nat>, sel: seq<nat>, out: seq<Row>)
    requires ResultVia(t, user, rn, sel, out)
    ensures Means(t, user, out)
  {
    var all := AllMessages(t, user);
    forall k | 0 <= k < |out|
      ensures Shows(t, user, out[k])
    {
      ResultRowShows(t, user, rn, sel, out, k);
    }
    forall k, l | 0 <= k < l < |out|
      ensures out[k].partner != out[l].partner
    {
      OneFirstPerPartition(all, rn, sel[k], sel[l]);
    }
    forall m, p | m in t && Between(m, user, p)
      ensures HasRow(out, p)
    {
      AllMessagesLists(t, user, EntryOf(m, p));
      var i :| 0 <= i < |all| && all[i] == EntryOf(m, p);
      var j := PartitionHasFirst(all, rn, i);
      assert j in sel;
      var k :| 0 <= k < |sel| && sel[k] == j;
      assert out[k].partner == p;
    }
  }

  // ---------- Every meaning is a possible answer ----------

  /** Order by time descending, the chosen entries first among equals, then by position. */
  predicate Precedes(all: seq<Entry>, chosen: set<nat>, j: nat, i: nat)
    requires i < |all| && j < |all|
  {
    all[j].time > all[i].time
    || (all[j].time == all[i].time
        && ((j in chosen && i !in chosen) || ((j in chosen <==> i in chosen) && j < i)))
  }

  function Ahead(all: seq<Entry>, chosen: set<nat>, i: nat): set<nat>
    requires i < |all|
  {
    set j: nat | j < |all| && all[j].partner == all[i].partner && Precedes(all, chosen, j, i)
  }

  function Numbering(all: seq<Entry>, chosen: set<nat>): (rn: seq<nat>)
    ensures |rn| == |all|
    ensures forall i :: 0 <= i < |all| ==> rn[i] == 1 + |Ahead(all, chosen, i)|
  {
    seq(|all|, i requires 0 <= i < |all| => 1 + |Ahead(all, chosen, i)|)
  }

  lemma Smaller(a: set<nat>, b: set<nat>, x: nat)
    requires a <= b && x in b && x !in a
    ensures |a| < |b|
  {
    var rest := b - a;
    assert x in rest;
    assert b == a + rest && a !! rest;
  }

  lemma NumberingFollowsOrder(all: seq<Entry>, chosen: set<nat>, i: nat, j: nat)
    requires i < |all| && j < |all| && all[i].partner == all[j].partner && Precedes(all, chosen, j, i)
    ensures Numbering(all, chosen)[j] < Numbering(all, chosen)[i]
  {
    assert Ahead(all, chosen, j) <= Ahead(all, chosen, i);
    Smaller(Ahead(all, chosen, j), Ahead(all, chosen, i), j);
  }

  lemma NumberingIsOrder(all: seq<Entry>, chosen: set<nat>, i: nat, j: nat)
    requires i < |all| && j < |all| && all[i].partner == all[j].partner && i != j
    ensures Numbering(all, chosen)[j] != Numbering(all, chosen)[i]
    ensures Numbering(all, chosen)[j] < Numbering(all, chosen)[i] <==> Precedes(all, chosen, j, i)
  {
    if Precedes(all, chosen, j, i) {
      NumberingFollowsOrder(all, chosen, i, j);
    } else {
      assert Precedes(all, chosen, i, j);
      NumberingFollowsOrder(all, chosen, j, i);
    }
  }

  lemma NumberingCountsBefore(all: seq<Entry>, chosen: set<nat>, i: nat)
    requires i < |all|
    ensures Before(all, Numbering(all, chosen), i) == Ahead(all, chosen, i)
  {
    var rn := Numbering(all, chosen);
    forall j: nat | j < |all| && all[j].partner == all[i].partner
      ensures rn[j] < rn[i] <==> Precedes(all, chosen, j, i)
    {
      if j != i {
        NumberingIsOrder(all, chosen, i, j);
      }
    }
  }

  lemma NumberingIsRowNumber(all: seq<Entry>, chosen: set<nat>)
    ensures IsRowNumber(all, Numbering(all, chosen))
  {
    var rn := Numbering(all, chosen);
    forall i, j | 0 <= i < |all| && 0 <= j < |all| && all[i].partner == all[j].partner && i != j
      ensures rn[i] != rn[j]
      ensures rn[i] < rn[j] ==> all[i].time >= all[j].time
    {
      NumberingIsOrder(all, chosen, j, i);
    }
    forall i | 0 <= i < |all|
      ensures rn[i] == 1 + |Before(all, rn, i)|
    {
      NumberingCountsBefore(all, chosen, i);
    }
  }

  /** The entry behind a row of the meaning. */
  lemma EntryBehind(t: seq<Message>, user: string, r: Row) returns (i: nat)
    requires Shows(t, user, r)
    ensures var all := AllMessages(t, user);
            && i < |all| && all[i] == Entry(r.partner, r.lastSender, r.text, r.time)
            && forall j :: 0 <= j < |all| && all[j].partner == r.partner ==> all[j].time <= r.time
  {
    var all := AllMessages(t, user);
    var m :| m in t && Between(m, user, r.partner) && m.sender == r.lastSender && m.text == r.text && m.createdAt == r.time;
    AllMessagesLists(t, user, EntryOf(m, r.partner));
    i :| 0 <= i < |all| && all[i] == EntryOf(m, r.partner);
    forall j | 0 <= j < |all| && all[j].partner == r.partner
      ensures all[j].time <= r.time
    {
      assert all[j] in all;
      AllMessagesLists(t, user, all[j]);
    }
  }

  ghost predicate BehindRows(t: seq<Message>, user: string, out: seq<Row>, sel: seq<nat>) {
    var all := AllMessages(t, user);
    && |sel| == |out|
    && forall k :: 0 <= k < |out| ==>
         && sel[k] < |all| && all[sel[k]] == Entry(out[k].partner, out[k].lastSender, out[k].text, out[k].time)
         && forall j :: 0 <= j < |all| && all[j].partner == out[k].partner ==> all[j].time <= out[k].time
  }

  /** Positions in the UNION ALL for every row, one after the other. */
  lemma {:induction false} EntriesBehind(t: seq<Message>, user: string, out: seq<Row>) returns (sel: seq<nat>)
    requires forall k :: 0 <= k < |out| ==> Shows(t, user, out[k])
    ensures BehindRows(t, user, out, sel)
  {
    if out == [] {
      sel := [];
    } else {
      sel := EntriesBehind(t, user, out[..|out| - 1]);
      var last := EntryBehind(t, user, out[|out| - 1]);
      sel := sel + [last];
    }
  }

  /** An entry has number 1 exactly when it was chosen for its partition. */
  lemma ChosenGetNumberOne(all: seq<Entry>, sel: seq<nat>, k: nat, i: nat)
    requires k < |sel| && i < |all| && forall l :: 0 <= l < |sel| ==> sel[l] < |all|
    requires forall l, l' :: 0 <= l < l' < |sel| ==> all[sel[l]].partner != all[sel[l']].partner
    requires all[i].partner == all[sel[k]].partner
    requires forall j :: 0 <= j < |all| && all[j].partner == all[sel[k]].partner ==> all[j].time <= all[sel[k]].time
    ensures Numbering(all, set x | x in sel)[i] == 1 <==> i == sel[k]
  {
    var chosen := set x | x in sel;
    if i == sel[k] {
      assert Ahead(all, chosen, i) == {};
    } else {
      assert i !in chosen;
      assert Precedes(all, chosen, sel[k], i);
      NumberingFollowsOrder(all, chosen, i, sel[k]);
    }
  }

  lemma OnlyChosenAreFirst(t: seq<Message>, user: string, out: seq<Row>, sel: seq<nat>, i: nat)
    requires Means(t, user, out) && BehindRows(t, user, out, sel)
    requires i < |AllMessages(t, user)| && Numbering(AllMessages(t, user), set x | x in sel)[i] == 1
    ensures i in sel
  {
    var all := AllMessages(t, user);
    assert all[i] in all;
    AllMessagesLists(t, user, all[i]);
    assert HasRow(out, all[i].partner);
    var k :| 0 <= k < |out| && out[k].partner == all[i].partner;
    ChosenGetNumberOne(all, sel, k, i);
  }

  lemma MeaningIsResult(t: seq<Message>, user: string, out: seq<Row>)
    requires Means(t, user, out)
    ensures IsResult(t, user, out)
  {
    var all := AllMessages(t, user);
    var sel := EntriesBehind(t, user, out);
    var chosen := set x | x in sel;
    var rn := Numbering(all, chosen);
    NumberingIsRowNumber(all, chosen);
    forall k | 0 <= k < |sel|
      ensures rn[sel[k]] == 1
      ensures out[k] == Joined(all[sel[k]], UnreadCounts(t, user))
    {
      ChosenGetNumberOne(all, sel, k, sel[k]);
      JoinIsCount(t, user, all[sel[k]]);
    }
    forall i | 0 <= i < |all| && rn[i] == 1
      ensures i in sel
    {
      OnlyChosenAreFirst(t, user, out, sel, i);
    }
    assert Selects(all, rn, sel);
    assert ResultVia(t, user, rn, sel, out);
  }

  /** The query may answer `out` exactly when `out` is the inbox, on any message table. */
  lemma QueryMeansInbox(t: seq<Message>, user: string, out: seq<Row>)
    ensures IsResult(t, user, out) <==> Means(t, user, out)
  {
    if IsResult(t, user, out) {
      var rn, sel :| ResultVia(t, user, rn, sel, out);
      ResultMeans(t, user, rn, sel, out);
    }
    if Means(t, user, out) {
      MeaningIsResult(t, user, out);
    }
  }

  // ---------- There always is an answer ----------

  lemma {:induction false} LatestOf(all: seq<Entry>, s: set<nat>) returns (i: nat)
    requires s != {} && forall x :: x in s ==> x < |all|
    ensures i in s && forall x :: x in s ==> all[x].time <= all[i].time
    decreases s
  {
    i :| i in s;
    if s != {i} {
      var j := LatestOf(all, s - {i});
      if all[j].time > all[i].time {
        i := j;
      }
    }
  }

  lemma {:induction false} ListByTime(all: seq<Entry>, s: set<nat>) returns (sel: seq<nat>)
    requires forall x :: x in s ==> x < |all|
    ensures forall x :: x in sel <==> x in s
    ensures forall k :: 0 <= k < |sel| ==> sel[k] < |all|
    ensures forall k, l :: 0 <= k < l < |sel| ==> sel[k] != sel[l] && all[sel[k]].time >= all[sel[l]].time
    decreases s
  {
    if s == {} {
      sel := [];
    } else {
      var i := LatestOf(all, s);
      var rest := ListByTime(all, s - {i});
      sel := [i] + rest;
      assert forall k :: 0 <= k < |rest| ==> rest[k] in rest && rest[k] in s - {i};
    }
  }

  /** Every table and user have an inbox. */
  lemma QueryHasAnAnswer(t: seq<Message>, user: string) returns (out: seq<Row>)
    ensures IsResult(t, user, out)
  {
    var all := AllMessages(t, user);
    var rn := Numbering(all, {});
    NumberingIsRowNumber(all, {});
    var firsts := set i: nat | i < |all| && rn[i] == 1;
    var sel := ListByTime(all, firsts);
    assert forall k :: 0 <= k < |sel| ==> sel[k] in sel && sel[k] in firsts;
    out := seq(|sel|, k requires 0 <= k < |sel| => Joined(all[sel[k]], UnreadCounts(t, user)));
    assert ResultVia(t, user, rn, sel, out);
  }

  // ---------- Unread counts add up ----------

  function UnreadSum(out: seq<Row>): nat {
    if out == [] then 0 else UnreadSum(out[..|out| - 1]) + out[|out| - 1].unread
  }

  lemma HasRowInit(out: seq<Row>, p: string)
    requires out != []
    requires forall k, l :: 0 <= k < l < |out| ==> out[k].partner != out[l].partner
    ensures var n := |out| - 1;
            && (HasRow(out, p) <==> HasRow(out[..n], p) || out[n].partner == p)
            && !(HasRow(out[..n], p) && out[n].partner == p)
  {
  }

  /** One message more adds one to the sum if its sender is listed, and nothing otherwise. */
  lemma {:induction false} SumOverPartners(t: seq<Message>, user: string, out: seq<Row>, rows: seq<Row>)
    requires t != [] && |rows| == |out|
    requires forall k :: 0 <= k < |out| ==> rows[k].partner == out[k].partner
    requires forall k :: 0 <= k < |out| ==> out[k].unread == CountUnread(t, out[k].partner, user)
    requires forall k :: 0 <= k < |out| ==> rows[k].unread == CountUnread(t[..|t| - 1], out[k].partner, user)
    requires forall k, l :: 0 <= k < l < |out| ==> out[k].partner != out[l].partner
    ensures var m := t[|t| - 1];
            UnreadSum(out) == UnreadSum(rows)
              + if m.receiver == user && m.status != Seen && HasRow(out, m.sender) then 1 else 0
    decreases |out|
  {
    if out != [] {
      var n := |out| - 1;
      SumOverPartners(t, user, out[..n], rows[..n]);
      var m := t[|t| - 1];
      HasRowInit(out, m.sender);
      assert CountUnread(t, out[n].partner, user)
             == CountUnread(t[..|t| - 1], out[n].partner, user) + (if Unread(m, out[n].partner, user) then 1 else 0);
    }
  }

  lemma {:induction false} SumOfCounts(t: seq<Message>, user: string, out: seq<Row>)
    requires forall k :: 0 <= k < |out| ==> out[k].unread == CountUnread(t, out[k].partner, user)
    requires forall k, l :: 0 <= k < l < |out| ==> out[k].partner != out[l].partner
    requires forall m :: m in t && m.receiver == user ==> HasRow(out, m.sender)
    ensures UnreadSum(out) == CountUnreadTo(t, user)
    decreases |t|
  {
    if t == [] {
      SumOfZeros(out);
    } else {
      var init := t[..|t| - 1];
      var rows := seq(|out|, k requires 0 <= k < |out| => out[k].(unread := CountUnread(init, out[k].partner, user)));
      forall m | m in init && m.receiver == user
        ensures HasRow(rows, m.sender)
      {
        var k :| 0 <= k < |out| && out[k].partner == m.sender;
        assert rows[k].partner == m.sender;
      }
      SumOfCounts(init, user, rows);
      SumOverPartners(t, user, out, rows);
      assert t[|t| - 1] in t;
    }
  }

  lemma {:induction false} SumOfZeros(out: seq<Row>)
    requires forall k :: 0 <= k < |out| ==> out[k].unread == 0
    ensures UnreadSum(out) == 0
  {
    if out != [] {
      SumOfZeros(out[..|out| - 1]);
    }
  }

  /** The unread counts of the inbox add up to the messages addressed to the user that are not Seen. */
  lemma UnreadCountsAddUp(t: seq<Message>, user: string, out: seq<Row>)
    requires IsResult(t, user, out)
    ensures UnreadSum(out) == CountUnreadTo(t, user)
  {
    QueryMeansInbox(t, user, out);
    forall m | m in t && m.receiver == user
      ensures HasRow(out, m.sender)
    {
      assert Between(m, user, m.sender);
    }
    SumOfCounts(t, user, out);
  }

  // ---------- Marking a sender as read ----------

  function ClearUnread(out: seq<Row>, partner: string): (r: seq<Row>)
    ensures |r| == |out|
    ensures forall k :: 0 <= k < |out| ==>
              r[k] == if out[k].partner == partner then out[k].(unread := 0) else out[k]
  {
    seq(|out|, k requires 0 <= k < |out| => if out[k].partner == partner then out[k].(unread := 0) else out[k])
  }

  /** The same messages, with statuses free to differ. */
  ghost predicate SameButStatus(t: seq<Message>, t': seq<Message>) {
    |t| == |t'| && forall i :: 0 <= i < |t| ==> t'[i] == t[i].(status := t'[i].status)
  }

  function Recounted(t: seq<Message>, user: string, out: seq<Row>): (r: seq<Row>)
    ensures |r| == |out|
    ensures forall k :: 0 <= k < |out| ==> r[k] == out[k].(unread := CountUnread(t, out[k].partner, user))
  {
    seq(|out|, k requires 0 <= k < |out| => out[k].(unread := CountUnread(t, out[k].partner, user)))
  }

  lemma RecountShows(t: seq<Message>, t': seq<Message>, user: string, r: Row)
    requires SameButStatus(t, t') && Shows(t, user, r)
    ensures Shows(t', user, r.(unread := CountUnread(t', r.partner, user)))
  {
    var m :| m in t && Between(m, user, r.partner) && m.sender == r.lastSender && m.text == r.text && m.createdAt == r.time;
    var i :| 0 <= i < |t| && t[i] == m;
    assert t'[i] in t' && Between(t'[i], user, r.partner);
    forall x | x in t' && Between(x, user, r.partner)
      ensures x.createdAt <= r.time
    {
      var j :| 0 <= j < |t'| && t'[j] == x;
      assert t[j] in t && Between(t[j], user, r.partner);
    }
  }

  /** A status change alters an inbox in its unread counts only. */
  lemma StatusOnlyRecounts(t: seq<Message>, t': seq<Message>, user: string, out: seq<Row>)
    requires SameButStatus(t, t') && Means(t, user, out)
    ensures Means(t', user, Recounted(t', user, out))
  {
    var out' := Recounted(t', user, out);
    forall k | 0 <= k < |out'|
      ensures Shows(t', user, out'[k])
    {
      RecountShows(t, t', user, out[k]);
    }
    forall m, p | m in t' && Between(m, user, p)
      ensures HasRow(out', p)
    {
      var j :| 0 <= j < |t'| && t'[j] == m;
      assert t[j] in t && Between(t[j], user, p);
      assert HasRow(out, p);
      var k :| 0 <= k < |out| && out[k].partner == p;
      assert out'[k].partner == p;
    }
  }

  lemma RecountAfterMarking(t: seq<Message>, sender: string, reader: string, user: string, out: seq<Row>)
    requires forall k :: 0 <= k < |out| ==> out[k].unread == CountUnread(t, out[k].partner, user)
    ensures Recounted(MarkSeen(t, sender, reader), user, out) == if user == reader then ClearUnread(out, sender) else out
  {
    forall k | 0 <= k < |out|
      ensures CountUnread(MarkSeen(t, sender, reader), out[k].partner, user)
              == if out[k].partner == sender && user == reader then 0 else out[k].unread
    {
      MarkSeenCounts(t, sender, reader, out[k].partner, user);
    }
  }

  lemma InboxAfterMarking(t: seq<Message>, sender: string, reader: string, user: string, out: seq<Row>)
    requires IsResult(t, user, out)
    ensures IsResult(MarkSeen(t, sender, reader), user, if user == reader then ClearUnread(out, sender) else out)
  {
    var t' := MarkSeen(t, sender, reader);
    assert SameButStatus(t, t');
    QueryMeansInbox(t, user, out);
    StatusOnlyRecounts(t, t', user, out);
    RecountAfterMarking(t, sender, reader, user, out);
    QueryMeansInbox(t', user, Recounted(t', user, out));
  }

  lemma InboxBeforeMarking(t: seq<Message>, sender: string, reader: string, user: string, after: seq<Row>)
    requires IsResult(MarkSeen(t, sender, reader), user, after)
    ensures IsResult(t, user, Recounted(t, user, after))
    ensures after == if user == reader then ClearUnread(Recounted(t, user, after), sender) else Recounted(t, user, after)
  {
    var t' := MarkSeen(t, sender, reader);
    var out := Recounted(t, user, after);
    assert SameButStatus(t', t);
    QueryMeansInbox(t', user, after);
    StatusOnlyRecounts(t', t, user, after);
    QueryMeansInbox(t, user, out);
    RecountAfterMarking(t, sender, reader, user, out);
    RecountBack(t, t', user, after);
  }

  lemma RecountBack(t: seq<Message>, t': seq<Message>, user: string, after: seq<Row>)
    requires Means(t', user, after)
    ensures Recounted(t', user, Recounted(t, user, after)) == after
  {
  }

  /**
   * Marking `sender` as read: the reader's inboxes afterwards are exactly the inboxes before with that sender's
   * count at 0, and the inboxes of every other user are exactly those before.
   */
  lemma MarkAsReadClearsOneRow(t: seq<Message>, sender: string, reader: string, user: string, after: seq<Row>)
    ensures IsResult(MarkSeen(t, sender, reader), user, after)
            <==> exists out :: IsResult(t, user, out) && after == if user == reader then ClearUnread(out, sender) else out
  {
    if IsResult(MarkSeen(t, sender, reader), user, after) {
      InboxBeforeMarking(t, sender, reader, user, after);
    }
    if out :| IsResult(t, user, out) && after == if user == reader then ClearUnread(out, sender) else out {
      InboxAfterMarking(t, sender, reader, user, out);
    }
  }
}
