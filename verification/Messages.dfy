/** The `messages` table. */
module Messages {
  datatype Status = NotDelivered | Delivered | Seen

  datatype Message = Message(
    id: nat,
    sender: string,
    receiver: string,
    text: string,
    isEncrypted: bool,
    status: Status,
    createdAt: int)

  function Rank(s: Status): nat {
    match s
    case NotDelivered => 0
    case Delivered => 1
    case Seen => 2
  }

  /** `m` is a message between the two users, in either direction. */
  predicate Between(m: Message, a: string, b: string) {
    (m.sender == a && m.receiver == b) || (m.sender == b && m.receiver == a)
  }

  // ---------- Unread messages ----------

  /** Not yet Seen, from `sender` to `receiver`. */
  predicate Unread(m: Message, sender: string, receiver: string) {
    m.sender == sender && m.receiver == receiver && m.status != Seen
  }

  function CountUnread(t: seq<Message>, sender: string, receiver: string): nat {
    if t == [] then 0
    else CountUnread(t[..|t| - 1], sender, receiver) + (if Unread(t[|t| - 1], sender, receiver) then 1 else 0)
  }

  /** All messages to `receiver` that are not Seen. */
  function CountUnreadTo(t: seq<Message>, receiver: string): nat {
    if t == [] then 0
    else CountUnreadTo(t[..|t| - 1], receiver)
         + (if t[|t| - 1].receiver == receiver && t[|t| - 1].status != Seen then 1 else 0)
  }

  lemma {:induction false} CountPositiveIff(t: seq<Message>, sender: string, receiver: string)
    ensures CountUnread(t, sender, receiver) > 0 <==> exists m :: m in t && Unread(m, sender, receiver)
  {
    if t != [] {
      var init, last := t[..|t| - 1], t[|t| - 1];
      CountPositiveIff(init, sender, receiver);
      assert forall m :: m in t <==> m in init || m == last;
    }
  }

  // ---------- Marking as Seen ----------

  /** UPDATE ... SET status = 'Seen' WHERE senderId, receiverId, status != 'Seen' */
  function MarkSeen(t: seq<Message>, sender: string, receiver: string): (r: seq<Message>)
    ensures |r| == |t|
    ensures forall i :: 0 <= i < |t| ==>
              r[i] == if Unread(t[i], sender, receiver) then t[i].(status := Seen) else t[i]
  {
    seq(|t|, i requires 0 <= i < |t| => if Unread(t[i], sender, receiver) then t[i].(status := Seen) else t[i])
  }

  /** After marking one pair, that pair has no unread message; every other count stays. */
  lemma {:induction false} MarkSeenCounts(t: seq<Message>, sender: string, receiver: string, p: string, u: string)
    ensures CountUnread(MarkSeen(t, sender, receiver), p, u)
            == if p == sender && u == receiver then 0 else CountUnread(t, p, u)
  {
    if t != [] {
      var init := t[..|t| - 1];
      MarkSeenCounts(init, sender, receiver, p, u);
      assert MarkSeen(t, sender, receiver)[..|t| - 1] == MarkSeen(init, sender, receiver);
    }
  }

  /** The number of rows in which two versions of the table differ. */
  function Changed(a: seq<Message>, b: seq<Message>): nat
    requires |a| == |b|
  {
    if a == [] then 0
    else Changed(a[..|a| - 1], b[..|b| - 1]) + (if a[|a| - 1] != b[|b| - 1] then 1 else 0)
  }

  /** The number of rows the update changes is the unread count of the pair before it. */
  lemma {:induction false} RowsChanged(t: seq<Message>, sender: string, receiver: string)
    ensures Changed(t, MarkSeen(t, sender, receiver)) == CountUnread(t, sender, receiver)
  {
    if t != [] {
      var init := t[..|t| - 1];
      RowsChanged(init, sender, receiver);
      assert MarkSeen(t, sender, receiver)[..|t| - 1] == MarkSeen(init, sender, receiver);
    }
  }
}
