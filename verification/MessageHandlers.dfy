/** The REST and socket handlers that write the message table, and what each of them promises. */
module MessageHandlers {
  import opened Common
  import opened Messages
  import opened MessageServer
  import Text

  datatype RestReply =
    | ReceiverRequired | SameUser | InvalidContent | EmptyMessage | TooLong | InvalidEnvelope | NotEncrypted
    | MessageSent(row: Message) | RestFailed

  class MessageService {
    const parse: Parser
    var table: seq<Message>
    var acks: seq<Ack>
    var outputs: seq<Output>
    /** What the suspended messageDelivered handlers have read. */
    var inFlight: map<nat, Message>

    ghost function View(): Server
      reads this
    {
      Server(table, acks, outputs, inFlight)
    }

    constructor (parse: Parser)
      ensures this.parse == parse && View() == INIT
    {
      this.parse := parse;
      table, acks, outputs, inFlight := [], [], [], map[];
    }

    /** POST /send */
    method SendMessage(senderId: string, receiverId: string, message: Raw, at: int, fault: Fault) returns (r: RestReply)
      modifies this`table
      ensures View() == Step(parse, old(View()), RestSend(senderId, receiverId, message, at, fault))
      ensures r.MessageSent? ==>
                && Storable(parse, message) && receiverId != "" && senderId != receiverId
                && r.row == Message(|old(table)|, senderId, receiverId, Text.Trim(message.text), true, NotDelivered, at)
                && table == old(table) + [r.row]
                && CountUnread(table, senderId, receiverId) == CountUnread(old(table), senderId, receiverId) + 1
      ensures !r.MessageSent? && !r.RestFailed? ==>
                table == old(table) && !(Storable(parse, message) && receiverId != "" && senderId != receiverId)
      ensures r.RestFailed? ==> fault.SaveFails? || fault == NotifyFails
      ensures fault == NoFault ==>
                (r.MessageSent? <==>
                   && message.Text? && 1 <= |Text.Trim(message.text)| <= 5000
                   && parse(Text.Trim(message.text)) == Parsed(true, true)
                   && receiverId != "" && senderId != receiverId)
    {
      if receiverId == "" { return ReceiverRequired; }
      if senderId == receiverId { return SameUser; }
      if message == NotAString || message.text == "" { return InvalidContent; }
      var trimmed := Text.Trim(message.text);
      if |trimmed| == 0 { return EmptyMessage; }
      if |trimmed| > MAX_LENGTH { return TooLong; }
      var envelope := parse(trimmed);
      if envelope.Malformed? { return InvalidEnvelope; }
      if !envelope.encrypted || !envelope.bodyIsString { return NotEncrypted; }
      if fault == SaveFails(false) { return RestFailed; }
      var row := NewRow(table, senderId, receiverId, trimmed, at);
      NewRowIsUnread(table, row);
      table := table + [row];
      if fault.SaveFails? || fault == NotifyFails { return RestFailed; }
      return MessageSent(row);
    }

    /**
     * retrieveOrSaveMessage: an id reuses a stored row of this pair, no id stores a new one. Every refusal is
     * acknowledged here; `raised` stands for an exception, acknowledged by the caller.
     */
    method RetrieveOrSave(existingId: Option<nat>, trimmed: string, senderId: Option<string>, receiverId: string, at: int,
                          fault: Fault)
      returns (row: Option<Message>, raised: bool)
      modifies this`table, this`acks
      ensures var sending := RetrieveOrSaved(parse, old(table), existingId, trimmed, senderId, receiverId, at, fault);
              && table == TableAfter(old(table), sending)
              && (raised <==> sending.Raised?)
              && row == (if sending.Stored? then Some(sending.row) else None)
      ensures acks == if row == None && !raised then old(acks) + [AckError] else old(acks)
      ensures raised ==> fault == FindFails || fault.SaveFails? || senderId == None
      ensures row.Some? ==> row.value in table && Reusable(row.value, senderId, receiverId)
      ensures existingId.Some? || (row == None && !raised) ==> table == old(table)
      ensures existingId == None && row.Some? ==>
                && senderId.Some? && IsEnvelope(parse, trimmed)
                && row.value == Message(|old(table)|, senderId.value, receiverId, trimmed, true, NotDelivered, at)
                && table == old(table) + [row.value]
                && CountUnread(table, senderId.value, receiverId) == CountUnread(old(table), senderId.value, receiverId) + 1
    {
      if existingId.Some? {
        if fault == FindFails { return None, true; }
        var i := FindById(table, existingId.value);
        if i < 0 {
          acks := acks + [AckError];
          return None, false;
        }
        var existing := table[i];
        if Some(existing.sender) != senderId || existing.receiver != receiverId {
          acks := acks + [AckError];
          return None, false;
        }
        if !existing.isEncrypted {
          acks := acks + [AckError];
          return None, false;
        }
        return Some(existing), false;
      }
      var envelope := parse(trimmed);
      if envelope.Malformed? || !envelope.encrypted || !envelope.bodyIsString {
        acks := acks + [AckError];
        return None, false;
      }
      // A missing sender violates the column's NOT NULL constraint.
      if fault == SaveFails(false) || senderId == None { return None, true; }
      var saved := NewRow(table, senderId.value, receiverId, trimmed, at);
      NewRowIsUnread(table, saved);
      table := table + [saved];
      if fault.SaveFails? { return None, true; }
      // A failing notification is logged and ignored.
      return Some(saved), false;
    }

    /** The sendMessage event. The sender it claims must be the socket's user. */
    method HandleSendMessage(userId: Option<string>, senderId: Option<string>, receiverId: string, message: Raw,
                             existingId: Option<nat>, at: int, fault: Fault)
      modifies this`table, this`acks, this`outputs
      ensures View() == Step(parse, old(View()), SocketSend(userId, senderId, receiverId, message, existingId, at, fault))
      ensures |acks| == |old(acks)| + 1 && acks[..|old(acks)|] == old(acks)
      ensures var ack := acks[|old(acks)|];
              if ack.AckOk? then
                exists m :: m in table && m.id == ack.id && Reusable(m, userId, receiverId)
                  && outputs == old(outputs) + [TypingOff(receiverId, m.sender), ReceiveMessage(receiverId, m)]
                  && (existingId == None ==>
                        && message.Text? && table == old(table) + [m]
                        && m == Message(|old(table)|, m.sender, receiverId, Text.Trim(message.text), true, NotDelivered, at)
                        && CountUnread(table, m.sender, receiverId) == CountUnread(old(table), m.sender, receiverId) + 1)
              else
                outputs == old(outputs) || outputs == old(outputs) + [ServerError]
      ensures existingId.Some? ==> table == old(table)
      ensures senderId != userId ==> acks[|old(acks)|] == AckError && table == old(table) && outputs == old(outputs)
      ensures fault in {NoFault, NotifyFails} && existingId == None && userId.Some? ==>
                (acks[|old(acks)|].AckOk? <==>
                   && senderId == userId && message.Text? && 1 <= |Text.Trim(message.text)| <= 5000
                   && parse(Text.Trim(message.text)) == Parsed(true, true)
                   && receiverId != "" && userId != Some(receiverId))
      ensures fault in {NoFault, NotifyFails} && existingId.Some? && userId.Some? ==>
                var i := FindById(old(table), existingId.value);
                acks[|old(acks)|].AckOk? <==>
                  && senderId == userId && message.Text? && 1 <= |Text.Trim(message.text)| <= 5000
                  && receiverId != "" && userId != Some(receiverId)
                  && i >= 0 && Reusable(table[i], userId, receiverId)
    {
      if senderId != userId {
        acks := acks + [AckError];
        return;
      }
      if message == NotAString || message.text == "" {
        acks := acks + [AckError];
        return;
      }
      var trimmed := Text.Trim(message.text);
      if |trimmed| == 0 || |trimmed| > MAX_LENGTH {
        acks := acks + [AckError];
        return;
      }
      if receiverId == "" || senderId == Some(receiverId) {
        acks := acks + [AckError];
        return;
      }
      var row, raised := RetrieveOrSave(existingId, trimmed, senderId, receiverId, at, fault);
      if raised {
        acks := acks + [AckError];
        outputs := outputs + [ServerError];
        return;
      }
      if row == None { return; }
      var m := row.value;
      assert Reusable(m, userId, receiverId);
      outputs := outputs + [TypingOff(receiverId, m.sender), ReceiveMessage(receiverId, m)];
      acks := acks + [AckOk(m.id)];
    }

    /** The first half of the messageDelivered event: read the row and keep it until the save. */
    method StartDelivered(op: nat, userId: Option<string>, messageId: Option<nat>, fails: bool)
      requires op !in inFlight
      modifies this`inFlight
      ensures View() == Step(parse, old(View()), DeliveredFind(op, userId, messageId, fails))
      ensures op in inFlight ==> inFlight[op] in table && Some(inFlight[op].receiver) == userId
    {
      if userId == None || userId.value == "" || messageId == None || fails { return; }
      var i := FindById(table, messageId.value);
      if i < 0 || table[i].receiver != userId.value { return; }
      inFlight := inFlight[op := table[i]];
    }

    /** The second half: save the row as it was read, now Delivered, and tell the sender. */
    method EndDelivered(op: nat, fault: Fault)
      modifies this`table, this`outputs, this`inFlight
      ensures View() == Step(parse, old(View()), DeliveredSave(op, fault))
      ensures op !in inFlight
    {
      if op !in inFlight { return; }
      var existing := inFlight[op];
      inFlight := inFlight - {op};
      var messageId, userId := existing.id, existing.receiver;
      if existing.status == NotDelivered {
        existing := existing.(status := Delivered);
        if fault == SaveFails(false) { return; }
        var i := FindById(table, existing.id);
        if i >= 0 {
          table := table[i := existing];
        }
        if fault.SaveFails? { return; }
      }
      outputs := outputs + [DeliveredReceipt(existing.sender, messageId, userId)];
    }

    /** The messageDelivered event without anything in between: the receiver confirms; the sender gets a receipt. */
    method HandleMessageDelivered(op: nat, userId: Option<string>, messageId: Option<nat>, fault: Fault)
      requires op !in inFlight
      modifies this`table, this`outputs, this`inFlight
      ensures View() == Step(parse, Step(parse, old(View()), DeliveredFind(op, userId, messageId, fault == FindFails)),
                             DeliveredSave(op, fault))
      ensures inFlight == old(inFlight)
      ensures outputs == old(outputs) ||
                exists i :: 0 <= i < |table| && Some(table[i].id) == messageId && Some(table[i].receiver) == userId
                  && table[i].status in {Delivered, Seen}
                  && outputs == old(outputs) + [DeliveredReceipt(table[i].sender, table[i].id, table[i].receiver)]
      ensures |table| == |old(table)|
      ensures forall i :: 0 <= i < |table| && table[i] != old(table)[i] ==>
                && table[i] == old(table)[i].(status := Delivered) && old(table)[i].status == NotDelivered
                && Some(table[i].id) == messageId && Some(table[i].receiver) == userId
      ensures !Absent(userId) && messageId.Some? && fault in {NoFault, NotifyFails} ==>
                var i := FindById(old(table), messageId.value);
                outputs != old(outputs) <==> i >= 0 && Some(old(table)[i].receiver) == userId
    {
      DeliveredTogether(parse, View(), op, userId, messageId, fault);
      StartDelivered(op, userId, messageId, fault == FindFails);
      EndDelivered(op, fault);
      ghost var i := if messageId.Some? then FindById(old(table), messageId.value) else -1;
      assert outputs != old(outputs) ==>
          i >= 0 && outputs == old(outputs) + [DeliveredReceipt(table[i].sender, table[i].id, table[i].receiver)];
    }

    /** The markRead event. */
    method HandleMarkRead(userId: Option<string>, senderId: Option<string>, fault: Fault)
      modifies this`table, this`outputs
      ensures View() == Step(parse, old(View()), SocketMarkRead(userId, senderId, fault))
      ensures fault == NoFault && !Absent(userId) && !Absent(senderId) ==>
                && table == MarkSeen(old(table), senderId.value, userId.value)
                && outputs == old(outputs) + [ReadReceipt(senderId.value, userId.value)]
      ensures Absent(userId) || Absent(senderId) ==> table == old(table) && outputs == old(outputs)
      ensures outputs != old(outputs) ==> CountUnread(table, senderId.value, userId.value) == 0
    {
      if userId == None || userId.value == "" || senderId == None || senderId.value == "" { return; }
      if fault == SaveFails(false) || fault == FindFails { return; }
      MarkSeenCounts(table, senderId.value, userId.value, senderId.value, userId.value);
      table := MarkSeen(table, senderId.value, userId.value);
      if fault.SaveFails? { return; }
      outputs := outputs + [ReadReceipt(senderId.value, userId.value)];
    }

    /** PUT /messages/read/:senderId; the result is the number of rows changed, or None for a refusal or a failure. */
    method MarkAsRead(receiverId: string, senderId: string, fails: bool) returns (modified: Option<nat>)
      modifies this`table
      ensures View() == Step(parse, old(View()), RestMarkRead(receiverId, senderId, fails))
      ensures modified.Some? <==> senderId != "" && !fails
      ensures modified.Some? ==>
                && modified.value == CountUnread(old(table), senderId, receiverId)
                && CountUnread(table, senderId, receiverId) == 0
      ensures modified == None ==> table == old(table)
    {
      if senderId == "" || fails { return None; }
      var before := table;
      table := MarkSeen(before, senderId, receiverId);
      modified := Some(Changed(before, table));
      RowsChanged(before, senderId, receiverId);
      MarkSeenCounts(before, senderId, receiverId, senderId, receiverId);
    }
  }
}
