/**
 * The message handlers as steps of one server. Every handler is a single step, because it makes at most one write,
 * except `messageDelivered`: it reads a row, waits, and then saves what it read, so it is two steps and others may
 * come in between.
 */
module MessageServer {
  import opened Common
  import opened Messages
  import Text

  // ---------- Requests ----------

  const MAX_LENGTH := 5000

  /** What JSON.parse makes of a text; JSON parsing itself is not part of this model. */
  datatype Envelope = Malformed | Parsed(encrypted: bool, bodyIsString: bool)

  type Parser = string -> Envelope

  /** The `message` field of a request. */
  datatype Raw = NotAString | Text(text: string)

  /** Where a database or notification call fails; a failing save may have been stored all the same. */
  datatype Fault = NoFault | FindFails | SaveFails(stored: bool) | NotifyFails

  datatype Ack = AckOk(id: nat) | AckError

  datatype Output =
    | TypingOff(room: string, user: string)
    | ReceiveMessage(room: string, row: Message)
    | DeliveredReceipt(room: string, messageId: nat, reader: string)
    | ReadReceipt(room: string, reader: string)
    | ServerError

  predicate IsEnvelope(parse: Parser, text: string) {
    parse(text) == Parsed(true, true)
  }

  predicate ValidLength(text: string) {
    1 <= |text| <= MAX_LENGTH
  }

  /** The text a request may store, if it may store any. */
  predicate Storable(parse: Parser, raw: Raw) {
    raw.Text? && ValidLength(Text.Trim(raw.text)) && IsEnvelope(parse, Text.Trim(raw.text))
  }

  /** `!id`: absent or empty. */
  predicate Absent(id: Option<string>) {
    id == None || id == Some("")
  }

  // ---------- Rows ----------

  function NewRow(t: seq<Message>, sender: string, receiver: string, text: string, at: int): Message {
    Message(|t|, sender, receiver, text, true, NotDelivered, at)
  }

  /** A row that is added with a status other than Seen is one more unread message of its pair. */
  lemma NewRowIsUnread(t: seq<Message>, row: Message)
    requires row.status != Seen
    ensures CountUnread(t + [row], row.sender, row.receiver) == CountUnread(t, row.sender, row.receiver) + 1
  {
    assert (t + [row])[..|t|] == t;
  }

  function FindById(t: seq<Message>, id: nat): (i: int)
    ensures -1 <= i < |t|
    ensures i >= 0 ==> t[i].id == id
    ensures i < 0 ==> forall j :: 0 <= j < |t| ==> t[j].id != id
  {
    if t == [] then -1
    else if t[|t| - 1].id == id then |t| - 1
    else FindById(t[..|t| - 1], id)
  }

  /** save() of an entity that was read before: its row is overwritten. */
  function Overwrite(t: seq<Message>, row: Message): seq<Message> {
    var i := FindById(t, row.id);
    if i >= 0 then t[i := row] else t
  }

  /** The stored row may be sent again by this pair. */
  predicate Reusable(m: Message, sender: Option<string>, receiver: string) {
    Some(m.sender) == sender && m.receiver == receiver && m.isEncrypted
  }

  // ---------- Sending ----------

  /** What becomes of a message to send: refused, an exception, or a stored row; with the table afterwards. */
  datatype Sending = Refused | Raised(table: seq<Message>) | Stored(row: Message, table: seq<Message>)

  function RetrieveOrSaved(parse: Parser, t: seq<Message>, existingId: Option<nat>, trimmed: string,
                           sender: Option<string>, receiver: string, at: int, fault: Fault): Sending {
    if existingId.Some? then
      var i := FindById(t, existingId.value);
      if fault == FindFails then Raised(t)
      else if i >= 0 && Reusable(t[i], sender, receiver) then Stored(t[i], t)
      else Refused
    else if !IsEnvelope(parse, trimmed) then Refused
    else if fault == SaveFails(false) || sender == None then Raised(t)
    else
      var row := NewRow(t, sender.value, receiver, trimmed, at);
      if fault.SaveFails? then Raised(t + [row]) else Stored(row, t + [row])
  }

  function SocketSending(parse: Parser, t: seq<Message>, user: Option<string>, claimed: Option<string>, receiver: string,
                         message: Raw, existingId: Option<nat>, at: int, fault: Fault): Sending {
    if claimed != user || message == NotAString || !ValidLength(Text.Trim(message.text))
       || receiver == "" || claimed == Some(receiver)
    then Refused
    else RetrieveOrSaved(parse, t, existingId, Text.Trim(message.text), user, receiver, at, fault)
  }

  function RestSending(parse: Parser, t: seq<Message>, sender: string, receiver: string, message: Raw, at: int,
                       fault: Fault): Sending {
    if !Storable(parse, message) || receiver == "" || sender == receiver then Refused
    else if fault == SaveFails(false) then Raised(t)
    else
      var row := NewRow(t, sender, receiver, Text.Trim(message.text), at);
      if fault.SaveFails? || fault == NotifyFails then Raised(t + [row]) else Stored(row, t + [row])
  }

  function TableAfter(t: seq<Message>, sending: Sending): seq<Message> {
    if sending == Refused then t else sending.table
  }

  // ---------- The server ----------

  /** `inFlight` holds, for every messageDelivered handler between its read and its save, the row it has read. */
  datatype Server = Server(table: seq<Message>, acks: seq<Ack>, outputs: seq<Output>, inFlight: map<nat, Message>)

  const INIT := Server([], [], [], map[])

  datatype Event =
    | RestSend(sender: string, receiver: string, message: Raw, at: int, fault: Fault)
    | SocketSend(user: Option<string>, claimed: Option<string>, receiver: string, message: Raw,
                 existingId: Option<nat>, at: int, fault: Fault)
    | DeliveredFind(op: nat, user: Option<string>, messageId: Option<nat>, fails: bool)
    | DeliveredSave(op: nat, fault: Fault)
    | SocketMarkRead(user: Option<string>, senderId: Option<string>, fault: Fault)
    | RestMarkRead(reader: string, sender: string, fails: bool)

  function Emit(s: Server, outputs: seq<Output>): Server {
    s.(outputs := s.outputs + outputs)
  }

  /** The row that messageDelivered goes on with: one that is addressed to the user. */
  function DeliveredRow(t: seq<Message>, user: Option<string>, messageId: Option<nat>, fails: bool): Option<Message> {
    if Absent(user) || messageId == None || fails then None
    else
      var i := FindById(t, messageId.value);
      if i >= 0 && t[i].receiver == user.value then Some(t[i]) else None
  }

  /** The rest of messageDelivered, with the row it has read. */
  function FinishDelivered(s: Server, existing: Message, fault: Fault): Server {
    var receipt := [DeliveredReceipt(existing.sender, existing.id, existing.receiver)];
    if existing.status != NotDelivered then Emit(s, receipt)
    else if fault == SaveFails(false) then s
    else
      var saved := s.(table := Overwrite(s.table, existing.(status := Delivered)));
      if fault.SaveFails? then saved else Emit(saved, receipt)
  }

  function Step(parse: Parser, s: Server, e: Event): Server {
    match e
    case RestSend(sender, receiver, message, at, fault) =>
      s.(table := TableAfter(s.table, RestSending(parse, s.table, sender, receiver, message, at, fault)))
    case SocketSend(user, claimed, receiver, message, existingId, at, fault) =>
      (match SocketSending(parse, s.table, user, claimed, receiver, message, existingId, at, fault)
       case Refused => s.(acks := s.acks + [AckError])
       case Raised(t) => Emit(s.(table := t, acks := s.acks + [AckError]), [ServerError])
       case Stored(row, t) =>
         Emit(s.(table := t, acks := s.acks + [AckOk(row.id)]), [TypingOff(receiver, row.sender), ReceiveMessage(receiver, row)]))
    case DeliveredFind(op, user, messageId, fails) =>
      var existing := DeliveredRow(s.table, user, messageId, fails);
      if op !in s.inFlight && existing.Some? then s.(inFlight := s.inFlight[op := existing.value]) else s
    case DeliveredSave(op, fault) =>
      if op in s.inFlight then FinishDelivered(s.(inFlight := s.inFlight - {op}), s.inFlight[op], fault) else s
    case SocketMarkRead(user, sender, fault) =>
      if Absent(user) || Absent(sender) || fault in {FindFails, SaveFails(false)} then s
      else
        var marked := s.(table := MarkSeen(s.table, sender.value, user.value));
        if fault.SaveFails? then marked else Emit(marked, [ReadReceipt(sender.value, user.value)])
    case RestMarkRead(reader, sender, fails) =>
      if sender == "" || fails then s else s.(table := MarkSeen(s.table, sender, reader))
  }

  function Run(parse: Parser, s: Server, es: seq<Event>): Server
    decreases |es|
  {
    if es == [] then s else Run(parse, Step(parse, s, es[0]), es[1..])
  }

  /** Without anything in between, messageDelivered finishes with the row that the table holds. */
  lemma DeliveredTogether(parse: Parser, s: Server, op: nat, user: Option<string>, messageId: Option<nat>, fault: Fault)
    requires op !in s.inFlight
    ensures var s' := Step(parse, Step(parse, s, DeliveredFind(op, user, messageId, fault == FindFails)),
                           DeliveredSave(op, fault));
            var existing := DeliveredRow(s.table, user, messageId, fault == FindFails);
            s' == if existing == None then s else FinishDelivered(s, existing.value, fault)
  {
    var existing := DeliveredRow(s.table, user, messageId, fault == FindFails);
    if existing.Some? {
      assert s.inFlight[op := existing.value] - {op} == s.inFlight;
    }
  }
}
