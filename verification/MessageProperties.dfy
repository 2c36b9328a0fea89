/** What holds of every run of the message handlers, whatever fails and however their steps interleave. */
module MessageProperties {
  import opened Common
  import opened Messages
  import opened MessageServer
  import Text

  // ---------- The table grows, and rows change in their status only ----------

  /** What every stored row satisfies. */
  ghost predicate RowOk(parse: Parser, m: Message) {
    && m.isEncrypted && m.sender != m.receiver && m.receiver != ""
    && Text.IsTrimmed(m.text) && 1 <= |m.text| <= 5000 && parse(m.text) == Parsed(true, true)
  }

  ghost predicate TableOk(parse: Parser, t: seq<Message>) {
    forall i :: 0 <= i < |t| ==> RowOk(parse, t[i]) && t[i].id == i
  }

  /** `t` has the row, with a status that may differ but has not gone back to NotDelivered. */
  ghost predicate Has(t: seq<Message>, row: Message) {
    && row.id < |t| && t[row.id] == row.(status := t[row.id].status)
    && (row.status != NotDelivered ==> t[row.id].status != NotDelivered)
  }

  ghost predicate Later(t: seq<Message>, t': seq<Message>) {
    |t| <= |t'| && forall i :: 0 <= i < |t| ==>
      && t'[i] == t[i].(status := t'[i].status)
      && (t[i].status != NotDelivered ==> t'[i].status != NotDelivered)
  }

  /** What an output says is so: receipts go to the sender of a row that the reader has, messages to its receiver. */
  ghost predicate OutputOk(t: seq<Message>, x: Output) {
    match x
    case DeliveredReceipt(room, id, reader) =>
      id < |t| && t[id].sender == room && t[id].receiver == reader && t[id].status in {Delivered, Seen}
    case ReceiveMessage(room, row) => Has(t, row) && row.receiver == room
    case _ => true
  }

  function AcknowledgedIds(acks: seq<Ack>): seq<nat> {
    if acks == [] then []
    else AcknowledgedIds(acks[..|acks| - 1]) + (if acks[|acks| - 1].AckOk? then [acks[|acks| - 1].id] else [])
  }

  function PassedOnIds(outputs: seq<Output>): seq<nat> {
    if outputs == [] then []
    else
      var last := outputs[|outputs| - 1];
      PassedOnIds(outputs[..|outputs| - 1]) + (if last.ReceiveMessage? then [last.row.id] else [])
  }

  ghost predicate Inv(parse: Parser, s: Server) {
    && TableOk(parse, s.table)
    && (forall op :: op in s.inFlight ==> Has(s.table, s.inFlight[op]))
    && (forall k :: 0 <= k < |s.outputs| ==> OutputOk(s.table, s.outputs[k]))
    && AcknowledgedIds(s.acks) == PassedOnIds(s.outputs)
  }

  // ---------- Every step keeps the invariant ----------

  lemma OutputsStayTrue(t: seq<Message>, t': seq<Message>, x: Output)
    requires Later(t, t') && OutputOk(t, x)
    ensures OutputOk(t', x)
  {
  }

  lemma FindsItsRow(parse: Parser, t: seq<Message>, id: nat)
    requires TableOk(parse, t)
    ensures FindById(t, id) == if id < |t| then id else -1
  {
  }

  /** What sending leaves: an acceptable table, and a row of this pair to pass on. */
  ghost predicate SendingOk(parse: Parser, t: seq<Message>, receiver: string, sending: Sending) {
    && TableOk(parse, TableAfter(t, sending)) && Later(t, TableAfter(t, sending))
    && (sending.Stored? ==> Has(sending.table, sending.row) && sending.row.receiver == receiver)
  }

  lemma InsertOk(parse: Parser, t: seq<Message>, sender: string, receiver: string, raw: string, at: int)
    requires TableOk(parse, t) && ValidLength(Text.Trim(raw)) && IsEnvelope(parse, Text.Trim(raw))
    requires receiver != "" && sender != receiver
    ensures var row := NewRow(t, sender, receiver, Text.Trim(raw), at);
            TableOk(parse, t + [row]) && Later(t, t + [row]) && Has(t + [row], row)
  {
    Text.TrimTrims(raw);
  }

  lemma SocketSendingOk(parse: Parser, t: seq<Message>, e: Event)
    requires TableOk(parse, t) && e.SocketSend?
    ensures SendingOk(parse, t, e.receiver,
                      SocketSending(parse, t, e.user, e.claimed, e.receiver, e.message, e.existingId, e.at, e.fault))
  {
    var sending := SocketSending(parse, t, e.user, e.claimed, e.receiver, e.message, e.existingId, e.at, e.fault);
    if sending != Refused && e.existingId == None && e.user.Some? {
      InsertOk(parse, t, e.user.value, e.receiver, e.message.text, e.at);
    }
  }

  lemma RestSendingOk(parse: Parser, t: seq<Message>, e: Event)
    requires TableOk(parse, t) && e.RestSend?
    ensures SendingOk(parse, t, e.receiver, RestSending(parse, t, e.sender, e.receiver, e.message, e.at, e.fault))
  {
    if RestSending(parse, t, e.sender, e.receiver, e.message, e.at, e.fault) != Refused {
      InsertOk(parse, t, e.sender, e.receiver, e.message.text, e.at);
    }
  }

  /** What messageDelivered saves is the row with the status Delivered, whatever status the row has by now. */
  lemma SaveDeliveredRow(parse: Parser, t: seq<Message>, existing: Message)
    requires TableOk(parse, t) && Has(t, existing)
    ensures var id := existing.id;
            && Overwrite(t, existing.(status := Delivered)) == t[id := t[id].(status := Delivered)]
            && TableOk(parse, t[id := t[id].(status := Delivered)])
            && Later(t, t[id := t[id].(status := Delivered)])
  {
    FindsItsRow(parse, t, existing.id);
  }

  lemma MarkSeenIsLater(parse: Parser, t: seq<Message>, sender: string, receiver: string)
    requires TableOk(parse, t)
    ensures TableOk(parse, MarkSeen(t, sender, receiver)) && Later(t, MarkSeen(t, sender, receiver))
  {
  }

  /** The table after a step: acceptable, and later than the one before. */
  lemma StepTable(parse: Parser, s: Server, e: Event)
    requires Inv(parse, s)
    ensures TableOk(parse, Step(parse, s, e).table) && Later(s.table, Step(parse, s, e).table)
  {
    match e
    case RestSend(_, _, _, _, _) => RestSendingOk(parse, s.table, e);
    case SocketSend(_, _, _, _, _, _, _) => SocketSendTable(parse, s, e);
    case DeliveredFind(_, _, _, _) =>
    case DeliveredSave(_, _) => DeliveredSaveTable(parse, s, e);
    case SocketMarkRead(user, sender, _) =>
      if !Absent(user) && !Absent(sender) { MarkSeenIsLater(parse, s.table, sender.value, user.value); }
    case RestMarkRead(reader, sender, _) => MarkSeenIsLater(parse, s.table, sender, reader);
  }

  lemma SocketSendTable(parse: Parser, s: Server, e: Event)
    requires Inv(parse, s) && e.SocketSend?
    ensures TableOk(parse, Step(parse, s, e).table) && Later(s.table, Step(parse, s, e).table)
  {
    SocketSendingOk(parse, s.table, e);
  }

  lemma DeliveredSaveTable(parse: Parser, s: Server, e: Event)
    requires Inv(parse, s) && e.DeliveredSave?
    ensures TableOk(parse, Step(parse, s, e).table) && Later(s.table, Step(parse, s, e).table)
  {
    if e.op in s.inFlight {
      SaveDeliveredRow(parse, s.table, s.inFlight[e.op]);
    }
  }

  lemma AcksSnoc(acks: seq<Ack>, x: Ack)
    ensures AcknowledgedIds(acks + [x]) == AcknowledgedIds(acks) + (if x.AckOk? then [x.id] else [])
  {
  }

  lemma OutputsSnoc(outputs: seq<Output>, x: Output)
    ensures PassedOnIds(outputs + [x]) == PassedOnIds(outputs) + (if x.ReceiveMessage? then [x.row.id] else [])
  {
  }

  /** What a step sends: nothing, or outputs that are true afterwards; acknowledgements and messages in step. */
  ghost predicate SendsOk(s: Server, s': Server) {
    && s.outputs <= s'.outputs
    && (forall k :: |s.outputs| <= k < |s'.outputs| ==> OutputOk(s'.table, s'.outputs[k]))
    && (AcknowledgedIds(s.acks) == PassedOnIds(s.outputs) ==> AcknowledgedIds(s'.acks) == PassedOnIds(s'.outputs))
  }

  lemma StoredSendsOk(parse: Parser, s: Server, e: Event, row: Message, t: seq<Message>)
    requires Inv(parse, s) && e.SocketSend?
    requires SocketSending(parse, s.table, e.user, e.claimed, e.receiver, e.message, e.existingId, e.at, e.fault)
             == Stored(row, t)
    ensures SendsOk(s, Step(parse, s, e))
  {
    SocketSendingOk(parse, s.table, e);
    var typing, message := TypingOff(e.receiver, row.sender), ReceiveMessage(e.receiver, row);
    AcksSnoc(s.acks, AckOk(row.id));
    OutputsSnoc(s.outputs, typing);
    OutputsSnoc(s.outputs + [typing], message);
    assert s.outputs + [typing, message] == s.outputs + [typing] + [message];
  }

  lemma SocketSendSendsOk(parse: Parser, s: Server, e: Event)
    requires Inv(parse, s) && e.SocketSend?
    ensures SendsOk(s, Step(parse, s, e))
  {
    match SocketSending(parse, s.table, e.user, e.claimed, e.receiver, e.message, e.existingId, e.at, e.fault)
    case Refused => AcksSnoc(s.acks, AckError);
    case Raised(_) =>
      AcksSnoc(s.acks, AckError);
      OutputsSnoc(s.outputs, ServerError);
    case Stored(row, t) => StoredSendsOk(parse, s, e, row, t);
  }

  lemma DeliveredSaveSendsOk(parse: Parser, s: Server, e: Event)
    requires Inv(parse, s) && e.DeliveredSave?
    ensures SendsOk(s, Step(parse, s, e))
  {
    if e.op in s.inFlight {
      var existing := s.inFlight[e.op];
      SaveDeliveredRow(parse, s.table, existing);
      OutputsSnoc(s.outputs, DeliveredReceipt(existing.sender, existing.id, existing.receiver));
    }
  }

  lemma MarkReadSendsOk(parse: Parser, s: Server, e: Event)
    requires e.SocketMarkRead?
    ensures SendsOk(s, Step(parse, s, e))
  {
    if !Absent(e.user) && !Absent(e.senderId) {
      OutputsSnoc(s.outputs, ReadReceipt(e.senderId.value, e.user.value));
    }
  }

  lemma StepSendsOk(parse: Parser, s: Server, e: Event)
    requires Inv(parse, s)
    ensures SendsOk(s, Step(parse, s, e))
  {
    if e.SocketSend? {
      SocketSendSendsOk(parse, s, e);
    } else if e.DeliveredSave? {
      DeliveredSaveSendsOk(parse, s, e);
    } else if e.SocketMarkRead? {
      MarkReadSendsOk(parse, s, e);
    } else {
      assert Step(parse, s, e).outputs == s.outputs && Step(parse, s, e).acks == s.acks;
    }
  }

  lemma StepReads(parse: Parser, s: Server, e: Event, op: nat)
    requires Inv(parse, s) && op in Step(parse, s, e).inFlight
    ensures Has(s.table, Step(parse, s, e).inFlight[op])
  {
    if e.DeliveredFind? && op !in s.inFlight {
      FindsItsRow(parse, s.table, e.messageId.value);
    }
  }

  lemma StepKeepsInv(parse: Parser, s: Server, e: Event)
    requires Inv(parse, s)
    ensures Inv(parse, Step(parse, s, e))
  {
    var s' := Step(parse, s, e);
    StepTable(parse, s, e);
    StepSendsOk(parse, s, e);
    forall op | op in s'.inFlight
      ensures Has(s'.table, s'.inFlight[op])
    {
      StepReads(parse, s, e, op);
    }
    forall k | 0 <= k < |s'.outputs|
      ensures OutputOk(s'.table, s'.outputs[k])
    {
      if k < |s.outputs| {
        assert s'.outputs[k] == s.outputs[k];
        OutputsStayTrue(s.table, s'.table, s.outputs[k]);
      }
    }
  }

  lemma {:induction false} RunKeepsInv(parse: Parser, s: Server, es: seq<Event>)
    requires Inv(parse, s)
    ensures Inv(parse, Run(parse, s, es))
    ensures Later(s.table, Run(parse, s, es).table) && s.outputs <= Run(parse, s, es).outputs
    decreases |es|
  {
    if es != [] {
      var s1 := Step(parse, s, es[0]);
      StepKeepsInv(parse, s, es[0]);
      StepTable(parse, s, es[0]);
      StepSendsOk(parse, s, es[0]);
      RunKeepsInv(parse, s1, es[1..]);
      LaterComposes(s.table, s1.table, Run(parse, s1, es[1..]).table);
    }
  }

  lemma LaterComposes(a: seq<Message>, b: seq<Message>, c: seq<Message>)
    requires Later(a, b) && Later(b, c)
    ensures Later(a, c)
  {
  }

  // ---------- Every run ----------

  /** In every run from an empty table every stored row is an encrypted, trimmed, bounded envelope between two users. */
  lemma RowsAreAlwaysEnvelopes(parse: Parser, es: seq<Event>)
    ensures TableOk(parse, Run(parse, INIT, es).table)
  {
    RunKeepsInv(parse, INIT, es);
  }

  /**
   * Every delivered receipt ever sent went to the sender of its row and names its receiver, and from then on, however
   * the run goes on, the row is Delivered or Seen. Every message passed on went to the receiver of a stored row.
   */
  lemma ReceiptsStayTrue(parse: Parser, es: seq<Event>, more: seq<Event>, x: Output)
    requires x in Run(parse, INIT, es).outputs
    ensures OutputOk(Run(parse, INIT, es).table, x)
    ensures OutputOk(Run(parse, Run(parse, INIT, es), more).table, x)
  {
    var s := Run(parse, INIT, es);
    RunKeepsInv(parse, INIT, es);
    RunKeepsInv(parse, s, more);
    OutputsStayTrue(s.table, Run(parse, s, more).table, x);
  }

  function Sends(es: seq<Event>): nat {
    if es == [] then 0 else (if es[0].SocketSend? then 1 else 0) + Sends(es[1..])
  }

  lemma {:induction false} OneAckPerSend(parse: Parser, s: Server, es: seq<Event>)
    ensures |Run(parse, s, es).acks| == |s.acks| + Sends(es)
    decreases |es|
  {
    if es != [] {
      OneAckPerSend(parse, Step(parse, s, es[0]), es[1..]);
    }
  }

  /**
   * In every run each sendMessage event is acknowledged exactly once, and the ids acknowledged as sent are, in order,
   * those of the messages passed on to their receivers.
   */
  lemma EverySendIsAcknowledgedOnce(parse: Parser, es: seq<Event>)
    ensures var s := Run(parse, INIT, es);
            |s.acks| == Sends(es) && AcknowledgedIds(s.acks) == PassedOnIds(s.outputs)
  {
    OneAckPerSend(parse, INIT, es);
    RunKeepsInv(parse, INIT, es);
  }

  // ---------- How a row begins, and what delivers it ----------

  /** The event marks row `i`: a save of messageDelivered for it, or a markRead of its pair by its receiver. */
  predicate Marks(s: Server, e: Event, i: nat) {
    i < |s.table| &&
    match e
    case DeliveredSave(op, fault) => op in s.inFlight && s.inFlight[op].id == i && fault != SaveFails(false)
    case SocketMarkRead(user, sender, fault) =>
      && user == Some(s.table[i].receiver) && sender == Some(s.table[i].sender)
      && s.table[i].receiver != "" && s.table[i].sender != "" && fault !in {FindFails, SaveFails(false)}
    case RestMarkRead(reader, sender, fails) =>
      reader == s.table[i].receiver && sender == s.table[i].sender && sender != "" && !fails
    case _ => false
  }

  ghost predicate NeverMarked(parse: Parser, s: Server, es: seq<Event>, i: nat)
    decreases |es|
  {
    es != [] ==> !Marks(s, es[0], i) && NeverMarked(parse, Step(parse, s, es[0]), es[1..], i)
  }

  lemma SavesMark(parse: Parser, s: Server, e: Event, i: nat)
    requires Inv(parse, s) && e.DeliveredSave? && i < |s.table|
    ensures i < |Step(parse, s, e).table|
    ensures Step(parse, s, e).table[i].status == NotDelivered <==> s.table[i].status == NotDelivered && !Marks(s, e, i)
  {
    if e.op in s.inFlight {
      SaveDeliveredRow(parse, s.table, s.inFlight[e.op]);
    }
  }

  lemma MarkReadsMark(parse: Parser, s: Server, e: Event, i: nat)
    requires (e.SocketMarkRead? || e.RestMarkRead?) && i < |s.table|
    ensures i < |Step(parse, s, e).table|
    ensures Step(parse, s, e).table[i].status == NotDelivered <==> s.table[i].status == NotDelivered && !Marks(s, e, i)
  {
  }

  /** Rows that a step adds begin as NotDelivered. */
  lemma SendsAddNotDelivered(parse: Parser, s: Server, e: Event)
    requires e.RestSend? || e.SocketSend?
    ensures s.table <= Step(parse, s, e).table
    ensures forall i :: |s.table| <= i < |Step(parse, s, e).table| ==> Step(parse, s, e).table[i].status == NotDelivered
  {
  }

  lemma StepMarksIff(parse: Parser, s: Server, e: Event, i: nat)
    requires Inv(parse, s) && i < |Step(parse, s, e).table|
    ensures Step(parse, s, e).table[i].status == NotDelivered
            <==> (i < |s.table| ==> s.table[i].status == NotDelivered) && !Marks(s, e, i)
  {
    StepTable(parse, s, e);
    if e.DeliveredSave? {
      if i < |s.table| { SavesMark(parse, s, e, i); }
    } else if e.SocketMarkRead? || e.RestMarkRead? {
      if i < |s.table| { MarkReadsMark(parse, s, e, i); }
    } else if e.RestSend? || e.SocketSend? {
      SendsAddNotDelivered(parse, s, e);
    }
  }

  lemma {:induction false} StatusFollowsMarks(parse: Parser, s: Server, es: seq<Event>, i: nat)
    requires Inv(parse, s) && i < |Run(parse, s, es).table|
    ensures Run(parse, s, es).table[i].status == NotDelivered
            <==> (i < |s.table| ==> s.table[i].status == NotDelivered) && NeverMarked(parse, s, es, i)
    decreases |es|
  {
    if es != [] {
      StepMarksFrom(parse, s, es[0], i);
      StepKeepsInv(parse, s, es[0]);
      StatusFollowsMarks(parse, Step(parse, s, es[0]), es[1..], i);
    }
  }

  /** A row that is not there yet cannot be marked. */
  lemma StepMarksFrom(parse: Parser, s: Server, e: Event, i: nat)
    requires Inv(parse, s)
    ensures var t := Step(parse, s, e).table;
            (i < |t| ==> t[i].status == NotDelivered)
            <==> (i < |s.table| ==> s.table[i].status == NotDelivered) && !Marks(s, e, i)
  {
    StepTable(parse, s, e);
    if i < |Step(parse, s, e).table| {
      StepMarksIff(parse, s, e, i);
    }
  }

  /** In every run a row is NotDelivered exactly until a save of messageDelivered or a markRead reaches it. */
  lemma NotDeliveredUntilMarked(parse: Parser, es: seq<Event>, i: nat)
    requires i < |Run(parse, INIT, es).table|
    ensures Run(parse, INIT, es).table[i].status == NotDelivered <==> NeverMarked(parse, INIT, es, i)
  {
    StatusFollowsMarks(parse, INIT, es, i);
  }

  // ---------- When a status moves down ----------

  /** The event saves a row that was NotDelivered when it was read and has become Seen since. */
  predicate Overtaken(s: Server, e: Event) {
    && e.DeliveredSave? && e.op in s.inFlight && e.fault != SaveFails(false)
    && s.inFlight[e.op].status == NotDelivered
    && s.inFlight[e.op].id < |s.table| && s.table[s.inFlight[e.op].id].status == Seen
  }

  lemma SaveLowersIff(parse: Parser, s: Server, e: Event, i: nat)
    requires Inv(parse, s) && i < |s.table| && e.DeliveredSave?
    ensures |s.table| == |Step(parse, s, e).table|
    ensures Rank(Step(parse, s, e).table[i].status) < Rank(s.table[i].status)
            <==> Overtaken(s, e) && s.inFlight[e.op].id == i
  {
    if e.op in s.inFlight {
      SaveDeliveredRow(parse, s.table, s.inFlight[e.op]);
    }
  }

  lemma SendsKeepRows(parse: Parser, s: Server, e: Event, i: nat)
    requires i < |s.table| && (e.RestSend? || e.SocketSend?)
    ensures s.table <= Step(parse, s, e).table
  {
  }

  lemma MarksRaise(parse: Parser, s: Server, e: Event, i: nat)
    requires i < |s.table| && (e.SocketMarkRead? || e.RestMarkRead?)
    ensures |s.table| == |Step(parse, s, e).table|
    ensures Rank(s.table[i].status) <= Rank(Step(parse, s, e).table[i].status)
  {
  }

  /** A step lowers the status of a row exactly when it is an overtaken save of that row. */
  lemma StepLowersIff(parse: Parser, s: Server, e: Event, i: nat)
    requires Inv(parse, s) && i < |s.table|
    ensures |s.table| <= |Step(parse, s, e).table|
    ensures Rank(Step(parse, s, e).table[i].status) < Rank(s.table[i].status)
            <==> Overtaken(s, e) && s.inFlight[e.op].id == i
  {
    if e.DeliveredSave? {
      SaveLowersIff(parse, s, e, i);
    } else if e.RestSend? || e.SocketSend? {
      SendsKeepRows(parse, s, e, i);
    } else if e.SocketMarkRead? || e.RestMarkRead? {
      MarksRaise(parse, s, e, i);
    }
  }

  ghost predicate Raises(t: seq<Message>, t': seq<Message>) {
    |t| <= |t'| && forall i :: 0 <= i < |t| ==> Rank(t[i].status) <= Rank(t'[i].status)
  }

  /** No step of the run lowers the status of any row. */
  ghost predicate OnlyRaises(parse: Parser, s: Server, es: seq<Event>)
    decreases |es|
  {
    es != [] ==> Raises(s.table, Step(parse, s, es[0]).table) && OnlyRaises(parse, Step(parse, s, es[0]), es[1..])
  }

  ghost predicate NoneOvertaken(parse: Parser, s: Server, es: seq<Event>)
    decreases |es|
  {
    es != [] ==> !Overtaken(s, es[0]) && NoneOvertaken(parse, Step(parse, s, es[0]), es[1..])
  }

  lemma StepRaisesIff(parse: Parser, s: Server, e: Event)
    requires Inv(parse, s)
    ensures Raises(s.table, Step(parse, s, e).table) <==> !Overtaken(s, e)
  {
    StepTable(parse, s, e);
    forall i | 0 <= i < |s.table|
      ensures Rank(Step(parse, s, e).table[i].status) < Rank(s.table[i].status)
              <==> Overtaken(s, e) && s.inFlight[e.op].id == i
    {
      StepLowersIff(parse, s, e, i);
    }
  }

  /** The statuses of a run only move up exactly when none of its saves was overtaken. */
  lemma {:induction false} StatusOnlyMovesUpIff(parse: Parser, s: Server, es: seq<Event>)
    requires Inv(parse, s)
    ensures OnlyRaises(parse, s, es) <==> NoneOvertaken(parse, s, es)
    ensures NoneOvertaken(parse, s, es) ==> Raises(s.table, Run(parse, s, es).table)
    decreases |es|
  {
    if es != [] {
      var s1 := Step(parse, s, es[0]);
      StepRaisesIff(parse, s, es[0]);
      StepKeepsInv(parse, s, es[0]);
      StatusOnlyMovesUpIff(parse, s1, es[1..]);
      if NoneOvertaken(parse, s, es) {
        RaisesComposes(s.table, s1.table, Run(parse, s1, es[1..]).table);
      }
    }
  }

  lemma RaisesComposes(a: seq<Message>, b: seq<Message>, c: seq<Message>)
    requires Raises(a, b) && Raises(b, c)
    ensures Raises(a, c)
  {
  }

  /** Between any two moments of a run in which no save was overtaken, a row changes its status only, and only upwards. */
  lemma StatusOnlyMovesUp(parse: Parser, es: seq<Event>, more: seq<Event>, i: nat)
    requires i < |Run(parse, INIT, es).table| && NoneOvertaken(parse, Run(parse, INIT, es), more)
    ensures var t, t' := Run(parse, INIT, es).table, Run(parse, Run(parse, INIT, es), more).table;
            i < |t'| && t'[i] == t[i].(status := t'[i].status) && Rank(t[i].status) <= Rank(t'[i].status)
  {
    var s := Run(parse, INIT, es);
    RunKeepsInv(parse, INIT, es);
    RunKeepsInv(parse, s, more);
    StatusOnlyMovesUpIff(parse, s, more);
  }

  /** A messageDelivered with nothing between its read and its save is never overtaken. */
  lemma ImmediateSaveIsNotOvertaken(parse: Parser, s: Server, op: nat, user: Option<string>, messageId: Option<nat>,
                                    fails: bool, fault: Fault)
    requires Inv(parse, s) && op !in s.inFlight
    ensures NoneOvertaken(parse, s, [DeliveredFind(op, user, messageId, fails), DeliveredSave(op, fault)])
  {
    var find, save := DeliveredFind(op, user, messageId, fails), DeliveredSave(op, fault);
    var s1 := Step(parse, s, find);
    assert [find, save][1..] == [save];
    if op in s1.inFlight {
      FindsItsRow(parse, s.table, messageId.value);
    }
    assert [save][1..] == [];
  }

  /** The read of messageDelivered and then a markRead of the same pair. */
  lemma ReadOvertakes(parse: Parser, s: Server, i: nat, op: nat)
    requires Inv(parse, s) && i < |s.table| && op !in s.inFlight && s.table[i].sender != ""
    ensures var m := s.table[i];
            Run(parse, s, [DeliveredFind(op, Some(m.receiver), Some(i), false),
                           SocketMarkRead(Some(m.receiver), Some(m.sender), NoFault)])
            == s.(inFlight := s.inFlight[op := m], table := MarkSeen(s.table, m.sender, m.receiver),
                  outputs := s.outputs + [ReadReceipt(m.sender, m.receiver)])
  {
    var m := s.table[i];
    var find := DeliveredFind(op, Some(m.receiver), Some(i), false);
    var mark := SocketMarkRead(Some(m.receiver), Some(m.sender), NoFault);
    assert RowOk(parse, m);
    FindsItsRow(parse, s.table, i);
    FindStep(parse, s, i, op);
    MarkReadStep(parse, Step(parse, s, find), m);
    RunTwo(parse, s, find, mark);
  }

  lemma FindStep(parse: Parser, s: Server, i: nat, op: nat)
    requires i < |s.table| && FindById(s.table, i) == i && op !in s.inFlight && s.table[i].receiver != ""
    ensures Step(parse, s, DeliveredFind(op, Some(s.table[i].receiver), Some(i), false))
            == s.(inFlight := s.inFlight[op := s.table[i]])
  {
  }

  lemma MarkReadStep(parse: Parser, s: Server, m: Message)
    requires m.sender != "" && m.receiver != ""
    ensures Step(parse, s, SocketMarkRead(Some(m.receiver), Some(m.sender), NoFault))
            == s.(table := MarkSeen(s.table, m.sender, m.receiver), outputs := s.outputs + [ReadReceipt(m.sender, m.receiver)])
  {
  }

  lemma RunTwo(parse: Parser, s: Server, a: Event, b: Event)
    ensures Run(parse, s, [a, b]) == Step(parse, Step(parse, s, a), b)
  {
    var s1 := Step(parse, s, a);
    assert [a, b][1..] == [b] && [b][1..] == [];
    assert Run(parse, s1, [b]) == Run(parse, Step(parse, s1, b), []);
  }

  /**
   * The run that goes wrong: a read receipt overtakes a delivered one. The sender is told that everything was read,
   * and then the message counts as unread again.
   */
  lemma SeenBecomesDelivered(parse: Parser, s: Server, i: nat, op: nat)
    requires Inv(parse, s) && i < |s.table| && op !in s.inFlight
    requires s.table[i].status == NotDelivered && s.table[i].sender != ""
    ensures var m := s.table[i];
            var read := Run(parse, s, [DeliveredFind(op, Some(m.receiver), Some(i), false),
                                       SocketMarkRead(Some(m.receiver), Some(m.sender), NoFault)]);
            var s' := Step(parse, read, DeliveredSave(op, NoFault));
            && ReadReceipt(m.sender, m.receiver) in read.outputs && |read.table| == |s'.table| == |s.table|
            && read.table[i].status == Seen && CountUnread(read.table, m.sender, m.receiver) == 0
            && s'.table[i].status == Delivered && CountUnread(s'.table, m.sender, m.receiver) > 0
  {
    var m := s.table[i];
    ReadOvertakes(parse, s, i, op);
    var marked := MarkSeen(s.table, m.sender, m.receiver);
    MarkSeenIsLater(parse, s.table, m.sender, m.receiver);
    MarkSeenCounts(s.table, m.sender, m.receiver, m.sender, m.receiver);
    SaveDeliveredRow(parse, marked, m);
    var saved := marked[i := marked[i].(status := Delivered)];
    assert saved[i] in saved && Unread(saved[i], m.sender, m.receiver);
    CountPositiveIff(saved, m.sender, m.receiver);
  }
}
