# Chat services: a verified model

This project models the parts of the chat back end (user-service, chat-service, notification-service) that carry
state machines, queries and parsers, and proves what they promise. `dafny verify dfyconfig.toml` checks all of it.

- **One-time prekeys** (`PrekeyBundles`, `PrekeyTable`, `PrekeyPool`, `PrekeyProperties`, `PrekeyQueueRuns`,
  `PrekeyResponses`, `PrekeyStaleWrites`, `PrekeyController`). The
  server side of X3DH: a request takes one one-time prekey out of the newest device row that has one. A request is a
  transaction of separate steps (begin, lock and read, pick, save, commit, answer) that may fail at any step, also
  after the commit; publishes and key backups run in between. The pools of a user form one FIFO queue; no prekey is
  ever in two responses. `PrekeyStaleWrites` splits the read of a publish or backup from its save.
  `PrekeyController` holds the handlers from request to response.
- **Message table** (`Messages`, `Conversations`, `Paging`, `MessageServer`, `MessageHandlers`, `MessageProperties`).
  The inbox query stage by stage, with ROW_NUMBER as a relation because SQL leaves ties open, and its plain meaning;
  offset paging; the REST and socket handlers as steps of one server, the handlers as they update it, and what holds
  of every run. The messageDelivered handler is two steps, its read and its save, and others may come
  in between; every other handler makes at most one write and is one step.
- **Presence** (`Presence`, `RedisPresence`, `RedisOverlap`). The in-memory store on heap objects, and the Redis store
  command by command, with commands of different users interleaved, and of one user where two operations overlap.
- **RPC and typing timers** (`UserDetailsRpc`, `TypingIndicator`). A map that must stay in step with live timers, on
  a discrete clock, under every order of events; the RPC network loses, duplicates and reorders.
- **Small machines** (`EmailTemplate`, `StackLine`, `UserDetails`). The `{{KEY}}` renderer, the `path:line:col`
  parser, and the user lookup behind a cache that forgets.

Where the source updates state, a class holds that state and each method's contract names the new state through a
function of the old one; lemmas then prove what holds of every run of those functions.

## Assumptions

- Prekey rows are ordered by `createdAt` without ties; a published pool repeats no prekey that was handed out or that
  another row offers (`FreshKeys`). Resending prekeys that are still in the device's own pool is allowed.
- `publishPrekey` and `storeSignalKeys` do not overlap another write of the same row between their `findOne` and
  `save`. The code takes no lock there. `PrekeyStaleWrites` drops the assumption for one save and says what is lost: a
  stale store puts back exactly the prekeys that requests took from its row since the read (`StaleStoreBringsBack`),
  which are then served again (`StaleStoreServesAPrekeyTwice`); a stale publish loses exactly a backup accepted since
  (`StalePublishKeepsTheBackupIff`), and brings back no prekey if its body has a fresh pool (`StalePublishKeepsKeys`);
  two first writes of a device make two rows (`StaleInsertKeepsOneRowIff`). A save writes the whole entity.
- A row lock is held from the SELECT ... FOR UPDATE to the commit or rollback; a write of a locked row waits.
- Operations of one user on the Redis store do not overlap, a connect does not repeat the user's only socket, and a
  disconnect is of a user who is online (`WellBehaved`). Entries do not expire and Redis does not fail.
  `OverlapAgreesIff` says exactly which orders of two overlapping operations leave `ps:online` wrong;
  `ConnectFlagAgreesIff` and `DisconnectFlagAgreesIff` say exactly which calls give the same flag as the local store.
- That a message's status only moves up needs that no markRead comes between the read and the save of
  `handleMessageDelivered`; the code does not ensure it. `StatusOnlyMovesUpIff` says that statuses only move up exactly
  in the runs without such an overtaken save, and `SeenBecomesDelivered` gives the run in which Seen becomes Delivered.
  Nothing else in the model of the message handlers depends on it.
- Clocks are discrete; a timer that is due fires before the clock moves on. Correlation ids are not reused.
- Paging and the message handlers keep the table in insertion order, which is the order of `createdAt`.

## Model

| member | source | states |
|---|---|---|
| PrekeyBundles.Consume | user-service/src/utils/prekeyConsumption.ts:36-58 | The pool is split in order: at most its first key to the client, the rest to the store; the client bundle has the row's identity key, registration id and signed prekey, and never the backup. |
| PrekeyTable.Newest | user-service/src/controllers/PrekeyController.ts:219-236 | The row found is usable and every newer row is not. |
| PrekeyTable.ChosenRowMeans | user-service/src/controllers/PrekeyController.ts:231-241 | A row is chosen exactly when the user has a published one; it is the newest with a prekey, or without any prekey the newest published one. |
| PrekeyTable.ConsumePopsTheHead | user-service/src/controllers/PrekeyController.ts:234-252 | Taking a key from the chosen row removes exactly the head of the user's queue; rows added later stay in front, untouched. |
| PrekeyTable.GetsDrainTheQueueInOrder | user-service/src/controllers/PrekeyController.ts:245-261 | Of gets that follow one another on the table alone, number k hands out exactly the k-th key of the queue, and a keyless bundle once the queue is used up. |
| PrekeyTable.RefusalNamesTheLeastWait | user-service/src/controllers/PrekeyController.ts:69-75 | The hours in a refusal lie between 1 and 24 and are the least whole number of hours after which the last backup is 24 hours old and a retry is accepted. |
| PrekeyTable.PublishAndStoreCommuteIff | user-service/src/controllers/PrekeyController.ts:79-94 | A publish and a backup of one device commute exactly when the published body carries no other backup or the store is refused. |
| PrekeyController.FindBundle | user-service/src/controllers/PrekeyController.ts:235-236 | The scan finds the newest usable row. |
| PrekeyController.Controller.StoreSignalKeys | user-service/src/controllers/PrekeyController.ts:34-105 | Each refusal comes exactly with its cause, the device mismatch and the 24 hours included, and leaves the table alone; acceptance writes exactly the device's row. |
| PrekeyController.Controller.GetSignalKeys | user-service/src/controllers/PrekeyController.ts:115-162 | Only the backup of that user and device is returned; an unauthenticated request or one without a device is refused. |
| PrekeyController.Controller.PublishPrekey | user-service/src/controllers/PrekeyController.ts:168-197 | The body is merged over the device's row or inserted; refusals and failures change nothing. |
| PrekeyController.Controller.GetPrekeyBundle | user-service/src/controllers/PrekeyController.ts:207-272 | A served request pops the head of the user's queue and answers with it and the identity fields of its row; without failures it is served exactly when the user has a published row; a failed one changes nothing unless only the commit's acknowledgement was lost. |
| PrekeyPool.RunKeepsInv | user-service/src/controllers/PrekeyController.ts:211-271 | In every run no key is in two pools, no handed-out key is in a pool, one holder per user, and what a holder read is still in the table. |
| PrekeyProperties.NoPrekeyIsServedTwice | user-service/src/controllers/PrekeyController.ts:243-261 | In every interleaving with any failures: a prekey is in at most one response, a response has at most one and no backup, and a served prekey is in no committed pool. |
| PrekeyProperties.CommitPopsTheHead | user-service/src/controllers/PrekeyController.ts:217-254 | A consuming commit removes the head of the queue that was read, in any interleaving, and leaves every other user's queue. |
| PrekeyProperties.KeylessOnlyWhenDrained | user-service/src/controllers/PrekeyController.ts:256-261 | A bundle without a key is committed only when every row that was read is drained. |
| PrekeyProperties.OnlyCommitsAndPublishesMoveQueues | user-service/src/controllers/PrekeyController.ts:207-272 | No other step, failure or backup changes any queue. |
| PrekeyProperties.BetweenPublishesARowOnlyDrains | user-service/src/controllers/PrekeyController.ts:243-254 | Between publishes a row keeps its identity fields and loses exactly the prefix of keys taken from it, in order. |
| PrekeyProperties.RowShowsTheLastPublish | user-service/src/controllers/PrekeyController.ts:177-191 | After the last publish a row shows its fields and its pool minus the consumed prefix; the publish keeps the backup. |
| PrekeyProperties.BackupsFromTheStart | user-service/src/controllers/PrekeyController.ts:65-94 | In every run: one row per device, its backup and time are those of the last accepted store, accepted stores are 24 hours apart. |
| PrekeyQueueRuns.RunDrainsTheQueueInOrder | user-service/src/controllers/PrekeyController.ts:211-261 | Over any run of interleaved, failing requests in which the user publishes nothing: when n requests commit a bundle and N keys were queued, the first min(n, N) keys are handed out in queue order and the rest stays in order. |
| PrekeyQueueRuns.QueueDrainsFromAnyIdleMoment | user-service/src/controllers/PrekeyController.ts:211-261 | The same from any moment of a run from the empty table at which no request of the user holds its rows. |
| PrekeyQueueRuns.ServedKeylessOnlyFromAnEmptyQueue | user-service/src/controllers/PrekeyController.ts:256-261 | In such a run a request is served without a key only when the user's whole queue is empty. |
| PrekeyQueueRuns.UndisturbedRequestIsOneGet | user-service/src/controllers/PrekeyController.ts:211-261 | The transaction steps without interference have the effect and answer of one get: the head of the queue, a keyless bundle, or NotFound. |
| PrekeyResponses.CommitAnswersTheRow | user-service/src/controllers/PrekeyController.ts:245-261 | A committed answer names the device of the row it consumed from and carries exactly that row's identity fields, without the backup. |
| PrekeyResponses.AnswersShowTheLastPublish | user-service/src/controllers/PrekeyController.ts:211-261 | In every run, a bundle answered after a device's last publish carries the identity key, registration id and signed prekey of that publish. |
| PrekeyResponses.AFailureRollsBack | user-service/src/controllers/PrekeyController.ts:262-269 | A request that fails before its answer leaves the table as it is and is never answered. |
| PrekeyResponses.ALostCommitLosesItsKey | user-service/src/controllers/PrekeyController.ts:251-269 | When only the commit's acknowledgement is lost, the prekey is in no pool and in no response, however the run goes on. |
| PrekeyStaleWrites.StaleSaveIsAtomicIff | user-service/src/controllers/PrekeyController.ts:65-81 | A save of an earlier read equals the atomic store exactly when nothing but the backup changed in between. |
| PrekeyStaleWrites.StaleStoreBringsBack | user-service/src/controllers/PrekeyController.ts:65-81 | A stale store puts back into a pool exactly the handed-out prekeys that requests took from its row since the read; the pools stay sound exactly when there is none. |
| PrekeyStaleWrites.StalePublishKeepsKeys | user-service/src/controllers/PrekeyController.ts:177-186 | A stale publish of a fresh pool brings no handed-out prekey back. |
| PrekeyStaleWrites.StaleStoreServesAPrekeyTwice | user-service/src/controllers/PrekeyController.ts:65-81 | When a request takes a prekey between the read and the save of a store, the next request of that user is served the same prekey, whatever rows and pools there are. |
| PrekeyStaleWrites.StalePublishKeepsTheBackupIff | user-service/src/controllers/PrekeyController.ts:177-186 | A stale publish leaves the last accepted backup in the row exactly when no backup of the device was accepted since its read. |
| PrekeyStaleWrites.StaleInsertKeepsOneRowIff | user-service/src/controllers/PrekeyController.ts:188-189 | A first write that found no row keeps one row per device exactly when no other write of the device came before its insert. |
| Messages.MarkSeenCounts | chat-service/src/controllers/MessageController.ts:323-330 | The update clears the unread count of one pair and no other. |
| Conversations.QueryMeansInbox | chat-service/src/controllers/MessageController.ts:230-276 | The query may answer a list exactly when it has one row per partner, each a message of maximal time with its sender and the unread count, newest first. |
| Conversations.QueryHasAnAnswer | chat-service/src/controllers/MessageController.ts:230-276 | Every table and user have such a list. |
| Conversations.AllMessagesLists | chat-service/src/controllers/MessageController.ts:231-245 | The UNION ALL lists exactly the messages between the user and each partner. |
| Conversations.JoinIsCount | chat-service/src/controllers/MessageController.ts:258-273 | Grouping the unread rows by sender, counting each group and left-joining with COALESCE is the plain count of unread messages. |
| Conversations.UnreadCountsAddUp | chat-service/src/controllers/MessageController.ts:258-273 | The unread counts of the inbox sum to the not-Seen messages addressed to the user. |
| Conversations.MarkAsReadClearsOneRow | chat-service/src/controllers/MessageController.ts:323-330 | The inboxes after marking are exactly those before with one count at 0; other users' inboxes are exactly those before. |
| Messages.RowsChanged | chat-service/src/controllers/MessageController.ts:334-339 | The number of rows in which the table differs after the update is the unread count that the inbox showed for the sender. |
| Paging.FetchConversation | chat-service/src/controllers/MessageController.ts:180-215 | The reply is the chronological slice that ends `offset` before the newest message, only messages of the two users, with their number and hasMore; limit 50 by default and at most 200, a negative one refused. |
| Paging.ConversationSelects | chat-service/src/controllers/MessageController.ts:195-198 | The conversation is the table restricted to the messages that one of the two users sent to the other, each as often as stored and in table order. |
| Paging.ReverseInPlace | chat-service/src/controllers/MessageController.ts:203-204 | The array is reversed in place. |
| Paging.WalkIsTheConversation | chat-service/src/controllers/MessageController.ts:189-210 | Without new messages the walk ends and its pages, last one first, are the conversation, the same for both participants. |
| Paging.NoMessageIsMissed | chat-service/src/controllers/MessageController.ts:189-210 | With messages arriving between requests, a finished walk has shown every message that existed at its start. |
| UserDetails.Lookup.FetchUserDetails | chat-service/src/controllers/MessageController.ts:25-61 | A cached lookup returns what the service answers. |
| UserDetails.Lookup.FetchUserDetailsBatch | chat-service/src/controllers/MessageController.ts:67-87 | Every requested id gets what an uncached lookup returns, and no other id is in the result. |
| UserDetails.Lookup.NamePartners | chat-service/src/controllers/MessageController.ts:285-295 | Every inbox row shows the name that the service gives for its partner, or 'Unknown User' for a failure, no user, or no name. |
| MessageHandlers.MessageService.SendMessage | chat-service/src/controllers/MessageController.ts:89-178 | A message is stored exactly when it is a storable envelope to another user, as one NotDelivered row with these fields that raises the pair's unread count by one; refusals change nothing. |
| MessageHandlers.MessageService.RetrieveOrSave | chat-service/src/websocket/socketHandler.ts:175-247 | An id reuses a stored row of this very pair and never inserts; no id inserts the trimmed envelope as one NotDelivered row. |
| MessageHandlers.MessageService.HandleSendMessage | chat-service/src/websocket/socketHandler.ts:312-366 | Exactly one acknowledgement for every choice of failures; an ok one names a stored row of this pair, which is what the receiver's room gets; a send with an id leaves the table unchanged. |
| MessageHandlers.MessageService.StartDelivered | chat-service/src/websocket/socketHandler.ts:259-262 | The row is kept for the save only if it is addressed to the user. |
| MessageHandlers.MessageService.EndDelivered | chat-service/src/websocket/socketHandler.ts:264-268 | The row is saved as it was read, now Delivered, and its sender gets the receipt. |
| MessageHandlers.MessageService.HandleMessageDelivered | chat-service/src/websocket/socketHandler.ts:254-269 | With nothing in between, only the receiver moves a row from NotDelivered to Delivered; the receipt goes to its sender once the row is Delivered or Seen. |
| MessageHandlers.MessageService.HandleMarkRead | chat-service/src/websocket/socketHandler.ts:276-292 | The pair's messages become Seen and the sender is told; nothing else changes. |
| MessageHandlers.MessageService.MarkAsRead | chat-service/src/controllers/MessageController.ts:307-344 | The reported number of changed rows is the unread count before, which is 0 afterwards. |
| MessageProperties.RunKeepsInv | chat-service/src/websocket/socketHandler.ts:159-292 | In every run of the handlers, any failures and interleaved deliveries included, rows are envelopes, waiting handlers hold rows of the table, and every output stays true of the table. |
| MessageProperties.RowsAreAlwaysEnvelopes | chat-service/src/controllers/MessageController.ts:98-142 | In every run every stored row is an encrypted, trimmed, valid envelope of 1 to 5000 characters between two users. |
| MessageProperties.ReceiptsStayTrue | chat-service/src/websocket/socketHandler.ts:254-269 | Every receipt ever sent went to its row's sender, names its receiver, and its row is Delivered or Seen from then on, overtaken saves included. |
| MessageProperties.EverySendIsAcknowledgedOnce | chat-service/src/websocket/socketHandler.ts:312-366 | In every run each send has exactly one acknowledgement, and the ids acknowledged as sent are those passed on to the receivers, in order. |
| MessageProperties.NotDeliveredUntilMarked | chat-service/src/websocket/socketHandler.ts:225-289 | In every run a row is NotDelivered exactly until a save of messageDelivered for it or a markRead of its pair. |
| MessageProperties.StepLowersIff | chat-service/src/websocket/socketHandler.ts:261-267 | A step lowers a row's status exactly when it saves that row, NotDelivered at its read and Seen by now. |
| MessageProperties.StatusOnlyMovesUpIff | chat-service/src/websocket/socketHandler.ts:254-292 | Statuses only move up in a run exactly when none of its saves was overtaken. |
| MessageProperties.StatusOnlyMovesUp | chat-service/src/websocket/socketHandler.ts:254-292 | Between any two moments with no overtaken save a row changes its status only, and only upwards. |
| MessageProperties.ImmediateSaveIsNotOvertaken | chat-service/src/websocket/socketHandler.ts:261-267 | A messageDelivered with nothing between its read and its save is never overtaken. |
| MessageProperties.SeenBecomesDelivered | chat-service/src/websocket/socketHandler.ts:261-290 | A markRead between that read and that save: the sender has the read receipt, and the message is Delivered and unread again. |
| Text.TrimTrims | chat-service/src/controllers/MessageController.ts:105-108 | A trimmed text neither starts nor ends with white space. |
| Text.AsciiWhiteSpace | chat-service/src/controllers/MessageController.ts:105 | The ASCII white space is blank, tab, line feed, vertical tab, form feed and carriage return. |
| Text.TrimDropsWhiteSpace | chat-service/src/utils/logger.ts:83 | Trimming drops exactly the white space around a text that neither starts nor ends with any. |
| Presence.BroadcastsAlternate | chat-service/src/services/PresenceStore.ts:54-73 | In every run a user's presence events alternate from online, the last one agrees with the map, and no empty set stays. |
| Presence.MapHoldsTheOpenSockets | chat-service/src/services/PresenceStore.ts:54-100 | In every run the map holds exactly the sockets that connected and have not disconnected since. |
| Presence.LocalPresenceStore.Connect | chat-service/src/services/PresenceStore.ts:54-63 | The socket is added to this user's set only, and the flag says whether it was the first. |
| Presence.LocalPresenceStore.Disconnect | chat-service/src/services/PresenceStore.ts:65-73 | The socket is removed, an emptied user is dropped, and the flag says whether that happened. |
| Presence.LocalPresenceStore.IsOnline | chat-service/src/services/PresenceStore.ts:75-77 | A user is online exactly when in the map. |
| Presence.LocalPresenceStore.GetOnlineUserIds | chat-service/src/services/PresenceStore.ts:79-85 | Every online user but the excluded one is listed once. |
| Presence.LocalPresenceStore.Compact | chat-service/src/services/PresenceStore.ts:92-100 | Clearing and refilling keeps the same set objects under the same users. |
| RedisPresence.RedisMatchesTheLocalStore | chat-service/src/services/PresenceStore.ts:116-156 | In every interleaving each finished operation returned the local store's flag, the sets agree, and an idle user is in `ps:online` exactly with a socket. |
| RedisPresence.ConnectFlagAgreesIff | chat-service/src/services/PresenceStore.ts:126-133 | "One member now" is "first socket" exactly unless the user's only socket connects again. |
| RedisPresence.DisconnectFlagAgreesIff | chat-service/src/services/PresenceStore.ts:142-150 | "No member now" is "last socket" exactly for a user who was online. |
| RedisPresence.OverlappingConnectsLoseTheUser | chat-service/src/services/PresenceStore.ts:116-133 | Two overlapping first connects of one user leave sockets without an entry in `ps:online`. |
| RedisOverlap.OverlapAgreesIff | chat-service/src/services/PresenceStore.ts:116-156 | Two operations of one user, connecting with new socket ids, overlap in any way among other users' commands: `ps:online` is right at the end exactly unless a second first-connect wrote before the first counted, or a connect ran as a whole between the zero count of a last disconnect and its removal of the mark. |
| RedisPresence.RedisPresenceStore.Connect | chat-service/src/services/PresenceStore.ts:116-139 | Run on its own, connect adds the socket and marks the user online on the first one. |
| RedisPresence.RedisPresenceStore.Disconnect | chat-service/src/services/PresenceStore.ts:140-156 | Run on its own, disconnect removes the socket and the mark with the last one. |
| UserDetailsRpc.EveryCallbackRunsOnceInTime | chat-service/src/services/RabbitMQService.ts:60-129 | Under loss, duplication and reordering a call is in the map exactly while its callback is pending and its timer live; the callback runs once, within 5000 ms, with null or exactly what the responder found for its own request. |
| UserDetailsRpc.LookupsHappened | user-service/src/services/RabbitMQService.ts:73-83 | Every lookup behind a reply was made by the responder in this run. |
| UserDetailsRpc.AnUndisturbedCallGetsTheRow | chat-service/src/services/RabbitMQService.ts:105-129 | A call whose request and reply arrive gets the row that the responder found. |
| UserDetailsRpc.TimeSettlesEveryCall | chat-service/src/services/RabbitMQService.ts:107-119 | With every message lost from now on, time alone brings each call to its callback. |
| UserDetailsRpc.APendingCallTakesTheReply | chat-service/src/services/RabbitMQService.ts:65-73 | The first reply that arrives while a call is pending is what its callback gets, and ends the call. |
| UserDetailsRpc.ADueTimerSettlesItsCall | chat-service/src/services/RabbitMQService.ts:107-119 | A due timer can always fire; firing it runs its callback exactly 5000 ms after the call. |
| UserDetailsRpc.RpcClient.GetUserDetails | chat-service/src/services/RabbitMQService.ts:105-129 | Callback and 5000 ms timer are registered whether or not sending fails. |
| UserDetailsRpc.RpcClient.OnResponse | chat-service/src/services/RabbitMQService.ts:62-78 | A known correlation id is settled with the reply, an unknown one ignored. |
| UserDetailsRpc.RpcClient.OnTimeout | chat-service/src/services/RabbitMQService.ts:107-119 | A due timer settles its call with null. |
| UserDetailsRpc.Responder.HandleRequest | user-service/src/services/RabbitMQService.ts:69-99 | Whatever fails, the delivery is acknowledged exactly once and at most one reply is sent, under its correlation id: the selected columns of that user's row, null for an unknown user, or the error object; none exactly when the error object cannot be sent either. |
| TypingIndicator.TimersMatchTheMap | chat-service/src/websocket/socketHandler.ts:13-23 | In every run the live timers are exactly the map's values, aimed at the receiver of the latest typing:true and due 3000 ms after it. |
| TypingIndicator.QuietUserStopsTypingOnce | chat-service/src/websocket/socketHandler.ts:137-154 | A typing user who does nothing more causes exactly one isTyping:false to that receiver, whatever others do. |
| TypingIndicator.TimeStopsTyping | chat-service/src/websocket/socketHandler.ts:145-149 | Time alone ends every typing state. |
| TypingIndicator.Handlers.HandleTyping | chat-service/src/websocket/socketHandler.ts:129-155 | The old timer is cancelled; typing:true is passed on with a new timer, typing:false without. |
| TypingIndicator.Handlers.OnTimeout | chat-service/src/websocket/socketHandler.ts:145-149 | A due timer sends isTyping:false and leaves the map. |
| TypingIndicator.Handlers.ClearTyping | chat-service/src/websocket/socketHandler.ts:112-115 | The user's timer and entry go together. |
| TypingIndicator.Handlers.AfterSend | chat-service/src/websocket/socketHandler.ts:352-357 | A sent message ends the sender's typing state. |
| TypingIndicator.Handlers.OnDisconnect | chat-service/src/websocket/socketHandler.ts:111-115 | A disconnect ends the user's typing state without sending anything. |
| TypingIndicator.Handlers.CompactTimeouts | chat-service/src/websocket/socketHandler.ts:18-23 | Rebuilding the map changes no timer and no entry. |
| EmailTemplate.SplitIsUnique | notification-service/src/services/EmailTemplateService.ts:48-50 | A template splits in exactly one way into literals and leftmost placeholders, and printing the pieces gives it back. |
| EmailTemplate.RenderTemplate | notification-service/src/services/EmailTemplateService.ts:46-51 | The pass ends and its output is the piecewise substitution over that split; inserted values are not rescanned. |
| EmailTemplate.MatchIsTheOnlyHole | notification-service/src/services/EmailTemplateService.ts:48 | Greedy matching finds the only placeholder that can start at a position. |
| EmailTemplate.HoleIsReplaced | notification-service/src/services/EmailTemplateService.ts:48-50 | Each placeholder of the split is replaced by its variable, by nothing when there is none, with the pieces around it rendered on their own. |
| EmailTemplate.LiteralStays | notification-service/src/services/EmailTemplateService.ts:48 | Each literal character of the split stays in its place. |
| EmailTemplate.FirstHoleIsReplaced | notification-service/src/services/EmailTemplateService.ts:48-50 | `Hi {{NAME}}...` renders to the text before the placeholder, the variable or nothing, and the rendered rest. |
| EmailTemplate.OtherBracesStay | notification-service/src/services/EmailTemplateService.ts:48 | Two braces around a text that is not a word stay as they are. |
| EmailTemplate.TripleBraces | notification-service/src/services/EmailTemplateService.ts:48-50 | `{{{NAME}}}` renders to a brace, the variable or nothing, and a brace. |
| EmailTemplate.RenderingPlaceholdersIsIdentity | notification-service/src/services/EmailTemplateService.ts:48-50 | Rendering any template with every key as its own placeholder gives that template back: no text is dropped and no value rescanned. |
| StackLine.ParseIffPrinted | chat-service/src/utils/logger.ts:91-111 | Parsing succeeds exactly on path, colon, digits, colon, digits, recovers any path, and printing undoes it. |
| StackLine.LastIndexOf | chat-service/src/utils/logger.ts:92-95 | The backward scan finds the last occurrence at or before the start position. |
| StackLine.ParenRecovers | chat-service/src/utils/logger.ts:72-78 | The location between the first opening and last closing parenthesis is recovered. |
| StackLine.AtRecovers | chat-service/src/utils/logger.ts:80-85 | The location after the first `at ` is recovered from the line, whatever white space surrounds it. |
| StackLine.FileNameIsTheLastSegment | chat-service/src/utils/logger.ts:122 | A path is shown as `file` exactly when that is the part after its last slash, or the whole path if that part is empty. |
| StackLine.ParenLineNames | chat-service/src/utils/logger.ts:114-123 | A line with a location in parentheses gives the file name, a colon and the line number. |
| StackLine.AtLineNames | chat-service/src/utils/logger.ts:114-123 | A line with no such location gives those of the location after its first `at `. |
| StackLine.SkippedLinesNameNobody | chat-service/src/utils/logger.ts:114 | A line with `logger` or `node_modules` in it gives nothing. |
| StackLine.SkippedContains | chat-service/src/utils/logger.ts:114 | No other line is skipped. |
| StackLine.FirstCaller | chat-service/src/utils/logger.ts:112-126 | The first line from the third on that names a caller gives the result; none gives the empty string. |

## Left out

- PrekeyPool.Step: a publish or a store is one step; the code reads and saves separately (see Assumptions).
- PrekeyController.Controller.GetSignalKeys: the audit log is not modelled, here and in StoreSignalKeys.
- RedisOverlap.OverlapAgreesIff: three or more overlapping operations of one user, and the returned flags.
- UserDetailsRpc.Responder.HandleRequest: an acknowledgement that fails.
- Paging.FetchConversation: fractional limits and offsets are not modelled; a parameter is a whole number or absent.
- UserDetails.Lookup.FetchUserDetailsBatch: the parallel fetches run one after the other; the service's answers do not change in the meantime.
- EmailTemplate.RenderTemplate: `vars[key]` is a property read given as a function, so a name inherited from Object.prototype counts as present.
- MessageHandlers.MessageService.HandleSendMessage: lengths count characters, not UTF-16 units, and the `typing` timer it clears is in TypingIndicator.
- StackLine.FirstCaller: the stack text is given as lines.
- RedisPresence.Step: key expiry and Redis errors, which the store answers with fixed flags.
- UserDetailsRpc.Step: replies that are not JSON; the client logs and ignores them.
- JSON parsing: the envelope check is a parameter. Message ids are the positions of insertion instead of UUIDs.
- Malformed published bodies: each field of a bundle is absent or of its declared type.
- HTTP and Express wiring, authentication, validators, rate-limit middleware, metrics, logging output, migrations and deployment files.
- Reconnect loops, notification storage, email delivery and template loading: short branches or foreign code.
