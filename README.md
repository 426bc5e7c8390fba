# RocketMQ message store: a verified Dafny model

This project models the in-memory control logic of RocketMQ's
`DefaultMessageStore`, the broker-side store that sits between producers,
the commit log and consumers:

- the write-admission guard chain of `putMessage`;
- the pull path of `getMessage`: the offset window, the scan over 20-byte
  consume-queue units, and the batch rule `isTheBatchFull`;
- the consume-queue table `topic -> queueId -> ConsumeQueue` and its
  operations: get-or-create (`findConsumeQueue`), expiry cleaning
  (`cleanExpiredConsumerQueue`), unused-topic cleaning (`cleanUnusedTopic`)
  and recovery of the commit log's `topic-queueId -> max offset` table
  (`recoverTopicQueueTable`);
- `getMessageIds`;
- `slaveFallBehindMuch`;
- the inner services:
  - the dispatch double buffer (`DispatchMessageService`);
  - the slave's commit-log scanner (`ReputMessageService.doReput`);
  - the commit-log cleaner's manual countdown and trigger (`CleanCommitLogService`);
  - the consume-queue cleaner with its monotone floor (`CleanConsumeQueueService`);
  - the consume-queue flusher's retry and least-pages rule (`FlushConsumeQueueService.doFlush`).

State the store changes in place is modelled as classes:
- `DefaultMessageStore` holds the table and the commit log's offset table;
- `DispatchMessageService` holds the two request lists;
- `ReputMessageService` holds the reput offset;
- the three service classes hold their counters.

Loops over the Java maps and lists are `while` loops with invariants. Each loop is proved against a specification function on the old state, for example:
- `CleanExpired` for expiry cleaning;
- `KeepTopics` for unused-topic cleaning;
- `TrimAll` and `MaxOffsetTable` for recovery;
- `DispatchAll` for dispatch;
- `Reput` for the reput scan.

Lemmas then state what those functions promise. The guard chain, the window classification, the batch rule and the lag are pure functions.

Collaborators whose code is not part of this model are values or parameters:
- The commit log is a `CommitLogView`: its min and max offsets, its segment size, and what its record checker reports at each offset.
- A consume queue is a `ConsumeQueue` value: its units by logical offset and its minimum offset.
- The message filter is a `Subscription`.
- Clock readings, disk-check answers, commit results and the commit log's own put result are parameters.

Files: `store_types.dfy`, `consume_queue.dfy`, `commit_log.dfy`,
`put_message.dfy`, `batch_limit.dfy`, `get_message.dfy`, `queue_table.dfy`,
`message_ids.dfy`, `message_store.dfy`, `dispatch.dfy`, `reput.dfy`,
`clean_services.dfy`, `flush.dfy`.

## Model

| member | source | states |
|---|---|---|
| StoreTypes.TransactionValue | rocketmq-store/src/main/java/com/alibaba/rocketmq/store/DefaultMessageStore.java:1624-1637 | the transaction type of a system flag is one of the four types (none, prepared, commit, rollback) that doDispatch switches on |
| ConsumeQueues.NewQueue | rocketmq-store/src/main/java/com/alibaba/rocketmq/store/DefaultMessageStore.java:944-952 | a queue created on first reference has the topic and id asked for, min offset 0, max offset 0 and last physical offset -1 |
| ConsumeQueues.ConsumeQueue.Put | rocketmq-store/src/main/java/com/alibaba/rocketmq/store/DefaultMessageStore.java:1143-1147 | writing a position appends exactly that unit; the max offset grows by one and nothing else changes |
| ConsumeQueues.ConsumeQueue.TrimBelow | rocketmq-store/src/main/java/com/alibaba/rocketmq/store/DefaultMessageStore.java:1126 | correcting the min offset to the commit log's floor keeps every unit and only moves the min offset forward: past exactly the units below the floor, up to the first unit at or above it |
| ConsumeQueues.IndexBuffer | rocketmq-store/src/main/java/com/alibaba/rocketmq/store/DefaultMessageStore.java:492 | the index buffer at an in-window offset is non-empty, holds the queue's units from that offset, and ends at the end of that queue file or at the max offset, whichever comes first |
| ConsumeQueues.RollNextQueueFile | rocketmq-store/src/main/java/com/alibaba/rocketmq/store/DefaultMessageStore.java:571 | the first offset of the next queue file lies strictly after the index and at most one file further, and for a non-negative index it is a multiple of the units per file |
| CommitLogs.CommitLogView.RollNextFile | rocketmq-store/src/main/java/com/alibaba/rocketmq/store/DefaultMessageStore.java:1738-1739 | the start of the next segment lies strictly after the offset and at most one segment further, and for a non-negative offset it is a multiple of the segment size |
| CommitLogs.CommitLogView.GetData | rocketmq-store/src/main/java/com/alibaba/rocketmq/store/DefaultMessageStore.java:1712-1713 | data is returned exactly when the offset lies in [min, max), and then it is non-empty and stays below max |
| PutMessageAdmission.Utf16Length | rocketmq-store/src/main/java/com/alibaba/rocketmq/store/DefaultMessageStore.java:406-415 | the length Java measures, in UTF-16 code units, lies between the number of characters and twice it, and equals the number of characters iff every character is in the Basic Multilingual Plane |
| PutMessageAdmission.Admit | rocketmq-store/src/main/java/com/alibaba/rocketmq/store/DefaultMessageStore.java:377-418 | the message reaches the commit log iff the store accepts writes (not shut down, not a slave, writeable) and the topic is at most 127 and the properties at most 32767 UTF-16 code units long; SERVICE_NOT_AVAILABLE iff writes are refused; MESSAGE_ILLEGAL iff writes are accepted but the message does not fit |
| PutMessageAdmission.AdmitIsFirstFailingGuard | rocketmq-store/src/main/java/com/alibaba/rocketmq/store/DefaultMessageStore.java:377-415 | admission equals "the status of the first failing guard, in source order, or forward when none fails" |
| PutMessageAdmission.UnavailableStoreIgnoresMessage | rocketmq-store/src/main/java/com/alibaba/rocketmq/store/DefaultMessageStore.java:378-400 | a store that refuses writes answers SERVICE_NOT_AVAILABLE whatever the message, never MESSAGE_ILLEGAL |
| MessageStore.DefaultMessageStore.PutMessage | rocketmq-store/src/main/java/com/alibaba/rocketmq/store/DefaultMessageStore.java:377-432 | the commit log is called iff every guard passes, with topic and properties measured in UTF-16 code units; its result is then returned unchanged; otherwise the guard's status is returned |
| BatchLimit.IsTheBatchFull | rocketmq-store/src/main/java/com/alibaba/rocketmq/store/DefaultMessageStore.java:966-1004 | the rule as written: never full while the batch is empty; full once messageTotal + 1 >= maxMsgNums; otherwise full iff the on-disk ceilings (message more than `memory` bytes behind the log head) or the in-memory ceilings are passed |
| BatchLimit.BatchFullIsMonotone | rocketmq-store/src/main/java/com/alibaba/rocketmq/store/DefaultMessageStore.java:974-1003 | a non-empty batch that is full stays full for the same candidate as its byte and message totals grow |
| BatchLimit.AsWrittenStopsBeforeMaxMsgNums | rocketmq-store/src/main/java/com/alibaba/rocketmq/store/DefaultMessageStore.java:978-980 | with maxMsgNums >= 2, a batch already holding maxMsgNums - 1 messages is full: the written rule never lets a pull reach maxMsgNums messages |
| BatchLimit.AsWrittenStopsAtOneOfTwo | rocketmq-store/src/main/java/com/alibaba/rocketmq/store/DefaultMessageStore.java:978-980 | a concrete pull of 2 messages with 1 taken and the ceilings far away: the written rule says full and the intended rule says not full |
| BatchLimit.IsTheBatchFullIntended | rocketmq-store/src/main/java/com/alibaba/rocketmq/store/DefaultMessageStore.java:966-1004 | the corrected rule: never full while empty; full once maxMsgNums messages are held; below that count, full exactly when a transfer ceiling is passed |
| BatchLimit.IntendedRuleBoundsBatch | rocketmq-store/src/main/java/com/alibaba/rocketmq/store/DefaultMessageStore.java:516-519 | adding a message only while the corrected rule says "not full" keeps the batch within max(maxMsgNums, 1) messages |
| BatchLimit.AsWrittenRuleBoundsBatch | rocketmq-store/src/main/java/com/alibaba/rocketmq/store/DefaultMessageStore.java:516-519 | adding a message only while the written rule says "not full" keeps the batch within max(maxMsgNums - 1, 1) messages |
| BatchLimit.RuleBoundsBatch | rocketmq-store/src/main/java/com/alibaba/rocketmq/store/DefaultMessageStore.java:516-519 | under either rule an empty batch is never full, and adding a message only while the rule says "not full" keeps the batch within that rule's cap: max(maxMsgNums - 1, 1) as written, max(maxMsgNums, 1) corrected |
| GetMessage.ClassifyOffset | rocketmq-store/src/main/java/com/alibaba/rocketmq/store/DefaultMessageStore.java:471-491 | the offset is scanned iff maxOffset != 0 and min <= offset < max; otherwise NO_MESSAGE_IN_QUEUE/0, OFFSET_TOO_SMALL/min, OFFSET_OVERFLOW_ONE/offset, or OFFSET_OVERFLOW_BADLY with min when min == 0 and max otherwise |
| GetMessage.SuggestedOffsetIsInWindow | rocketmq-store/src/main/java/com/alibaba/rocketmq/store/DefaultMessageStore.java:471-491 | for a well-formed window, the next offset suggested outside the range lies within [min, max] |
| GetMessage.FollowingSuggestionSettles | rocketmq-store/src/main/java/com/alibaba/rocketmq/store/DefaultMessageStore.java:471-491 | retrying at the suggested offset never again gives OFFSET_TOO_SMALL or OFFSET_OVERFLOW_BADLY |
| GetMessage.ScanUnit | rocketmq-store/src/main/java/com/alibaba/rocketmq/store/DefaultMessageStore.java:505-552 | one unit of the scan under the batch rule passed in (`Scanned`): a unit before the next segment start is passed over with nothing changed and never stops the scan; otherwise the scan stops with nothing changed exactly when the rule says full (and then the batch is non-empty); any other unit is examined as `ExamineUnit` states; the scan invariant holds one unit further; a batch within the transfer ceilings stays within them |
| GetMessage.ExamineUnit | rocketmq-store/src/main/java/com/alibaba/rocketmq/store/DefaultMessageStore.java:524-552 | a unit the batch has room for (`Examined`): accepted and readable, it is appended to the batch, the status becomes FOUND and skipping ends; accepted but removed, nothing is taken, skipping starts at the commit log's next segment and the status becomes MESSAGE_WAS_REMOVING if the batch is empty; not accepted, nothing is taken, skipping is unchanged and the status becomes NO_MATCHED_MESSAGE if the batch is empty; the scan invariant holds one unit further |
| GetMessage.WithinCeilingsExtend | rocketmq-store/src/main/java/com/alibaba/rocketmq/store/DefaultMessageStore.java:516-528 | a message taken while the batch rule says "not full" keeps every message of the batch admitted within the count limit and the transfer ceilings |
| GetMessage.CeilingsBoundBatch | rocketmq-store/src/main/java/com/alibaba/rocketmq/store/DefaultMessageStore.java:966-1004 | a batch admitted within the ceilings, of two or more messages of positive size, holds no more bytes and no more messages than the on-disk ceilings (when its last message lies more than `memory` behind the log head) or the in-memory ceilings |
| GetMessage.WalkUnits | rocketmq-store/src/main/java/com/alibaba/rocketmq/store/DefaultMessageStore.java:503-553 | the scan loop examines at most 800 units of the buffer, keeps the scan invariant up to where it stopped, keeps every message taken within the transfer ceilings, stops early only when the rule says full at the next unit with a non-empty batch, and records the physical offset of the last unit examined |
| GetMessage.WalkStep | rocketmq-store/src/main/java/com/alibaba/rocketmq/store/DefaultMessageStore.java:505-552 | one turn of the scan loop: unit n becomes the last unit examined, the walk moves past it unless it found the batch full, and the scan invariant and the transfer ceilings are kept |
| GetMessage.ScanIndexBuffer | rocketmq-store/src/main/java/com/alibaba/rocketmq/store/DefaultMessageStore.java:496-563 | the next offset is the start offset plus the units examined, at most the buffer and at most 800 (16000 bytes of 20-byte units); status is FOUND iff a message was taken, and otherwise NO_MATCHED_MESSAGE or MESSAGE_WAS_REMOVING; the batch holds at most the rule's cap, max(maxMsgNums - 1, 1) as written and max(maxMsgNums, 1) corrected, and each message was admitted while the rule said "not full" given the messages before it, so within the on-disk or in-memory byte and count ceilings; every message has positive size and comes, in order, from an accepted readable unit examined; when no accepted unit was found removed, exactly the accepted units were taken; an early stop means the rule said full at the next unit; the slave is suggested iff the last unit examined lies more than `memory` behind the log end |
| MessageStore.DefaultMessageStore.GetMessageAt | rocketmq-store/src/main/java/com/alibaba/rocketmq/store/DefaultMessageStore.java:440-597 | null (None) iff the store is shut down or not readable; otherwise the queue is created if missing, the window is reported, an out-of-range offset gives the classification's status and next offset with no messages and no slave suggestion, and an in-range offset gives the scan's status under the written batch rule, at most max(maxMsgNums - 1, 1) messages of positive size each admitted within the transfer ceilings, a next offset in (offset, min(max, offset + 800)] within the index buffer, and the slave suggestion iff the last unit examined lies more than `memory` behind the log end |
| QueueTables.WithQueue | rocketmq-store/src/main/java/com/alibaba/rocketmq/store/DefaultMessageStore.java:929-963 | after get-or-create the queue exists; an existing table is unchanged; a missing queue is a fresh empty one; every other queue is kept as it was and no other queue appears |
| QueueTables.WithQueueIdempotent | rocketmq-store/src/main/java/com/alibaba/rocketmq/store/DefaultMessageStore.java:929-963 | looking the same queue up twice changes nothing the second time |
| MessageStore.DefaultMessageStore.FindConsumeQueue | rocketmq-store/src/main/java/com/alibaba/rocketmq/store/DefaultMessageStore.java:929-963 | the table becomes the get-or-create table, the returned queue is the one stored under (topic, queueId), and it carries that topic and id |
| QueueTables.CleanExpiredRemovesExactlyExpired | rocketmq-store/src/main/java/com/alibaba/rocketmq/store/DefaultMessageStore.java:237-284 | a queue survives cleaning iff its topic is the schedule topic or it is not expired (its last offset is -1 or at least the floor); survivors are untouched; the schedule topic is kept whole; a topic is dropped only when all its queues expired; the removed keys are exactly those of expired non-schedule queues |
| QueueTables.CleanExpiredKeepsWellKeyed | rocketmq-store/src/main/java/com/alibaba/rocketmq/store/DefaultMessageStore.java:237-284 | cleaning keeps every queue under its own topic and id |
| QueueTables.CleanExpiredStep | rocketmq-store/src/main/java/com/alibaba/rocketmq/store/DefaultMessageStore.java:244-282 | cleaning one more topic: the schedule topic stays; another topic is replaced by its surviving queues, or removed when none survive; its expired keys join the removed keys |
| MessageStore.DefaultMessageStore.RemoveExpiredQueues | rocketmq-store/src/main/java/com/alibaba/rocketmq/store/DefaultMessageStore.java:247-276 | the inner loop leaves exactly the surviving queues and removes exactly the expired queues' keys from the commit log's offset table |
| MessageStore.DefaultMessageStore.CleanExpiredConsumerQueue | rocketmq-store/src/main/java/com/alibaba/rocketmq/store/DefaultMessageStore.java:237-284 | the table becomes the cleaned table and the offset table loses exactly the keys of the expired queues |
| QueueTables.KeepTopicsStep | rocketmq-store/src/main/java/com/alibaba/rocketmq/store/DefaultMessageStore.java:1817-1836 | sweeping one more topic: a live topic or the schedule topic stays; any other is dropped and its queue keys join the removed keys |
| QueueTables.KeepTopicsExactly | rocketmq-store/src/main/java/com/alibaba/rocketmq/store/DefaultMessageStore.java:1814-1839 | a queue survives iff its topic is live or is the schedule topic; surviving topics are untouched; the removed keys are exactly those of the dropped topics' queues |
| MessageStore.DefaultMessageStore.ForgetQueues | rocketmq-store/src/main/java/com/alibaba/rocketmq/store/DefaultMessageStore.java:1823-1831 | every key of the dropped topic's queues leaves the commit log's offset table, and no other key |
| MessageStore.DefaultMessageStore.CleanUnusedTopic | rocketmq-store/src/main/java/com/alibaba/rocketmq/store/DefaultMessageStore.java:1814-1839 | returns 0; the table keeps exactly the live topics and the schedule topic; the offset table loses exactly the keys of the dropped topics' queues |
| QueueTables.TrimQueuesStep | rocketmq-store/src/main/java/com/alibaba/rocketmq/store/DefaultMessageStore.java:1121-1127 | trimming one more queue of a topic replaces just that queue by its trimmed version |
| QueueTables.TrimAllStep | rocketmq-store/src/main/java/com/alibaba/rocketmq/store/DefaultMessageStore.java:1120-1128 | trimming one more topic replaces just that topic by its trimmed queues |
| QueueTables.TrimAllKeepsQueues | rocketmq-store/src/main/java/com/alibaba/rocketmq/store/DefaultMessageStore.java:1120-1128 | trimming the whole table keeps exactly the same queues and every queue's units; each min offset only moves forward, past the units below the floor, to the first unit at or above it |
| QueueTables.MaxOffsetTableStep | rocketmq-store/src/main/java/com/alibaba/rocketmq/store/DefaultMessageStore.java:1120-1125 | rebuilding the offsets of one more topic adds exactly that topic's queues' max offsets |
| QueueTables.MaxOffsetTableExactly | rocketmq-store/src/main/java/com/alibaba/rocketmq/store/DefaultMessageStore.java:1117-1131 | the rebuilt offset table has a key exactly for each queue of the table, mapped to that queue's max offset |
| MessageStore.DefaultMessageStore.RecoverQueues | rocketmq-store/src/main/java/com/alibaba/rocketmq/store/DefaultMessageStore.java:1121-1127 | the inner loop gives exactly the topic's queues' max offsets and the topic's queues trimmed to the floor |
| MessageStore.DefaultMessageStore.RecoverTopicQueueTable | rocketmq-store/src/main/java/com/alibaba/rocketmq/store/DefaultMessageStore.java:1117-1131 | the offset table becomes the rebuilt max-offset table of the old queues, and every queue is trimmed to the commit log's floor |
| QueueTables.PutPosition | rocketmq-store/src/main/java/com/alibaba/rocketmq/store/DefaultMessageStore.java:1143-1147 | after writing a position, the queue exists |
| QueueTables.PutPositionAppends | rocketmq-store/src/main/java/com/alibaba/rocketmq/store/DefaultMessageStore.java:1143-1147 | writing a position appends its unit to its own queue and changes no other queue's units; only that queue can be new; no min offset moves |
| MessageStore.DefaultMessageStore.PutMessagePositionInfo | rocketmq-store/src/main/java/com/alibaba/rocketmq/store/DefaultMessageStore.java:1143-1147 | the table becomes the table with the position written (get-or-create, then append) |
| QueueTables.DispatchAppends | rocketmq-store/src/main/java/com/alibaba/rocketmq/store/DefaultMessageStore.java:1620-1638 | dispatching a request list appends to each queue exactly the units of the none/commit requests routed to it, in request order; prepared and rolled-back requests write nothing; queues appear only for routed requests; no min offset moves |
| DispatchService.DispatchMessageService.HasRemainMessage | rocketmq-store/src/main/java/com/alibaba/rocketmq/store/DefaultMessageStore.java:1567-1579 | true iff the write list or the read list is non-empty |
| DispatchService.DispatchMessageService.PutRequest | rocketmq-store/src/main/java/com/alibaba/rocketmq/store/DefaultMessageStore.java:1582-1593 | the request joins the end of the write list, and so the end of the pending requests |
| DispatchService.DispatchMessageService.SwapRequests | rocketmq-store/src/main/java/com/alibaba/rocketmq/store/DefaultMessageStore.java:1613-1617 | the lists exchange places; the multiset of pending requests is unchanged; with an empty read list even their order is unchanged |
| DispatchService.DispatchMessageService.DoDispatch | rocketmq-store/src/main/java/com/alibaba/rocketmq/store/DefaultMessageStore.java:1620-1646 | the table becomes the old table with the read list dispatched in order; the read list goes to the index service iff it was non-empty and indexing is on; the read list ends empty |
| DispatchService.DispatchMessageService.DispatchRound | rocketmq-store/src/main/java/com/alibaba/rocketmq/store/DefaultMessageStore.java:1652-1683 | a wait-end swap followed by a dispatch, from an empty read list, dispatches exactly the requests written so far, in order, hands that batch to the index service iff it is non-empty and indexing is on, and leaves both lists empty |
| ReputService.ReputAdvancesInOrder | rocketmq-store/src/main/java/com/alibaba/rocketmq/store/DefaultMessageStore.java:1710-1752 | the scan never moves backwards; it dispatches only records of positive size, each within the scanned range, in log order and without overlap; it stops only where nothing is readable or the record is invalid (-1) |
| ReputService.ReputResumesQuietly | rocketmq-store/src/main/java/com/alibaba/rocketmq/store/DefaultMessageStore.java:1710-1752 | scanning again from where a scan stopped dispatches nothing and stays put |
| ReputService.OnTrackStep | rocketmq-store/src/main/java/com/alibaba/rocketmq/store/DefaultMessageStore.java:1715-1749 | each branch of the loop body (record, blank, invalid, nothing readable) keeps the scan on course to its result |
| ReputService.ReputMessageService.DoReput | rocketmq-store/src/main/java/com/alibaba/rocketmq/store/DefaultMessageStore.java:1710-1752 | the reput offset ends where the scan from the old offset ends, and the dispatcher's write list gains exactly the scan's records, in order |
| MessageIds.IdsOfExactly | rocketmq-store/src/main/java/com/alibaba/rocketmq/store/DefaultMessageStore.java:1864-1870 | the listing of a range holds the id of every unit in it and nothing else, each id mapped to an offset in the range whose unit has that id |
| MessageIds.AsWrittenEnd | rocketmq-store/src/main/java/com/alibaba/rocketmq/store/DefaultMessageStore.java:1858-1884 | the written loops stop at the upper bound when it is reached, otherwise at the bound or one past it, never past the queue's max offset |
| MessageIds.PutBufferIds | rocketmq-store/src/main/java/com/alibaba/rocketmq/store/DefaultMessageStore.java:1863-1874 | the written inner loop puts the buffer's ids and stops once the next offset passes the bound, i.e. after the unit at the bound |
| MessageIds.CollectMessageIdsAsWritten | rocketmq-store/src/main/java/com/alibaba/rocketmq/store/DefaultMessageStore.java:1842-1887 | getMessageIds as written lists the ids of the clamped range up to where the written loops stop |
| MessageIds.PutNextBuffer | rocketmq-store/src/main/java/com/alibaba/rocketmq/store/DefaultMessageStore.java:1860-1874 | one pass of the written outer loop extends the listing to where the inner loop stopped: the end of the listing when it stopped past the bound, otherwise strictly further without changing where the listing ends |
| MessageIds.AsWrittenEndOnLayouts | rocketmq-store/src/main/java/com/alibaba/rocketmq/store/DefaultMessageStore.java:1859-1873 | for offsets 0 to 2, the written loops stop at 2 with two units per queue file and at 3 with four |
| MessageIds.AsWrittenDependsOnFileLayout | rocketmq-store/src/main/java/com/alibaba/rocketmq/store/DefaultMessageStore.java:1859-1873 | the unit at the upper bound is left out with two units per queue file and listed with four |
| MessageIds.PutBufferIdsBelow | rocketmq-store/src/main/java/com/alibaba/rocketmq/store/DefaultMessageStore.java:1863-1874 | the corrected inner loop puts the buffer's ids and stops on reaching the bound |
| MessageIds.CollectMessageIds | rocketmq-store/src/main/java/com/alibaba/rocketmq/store/DefaultMessageStore.java:1842-1887 | corrected getMessageIds (not what the store calls) lists exactly the ids of [max(min, queue min), min(max, queue max)) |
| MessageIds.CollectedIdsIndependentOfLayout | rocketmq-store/src/main/java/com/alibaba/rocketmq/store/DefaultMessageStore.java:1851-1859 | the corrected listing holds every unit of the clamped range and only offsets inside it, whatever the file layout |
| MessageStore.DefaultMessageStore.GetMessageIds | rocketmq-store/src/main/java/com/alibaba/rocketmq/store/DefaultMessageStore.java:1842-1887 | empty once the store is shut down; otherwise the queue is created if missing and the written listing is returned: the ids of the clamped range up to where the written loops stop, which may include the unit at the upper bound |
| MessageStore.FallBehindMonotone | rocketmq-store/src/main/java/com/alibaba/rocketmq/store/DefaultMessageStore.java:1808-1810 | the slave's lag (log max offset minus pushed offset) shrinks as the slave catches up and grows with the log; it is zero exactly when everything was pushed |
| CleanServices.NextManualCount | rocketmq-store/src/main/java/com/alibaba/rocketmq/store/DefaultMessageStore.java:1269-1275 | a round spends one manual round when some remain, and none otherwise |
| CleanServices.ManualCountdown | rocketmq-store/src/main/java/com/alibaba/rocketmq/store/DefaultMessageStore.java:1269-1275 | after r rounds a count c stands at max(c - r, 0), and exactly min(c, r) of those rounds were manual |
| CleanServices.ManualRequestBuysTwentyRounds | rocketmq-store/src/main/java/com/alibaba/rocketmq/store/DefaultMessageStore.java:1204-1219 | after a manual request, the next 20 rounds delete regardless of schedule and disk; the count is exhausted after that |
| CleanServices.CleanCommitLogService.ExecuteDeleteFilesManually | rocketmq-store/src/main/java/com/alibaba/rocketmq/store/DefaultMessageStore.java:1218-1221 | the manual count is set to 20 |
| CleanServices.CleanCommitLogService.DeleteExpiredFiles | rocketmq-store/src/main/java/com/alibaba/rocketmq/store/DefaultMessageStore.java:1259-1305 | a delete is ordered iff it is time, the disk is full, or manual rounds remain; one manual round is spent; the order carries the retention in milliseconds, the two intervals, and clean-at-once iff forcible cleaning is enabled and the disk check asked for immediate cleaning |
| CleanServices.CleanCommitLogService.RedeleteHangedFile | rocketmq-store/src/main/java/com/alibaba/rocketmq/store/DefaultMessageStore.java:1244-1256 | the hung first file is retried iff more than the interval has passed since the last retry, and then the retry time is recorded |
| CleanServices.CleanConsumeQueueService.DeleteExpiredQueueFiles | rocketmq-store/src/main/java/com/alibaba/rocketmq/store/DefaultMessageStore.java:1432-1442 | the inner loop trims each of the topic's queues to the floor |
| CleanServices.CleanConsumeQueueService.DeleteExpiredFiles | rocketmq-store/src/main/java/com/alibaba/rocketmq/store/DefaultMessageStore.java:1419-1448 | the recorded floor never goes down; when the log's floor rose, every queue is trimmed to it and the index service is asked to delete below it; otherwise nothing changes |
| FlushService.FlushLeastPages | rocketmq-store/src/main/java/com/alibaba/rocketmq/store/DefaultMessageStore.java:1478-1495 | the least-pages threshold is 0 iff this is the final round (3 retries), a thorough flush is due, or the configured value is 0; otherwise it is the configured value |
| FlushService.CommitWithRetries | rocketmq-store/src/main/java/com/alibaba/rocketmq/store/DefaultMessageStore.java:1502-1505 | at most retryTimes attempts, stopping at the first success; the result is true iff some attempt among the first retryTimes succeeds; every earlier attempt failed |
| FlushService.CommitQueues | rocketmq-store/src/main/java/com/alibaba/rocketmq/store/DefaultMessageStore.java:1501-1506 | every queue of the topic is committed, each with its own retries, and its outcome recorded |
| FlushService.FlushConsumeQueueService.DoFlush | rocketmq-store/src/main/java/com/alibaba/rocketmq/store/DefaultMessageStore.java:1474-1515 | the flush time moves to now iff a thorough flush is due; the threshold follows the least-pages rule; every queue of the table is committed and its outcome recorded; the checkpoint is flushed iff the threshold is 0, with the logical timestamp written back when a thorough round read a positive one |

## Left out

- Threads, locks, `volatile` and the service run loops (`waitForRunning`, `notify`, scheduled executors, the 5-second sleep before the last dispatch). Each service step is a sequential method, and `DispatchRound` stands for one wait-end swap followed by a dispatch.
- `putRequest`'s high-water sleep and its statistics update: they only delay the producer.
- The commit log, the consume queues' file handling, the index service, the HA service, the message decoder and the message filter are not part of this model. They appear only through:
  - `CommitLogView` (min and max offsets, segment size, record checker);
  - `ConsumeQueue` values;
  - `Subscription`;
  - `TransferLimits`;
  - parameters for answers such as the commit log's put result and the per-attempt commit result.
- Consume queues are values, but the Java code shares `ConsumeQueue` objects between the table and their users. Aliasing is not captured. Deleting a queue's files (`destroy`, `deleteExpiredFile`) is captured only as the queue leaving the table, or as its minimum offset moving up. `TrimBelow` works at unit granularity, not file granularity.
- `CommitLogView.Valid` requires that the record checker reports only -1, 0 or a positive size. On any other negative size, `doReput`'s inner loop would not advance.
- The commit log's `topic-queueId` string key is modelled as the pair (topic, queue id). The string key would conflate, for example, topic `x-` with queue 1 and topic `x` with queue -1.
- The offset-table updates use the table's key. The source uses the queue object's own topic and id, which agree with the key in a well-keyed table.
- Java `HashMap` and `ConcurrentHashMap` iteration order: every map loop here picks the next key arbitrarily, and each result is proved independent of that order.
- 64-bit and 32-bit integer widths are not modelled; offsets, sizes and counters are unbounded integers. For example, `fileReservedTime * 60 * 60 * 1000` cannot overflow here.
- The memory estimate `TotalPhysicalMemorySize * ratio / 100.0` is floating point and is the integer parameter `memory`.
- Wall-clock readings are parameters (`now`). The schedule check `isTimeToDelete` and the disk check `isSpaceToDelete` (floating-point disk ratios) are the booleans `timeup`, `spacefull` and `diskPressure`. `diskPressure` is the value the disk check leaves in `cleanImmediately`.
- Logging, `printTimes` and every `storeStatsService` counter.
- The `OFFSET_FOUND_NULL` and `NO_MATCHED_LOGIC_QUEUE` branches of `getMessage` cannot occur in this model. `findConsumeQueue` always returns a queue, and an in-window offset always yields an index buffer. For the same reason, `getMessageIds`' return on a null buffer is not modelled.
- `putMessagePostionInfoWrapper`'s own checks and retries inside the consume queue: a position is simply appended.
- A message id is the pair (store host, commit-log offset) it encodes, not its byte encoding.
- The checkpoint flush is returned as a `CheckpointAction` rather than performed.
- The commit log's deletion is returned as a `DeleteOrder` rather than performed, and the warning when nothing could be deleted is not modelled.
- `queryMessage`, loading, recovery of the commit log and consume queues, the abort marker file, and the getters and statistics not listed above.
- GetMessage.ScanIndexBuffer: when an accepted unit was found removed, the contract says only that every message returned comes, in order, from an accepted readable unit examined. Which later units the segment skip passes over is not characterised.
- MessageStore.DefaultMessageStore.GetMessageAt: the contract repeats the scan's status, window, count bound, transfer ceilings and slave suggestion, but not its unit-by-unit description, which `GetMessage.ScanIndexBuffer` states.
- MessageStore.DefaultMessageStore.SlaveFallBehindMuch has no contract of its own: it is the lag `FallBehind`, whose properties `MessageStore.FallBehindMonotone` states.

## Findings

The store's operations (`GetMessageAt`, `GetMessageIds`) follow the code as written. The scan takes the batch rule as a parameter, so the corrected rule and the corrected listing are proved on the same scan and listing code.

| source | as written | input that shows it | evidently intended | confidence | as-written member | corrected member |
|---|---|---|---|---|---|---|
| rocketmq-store/src/main/java/com/alibaba/rocketmq/store/DefaultMessageStore.java:978-980 | `isTheBatchFull` reports full once `messageTotal + 1 >= maxMsgNums`, so a batch closes holding maxMsgNums - 1 messages | maxMsgNums = 2, one 100-byte message taken, transfer ceilings far away: the batch is full and the pull returns 1 message | full once the batch already holds maxMsgNums messages (`messageTotal >= maxMsgNums`), so a pull can return the count asked for | not executed | BatchLimit.AsWrittenStopsAtOneOfTwo | BatchLimit.IntendedRuleBoundsBatch |
| rocketmq-store/src/main/java/com/alibaba/rocketmq/store/DefaultMessageStore.java:1859-1873 | `getMessageIds` bounds the outer loop by `nextOffset < maxOffset` and the inner loop by `nextOffset > maxOffset`, so the unit at maxOffset is listed only when it shares an index buffer with the unit before it | a queue of at least 3 units, ids asked for offsets 0 to 2: with 2 units per queue file, offset 2 is not listed; with 4 units per file, it is | list exactly the units in [minOffset, maxOffset), independently of the queue's file layout | not executed | MessageIds.AsWrittenDependsOnFileLayout | MessageIds.CollectedIdsIndependentOfLayout |
