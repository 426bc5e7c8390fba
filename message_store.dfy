/** The message store: its running state, its consume-queue table, the
    commit log's offset table, and the operations that read and reshape them. */
module MessageStore {
  import opened StoreTypes
  import opened ConsumeQueues
  import opened CommitLogs
  import opened BatchLimit
  import opened PutMessageAdmission
  import opened GetMessage
  import opened QueueTables
  import opened MessageIds

  /** What a pull returns: a status, the offset to pull from next, the
      queue's window, the message buffers taken, and whether the consumer
      should turn to a slave. */
  datatype GetMessageResult = GetMessageResult(
    status: GetMessageStatus,
    nextBeginOffset: int,
    minOffset: int,
    maxOffset: int,
    messages: seq<SelectedMessage>,
    suggestPullingFromSlave: bool)

  /** How far the slave lags behind: log bytes not yet pushed to it. */
  function FallBehind(commitLogMaxOffset: int, pushedToSlaveOffset: int): int
  {
    commitLogMaxOffset - pushedToSlaveOffset
  }

  /** The lag shrinks as the slave catches up and grows as the log grows;
      it is zero exactly when the slave holds everything. */
  lemma FallBehindMonotone(maxOffset: int, pushed: int, maxOffset': int, pushed': int)
    requires pushed <= pushed' && maxOffset' <= maxOffset
    ensures FallBehind(maxOffset', pushed') <= FallBehind(maxOffset, pushed)
    ensures FallBehind(maxOffset, pushed) == 0 <==> pushed == maxOffset
    ensures pushed <= maxOffset ==> FallBehind(maxOffset, pushed) >= 0
  {
  }

  class DefaultMessageStore {
    var shutdown: bool
    var role: BrokerRole
    var writeable: bool
    var readable: bool
    /** topic -> queue id -> consume queue */
    var consumeQueueTable: Table
    /** The commit log's table of next queue offsets, keyed by (topic, queue id). */
    var topicQueueTable: map<QueueKey, int>
    var commitLog: CommitLogView
    /** Units per consume-queue file (the queue's file size over the unit size). */
    var unitsPerFile: int
    /** Bytes of the log taken to still be in memory (the configured share of physical memory). */
    var memory: int
    var limits: TransferLimits
    var messageIndexEnable: bool
    /** Batches of dispatch requests handed to the index service. */
    var indexRequests: seq<seq<DispatchRequest>>
    /** Commit-log floors the index service was asked to delete below. */
    var indexDeleteFloors: seq<int>
    /** The offset up to which the log has been pushed to the slave. */
    var pushedToSlaveOffset: int

    ghost predicate Valid()
      reads this
    {
      WellKeyed(consumeQueueTable) && commitLog.Valid() && 0 < unitsPerFile
    }

    constructor(role: BrokerRole, commitLog: CommitLogView, unitsPerFile: int, memory: int,
                limits: TransferLimits, messageIndexEnable: bool)
      requires commitLog.Valid() && 0 < unitsPerFile
      ensures Valid()
      ensures !shutdown && this.role == role && writeable && readable
      ensures consumeQueueTable == map[] && topicQueueTable == map[]
      ensures this.commitLog == commitLog && this.unitsPerFile == unitsPerFile
      ensures this.memory == memory && this.limits == limits && this.messageIndexEnable == messageIndexEnable
      ensures indexRequests == [] && indexDeleteFloors == [] && pushedToSlaveOffset == 0
    {
      shutdown := false;
      this.role := role;
      writeable := true;
      readable := true;
      consumeQueueTable := map[];
      topicQueueTable := map[];
      this.commitLog := commitLog;
      this.unitsPerFile := unitsPerFile;
      this.memory := memory;
      this.limits := limits;
      this.messageIndexEnable := messageIndexEnable;
      indexRequests := [];
      indexDeleteFloors := [];
      pushedToSlaveOffset := 0;
    }

    /** Write path. `commitLogResult` stands for what the commit log answers
        when the message reaches it; `calledCommitLog` says whether it did. */
    method PutMessage(msg: Message, commitLogResult: PutMessageStatus)
      returns (status: PutMessageStatus, calledCommitLog: bool)
      ensures calledCommitLog <==> AcceptsWrites(shutdown, role, writeable) && FitsRecordFormat(msg)
      ensures calledCommitLog ==> status == commitLogResult
      ensures !AcceptsWrites(shutdown, role, writeable) ==> status == ServiceNotAvailable
      ensures AcceptsWrites(shutdown, role, writeable) && !FitsRecordFormat(msg) ==> status == MessageIllegal
    {
      var admission := Admit(shutdown, role, writeable, msg);
      if admission.Rejected? {
        return admission.status, false;
      }
      return commitLogResult, true;
    }

    /** Get-or-create of the queue (topic, queueId). */
    method FindConsumeQueue(topic: string, queueId: int) returns (cq: ConsumeQueue)
      requires Valid()
      modifies this`consumeQueueTable
      ensures Valid()
      ensures consumeQueueTable == WithQueue(old(consumeQueueTable), topic, queueId)
      ensures HasQueue(consumeQueueTable, topic, queueId) && cq == consumeQueueTable[topic][queueId]
      ensures cq.topic == topic && cq.queueId == queueId && cq.Valid()
    {
      if topic !in consumeQueueTable {
        consumeQueueTable := consumeQueueTable[topic := map[]];
      }
      var queues := consumeQueueTable[topic];
      if queueId in queues {
        cq := queues[queueId];
      } else {
        cq := NewQueue(topic, queueId);
        consumeQueueTable := consumeQueueTable[topic := queues[queueId := cq]];
      }
      WithQueueKeepsWellKeyed(old(consumeQueueTable), topic, queueId);
    }

    /** Pull path: None when the store is shut down or not readable (the
        source's null result); otherwise the window status, or the scan of
        the index units at `offset` under the batch rule as written, which
        closes a batch at maxMsgNums - 1 messages. The queue is created if it
        was missing. */
    method GetMessageAt(topic: string, queueId: int, offset: int, maxMsgNums: int, sub: Subscription)
      returns (r: Option<GetMessageResult>)
      requires Valid()
      modifies this`consumeQueueTable
      ensures Valid()
      ensures r.None? <==> shutdown || !readable
      ensures r.None? ==> consumeQueueTable == old(consumeQueueTable)
      ensures r.Some? ==> consumeQueueTable == WithQueue(old(consumeQueueTable), topic, queueId)
      ensures r.Some? ==>
                var cq := consumeQueueTable[topic][queueId];
                r.value.minOffset == cq.minOffset && r.value.maxOffset == cq.MaxOffset()
                && match ClassifyOffset(offset, cq.minOffset, cq.MaxOffset())
                   case OutOfRange(status, next) =>
                     r.value.status == status && r.value.nextBeginOffset == next && r.value.messages == []
                     && !r.value.suggestPullingFromSlave
                   case InRange =>
                     (r.value.status == Found || r.value.status == NoMatchedMessage || r.value.status == MessageWasRemoving)
                     && (r.value.status == Found <==> r.value.messages != [])
                     && offset < r.value.nextBeginOffset <= offset + MaxUnitsPerScan
                     && r.value.nextBeginOffset <= cq.MaxOffset()
                     && |r.value.messages| <= (if maxMsgNums - 1 < 1 then 1 else maxMsgNums - 1)
                     && WithinCeilings(WrittenRule, maxMsgNums, commitLog, memory, limits, r.value.messages)
                     && (forall j :: 0 <= j < |r.value.messages| ==> 0 < r.value.messages[j].size)
                     && r.value.nextBeginOffset <= offset + |IndexBuffer(cq, offset, unitsPerFile)|
                     && (r.value.suggestPullingFromSlave <==>
                           commitLog.maxOffset
                           - LastPulledOffset(IndexBuffer(cq, offset, unitsPerFile), r.value.nextBeginOffset - offset)
                           > memory)
    {
      if shutdown || !readable {
        return None;
      }
      var cq := FindConsumeQueue(topic, queueId);
      var minOffset := cq.minOffset;
      var maxOffset := cq.MaxOffset();
      var window := ClassifyOffset(offset, minOffset, maxOffset);
      if window.OutOfRange? {
        return Some(GetMessageResult(window.status, window.nextBeginOffset, minOffset, maxOffset, [], false));
      }
      var buf := IndexBuffer(cq, offset, unitsPerFile);
      var status, messages, nextBeginOffset, suggest, _ :=
        ScanIndexBuffer(offset, buf, WrittenRule, maxMsgNums, sub, commitLog, memory, limits);
      return Some(GetMessageResult(status, nextBeginOffset, minOffset, maxOffset, messages, suggest));
    }

    /** Drops every queue whose messages all lie below the commit log's
        floor, and every topic left without queues; the schedule topic is
        never touched. The commit log forgets the dropped queues' offsets. */
    method CleanExpiredConsumerQueue()
      requires Valid()
      modifies this`consumeQueueTable, this`topicQueueTable
      ensures Valid()
      ensures consumeQueueTable == CleanExpired(old(consumeQueueTable), commitLog.minOffset)
      ensures topicQueueTable == old(topicQueueTable) - ExpiredKeysOf(old(consumeQueueTable), commitLog.minOffset)
    {
      var minCommitLogOffset := commitLog.minOffset;
      ghost var t0 := consumeQueueTable;
      ghost var q0 := topicQueueTable;
      var pending := consumeQueueTable.Keys;
      while pending != {}
        invariant pending <= t0.Keys
        invariant consumeQueueTable == CleanExpiredExcept(t0, minCommitLogOffset, pending)
        invariant topicQueueTable == q0 - ExpiredKeysExcept(t0, minCommitLogOffset, pending)
        decreases |pending|
      {
        var topic :| topic in pending;
        CleanExpiredStep(t0, minCommitLogOffset, pending, topic);
        if topic != ScheduleTopic {
          var queueTable := consumeQueueTable[topic];
          assert queueTable == t0[topic];
          var surviving := RemoveExpiredQueues(topic, queueTable, minCommitLogOffset);
          RemoveBothKeySets(q0, ExpiredKeysExcept(t0, minCommitLogOffset, pending), ExpiredKeys(topic, queueTable, minCommitLogOffset));
          if surviving == map[] {
            consumeQueueTable := consumeQueueTable - {topic};
          } else {
            consumeQueueTable := consumeQueueTable[topic := surviving];
          }
        }
        pending := pending - {topic};
      }
      assert pending == {};
      CleanExpiredKeepsWellKeyed(t0, minCommitLogOffset);
    }

    /** The inner loop of CleanExpiredConsumerQueue over one topic's queues
        (walked by their (topic, queue id) keys). */
    method RemoveExpiredQueues(topic: string, queueTable: map<int, ConsumeQueue>, minCommitLogOffset: int)
      returns (surviving: map<int, ConsumeQueue>)
      modifies this`topicQueueTable
      ensures surviving == SurvivingQueues(queueTable, minCommitLogOffset)
      ensures topicQueueTable == old(topicQueueTable) - ExpiredKeys(topic, queueTable, minCommitLogOffset)
    {
      surviving := queueTable;
      var pending := QueueKeys(topic, queueTable);
      assert forall q :: q in queueTable ==> (topic, q) in pending;
      while pending != {}
        invariant pending <= QueueKeys(topic, queueTable)
        invariant surviving == map q | q in queueTable
                                       && ((topic, q) in pending || !Expired(queueTable[q], minCommitLogOffset))
                                 :: queueTable[q]
        invariant topicQueueTable == old(topicQueueTable) - (ExpiredKeys(topic, queueTable, minCommitLogOffset) - pending)
        decreases |pending|
      {
        var key :| key in pending;
        var queueId := key.1;
        var maxCLOffsetInConsumeQueue := queueTable[queueId].LastOffset();
        if maxCLOffsetInConsumeQueue == -1 {
          // a queue created just now: kept
        } else if maxCLOffsetInConsumeQueue < minCommitLogOffset {
          topicQueueTable := topicQueueTable - {(topic, queueId)};
          surviving := surviving - {queueId};
        }
        pending := pending - {key};
      }
    }

    /** Drops every topic that is neither in `topics` nor the schedule topic,
        together with the commit log's offsets for its queues; always answers 0. */
    method CleanUnusedTopic(topics: set<string>) returns (r: int)
      requires Valid()
      modifies this`consumeQueueTable, this`topicQueueTable
      ensures Valid()
      ensures r == 0
      ensures consumeQueueTable == KeepTopics(old(consumeQueueTable), topics)
      ensures topicQueueTable == old(topicQueueTable) - UnusedQueueKeys(old(consumeQueueTable), topics)
    {
      ghost var t0 := consumeQueueTable;
      ghost var q0 := topicQueueTable;
      var pending := consumeQueueTable.Keys;
      while pending != {}
        invariant pending <= t0.Keys
        invariant consumeQueueTable == KeepTopicsExcept(t0, topics, pending)
        invariant topicQueueTable == q0 - UnusedQueueKeysExcept(t0, topics, pending)
        decreases |pending|
      {
        var topic :| topic in pending;
        KeepTopicsStep(t0, topics, pending, topic);
        if topic !in topics && topic != ScheduleTopic {
          ForgetQueues(topic, consumeQueueTable[topic]);
          consumeQueueTable := consumeQueueTable - {topic};
        }
        pending := pending - {topic};
      }
      assert pending + topics + {ScheduleTopic} == topics + {ScheduleTopic};
      KeepTopicsExactly(t0, topics);
      r := 0;
    }

    /** Removes from the commit log's offset table the keys of one topic's queues. */
    method ForgetQueues(topic: string, queueTable: map<int, ConsumeQueue>)
      modifies this`topicQueueTable
      ensures topicQueueTable == old(topicQueueTable) - QueueKeys(topic, queueTable)
    {
      var pending := QueueKeys(topic, queueTable);
      while pending != {}
        invariant pending <= QueueKeys(topic, queueTable)
        invariant topicQueueTable == old(topicQueueTable) - (QueueKeys(topic, queueTable) - pending)
        decreases |pending|
      {
        var key :| key in pending;
        topicQueueTable := topicQueueTable - {(topic, key.1)};
        pending := pending - {key};
      }
    }

    /** Recovery: rebuild the commit log's offset table from every queue's
        max offset, and move each queue's minimum offset up to the log's floor. */
    method RecoverTopicQueueTable()
      requires Valid()
      modifies this`consumeQueueTable, this`topicQueueTable
      ensures Valid()
      ensures topicQueueTable == MaxOffsetTable(old(consumeQueueTable))
      ensures consumeQueueTable == TrimAll(old(consumeQueueTable), commitLog.minOffset)
    {
      var minPhyOffset := commitLog.minOffset;
      ghost var t0 := consumeQueueTable;
      var table: map<QueueKey, int> := map[];
      var pending := consumeQueueTable.Keys;
      while pending != {}
        invariant pending <= t0.Keys
        invariant WellKeyed(t0)
        invariant consumeQueueTable == TrimAllExcept(t0, minPhyOffset, pending)
        invariant table == MaxOffsetTableExcept(t0, pending)
        decreases |pending|
      {
        var topic :| topic in pending;
        var corrected, offsets := RecoverQueues(topic, consumeQueueTable[topic], minPhyOffset);
        MaxOffsetTableStep(t0, pending, topic);
        TrimAllStep(t0, minPhyOffset, pending, topic);
        table := table + offsets;
        consumeQueueTable := consumeQueueTable[topic := corrected];
        pending := pending - {topic};
      }
      topicQueueTable := table;
      TrimAllKeepsQueues(t0, minPhyOffset);
    }

    /** The inner loop of RecoverTopicQueueTable over one topic's queues:
        each queue's max offset under its key, and each queue trimmed. */
    method RecoverQueues(topic: string, queues: map<int, ConsumeQueue>, minPhyOffset: int)
      returns (corrected: map<int, ConsumeQueue>, offsets: map<QueueKey, int>)
      requires forall q :: q in queues ==> queues[q].Valid()
      ensures corrected == TrimQueues(queues, minPhyOffset)
      ensures offsets == QueueMaxOffsets(topic, queues)
    {
      corrected := queues;
      offsets := map[];
      var pending := QueueKeys(topic, queues);
      TrimQueuesEnds(topic, queues, minPhyOffset);
      while pending != {}
        invariant pending <= QueueKeys(topic, queues)
        invariant corrected == TrimQueuesExcept(topic, queues, minPhyOffset, pending)
        invariant offsets == QueueMaxOffsetsExcept(topic, queues, pending)
        decreases |pending|
      {
        var key :| key in pending;
        TrimQueuesStep(topic, queues, minPhyOffset, pending, key);
        QueueMaxOffsetsStep(topic, queues, pending, key);
        var logic := queues[key.1];
        offsets := offsets[key := logic.MaxOffset()];
        corrected := corrected[key.1 := logic.TrimBelow(minPhyOffset)];
        pending := pending - {key};
      }
    }

    /** Writes one message's position into its consume queue, creating the queue if needed. */
    method PutMessagePositionInfo(topic: string, queueId: int, offset: int, size: int, tagsCode: int,
                                  storeTimestamp: int, logicOffset: int)
      requires Valid()
      modifies this`consumeQueueTable
      ensures Valid()
      ensures consumeQueueTable == PutPosition(old(consumeQueueTable), topic, queueId, CqEntry(offset, size, tagsCode))
    {
      var cq := FindConsumeQueue(topic, queueId);
      consumeQueueTable := consumeQueueTable[topic := consumeQueueTable[topic][queueId := cq.Put(CqEntry(offset, size, tagsCode))]];
      PutPositionAppends(old(consumeQueueTable), topic, queueId, CqEntry(offset, size, tagsCode));
    }

    /** The ids of the units of (topic, queueId) in [minOffset, maxOffset),
        clamped to the queue's window; empty once the store is shut down.
        The listing is the one the store performs, which may also hold the
        unit at maxOffset (see CollectMessageIdsAsWritten). */
    method GetMessageIds(topic: string, queueId: int, minOffset: int, maxOffset: int, storeHost: string)
      returns (ids: map<MessageId, int>)
      requires Valid()
      modifies this`consumeQueueTable
      ensures Valid()
      ensures shutdown ==> ids == map[] && consumeQueueTable == old(consumeQueueTable)
      ensures !shutdown ==>
                consumeQueueTable == WithQueue(old(consumeQueueTable), topic, queueId)
                && var cq := consumeQueueTable[topic][queueId];
                   var lo := if minOffset > cq.minOffset then minOffset else cq.minOffset;
                   var hi := if maxOffset < cq.MaxOffset() then maxOffset else cq.MaxOffset();
                   ids == IdsOf(cq, storeHost, lo, AsWrittenEnd(cq, lo, hi, unitsPerFile))
    {
      if shutdown {
        return map[];
      }
      var cq := FindConsumeQueue(topic, queueId);
      ids := CollectMessageIdsAsWritten(cq, minOffset, maxOffset, unitsPerFile, storeHost);
    }

    /** How many log bytes the slave has yet to receive. */
    function SlaveFallBehindMuch(): int
      reads this
    {
      FallBehind(commitLog.maxOffset, pushedToSlaveOffset)
    }
  }
}
