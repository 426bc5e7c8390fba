/** Value types shared by the message-store model: the status enumerations the
    store reports, broker roles, the fixed-size consume-queue entry, the
    dispatch request produced for every commit-log record, and the transaction
    bits of a message's system flag. */
module StoreTypes {

  datatype Option<T> = None | Some(value: T)

  /** Outcome of an append (the broker's PutMessageStatus). */
  datatype PutMessageStatus =
    | PutOk
    | FlushDiskTimeout
    | FlushSlaveTimeout
    | SlaveNotAvailable
    | ServiceNotAvailable
    | CreateMapedFileFailed
    | MessageIllegal
    | UnknownError

  /** Outcome of a pull (the broker's GetMessageStatus). */
  datatype GetMessageStatus =
    | Found
    | NoMatchedMessage
    | MessageWasRemoving
    | OffsetFoundNull
    | OffsetOverflowBadly
    | OffsetOverflowOne
    | OffsetTooSmall
    | NoMatchedLogicQueue
    | NoMessageInQueue

  datatype BrokerRole = AsyncMaster | SyncMaster | Slave

  /** Size in bytes of one consume-queue unit: offset (8), size (4), tag code (8). */
  const CqStoreUnitSize: int := 20

  /** Topic of the delay-queue service; cleanup never removes its queues. */
  const ScheduleTopic: string := "SCHEDULE_TOPIC_XXXX"

  /** One consume-queue unit: where a message lives in the commit log. */
  datatype CqEntry = CqEntry(phyOffset: int, size: int, tagsCode: int)

  /** What the commit-log scanner hands to the dispatcher for one record. */
  datatype DispatchRequest = DispatchRequest(
    topic: string,
    queueId: int,
    commitLogOffset: int,
    msgSize: int,
    tagsCode: int,
    storeTimestamp: int,
    consumeQueueOffset: int,
    sysFlag: bv32)

  /** Key of a queue in the commit log's topic-queue offset table. */
  type QueueKey = (string, int)

  // Transaction states encoded in bits 2-3 of a message's system flag.
  const TransactionNotType: bv32 := 0
  const TransactionPreparedType: bv32 := 4
  const TransactionCommitType: bv32 := 8
  const TransactionRollbackType: bv32 := 12

  /** The transaction state of a system flag: the flag masked with the rollback bits. */
  function TransactionValue(sysFlag: bv32): (t: bv32)
    ensures t == TransactionNotType || t == TransactionPreparedType
         || t == TransactionCommitType || t == TransactionRollbackType
  {
    sysFlag & TransactionRollbackType
  }

  /** Only non-transactional and committed messages get a consume-queue position. */
  predicate GoesToConsumeQueue(sysFlag: bv32)
  {
    var t := TransactionValue(sysFlag);
    t == TransactionNotType || t == TransactionCommitType
  }

  /** The consume-queue unit written for a dispatched record. */
  function EntryOf(req: DispatchRequest): CqEntry
  {
    CqEntry(req.commitLogOffset, req.msgSize, req.tagsCode)
  }
}
