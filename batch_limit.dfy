/** The rule that closes a pull batch: a count limit asked for by the
    consumer, and byte/count ceilings that depend on whether the messages are
    likely still in page cache or must be read from disk. */
module BatchLimit {

  /** The store's four transfer ceilings. */
  datatype TransferLimits = TransferLimits(
    maxBytesOnDisk: int,
    maxCountOnDisk: int,
    maxBytesInMemory: int,
    maxCountInMemory: int)

  /** A message further than `memory` bytes behind the log head is taken to be on disk. */
  predicate OnDisk(offsetPy: int, maxOffsetPy: int, memory: int)
  {
    maxOffsetPy - offsetPy > memory
  }

  /** Whether adding one more message of `sizePy` bytes would pass the
      ceilings that apply where that message lives. */
  predicate ExceedsTransferLimits(offsetPy: int, sizePy: int, bufferTotal: int, messageTotal: int,
                                  maxOffsetPy: int, memory: int, limits: TransferLimits)
  {
    if OnDisk(offsetPy, maxOffsetPy, memory) then
      bufferTotal + sizePy > limits.maxBytesOnDisk || messageTotal + 1 > limits.maxCountOnDisk
    else
      bufferTotal + sizePy > limits.maxBytesInMemory || messageTotal + 1 > limits.maxCountInMemory
  }

  /** The store's batch rule as written: an empty batch is never full; a
      batch holding `maxMsgNums - 1` messages or more is full; otherwise the
      on-disk or in-memory ceilings decide. */
  function IsTheBatchFull(offsetPy: int, sizePy: int, maxMsgNums: int, bufferTotal: int, messageTotal: int,
                          maxOffsetPy: int, memory: int, limits: TransferLimits): (full: bool)
    ensures bufferTotal == 0 || messageTotal == 0 ==> !full
    ensures bufferTotal != 0 && messageTotal != 0 && messageTotal + 1 >= maxMsgNums ==> full
    ensures bufferTotal != 0 && messageTotal != 0 && messageTotal + 1 < maxMsgNums ==>
              (full <==> ExceedsTransferLimits(offsetPy, sizePy, bufferTotal, messageTotal, maxOffsetPy, memory, limits))
  {
    if bufferTotal == 0 || messageTotal == 0 then false
    else if messageTotal + 1 >= maxMsgNums then true
    else if maxOffsetPy - offsetPy > memory then
      if bufferTotal + sizePy > limits.maxBytesOnDisk then true
      else if messageTotal + 1 > limits.maxCountOnDisk then true
      else false
    else
      if bufferTotal + sizePy > limits.maxBytesInMemory then true
      else if messageTotal + 1 > limits.maxCountInMemory then true
      else false
  }

  /** A full batch stays full as it grows: more bytes or more messages
      never reopen it for the same candidate message. */
  lemma BatchFullIsMonotone(offsetPy: int, sizePy: int, maxMsgNums: int, b: int, m: int, b': int, m': int,
                            maxOffsetPy: int, memory: int, limits: TransferLimits)
    requires IsTheBatchFull(offsetPy, sizePy, maxMsgNums, b, m, maxOffsetPy, memory, limits)
    requires b <= b' && m <= m'
    requires b > 0 && m > 0
    ensures IsTheBatchFull(offsetPy, sizePy, maxMsgNums, b', m', maxOffsetPy, memory, limits)
  {
  }

  /** As written, the count rule closes the batch one message early: once
      it holds maxMsgNums - 1 messages it is full, so a pull asking for
      maxMsgNums >= 2 messages never receives that many. */
  lemma AsWrittenStopsBeforeMaxMsgNums(offsetPy: int, sizePy: int, maxMsgNums: int, bufferTotal: int,
                                        maxOffsetPy: int, memory: int, limits: TransferLimits)
    requires maxMsgNums >= 2 && bufferTotal > 0
    ensures IsTheBatchFull(offsetPy, sizePy, maxMsgNums, bufferTotal, maxMsgNums - 1, maxOffsetPy, memory, limits)
  {
  }

  /** The concrete case: two messages asked for, one 100-byte message
      already taken, ceilings far away; the written rule stops, the intended
      one takes the second message. */
  lemma AsWrittenStopsAtOneOfTwo()
    ensures IsTheBatchFull(0, 100, 2, 100, 1, 1000, 1073741824, TransferLimits(1048576, 32, 1048576, 32))
    ensures !IsTheBatchFullIntended(0, 100, 2, 100, 1, 1000, 1073741824, TransferLimits(1048576, 32, 1048576, 32))
  {
  }

  /** The batch rule with the count limit the consumer asked for: full once
      it already holds maxMsgNums messages. */
  function IsTheBatchFullIntended(offsetPy: int, sizePy: int, maxMsgNums: int, bufferTotal: int, messageTotal: int,
                                  maxOffsetPy: int, memory: int, limits: TransferLimits): (full: bool)
    ensures bufferTotal == 0 || messageTotal == 0 ==> !full
    ensures bufferTotal != 0 && messageTotal != 0 && messageTotal >= maxMsgNums ==> full
    ensures messageTotal < maxMsgNums
            && !ExceedsTransferLimits(offsetPy, sizePy, bufferTotal, messageTotal, maxOffsetPy, memory, limits)
            ==> !full
    ensures full && messageTotal < maxMsgNums ==>
              ExceedsTransferLimits(offsetPy, sizePy, bufferTotal, messageTotal, maxOffsetPy, memory, limits)
  {
    if bufferTotal == 0 || messageTotal == 0 then false
    else if messageTotal >= maxMsgNums then true
    else ExceedsTransferLimits(offsetPy, sizePy, bufferTotal, messageTotal, maxOffsetPy, memory, limits)
  }

  /** Admitting a message only while the intended rule says "not full" keeps
      a batch within what the consumer asked for (at least one message is
      always allowed, as in the written rule). */
  lemma IntendedRuleBoundsBatch(offsetPy: int, sizePy: int, maxMsgNums: int, bufferTotal: int, messageTotal: int,
                                maxOffsetPy: int, memory: int, limits: TransferLimits)
    requires 0 <= messageTotal && (bufferTotal == 0 <==> messageTotal == 0)
    requires messageTotal <= (if maxMsgNums < 1 then 1 else maxMsgNums)
    requires !IsTheBatchFullIntended(offsetPy, sizePy, maxMsgNums, bufferTotal, messageTotal, maxOffsetPy, memory, limits)
    ensures messageTotal + 1 <= (if maxMsgNums < 1 then 1 else maxMsgNums)
  {
  }

  /** Admitting a message only while the written rule says "not full" keeps
      a batch within maxMsgNums - 1 messages (and at least one message is
      always allowed): the cap a pull of the store actually obeys. */
  lemma AsWrittenRuleBoundsBatch(offsetPy: int, sizePy: int, maxMsgNums: int, bufferTotal: int, messageTotal: int,
                                 maxOffsetPy: int, memory: int, limits: TransferLimits)
    requires 0 <= messageTotal && (bufferTotal == 0 <==> messageTotal == 0)
    requires messageTotal <= (if maxMsgNums - 1 < 1 then 1 else maxMsgNums - 1)
    requires !IsTheBatchFull(offsetPy, sizePy, maxMsgNums, bufferTotal, messageTotal, maxOffsetPy, memory, limits)
    ensures messageTotal + 1 <= (if maxMsgNums - 1 < 1 then 1 else maxMsgNums - 1)
  {
  }

  /** Which batch rule a scan applies: the store's rule as written, or the
      corrected one. */
  datatype BatchRule = WrittenRule | IntendedRule

  /** Whether the batch is full under `rule`. */
  function BatchFull(rule: BatchRule, offsetPy: int, sizePy: int, maxMsgNums: int, bufferTotal: int,
                     messageTotal: int, maxOffsetPy: int, memory: int, limits: TransferLimits): bool
  {
    match rule
    case WrittenRule => IsTheBatchFull(offsetPy, sizePy, maxMsgNums, bufferTotal, messageTotal, maxOffsetPy, memory, limits)
    case IntendedRule => IsTheBatchFullIntended(offsetPy, sizePy, maxMsgNums, bufferTotal, messageTotal, maxOffsetPy, memory, limits)
  }

  /** Most messages a batch filled under `rule` can hold. */
  function BatchCap(rule: BatchRule, maxMsgNums: int): int
  {
    match rule
    case WrittenRule => if maxMsgNums - 1 < 1 then 1 else maxMsgNums - 1
    case IntendedRule => if maxMsgNums < 1 then 1 else maxMsgNums
  }

  /** Under either rule, an empty batch is never full, and admitting a
      message only while the batch is not full keeps it within the rule's cap. */
  lemma RuleBoundsBatch(rule: BatchRule, offsetPy: int, sizePy: int, maxMsgNums: int, bufferTotal: int,
                        messageTotal: int, maxOffsetPy: int, memory: int, limits: TransferLimits)
    requires 0 <= messageTotal && (bufferTotal == 0 <==> messageTotal == 0)
    requires messageTotal <= BatchCap(rule, maxMsgNums)
    ensures messageTotal == 0 ==>
              !BatchFull(rule, offsetPy, sizePy, maxMsgNums, bufferTotal, messageTotal, maxOffsetPy, memory, limits)
    ensures !BatchFull(rule, offsetPy, sizePy, maxMsgNums, bufferTotal, messageTotal, maxOffsetPy, memory, limits)
            ==> messageTotal + 1 <= BatchCap(rule, maxMsgNums)
  {
    if !BatchFull(rule, offsetPy, sizePy, maxMsgNums, bufferTotal, messageTotal, maxOffsetPy, memory, limits) {
      match rule
      case WrittenRule =>
        AsWrittenRuleBoundsBatch(offsetPy, sizePy, maxMsgNums, bufferTotal, messageTotal, maxOffsetPy, memory, limits);
      case IntendedRule =>
        IntendedRuleBoundsBatch(offsetPy, sizePy, maxMsgNums, bufferTotal, messageTotal, maxOffsetPy, memory, limits);
    }
  }
}
