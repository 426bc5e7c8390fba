/** The two cleanup services: the commit-log cleaner, which decides when to
    ask the log to delete expired files (on schedule, on a full disk, or for
    a number of manually requested rounds), and the consume-queue cleaner,
    which trims the queues each time the log's floor moves up. */
module CleanServices {
  import opened StoreTypes
  import opened ConsumeQueues
  import opened QueueTables
  import opened MessageStore

  /** Rounds of deletion a manual request buys. */
  const MaxManualDeleteFileTimes: int := 20

  const MillisPerHour: int := 60 * 60 * 1000

  /** What one cleaner round asks the commit log to do: delete files older
      than `expiredTimeMillis`, pausing `deleteFilesInterval` between files,
      forcing a hung file after `destroyIntervalForcibly`, and deleting even
      unexpired files when `cleanAtOnce`. */
  datatype DeleteOrder = DeleteOrder(
    expiredTimeMillis: int,
    deleteFilesInterval: int,
    destroyIntervalForcibly: int,
    cleanAtOnce: bool)

  /** The manual countdown after one round. */
  function NextManualCount(count: int): (next: int)
    ensures count > 0 ==> next == count - 1
    ensures count <= 0 ==> next == count
  {
    if count > 0 then count - 1 else count
  }

  /** The manual countdown after `rounds` rounds. */
  function CountdownAfter(count: int, rounds: nat): int
  {
    if rounds == 0 then count else NextManualCount(CountdownAfter(count, rounds - 1))
  }

  /** How many of the first `rounds` rounds run because of the manual request. */
  function ManualRounds(count: int, rounds: nat): nat
  {
    if rounds == 0 then 0
    else ManualRounds(count, rounds - 1) + (if CountdownAfter(count, rounds - 1) > 0 then 1 else 0)
  }

  /** A manual request of `count` rounds is used up one round at a time: after
      `rounds` rounds the countdown stands at max(count - rounds, 0), and
      exactly min(count, rounds) of those rounds were manual ones. */
  lemma {:induction false} ManualCountdown(count: int, rounds: nat)
    requires 0 <= count
    ensures CountdownAfter(count, rounds) == if count > rounds then count - rounds else 0
    ensures ManualRounds(count, rounds) == if count < rounds then count else rounds
  {
    if rounds > 0 {
      ManualCountdown(count, rounds - 1);
    }
  }

  /** After a manual request, the next MaxManualDeleteFileTimes rounds all
      delete, whatever the schedule and the disk say, and the round after
      them deletes only if the schedule or the disk asks for it. */
  lemma ManualRequestBuysTwentyRounds(rounds: nat)
    ensures rounds < MaxManualDeleteFileTimes ==> CountdownAfter(MaxManualDeleteFileTimes, rounds) > 0
    ensures rounds >= MaxManualDeleteFileTimes ==> CountdownAfter(MaxManualDeleteFileTimes, rounds) == 0
  {
    ManualCountdown(MaxManualDeleteFileTimes, rounds);
  }

  class CleanCommitLogService {
    var manualDeleteFileSeveralTimes: int
    /** Set by the disk check when usage passes the forcible-clean ratio. */
    var cleanImmediately: bool
    var lastRedeleteTimestamp: int

    constructor()
      ensures manualDeleteFileSeveralTimes == 0 && !cleanImmediately && lastRedeleteTimestamp == 0
    {
      manualDeleteFileSeveralTimes := 0;
      cleanImmediately := false;
      lastRedeleteTimestamp := 0;
    }

    /** An operator's request to delete files now: the next rounds delete
        regardless of schedule and disk usage. */
    method ExecuteDeleteFilesManually()
      modifies this`manualDeleteFileSeveralTimes
      ensures manualDeleteFileSeveralTimes == MaxManualDeleteFileTimes
    {
      manualDeleteFileSeveralTimes := MaxManualDeleteFileTimes;
    }

    /** One round. `timeup` is the schedule check; `spacefull` and
        `diskPressure` are the disk check's answer and the cleanImmediately
        flag it sets. The round deletes when any of the schedule, the disk or
        a pending manual request asks for it, spending one manual round. */
    method DeleteExpiredFiles(timeup: bool, spacefull: bool, diskPressure: bool,
                              cleanFileForciblyEnable: bool, fileReservedTimeHours: int,
                              deleteFilesInterval: int, destroyIntervalForcibly: int)
      returns (order: Option<DeleteOrder>)
      modifies this`manualDeleteFileSeveralTimes, this`cleanImmediately
      ensures cleanImmediately == diskPressure
      ensures order.Some? <==> timeup || spacefull || old(manualDeleteFileSeveralTimes) > 0
      ensures manualDeleteFileSeveralTimes == NextManualCount(old(manualDeleteFileSeveralTimes))
      ensures order.Some? ==>
                order.value == DeleteOrder(fileReservedTimeHours * MillisPerHour, deleteFilesInterval,
                                           destroyIntervalForcibly, cleanFileForciblyEnable && diskPressure)
    {
      cleanImmediately := diskPressure;
      var manualDelete := manualDeleteFileSeveralTimes > 0;
      if timeup || spacefull || manualDelete {
        if manualDelete {
          manualDeleteFileSeveralTimes := manualDeleteFileSeveralTimes - 1;
        }
        var cleanAtOnce := cleanFileForciblyEnable && cleanImmediately;
        var fileReservedTime := fileReservedTimeHours * MillisPerHour;
        return Some(DeleteOrder(fileReservedTime, deleteFilesInterval, destroyIntervalForcibly, cleanAtOnce));
      }
      return None;
    }

    /** Retries deleting a hung first file at most once per `interval`
        milliseconds; `now` is the clock reading. */
    method RedeleteHangedFile(now: int, interval: int) returns (retry: bool)
      modifies this`lastRedeleteTimestamp
      ensures retry <==> now - old(lastRedeleteTimestamp) > interval
      ensures lastRedeleteTimestamp == if retry then now else old(lastRedeleteTimestamp)
    {
      retry := now - lastRedeleteTimestamp > interval;
      if retry {
        lastRedeleteTimestamp := now;
      }
    }
  }

  class CleanConsumeQueueService {
    /** The highest commit-log floor the queues were trimmed to. */
    var lastPhysicalMinOffset: int

    constructor()
      ensures lastPhysicalMinOffset == 0
    {
      lastPhysicalMinOffset := 0;
    }

    /** When the log's floor has risen since the last round, trim every
        queue to it and ask the index service to delete below it; otherwise
        do nothing. The recorded floor never goes down. */
    method DeleteExpiredFiles(store: DefaultMessageStore)
      requires store.Valid()
      modifies this`lastPhysicalMinOffset, store`consumeQueueTable, store`indexDeleteFloors
      ensures store.Valid()
      ensures old(lastPhysicalMinOffset) <= lastPhysicalMinOffset
      ensures lastPhysicalMinOffset == if store.commitLog.minOffset > old(lastPhysicalMinOffset)
                                       then store.commitLog.minOffset else old(lastPhysicalMinOffset)
      ensures store.commitLog.minOffset > old(lastPhysicalMinOffset) ==>
                store.consumeQueueTable == TrimAll(old(store.consumeQueueTable), store.commitLog.minOffset)
                && store.indexDeleteFloors == old(store.indexDeleteFloors) + [store.commitLog.minOffset]
      ensures store.commitLog.minOffset <= old(lastPhysicalMinOffset) ==>
                store.consumeQueueTable == old(store.consumeQueueTable)
                && store.indexDeleteFloors == old(store.indexDeleteFloors)
    {
      var minOffset := store.commitLog.minOffset;
      if minOffset > lastPhysicalMinOffset {
        lastPhysicalMinOffset := minOffset;
        ghost var t0 := store.consumeQueueTable;
        var pending := store.consumeQueueTable.Keys;
        while pending != {}
          invariant pending <= t0.Keys
          invariant WellKeyed(t0)
          invariant store.consumeQueueTable == TrimAllExcept(t0, minOffset, pending)
          invariant store.indexDeleteFloors == old(store.indexDeleteFloors) && lastPhysicalMinOffset == minOffset
          decreases |pending|
        {
          var topic :| topic in pending;
          TrimAllStep(t0, minOffset, pending, topic);
          var trimmed := DeleteExpiredQueueFiles(topic, store.consumeQueueTable[topic], minOffset);
          store.consumeQueueTable := store.consumeQueueTable[topic := trimmed];
          pending := pending - {topic};
        }
        TrimAllKeepsQueues(t0, minOffset);
        store.indexDeleteFloors := store.indexDeleteFloors + [minOffset];
      }
    }

    /** The inner loop over one topic's queues: each queue drops what lies
        below the floor. */
    method DeleteExpiredQueueFiles(topic: string, queues: map<int, ConsumeQueue>, minOffset: int)
      returns (trimmed: map<int, ConsumeQueue>)
      requires forall q :: q in queues ==> queues[q].Valid()
      ensures trimmed == TrimQueues(queues, minOffset)
    {
      trimmed := queues;
      var pending := QueueKeys(topic, queues);
      TrimQueuesEnds(topic, queues, minOffset);
      while pending != {}
        invariant pending <= QueueKeys(topic, queues)
        invariant trimmed == TrimQueuesExcept(topic, queues, minOffset, pending)
        decreases |pending|
      {
        var key :| key in pending;
        TrimQueuesStep(topic, queues, minOffset, pending, key);
        trimmed := trimmed[key.1 := queues[key.1].TrimBelow(minOffset)];
        pending := pending - {key};
      }
    }
  }
}
