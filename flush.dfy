/** The consume-queue flusher: each round commits every queue, retrying up
    to a given number of times, with a least-pages threshold that drops to
    zero (flush everything) on the final round and whenever a thorough flush
    is due; a thorough round also flushes the store checkpoint. */
module FlushService {
  import opened StoreTypes
  import opened QueueTables
  import opened MessageStore

  /** Retry count of the final round run at shutdown. */
  const RetryTimesOver: int := 3

  /** The least-pages threshold of a round: zero on the final round and when
      a thorough flush is due, the configured value otherwise. */
  function FlushLeastPages(configured: int, retryTimes: int, thoroughDue: bool): (pages: int)
    ensures pages == 0 <==> retryTimes == RetryTimesOver || thoroughDue || configured == 0
    ensures pages != 0 ==> pages == configured
  {
    if retryTimes == RetryTimesOver || thoroughDue then 0 else configured
  }

  /** What a round does to the store checkpoint: nothing, or flush it, first
      writing back the logical-message timestamp read at the start of a
      thorough round when that timestamp is positive. */
  datatype CheckpointAction = NoCheckpoint | FlushCheckpoint(logicsMsgTimestamp: Option<int>)

  /** Commit one queue: try up to `retryTimes` times, stopping at the first
      attempt that succeeds. `commit(key, i, pages)` is what attempt i
      returns, the queue's own write being outside the model. */
  method CommitWithRetries(key: QueueKey, pages: int, retryTimes: int, commit: (QueueKey, int, int) -> bool)
    returns (result: bool, attempts: int)
    ensures 0 <= attempts && (retryTimes <= 0 ==> attempts == 0) && (retryTimes > 0 ==> attempts <= retryTimes)
    ensures result <==> attempts > 0 && commit(key, attempts - 1, pages)
    ensures forall i :: 0 <= i < attempts - 1 ==> !commit(key, i, pages)
    ensures !result ==> attempts == (if retryTimes > 0 then retryTimes else 0)
    ensures result <==> CommitSucceeds(key, pages, retryTimes, commit)
  {
    result := false;
    attempts := 0;
    var i := 0;
    while i < retryTimes && !result
      invariant 0 <= i && (retryTimes > 0 ==> i <= retryTimes) && (retryTimes <= 0 ==> i == 0) && attempts == i
      invariant result <==> i > 0 && commit(key, i - 1, pages)
      invariant forall j :: 0 <= j < i - 1 ==> !commit(key, j, pages)
      invariant !result ==> forall j :: 0 <= j < i ==> !commit(key, j, pages)
    {
      result := commit(key, i, pages);
      i := i + 1;
      attempts := i;
    }
  }

  /** Some attempt among the first `retryTimes` commits queue `key`. */
  predicate CommitSucceeds(key: QueueKey, pages: int, retryTimes: int, commit: (QueueKey, int, int) -> bool)
  {
    exists i :: 0 <= i < retryTimes && commit(key, i, pages)
  }

  /** Commit every queue of one topic, each with its own retries. */
  method CommitQueues(keys: set<QueueKey>, pages: int, retryTimes: int, commit: (QueueKey, int, int) -> bool)
    returns (committed: map<QueueKey, bool>)
    ensures committed.Keys == keys
    ensures forall k :: k in committed ==> (committed[k] <==> CommitSucceeds(k, pages, retryTimes, commit))
  {
    committed := map[];
    var pending := keys;
    while pending != {}
      invariant pending <= keys && committed.Keys == keys - pending
      invariant forall k :: k in committed ==> (committed[k] <==> CommitSucceeds(k, pages, retryTimes, commit))
      decreases |pending|
    {
      var key :| key in pending;
      var result, _ := CommitWithRetries(key, pages, retryTimes, commit);
      committed := committed[key := result];
      pending := pending - {key};
    }
  }

  class FlushConsumeQueueService {
    var lastFlushTimestamp: int

    constructor()
      ensures lastFlushTimestamp == 0
    {
      lastFlushTimestamp := 0;
    }

    /** One round at clock reading `now`. `storedLogicsMsgTimestamp` is the
        checkpoint's timestamp, read only when a thorough flush is due.
        Every queue of the store is committed with up to `retryTimes`
        attempts; `committed` tells which succeeded. */
    method DoFlush(store: DefaultMessageStore, retryTimes: int, configuredLeastPages: int,
                   thoroughInterval: int, now: int, storedLogicsMsgTimestamp: int,
                   commit: (QueueKey, int, int) -> bool)
      returns (pages: int, committed: map<QueueKey, bool>, checkpoint: CheckpointAction)
      modifies this`lastFlushTimestamp
      ensures var thoroughDue := now >= old(lastFlushTimestamp) + thoroughInterval;
              && lastFlushTimestamp == (if thoroughDue then now else old(lastFlushTimestamp))
              && pages == FlushLeastPages(configuredLeastPages, retryTimes, thoroughDue)
              && checkpoint == (if pages != 0 then NoCheckpoint
                                else if thoroughDue && storedLogicsMsgTimestamp > 0
                                then FlushCheckpoint(Some(storedLogicsMsgTimestamp))
                                else FlushCheckpoint(None))
      ensures committed.Keys == QueueKeysExcept(store.consumeQueueTable, {})
      ensures forall k :: k in committed ==> (committed[k] <==> CommitSucceeds(k, pages, retryTimes, commit))
    {
      pages := configuredLeastPages;
      if retryTimes == RetryTimesOver {
        pages := 0;
      }
      var logicsMsgTimestamp := 0;
      var thoroughDue := now >= lastFlushTimestamp + thoroughInterval;
      if thoroughDue {
        lastFlushTimestamp := now;
        pages := 0;
        logicsMsgTimestamp := storedLogicsMsgTimestamp;
      }

      var tables := store.consumeQueueTable;
      committed := map[];
      var pending := tables.Keys;
      while pending != {}
        invariant pending <= tables.Keys
        invariant lastFlushTimestamp == if thoroughDue then now else old(lastFlushTimestamp)
        invariant committed.Keys == QueueKeysExcept(tables, pending)
        invariant forall k :: k in committed ==> (committed[k] <==> CommitSucceeds(k, pages, retryTimes, commit))
        decreases |pending|
      {
        var topic :| topic in pending;
        QueueKeysExceptStep(tables, pending, topic);
        var topicCommitted := CommitQueues(QueueKeys(topic, tables[topic]), pages, retryTimes, commit);
        committed := committed + topicCommitted;
        pending := pending - {topic};
      }

      if pages == 0 {
        checkpoint := FlushCheckpoint(if logicsMsgTimestamp > 0 then Some(logicsMsgTimestamp) else None);
      } else {
        checkpoint := NoCheckpoint;
      }
    }
  }
}
