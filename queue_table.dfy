/** The store's consume-queue table, `topic -> queue id -> consume queue`,
    and the commit log's `(topic, queue id) -> max offset` table, described
    as values: what each table operation of the store leaves behind. */
module QueueTables {
  import opened StoreTypes
  import opened ConsumeQueues

  type Table = map<string, map<int, ConsumeQueue>>

  predicate HasQueue(t: Table, topic: string, queueId: int)
  {
    topic in t && queueId in t[topic]
  }

  /** Every queue sits under its own topic and id and is well formed. */
  ghost predicate WellKeyed(t: Table)
  {
    forall topic, queueId :: topic in t && queueId in t[topic] ==>
      t[topic][queueId].topic == topic && t[topic][queueId].queueId == queueId && t[topic][queueId].Valid()
  }

  // ---------------------------------------------------------------- find or create

  /** The table after looking up (topic, queueId): unchanged when the queue
      exists, otherwise with a fresh empty queue put under that key (and a
      fresh inner map when the topic is new). */
  function WithQueue(t: Table, topic: string, queueId: int): (r: Table)
    ensures HasQueue(r, topic, queueId)
    ensures HasQueue(t, topic, queueId) ==> r == t
    ensures !HasQueue(t, topic, queueId) ==> r[topic][queueId] == NewQueue(topic, queueId)
    ensures forall tp, q :: HasQueue(t, tp, q) ==> HasQueue(r, tp, q) && r[tp][q] == t[tp][q]
    ensures forall tp, q :: HasQueue(r, tp, q) && (tp != topic || q != queueId) ==> HasQueue(t, tp, q)
  {
    var inner := if topic in t then t[topic] else map[];
    if queueId in inner then t else t[topic := inner[queueId := NewQueue(topic, queueId)]]
  }

  /** Looking the same queue up twice changes nothing the second time. */
  lemma WithQueueIdempotent(t: Table, topic: string, queueId: int)
    ensures WithQueue(WithQueue(t, topic, queueId), topic, queueId) == WithQueue(t, topic, queueId)
  {
  }

  lemma WithQueueKeepsWellKeyed(t: Table, topic: string, queueId: int)
    requires WellKeyed(t)
    ensures WellKeyed(WithQueue(t, topic, queueId))
  {
  }

  // ---------------------------------------------------------------- expiry

  /** A queue whose last unit's message lies wholly below the commit log's
      floor; a queue never written (last offset -1) is not expired. */
  predicate Expired(cq: ConsumeQueue, minPhy: int)
  {
    cq.LastOffset() != -1 && cq.LastOffset() < minPhy
  }

  /** The queues of one topic that are not expired. */
  function SurvivingQueues(qs: map<int, ConsumeQueue>, minPhy: int): map<int, ConsumeQueue>
  {
    map q | q in qs && !Expired(qs[q], minPhy) :: qs[q]
  }

  /** The keys, under `topic`, of its expired queues. */
  function ExpiredKeys(topic: string, qs: map<int, ConsumeQueue>, minPhy: int): set<QueueKey>
  {
    set q | q in qs && Expired(qs[q], minPhy) :: (topic, q)
  }

  /** The table once every topic outside `pending` has been cleaned: the
      schedule topic is kept as it is, any other topic keeps its surviving
      queues and disappears when none survives. */
  function CleanExpiredExcept(t: Table, minPhy: int, pending: set<string>): Table
  {
    map topic | topic in t
                && (topic in pending || topic == ScheduleTopic || SurvivingQueues(t[topic], minPhy) != map[])
      :: if topic in pending || topic == ScheduleTopic then t[topic] else SurvivingQueues(t[topic], minPhy)
  }

  /** The keys of the expired queues of every topic outside `pending`
      other than the schedule topic. */
  function ExpiredKeysExcept(t: Table, minPhy: int, pending: set<string>): set<QueueKey>
  {
    set topic, q | topic in t && topic !in pending && topic != ScheduleTopic
                   && q in t[topic] && Expired(t[topic][q], minPhy) :: (topic, q)
  }

  function CleanExpired(t: Table, minPhy: int): Table
  {
    CleanExpiredExcept(t, minPhy, {})
  }

  function ExpiredKeysOf(t: Table, minPhy: int): set<QueueKey>
  {
    ExpiredKeysExcept(t, minPhy, {})
  }

  /** Cleaning removes exactly the expired queues outside the schedule
      topic, leaves every other queue as it was, and drops a topic only when
      all its queues were expired. */
  lemma CleanExpiredRemovesExactlyExpired(t: Table, minPhy: int)
    ensures forall topic, q :: HasQueue(CleanExpired(t, minPhy), topic, q) <==>
              HasQueue(t, topic, q) && (topic == ScheduleTopic || !Expired(t[topic][q], minPhy))
    ensures forall topic, q :: HasQueue(CleanExpired(t, minPhy), topic, q) ==>
              CleanExpired(t, minPhy)[topic][q] == t[topic][q]
    ensures ScheduleTopic in t ==> ScheduleTopic in CleanExpired(t, minPhy)
                                    && CleanExpired(t, minPhy)[ScheduleTopic] == t[ScheduleTopic]
    ensures forall topic :: topic in t && topic !in CleanExpired(t, minPhy) ==>
              topic != ScheduleTopic && forall q :: q in t[topic] ==> Expired(t[topic][q], minPhy)
    ensures forall topic :: topic in CleanExpired(t, minPhy) ==> topic in t
    ensures forall k :: k in ExpiredKeysOf(t, minPhy) <==>
              HasQueue(t, k.0, k.1) && k.0 != ScheduleTopic && Expired(t[k.0][k.1], minPhy)
  {
    var r := CleanExpired(t, minPhy);
    forall topic, q | HasQueue(t, topic, q) && (topic == ScheduleTopic || !Expired(t[topic][q], minPhy))
      ensures HasQueue(r, topic, q)
    {
      if topic != ScheduleTopic {
        assert q in SurvivingQueues(t[topic], minPhy);
      }
    }
    forall topic | topic in t && topic !in r
      ensures topic != ScheduleTopic && forall q :: q in t[topic] ==> Expired(t[topic][q], minPhy)
    {
      assert SurvivingQueues(t[topic], minPhy) == map[];
      forall q | q in t[topic] ensures Expired(t[topic][q], minPhy) {
        assert q !in SurvivingQueues(t[topic], minPhy);
      }
    }
  }

  lemma CleanExpiredKeepsWellKeyed(t: Table, minPhy: int)
    requires WellKeyed(t)
    ensures WellKeyed(CleanExpired(t, minPhy))
  {
    CleanExpiredRemovesExactlyExpired(t, minPhy);
  }

  /** Removing two key sets one after the other removes their union. */
  lemma RemoveBothKeySets<V>(m: map<QueueKey, V>, a: set<QueueKey>, b: set<QueueKey>)
    ensures m - a - b == m - (a + b)
  {
  }

  /** Cleaning one more topic: the schedule topic is left alone; any other
      topic is replaced by its surviving queues, or removed when none is left. */
  lemma CleanExpiredStep(t: Table, minPhy: int, pending: set<string>, topic: string)
    requires topic in pending && topic in t
    ensures topic == ScheduleTopic ==>
              CleanExpiredExcept(t, minPhy, pending - {topic}) == CleanExpiredExcept(t, minPhy, pending)
    ensures topic != ScheduleTopic && SurvivingQueues(t[topic], minPhy) == map[] ==>
              CleanExpiredExcept(t, minPhy, pending - {topic}) == CleanExpiredExcept(t, minPhy, pending) - {topic}
    ensures topic != ScheduleTopic && SurvivingQueues(t[topic], minPhy) != map[] ==>
              CleanExpiredExcept(t, minPhy, pending - {topic})
              == CleanExpiredExcept(t, minPhy, pending)[topic := SurvivingQueues(t[topic], minPhy)]
    ensures topic == ScheduleTopic ==>
              ExpiredKeysExcept(t, minPhy, pending - {topic}) == ExpiredKeysExcept(t, minPhy, pending)
    ensures topic != ScheduleTopic ==>
              ExpiredKeysExcept(t, minPhy, pending - {topic})
              == ExpiredKeysExcept(t, minPhy, pending) + ExpiredKeys(topic, t[topic], minPhy)
  {
    var a := CleanExpiredExcept(t, minPhy, pending - {topic});
    var b := CleanExpiredExcept(t, minPhy, pending);
    if topic == ScheduleTopic {
      assert a == b;
    } else if SurvivingQueues(t[topic], minPhy) == map[] {
      assert a == b - {topic};
    } else {
      assert a == b[topic := SurvivingQueues(t[topic], minPhy)];
    }
  }

  // ---------------------------------------------------------------- unused topics

  /** The table after dropping every topic that is neither live nor the schedule topic. */
  function KeepTopics(t: Table, topics: set<string>): Table
  {
    KeepTopicsExcept(t, topics, {})
  }

  /** The table once every topic outside `pending` has been swept. */
  function KeepTopicsExcept(t: Table, topics: set<string>, pending: set<string>): Table
  {
    map topic | topic in t && (topic in pending || topic in topics || topic == ScheduleTopic) :: t[topic]
  }

  /** The keys of all queues of the dropped topics. */
  function UnusedQueueKeys(t: Table, topics: set<string>): set<QueueKey>
  {
    QueueKeysExcept(t, topics + {ScheduleTopic})
  }

  /** The keys of the queues of the topics outside `pending` that the sweep drops. */
  function UnusedQueueKeysExcept(t: Table, topics: set<string>, pending: set<string>): set<QueueKey>
  {
    QueueKeysExcept(t, pending + topics + {ScheduleTopic})
  }

  /** Sweeping one more topic: a live topic or the schedule topic stays; any
      other is dropped together with the keys of its queues. */
  lemma KeepTopicsStep(t: Table, topics: set<string>, pending: set<string>, topic: string)
    requires topic in pending && topic in t
    ensures topic in topics || topic == ScheduleTopic ==>
              KeepTopicsExcept(t, topics, pending - {topic}) == KeepTopicsExcept(t, topics, pending)
              && UnusedQueueKeysExcept(t, topics, pending - {topic}) == UnusedQueueKeysExcept(t, topics, pending)
    ensures topic !in topics && topic != ScheduleTopic ==>
              KeepTopicsExcept(t, topics, pending - {topic}) == KeepTopicsExcept(t, topics, pending) - {topic}
              && UnusedQueueKeysExcept(t, topics, pending - {topic})
                 == UnusedQueueKeysExcept(t, topics, pending) + QueueKeys(topic, t[topic])
  {
    var all := pending + topics + {ScheduleTopic};
    if topic in topics || topic == ScheduleTopic {
      assert (pending - {topic}) + topics + {ScheduleTopic} == all;
    } else {
      assert (pending - {topic}) + topics + {ScheduleTopic} == all - {topic};
      QueueKeysExceptStep(t, all, topic);
    }
  }

  /** The keys, under `topic`, of all of a topic's queues. */
  function QueueKeys(topic: string, qs: map<int, ConsumeQueue>): set<QueueKey>
  {
    set q | q in qs :: (topic, q)
  }

  /** A queue survives the unused-topic sweep exactly when its topic is
      live or is the schedule topic, and survivors are untouched. */
  lemma KeepTopicsExactly(t: Table, topics: set<string>)
    ensures forall topic, q :: HasQueue(KeepTopics(t, topics), topic, q) <==>
              HasQueue(t, topic, q) && (topic in topics || topic == ScheduleTopic)
    ensures forall topic :: topic in KeepTopics(t, topics) ==> KeepTopics(t, topics)[topic] == t[topic]
    ensures forall k :: k in UnusedQueueKeys(t, topics) <==>
              HasQueue(t, k.0, k.1) && k.0 !in topics && k.0 != ScheduleTopic
    ensures WellKeyed(t) ==> WellKeyed(KeepTopics(t, topics))
  {
    forall k: QueueKey | HasQueue(t, k.0, k.1) && k.0 !in topics && k.0 != ScheduleTopic
      ensures k in UnusedQueueKeys(t, topics)
    {
      assert k == (k.0, k.1);
    }
  }

  // ---------------------------------------------------------------- recovery and trimming

  /** One topic's queues, each trimmed to the commit log's floor. */
  function TrimQueues(qs: map<int, ConsumeQueue>, minPhy: int): map<int, ConsumeQueue>
    requires forall q :: q in qs ==> qs[q].Valid()
  {
    map q | q in qs :: qs[q].TrimBelow(minPhy)
  }

  /** The queues of `qs` whose keys under `topic` are still pending as they
      were, the others trimmed. */
  function TrimQueuesExcept(topic: string, qs: map<int, ConsumeQueue>, minPhy: int, pending: set<QueueKey>)
    : map<int, ConsumeQueue>
    requires forall q :: q in qs ==> qs[q].Valid()
  {
    map q | q in qs :: if (topic, q) in pending then qs[q] else qs[q].TrimBelow(minPhy)
  }

  /** Trimming one more queue of a topic. */
  lemma TrimQueuesStep(topic: string, qs: map<int, ConsumeQueue>, minPhy: int, pending: set<QueueKey>, key: QueueKey)
    requires forall q :: q in qs ==> qs[q].Valid()
    requires key in pending && key in QueueKeys(topic, qs)
    ensures key.1 in qs
    ensures TrimQueuesExcept(topic, qs, minPhy, pending - {key})
            == TrimQueuesExcept(topic, qs, minPhy, pending)[key.1 := qs[key.1].TrimBelow(minPhy)]
  {
  }

  /** With every key pending nothing is trimmed yet; with none pending all
      queues are. */
  lemma TrimQueuesEnds(topic: string, qs: map<int, ConsumeQueue>, minPhy: int)
    requires forall q :: q in qs ==> qs[q].Valid()
    ensures TrimQueuesExcept(topic, qs, minPhy, QueueKeys(topic, qs)) == qs
    ensures TrimQueuesExcept(topic, qs, minPhy, {}) == TrimQueues(qs, minPhy)
  {
    assert forall q :: q in qs ==> (topic, q) in QueueKeys(topic, qs);
  }

  /** Every queue of the table trimmed to the commit log's floor. */
  function TrimAll(t: Table, minPhy: int): (r: Table)
    requires WellKeyed(t)
  {
    TrimAllExcept(t, minPhy, {})
  }

  /** The table with the topics outside `pending` trimmed. */
  function TrimAllExcept(t: Table, minPhy: int, pending: set<string>): Table
    requires WellKeyed(t)
  {
    map topic | topic in t :: if topic in pending then t[topic] else TrimQueues(t[topic], minPhy)
  }

  /** Trimming one more topic; with every topic pending nothing is trimmed yet. */
  lemma TrimAllStep(t: Table, minPhy: int, pending: set<string>, topic: string)
    requires WellKeyed(t) && topic in pending && topic in t
    ensures TrimAllExcept(t, minPhy, pending - {topic}) == TrimAllExcept(t, minPhy, pending)[topic := TrimQueues(t[topic], minPhy)]
    ensures TrimAllExcept(t, minPhy, t.Keys) == t
  {
  }

  /** Trimming keeps every queue under its key, keeps its units, and only
      moves minimum offsets forward, each to the first unit at or above the floor. */
  lemma TrimAllKeepsQueues(t: Table, minPhy: int)
    requires WellKeyed(t)
    ensures WellKeyed(TrimAll(t, minPhy))
    ensures forall topic, q :: HasQueue(TrimAll(t, minPhy), topic, q) <==> HasQueue(t, topic, q)
    ensures forall topic, q :: HasQueue(t, topic, q) ==>
              var before := t[topic][q];
              var after := TrimAll(t, minPhy)[topic][q];
              after.entries == before.entries && before.minOffset <= after.minOffset
              && (forall o :: before.minOffset <= o < after.minOffset ==> before.entries[o].phyOffset < minPhy)
              && (after.minOffset < |after.entries| ==> after.entries[after.minOffset].phyOffset >= minPhy)
  {
  }

  /** The commit log's offset table as rebuilt on recovery: every queue's
      key mapped to its max offset. */
  function MaxOffsetTable(t: Table): map<QueueKey, int>
  {
    MaxOffsetTableExcept(t, {})
  }

  /** The offsets of the queues of every topic outside `pending`. */
  function MaxOffsetTableExcept(t: Table, pending: set<string>): map<QueueKey, int>
  {
    map k | k in QueueKeysExcept(t, pending) :: t[k.0][k.1].MaxOffset()
  }

  /** The keys of the queues of every topic outside `pending`. */
  function QueueKeysExcept(t: Table, pending: set<string>): set<QueueKey>
  {
    set topic, q | topic in t && topic !in pending && q in t[topic] :: (topic, q)
  }

  /** The offsets of one topic's queues, under that topic. */
  function QueueMaxOffsets(topic: string, qs: map<int, ConsumeQueue>): map<QueueKey, int>
  {
    QueueMaxOffsetsExcept(topic, qs, {})
  }

  /** The offsets of the queues of `qs` whose keys are not pending. */
  function QueueMaxOffsetsExcept(topic: string, qs: map<int, ConsumeQueue>, pending: set<QueueKey>): map<QueueKey, int>
  {
    map k | k in QueueKeys(topic, qs) && k !in pending :: qs[k.1].MaxOffset()
  }

  /** Taking one more queue's offset; with every key pending there is none yet. */
  lemma QueueMaxOffsetsStep(topic: string, qs: map<int, ConsumeQueue>, pending: set<QueueKey>, key: QueueKey)
    requires key in pending && key in QueueKeys(topic, qs)
    ensures key.1 in qs
    ensures QueueMaxOffsetsExcept(topic, qs, pending - {key})
            == QueueMaxOffsetsExcept(topic, qs, pending)[key := qs[key.1].MaxOffset()]
    ensures QueueMaxOffsetsExcept(topic, qs, QueueKeys(topic, qs)) == map[]
  {
  }

  /** Rebuilding the offsets of one more topic adds exactly that topic's queues. */
  lemma MaxOffsetTableStep(t: Table, pending: set<string>, topic: string)
    requires topic in pending && topic in t
    ensures MaxOffsetTableExcept(t, pending - {topic})
            == MaxOffsetTableExcept(t, pending) + QueueMaxOffsets(topic, t[topic])
  {
    QueueKeysExceptStep(t, pending, topic);
  }

  /** Taking one more topic in adds exactly that topic's queue keys. */
  lemma QueueKeysExceptStep(t: Table, pending: set<string>, topic: string)
    requires topic in pending && topic in t
    ensures QueueKeysExcept(t, pending - {topic}) == QueueKeysExcept(t, pending) + QueueKeys(topic, t[topic])
  {
    forall k: QueueKey | k in QueueKeysExcept(t, pending - {topic})
      ensures k in QueueKeysExcept(t, pending) + QueueKeys(topic, t[topic])
    {
      assert k == (k.0, k.1);
    }
  }

  lemma MaxOffsetTableExactly(t: Table)
    ensures forall k :: k in MaxOffsetTable(t) <==> HasQueue(t, k.0, k.1)
    ensures forall k :: k in MaxOffsetTable(t) ==> MaxOffsetTable(t)[k] == t[k.0][k.1].MaxOffset()
  {
    forall k: QueueKey | HasQueue(t, k.0, k.1) ensures k in MaxOffsetTable(t) {
      assert k == (k.0, k.1);
    }
  }

  // ---------------------------------------------------------------- dispatch

  /** Writing one request's position into its queue, creating the queue on first use. */
  function PutPosition(t: Table, topic: string, queueId: int, e: CqEntry): (r: Table)
    ensures HasQueue(r, topic, queueId)
  {
    var t1 := WithQueue(t, topic, queueId);
    t1[topic := t1[topic][queueId := t1[topic][queueId].Put(e)]]
  }

  /** The table after dispatching `reqs` in order: each request whose
      transaction type is "none" or "commit" writes its position; prepared
      and rolled-back messages write nothing. */
  function DispatchAll(t: Table, reqs: seq<DispatchRequest>): Table
  {
    if reqs == [] then t
    else
      var before := DispatchAll(t, reqs[..|reqs| - 1]);
      var req := reqs[|reqs| - 1];
      if GoesToConsumeQueue(req.sysFlag) then PutPosition(before, req.topic, req.queueId, EntryOf(req)) else before
  }

  /** The units dispatching `reqs` writes into queue (topic, queueId), in order. */
  function DispatchedEntries(reqs: seq<DispatchRequest>, topic: string, queueId: int): seq<CqEntry>
  {
    if reqs == [] then []
    else
      var req := reqs[|reqs| - 1];
      DispatchedEntries(reqs[..|reqs| - 1], topic, queueId)
      + (if GoesToConsumeQueue(req.sysFlag) && req.topic == topic && req.queueId == queueId
         then [EntryOf(req)] else [])
  }

  /** The units of a queue, or none for a queue not in the table. */
  function EntriesOf(t: Table, topic: string, queueId: int): seq<CqEntry>
  {
    if HasQueue(t, topic, queueId) then t[topic][queueId].entries else []
  }

  /** Writing a position appends its unit to its own queue and to no other. */
  lemma PutPositionAppends(t: Table, topic: string, queueId: int, e: CqEntry)
    requires WellKeyed(t)
    ensures WellKeyed(PutPosition(t, topic, queueId, e))
    ensures EntriesOf(PutPosition(t, topic, queueId, e), topic, queueId) == EntriesOf(t, topic, queueId) + [e]
    ensures forall tp, q :: (tp != topic || q != queueId) ==>
              EntriesOf(PutPosition(t, topic, queueId, e), tp, q) == EntriesOf(t, tp, q)
    ensures forall tp, q :: HasQueue(PutPosition(t, topic, queueId, e), tp, q) ==>
              HasQueue(t, tp, q) || (tp == topic && q == queueId)
    ensures forall tp, q :: HasQueue(t, tp, q) ==>
              HasQueue(PutPosition(t, topic, queueId, e), tp, q)
              && PutPosition(t, topic, queueId, e)[tp][q].minOffset == t[tp][q].minOffset
  {
    WithQueueKeepsWellKeyed(t, topic, queueId);
  }

  /** Dispatch appends to each queue exactly the units of the requests
      routed to it, in request order, and moves no queue's minimum offset;
      queues appear only for requests that were routed. */
  lemma {:induction false} DispatchAppends(t: Table, reqs: seq<DispatchRequest>)
    requires WellKeyed(t)
    ensures WellKeyed(DispatchAll(t, reqs))
    ensures forall topic, q :: EntriesOf(DispatchAll(t, reqs), topic, q)
                               == EntriesOf(t, topic, q) + DispatchedEntries(reqs, topic, q)
    ensures forall topic, q :: HasQueue(DispatchAll(t, reqs), topic, q) ==>
              HasQueue(t, topic, q) || DispatchedEntries(reqs, topic, q) != []
    ensures forall topic, q :: HasQueue(t, topic, q) ==>
              HasQueue(DispatchAll(t, reqs), topic, q)
              && DispatchAll(t, reqs)[topic][q].minOffset == t[topic][q].minOffset
    decreases |reqs|
  {
    if reqs != [] {
      var init := reqs[..|reqs| - 1];
      var req := reqs[|reqs| - 1];
      DispatchAppends(t, init);
      if GoesToConsumeQueue(req.sysFlag) {
        PutPositionAppends(DispatchAll(t, init), req.topic, req.queueId, EntryOf(req));
      }
    }
  }
}
