/** Listing the message ids of a range of a consume queue: each unit's id
    (derived from the store host and the unit's commit-log offset) mapped to
    the unit's logical offset. */
module MessageIds {
  import opened StoreTypes
  import opened ConsumeQueues

  /** A message id: the store host and the message's commit-log offset, the
      two parts the id encodes. */
  datatype MessageId = MessageId(storeHost: string, phyOffset: int)

  /** The map built by putting, for each logical offset from `first` up to
      `end` - 1 in turn, the id of that unit mapped to the offset; a later
      unit with the same id replaces an earlier one. */
  function IdsOf(cq: ConsumeQueue, storeHost: string, first: int, end: int): map<MessageId, int>
    requires 0 <= first && (end <= first || end <= |cq.entries|)
    decreases end - first
  {
    if end <= first then map[]
    else IdsOf(cq, storeHost, first, end - 1)[MessageId(storeHost, cq.entries[end - 1].phyOffset) := end - 1]
  }

  /** The listing holds the id of every unit in [first, end) and nothing else,
      and maps each id to an offset in the range whose unit has that id (the
      last such offset). */
  lemma {:induction false} IdsOfExactly(cq: ConsumeQueue, storeHost: string, first: int, end: int)
    requires 0 <= first && (end <= first || end <= |cq.entries|)
    ensures forall o :: first <= o < end ==>
              (MessageId(storeHost, cq.entries[o].phyOffset) in IdsOf(cq, storeHost, first, end)
               && IdsOf(cq, storeHost, first, end)[MessageId(storeHost, cq.entries[o].phyOffset)] >= o)
    ensures forall id :: id in IdsOf(cq, storeHost, first, end) ==>
              (first <= IdsOf(cq, storeHost, first, end)[id] < end
               && id == MessageId(storeHost, cq.entries[IdsOf(cq, storeHost, first, end)[id]].phyOffset))
    decreases end - first
  {
    if end > first {
      IdsOfExactly(cq, storeHost, first, end - 1);
    }
  }

  // ---------------------------------------------------------------- as written

  /** The offset at which the written loop stops, started at `next` with
      upper bound `hi`: each round takes the index buffer at `next` (the
      units up to the end of that queue file); if the buffer reaches past
      `hi` the loop returns after the unit at `hi`, otherwise the outer
      bound `next < hi` is checked again at the buffer's end. */
  function AsWrittenEnd(cq: ConsumeQueue, next: int, hi: int, unitsPerFile: int): (r: int)
    requires cq.Valid() && unitsPerFile > 0
    requires cq.minOffset <= next && hi <= cq.MaxOffset()
    ensures next >= hi ==> r == next
    ensures next < hi ==> hi <= r <= hi + 1 && r <= cq.MaxOffset()
    decreases hi - next
  {
    if next >= hi then next
    else
      var roll := RollNextQueueFile(next, unitsPerFile);
      var bufferEnd := if roll < cq.MaxOffset() then roll else cq.MaxOffset();
      if bufferEnd > hi then hi + 1 else AsWrittenEnd(cq, bufferEnd, hi, unitsPerFile)
  }

  /** getMessageIds as written: offsets are clamped to the queue's window, an
      empty queue gives an empty map, and the inner test `nextOffset >
      maxOffset` lets the unit AT maxOffset in whenever it shares a queue
      file with the unit before it. */
  method CollectMessageIdsAsWritten(cq: ConsumeQueue, minOffset: int, maxOffset: int,
                                    unitsPerFile: int, storeHost: string)
    returns (ids: map<MessageId, int>)
    requires cq.Valid() && unitsPerFile > 0
    ensures var lo := if minOffset > cq.minOffset then minOffset else cq.minOffset;
            var hi := if maxOffset < cq.MaxOffset() then maxOffset else cq.MaxOffset();
            ids == IdsOf(cq, storeHost, lo, AsWrittenEnd(cq, lo, hi, unitsPerFile))
  {
    ids := map[];
    var lo := if minOffset > cq.minOffset then minOffset else cq.minOffset;
    var hi := if maxOffset < cq.MaxOffset() then maxOffset else cq.MaxOffset();
    if hi == 0 {
      return;
    }
    var nextOffset := lo;
    while nextOffset < hi
      invariant lo <= nextOffset && (nextOffset == lo || nextOffset <= cq.MaxOffset())
      invariant ids == IdsOf(cq, storeHost, lo, nextOffset)
      invariant AsWrittenEnd(cq, nextOffset, hi, unitsPerFile) == AsWrittenEnd(cq, lo, hi, unitsPerFile)
      decreases hi - nextOffset
    {
      var done;
      ids, nextOffset, done := PutNextBuffer(cq, storeHost, lo, hi, unitsPerFile, nextOffset, ids);
      if done {
        return;
      }
    }
  }

  /** One round of the written outer loop: look up the index buffer at
      `next` and put its ids. Either the round ends the listing where the
      written loops stop, or it moves on to the buffer's end, from which the
      written loops stop at the same place. */
  method PutNextBuffer(cq: ConsumeQueue, storeHost: string, lo: int, hi: int, unitsPerFile: int,
                       next: int, idsIn: map<MessageId, int>)
    returns (ids: map<MessageId, int>, nextOffset: int, done: bool)
    requires cq.Valid() && unitsPerFile > 0
    requires cq.minOffset <= lo <= next < hi <= cq.MaxOffset()
    requires idsIn == IdsOf(cq, storeHost, lo, next)
    ensures done ==> nextOffset == AsWrittenEnd(cq, next, hi, unitsPerFile)
    ensures !done ==> next < nextOffset <= hi
                      && AsWrittenEnd(cq, nextOffset, hi, unitsPerFile) == AsWrittenEnd(cq, next, hi, unitsPerFile)
    ensures ids == IdsOf(cq, storeHost, lo, nextOffset)
  {
    var buf := IndexBuffer(cq, next, unitsPerFile);
    AsWrittenEndStep(cq, next, hi, unitsPerFile, next + |buf|);
    ids, nextOffset, done := PutBufferIds(cq, storeHost, lo, hi, next, buf, idsIn);
  }

  /** The inner loop of the written getMessageIds over one index buffer
      starting at `start`: put each unit's id, and stop (`done`) once the
      next offset passes `hi`. */
  method PutBufferIds(cq: ConsumeQueue, storeHost: string, lo: int, hi: int, start: int,
                      buf: seq<CqEntry>, idsIn: map<MessageId, int>)
    returns (ids: map<MessageId, int>, nextOffset: int, done: bool)
    requires 0 <= lo <= start <= hi && start + |buf| <= |cq.entries|
    requires forall k :: 0 <= k < |buf| ==> buf[k] == cq.entries[start + k]
    requires idsIn == IdsOf(cq, storeHost, lo, start)
    ensures done <==> start + |buf| > hi
    ensures nextOffset == if done then hi + 1 else start + |buf|
    ensures ids == IdsOf(cq, storeHost, lo, nextOffset)
  {
    ids := idsIn;
    nextOffset := start;
    var k := 0;
    while k < |buf|
      invariant 0 <= k <= |buf| && nextOffset == start + k && nextOffset <= hi
      invariant ids == IdsOf(cq, storeHost, lo, nextOffset)
    {
      ids := ids[MessageId(storeHost, buf[k].phyOffset) := nextOffset];
      nextOffset := nextOffset + 1;
      if nextOffset > hi {
        return ids, nextOffset, true;
      }
      k := k + 1;
    }
    done := false;
  }

  /** One round of the written loop, for a buffer ending at `bufferEnd`. */
  lemma AsWrittenEndStep(cq: ConsumeQueue, next: int, hi: int, unitsPerFile: int, bufferEnd: int)
    requires cq.Valid() && unitsPerFile > 0
    requires cq.minOffset <= next < hi <= cq.MaxOffset()
    requires bufferEnd == if RollNextQueueFile(next, unitsPerFile) < cq.MaxOffset()
                          then RollNextQueueFile(next, unitsPerFile) else cq.MaxOffset()
    ensures next < bufferEnd
    ensures bufferEnd > hi ==> AsWrittenEnd(cq, next, hi, unitsPerFile) == hi + 1
    ensures bufferEnd <= hi ==> AsWrittenEnd(cq, next, hi, unitsPerFile) == AsWrittenEnd(cq, bufferEnd, hi, unitsPerFile)
  {
  }

  /** The inconsistency on a queue of three or more units whose third unit
      has its own id, ids asked for offsets 0 to 2: with two units per queue
      file the unit at offset 2 is left out, with four units per file it is
      included. */
  lemma AsWrittenDependsOnFileLayout(cq: ConsumeQueue, storeHost: string)
    requires cq.Valid() && cq.minOffset == 0 && |cq.entries| >= 3
    requires cq.entries[2].phyOffset != cq.entries[0].phyOffset
    requires cq.entries[2].phyOffset != cq.entries[1].phyOffset
    ensures AsWrittenEnd(cq, 0, 2, 2) == 2 && AsWrittenEnd(cq, 0, 2, 4) == 3
    ensures MessageId(storeHost, cq.entries[2].phyOffset) !in IdsOf(cq, storeHost, 0, AsWrittenEnd(cq, 0, 2, 2))
    ensures MessageId(storeHost, cq.entries[2].phyOffset) in IdsOf(cq, storeHost, 0, AsWrittenEnd(cq, 0, 2, 4))
  {
    AsWrittenEndOnLayouts(cq);
    IdsOfExactly(cq, storeHost, 0, 2);
    IdsOfExactly(cq, storeHost, 0, 3);
  }

  /** Where the written loop stops for offsets 0 to 2: at 2 when queue files
      hold two units (the first buffer ends exactly at 2), at 3 when they
      hold four (the first buffer runs past 2). */
  lemma AsWrittenEndOnLayouts(cq: ConsumeQueue)
    requires cq.Valid() && cq.minOffset == 0 && |cq.entries| >= 3
    ensures AsWrittenEnd(cq, 0, 2, 2) == 2 && AsWrittenEnd(cq, 0, 2, 4) == 3
  {
    assert RollNextQueueFile(0, 2) == 2;
    AsWrittenEndStep(cq, 0, 2, 2, 2);
    assert RollNextQueueFile(0, 4) == 4;
    AsWrittenEndStep(cq, 0, 2, 4, if 4 < cq.MaxOffset() then 4 else cq.MaxOffset());
  }

  // ---------------------------------------------------------------- corrected

  /** getMessageIds with one bound on both loops: the ids of exactly the
      units in [max(minOffset, queue min), min(maxOffset, queue max)),
      whatever the queue's file layout. */
  method CollectMessageIds(cq: ConsumeQueue, minOffset: int, maxOffset: int,
                           unitsPerFile: int, storeHost: string)
    returns (ids: map<MessageId, int>)
    requires cq.Valid() && unitsPerFile > 0
    ensures var lo := if minOffset > cq.minOffset then minOffset else cq.minOffset;
            var hi := if maxOffset < cq.MaxOffset() then maxOffset else cq.MaxOffset();
            ids == IdsOf(cq, storeHost, lo, hi)
  {
    ids := map[];
    var lo := if minOffset > cq.minOffset then minOffset else cq.minOffset;
    var hi := if maxOffset < cq.MaxOffset() then maxOffset else cq.MaxOffset();
    if hi == 0 {
      return;
    }
    var nextOffset := lo;
    while nextOffset < hi
      invariant lo <= nextOffset <= hi || (hi <= lo && nextOffset == lo)
      invariant ids == IdsOf(cq, storeHost, lo, nextOffset)
      decreases hi - nextOffset
    {
      var buf := IndexBuffer(cq, nextOffset, unitsPerFile);
      var done;
      ids, nextOffset, done := PutBufferIdsBelow(cq, storeHost, lo, hi, nextOffset, buf, ids);
      if done {
        return;
      }
    }
  }

  /** The inner loop of the corrected getMessageIds over one index buffer
      starting at `start`: put each unit's id, and stop (`done`) once the
      next offset reaches `hi`. */
  method PutBufferIdsBelow(cq: ConsumeQueue, storeHost: string, lo: int, hi: int, start: int,
                           buf: seq<CqEntry>, idsIn: map<MessageId, int>)
    returns (ids: map<MessageId, int>, nextOffset: int, done: bool)
    requires 0 <= lo <= start < hi && start + |buf| <= |cq.entries|
    requires forall k :: 0 <= k < |buf| ==> buf[k] == cq.entries[start + k]
    requires idsIn == IdsOf(cq, storeHost, lo, start)
    ensures done <==> start + |buf| >= hi
    ensures nextOffset == if done then hi else start + |buf|
    ensures ids == IdsOf(cq, storeHost, lo, nextOffset)
  {
    ids := idsIn;
    nextOffset := start;
    var k := 0;
    while k < |buf|
      invariant 0 <= k <= |buf| && nextOffset == start + k && nextOffset < hi
      invariant ids == IdsOf(cq, storeHost, lo, nextOffset)
    {
      ids := ids[MessageId(storeHost, buf[k].phyOffset) := nextOffset];
      nextOffset := nextOffset + 1;
      if nextOffset >= hi {
        return ids, nextOffset, true;
      }
      k := k + 1;
    }
    done := false;
  }

  /** The corrected listing does not depend on how the queue is cut into files. */
  lemma CollectedIdsIndependentOfLayout(cq: ConsumeQueue, lo: int, hi: int, storeHost: string)
    requires cq.Valid() && cq.minOffset <= lo && hi <= cq.MaxOffset()
    ensures forall o :: lo <= o < hi ==> MessageId(storeHost, cq.entries[o].phyOffset) in IdsOf(cq, storeHost, lo, hi)
    ensures forall id :: id in IdsOf(cq, storeHost, lo, hi) ==> lo <= IdsOf(cq, storeHost, lo, hi)[id] < hi
  {
    IdsOfExactly(cq, storeHost, lo, hi);
  }
}
