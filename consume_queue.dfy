/** The consume queue of one (topic, queue id), seen from the store: a run of
    fixed-size units addressed by logical offset. The queue's own file
    handling is not part of this model; what the store relies on is captured
    here on values. */
module ConsumeQueues {
  import opened StoreTypes

  /** All units ever written, indexed by logical offset; units below
      minOffset have been cleaned away and are no longer served. */
  datatype ConsumeQueue = ConsumeQueue(topic: string, queueId: int, minOffset: int, entries: seq<CqEntry>)
  {
    ghost predicate Valid()
    {
      0 <= minOffset <= |entries|
    }

    /** One past the last written logical offset. */
    function MaxOffset(): int
    {
      |entries|
    }

    /** Commit-log offset just past the last unit's message, or -1 for a queue never written. */
    function LastOffset(): int
    {
      if entries == [] then -1
      else entries[|entries| - 1].phyOffset + entries[|entries| - 1].size
    }

    /** Appends one unit at the end of the queue. */
    function Put(e: CqEntry): (r: ConsumeQueue)
      ensures r.topic == topic && r.queueId == queueId && r.minOffset == minOffset
      ensures r.entries == entries + [e] && r.MaxOffset() == MaxOffset() + 1
    {
      this.(entries := entries + [e])
    }

    /** Moves the minimum logical offset forward past the units whose message
        lies below the commit log's retained floor `minPhy`. */
    function TrimBelow(minPhy: int): (r: ConsumeQueue)
      requires Valid()
      ensures r.Valid() && r.topic == topic && r.queueId == queueId && r.entries == entries
      ensures minOffset <= r.minOffset
      ensures forall o :: minOffset <= o < r.minOffset ==> entries[o].phyOffset < minPhy
      ensures r.minOffset < |entries| ==> entries[r.minOffset].phyOffset >= minPhy
    {
      this.(minOffset := FirstAtOrAbove(entries, minOffset, minPhy))
    }
  }

  /** A queue just created on first reference: nothing written yet. */
  function NewQueue(topic: string, queueId: int): (q: ConsumeQueue)
    ensures q.Valid() && q.topic == topic && q.queueId == queueId
    ensures q.minOffset == 0 && q.MaxOffset() == 0 && q.LastOffset() == -1
  {
    ConsumeQueue(topic, queueId, 0, [])
  }

  /** The first index at or after `start` whose unit lies at or above `minPhy`. */
  function FirstAtOrAbove(entries: seq<CqEntry>, start: int, minPhy: int): (r: int)
    requires 0 <= start <= |entries|
    ensures start <= r <= |entries|
    ensures forall o :: start <= o < r ==> entries[o].phyOffset < minPhy
    ensures r < |entries| ==> entries[r].phyOffset >= minPhy
    decreases |entries| - start
  {
    if start == |entries| || entries[start].phyOffset >= minPhy then start
    else FirstAtOrAbove(entries, start + 1, minPhy)
  }

  /** Java's `%` on a positive divisor: the remainder takes the dividend's sign. */
  function JavaRem(a: int, b: int): (r: int)
    requires b > 0
    ensures a >= 0 ==> r == a % b
    ensures -b < r < b
    ensures a < 0 ==> r <= 0
  {
    if a >= 0 then a % b else -((-a) % b)
  }

  /** First logical offset of the queue file after the one holding `index`
      (the queue's rollNextFile), for files of `unitsPerFile` units. */
  function RollNextQueueFile(index: int, unitsPerFile: int): (r: int)
    requires unitsPerFile > 0
    ensures index < r
    ensures index >= 0 ==> r <= index + unitsPerFile
    ensures index >= 0 ==> r % unitsPerFile == 0
  {
    SegmentStart(index, unitsPerFile);
    index + unitsPerFile - JavaRem(index, unitsPerFile)
  }

  /** The start of the file after the one holding a non-negative position
      is a whole number of files from 0. */
  lemma SegmentStart(position: int, fileSize: int)
    requires 0 < fileSize
    ensures position >= 0 ==> (position + fileSize - position % fileSize) % fileSize == 0
  {
    if position >= 0 {
      var q := position / fileSize;
      assert position + fileSize - position % fileSize == (q + 1) * fileSize;
      MultipleHasNoRemainder(q + 1, fileSize);
    }
  }

  /** Whole files leave no remainder. */
  lemma {:induction false} MultipleHasNoRemainder(k: nat, m: int)
    requires 0 < m
    ensures (k * m) % m == 0
  {
    if k > 0 {
      MultipleHasNoRemainder(k - 1, m);
      assert k * m == (k - 1) * m + m;
      AddingOneFileKeepsRemainder((k - 1) * m, m);
    }
  }

  /** Moving one whole file forward keeps the position within its file. */
  lemma AddingOneFileKeepsRemainder(a: int, m: int)
    requires 0 < m
    ensures (a + m) % m == a % m
  {
    var t := (a + m) / m - a / m - 1;
    assert m * t == a % m - (a + m) % m;
  }


  /** The units served by one index-buffer lookup at `index`: from `index` to
      the end of the written part of the file that holds it. */
  function IndexBuffer(cq: ConsumeQueue, index: int, unitsPerFile: int): (buf: seq<CqEntry>)
    requires cq.Valid() && unitsPerFile > 0
    requires cq.minOffset <= index < cq.MaxOffset()
    ensures 0 < |buf| && index + |buf| <= cq.MaxOffset()
    ensures forall k :: 0 <= k < |buf| ==> buf[k] == cq.entries[index + k]
    ensures index + |buf| == if RollNextQueueFile(index, unitsPerFile) < cq.MaxOffset()
                             then RollNextQueueFile(index, unitsPerFile) else cq.MaxOffset()
  {
    var end := RollNextQueueFile(index, unitsPerFile);
    if end < |cq.entries| then cq.entries[index..end] else cq.entries[index..]
  }
}
