/** The commit log, seen from the store: its retained range, its segment
    size and what the record checker reports at each physical offset. The log's
    own encoding, locking and file handling are not part of this model. */
module CommitLogs {
  import opened StoreTypes
  import opened ConsumeQueues

  /** `recordAt(p)` is what checking the record that starts at physical
      offset `p` yields: a request whose msgSize is the record's size (> 0),
      0 for the blank record that closes a segment, or -1 for no valid record.
      A record found at `p` carries `p` as its commit-log offset. */
  datatype CommitLogView = CommitLogView(
    minOffset: int,
    maxOffset: int,
    fileSize: int,
    recordAt: int -> DispatchRequest)
  {
    ghost predicate Valid()
    {
      && 0 < fileSize
      && 0 <= minOffset <= maxOffset
      && (forall p :: recordAt(p).msgSize >= -1)
      && (forall p :: recordAt(p).msgSize > 0 ==> recordAt(p).commitLogOffset == p)
    }

    /** First offset of the segment after the one holding `offset`. */
    function RollNextFile(offset: int): (r: int)
      requires 0 < fileSize
      ensures offset < r
      ensures offset >= 0 ==> r <= offset + fileSize
      ensures offset >= 0 ==> r % fileSize == 0
    {
      SegmentStart(offset, fileSize);
      offset + fileSize - JavaRem(offset, fileSize)
    }

    /** Whether a message of `size` bytes at `phyOffset` can still be read
        (the log's getMessage returns a buffer rather than null). */
    predicate CanRead(phyOffset: int, size: int)
    {
      minOffset <= phyOffset && 0 < size && phyOffset + size <= maxOffset
    }

    /** Length of the buffer the log's getData returns for `offset`: the
        written bytes from `offset` to the end of its segment, or None when
        nothing is readable there. */
    function GetData(offset: int): (r: Option<int>)
      requires 0 < fileSize
      ensures r.Some? <==> minOffset <= offset < maxOffset
      ensures r.Some? ==> 0 < r.value && offset + r.value <= maxOffset
    {
      if minOffset <= offset < maxOffset then
        var end := RollNextFile(offset);
        Some((if end < maxOffset then end else maxOffset) - offset)
      else None
    }
  }
}
