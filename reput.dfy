/** The slave's reput scanner: from `reputFromOffset` it reads the commit
    log record by record, hands every record to the dispatcher, jumps to the
    next segment at a blank record and stops where no valid record follows. */
module ReputService {
  import opened StoreTypes
  import opened CommitLogs
  import opened DispatchService

  /** Where a scan ends, and the records it dispatched, in order. */
  datatype ReputOutcome = ReputOutcome(offset: int, dispatched: seq<DispatchRequest>)

  /** The scan started at `offset`: nothing readable there ends it; a record
      of positive size is dispatched and the scan goes on just past it; a
      blank record sends it to the start of the next segment; an invalid
      record (-1) ends it. */
  function Reput(log: CommitLogView, offset: int): ReputOutcome
    requires log.Valid()
    decreases log.maxOffset - offset
  {
    if log.GetData(offset).None? then ReputOutcome(offset, [])
    else
      var req := log.recordAt(offset);
      if req.msgSize > 0 then
        var rest := Reput(log, offset + req.msgSize);
        ReputOutcome(rest.offset, [req] + rest.dispatched)
      else if req.msgSize == 0 then Reput(log, log.RollNextFile(offset))
      else ReputOutcome(offset, [])
  }

  /** The scan never moves backwards; it dispatches only records of positive
      size, each lying between the start and the end offset, in log order and
      without overlap (so no record twice); and it stops only where the log
      has nothing readable or holds no valid record. */
  lemma {:induction false} ReputAdvancesInOrder(log: CommitLogView, offset: int)
    requires log.Valid()
    ensures var r := Reput(log, offset);
            && offset <= r.offset
            && (forall i :: 0 <= i < |r.dispatched| ==>
                  r.dispatched[i].msgSize > 0
                  && offset <= r.dispatched[i].commitLogOffset
                  && r.dispatched[i].commitLogOffset + r.dispatched[i].msgSize <= r.offset)
            && (forall i, j :: 0 <= i < j < |r.dispatched| ==>
                  r.dispatched[i].commitLogOffset + r.dispatched[i].msgSize <= r.dispatched[j].commitLogOffset)
            && (log.GetData(r.offset).None? || log.recordAt(r.offset).msgSize == -1)
    decreases log.maxOffset - offset
  {
    if log.GetData(offset).Some? {
      var req := log.recordAt(offset);
      if req.msgSize > 0 {
        ReputAdvancesInOrder(log, offset + req.msgSize);
        var rest := Reput(log, offset + req.msgSize);
        assert Reput(log, offset).dispatched == [req] + rest.dispatched;
      } else if req.msgSize == 0 {
        ReputAdvancesInOrder(log, log.RollNextFile(offset));
      }
    }
  }

  /** Scanning again from where a scan stopped, over the same log, finds
      nothing more to dispatch. */
  lemma ReputResumesQuietly(log: CommitLogView, offset: int)
    requires log.Valid()
    ensures Reput(log, Reput(log, offset).offset) == ReputOutcome(Reput(log, offset).offset, [])
  {
    ReputAdvancesInOrder(log, offset);
  }

  /** A scan heading for `goal` that started with write list `written` now
      stands at `offset` with write list `current`: what is left to do from
      `offset` completes the goal. */
  ghost predicate OnTrack(log: CommitLogView, goal: ReputOutcome, written: seq<DispatchRequest>,
                          offset: int, current: seq<DispatchRequest>)
    requires log.Valid()
  {
    && Reput(log, offset).offset == goal.offset
    && written + goal.dispatched == current + Reput(log, offset).dispatched
  }

  /** Following the scan's rule at `offset` keeps it on track, and where it
      stops (nothing readable, or an invalid record) the goal is reached. */
  lemma OnTrackStep(log: CommitLogView, goal: ReputOutcome, written: seq<DispatchRequest>,
                    offset: int, current: seq<DispatchRequest>)
    requires log.Valid() && OnTrack(log, goal, written, offset, current)
    ensures !(log.minOffset <= offset < log.maxOffset) ==>
              offset == goal.offset && current == written + goal.dispatched
    ensures var req := log.recordAt(offset);
            log.minOffset <= offset < log.maxOffset ==>
              && (req.msgSize > 0 ==> OnTrack(log, goal, written, offset + req.msgSize, current + [req]))
              && (req.msgSize == 0 ==> OnTrack(log, goal, written, log.RollNextFile(offset), current))
              && (req.msgSize < 0 ==> offset == goal.offset && current == written + goal.dispatched)
  {
    var req := log.recordAt(offset);
    if log.minOffset <= offset < log.maxOffset && req.msgSize > 0 {
      var rest := Reput(log, offset + req.msgSize);
      assert Reput(log, offset).dispatched == [req] + rest.dispatched;
      assert current + ([req] + rest.dispatched) == (current + [req]) + rest.dispatched;
    }
  }

  class ReputMessageService {
    /** The commit-log offset from which the next scan resumes. */
    var reputFromOffset: int

    constructor(reputFromOffset: int)
      ensures this.reputFromOffset == reputFromOffset
    {
      this.reputFromOffset := reputFromOffset;
    }

    /** One scan: ask the log for the bytes at the current offset, walk the
        records in them, and repeat until a record is invalid or nothing
        more is readable. Each dispatched record joins the dispatcher's write list. */
    method DoReput(log: CommitLogView, dispatcher: DispatchMessageService)
      requires log.Valid()
      modifies this`reputFromOffset, dispatcher`requestsWrite
      ensures reputFromOffset == Reput(log, old(reputFromOffset)).offset
      ensures dispatcher.requestsWrite == old(dispatcher.requestsWrite) + Reput(log, old(reputFromOffset)).dispatched
    {
      ghost var goal := Reput(log, reputFromOffset);
      ghost var written := dispatcher.requestsWrite;
      var doNext := true;
      while doNext
        invariant doNext ==> OnTrack(log, goal, written, reputFromOffset, dispatcher.requestsWrite)
        invariant !doNext ==> reputFromOffset == goal.offset && dispatcher.requestsWrite == written + goal.dispatched
        decreases doNext, if reputFromOffset < log.maxOffset then log.maxOffset - reputFromOffset else 0
      {
        ghost var roundStart := reputFromOffset;
        var result := log.GetData(reputFromOffset);
        if result.Some? {
          var readSize := 0;
          while readSize < result.value && doNext
            invariant doNext ==> OnTrack(log, goal, written, reputFromOffset, dispatcher.requestsWrite)
            invariant !doNext ==> reputFromOffset == goal.offset && dispatcher.requestsWrite == written + goal.dispatched
            invariant readSize < result.value ==> reputFromOffset == roundStart + readSize
            invariant roundStart <= reputFromOffset && (readSize > 0 ==> roundStart < reputFromOffset)
            decreases doNext, result.value - readSize
          {
            var req := log.recordAt(reputFromOffset);
            var size := req.msgSize;
            OnTrackStep(log, goal, written, reputFromOffset, dispatcher.requestsWrite);
            if size > 0 {
              dispatcher.PutRequest(req);
              reputFromOffset := reputFromOffset + size;
              readSize := readSize + size;
            } else if size == -1 {
              doNext := false;
            } else if size == 0 {
              reputFromOffset := log.RollNextFile(reputFromOffset);
              readSize := result.value;
            }
          }
        } else {
          OnTrackStep(log, goal, written, reputFromOffset, dispatcher.requestsWrite);
          doNext := false;
        }
      }
    }
  }
}
