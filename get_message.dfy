/** Pull-side logic: placing a requested logical offset against a queue's
    window, and the scan of index units that fills one pull batch. */
module GetMessage {
  import opened StoreTypes
  import opened ConsumeQueues
  import opened CommitLogs
  import opened BatchLimit

  /** Upper bound, in bytes of index units, of one scan. */
  const MaxFilterMessageCount: int := 16000

  /** Most index units one scan examines (16000 bytes are exactly 800 units). */
  const MaxUnitsPerScan: int := MaxFilterMessageCount / CqStoreUnitSize

  /** A consumer's subscription as the message filter sees it: everything
      (no subscription, class-filter mode or "*"), or a set of tag hash codes. */
  datatype Subscription = AcceptAll | Tags(codes: set<int>)

  predicate Matches(sub: Subscription, tagsCode: int)
  {
    sub.AcceptAll? || tagsCode in sub.codes
  }

  /** Where a requested offset falls: inside [minOffset, maxOffset), so the
      units must be scanned, or outside, with the status and the offset the
      consumer should pull from next. */
  datatype Window = InRange | OutOfRange(status: GetMessageStatus, nextBeginOffset: int)

  function ClassifyOffset(offset: int, minOffset: int, maxOffset: int): (w: Window)
    ensures w.InRange? <==> maxOffset != 0 && minOffset <= offset < maxOffset
    ensures maxOffset == 0 ==> w == OutOfRange(NoMessageInQueue, 0)
    ensures maxOffset != 0 && offset < minOffset ==> w == OutOfRange(OffsetTooSmall, minOffset)
    ensures maxOffset != 0 && minOffset <= offset && offset == maxOffset ==> w == OutOfRange(OffsetOverflowOne, offset)
    ensures maxOffset != 0 && minOffset <= offset && offset > maxOffset ==>
              w == OutOfRange(OffsetOverflowBadly, if minOffset == 0 then minOffset else maxOffset)
  {
    if maxOffset == 0 then OutOfRange(NoMessageInQueue, 0)
    else if offset < minOffset then OutOfRange(OffsetTooSmall, minOffset)
    else if offset == maxOffset then OutOfRange(OffsetOverflowOne, offset)
    else if offset > maxOffset then
      OutOfRange(OffsetOverflowBadly, if 0 == minOffset then minOffset else maxOffset)
    else InRange
  }

  /** For a well-formed window the offset suggested to the consumer lies
      inside it. */
  lemma SuggestedOffsetIsInWindow(offset: int, minOffset: int, maxOffset: int)
    requires 0 <= minOffset <= maxOffset
    requires ClassifyOffset(offset, minOffset, maxOffset).OutOfRange?
    ensures minOffset <= ClassifyOffset(offset, minOffset, maxOffset).nextBeginOffset <= maxOffset
  {
  }

  /** A consumer that follows the suggestion is never told again that its
      offset is too small or badly overflowed: the retry either scans or
      waits at the end of the queue. */
  lemma FollowingSuggestionSettles(offset: int, minOffset: int, maxOffset: int)
    requires 0 <= minOffset <= maxOffset
    requires ClassifyOffset(offset, minOffset, maxOffset).OutOfRange?
    ensures var w := ClassifyOffset(ClassifyOffset(offset, minOffset, maxOffset).nextBeginOffset, minOffset, maxOffset);
            w.InRange? || w.status == OffsetOverflowOne || w.status == NoMessageInQueue
  {
  }

  /** A message buffer handed to the consumer: its place in the commit log. */
  datatype SelectedMessage = SelectedMessage(phyOffset: int, size: int)

  /** Total bytes of the buffers gathered so far. */
  function BufferTotal(msgs: seq<SelectedMessage>): int
  {
    if msgs == [] then 0 else BufferTotal(msgs[..|msgs| - 1]) + msgs[|msgs| - 1].size
  }

  /** Indices, below n, of the units a scan with no removed message returns:
      every unit whose tag code the subscription accepts. */
  function MatchingUnits(buf: seq<CqEntry>, sub: Subscription, n: int): (idx: seq<int>)
    requires 0 <= n <= |buf|
  {
    if n == 0 then []
    else MatchingUnits(buf, sub, n - 1) + (if Matches(sub, buf[n - 1].tagsCode) then [n - 1] else [])
  }

  /** No unit below n that the subscription accepts points at a message the
      commit log can no longer serve. */
  ghost predicate NothingRemoved(buf: seq<CqEntry>, sub: Subscription, log: CommitLogView, n: int)
    requires 0 <= n <= |buf|
  {
    forall k :: 0 <= k < n && Matches(sub, buf[k].tagsCode) ==> log.CanRead(buf[k].phyOffset, buf[k].size)
  }

  /** One more unit: the matching indices grow by that unit when it
      matches, and "nothing removed so far" passes down to the shorter prefix. */
  lemma MatchingUnitsStep(buf: seq<CqEntry>, sub: Subscription, log: CommitLogView, n: int)
    requires 0 <= n < |buf|
    ensures MatchingUnits(buf, sub, n + 1)
         == MatchingUnits(buf, sub, n) + (if Matches(sub, buf[n].tagsCode) then [n] else [])
    ensures NothingRemoved(buf, sub, log, n + 1) ==>
              NothingRemoved(buf, sub, log, n)
              && (Matches(sub, buf[n].tagsCode) ==> log.CanRead(buf[n].phyOffset, buf[n].size))
  {
  }

  /** `messages` were taken, in order, from the units at indices `picked`,
      all below n, each accepted by the subscription and readable. */
  ghost predicate TakenFrom(buf: seq<CqEntry>, sub: Subscription, log: CommitLogView,
                            messages: seq<SelectedMessage>, picked: seq<int>, n: int)
  {
    && |picked| == |messages|
    && (forall j :: 0 <= j < |picked| ==>
          0 <= picked[j] < n && picked[j] < |buf|
          && messages[j] == SelectedMessage(buf[picked[j]].phyOffset, buf[picked[j]].size)
          && Matches(sub, buf[picked[j]].tagsCode)
          && log.CanRead(buf[picked[j]].phyOffset, buf[picked[j]].size))
    && (forall j, j' :: 0 <= j < j' < |picked| ==> picked[j] < picked[j'])
  }

  /** Passing over unit n keeps what was taken. */
  lemma TakenFromSkip(buf: seq<CqEntry>, sub: Subscription, log: CommitLogView,
                      messages: seq<SelectedMessage>, picked: seq<int>, n: int)
    requires TakenFrom(buf, sub, log, messages, picked, n)
    ensures TakenFrom(buf, sub, log, messages, picked, n + 1)
  {
  }

  /** Taking unit n, which the subscription accepts and the log can serve,
      extends what was taken by that unit. */
  lemma TakenFromTake(buf: seq<CqEntry>, sub: Subscription, log: CommitLogView,
                      messages: seq<SelectedMessage>, picked: seq<int>, n: int)
    requires TakenFrom(buf, sub, log, messages, picked, n)
    requires 0 <= n < |buf| && Matches(sub, buf[n].tagsCode) && log.CanRead(buf[n].phyOffset, buf[n].size)
    ensures TakenFrom(buf, sub, log, messages + [SelectedMessage(buf[n].phyOffset, buf[n].size)], picked + [n], n + 1)
  {
  }

  /** While no accepted unit below n was found removed, the scan has taken
      exactly the accepted units below n and is not skipping a segment. */
  ghost predicate ScanExact(buf: seq<CqEntry>, sub: Subscription, log: CommitLogView,
                            picked: seq<int>, n: int, skipping: bool)
    requires 0 <= n <= |buf|
  {
    NothingRemoved(buf, sub, log, n) ==> picked == MatchingUnits(buf, sub, n) && !skipping
  }

  /** The scan stays exact over unit n whichever way it treats it: taken
      (accepted, readable, skipping ends), found removed (accepted, not
      readable, skipping starts), not accepted, or skipped while skipping. */
  lemma ScanExactStep(buf: seq<CqEntry>, sub: Subscription, log: CommitLogView,
                      picked: seq<int>, picked': seq<int>, n: int, skipping: bool, skipping': bool)
    requires 0 <= n < |buf|
    requires ScanExact(buf, sub, log, picked, n, skipping)
    requires || (picked' == picked + [n] && Matches(sub, buf[n].tagsCode)
                 && log.CanRead(buf[n].phyOffset, buf[n].size) && !skipping')
             || (picked' == picked && Matches(sub, buf[n].tagsCode) && !log.CanRead(buf[n].phyOffset, buf[n].size))
             || (picked' == picked && !Matches(sub, buf[n].tagsCode) && skipping' == skipping)
             || (picked' == picked && skipping && skipping')
    ensures ScanExact(buf, sub, log, picked', n + 1, skipping')
  {
    MatchingUnitsStep(buf, sub, log, n);
  }

  /** What holds of a scan after its first n units: the status says whether
      anything was found (and is one of the three a scan can give), the batch
      holds at most `cap` messages (the batch rule's cap), what was taken came
      from accepted readable units in order, and while nothing accepted was
      found removed, exactly the accepted units were taken. */
  ghost predicate ScanInvariant(buf: seq<CqEntry>, sub: Subscription, log: CommitLogView, cap: int,
                                status: GetMessageStatus, messages: seq<SelectedMessage>,
                                picked: seq<int>, n: int, skipping: bool)
  {
    && 0 <= n <= |buf|
    && (status == Found <==> messages != [])
    && (status == Found || status == NoMatchedMessage || status == MessageWasRemoving)
    && BufferTotal(messages) >= |messages|
    && |messages| <= cap
    && TakenFrom(buf, sub, log, messages, picked, n)
    && ScanExact(buf, sub, log, picked, n, skipping)
  }

  /** Every message of the batch was admitted while the batch rule said
      "not full": message j was checked against the j messages before it,
      with their byte total, so each message after the first stayed within
      the count limit and the on-disk or in-memory transfer ceilings. */
  predicate WithinCeilings(rule: BatchRule, maxMsgNums: int, log: CommitLogView, memory: int,
                           limits: TransferLimits, messages: seq<SelectedMessage>)
  {
    forall j :: 0 <= j < |messages| ==>
      !BatchFull(rule, messages[j].phyOffset, messages[j].size, maxMsgNums, BufferTotal(messages[..j]),
                 j, log.maxOffset, memory, limits)
  }

  /** A message admitted while the rule says "not full" keeps the batch
      within the ceilings. */
  lemma WithinCeilingsExtend(rule: BatchRule, maxMsgNums: int, log: CommitLogView, memory: int,
                             limits: TransferLimits, messages: seq<SelectedMessage>, m: SelectedMessage)
    requires WithinCeilings(rule, maxMsgNums, log, memory, limits, messages)
    requires !BatchFull(rule, m.phyOffset, m.size, maxMsgNums, BufferTotal(messages),
                        |messages|, log.maxOffset, memory, limits)
    ensures WithinCeilings(rule, maxMsgNums, log, memory, limits, messages + [m])
  {
    var ms := messages + [m];
    assert ms[..|messages|] == messages;
    forall j | 0 <= j < |messages|
      ensures ms[..j] == messages[..j]
    {
    }
  }

  /** What the ceilings promise a consumer: a batch of two or more messages
      of positive size holds, counting its last message, no more bytes and
      no more messages than the ceilings that apply where that message lives
      (on disk when it lies more than `memory` behind the log head, in memory
      otherwise). */
  lemma CeilingsBoundBatch(rule: BatchRule, maxMsgNums: int, log: CommitLogView, memory: int,
                           limits: TransferLimits, messages: seq<SelectedMessage>)
    requires WithinCeilings(rule, maxMsgNums, log, memory, limits, messages)
    requires forall j :: 0 <= j < |messages| ==> 0 < messages[j].size
    ensures |messages| >= 2 ==>
              var last := messages[|messages| - 1];
              if OnDisk(last.phyOffset, log.maxOffset, memory) then
                BufferTotal(messages) <= limits.maxBytesOnDisk && |messages| <= limits.maxCountOnDisk
              else
                BufferTotal(messages) <= limits.maxBytesInMemory && |messages| <= limits.maxCountInMemory
  {
    if |messages| >= 2 {
      var j := |messages| - 1;
      var prefix := messages[..j];
      assert messages[..|messages| - 1] == prefix;
      PositiveSizesTotal(prefix);
      assert BufferTotal(prefix) > 0;
      assert !BatchFull(rule, messages[j].phyOffset, messages[j].size, maxMsgNums, BufferTotal(prefix),
                        j, log.maxOffset, memory, limits);
    }
  }

  /** A non-empty batch of messages of positive size has a positive byte total. */
  lemma {:induction false} PositiveSizesTotal(msgs: seq<SelectedMessage>)
    requires forall j :: 0 <= j < |msgs| ==> 0 < msgs[j].size
    ensures msgs != [] ==> BufferTotal(msgs) >= |msgs|
  {
    if msgs != [] {
      var init := msgs[..|msgs| - 1];
      PositiveSizesTotal(init);
    }
  }

  /** How examining `unit` changes the scan: an accepted readable unit is
      taken, the status becomes FOUND and skipping ends; an accepted unit the
      log cannot serve takes nothing and skipping starts at the next segment,
      with MESSAGE_WAS_REMOVING while the batch is empty; a unit not accepted
      takes nothing and leaves skipping as it was, with NO_MATCHED_MESSAGE
      while the batch is empty. */
  predicate Examined(unit: CqEntry, sub: Subscription, log: CommitLogView,
                     status: GetMessageStatus, messages: seq<SelectedMessage>, skipFrom: Option<int>,
                     status': GetMessageStatus, messages': seq<SelectedMessage>, skipFrom': Option<int>)
    requires 0 < log.fileSize
  {
    if Matches(sub, unit.tagsCode) && log.CanRead(unit.phyOffset, unit.size) then
      messages' == messages + [SelectedMessage(unit.phyOffset, unit.size)]
      && status' == Found && skipFrom' == None
    else if Matches(sub, unit.tagsCode) then
      messages' == messages && skipFrom' == Some(log.RollNextFile(unit.phyOffset))
      && status' == (if BufferTotal(messages) == 0 then MessageWasRemoving else status)
    else
      messages' == messages && skipFrom' == skipFrom
      && status' == (if BufferTotal(messages) == 0 then NoMatchedMessage else status)
  }

  /** How the scan treats `unit`: a unit before the next segment start
      (`skipFrom`) is passed over with nothing changed and never stops the
      scan; otherwise the scan stops (`full`, nothing changed) exactly when
      the batch rule says full, and any other unit is examined. */
  predicate Scanned(unit: CqEntry, rule: BatchRule, maxMsgNums: int, sub: Subscription,
                    log: CommitLogView, memory: int, limits: TransferLimits,
                    status: GetMessageStatus, messages: seq<SelectedMessage>, skipFrom: Option<int>,
                    status': GetMessageStatus, messages': seq<SelectedMessage>, skipFrom': Option<int>, full: bool)
    requires 0 < log.fileSize
  {
    if skipFrom.Some? && unit.phyOffset < skipFrom.value then
      !full && status' == status && messages' == messages && skipFrom' == skipFrom
    else if BatchFull(rule, unit.phyOffset, unit.size, maxMsgNums, BufferTotal(messages),
                      |messages|, log.maxOffset, memory, limits) then
      full && status' == status && messages' == messages && skipFrom' == skipFrom
    else
      !full && Examined(unit, sub, log, status, messages, skipFrom, status', messages', skipFrom')
  }

  /** The body of the scan for unit n. `skipFrom` is the start of the next
      commit-log segment once a message was found removed. A unit before
      that start is passed over; otherwise a full batch stops the scan
      (`full`, nothing changed) under the batch rule `rule`, and any other
      unit is examined. */
  method ScanUnit(buf: seq<CqEntry>, n: int, rule: BatchRule, maxMsgNums: int, sub: Subscription,
                  log: CommitLogView, memory: int, limits: TransferLimits,
                  status: GetMessageStatus, messages: seq<SelectedMessage>, skipFrom: Option<int>,
                  ghost picked: seq<int>)
    returns (status': GetMessageStatus, messages': seq<SelectedMessage>, skipFrom': Option<int>,
             full: bool, ghost picked': seq<int>)
    requires 0 <= n < |buf| && 0 < log.fileSize
    requires ScanInvariant(buf, sub, log, BatchCap(rule, maxMsgNums), status, messages, picked, n, skipFrom.Some?)
    ensures full ==> messages != []
                     && BatchFull(rule, buf[n].phyOffset, buf[n].size, maxMsgNums, BufferTotal(messages),
                                  |messages|, log.maxOffset, memory, limits)
    ensures full ==> status' == status && messages' == messages && skipFrom' == skipFrom && picked' == picked
    ensures Scanned(buf[n], rule, maxMsgNums, sub, log, memory, limits, status, messages, skipFrom,
                    status', messages', skipFrom', full)
    ensures WithinCeilings(rule, maxMsgNums, log, memory, limits, messages) ==>
              WithinCeilings(rule, maxMsgNums, log, memory, limits, messages')
    ensures !full ==> ScanInvariant(buf, sub, log, BatchCap(rule, maxMsgNums), status', messages', picked', n + 1, skipFrom'.Some?)
  {
    var unit := buf[n];
    status', messages', skipFrom', full, picked' := status, messages, skipFrom, false, picked;
    if skipFrom.Some? && unit.phyOffset < skipFrom.value {
      // this unit lies in a commit-log segment already found removed
      TakenFromSkip(buf, sub, log, messages, picked, n);
      ScanExactStep(buf, sub, log, picked, picked, n, true, true);
      return;
    }
    RuleBoundsBatch(rule, unit.phyOffset, unit.size, maxMsgNums, BufferTotal(messages),
                    |messages|, log.maxOffset, memory, limits);
    if BatchFull(rule, unit.phyOffset, unit.size, maxMsgNums, BufferTotal(messages),
                 |messages|, log.maxOffset, memory, limits) {
      full := true;
      return;
    }
    status', messages', skipFrom', picked' :=
      ExamineUnit(buf, n, BatchCap(rule, maxMsgNums), sub, log, status, messages, skipFrom, picked);
    if Matches(sub, unit.tagsCode) && log.CanRead(unit.phyOffset, unit.size)
       && WithinCeilings(rule, maxMsgNums, log, memory, limits, messages) {
      WithinCeilingsExtend(rule, maxMsgNums, log, memory, limits, messages, SelectedMessage(unit.phyOffset, unit.size));
    }
  }

  /** Taking unit n, accepted and readable, into a batch with room for it
      keeps the scan invariant, with status FOUND and skipping ended. */
  lemma TakeKeepsScanInvariant(buf: seq<CqEntry>, sub: Subscription, log: CommitLogView, cap: int,
                               status: GetMessageStatus, messages: seq<SelectedMessage>,
                               picked: seq<int>, n: int, skipping: bool)
    requires 0 <= n < |buf| && |messages| + 1 <= cap
    requires ScanInvariant(buf, sub, log, cap, status, messages, picked, n, skipping)
    requires Matches(sub, buf[n].tagsCode) && log.CanRead(buf[n].phyOffset, buf[n].size)
    ensures ScanInvariant(buf, sub, log, cap, Found, messages + [SelectedMessage(buf[n].phyOffset, buf[n].size)],
                          picked + [n], n + 1, false)
  {
    var sel := SelectedMessage(buf[n].phyOffset, buf[n].size);
    assert (messages + [sel])[..|messages|] == messages;
    TakenFromTake(buf, sub, log, messages, picked, n);
    ScanExactStep(buf, sub, log, picked, picked + [n], n, skipping, false);
  }

  /** Passing over unit n without taking it keeps the scan invariant, when
      the unit is accepted but removed (skipping starts) or not accepted
      (skipping unchanged), and the status changes only while the batch is
      empty, to NO_MATCHED_MESSAGE or MESSAGE_WAS_REMOVING. */
  lemma PassKeepsScanInvariant(buf: seq<CqEntry>, sub: Subscription, log: CommitLogView, cap: int,
                               status: GetMessageStatus, status': GetMessageStatus,
                               messages: seq<SelectedMessage>, picked: seq<int>, n: int,
                               skipping: bool, skipping': bool)
    requires 0 <= n < |buf|
    requires ScanInvariant(buf, sub, log, cap, status, messages, picked, n, skipping)
    requires status' == status
             || (BufferTotal(messages) == 0 && (status' == NoMatchedMessage || status' == MessageWasRemoving))
    requires || (Matches(sub, buf[n].tagsCode) && !log.CanRead(buf[n].phyOffset, buf[n].size) && skipping')
             || (!Matches(sub, buf[n].tagsCode) && skipping' == skipping)
    ensures ScanInvariant(buf, sub, log, cap, status', messages, picked, n + 1, skipping')
  {
    TakenFromSkip(buf, sub, log, messages, picked, n);
    ScanExactStep(buf, sub, log, picked, picked, n, skipping, skipping');
  }

  /** Unit n when the batch has room for one more message: an accepted
      readable unit is taken, an accepted unit the log cannot serve starts
      skipping to the next segment, and a unit not accepted is passed over. */
  method ExamineUnit(buf: seq<CqEntry>, n: int, cap: int, sub: Subscription, log: CommitLogView,
                     status: GetMessageStatus, messages: seq<SelectedMessage>, skipFrom: Option<int>,
                     ghost picked: seq<int>)
    returns (status': GetMessageStatus, messages': seq<SelectedMessage>, skipFrom': Option<int>,
             ghost picked': seq<int>)
    requires 0 <= n < |buf| && 0 < log.fileSize && |messages| + 1 <= cap
    requires ScanInvariant(buf, sub, log, cap, status, messages, picked, n, skipFrom.Some?)
    ensures ScanInvariant(buf, sub, log, cap, status', messages', picked', n + 1, skipFrom'.Some?)
    ensures Examined(buf[n], sub, log, status, messages, skipFrom, status', messages', skipFrom')
  {
    var unit := buf[n];
    status', messages', skipFrom', picked' := status, messages, skipFrom, picked;
    if Matches(sub, unit.tagsCode) {
      if log.CanRead(unit.phyOffset, unit.size) {
        TakeKeepsScanInvariant(buf, sub, log, cap, status, messages, picked, n, skipFrom.Some?);
        messages' := messages + [SelectedMessage(unit.phyOffset, unit.size)];
        picked' := picked + [n];
        status' := Found;
        skipFrom' := None;
      } else {
        if BufferTotal(messages) == 0 {
          status' := MessageWasRemoving;
        }
        skipFrom' := Some(log.RollNextFile(unit.phyOffset));
        PassKeepsScanInvariant(buf, sub, log, cap, status, status', messages, picked, n, skipFrom.Some?, true);
      }
    } else {
      if BufferTotal(messages) == 0 {
        status' := NoMatchedMessage;
      }
      PassKeepsScanInvariant(buf, sub, log, cap, status, status', messages, picked, n, skipFrom.Some?, skipFrom.Some?);
    }
  }

  /** The commit-log offset of the last unit a scan that ended at n examined:
      the unit that found the batch full when it stopped early, otherwise the
      last unit walked, or 0 when none was. */
  function LastPulledOffset(buf: seq<CqEntry>, n: int): int
    requires 0 <= n <= |buf|
  {
    if n < |buf| && n < MaxUnitsPerScan then buf[n].phyOffset
    else if n > 0 then buf[n - 1].phyOffset
    else 0
  }

  /** The in-range part of a pull: walk the index units returned for
      `offset`, at most MaxUnitsPerScan of them, take each unit the
      subscription accepts while the batch is not full, skip units that lie
      before the next commit-log segment once a message was found removed,
      and report the offset to pull from next. The consumer is told to pull
      from the slave when the last unit examined lies more than `memory`
      bytes behind the end of the log. The batch is closed by `rule`: the
      store runs the written rule, and the corrected rule gives the scan the
      program evidently intends. */
  method ScanIndexBuffer(offset: int, buf: seq<CqEntry>, rule: BatchRule, maxMsgNums: int, sub: Subscription,
                         log: CommitLogView, memory: int, limits: TransferLimits)
    returns (status: GetMessageStatus, messages: seq<SelectedMessage>, nextBeginOffset: int,
             suggestPullingFromSlave: bool, ghost picked: seq<int>)
    requires 0 < log.fileSize
    ensures offset <= nextBeginOffset <= offset + |buf|
    ensures nextBeginOffset <= offset + MaxUnitsPerScan
    ensures status == Found <==> messages != []
    ensures status == Found || status == NoMatchedMessage || status == MessageWasRemoving
    ensures |messages| <= BatchCap(rule, maxMsgNums)
    ensures TakenFrom(buf, sub, log, messages, picked, nextBeginOffset - offset)
    ensures NothingRemoved(buf, sub, log, nextBeginOffset - offset) ==>
              picked == MatchingUnits(buf, sub, nextBeginOffset - offset)
    ensures var n := nextBeginOffset - offset;
            n < |buf| && n < MaxUnitsPerScan ==>
              messages != []
              && BatchFull(rule, buf[n].phyOffset, buf[n].size, maxMsgNums, BufferTotal(messages),
                           |messages|, log.maxOffset, memory, limits)
    ensures suggestPullingFromSlave <==>
              log.maxOffset - LastPulledOffset(buf, nextBeginOffset - offset) > memory
    ensures WithinCeilings(rule, maxMsgNums, log, memory, limits, messages)
    ensures forall j :: 0 <= j < |messages| ==> 0 < messages[j].size
  {
    var n, maxPhyOffsetPulling;
    ghost var skipping;
    status, messages, n, maxPhyOffsetPulling, picked, skipping :=
      WalkUnits(buf, rule, maxMsgNums, sub, log, memory, limits);
    nextBeginOffset := offset + n;
    suggestPullingFromSlave := log.maxOffset - maxPhyOffsetPulling > memory;
  }

  /** Where the walk stands after n units: either it stopped at unit n,
      which found the batch full, or it walked n units and the last one
      walked is the last unit examined. */
  ghost predicate Walked(buf: seq<CqEntry>, rule: BatchRule, maxMsgNums: int, log: CommitLogView, memory: int,
                         limits: TransferLimits, messages: seq<SelectedMessage>, n: int, full: bool,
                         maxPhyOffsetPulling: int)
  {
    && 0 <= n <= |buf| && n <= MaxUnitsPerScan
    && (full ==> n < |buf| && n < MaxUnitsPerScan && maxPhyOffsetPulling == buf[n].phyOffset
                 && messages != []
                 && BatchFull(rule, buf[n].phyOffset, buf[n].size, maxMsgNums, BufferTotal(messages),
                              |messages|, log.maxOffset, memory, limits))
    && (!full ==> maxPhyOffsetPulling == if n > 0 then buf[n - 1].phyOffset else 0)
  }

  /** The loop of the scan: walk the units from the first, at most
      MaxUnitsPerScan of them, until the batch is full. `n` is the number of
      units walked and `maxPhyOffsetPulling` the commit-log offset of the
      last unit examined. */
  method WalkUnits(buf: seq<CqEntry>, rule: BatchRule, maxMsgNums: int, sub: Subscription,
                   log: CommitLogView, memory: int, limits: TransferLimits)
    returns (status: GetMessageStatus, messages: seq<SelectedMessage>, n: int, maxPhyOffsetPulling: int,
             ghost picked: seq<int>, ghost skipping: bool)
    requires 0 < log.fileSize
    ensures n <= MaxUnitsPerScan
    ensures ScanInvariant(buf, sub, log, BatchCap(rule, maxMsgNums), status, messages, picked, n, skipping)
    ensures n < |buf| && n < MaxUnitsPerScan ==>
              messages != []
              && BatchFull(rule, buf[n].phyOffset, buf[n].size, maxMsgNums, BufferTotal(messages),
                           |messages|, log.maxOffset, memory, limits)
    ensures maxPhyOffsetPulling == LastPulledOffset(buf, n)
    ensures WithinCeilings(rule, maxMsgNums, log, memory, limits, messages)
  {
    status := NoMatchedMessage;
    messages := [];
    picked := [];
    var nextPhyFileStartOffset: Option<int> := None;
    maxPhyOffsetPulling := 0;
    // the loop walks the units one at a time: its byte counter is always
    // CqStoreUnitSize * n, and MaxFilterMessageCount bytes are exactly
    // MaxUnitsPerScan units
    n := 0;
    var full := false;
    while !full && n < |buf| && n < MaxUnitsPerScan
      invariant ScanInvariant(buf, sub, log, BatchCap(rule, maxMsgNums), status, messages, picked, n, nextPhyFileStartOffset.Some?)
      invariant Walked(buf, rule, maxMsgNums, log, memory, limits, messages, n, full, maxPhyOffsetPulling)
      invariant WithinCeilings(rule, maxMsgNums, log, memory, limits, messages)
      decreases |buf| - n, if full then 0 else 1
    {
      status, messages, nextPhyFileStartOffset, n, full, maxPhyOffsetPulling, picked :=
        WalkStep(buf, n, rule, maxMsgNums, sub, log, memory, limits, status, messages, nextPhyFileStartOffset, picked);
    }
    skipping := nextPhyFileStartOffset.Some?;
  }

  /** One turn of the scan loop: unit n is scanned, becomes the last unit
      examined, and the walk moves past it unless it found the batch full. */
  method WalkStep(buf: seq<CqEntry>, n: int, rule: BatchRule, maxMsgNums: int, sub: Subscription,
                  log: CommitLogView, memory: int, limits: TransferLimits,
                  status: GetMessageStatus, messages: seq<SelectedMessage>, skipFrom: Option<int>,
                  ghost picked: seq<int>)
    returns (status': GetMessageStatus, messages': seq<SelectedMessage>, skipFrom': Option<int>,
             n': int, full: bool, maxPhyOffsetPulling: int, ghost picked': seq<int>)
    requires 0 < log.fileSize && 0 <= n < |buf| && n < MaxUnitsPerScan
    requires ScanInvariant(buf, sub, log, BatchCap(rule, maxMsgNums), status, messages, picked, n, skipFrom.Some?)
    requires WithinCeilings(rule, maxMsgNums, log, memory, limits, messages)
    ensures if full then n' == n else n' == n + 1
    ensures ScanInvariant(buf, sub, log, BatchCap(rule, maxMsgNums), status', messages', picked', n', skipFrom'.Some?)
    ensures Walked(buf, rule, maxMsgNums, log, memory, limits, messages', n', full, maxPhyOffsetPulling)
    ensures WithinCeilings(rule, maxMsgNums, log, memory, limits, messages')
  {
    maxPhyOffsetPulling := buf[n].phyOffset;
    status', messages', skipFrom', full, picked' :=
      ScanUnit(buf, n, rule, maxMsgNums, sub, log, memory, limits, status, messages, skipFrom, picked);
    n' := if full then n else n + 1;
  }
}
