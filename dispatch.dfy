/** The dispatch double buffer: producers append requests to a write list;
    the service swaps the write and read lists and routes every request of
    the read list to its consume queue by transaction type. */
module DispatchService {
  import opened StoreTypes
  import opened QueueTables
  import opened MessageStore

  class DispatchMessageService {
    var requestsWrite: seq<DispatchRequest>
    var requestsRead: seq<DispatchRequest>

    constructor()
      ensures requestsWrite == [] && requestsRead == []
    {
      requestsWrite := [];
      requestsRead := [];
    }

    /** The requests not yet dispatched, in the order they will be: the read
        list (being dispatched) before the write list. */
    function Pending(): seq<DispatchRequest>
      reads this
    {
      requestsRead + requestsWrite
    }

    /** Whether either list still holds a request. */
    method HasRemainMessage() returns (r: bool)
      ensures r <==> Pending() != []
    {
      if requestsWrite != [] {
        return true;
      }
      if requestsRead != [] {
        return true;
      }
      return false;
    }

    /** A producer's request joins the end of the write list. */
    method PutRequest(req: DispatchRequest)
      modifies this`requestsWrite
      ensures requestsWrite == old(requestsWrite) + [req]
      ensures Pending() == old(Pending()) + [req]
    {
      requestsWrite := requestsWrite + [req];
    }

    /** The two lists change places; no request is lost or duplicated. */
    method SwapRequests()
      modifies this`requestsWrite, this`requestsRead
      ensures requestsRead == old(requestsWrite) && requestsWrite == old(requestsRead)
      ensures multiset(Pending()) == multiset(old(Pending()))
      ensures old(requestsRead) == [] ==> Pending() == old(Pending())
    {
      var tmp := requestsWrite;
      requestsWrite := requestsRead;
      requestsRead := tmp;
    }

    /** Routes every request of the read list, in order: "none" and "commit"
        messages get a consume-queue position, prepared and rolled-back ones
        none; the whole batch goes to the index service when indexing is on;
        the read list ends empty. */
    method DoDispatch(store: DefaultMessageStore)
      requires store.Valid()
      modifies this`requestsRead, store`consumeQueueTable, store`indexRequests
      ensures store.Valid()
      ensures requestsRead == []
      ensures store.consumeQueueTable == DispatchAll(old(store.consumeQueueTable), old(requestsRead))
      ensures store.indexRequests
              == if old(requestsRead) != [] && store.messageIndexEnable
                 then old(store.indexRequests) + [old(requestsRead)] else old(store.indexRequests)
    {
      if requestsRead != [] {
        ghost var t0 := store.consumeQueueTable;
        var k := 0;
        while k < |requestsRead|
          invariant 0 <= k <= |requestsRead|
          invariant store.Valid()
          invariant store.consumeQueueTable == DispatchAll(t0, requestsRead[..k])
          invariant requestsRead == old(requestsRead) && store.indexRequests == old(store.indexRequests)
        {
          var req := requestsRead[k];
          assert requestsRead[..k + 1][..k] == requestsRead[..k];
          if GoesToConsumeQueue(req.sysFlag) {
            store.PutMessagePositionInfo(req.topic, req.queueId, req.commitLogOffset, req.msgSize,
                                         req.tagsCode, req.storeTimestamp, req.consumeQueueOffset);
          }
          k := k + 1;
        }
        assert requestsRead[..k] == requestsRead;
        if store.messageIndexEnable {
          store.indexRequests := store.indexRequests + [requestsRead];
        }
        requestsRead := [];
      }
    }

    /** One round of the service: the swap done when its wait ends, then the
        dispatch. Starting from an empty read list, it dispatches exactly the
        requests written so far, in order, hands them to the index service as
        one batch when indexing is on and there were any, and leaves both
        lists empty. */
    method DispatchRound(store: DefaultMessageStore)
      requires store.Valid() && requestsRead == []
      modifies this`requestsWrite, this`requestsRead, store`consumeQueueTable, store`indexRequests
      ensures store.Valid()
      ensures requestsRead == [] && requestsWrite == []
      ensures store.consumeQueueTable == DispatchAll(old(store.consumeQueueTable), old(requestsWrite))
      ensures store.indexRequests
              == if old(requestsWrite) != [] && store.messageIndexEnable
                 then old(store.indexRequests) + [old(requestsWrite)] else old(store.indexRequests)
    {
      SwapRequests();
      DoDispatch(store);
    }
  }
}
