/** The mobile sync slice (mobile-expo/src/store/sync/syncSlice.ts): offline and syncing
    flags, the last sync time, a queue of pending items and an error. */
module SyncSlice {
  import opened Wrappers
  import opened Seqs

  datatype QueueOp = CREATE | UPDATE | DELETE

  /** `SyncQueueItem`, without its free-form `data`. */
  datatype SyncQueueItem = SyncQueueItem(id: string, action: QueueOp, tableName: string, recordId: int, createdAt: string)

  datatype SyncView = SyncView(
    isOffline: bool,
    isSyncing: bool,
    lastSyncTime: Option<string>,
    syncQueue: seq<SyncQueueItem>,
    error: Option<string>)

  /** The payload `syncToServer` fulfils with: the id of every item in the queue it read. */
  function PendingIds(q: seq<SyncQueueItem>): (ids: seq<string>)
    ensures |ids| == |q|
    ensures forall item :: item in q ==> item.id in ids
    ensures forall id :: id in ids ==> exists item :: item in q && item.id == id
  {
    if q == [] then [] else [q[0].id] + PendingIds(q[1..])
  }

  /** `syncQueue.filter(item => !ids.includes(item.id))`. */
  function WithoutIds(q: seq<SyncQueueItem>, ids: seq<string>): (r: seq<SyncQueueItem>)
    ensures IsSubseq(r, q)
    ensures forall item :: item in r <==> item in q && item.id !in ids
  {
    Filter((item: SyncQueueItem) => item.id !in ids, q)
  }

  /** A fulfilled sync empties the queue it read, and items queued after the read whose
      ids are new stay, in order. */
  lemma FulfilledSyncClearsWhatItRead(read: seq<SyncQueueItem>, later: seq<SyncQueueItem>)
    requires forall item :: item in later ==> item.id !in PendingIds(read)
    ensures WithoutIds(read, PendingIds(read)) == []
    ensures WithoutIds(read + later, PendingIds(read)) == later
  {
    var ids := PendingIds(read);
    var p := (item: SyncQueueItem) => item.id !in ids;
    FilterNonePass(p, read);
    FilterAllPass(p, later);
    FilterConcat(p, read, later);
  }

  /** The rejection payload: the error's message, or a fixed text when it has none. */
  function RejectMessage(message: string): (m: string)
    ensures m != ""
    ensures message != "" ==> m == message
  {
    if message != "" then message else "Sync failed"
  }

  class SyncState {
    var isOffline: bool
    var isSyncing: bool
    var lastSyncTime: Option<string>
    var syncQueue: seq<SyncQueueItem>
    var error: Option<string>

    ghost function View(): SyncView
      reads this
    {
      SyncView(isOffline, isSyncing, lastSyncTime, syncQueue, error)
    }

    constructor ()
      ensures View() == SyncView(false, false, None, [], None)
    {
      isOffline := false;
      isSyncing := false;
      lastSyncTime := None;
      syncQueue := [];
      error := None;
    }

    method SetOfflineStatus(offline: bool)
      modifies this
      ensures View() == old(View()).(isOffline := offline)
    {
      isOffline := offline;
    }

    method ClearError()
      modifies this
      ensures View() == old(View()).(error := None)
    {
      error := None;
    }

    method SetLastSyncTime(time: string)
      modifies this
      ensures View() == old(View()).(lastSyncTime := Some(time))
    {
      lastSyncTime := Some(time);
    }

    /** `checkNetworkStatus.fulfilled` with the reported connectedness, which may be
        unknown: offline unless known to be connected. */
    method CheckNetworkStatusFulfilled(isConnected: Option<bool>)
      modifies this
      ensures View() == old(View()).(isOffline := isConnected != Some(true))
    {
      isOffline := !(isConnected == Some(true));
    }

    method SyncPending()
      modifies this
      ensures View() == old(View()).(isSyncing := true, error := None)
    {
      isSyncing := true;
      error := None;
    }

    /** `syncToServer.fulfilled` with the ids the thunk read and the current time. */
    method SyncFulfilled(ids: seq<string>, now: string)
      modifies this
      ensures View() == old(View()).(isSyncing := false, lastSyncTime := Some(now),
                                     syncQueue := WithoutIds(old(syncQueue), ids), error := None)
    {
      isSyncing := false;
      lastSyncTime := Some(now);
      syncQueue := WithoutIds(syncQueue, ids);
      error := None;
    }

    method SyncRejected(payload: Option<string>)
      modifies this
      ensures View() == old(View()).(isSyncing := false, error := payload)
    {
      isSyncing := false;
      error := payload;
    }
  }
}
