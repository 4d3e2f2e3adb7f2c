/** The mobile sync engine (mobile-expo/src/services/syncService.ts): it owns the offline
    queue, replays it against the API, and reports a status to its listeners. */
module Sync {
  import opened Wrappers
  import opened Text
  import opened Seqs
  import opened ClientNotes
  import opened Offline

  /** `lastSync` is the clock reading of the last completed sync. */
  datatype SyncStatus = SyncStatus(isSyncing: bool, lastSync: Option<int>, pendingActions: nat, error: Option<string>)

  /** What a listener throws: an `Error` with its message, or any other value. */
  datatype Thrown = ErrorObject(message: string) | OtherValue

  /** A registered listener, told apart from others by `handle`. `throwsOn` holds the
      statuses on which it throws, with what it throws; handed any other status it
      returns normally. */
  datatype Listener = Listener(handle: nat, throwsOn: map<SyncStatus, Thrown>)

  /** One call of a listener, with the status it was handed. */
  datatype Delivery = Delivery(handle: nat, status: SyncStatus)

  datatype Verb = POST | PUT | DELETE

  /** A call to the notes API: method, path and JSON body. */
  datatype ApiRequest = ApiRequest(verb: Verb, path: string, body: Option<NoteRequest>)

  /** How a call of `sync` ended: it returned at once because a sync was under way, it
      ran to the end, or a listener threw out of it. */
  datatype SyncOutcome = Skipped | Completed | Threw

  /** `/notes/${id}`. */
  function NotePath(id: int): (path: string)
    ensures |path| > 7 && path[..7] == "/notes/"
  {
    "/notes/" + IntToString(id)
  }

  /** The request the replay of an action sends; an unrecognised type sends nothing. */
  function RequestFor(p: Payload): (r: Option<ApiRequest>)
    ensures r.None? <==> p.Unrecognised?
    ensures WellFormed(p) ==> (r.None? <==> TypeName(p) !in KnownTypes)
  {
    match p
    case CreateNote(request) => Some(ApiRequest(POST, "/notes", Some(request)))
    case UpdateNote(id, request) => Some(ApiRequest(PUT, NotePath(id), Some(request)))
    case DeleteNote(id) => Some(ApiRequest(DELETE, NotePath(id), None))
    case ShareNote(noteId, email) => Some(ApiRequest(POST, NotePath(noteId) + "/share/user?email=" + email, None))
    case SharePublic(noteId) => Some(ApiRequest(POST, NotePath(noteId) + "/share/public", None))
    case Unrecognised(_) => None
  }

  /** Every request an action sends addresses the note it is about: the path's digits
      after "/notes/" read back as the note id. */
  lemma RequestTargetsNote(p: Payload)
    requires !p.CreateNote? && !p.Unrecognised?
    requires (p.UpdateNote? || p.DeleteNote? ==> p.noteId >= 0)
    requires (p.ShareNote? || p.SharePublic? ==> p.noteId >= 0)
    ensures var path := RequestFor(p).value.path;
      var digits := NatToString(p.noteId);
      |path| >= 7 + |digits| && path[..7] == "/notes/" &&
      path[7..7 + |digits|] == digits && ParseDigits(path[7..7 + |digits|]) == p.noteId
  {
    var digits := NatToString(p.noteId);
    var path := RequestFor(p).value.path;
    var tail := path[7 + |digits|..];
    assert path == "/notes/" + digits + tail;
    NatToStringRoundTrip(p.noteId);
  }

  /** The requests a replay of `snapshot` sends, in order. */
  function Requests(snapshot: seq<OfflineAction>): (r: seq<ApiRequest>)
    ensures |r| <= |snapshot|
    ensures (forall i :: 0 <= i < |snapshot| ==> !snapshot[i].payload.Unrecognised?) ==> |r| == |snapshot|
    decreases |snapshot|
  {
    if snapshot == [] then []
    else
      var n := |snapshot| - 1;
      Requests(snapshot[..n]) + (match RequestFor(snapshot[n].payload)
                                 case Some(r) => [r]
                                 case None => [])
  }

  /** What `processAction` reports for each action, given whether the API accepted the
      request sent for it. */
  function Outcomes(snapshot: seq<OfflineAction>, responses: seq<bool>): (r: seq<bool>)
    requires |responses| == |snapshot|
    ensures |r| == |snapshot|
    ensures forall i :: 0 <= i < |snapshot| ==> (r[i] <==> !snapshot[i].payload.Unrecognised? && responses[i])
  {
    seq(|snapshot|, i requires 0 <= i < |snapshot| => !snapshot[i].payload.Unrecognised? && responses[i])
  }

  /** Replaying one more action adds its outcome and its request. */
  lemma ReplayStep(snapshot: seq<OfflineAction>, responses: seq<bool>, i: nat)
    requires |responses| == |snapshot| && i < |snapshot|
    ensures Outcomes(snapshot[..i + 1], responses[..i + 1])
              == Outcomes(snapshot[..i], responses[..i]) + [!snapshot[i].payload.Unrecognised? && responses[i]]
    ensures Requests(snapshot[..i + 1])
              == Requests(snapshot[..i]) + (match RequestFor(snapshot[i].payload) case Some(r) => [r] case None => [])
  {
    assert snapshot[..i + 1][..i] == snapshot[..i];
  }

  /** A replay in which the API accepts every request of a queue of recognised actions
      empties the queue. */
  lemma AllAcceptedEmptiesQueue(snapshot: seq<OfflineAction>, responses: seq<bool>)
    requires |responses| == |snapshot|
    requires forall i :: 0 <= i < |snapshot| ==> !snapshot[i].payload.Unrecognised? && responses[i]
    ensures Drain(snapshot, Outcomes(snapshot, responses)) == []
  {
    DrainAllSucceed(snapshot, Outcomes(snapshot, responses));
  }

  /** An action of an unrecognised type is never replayed successfully: every pass keeps
      it and counts one more retry, whatever the API answers. */
  lemma UnrecognisedActionsStay(snapshot: seq<OfflineAction>, responses: seq<bool>, i: nat)
    requires |responses| == |snapshot| && i < |snapshot|
    requires snapshot[i].payload.Unrecognised?
    ensures Bumped(snapshot[i]) in Drain(snapshot, Outcomes(snapshot, responses))
  {
    DrainMembership(snapshot, Outcomes(snapshot, responses));
  }

  /** The listeners' calls, each handed `st`. */
  function Deliveries(ls: seq<Listener>, st: SyncStatus): (r: seq<Delivery>)
    ensures |r| == |ls|
    ensures forall i :: 0 <= i < |ls| ==> r[i] == Delivery(ls[i].handle, st)
  {
    seq(|ls|, i requires 0 <= i < |ls| => Delivery(ls[i].handle, st))
  }

  /** Some listener throws when handed `st`. */
  predicate AnyRaises(ls: seq<Listener>, st: SyncStatus)
    ensures AnyRaises(ls, st) <==> exists i :: 0 <= i < |ls| && st in ls[i].throwsOn
  {
    exists l :: l in ls && st in l.throwsOn
  }

  /** The position of the first listener that throws when handed `st`, or the number of
      listeners. */
  function FirstRaising(ls: seq<Listener>, st: SyncStatus): (k: nat)
    ensures k <= |ls|
    ensures forall j :: 0 <= j < k ==> st !in ls[j].throwsOn
    ensures k < |ls| ==> st in ls[k].throwsOn
    ensures k < |ls| <==> AnyRaises(ls, st)
  {
    if ls == [] then 0
    else if st in ls[0].throwsOn then 0
    else
      assert forall l :: l in ls[1..] ==> l in ls;
      assert forall l :: l in ls && l != ls[0] ==> l in ls[1..];
      1 + FirstRaising(ls[1..], st)
  }

  /** How many listeners `forEach` reaches: all of them, or up to and including the first
      that throws. */
  function Reach(ls: seq<Listener>, st: SyncStatus): (n: nat)
    ensures n <= |ls|
    ensures AnyRaises(ls, st) ==> n == FirstRaising(ls, st) + 1
    ensures !AnyRaises(ls, st) ==> n == |ls|
  {
    if FirstRaising(ls, st) < |ls| then FirstRaising(ls, st) + 1 else |ls|
  }

  /** The calls one `notifyListeners` makes. */
  function Notified(ls: seq<Listener>, st: SyncStatus): (r: seq<Delivery>)
    ensures |r| == Reach(ls, st)
    ensures forall i :: 0 <= i < |r| ==> r[i] == Delivery(ls[i].handle, st)
    ensures !AnyRaises(ls, st) ==> r == Deliveries(ls, st)
  {
    Deliveries(ls[..Reach(ls, st)], st)
  }

  /** What escapes one `notifyListeners`: what the first throwing listener throws. */
  function Escaping(ls: seq<Listener>, st: SyncStatus): (t: Option<Thrown>)
    ensures t.Some? <==> AnyRaises(ls, st)
    ensures t.Some? ==> exists l :: l in ls && st in l.throwsOn && l.throwsOn[st] == t.value
  {
    var k := FirstRaising(ls, st);
    if k < |ls| then Some(ls[k].throwsOn[st]) else None
  }

  /** `error instanceof Error ? error.message : 'Sync failed'`. */
  function SyncError(t: Thrown): (m: string)
    ensures t.ErrorObject? ==> m == t.message
    ensures t.OtherValue? ==> m == "Sync failed"
  {
    match t
    case ErrorObject(message) => message
    case OtherValue => "Sync failed"
  }

  /** The status a sync leaves after its replay, given the status `done` that the try
      block builds: `done` itself when notifying with it throws nothing, otherwise the
      catch's copy of it carrying the error. Either way no sync is under way. */
  function AfterReplay(ls: seq<Listener>, done: SyncStatus): (st: SyncStatus)
    requires !done.isSyncing && done.error.None?
    ensures !st.isSyncing && st.lastSync == done.lastSync && st.pendingActions == done.pendingActions
    ensures st.error.Some? <==> AnyRaises(ls, done)
    ensures AnyRaises(ls, done) ==> st.error == Some(SyncError(Escaping(ls, done).value))
  {
    match Escaping(ls, done)
    case None => done
    case Some(t) => done.(error := Some(SyncError(t)), isSyncing := false)
  }

  /** A listener that throws only on the status left by the replay sends the sync down
      the catch path: the start is notified in full, and the error becomes the message
      it threw. */
  lemma CatchPathReached(h: nat, done: SyncStatus, message: string, started: SyncStatus)
    requires !done.isSyncing && done.error.None? && started.isSyncing
    ensures var ls := [Listener(h, map[done := ErrorObject(message)])];
      !AnyRaises(ls, started) && AfterReplay(ls, done) == done.(error := Some(message))
  {
    var ls := [Listener(h, map[done := ErrorObject(message)])];
    assert started != done;
    assert FirstRaising(ls, done) == 0;
  }

  /** The closure `addListener` returns removes every registration of its listener and
      keeps the others in order. */
  lemma UnsubscribeRemovesListener(ls: seq<Listener>, l: Listener)
    ensures Filter((x: Listener) => x != l, ls + [l]) == Filter((x: Listener) => x != l, ls)
    ensures forall x :: x in Filter((x: Listener) => x != l, ls + [l]) <==> x in ls && x != l
    ensures l !in ls ==> Filter((x: Listener) => x != l, ls + [l]) == ls
  {
    FilterConcat((x: Listener) => x != l, ls, [l]);
    assert Filter((x: Listener) => x != l, [l]) == [];
    if l !in ls {
      FilterAllPass((x: Listener) => x != l, ls);
    }
  }

  class SyncService {
    const offlineQueue: OfflineQueue
    var syncStatus: SyncStatus
    var listeners: seq<Listener>
    /** Every listener call made so far, in order. */
    var delivered: seq<Delivery>
    /** Every request sent to the API so far, in order. */
    var sent: seq<ApiRequest>

    /** The status counts the queued actions, and no queue pass is left half done. */
    predicate Valid()
      reads this, offlineQueue
    {
      syncStatus.pendingActions == |offlineQueue.queue| && !offlineQueue.isProcessing
    }

    constructor (storage: StoredQueue)
      ensures fresh(offlineQueue) && Valid()
      ensures offlineQueue.queue == [] && offlineQueue.storage == storage
      ensures syncStatus == SyncStatus(false, None, 0, None)
      ensures listeners == [] && delivered == [] && sent == []
    {
      offlineQueue := new OfflineQueue(storage);
      syncStatus := SyncStatus(false, None, 0, None);
      listeners := [];
      delivered := [];
      sent := [];
    }

    /** Calls every listener in order with the current status; a listener that throws
        ends the round and what it threw propagates (`thrown`). */
    method NotifyListeners() returns (thrown: Option<Thrown>)
      modifies this
      ensures delivered == old(delivered) + Notified(listeners, syncStatus)
      ensures thrown == Escaping(listeners, syncStatus)
      ensures syncStatus == old(syncStatus) && listeners == old(listeners) && sent == old(sent)
    {
      var i := 0;
      while i < |listeners|
        invariant 0 <= i <= |listeners|
        invariant forall j :: 0 <= j < i ==> syncStatus !in listeners[j].throwsOn
        invariant delivered == old(delivered) + Deliveries(listeners[..i], syncStatus)
        invariant syncStatus == old(syncStatus) && listeners == old(listeners) && sent == old(sent)
      {
        delivered := delivered + [Delivery(listeners[i].handle, syncStatus)];
        assert Deliveries(listeners[..i + 1], syncStatus) == Deliveries(listeners[..i], syncStatus) + [Delivery(listeners[i].handle, syncStatus)];
        if syncStatus in listeners[i].throwsOn {
          return Some(listeners[i].throwsOn[syncStatus]);
        }
        i := i + 1;
      }
      assert listeners[..i] == listeners;
      thrown := None;
    }

    /** Counts the queued actions into the status, then notifies. */
    method UpdatePendingActions() returns (thrown: Option<Thrown>)
      modifies this
      ensures syncStatus == old(syncStatus).(pendingActions := |offlineQueue.queue|)
      ensures delivered == old(delivered) + Notified(listeners, syncStatus)
      ensures thrown == Escaping(listeners, syncStatus)
      ensures listeners == old(listeners) && sent == old(sent)
    {
      var n := offlineQueue.GetQueueLength();
      syncStatus := syncStatus.(pendingActions := n);
      thrown := NotifyListeners();
    }

    /** Loads the stored queue, then counts it into the status. */
    method Init() returns (thrown: Option<Thrown>)
      requires Valid()
      modifies this, offlineQueue
      ensures Valid()
      ensures offlineQueue.queue ==
        (if old(offlineQueue.storage).Stored? then old(offlineQueue.storage).actions else old(offlineQueue.queue))
      ensures offlineQueue.storage == old(offlineQueue.storage)
      ensures syncStatus == old(syncStatus).(pendingActions := |offlineQueue.queue|)
      ensures delivered == old(delivered) + Notified(listeners, syncStatus)
      ensures thrown == Escaping(listeners, syncStatus)
      ensures listeners == old(listeners) && sent == old(sent)
    {
      offlineQueue.Init();
      thrown := UpdatePendingActions();
    }

    method AddListener(l: Listener)
      modifies this
      ensures listeners == old(listeners) + [l]
      ensures syncStatus == old(syncStatus) && delivered == old(delivered) && sent == old(sent)
    {
      listeners := listeners + [l];
    }

    /** What the closure returned by `addListener` does when called. */
    method RemoveListener(l: Listener)
      modifies this
      ensures listeners == Filter((x: Listener) => x != l, old(listeners))
      ensures syncStatus == old(syncStatus) && delivered == old(delivered) && sent == old(sent)
    {
      listeners := Filter((x: Listener) => x != l, listeners);
    }

    /** Replays one action: sends its request and reports whether the API accepted it
        (`response`); an unrecognised type reports failure without sending anything.
        Every API failure is caught and reported as `false`. */
    method ProcessAction(action: OfflineAction, response: bool) returns (success: bool)
      modifies this
      ensures success <==> !action.payload.Unrecognised? && response
      ensures sent == old(sent) + (match RequestFor(action.payload) case Some(r) => [r] case None => [])
      ensures syncStatus == old(syncStatus) && listeners == old(listeners) && delivered == old(delivered)
    {
      match RequestFor(action.payload)
      case Some(r) =>
        sent := sent + [r];
        success := response;
      case None =>
        success := false;
    }

    /** One sync. `responses[i]` says whether the API accepts the request for the i-th
        queued action; `now` is the clock reading. A sync under way makes the call return
        at once. A listener that throws when the sync starts makes the whole call throw
        before anything is replayed, with `isSyncing` left set, so every later sync
        returns at once. Otherwise the queue is replayed and drained. The status records
        the time and the new queue length with `isSyncing` cleared; if notifying that
        status throws, the catch records the error, still with `isSyncing` cleared. The
        final notification then reports the status, and the call throws only if that
        notification does. */
    method Sync(responses: seq<bool>, now: int) returns (outcome: SyncOutcome)
      requires Valid() && |responses| == |offlineQueue.queue|
      modifies this, offlineQueue
      ensures Valid()
      ensures listeners == old(listeners)
      ensures old(syncStatus).isSyncing ==>
        outcome == Skipped && unchanged(this) && unchanged(offlineQueue)
      ensures !old(syncStatus).isSyncing && AnyRaises(listeners, old(syncStatus).(isSyncing := true, error := None)) ==>
        outcome == Threw && syncStatus == old(syncStatus).(isSyncing := true, error := None) &&
        offlineQueue.queue == old(offlineQueue.queue) && sent == old(sent) &&
        delivered == old(delivered) + Notified(listeners, syncStatus)
      ensures !old(syncStatus).isSyncing && !AnyRaises(listeners, old(syncStatus).(isSyncing := true, error := None)) ==>
        var started := old(syncStatus).(isSyncing := true, error := None);
        var done := SyncStatus(false, Some(now), |offlineQueue.queue|, None);
        offlineQueue.queue == Drain(old(offlineQueue.queue), Outcomes(old(offlineQueue.queue), responses)) &&
        offlineQueue.storage == Stored(offlineQueue.queue) &&
        sent == old(sent) + Requests(old(offlineQueue.queue)) &&
        syncStatus == AfterReplay(listeners, done) &&
        delivered == old(delivered) + Deliveries(listeners, started) +
          Notified(listeners, done) + Notified(listeners, syncStatus) &&
        (outcome == Threw <==> AnyRaises(listeners, syncStatus)) && outcome != Skipped
      ensures !old(syncStatus).isSyncing && !AnyRaises(listeners, old(syncStatus).(isSyncing := true, error := None)) ==>
        !syncStatus.isSyncing && syncStatus.lastSync == Some(now) &&
        (syncStatus.error.Some? <==> AnyRaises(listeners, SyncStatus(false, Some(now), |offlineQueue.queue|, None)))
    {
      if syncStatus.isSyncing {
        return Skipped;
      }
      syncStatus := syncStatus.(isSyncing := true, error := None);
      var thrown := NotifyListeners();
      if thrown.Some? {
        return Threw;
      }
      assert listeners[..Reach(listeners, syncStatus)] == listeners;
      ghost var started := syncStatus;
      ghost var deliveredBefore := delivered;
      var snapshot := offlineQueue.GetQueue();
      ghost var sentBefore := sent;
      var results: seq<bool> := [];
      var i := 0;
      while i < |snapshot|
        invariant 0 <= i <= |snapshot|
        invariant results == Outcomes(snapshot[..i], responses[..i])
        invariant sent == sentBefore + Requests(snapshot[..i])
        invariant syncStatus == started && listeners == old(listeners) && delivered == deliveredBefore
        invariant unchanged(offlineQueue) && offlineQueue.queue == snapshot
      {
        var ok := ProcessAction(snapshot[i], responses[i]);
        results := results + [ok];
        ReplayStep(snapshot, responses, i);
        i := i + 1;
      }
      assert snapshot[..i] == snapshot && responses[..i] == responses;
      var _ := offlineQueue.ProcessQueue(results);
      syncStatus := syncStatus.(lastSync := Some(now), isSyncing := false);
      thrown := UpdatePendingActions();
      if thrown.Some? {
        syncStatus := syncStatus.(error := Some(SyncError(thrown.value)), isSyncing := false);
      }
      thrown := NotifyListeners();
      outcome := if thrown.Some? then Threw else Completed;
    }

    /** Records an action in the queue, then counts it into the status. `now` and `stamp`
        are the clock readings taken for the action's id and timestamp. */
    method AddOfflineAction(payload: Payload, now: int, stamp: int, suffix: string) returns (thrown: Option<Thrown>)
      requires Valid()
      modifies this, offlineQueue
      ensures Valid()
      ensures offlineQueue.queue ==
        old(offlineQueue.queue) + [NewAction(payload, now, stamp, suffix)]
      ensures offlineQueue.storage == Stored(offlineQueue.queue)
      ensures syncStatus == old(syncStatus).(pendingActions := old(syncStatus).pendingActions + 1)
      ensures delivered == old(delivered) + Notified(listeners, syncStatus)
      ensures thrown == Escaping(listeners, syncStatus)
      ensures listeners == old(listeners) && sent == old(sent)
    {
      var _ := offlineQueue.AddAction(payload, now, stamp, suffix);
      thrown := UpdatePendingActions();
    }

    /** A copy of the status. */
    method GetStatus() returns (status: SyncStatus)
      ensures status == syncStatus
    {
      status := syncStatus;
    }

    /** Empties the queue, then counts it into the status. */
    method ClearOfflineQueue() returns (thrown: Option<Thrown>)
      requires Valid()
      modifies this, offlineQueue
      ensures Valid()
      ensures offlineQueue.queue == [] && offlineQueue.storage == Stored([])
      ensures syncStatus == old(syncStatus).(pendingActions := 0)
      ensures delivered == old(delivered) + Notified(listeners, syncStatus)
      ensures thrown == Escaping(listeners, syncStatus)
      ensures listeners == old(listeners) && sent == old(sent)
    {
      offlineQueue.ClearQueue();
      thrown := UpdatePendingActions();
    }
  }
}
