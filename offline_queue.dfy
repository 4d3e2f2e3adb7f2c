/** The mobile offline queue (mobile-expo/src/services/offlineQueue.ts): actions recorded
    while the device is offline, persisted to device storage, and replayed in order by a
    processing pass that drops the actions that succeed and keeps the rest with one more
    retry counted. */
module Offline {
  import opened Wrappers
  import opened Text
  import opened Seqs
  import opened ClientNotes

  /** An action and the data its replay sends. `Unrecognised` holds a type read back from
      storage that is none of the five the queue writes. */
  datatype Payload =
    | CreateNote(request: NoteRequest)
    | UpdateNote(noteId: int, request: NoteRequest)
    | DeleteNote(noteId: int)
    | ShareNote(noteId: int, email: string)
    | SharePublic(noteId: int)
    | Unrecognised(typeName: string)

  /** The five types the queue writes and the replay recognises. */
  const KnownTypes: set<string> := {"CREATE_NOTE", "UPDATE_NOTE", "DELETE_NOTE", "SHARE_NOTE", "SHARE_PUBLIC"}

  /** A payload read back from storage is `Unrecognised` only when its type is none of
      the five. */
  predicate WellFormed(p: Payload)
  {
    p.Unrecognised? ==> p.typeName !in KnownTypes
  }

  /** The action's `type` field. For a well-formed payload, being recognised is a matter
      of the type name alone. */
  function TypeName(p: Payload): (t: string)
    ensures WellFormed(p) ==> (p.Unrecognised? <==> t !in KnownTypes)
  {
    match p
    case CreateNote(_) => "CREATE_NOTE"
    case UpdateNote(_, _) => "UPDATE_NOTE"
    case DeleteNote(_) => "DELETE_NOTE"
    case ShareNote(_, _) => "SHARE_NOTE"
    case SharePublic(_) => "SHARE_PUBLIC"
    case Unrecognised(t) => t
  }

  datatype OfflineAction = OfflineAction(
    id: string,
    payload: Payload,
    timestamp: int,
    retryCount: int,
    maxRetries: int)

  /** Every action is created with this retry limit. */
  const MaxRetries: int := 3

  /** What device storage holds under the key 'offline_queue': nothing (or an empty
      string), text that does not parse, or a serialised queue. */
  datatype StoredQueue = Absent | Unparsable | Stored(actions: seq<OfflineAction>)

  /** The id of a new action: its type, the clock reading and a random base-36 suffix,
      joined by underscores. */
  function ActionId(p: Payload, now: int, suffix: string): (id: string)
    ensures |id| > |TypeName(p)| + 1
  {
    TypeName(p) + "_" + IntToString(now) + "_" + suffix
  }

  /** The action `addAction` appends: a fresh id, a second clock reading as timestamp, no
      retries counted and the fixed retry limit. The id and the timestamp come from two
      separate reads of the clock (`now` and `stamp`), which need not agree. */
  function NewAction(p: Payload, now: int, stamp: int, suffix: string): (a: OfflineAction)
    ensures a.payload == p && a.timestamp == stamp && a.retryCount == 0 && a.maxRetries == 3
    ensures a.id == ActionId(p, now, suffix)
  {
    OfflineAction(ActionId(p, now, suffix), p, stamp, 0, MaxRetries)
  }

  /** An id names the type of its action, and for one type and one suffix distinct clock
      readings give distinct ids. */
  lemma ActionIdDistinguishesTime(p: Payload, t1: nat, t2: nat, suffix: string)
    ensures ActionId(p, t1, suffix)[..|TypeName(p)| + 1] == TypeName(p) + "_"
    ensures ActionId(p, t1, suffix) == ActionId(p, t2, suffix) ==> t1 == t2
  {
    var a := TypeName(p) + "_";
    var n1, n2 := NatToString(t1), NatToString(t2);
    var b := "_" + suffix;
    assert ActionId(p, t1, suffix) == a + n1 + b;
    assert ActionId(p, t2, suffix) == a + n2 + b;
    if ActionId(p, t1, suffix) == ActionId(p, t2, suffix) {
      CancelAround(a, n1, n2, b);
      NatToStringInjective(t1, t2);
    }
  }

  /** The middle of a three-part concatenation is determined by the whole and the ends. */
  lemma CancelAround(a: string, x: string, y: string, b: string)
    requires a + x + b == a + y + b
    ensures x == y
  {
    assert |x| == |y|;
    assert (a + x + b)[|a|..|a| + |x|] == x;
    assert (a + y + b)[|a|..|a| + |y|] == y;
  }

  /** `queue.filter(action => action.id !== actionId)`. */
  function WithoutAction(q: seq<OfflineAction>, actionId: string): (r: seq<OfflineAction>)
    ensures IsSubseq(r, q)
    ensures forall a :: a in r <==> a in q && a.id != actionId
  {
    Filter((a: OfflineAction) => a.id != actionId, q)
  }

  /** Removing an id a second time changes nothing. */
  lemma WithoutActionIdempotent(q: seq<OfflineAction>, actionId: string)
    ensures WithoutAction(WithoutAction(q, actionId), actionId) == WithoutAction(q, actionId)
  {
    FilterIdempotent((a: OfflineAction) => a.id != actionId, q);
  }

  /** A failed attempt: the action with one more retry counted. */
  function Bumped(a: OfflineAction): (b: OfflineAction)
    ensures b.retryCount == a.retryCount + 1
    ensures b.id == a.id && b.payload == a.payload && b.timestamp == a.timestamp && b.maxRetries == a.maxRetries
  {
    a.(retryCount := a.retryCount + 1)
  }

  /** The queue a processing pass leaves behind, given the snapshot it processed and what
      the callback reported for each snapshot entry (`false` also standing for a callback
      that threw): the failed actions, each with one more retry counted, in snapshot order.
      Both the "failed permanently" and the "will retry" branch keep the action. */
  function Drain(snapshot: seq<OfflineAction>, results: seq<bool>): (r: seq<OfflineAction>)
    requires |results| == |snapshot|
    ensures |r| <= |snapshot|
    decreases |snapshot|
  {
    if snapshot == [] then []
    else
      var n := |snapshot| - 1;
      Drain(snapshot[..n], results[..n]) + (if results[n] then [] else [Bumped(snapshot[n])])
  }

  /** Extending the processed prefix by one action. */
  lemma DrainStep(snapshot: seq<OfflineAction>, results: seq<bool>, i: nat)
    requires |results| == |snapshot| && i < |snapshot|
    ensures Drain(snapshot[..i + 1], results[..i + 1])
              == Drain(snapshot[..i], results[..i]) + (if results[i] then [] else [Bumped(snapshot[i])])
  {
    assert snapshot[..i + 1][..i] == snapshot[..i];
    assert results[..i + 1][..i] == results[..i];
  }

  /** The number of failures among the results. */
  function Failures(results: seq<bool>): nat
  {
    if results == [] then 0 else Failures(results[..|results| - 1]) + (if results[|results| - 1] then 0 else 1)
  }

  /** A pass keeps one action per failure. */
  lemma {:induction false} DrainLength(snapshot: seq<OfflineAction>, results: seq<bool>)
    requires |results| == |snapshot|
    ensures |Drain(snapshot, results)| == Failures(results)
    decreases |snapshot|
  {
    if snapshot != [] {
      var n := |snapshot| - 1;
      DrainLength(snapshot[..n], results[..n]);
    }
  }

  /** What a pass keeps: exactly the bumped copies of the snapshot entries that failed. */
  lemma {:induction false} DrainMembership(snapshot: seq<OfflineAction>, results: seq<bool>)
    requires |results| == |snapshot|
    ensures forall a :: a in Drain(snapshot, results) <==>
      exists i :: 0 <= i < |snapshot| && !results[i] && a == Bumped(snapshot[i])
    decreases |snapshot|
  {
    if snapshot != [] {
      var n := |snapshot| - 1;
      DrainMembership(snapshot[..n], results[..n]);
      forall a
        ensures a in Drain(snapshot, results) <==>
          exists i :: 0 <= i < |snapshot| && !results[i] && a == Bumped(snapshot[i])
      {
        FailedCopyLast(snapshot, results, a);
      }
    }
  }

  /** A failed copy in the whole pass is one in the prefix or the last action's. */
  lemma FailedCopyLast(snapshot: seq<OfflineAction>, results: seq<bool>, a: OfflineAction)
    requires |results| == |snapshot| > 0
    ensures var n := |snapshot| - 1;
            (exists i :: 0 <= i < |snapshot| && !results[i] && a == Bumped(snapshot[i]))
            <==> (exists i :: 0 <= i < n && !results[..n][i] && a == Bumped(snapshot[..n][i]))
                 || (!results[n] && a == Bumped(snapshot[n]))
  {
    var n := |snapshot| - 1;
    if exists i :: 0 <= i < |snapshot| && !results[i] && a == Bumped(snapshot[i]) {
      var i :| 0 <= i < |snapshot| && !results[i] && a == Bumped(snapshot[i]);
      if i < n {
        assert !results[..n][i] && a == Bumped(snapshot[..n][i]);
      }
    }
    if exists i :: 0 <= i < n && !results[..n][i] && a == Bumped(snapshot[..n][i]) {
      var i :| 0 <= i < n && !results[..n][i] && a == Bumped(snapshot[..n][i]);
      assert !results[i] && a == Bumped(snapshot[i]);
    }
  }

  /** When every action succeeds the queue ends empty. */
  lemma {:induction false} DrainAllSucceed(snapshot: seq<OfflineAction>, results: seq<bool>)
    requires |results| == |snapshot|
    requires forall i :: 0 <= i < |results| ==> results[i]
    ensures Drain(snapshot, results) == []
    decreases |snapshot|
  {
    if snapshot != [] {
      var n := |snapshot| - 1;
      DrainAllSucceed(snapshot[..n], results[..n]);
    }
  }

  /** Results that report failure for every one of `n` actions. */
  function AllFail(n: nat): (r: seq<bool>)
    ensures |r| == n && forall i :: 0 <= i < n ==> !r[i]
  {
    seq(n, _ => false)
  }

  /** When every action fails, every action is kept, in order, with one more retry
      counted, whatever its retry count and limit. */
  lemma {:induction false} DrainAllFail(snapshot: seq<OfflineAction>)
    ensures Drain(snapshot, AllFail(|snapshot|)) == seq(|snapshot|, i requires 0 <= i < |snapshot| => Bumped(snapshot[i]))
    decreases |snapshot|
  {
    if snapshot != [] {
      var n := |snapshot| - 1;
      assert AllFail(|snapshot|)[..n] == AllFail(n);
      DrainAllFail(snapshot[..n]);
    }
  }

  /** The queue after `k` passes in which every action fails. */
  function FailedPasses(q: seq<OfflineAction>, k: nat): seq<OfflineAction>
    decreases k
  {
    if k == 0 then q else FailedPasses(Drain(q, AllFail(|q|)), k - 1)
  }

  /** No action is ever abandoned: after any number of failed passes, `maxRetries` or
      more included, every action is still queued, in order, with the failures counted. */
  lemma {:induction false} NeverAbandoned(q: seq<OfflineAction>, k: nat)
    ensures |FailedPasses(q, k)| == |q|
    ensures forall i :: 0 <= i < |q| ==>
      FailedPasses(q, k)[i] == q[i].(retryCount := q[i].retryCount + k)
    decreases k
  {
    if k > 0 {
      DrainAllFail(q);
      var q' := Drain(q, AllFail(|q|));
      NeverAbandoned(q', k - 1);
    }
  }

  /** With distinct ids, an action whose replay succeeded is not in the queue afterwards,
      and one whose replay failed still is. */
  lemma SucceededActionsLeave(snapshot: seq<OfflineAction>, results: seq<bool>, i: nat)
    requires |results| == |snapshot| && i < |snapshot|
    requires forall j, k :: 0 <= j < k < |snapshot| ==> snapshot[j].id != snapshot[k].id
    ensures results[i] ==> forall a :: a in Drain(snapshot, results) ==> a.id != snapshot[i].id
    ensures !results[i] ==> Bumped(snapshot[i]) in Drain(snapshot, results)
  {
    DrainMembership(snapshot, results);
  }

  class OfflineQueue {
    var queue: seq<OfflineAction>
    var isProcessing: bool
    /** The copy in device storage, written after every change. */
    var storage: StoredQueue

    constructor (storage: StoredQueue)
      ensures queue == [] && !isProcessing && this.storage == storage
    {
      queue := [];
      isProcessing := false;
      this.storage := storage;
    }

    /** Loads the stored queue when storage holds one; otherwise keeps the current queue. */
    method Init()
      modifies this
      ensures queue == (if old(storage).Stored? then old(storage).actions else old(queue))
      ensures storage == old(storage) && isProcessing == old(isProcessing)
    {
      if storage.Stored? {
        queue := storage.actions;
      }
    }

    /** Appends a new action with no retries counted and returns its id. `now` is the
        clock reading taken for the id, `stamp` the one taken for the timestamp, and
        `suffix` the random part of the id. */
    method AddAction(payload: Payload, now: int, stamp: int, suffix: string) returns (id: string)
      modifies this
      ensures id == ActionId(payload, now, suffix)
      ensures queue == old(queue) + [NewAction(payload, now, stamp, suffix)]
      ensures storage == Stored(queue) && isProcessing == old(isProcessing)
    {
      id := TypeName(payload) + "_" + IntToString(now) + "_" + suffix;
      var action := OfflineAction(id, payload, stamp, 0, MaxRetries);
      queue := queue + [action];
      storage := Stored(queue);
    }

    method RemoveAction(actionId: string)
      modifies this
      ensures queue == WithoutAction(old(queue), actionId)
      ensures storage == Stored(queue) && isProcessing == old(isProcessing)
    {
      queue := WithoutAction(queue, actionId);
      storage := Stored(queue);
    }

    method GetQueue() returns (copy: seq<OfflineAction>)
      ensures copy == queue
    {
      copy := queue;
    }

    method ClearQueue()
      modifies this
      ensures queue == [] && storage == Stored([]) && isProcessing == old(isProcessing)
    {
      queue := [];
      storage := Stored(queue);
    }

    /** One processing pass. `results[i]` is what the callback reports for the i-th action
        of the snapshot. A pass already under way makes this call return at once; otherwise
        every snapshot action is handed to the callback once, in order, and the queue
        becomes `Drain` of the snapshot. */
    method ProcessQueue(results: seq<bool>) returns (dispatched: seq<OfflineAction>)
      requires |results| == |queue|
      modifies this
      ensures old(isProcessing) ==> dispatched == [] && unchanged(this)
      ensures !old(isProcessing) ==>
        dispatched == old(queue) && queue == Drain(old(queue), results) &&
        storage == Stored(queue) && !isProcessing
    {
      dispatched := [];
      if isProcessing {
        return;
      }
      isProcessing := true;
      var actionsToProcess := queue;
      var failedActions: seq<OfflineAction> := [];
      var i := 0;
      while i < |actionsToProcess|
        invariant 0 <= i <= |actionsToProcess|
        invariant dispatched == actionsToProcess[..i]
        invariant failedActions == Drain(actionsToProcess[..i], results[..i])
      {
        var action := actionsToProcess[i];
        dispatched := dispatched + [action];
        var success := results[i];
        if !success {
          action := action.(retryCount := action.retryCount + 1);
          failedActions := failedActions + [action];
        }
        DrainStep(actionsToProcess, results, i);
        i := i + 1;
      }
      assert actionsToProcess[..i] == actionsToProcess;
      assert results[..i] == results;
      queue := failedActions;
      storage := Stored(queue);
      isProcessing := false;
    }

    method GetQueueLength() returns (n: nat)
      ensures n == |queue|
    {
      n := |queue|;
    }

    method IsQueueEmpty() returns (empty: bool)
      ensures empty <==> queue == []
    {
      empty := |queue| == 0;
    }
  }
}
