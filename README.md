# Notes app: offline sync, client state and sharing rules in Dafny

This project models the logic at the heart of a Markdown notes application. The
application has three parts: a Spring backend, a React web client and an Expo mobile
client. It models them in four groups.

- **The mobile offline queue and sync engine.** When the device is offline, the mobile
  app records every mutation as an action in a queue. The queue is persisted to device
  storage. A processing pass replays the actions in order through a callback. It drops
  the ones that succeed and keeps the ones that fail, with one more retry counted. The
  sync service wraps the queue with four pieces:
  - a re-entrancy flag;
  - a status record;
  - a listener registry;
  - a switch from each of the five action kinds to one API request.

  The connectivity hook derives the `isOffline` flag that the app checks before syncing.
- **Client state slices.** These are the Redux reducers of the mobile and web notes
  slices: prepend, replace-by-id, remove-by-id, three filters and a loading/error
  machine. They also include the mobile thunks' offline fallback, which enqueues an
  action and answers optimistically. The mobile sync slice and auth slice are small
  state machines over flags and tokens.
- **Backend services.** Sharing moves a note between PRIVATE, SHARED and PUBLIC as
  shares and public links come and go. It refuses self-shares and duplicate shares, and
  draws 32-character tokens that are not yet in use. The note service covers four
  things:
  - create, update and delete with owner checks;
  - "absent means keep" for visibility and tags;
  - case-insensitive get-or-create of tags;
  - page slicing of shared notes.

  The repositories are one in-memory database of maps, `NotesDb.Database`.
- **Two pure pieces.** The global exception handler maps an error message to a code and
  an HTTP status by ordered keyword checks. The Markdown editor's `insertText` splices a
  marker pair around the selection and moves the cursor.

The layout follows the source: one module per source file, plus `Wrappers`
(Option/Result), `Text` (substring search, ASCII lower-casing, decimal strings,
split/join) and `Seqs` (an order-preserving filter and the subsequence relation).

Parts of the source that change state step by step are classes whose methods state
their whole new state:
- the queue, the sync service, the four slices' states, the database and the two
  backend services.

Each of those classes carries one of two kinds of specification:
- **Reducer classes** expose a ghost `View()` record, so each reducer reads
  `View() == old(View()).(field := value)`.
- **Backend services** are specified by ghost effect functions on a database snapshot,
  such as `ShareEffect`, `CreateNoteEffect` and `DeleteShareEffect`. The lemmas state
  what the source promises about those functions, such as "keeps the database
  consistent", "refuses twice" and "serves the note".

The queue pass is proved against the function `Drain`.

The clock, random draws, API replies, stored data and whether a listener throws are all
parameters.

## Model

| member | source | states |
|---|---|---|
| Offline.ActionId | mobile-expo/src/services/offlineQueue.ts:33 | the id is the action type, the clock reading and the random suffix joined by underscores, so it is longer than the type name |
| Offline.NewAction | mobile-expo/src/services/offlineQueue.ts:31-37 | a new action carries the payload, a second clock reading as timestamp, retryCount 0, maxRetries 3 and the id built from the first reading |
| Offline.ActionIdDistinguishesTime | mobile-expo/src/services/offlineQueue.ts:33 | an id starts with its type name and an underscore, and two ids for the same type and suffix are equal only if the clock readings are |
| Offline.WithoutAction | mobile-expo/src/services/offlineQueue.ts:46-50 | removing an id keeps an order-preserving subsequence holding exactly the actions with a different id |
| Offline.WithoutActionIdempotent | mobile-expo/src/services/offlineQueue.ts:46-50 | removing the same id a second time changes nothing |
| Offline.Bumped | mobile-expo/src/services/offlineQueue.ts:84 | a failed attempt raises the retry count by one and keeps the id, payload, timestamp and retry limit |
| Offline.Drain | mobile-expo/src/services/offlineQueue.ts:75-105 | the queue after a pass is never longer than the snapshot it processed |
| Offline.DrainStep | mobile-expo/src/services/offlineQueue.ts:75-102 | one more snapshot entry extends the failed list by that entry with one more retry if it failed, and by nothing if it succeeded |
| Offline.DrainLength | mobile-expo/src/services/offlineQueue.ts:75-105 | the queue after a pass is exactly as long as the number of failed callbacks |
| Offline.DrainMembership | mobile-expo/src/services/offlineQueue.ts:75-105 | an action is in the queue after a pass if and only if it is a failed snapshot entry with its retry count raised by one |
| Offline.FailedCopyLast | mobile-expo/src/services/offlineQueue.ts:96-100 | membership in the drained queue splits into the earlier entries and a failed copy of the last entry |
| Offline.DrainAllSucceed | mobile-expo/src/services/offlineQueue.ts:80-83 | if every callback succeeds, the queue is empty after the pass |
| Offline.DrainAllFail | mobile-expo/src/services/offlineQueue.ts:84-100 | if every callback fails, every action stays in its place with one more retry, whether or not its retries are exhausted |
| Offline.NeverAbandoned | mobile-expo/src/services/offlineQueue.ts:84-100 | after k failing passes the queue has its original length and every action has k more retries, so nothing is ever dropped for exceeding maxRetries |
| Offline.SucceededActionsLeave | mobile-expo/src/services/offlineQueue.ts:75-105 | with distinct ids, a succeeded action leaves no action with its id, and a failed one stays with one more retry |
| Offline.OfflineQueue.constructor | mobile-expo/src/services/offlineQueue.ts:14-16 | a new queue is empty and not processing |
| Offline.OfflineQueue.Init | mobile-expo/src/services/offlineQueue.ts:18-28 | the queue is loaded from storage when storage holds a parsed queue, and is otherwise left as it was |
| Offline.OfflineQueue.AddAction | mobile-expo/src/services/offlineQueue.ts:30-44 | exactly one new action is appended at the end, storage is written, and the new id is returned |
| Offline.OfflineQueue.RemoveAction | mobile-expo/src/services/offlineQueue.ts:46-50 | the queue loses every action with that id, the rest keep their order, and storage is written |
| Offline.OfflineQueue.GetQueue | mobile-expo/src/services/offlineQueue.ts:52-54 | returns a copy equal to the queue in insertion order |
| Offline.OfflineQueue.ClearQueue | mobile-expo/src/services/offlineQueue.ts:56-60 | the queue and its stored copy become empty |
| Offline.OfflineQueue.ProcessQueue | mobile-expo/src/services/offlineQueue.ts:62-110 | a call during a pass changes nothing; otherwise the callback sees the snapshot once per entry in order, the queue becomes Drain of the snapshot, it is stored, and the flag is cleared |
| Offline.OfflineQueue.GetQueueLength | mobile-expo/src/services/offlineQueue.ts:120-122 | returns the queue's length |
| Offline.OfflineQueue.IsQueueEmpty | mobile-expo/src/services/offlineQueue.ts:124-126 | true exactly when the queue is empty |
| Offline.TypeName | mobile-expo/src/services/syncService.ts:75-88 | for a well-formed payload, the payload is unrecognised exactly when its type name is none of the five the switch knows |
| Sync.RequestFor | mobile-expo/src/services/syncService.ts:73-94 | every recognised action type maps to one request and an unknown type to none; for a well-formed payload, a request is sent exactly when the type name is one of the five |
| Sync.NotePath | mobile-expo/src/services/syncService.ts:107-150 | every per-note path starts with /notes/ and is longer than that prefix |
| Sync.Requests | mobile-expo/src/services/syncService.ts:73-150 | a replay sends at most one request per queued action, and exactly one each when every type is recognised |
| Sync.RequestTargetsNote | mobile-expo/src/services/syncService.ts:107-150 | for update, delete, share and share-public, the request path starts with /notes/ and then the note id's digits, which read back as that id |
| Sync.Outcomes | mobile-expo/src/services/syncService.ts:73-94 | an action counts as delivered exactly when its type is recognised and its API call resolved |
| Sync.ReplayStep | mobile-expo/src/services/syncService.ts:73-94 | replaying one more action appends exactly its outcome and its request |
| Sync.AllAcceptedEmptiesQueue | mobile-expo/src/services/syncService.ts:52-61 | if every action is recognised and accepted, a sync pass empties the queue |
| Sync.UnrecognisedActionsStay | mobile-expo/src/services/syncService.ts:86-88 | an action of unknown type is never dropped by a pass, only counted as retried |
| Sync.Deliveries | mobile-expo/src/services/syncService.ts:33-35 | each listener in order receives the current status |
| Sync.FirstRaising | mobile-expo/src/services/syncService.ts:33-35 | for a given status, the listener that stops notification is the first one that throws on it, and one exists exactly when some listener throws on it |
| Sync.AnyRaises | mobile-expo/src/services/syncService.ts:33-35 | some listener throws on a status exactly when a listener at some position does |
| Sync.Reach | mobile-expo/src/services/syncService.ts:33-35 | a round reaches every listener when none throws, and otherwise stops just after the first that throws |
| Sync.Notified | mobile-expo/src/services/syncService.ts:33-35 | a round calls the reached listeners in order, each with the status, and calls them all when none throws |
| Sync.Escaping | mobile-expo/src/services/syncService.ts:33-35 | a notification round lets something escape exactly when some listener throws on the status, and what escapes is what such a listener throws |
| Sync.SyncError | mobile-expo/src/services/syncService.ts:66 | the recorded error is an Error's message, and 'Sync failed' for any other thrown value |
| Sync.AfterReplay | mobile-expo/src/services/syncService.ts:59-68 | after the replay no sync is under way, on the success exit and on the catch exit alike; the status has an error exactly when notifying the finished status throws, and the error is what was thrown |
| Sync.CatchPathReached | mobile-expo/src/services/syncService.ts:48-68 | a listener that throws only on the finished status lets the start through and sends the sync down the catch path with its message as the error |
| Sync.UnsubscribeRemovesListener | mobile-expo/src/services/syncService.ts:28-30 | unsubscribing removes every registration of the listener and keeps the others in order; for a listener not registered before, it restores the previous registry exactly |
| Sync.SyncService.constructor | mobile-expo/src/services/syncService.ts:11-19 | a new service has an empty queue, no listeners, no sync under way and zero pending actions |
| Sync.SyncService.NotifyListeners | mobile-expo/src/services/syncService.ts:33-35 | listeners are called in order with the status until one throws on it, and what that listener throws propagates |
| Sync.SyncService.UpdatePendingActions | mobile-expo/src/services/syncService.ts:37-40 | the pending count becomes the queue length, then listeners are notified |
| Sync.SyncService.Init | mobile-expo/src/services/syncService.ts:21-24 | the queue is loaded and the pending count matches it |
| Sync.SyncService.AddListener | mobile-expo/src/services/syncService.ts:26-31 | the listener is appended, and nothing else changes |
| Sync.SyncService.RemoveListener | mobile-expo/src/services/syncService.ts:28-30 | the registry keeps, in order, every listener other than the removed one |
| Sync.SyncService.ProcessAction | mobile-expo/src/services/syncService.ts:73-94 | sends the request for the action's kind (none for an unknown kind), and succeeds exactly when the kind is known and the call resolved |
| Sync.SyncService.Sync | mobile-expo/src/services/syncService.ts:42-71 | a call during a sync changes nothing; a listener throwing on the start status makes the call throw with the flag left set and the queue untouched; otherwise the queue becomes Drain of the replay outcomes and every request is sent in order; the status records the time and the new length with the flag cleared, and it carries an error exactly when notifying it threw (the catch exit); the final notification follows, and the call throws exactly when that one does |
| Sync.SyncService.AddOfflineAction | mobile-expo/src/services/syncService.ts:152-155 | the queue gains exactly the new action at the end and the pending count grows by one |
| Sync.SyncService.GetStatus | mobile-expo/src/services/syncService.ts:157-159 | returns a copy equal to the status |
| Sync.SyncService.ClearOfflineQueue | mobile-expo/src/services/syncService.ts:161-164 | the queue empties and the pending count becomes zero |
| Connectivity.Derive | mobile-expo/src/hooks/useConnectivity.ts:20-27 | offline exactly when not connected or reachability is explicitly false; a null connection counts as disconnected and unknown reachability counts as online |
| Connectivity.InitialIsEmptyReport | mobile-expo/src/hooks/useConnectivity.ts:12-17 | before any report the state is offline and disconnected with unknown reachability, which is what an all-null report derives |
| SyncSlice.PendingIds | mobile-expo/src/store/sync/syncSlice.ts:42 | the thunk's payload holds the id of every queued item, one per item |
| SyncSlice.WithoutIds | mobile-expo/src/store/sync/syncSlice.ts:85 | the queue keeps, in order, exactly the items whose id is not in the payload |
| SyncSlice.FulfilledSyncClearsWhatItRead | mobile-expo/src/store/sync/syncSlice.ts:42-85 | a fulfilled sync empties the queue it read and keeps items queued later |
| SyncSlice.RejectMessage | mobile-expo/src/store/sync/syncSlice.ts:43-45 | the rejection payload is the error's message, or the fallback text when that is empty |
| SyncSlice.SyncState.constructor | mobile-expo/src/store/sync/syncSlice.ts:50-56 | online, not syncing, no last sync, empty queue, no error |
| SyncSlice.SyncState.SetOfflineStatus | mobile-expo/src/store/sync/syncSlice.ts:63-65 | changes only isOffline |
| SyncSlice.SyncState.ClearError | mobile-expo/src/store/sync/syncSlice.ts:66-68 | changes only error |
| SyncSlice.SyncState.SetLastSyncTime | mobile-expo/src/store/sync/syncSlice.ts:69-71 | changes only lastSyncTime |
| SyncSlice.SyncState.CheckNetworkStatusFulfilled | mobile-expo/src/store/sync/syncSlice.ts:75-77 | isOffline becomes the negation of the reported connection |
| SyncSlice.SyncState.SyncPending | mobile-expo/src/store/sync/syncSlice.ts:78-81 | syncing starts and the error is cleared |
| SyncSlice.SyncState.SyncFulfilled | mobile-expo/src/store/sync/syncSlice.ts:82-87 | syncing stops, the time is recorded, the error is cleared and the items with payload ids leave the queue |
| SyncSlice.SyncState.SyncRejected | mobile-expo/src/store/sync/syncSlice.ts:88-91 | syncing stops, the payload becomes the error, and the queue is unchanged |
| AuthSlice.MessageOr | mobile-expo/src/store/auth/authSlice.ts:43-44 | a non-empty error message is kept, and an empty one is replaced by the fallback |
| AuthSlice.CredentialsResult | mobile-expo/src/store/auth/authSlice.ts:34-60 | login and register fulfil with the response when the call succeeds, and otherwise reject with the message or fallback |
| AuthSlice.RefreshTokenResult | mobile-expo/src/store/auth/authSlice.ts:62-78 | with no stored refresh token the thunk rejects without calling the API, and it fulfils only with a stored token and a successful call |
| AuthSlice.LoadUserResult | mobile-expo/src/store/auth/authSlice.ts:80-96 | fulfils with both tokens exactly when both are stored and non-empty |
| AuthSlice.AuthState.constructor | mobile-expo/src/store/auth/authSlice.ts:99-106 | signed out, no tokens, not loading, no error |
| AuthSlice.AuthState.Logout | mobile-expo/src/store/auth/authSlice.ts:113-121 | user, both tokens and error become null and isAuthenticated false |
| AuthSlice.AuthState.ClearError | mobile-expo/src/store/auth/authSlice.ts:122-124 | changes only error |
| AuthSlice.AuthState.SetTokens | mobile-expo/src/store/auth/authSlice.ts:125-129 | stores both tokens and signs in without touching the user |
| AuthSlice.AuthState.CredentialsPending | mobile-expo/src/store/auth/authSlice.ts:134-137 | loading starts and the error is cleared |
| AuthSlice.AuthState.CredentialsFulfilled | mobile-expo/src/store/auth/authSlice.ts:138-145 | user and both tokens come from the response, and the state is signed in, not loading, with no error |
| AuthSlice.AuthState.CredentialsRejected | mobile-expo/src/store/auth/authSlice.ts:146-149 | loading stops and the payload becomes the error, with tokens and sign-in unchanged |
| AuthSlice.AuthState.RefreshFulfilled | mobile-expo/src/store/auth/authSlice.ts:168-172 | both tokens come from the response and the state is signed in |
| AuthSlice.AuthState.LoadUserFulfilled | mobile-expo/src/store/auth/authSlice.ts:182-186 | both stored tokens are taken and the state is signed in |
| AuthSlice.AuthState.SessionRejected | mobile-expo/src/store/auth/authSlice.ts:173-192 | user and both tokens are cleared and the state is signed out |
| ClientNotes.RejectPayload | frontend-web/src/store/notes/notesSlice.ts:30-40 | the server's non-empty message is used, and otherwise the fallback text |
| ClientNotes.Settle | frontend-web/src/store/notes/notesSlice.ts:30-40 | a thunk fulfils with the reply's data exactly when the call resolved, and otherwise rejects with the message or fallback |
| ClientNotes.MatchesSearch | frontend-web/src/store/notes/notesSlice.ts:120-123 | a note matches a query only if its title or its content is at least as long as the query |
| ClientNotes.HasSelectedTag | frontend-web/src/store/notes/notesSlice.ts:130-131 | a note passes the tag filter exactly when one of its tags has a selected label, so never with no labels or no tags |
| ClientNotes.SearchNotes | frontend-web/src/store/notes/notesSlice.ts:118-124 | keeps, in order, exactly the notes whose lower-cased title or content contains the lower-cased query |
| ClientNotes.TagFiltered | frontend-web/src/store/notes/notesSlice.ts:125-134 | an empty tag list keeps all notes, and otherwise the notes with some selected tag, in order |
| ClientNotes.VisibilityFiltered | frontend-web/src/store/notes/notesSlice.ts:135-142 | ALL keeps all notes, and otherwise the notes with exactly that visibility, in order |
| ClientNotes.EmptySearchKeepsAll | frontend-web/src/store/notes/notesSlice.ts:118-124 | an empty query keeps every note |
| ClientNotes.SearchIgnoresQueryCase | frontend-web/src/store/notes/notesSlice.ts:118-124 | searching for a query and for its lower-cased form gives the same list |
| ClientNotes.FindIndex | frontend-web/src/store/notes/notesSlice.ts:198 | the first index with the id, or -1 exactly when none has it |
| ClientNotes.ReplaceById | frontend-web/src/store/notes/notesSlice.ts:198-200 | replacing by id keeps the length |
| ClientNotes.ReplaceByIdEffect | frontend-web/src/store/notes/notesSlice.ts:198-200 | with no match nothing changes; otherwise the first match's position holds the update and every other position is unchanged |
| ClientNotes.ReplaceByIdKeepsIds | frontend-web/src/store/notes/notesSlice.ts:198-200 | replacing by id keeps the set of ids |
| ClientNotes.RemoveById | frontend-web/src/store/notes/notesSlice.ts:217-222 | removing an id keeps, in order, exactly the notes with another id |
| ClientNotes.RemoveByIdIdempotent | frontend-web/src/store/notes/notesSlice.ts:217-222 | removing twice is removing once, and removing an absent id changes nothing |
| ClientNotes.RemoveByIdIds | frontend-web/src/store/notes/notesSlice.ts:217-222 | the ids left are the old ids minus the removed one |
| ClientNotes.PrependIds | frontend-web/src/store/notes/notesSlice.ts:181-186 | prepending a note adds exactly its id |
| WebNotes.NotesState.constructor | frontend-web/src/store/notes/notesSlice.ts:17-27 | empty lists, no public note, empty search, ALL filter, not loading, no error |
| WebNotes.NotesState.SetSearchQuery | frontend-web/src/store/notes/notesSlice.ts:118-124 | the query is stored and the shown list becomes the search result over all notes |
| WebNotes.NotesState.SetSelectedTags | frontend-web/src/store/notes/notesSlice.ts:125-134 | the tags are stored and the shown list becomes the tag filter over all notes |
| WebNotes.NotesState.SetVisibilityFilter | frontend-web/src/store/notes/notesSlice.ts:135-142 | the filter is stored and the shown list becomes the visibility filter over all notes |
| WebNotes.NotesState.ClearError | frontend-web/src/store/notes/notesSlice.ts:143-145 | changes only error |
| WebNotes.NotesState.SetCurrentSearch | frontend-web/src/store/notes/notesSlice.ts:146-148 | changes only currentSearch |
| WebNotes.NotesState.ClearSearch | frontend-web/src/store/notes/notesSlice.ts:149-154 | the four search fields return to their initial values, and both lists are untouched |
| WebNotes.NotesState.ClearPublicNote | frontend-web/src/store/notes/notesSlice.ts:155-157 | changes only publicNote |
| WebNotes.NotesState.Pending | frontend-web/src/store/notes/notesSlice.ts:162-165 | every pending case sets loading and clears the error |
| WebNotes.NotesState.Rejected | frontend-web/src/store/notes/notesSlice.ts:172-175 | every rejected case stops loading and stores the payload as error, leaving the public note |
| WebNotes.NotesState.ShareFulfilled | frontend-web/src/store/notes/notesSlice.ts:232-235 | loading stops and the error is cleared |
| WebNotes.NotesState.LoadNotesFulfilled | frontend-web/src/store/notes/notesSlice.ts:166-171 | both lists become the loaded notes |
| WebNotes.NotesState.CreateNoteFulfilled | frontend-web/src/store/notes/notesSlice.ts:181-186 | the note is prepended to both lists |
| WebNotes.NotesState.UpdateNoteFulfilled | frontend-web/src/store/notes/notesSlice.ts:196-207 | when the full list has the id, its first match is replaced, and so is the shown list's first match if any; otherwise neither list changes |
| WebNotes.NotesState.DeleteNoteFulfilled | frontend-web/src/store/notes/notesSlice.ts:217-222 | both lists lose the id and keep the rest in order |
| WebNotes.NotesState.GetPublicNoteFulfilled | frontend-web/src/store/notes/notesSlice.ts:258-262 | the public note is stored |
| MobileNotes.Utf8 | mobile-expo/src/store/notes/notesSlice.ts:79-84 | a character becomes one to four bytes; ASCII stays a single byte and other characters use only high bytes |
| MobileNotes.EncodeByte | mobile-expo/src/store/notes/notesSlice.ts:79-84 | an encoded byte is never empty and never contains '&' or '=' |
| MobileNotes.FormEncode | mobile-expo/src/store/notes/notesSlice.ts:79-84 | form encoding never produces a separator character |
| MobileNotes.FormEncodeKeepsAlphanumerics | mobile-expo/src/store/notes/notesSlice.ts:79-84 | letters and digits encode as themselves |
| MobileNotes.QueryParams | mobile-expo/src/store/notes/notesSlice.ts:79-82 | at most three parameters, named query, tag or visibility, and none exactly when no filter is set |
| MobileNotes.Pieces | mobile-expo/src/store/notes/notesSlice.ts:84 | one piece per parameter, each starting with the parameter name and "=" |
| MobileNotes.QueryString | mobile-expo/src/store/notes/notesSlice.ts:84 | the query string is empty exactly when there are no parameters |
| MobileNotes.LoadNotesUrl | mobile-expo/src/store/notes/notesSlice.ts:84 | every URL requested starts with /notes |
| MobileNotes.LoadNotesUrlShape | mobile-expo/src/store/notes/notesSlice.ts:79-84 | the URL is /notes exactly when no parameter is set; otherwise it is /notes? followed by the set parameters, which split back at '&' in the order query, tag, visibility |
| MobileNotes.PiecesAvoidAmpersand | mobile-expo/src/store/notes/notesSlice.ts:79-84 | no encoded name=value pair contains '&' |
| MobileNotes.LoadNotesResult | mobile-expo/src/store/notes/notesSlice.ts:75-91 | fulfils with the page's content, or with the list itself, exactly when the call resolved; otherwise rejects with the message or fallback |
| MobileNotes.LoadedNotes | mobile-expo/src/store/notes/notesSlice.ts:86 | a page yields its content and a plain array yields itself |
| MobileNotes.GetPublicNoteResult | mobile-expo/src/store/notes/notesSlice.ts:192-202 | fulfils with the note exactly when the call resolved; otherwise rejects with the message or fallback |
| MobileNotes.LabelsToTags | mobile-expo/src/store/notes/notesSlice.ts:110 | one temporary tag per label |
| MobileNotes.LabelsToTagsRoundTrip | mobile-expo/src/store/notes/notesSlice.ts:110 | the temporary tags carry the labels in input order with ids 0 to n-1 |
| MobileNotes.GoesOffline | mobile-expo/src/store/notes/notesSlice.ts:101 | the fallback is taken whenever the browser is not known to be online, and also on a NETWORK_ERROR; online with another error it is not |
| MobileNotes.Queues | mobile-expo/src/store/notes/notesSlice.ts:101 | a resolved call never queues, and a failed call while not known to be online always does |
| MobileNotes.OptimisticNote | mobile-expo/src/store/notes/notesSlice.ts:104-111 | the optimistic note takes its id, creation time and update time from the given clock readings, the signed-in user as owner, and tags numbered from 0 with the request's labels |
| MobileNotes.OptimisticUpdate | mobile-expo/src/store/notes/notesSlice.ts:130-134 | the optimistic update keeps the note id, has no creation time and no owner, takes the update time from the clock, and numbers the request's labels from 0 |
| MobileNotes.OptimisticNotesKeepRequest | mobile-expo/src/store/notes/notesSlice.ts:101-134 | the optimistic created and updated notes keep the request's title, content, visibility and tag labels |
| MobileNotes.CreateNote | mobile-expo/src/store/notes/notesSlice.ts:93-116 | offline, or on a NETWORK_ERROR, exactly one CREATE_NOTE action is queued and the optimistic note is returned, with its temporary id and its two times taken from separate clock readings; a listener throwing during the queueing rejects; any other error rejects and queues nothing |
| MobileNotes.UpdateNote | mobile-expo/src/store/notes/notesSlice.ts:118-139 | the same rule, queueing UPDATE_NOTE with the full request |
| MobileNotes.DeleteNote | mobile-expo/src/store/notes/notesSlice.ts:141-156 | the same rule, queueing DELETE_NOTE and fulfilling with the id |
| MobileNotes.ShareNote | mobile-expo/src/store/notes/notesSlice.ts:158-173 | the same rule, queueing SHARE_NOTE with the note id and email |
| MobileNotes.ShareNotePublic | mobile-expo/src/store/notes/notesSlice.ts:175-190 | the same rule, queueing SHARE_PUBLIC with the note id |
| MobileNotes.NotesState.constructor | mobile-expo/src/store/notes/notesSlice.ts:205-218 | empty lists, empty search, ALL filter, offline, zero pending actions, no error |
| MobileNotes.NotesState.SetSearchQuery | mobile-expo/src/store/notes/notesSlice.ts:225-231 | the query is stored and the shown list becomes the search result over all notes |
| MobileNotes.NotesState.SetSelectedTags | mobile-expo/src/store/notes/notesSlice.ts:232-241 | the tags are stored and the shown list becomes the tag filter over all notes |
| MobileNotes.NotesState.SetVisibilityFilter | mobile-expo/src/store/notes/notesSlice.ts:242-249 | the filter is stored and the shown list becomes the visibility filter over all notes |
| MobileNotes.NotesState.ClearError | mobile-expo/src/store/notes/notesSlice.ts:250-252 | changes only error |
| MobileNotes.NotesState.SetCurrentSearch | mobile-expo/src/store/notes/notesSlice.ts:253-255 | changes only currentSearch |
| MobileNotes.NotesState.ClearSearch | mobile-expo/src/store/notes/notesSlice.ts:256-261 | the four search fields return to their initial values, and both lists are untouched |
| MobileNotes.NotesState.SetOfflineStatus | mobile-expo/src/store/notes/notesSlice.ts:262-264 | changes only isOffline |
| MobileNotes.NotesState.SetPendingSyncActions | mobile-expo/src/store/notes/notesSlice.ts:265-267 | changes only pendingSyncActions |
| MobileNotes.NotesState.SetLastSync | mobile-expo/src/store/notes/notesSlice.ts:268-270 | changes only lastSync |
| MobileNotes.NotesState.Pending | mobile-expo/src/store/notes/notesSlice.ts:274-277 | every pending case sets loading and clears the error |
| MobileNotes.NotesState.Rejected | mobile-expo/src/store/notes/notesSlice.ts:284-287 | every rejected case except the public note's stops loading and stores the payload as error |
| MobileNotes.NotesState.ShareFulfilled | mobile-expo/src/store/notes/notesSlice.ts:337-340 | loading stops and the error is cleared |
| MobileNotes.NotesState.LoadNotesFulfilled | mobile-expo/src/store/notes/notesSlice.ts:278-283 | both lists become the loaded notes |
| MobileNotes.NotesState.CreateNoteFulfilled | mobile-expo/src/store/notes/notesSlice.ts:292-297 | the note is prepended to both lists |
| MobileNotes.NotesState.UpdateNoteFulfilled | mobile-expo/src/store/notes/notesSlice.ts:306-314 | the first note with the id is replaced and the shown list becomes the full list; with no match both lists stay |
| MobileNotes.NotesState.DeleteNoteFulfilled | mobile-expo/src/store/notes/notesSlice.ts:323-328 | both lists lose the id and keep the rest in order |
| MobileNotes.NotesState.GetPublicNoteFulfilled | mobile-expo/src/store/notes/notesSlice.ts:361-365 | the public note is stored |
| MobileNotes.NotesState.GetPublicNoteRejected | mobile-expo/src/store/notes/notesSlice.ts:366-370 | the public note is cleared and the payload becomes the error |
| NotesDb.Database.constructor | backend-spring/src/main/java/com/notes/backend/repository/UserRepository.java:15 | a fresh database has the given accounts and no notes, shares, links or tags |
| NotesDb.Database.InsertNote | backend-spring/src/main/java/com/notes/backend/service/NoteService.java:87 | saving a new note stores it under the next id |
| NotesDb.Database.UpdateNote | backend-spring/src/main/java/com/notes/backend/service/NoteService.java:135 | saving a note overwrites its row and nothing else |
| NotesDb.Database.InsertShare | backend-spring/src/main/java/com/notes/backend/service/ShareService.java:69-70 | saving a share stores it under the next id |
| NotesDb.Database.InsertLink | backend-spring/src/main/java/com/notes/backend/service/ShareService.java:94-95 | saving a link stores it under the next id |
| NotesDb.Database.InsertTag | backend-spring/src/main/java/com/notes/backend/service/NoteService.java:168-169 | saving a tag stores its label under the next id |
| NotesDb.Database.DeleteShare | backend-spring/src/main/java/com/notes/backend/service/ShareService.java:114 | deleting a share removes that row only |
| NotesDb.Database.DeleteLink | backend-spring/src/main/java/com/notes/backend/service/ShareService.java:136 | deleting a link removes that row only |
| NotesDb.Database.DeleteNoteCascading | backend-spring/src/main/java/com/notes/backend/model/Note.java:52-59 | deleting a note removes it together with its shares and public links |
| Sharing.Candidate | backend-spring/src/main/java/com/notes/backend/service/ShareService.java:164-168 | an attempt has one alphabet character per draw, in draw order |
| Sharing.CandidateIsToken | backend-spring/src/main/java/com/notes/backend/service/ShareService.java:39-40 | an attempt is 32 characters over the 62-character alphanumeric alphabet |
| Sharing.AfterShareAdded | backend-spring/src/main/java/com/notes/backend/service/ShareService.java:73-76 | a share makes PRIVATE into SHARED and keeps SHARED or PUBLIC |
| Sharing.AfterShareRemoved | backend-spring/src/main/java/com/notes/backend/service/ShareService.java:116-123 | with no share left the note becomes PRIVATE, even when PUBLIC, and otherwise keeps its visibility |
| Sharing.AfterLinkRemoved | backend-spring/src/main/java/com/notes/backend/service/ShareService.java:138-146 | with no link left the note becomes SHARED exactly when shares remain, and PRIVATE otherwise; with links left it keeps its visibility |
| Sharing.ShareEffect | backend-spring/src/main/java/com/notes/backend/service/ShareService.java:46-77 | a refusal changes nothing; success needs an owned note, an existing other user and no existing share, and adds one READ share and the visibility step |
| Sharing.CreatePublicLinkEffect | backend-spring/src/main/java/com/notes/backend/service/ShareService.java:82-102 | a refusal changes nothing; success adds one link with the token and no expiry, sets the note PUBLIC and keeps the shares |
| Sharing.DeleteShareEffect | backend-spring/src/main/java/com/notes/backend/service/ShareService.java:107-124 | a refusal changes nothing; success removes only that share of an owned note and keeps the links |
| Sharing.DeletePublicLinkEffect | backend-spring/src/main/java/com/notes/backend/service/ShareService.java:129-147 | a refusal changes nothing; success removes only that link of an owned note and keeps the shares |
| Sharing.PublicNote | backend-spring/src/main/java/com/notes/backend/repository/PublicLinkRepository.java:40-41 | a note is served exactly when some link with the token never expires or expires strictly after now, and it is that link's note |
| Sharing.Live | backend-spring/src/main/java/com/notes/backend/repository/PublicLinkRepository.java:40-41 | a link with no expiry is live, and one whose expiry is not after now is not |
| Sharing.ShareKeepsValid | backend-spring/src/main/java/com/notes/backend/service/ShareService.java:46-77 | sharing keeps the database consistent, including at most one share per note and user |
| Sharing.ShareRefusals | backend-spring/src/main/java/com/notes/backend/service/ShareService.java:59-66 | self-shares and duplicate shares fail with their messages and change nothing |
| Sharing.ShareOnceOnly | backend-spring/src/main/java/com/notes/backend/service/ShareService.java:64-70 | a successful share adds exactly one share, and repeating it is refused as a duplicate |
| Sharing.NotOwnedChangesNothing | backend-spring/src/main/java/com/notes/backend/service/ShareService.java:51-52 | on a note, share or link the caller does not own, every operation fails with its not-found message and changes nothing |
| Sharing.CreatePublicLinkKeepsValid | backend-spring/src/main/java/com/notes/backend/service/ShareService.java:82-102 | with an unused token, creating a link keeps the database consistent, including unique tokens |
| Sharing.CreatedLinkServesNote | backend-spring/src/main/java/com/notes/backend/service/ShareService.java:152-156 | after a link is created, its token serves the note at any time |
| Sharing.DeleteShareKeepsValid | backend-spring/src/main/java/com/notes/backend/service/ShareService.java:107-124 | deleting a share keeps the database consistent |
| Sharing.DeletePublicLinkKeepsValid | backend-spring/src/main/java/com/notes/backend/service/ShareService.java:129-147 | deleting a link keeps the database consistent |
| Sharing.LastShareDeletedHidesPublicNote | backend-spring/src/main/java/com/notes/backend/service/ShareService.java:116-123 | deleting the last share marks a note PRIVATE even though its live public link still serves it |
| Sharing.DeleteLinkLeavesPublicOnlyWithLinks | backend-spring/src/main/java/com/notes/backend/service/ShareService.java:138-146 | after a link is deleted, the note is PUBLIC only if it still has a link |
| Sharing.NextAttempt | backend-spring/src/main/java/com/notes/backend/service/ShareService.java:163-169 | after a taken token the loop moves to the next draw, and a fresh draw is still ahead |
| Sharing.ShareService.constructor | backend-spring/src/main/java/com/notes/backend/service/ShareService.java:27-37 | the service works on the given database |
| Sharing.ShareService.GenerateUniqueToken | backend-spring/src/main/java/com/notes/backend/service/ShareService.java:161-172 | returns the first draw whose token is unused; it is 32 alphanumeric characters, and every earlier draw was taken |
| Sharing.ShareService.BuildToken | backend-spring/src/main/java/com/notes/backend/service/ShareService.java:164-168 | builds the token character by character from the draws |
| Sharing.ShareService.ShareNoteWithUser | backend-spring/src/main/java/com/notes/backend/service/ShareService.java:46-77 | the result and the new database are ShareEffect of the old one |
| Sharing.ShareService.CreatePublicLink | backend-spring/src/main/java/com/notes/backend/service/ShareService.java:82-102 | returns an unused 32-character token, and the new database is CreatePublicLinkEffect with it |
| Sharing.ShareService.DeleteShare | backend-spring/src/main/java/com/notes/backend/service/ShareService.java:107-124 | the result and the new database are DeleteShareEffect of the old one |
| Sharing.ShareService.DeletePublicLink | backend-spring/src/main/java/com/notes/backend/service/ShareService.java:129-147 | the result and the new database are DeletePublicLinkEffect of the old one |
| Sharing.ShareService.GetPublicNote | backend-spring/src/main/java/com/notes/backend/service/ShareService.java:152-156 | returns PublicNote for the token at the given time |
| Notes.TagFor | backend-spring/src/main/java/com/notes/backend/service/NoteService.java:165-171 | the tag found or created has the label ignoring case; an existing match leaves the database as it was, and otherwise exactly one tag is added |
| Notes.AttachOne | backend-spring/src/main/java/com/notes/backend/service/NoteService.java:91-96 | attaching one label adds its tag to this note only and touches no other table |
| Notes.AttachTags | backend-spring/src/main/java/com/notes/backend/service/NoteService.java:91-96 | attaching labels only adds tags to this note and leaves the other notes alone |
| Notes.Matching | backend-spring/src/main/java/com/notes/backend/repository/TagRepository.java:26-27 | the tags matching the labels are existing tags |
| Notes.VisibilityOrPrivate | backend-spring/src/main/java/com/notes/backend/service/NoteService.java:84 | a requested visibility is used, and PRIVATE when none is given |
| Notes.LabelsOf | backend-spring/src/main/java/com/notes/backend/service/NoteService.java:90 | an absent tag list attaches nothing, and a present one attaches its labels |
| Notes.CreateNoteEffect | backend-spring/src/main/java/com/notes/backend/service/NoteService.java:76-102 | fails, changing nothing, exactly for an unknown user; otherwise adds one note under the next id with the owner, title, content and visibility-or-PRIVATE |
| Notes.UpdateNoteEffect | backend-spring/src/main/java/com/notes/backend/service/NoteService.java:107-137 | a refusal changes nothing; success needs the owner, overwrites title and content, and keeps the visibility and tags that are absent |
| Notes.DeleteNoteEffect | backend-spring/src/main/java/com/notes/backend/service/NoteService.java:142-151 | succeeds exactly for the owner, and removes the note with its shares and links and no tag |
| Notes.TagForKeepsValid | backend-spring/src/main/java/com/notes/backend/service/NoteService.java:165-171 | get-or-create keeps the database consistent, including labels distinct ignoring case |
| Notes.SameTagIgnoringCase | backend-spring/src/main/java/com/notes/backend/service/NoteService.java:165-171 | two lookups with labels equal ignoring case return the same tag and create at most one |
| Notes.SecondLookup | backend-spring/src/main/java/com/notes/backend/service/NoteService.java:166 | after a label's tag exists, a lookup equal ignoring case finds it and changes nothing |
| Notes.AttachOneKeepsValid | backend-spring/src/main/java/com/notes/backend/service/NoteService.java:91-96 | attaching one label keeps the database consistent |
| Notes.AttachTagsKeepsValid | backend-spring/src/main/java/com/notes/backend/service/NoteService.java:91-96 | attaching any labels keeps the database consistent |
| Notes.MatchingStep | backend-spring/src/main/java/com/notes/backend/service/NoteService.java:91-96 | attaching one more label adds exactly its tag to the matching set |
| Notes.MatchingNarrows | backend-spring/src/main/java/com/notes/backend/service/NoteService.java:91-96 | the tags matching one more label lie within the earlier matches plus that label's tag |
| Notes.MatchingWidens | backend-spring/src/main/java/com/notes/backend/service/NoteService.java:91-96 | the earlier matches and the new label's tag all match the longer label list |
| Notes.LabelsStayFound | backend-spring/src/main/java/com/notes/backend/service/NoteService.java:91-96 | labels found before one more lookup are still found after it |
| Notes.AttachTagsEffect | backend-spring/src/main/java/com/notes/backend/service/NoteService.java:91-96 | attaching labels adds exactly the tags matching them ignoring case, and every label then has a tag |
| Notes.LastLabel | backend-spring/src/main/java/com/notes/backend/service/NoteService.java:91-96 | attaching the last label adds its tag to the note and to the matching set |
| Notes.AttachTagsStep | backend-spring/src/main/java/com/notes/backend/service/NoteService.java:91-96 | attaching a list is attaching all but the last label, then the last |
| Notes.RetagFromEmpty | backend-spring/src/main/java/com/notes/backend/service/NoteService.java:124-132 | a note with its tags cleared and retagged has exactly the tags matching the labels |
| Notes.UpdateNoteTags | backend-spring/src/main/java/com/notes/backend/service/NoteService.java:122-133 | an update without tags keeps the note's tags, and one with tags leaves exactly the tags matching them |
| Notes.InsertNoteKeepsValid | backend-spring/src/main/java/com/notes/backend/service/NoteService.java:87 | inserting an untagged note under the next id keeps the database consistent |
| Notes.CreatedStore | backend-spring/src/main/java/com/notes/backend/service/NoteService.java:80-87 | the created note is the untagged row for the user and request, inserted under the next id |
| Notes.CreateThenTag | backend-spring/src/main/java/com/notes/backend/service/NoteService.java:87-99 | creating is inserting the untagged note and then attaching the labels, and with no labels the insert is the whole effect |
| Notes.CreateNoteKeepsValid | backend-spring/src/main/java/com/notes/backend/service/NoteService.java:76-102 | creating a note keeps the database consistent |
| Notes.CreateNoteTags | backend-spring/src/main/java/com/notes/backend/service/NoteService.java:90-99 | a created note has exactly the tags matching its labels ignoring case, and every label has a tag |
| Notes.InsertTaggedNote | backend-spring/src/main/java/com/notes/backend/service/NoteService.java:87-98 | an inserted note that is then tagged has exactly the matching tags |
| Notes.DeleteNoteKeepsValid | backend-spring/src/main/java/com/notes/backend/service/NoteService.java:142-151 | deleting a note leaves no share or link pointing at it |
| Notes.OwnerOnly | backend-spring/src/main/java/com/notes/backend/service/NoteService.java:111-112 | update and delete by a non-owner fail with "Note not found" and change nothing |
| Notes.SharedPage | backend-spring/src/main/java/com/notes/backend/service/NoteService.java:181-189 | a page exists exactly for a page index of zero or more, a size of one or more, and a start within the list; the page holds the notes from index page * size up to the lesser of page * size + size and the list's length, in order, and the total is the list's length; a negative page, a size below one and a start past the end fail with the messages of `PageRequest.of` and `List.subList`, the last one naming both indices |
| Notes.PageOfIndex | backend-spring/src/main/java/com/notes/backend/service/NoteService.java:185-189 | element i is at position i mod size of page i div size |
| Notes.EarlierPagesFull | backend-spring/src/main/java/com/notes/backend/service/NoteService.java:185-189 | every page before the one holding element i is full |
| Notes.FullPage | backend-spring/src/main/java/com/notes/backend/service/NoteService.java:185-189 | a page that ends within the list is full |
| Notes.SharedNotes | backend-spring/src/main/java/com/notes/backend/service/NoteService.java:177-191 | fails for an unknown user, and otherwise returns the requested page |
| Notes.NoteService.constructor | backend-spring/src/main/java/com/notes/backend/service/NoteService.java:33-40 | the service works on the given database |
| Notes.NoteService.GetOrCreateTag | backend-spring/src/main/java/com/notes/backend/service/NoteService.java:165-171 | the tag and the new database are TagFor of the old one, and the database stays consistent |
| Notes.NoteService.AttachTagsTo | backend-spring/src/main/java/com/notes/backend/service/NoteService.java:91-96 | the loop leaves the database equal to AttachTags of the old one |
| Notes.NoteService.CreateNote | backend-spring/src/main/java/com/notes/backend/service/NoteService.java:76-102 | the result and the new database are CreateNoteEffect of the old one |
| Notes.NoteService.UpdateNote | backend-spring/src/main/java/com/notes/backend/service/NoteService.java:107-137 | the result and the new database are UpdateNoteEffect of the old one |
| Notes.NoteService.DeleteNote | backend-spring/src/main/java/com/notes/backend/service/NoteService.java:142-151 | the result and the new database are DeleteNoteEffect of the old one |
| ErrorHandling.Classify | backend-spring/src/main/java/com/notes/backend/exception/GlobalExceptionHandler.java:64-80 | 404 exactly when the message contains "not found", and 500 only as INTERNAL_ERROR |
| ErrorHandling.FirstMatch | backend-spring/src/main/java/com/notes/backend/exception/GlobalExceptionHandler.java:68-80 | the first rule that fires decides, and with none the result is INTERNAL_ERROR 500 |
| ErrorHandling.Fires | backend-spring/src/main/java/com/notes/backend/exception/GlobalExceptionHandler.java:68-80 | a rule fires exactly when the message contains one of its keywords |
| ErrorHandling.ClassifyIsFirstMatch | backend-spring/src/main/java/com/notes/backend/exception/GlobalExceptionHandler.java:68-80 | the classification equals the ordered rules not found, already exists, unauthorized or forbidden, Invalid or invalid |
| ErrorHandling.HandleRuntime | backend-spring/src/main/java/com/notes/backend/exception/GlobalExceptionHandler.java:62-90 | the response repeats the message unchanged with no details, with the status of its class |
| ErrorHandling.AllFieldErrors | backend-spring/src/main/java/com/notes/backend/exception/GlobalExceptionHandler.java:29 | every binding error is a field error, which is what the cast to FieldError needs |
| ErrorHandling.FieldMap | backend-spring/src/main/java/com/notes/backend/exception/GlobalExceptionHandler.java:27-32 | every key of the error map is the field of some field error |
| ErrorHandling.LastErrorWins | backend-spring/src/main/java/com/notes/backend/exception/GlobalExceptionHandler.java:29-33 | the field map has exactly the fields with errors, each with the message of its last error |
| ErrorHandling.HandleValidation | backend-spring/src/main/java/com/notes/backend/exception/GlobalExceptionHandler.java:25-42 | 400 VALIDATION_ERROR with the field map built by the loop; a non-field error throws out of the handler |
| ErrorHandling.HandleBadCredentials | backend-spring/src/main/java/com/notes/backend/exception/GlobalExceptionHandler.java:47-57 | 401 AUTHENTICATION_ERROR "Invalid credentials" with no details |
| ErrorHandling.HandleGeneric | backend-spring/src/main/java/com/notes/backend/exception/GlobalExceptionHandler.java:95-105 | 500 INTERNAL_SERVER_ERROR "An unexpected error occurred" with no details |
| ErrorHandling.NotFoundMessages | backend-spring/src/main/java/com/notes/backend/exception/GlobalExceptionHandler.java:68-70 | any message ending in "not found" is NOT_FOUND 404, whatever it says before |
| ErrorHandling.SelfShareIsInternalError | backend-spring/src/main/java/com/notes/backend/exception/GlobalExceptionHandler.java:64-65 | "Cannot share note with yourself" falls through to INTERNAL_ERROR 500 |
| ErrorHandling.NoKeyword | backend-spring/src/main/java/com/notes/backend/exception/GlobalExceptionHandler.java:64-80 | a message lacking letters every keyword needs keeps INTERNAL_ERROR 500 |
| ErrorHandling.Handle | backend-spring/src/main/java/com/notes/backend/exception/GlobalExceptionHandler.java:25-105 | each kind of failure goes to its own handler; a validation failure with only field errors gives 400 VALIDATION_ERROR "Validation failed" with the field map, and one with another error gives no reply |
| MarkdownEditor.Clamp | mobile-expo/src/components/MarkdownEditor.tsx:36 | an index is clamped into 0..length as substring does |
| MarkdownEditor.Substring | mobile-expo/src/components/MarkdownEditor.tsx:36 | within bounds it is the slice from start to end |
| MarkdownEditor.SubstringSymmetric | mobile-expo/src/components/MarkdownEditor.tsx:36 | swapped bounds give the same text, and an end past the text reads to its end |
| MarkdownEditor.Inserted | mobile-expo/src/components/MarkdownEditor.tsx:36-37 | a non-empty selection is kept and an empty one becomes the placeholder |
| MarkdownEditor.InsertText | mobile-expo/src/components/MarkdownEditor.tsx:33-54 | the new text keeps what lies before start and after end, and its length changes by the markers and the inserted text |
| MarkdownEditor.SpliceShape | mobile-expo/src/components/MarkdownEditor.tsx:39-42 | the new text is the text before start, the opening marker, the inserted text, the closing marker and the text after end |
| MarkdownEditor.CursorAfterClosingMarker | mobile-expo/src/components/MarkdownEditor.tsx:47 | the cursor lands just past the closing marker and within the new text |
| MarkdownEditor.UnwrapRestores | mobile-expo/src/components/MarkdownEditor.tsx:39-42 | removing the two markers from a wrapped selection gives back the original text |
| MarkdownEditor.EmptySelectionInsertsPlaceholder | mobile-expo/src/components/MarkdownEditor.tsx:36-42 | with no selection, the markers and the placeholder are inserted at the cursor |
| MarkdownEditor.MarkersOf | mobile-expo/src/components/MarkdownEditor.tsx:57-106 | bold, italic and code wrap symmetrically, link wraps with "[" and "](url)", and heading, list and quote only prefix |
| MarkdownEditor.Press | mobile-expo/src/components/MarkdownEditor.tsx:57-106 | pressing a button inserts that button's markers and placeholder |
| MarkdownEditor.PrefixButtonLeavesCursorAfterSelection | mobile-expo/src/components/MarkdownEditor.tsx:79-106 | a prefix button puts its marker before the selection and the cursor after it |
| MarkdownEditor.SymmetricButtonSurroundsSelection | mobile-expo/src/components/MarkdownEditor.tsx:61-76 | bold, italic and code put the same marker on both sides of the selection |
| Text.Lower | frontend-web/src/store/notes/notesSlice.ts:120-122 | lower-casing keeps the length and maps each character on its own |
| Text.EqualsIgnoreCase | backend-spring/src/main/java/com/notes/backend/repository/TagRepository.java:26-27 | equal labels match, matching labels have the same length, and matching is symmetric |
| Text.Contains | frontend-web/src/store/notes/notesSlice.ts:121-122 | a text contains only pieces no longer than itself |
| Text.LowerIsIdempotent | frontend-web/src/store/notes/notesSlice.ts:120-122 | a lower-cased string has no capital letters, and lower-casing it again changes nothing |
| Text.NatToStringRoundTrip | mobile-expo/src/services/offlineQueue.ts:33 | the decimal text of a clock reading reads back to it |
| Text.NatToStringInjective | mobile-expo/src/services/offlineQueue.ts:33 | distinct clock readings have distinct decimal texts |
| Text.SplitJoin | mobile-expo/src/store/notes/notesSlice.ts:79-84 | joining pieces without the separator and splitting again gives the pieces back |
| Text.NotContainsMissingChar | backend-spring/src/main/java/com/notes/backend/exception/GlobalExceptionHandler.java:68-80 | a text lacking a character of a keyword does not contain the keyword |
| Text.ContainsPiece | backend-spring/src/main/java/com/notes/backend/exception/GlobalExceptionHandler.java:68-70 | a text contains each of its own middle pieces |

## Left out

- Persistence I/O is modelled as an abstract stored copy of the offline queue, with three states: absent, unparsable or stored. This covers AsyncStorage reads and JSON encoding. Console logging is dropped.
- Offline.OfflineQueue.AddAction, RemoveAction, ClearQueue and ProcessQueue: every save succeeds in the model. `saveQueue` swallows a failed `setItem`, which leaves a stale stored copy; that case is not captured.
- The auth thunks' SecureStore writes and deletes are not modelled. The tokens `loadUser` reads are parameters of `AuthSlice.LoadUserResult`.
- Async interleavings are not modelled. Every operation runs to completion, and `isProcessing`/`isSyncing` are plain flags checked on entry. So the loss of actions appended during a pass, through the overwrite at offlineQueue.ts:105, cannot arise in the model.
- `setTimeout`, `setSelection` and `onChangeText` in the editor are UI effects and are left out.
- The clock, `Math.random`, `SecureRandom`, `navigator.onLine`, the platform's network reports and every API reply are parameters of the operations they affect.
- Offline.OfflineQueue.ProcessQueue: the source bumps `retryCount` in place on the shared action object. The model makes a bumped copy, so aliasing between the snapshot and the saved list is not captured.
- Sync.SyncService.NotifyListeners: a listener is modelled by the statuses on which it throws and by what it throws. A listener whose behaviour depends on its own history is not captured, and neither is anything else it does with the status. Listeners receive a copy of the status, whereas the source hands them the live object that later steps mutate.
- MarkdownEditor.InsertText: positions count Unicode scalar values, whereas the editor's selection, `.length` and `substring` count UTF-16 code units. For text with characters outside the Basic Multilingual Plane, such as emoji, the splice points and the cursor differ.
- Text.Lower: lower-cases ASCII letters only, where JavaScript and Java lower-case all of Unicode. Search and tag matching are stated over this function.
- Sharing.ShareService.GenerateUniqueToken: the random draws are a finite sequence, and the caller must supply one that yields an unused token. Termination of the unbounded retry loop is not modelled.
- Sharing.ShareService.CreatePublicLink: inherits the same requirement that some supplied draw is unused.
- Notes.SharedPage: `page * size` is unbounded here. Java's 32-bit `int` overflow on very large pages is not modelled.
- Notes.NoteService: a note's tags are a set of tag ids. The `NoteTag.equals` at NoteTag.java:79-80 compares only the notes when one is set, because of operator precedence. The tag sets of its hash-based collection can then behave differently from plain set semantics, and that is not modelled.
- NoteService.getUserNotes, getNoteById and the repositories' JPQL queries are left out. They run in the database, and the shared-note list reaches `getSharedNotes` as a parameter.
- NoteService.getPublicNote is left out. It only throws "Use ShareService.getPublicNote instead".
- The `SyncQueueItem.data` field of the sync slice is not modelled, because no reducer reads it. The `syncToServer` thunk's `setTimeout` is not modelled either.
- The `timestamp` field of error responses is not modelled.
- DTO mapping, the HTTP client plumbing, JWT, BCrypt, security configuration and all UI components are left out.
- MarkdownEditor lemmas: `SpliceShape`, `CursorAfterClosingMarker`, `UnwrapRestores` and the button lemmas assume a valid selection (0 <= start <= end <= length). `InsertText` itself accepts any selection, as `substring` does.
- ErrorHandling.NotFoundMessages: stated for any message ending in "not found". That covers every not-found message the services throw, rather than listing each literal.
- Offline.NeverAbandoned: the queue never abandons an action after `maxRetries` attempts. Both branches at offlineQueue.ts:84-100 keep the action, so `maxRetries` is stored but has no effect, and the model follows that code.
