/** The mobile notes slice (mobile-expo/src/store/notes/notesSlice.ts): the `loadNotes`
    URL, the thunks that fall back to the offline queue when the network is missing, and
    the reducers over the notes state. */
module MobileNotes {
  import opened Wrappers
  import opened Text
  import opened Seqs
  import opened ClientNotes
  import Offline
  import Sync

  // ---------------------------------------------------------------------------------
  // The loadNotes URL: `URLSearchParams` serialisation (the
  // application/x-www-form-urlencoded serializer of the WHATWG URL Standard).

  /** A parameter is appended only when given and non-empty. */
  predicate Truthy(s: Option<string>)
  {
    s.Some? && s.value != ""
  }

  /** The UTF-8 bytes of a character. */
  function Utf8(c: char): (bytes: seq<nat>)
    ensures 1 <= |bytes| <= 4
    ensures forall i :: 0 <= i < |bytes| ==> bytes[i] < 256
    ensures c as int < 0x80 ==> bytes == [c as int]
    ensures c as int >= 0x80 ==> forall i :: 0 <= i < |bytes| ==> bytes[i] >= 0x80
  {
    var n := c as int;
    if n < 0x80 then [n]
    else if n < 0x800 then [0xC0 + n / 64, 0x80 + n % 64]
    else if n < 0x10000 then [0xE0 + n / 4096, 0x80 + (n / 64) % 64, 0x80 + n % 64]
    else [0xF0 + n / 262144, 0x80 + (n / 4096) % 64, 0x80 + (n / 64) % 64, 0x80 + n % 64]
  }

  function HexDigit(d: nat): (c: char)
    requires d < 16
    ensures '0' <= c <= '9' || 'A' <= c <= 'F'
  {
    if d < 10 then ('0' as int + d) as char else ('A' as int + d - 10) as char
  }

  /** The bytes the serializer leaves as they are: `*`, `-`, `.`, `_`, digits and ASCII
      letters. */
  predicate Unescaped(b: nat)
  {
    b == 0x2A || b == 0x2D || b == 0x2E || b == 0x5F ||
    0x30 <= b <= 0x39 || 0x41 <= b <= 0x5A || 0x61 <= b <= 0x7A
  }

  /** A character that separates parameters or names from values. */
  predicate Separator(c: char)
  {
    c == '&' || c == '='
  }

  /** One byte serialised: kept, a space as `+`, anything else as `%XX`. */
  function EncodeByte(b: nat): (s: string)
    requires b < 256
    ensures |s| >= 1 && forall c :: c in s ==> !Separator(c)
  {
    if Unescaped(b) then [b as char]
    else if b == 0x20 then "+"
    else ['%', HexDigit(b / 16), HexDigit(b % 16)]
  }

  function EncodeBytes(bytes: seq<nat>): (s: string)
    requires forall i :: 0 <= i < |bytes| ==> bytes[i] < 256
    ensures forall c :: c in s ==> !Separator(c)
  {
    if bytes == [] then "" else EncodeByte(bytes[0]) + EncodeBytes(bytes[1..])
  }

  /** A name or value as the serializer writes it. */
  function FormEncode(s: string): (r: string)
    ensures forall c :: c in r ==> !Separator(c)
  {
    if s == [] then "" else EncodeBytes(Utf8(s[0])) + FormEncode(s[1..])
  }

  /** Letters and digits pass through unchanged. */
  lemma {:induction false} FormEncodeKeepsAlphanumerics(s: string)
    requires forall i :: 0 <= i < |s| ==> 'a' <= s[i] <= 'z' || 'A' <= s[i] <= 'Z' || '0' <= s[i] <= '9'
    ensures FormEncode(s) == s
    decreases |s|
  {
    if s != [] {
      assert EncodeBytes(Utf8(s[0])) == [s[0]];
      FormEncodeKeepsAlphanumerics(s[1..]);
      assert s == [s[0]] + s[1..];
    }
  }

  /** The parameters `loadNotes` appends: query, tag and visibility, in that order, each
      only when present and non-empty. */
  function QueryParams(p: SearchParams): (ps: seq<(string, string)>)
    ensures |ps| <= 3
    ensures ps == [] <==> !Truthy(p.query) && !Truthy(p.tag) && !Truthy(p.visibility)
    ensures forall i :: 0 <= i < |ps| ==> ps[i].0 == "query" || ps[i].0 == "tag" || ps[i].0 == "visibility"
  {
    (if Truthy(p.query) then [("query", p.query.value)] else []) +
    (if Truthy(p.tag) then [("tag", p.tag.value)] else []) +
    (if Truthy(p.visibility) then [("visibility", p.visibility.value)] else [])
  }

  /** The `name=value` pieces of the serialised parameters. */
  function Pieces(ps: seq<(string, string)>): (r: seq<string>)
    ensures |r| == |ps|
    ensures forall i :: 0 <= i < |ps| ==> |r[i]| > |ps[i].0| && r[i][..|ps[i].0| + 1] == ps[i].0 + "="
  {
    seq(|ps|, i requires 0 <= i < |ps| => ps[i].0 + "=" + FormEncode(ps[i].1))
  }

  /** `searchParams.toString()`. */
  function QueryString(ps: seq<(string, string)>): (qs: string)
    ensures qs == "" <==> ps == []
  {
    if ps == [] then "" else Join(Pieces(ps), '&')
  }

  /** The URL `loadNotes` requests. */
  function LoadNotesUrl(p: SearchParams): (url: string)
    ensures |url| >= 6 && url[..6] == "/notes"
  {
    var qs := QueryString(QueryParams(p));
    "/notes" + (if qs != "" then "?" + qs else "")
  }

  /** Without parameters the URL is the bare `/notes`; with any, it is `/notes?` followed
      by the parameters, which split back on `&` into exactly one `name=value` piece per
      present parameter, in order. */
  lemma LoadNotesUrlShape(p: SearchParams)
    ensures LoadNotesUrl(p) == "/notes" <==> !Truthy(p.query) && !Truthy(p.tag) && !Truthy(p.visibility)
    ensures QueryParams(p) != [] ==>
      |LoadNotesUrl(p)| > 7 && LoadNotesUrl(p)[..7] == "/notes?" &&
      Split(LoadNotesUrl(p)[7..], '&') == Pieces(QueryParams(p))
  {
    var ps := QueryParams(p);
    if ps != [] {
      PiecesAvoidAmpersand(p);
      SplitJoin(Pieces(ps), '&');
      var qs := QueryString(ps);
      assert LoadNotesUrl(p) == "/notes" + "?" + qs;
      assert LoadNotesUrl(p)[7..] == qs;
    }
  }

  /** No serialised parameter contains the `&` that separates them. */
  lemma PiecesAvoidAmpersand(p: SearchParams)
    ensures var pieces := Pieces(QueryParams(p));
            forall i :: 0 <= i < |pieces| ==> '&' !in pieces[i]
  {
    var ps := QueryParams(p);
    var pieces := Pieces(ps);
    forall i | 0 <= i < |pieces|
      ensures '&' !in pieces[i]
    {
      var v := FormEncode(ps[i].1);
      assert pieces[i] == ps[i].0 + "=" + v;
      assert '&' !in ps[i].0 by {
        assert ps[i].0 == "query" || ps[i].0 == "tag" || ps[i].0 == "visibility";
      }
      assert '&' !in v;
    }
  }

  /** The body of a notes listing: a page with `content`, or a plain array. */
  datatype NotesPage = Page(content: seq<Note>) | Listing(notes: seq<Note>)

  /** `response.data.content || response.data`. */
  function LoadedNotes(data: NotesPage): (notes: seq<Note>)
    ensures data.Page? ==> notes == data.content
    ensures data.Listing? ==> notes == data.notes
  {
    match data
    case Page(content) => content
    case Listing(notes) => notes
  }

  /** `loadNotes` settles with the listed notes or the server's message. */
  function LoadNotesResult(reply: ApiReply<NotesPage>): (r: ThunkResult<seq<Note>>)
    ensures r.Fulfilled? <==> reply.Replied?
    ensures reply.Replied? && reply.data.Page? ==> r.value == reply.data.content
    ensures reply.Replied? && reply.data.Listing? ==> r.value == reply.data.notes
    ensures reply.Errored? ==> r == Rejected(Some(RejectPayload(reply.serverMessage, "Failed to load notes")))
  {
    match reply
    case Replied(data) => Fulfilled(LoadedNotes(data))
    case Errored(_, message) => Rejected(Some(RejectPayload(message, "Failed to load notes")))
  }

  /** `getPublicNote` passes the reply through. */
  function GetPublicNoteResult(reply: ApiReply<PublicNote>): (r: ThunkResult<PublicNote>)
    ensures r.Fulfilled? <==> reply.Replied?
    ensures r.Fulfilled? ==> r.value == reply.data
    ensures r.Rejected? ==> r.payload == Some(RejectPayload(reply.serverMessage, "Failed to load public note"))
  {
    Settle(reply, "Failed to load public note")
  }

  // ---------------------------------------------------------------------------------
  // The offline fallback of the mutating thunks.

  /** The fallback applies when the browser flag says offline (an undefined flag counts
      as offline) or the request failed with the code 'NETWORK_ERROR'. */
  predicate GoesOffline(onLine: Option<bool>, code: Option<string>)
    ensures onLine != Some(true) ==> GoesOffline(onLine, code)
    ensures code == Some("NETWORK_ERROR") ==> GoesOffline(onLine, code)
    ensures onLine == Some(true) && code != Some("NETWORK_ERROR") ==> !GoesOffline(onLine, code)
  {
    onLine != Some(true) || code == Some("NETWORK_ERROR")
  }

  /** The thunk's request failed in a way that takes the offline fallback. */
  predicate Queues<T>(reply: ApiReply<T>, onLine: Option<bool>)
    ensures reply.Replied? ==> !Queues(reply, onLine)
    ensures reply.Errored? && onLine != Some(true) ==> Queues(reply, onLine)
  {
    reply.Errored? && GoesOffline(onLine, reply.code)
  }

  /** `tags.map((label, index) => ({ id: index, label }))`. */
  function LabelsToTags(labels: seq<string>): (tags: seq<Tag>)
    ensures |tags| == |labels|
  {
    seq(|labels|, i requires 0 <= i < |labels| => Tag(i, labels[i]))
  }

  function TagLabels(tags: seq<Tag>): (labels: seq<string>)
    ensures |labels| == |tags|
  {
    seq(|tags|, i requires 0 <= i < |tags| => tags[i].name)
  }

  /** The temporary tags carry the labels in input order, numbered from 0. */
  lemma LabelsToTagsRoundTrip(labels: seq<string>)
    ensures TagLabels(LabelsToTags(labels)) == labels
    ensures forall i :: 0 <= i < |labels| ==> LabelsToTags(labels)[i].id == i
  {
  }

  /** The note `createNote` shows while offline: a clock reading as a temporary id, the
      request's fields, two further clock readings as creation and update times, the
      current user as owner and the numbered tags. */
  function OptimisticNote(request: NoteRequest, tempId: int, createdIso: string, updatedIso: string, user: Option<User>): (n: Note)
    ensures n.id == tempId && n.createdAt == Some(createdIso) && n.updatedAt == updatedIso && n.owner == user
    ensures |n.tags| == |request.tags| && forall i :: 0 <= i < |n.tags| ==> n.tags[i] == Tag(i, request.tags[i])
  {
    Note(tempId, request.title, request.contentMd, request.visibility, Some(createdIso), updatedIso, user, LabelsToTags(request.tags))
  }

  /** The note `updateNote` shows while offline: the request with a new update time and
      numbered tags; it has no creation time and no owner. */
  function OptimisticUpdate(id: int, request: NoteRequest, updatedIso: string): (n: Note)
    ensures n.id == id && n.createdAt.None? && n.updatedAt == updatedIso && n.owner.None?
    ensures |n.tags| == |request.tags| && forall i :: 0 <= i < |n.tags| ==> n.tags[i] == Tag(i, request.tags[i])
  {
    Note(id, request.title, request.contentMd, request.visibility, None, updatedIso, None, LabelsToTags(request.tags))
  }

  /** The optimistic notes keep what the request says. */
  lemma OptimisticNotesKeepRequest(id: int, request: NoteRequest, tempId: int, createdIso: string, updatedIso: string,
                                   user: Option<User>)
    ensures var n := OptimisticNote(request, tempId, createdIso, updatedIso, user);
      n.id == tempId && n.title == request.title && n.contentMd == request.contentMd &&
      n.visibility == request.visibility && TagLabels(n.tags) == request.tags
    ensures var n := OptimisticUpdate(id, request, updatedIso);
      n.id == id && n.title == request.title && n.contentMd == request.contentMd &&
      n.visibility == request.visibility && TagLabels(n.tags) == request.tags
  {
    LabelsToTagsRoundTrip(request.tags);
  }

  /** What the share thunks fulfil with: the server's reply, or the message saying the
      share will happen once online. */
  datatype ShareReply = FromServer | WillSync(message: string)

  /** `createNote`. `reply` is the API's answer, `onLine` the browser flag, `suffix` the
      random part of the queued action's id and `user` the signed-in user. Each read of
      the clock is its own parameter: `now` and `stamp` for the queued action's id and
      timestamp, `tempId` for the optimistic note's id, and `createdIso` and `updatedIso`
      for its two times. */
  method CreateNote(sync: Sync.SyncService, request: NoteRequest, reply: ApiReply<Note>, onLine: Option<bool>,
                    now: int, stamp: int, tempId: int, createdIso: string, updatedIso: string, suffix: string,
                    user: Option<User>) returns (r: ThunkResult<Note>)
    requires sync.Valid()
    modifies sync, sync.offlineQueue
    ensures sync.Valid()
    ensures !Queues(reply, onLine) ==> unchanged(sync) && unchanged(sync.offlineQueue)
    ensures reply.Replied? ==> r == Fulfilled(reply.data)
    ensures reply.Errored? && !Queues(reply, onLine) ==>
      r == Rejected(Some(RejectPayload(reply.serverMessage, "Failed to create note")))
    ensures Queues(reply, onLine) ==>
      sync.offlineQueue.queue == old(sync.offlineQueue.queue) + [Offline.NewAction(Offline.CreateNote(request), now, stamp, suffix)] &&
      r == (if Sync.AnyRaises(sync.listeners, sync.syncStatus) then Rejected(None) else Fulfilled(OptimisticNote(request, tempId, createdIso, updatedIso, user)))
  {
    match reply
    case Replied(note) =>
      r := Fulfilled(note);
    case Errored(code, message) =>
      if GoesOffline(onLine, code) {
        var thrown := sync.AddOfflineAction(Offline.CreateNote(request), now, stamp, suffix);
        if thrown.Some? {
          r := Rejected(None);
        } else {
          r := Fulfilled(OptimisticNote(request, tempId, createdIso, updatedIso, user));
        }
      } else {
        r := Rejected(Some(RejectPayload(message, "Failed to create note")));
      }
  }

  /** `updateNote`; the queued action carries the whole request, and `updatedIso` is the
      clock reading for the optimistic note's update time. */
  method UpdateNote(sync: Sync.SyncService, id: int, request: NoteRequest, reply: ApiReply<Note>, onLine: Option<bool>,
                    now: int, stamp: int, updatedIso: string, suffix: string) returns (r: ThunkResult<Note>)
    requires sync.Valid()
    modifies sync, sync.offlineQueue
    ensures sync.Valid()
    ensures !Queues(reply, onLine) ==> unchanged(sync) && unchanged(sync.offlineQueue)
    ensures reply.Replied? ==> r == Fulfilled(reply.data)
    ensures reply.Errored? && !Queues(reply, onLine) ==>
      r == Rejected(Some(RejectPayload(reply.serverMessage, "Failed to update note")))
    ensures Queues(reply, onLine) ==>
      sync.offlineQueue.queue == old(sync.offlineQueue.queue) + [Offline.NewAction(Offline.UpdateNote(id, request), now, stamp, suffix)] &&
      r == (if Sync.AnyRaises(sync.listeners, sync.syncStatus) then Rejected(None) else Fulfilled(OptimisticUpdate(id, request, updatedIso)))
  {
    match reply
    case Replied(note) =>
      r := Fulfilled(note);
    case Errored(code, message) =>
      if GoesOffline(onLine, code) {
        var thrown := sync.AddOfflineAction(Offline.UpdateNote(id, request), now, stamp, suffix);
        if thrown.Some? {
          r := Rejected(None);
        } else {
          r := Fulfilled(OptimisticUpdate(id, request, updatedIso));
        }
      } else {
        r := Rejected(Some(RejectPayload(message, "Failed to update note")));
      }
  }

  /** `deleteNote`; it fulfils with the note id, online or queued. */
  method DeleteNote(sync: Sync.SyncService, noteId: int, reply: ApiReply<()>, onLine: Option<bool>,
                    now: int, stamp: int, suffix: string) returns (r: ThunkResult<int>)
    requires sync.Valid()
    modifies sync, sync.offlineQueue
    ensures sync.Valid()
    ensures !Queues(reply, onLine) ==> unchanged(sync) && unchanged(sync.offlineQueue)
    ensures reply.Replied? ==> r == Fulfilled(noteId)
    ensures reply.Errored? && !Queues(reply, onLine) ==>
      r == Rejected(Some(RejectPayload(reply.serverMessage, "Failed to delete note")))
    ensures Queues(reply, onLine) ==>
      sync.offlineQueue.queue == old(sync.offlineQueue.queue) + [Offline.NewAction(Offline.DeleteNote(noteId), now, stamp, suffix)] &&
      r == (if Sync.AnyRaises(sync.listeners, sync.syncStatus) then Rejected(None) else Fulfilled(noteId))
  {
    match reply
    case Replied(_) =>
      r := Fulfilled(noteId);
    case Errored(code, message) =>
      if GoesOffline(onLine, code) {
        var thrown := sync.AddOfflineAction(Offline.DeleteNote(noteId), now, stamp, suffix);
        if thrown.Some? {
          r := Rejected(None);
        } else {
          r := Fulfilled(noteId);
        }
      } else {
        r := Rejected(Some(RejectPayload(message, "Failed to delete note")));
      }
  }

  /** `shareNote` with a user, by e-mail. */
  method ShareNote(sync: Sync.SyncService, noteId: int, email: string, reply: ApiReply<()>, onLine: Option<bool>,
                   now: int, stamp: int, suffix: string) returns (r: ThunkResult<ShareReply>)
    requires sync.Valid()
    modifies sync, sync.offlineQueue
    ensures sync.Valid()
    ensures !Queues(reply, onLine) ==> unchanged(sync) && unchanged(sync.offlineQueue)
    ensures reply.Replied? ==> r == Fulfilled(FromServer)
    ensures reply.Errored? && !Queues(reply, onLine) ==>
      r == Rejected(Some(RejectPayload(reply.serverMessage, "Failed to share note")))
    ensures Queues(reply, onLine) ==>
      sync.offlineQueue.queue == old(sync.offlineQueue.queue) + [Offline.NewAction(Offline.ShareNote(noteId, email), now, stamp, suffix)] &&
      r == (if Sync.AnyRaises(sync.listeners, sync.syncStatus) then Rejected(None) else Fulfilled(WillSync("Note will be shared when online")))
  {
    match reply
    case Replied(_) =>
      r := Fulfilled(FromServer);
    case Errored(code, message) =>
      if GoesOffline(onLine, code) {
        var thrown := sync.AddOfflineAction(Offline.ShareNote(noteId, email), now, stamp, suffix);
        if thrown.Some? {
          r := Rejected(None);
        } else {
          r := Fulfilled(WillSync("Note will be shared when online"));
        }
      } else {
        r := Rejected(Some(RejectPayload(message, "Failed to share note")));
      }
  }

  /** `shareNotePublic`. */
  method ShareNotePublic(sync: Sync.SyncService, noteId: int, reply: ApiReply<()>, onLine: Option<bool>,
                         now: int, stamp: int, suffix: string) returns (r: ThunkResult<ShareReply>)
    requires sync.Valid()
    modifies sync, sync.offlineQueue
    ensures sync.Valid()
    ensures !Queues(reply, onLine) ==> unchanged(sync) && unchanged(sync.offlineQueue)
    ensures reply.Replied? ==> r == Fulfilled(FromServer)
    ensures reply.Errored? && !Queues(reply, onLine) ==>
      r == Rejected(Some(RejectPayload(reply.serverMessage, "Failed to create public link")))
    ensures Queues(reply, onLine) ==>
      sync.offlineQueue.queue == old(sync.offlineQueue.queue) + [Offline.NewAction(Offline.SharePublic(noteId), now, stamp, suffix)] &&
      r == (if Sync.AnyRaises(sync.listeners, sync.syncStatus) then Rejected(None) else Fulfilled(WillSync("Public link will be created when online")))
  {
    match reply
    case Replied(_) =>
      r := Fulfilled(FromServer);
    case Errored(code, message) =>
      if GoesOffline(onLine, code) {
        var thrown := sync.AddOfflineAction(Offline.SharePublic(noteId), now, stamp, suffix);
        if thrown.Some? {
          r := Rejected(None);
        } else {
          r := Fulfilled(WillSync("Public link will be created when online"));
        }
      } else {
        r := Rejected(Some(RejectPayload(message, "Failed to create public link")));
      }
  }

  // ---------------------------------------------------------------------------------
  // The state and its reducers.

  datatype NotesView = NotesView(
    notes: seq<Note>,
    filteredNotes: seq<Note>,
    publicNote: Option<PublicNote>,
    searchQuery: string,
    selectedTags: seq<string>,
    visibilityFilter: VisibilityFilter,
    currentSearch: SearchParams,
    isLoading: bool,
    error: Option<string>,
    isOffline: bool,
    pendingSyncActions: int,
    lastSync: Option<int>)

  class NotesState {
    var notes: seq<Note>
    var filteredNotes: seq<Note>
    var publicNote: Option<PublicNote>
    var searchQuery: string
    var selectedTags: seq<string>
    var visibilityFilter: VisibilityFilter
    var currentSearch: SearchParams
    var isLoading: bool
    var error: Option<string>
    var isOffline: bool
    var pendingSyncActions: int
    /** The time of the last sync, in milliseconds. */
    var lastSync: Option<int>

    ghost function View(): NotesView
      reads this
    {
      NotesView(notes, filteredNotes, publicNote, searchQuery, selectedTags, visibilityFilter,
                currentSearch, isLoading, error, isOffline, pendingSyncActions, lastSync)
    }

    /** The shown list is always the full list with some notes left out, in the same order. */
    predicate Valid()
      reads this
    {
      IsSubseq(filteredNotes, notes)
    }

    constructor ()
      ensures Valid()
      ensures View() == NotesView([], [], None, "", [], ALL, NoSearch, false, None, true, 0, None)
    {
      notes := [];
      filteredNotes := [];
      publicNote := None;
      searchQuery := "";
      selectedTags := [];
      visibilityFilter := ALL;
      currentSearch := NoSearch;
      isLoading := false;
      error := None;
      isOffline := true;
      pendingSyncActions := 0;
      lastSync := None;
    }

    method SetSearchQuery(query: string)
      requires Valid()
      modifies this
      ensures Valid()
      ensures View() == old(View()).(searchQuery := query, filteredNotes := SearchNotes(notes, query))
    {
      searchQuery := query;
      filteredNotes := SearchNotes(notes, query);
    }

    method SetSelectedTags(labels: seq<string>)
      requires Valid()
      modifies this
      ensures Valid()
      ensures View() == old(View()).(selectedTags := labels, filteredNotes := TagFiltered(notes, labels))
    {
      selectedTags := labels;
      if |labels| == 0 {
        SubseqReflexive(notes);
        filteredNotes := notes;
      } else {
        filteredNotes := TagFiltered(notes, labels);
      }
    }

    method SetVisibilityFilter(f: VisibilityFilter)
      requires Valid()
      modifies this
      ensures Valid()
      ensures View() == old(View()).(visibilityFilter := f, filteredNotes := VisibilityFiltered(notes, f))
    {
      visibilityFilter := f;
      if f == ALL {
        SubseqReflexive(notes);
        filteredNotes := notes;
      } else {
        filteredNotes := VisibilityFiltered(notes, f);
      }
    }

    method ClearError()
      modifies this
      ensures View() == old(View()).(error := None)
    {
      error := None;
    }

    method SetCurrentSearch(search: SearchParams)
      modifies this
      ensures View() == old(View()).(currentSearch := search)
    {
      currentSearch := search;
    }

    /** Resets the search fields; both lists stay as they are. */
    method ClearSearch()
      modifies this
      ensures View() == old(View()).(currentSearch := NoSearch, searchQuery := "", selectedTags := [], visibilityFilter := ALL)
    {
      currentSearch := NoSearch;
      searchQuery := "";
      selectedTags := [];
      visibilityFilter := ALL;
    }

    method SetOfflineStatus(offline: bool)
      modifies this
      ensures View() == old(View()).(isOffline := offline)
    {
      isOffline := offline;
    }

    method SetPendingSyncActions(count: int)
      modifies this
      ensures View() == old(View()).(pendingSyncActions := count)
    {
      pendingSyncActions := count;
    }

    method SetLastSync(time: Option<int>)
      modifies this
      ensures View() == old(View()).(lastSync := time)
    {
      lastSync := time;
    }

    /** Every `pending` case. */
    method Pending()
      modifies this
      ensures View() == old(View()).(isLoading := true, error := None)
    {
      isLoading := true;
      error := None;
    }

    /** Every `rejected` case except `getPublicNote`'s. */
    method Rejected(payload: Option<string>)
      modifies this
      ensures View() == old(View()).(isLoading := false, error := payload)
    {
      isLoading := false;
      error := payload;
    }

    /** `shareNote.fulfilled` and `shareNotePublic.fulfilled`. */
    method ShareFulfilled()
      modifies this
      ensures View() == old(View()).(isLoading := false, error := None)
    {
      isLoading := false;
      error := None;
    }

    method LoadNotesFulfilled(loaded: seq<Note>)
      modifies this
      ensures Valid()
      ensures View() == old(View()).(isLoading := false, notes := loaded, filteredNotes := loaded, error := None)
    {
      isLoading := false;
      notes := loaded;
      filteredNotes := loaded;
      SubseqReflexive(loaded);
      error := None;
    }

    /** The new note goes first in both lists. */
    method CreateNoteFulfilled(note: Note)
      requires Valid()
      modifies this
      ensures Valid()
      ensures View() == old(View()).(isLoading := false, notes := [note] + old(notes),
                                     filteredNotes := [note] + old(filteredNotes), error := None)
    {
      isLoading := false;
      SubseqCons(filteredNotes, notes, note);
      notes := [note] + notes;
      filteredNotes := [note] + filteredNotes;
      error := None;
    }

    /** The first note with the payload's id is replaced, and then the shown list becomes
        the full list, dropping any active filter; with no such note both lists stay. */
    method UpdateNoteFulfilled(note: Note)
      requires Valid()
      modifies this
      ensures Valid()
      ensures FindIndex(old(notes), note.id) == -1 ==>
        View() == old(View()).(isLoading := false, error := None)
      ensures FindIndex(old(notes), note.id) != -1 ==>
        View() == old(View()).(isLoading := false, error := None,
                               notes := ReplaceById(old(notes), note), filteredNotes := ReplaceById(old(notes), note))
    {
      isLoading := false;
      var index := FindIndex(notes, note.id);
      if index != -1 {
        notes := notes[index := note];
        filteredNotes := notes;
        SubseqReflexive(notes);
      }
      error := None;
    }

    /** Both lists lose every note with the id and keep the rest in order. */
    method DeleteNoteFulfilled(id: int)
      requires Valid()
      modifies this
      ensures Valid()
      ensures View() == old(View()).(isLoading := false, notes := RemoveById(old(notes), id),
                                     filteredNotes := RemoveById(old(filteredNotes), id), error := None)
    {
      isLoading := false;
      FilterMonotone((n: Note) => n.id != id, filteredNotes, notes);
      notes := RemoveById(notes, id);
      filteredNotes := RemoveById(filteredNotes, id);
      error := None;
    }

    method GetPublicNoteFulfilled(note: PublicNote)
      modifies this
      ensures View() == old(View()).(isLoading := false, publicNote := Some(note), error := None)
    {
      isLoading := false;
      publicNote := Some(note);
      error := None;
    }

    /** A failed public-note load also forgets the note shown before. */
    method GetPublicNoteRejected(payload: Option<string>)
      modifies this
      ensures View() == old(View()).(isLoading := false, publicNote := None, error := payload)
    {
      isLoading := false;
      publicNote := None;
      error := payload;
    }
  }
}
