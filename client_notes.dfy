/** The note records the two client stores hold, and the list transformations that both
    notes slices apply to them: the three filters, replace-by-id and remove-by-id.
    The mobile slice (mobile-expo/src/store/notes/notesSlice.ts) and the web slice
    (frontend-web/src/store/notes/notesSlice.ts) write these transformations identically. */
module ClientNotes {
  import opened Wrappers
  import opened Text
  import opened Seqs

  datatype Visibility = PRIVATE | SHARED | PUBLIC

  /** The value of `visibilityFilter`: `'ALL'` or one visibility. */
  datatype VisibilityFilter = ALL | Only(visibility: Visibility)

  datatype User = User(id: int, name: string, email: string)

  /** A tag; `name` is the source's `label` (a reserved word here). */
  datatype Tag = Tag(id: int, name: string)

  /** A note as the client holds it. `createdAt` and `owner` are optional because the
      mobile optimistic update builds a note without them. */
  datatype Note = Note(
    id: int,
    title: string,
    contentMd: string,
    visibility: Visibility,
    createdAt: Option<string>,
    updatedAt: string,
    owner: Option<User>,
    tags: seq<Tag>)

  /** `CreateNoteRequest`; an `UpdateNoteRequest` is this plus the note id. */
  datatype NoteRequest = NoteRequest(title: string, contentMd: string, visibility: Visibility, tags: seq<string>)

  /** A note shown through a public link. */
  datatype PublicNote = PublicNote(id: int, title: string, contentMd: string, owner: User, tags: seq<Tag>)

  /** `currentSearch` and the `loadNotes` parameters: each field may be absent. */
  datatype SearchParams = SearchParams(query: Option<string>, tag: Option<string>, visibility: Option<string>)

  /** `{}`. */
  const NoSearch := SearchParams(None, None, None)

  /** How an API call ended: with the response data, or with an error that may carry a
      `code` and a server message (`error.response.data.message`). */
  datatype ApiReply<T> = Replied(data: T) | Errored(code: Option<string>, serverMessage: Option<string>)

  /** How a thunk settles: fulfilled with a value, or rejected with a payload, absent when
      the thunk threw instead of calling `rejectWithValue`. */
  datatype ThunkResult<T> = Fulfilled(value: T) | Rejected(payload: Option<string>)

  /** `error.response?.data?.message || fallback`. */
  function RejectPayload(serverMessage: Option<string>, fallback: string): (m: string)
    ensures serverMessage.Some? && serverMessage.value != "" ==> m == serverMessage.value
    ensures serverMessage.None? || serverMessage.value == "" ==> m == fallback
  {
    if serverMessage.Some? && serverMessage.value != "" then serverMessage.value else fallback
  }

  /** A thunk that passes the reply through: fulfilled with the data, or rejected with the
      server message or the thunk's fallback text. */
  function Settle<T>(reply: ApiReply<T>, fallback: string): (r: ThunkResult<T>)
    ensures r.Fulfilled? <==> reply.Replied?
    ensures r.Fulfilled? ==> r.value == reply.data
    ensures r.Rejected? ==> r.payload == Some(RejectPayload(reply.serverMessage, fallback))
  {
    match reply
    case Replied(data) => Fulfilled(data)
    case Errored(_, message) => Rejected(Some(RejectPayload(message, fallback)))
  }

  /** The ids of a list of notes. */
  function Ids(notes: seq<Note>): set<int>
  {
    set n | n in notes :: n.id
  }

  /** The predicate of `setSearchQuery`: the lower-cased title or content includes the
      lower-cased query. */
  predicate MatchesSearch(n: Note, query: string)
    ensures MatchesSearch(n, query) ==> |query| <= |n.title| || |query| <= |n.contentMd|
  {
    Contains(Lower(n.title), Lower(query)) || Contains(Lower(n.contentMd), Lower(query))
  }

  /** The predicate of `setSelectedTags`: some tag of the note has a selected label. */
  predicate HasSelectedTag(n: Note, labels: seq<string>)
    ensures labels == [] || n.tags == [] ==> !HasSelectedTag(n, labels)
    ensures HasSelectedTag(n, labels) <==> exists i :: 0 <= i < |n.tags| && n.tags[i].name in labels
  {
    exists t :: t in n.tags && t.name in labels
  }

  function SearchNotes(notes: seq<Note>, query: string): (r: seq<Note>)
    ensures IsSubseq(r, notes)
    ensures forall n :: n in r <==> n in notes && MatchesSearch(n, query)
  {
    Filter((n: Note) => MatchesSearch(n, query), notes)
  }

  function TagFiltered(notes: seq<Note>, labels: seq<string>): (r: seq<Note>)
    ensures IsSubseq(r, notes)
    ensures |labels| == 0 ==> r == notes
    ensures |labels| > 0 ==> forall n :: n in r <==> n in notes && HasSelectedTag(n, labels)
  {
    if |labels| == 0 then (SubseqReflexive(notes); notes)
    else Filter((n: Note) => HasSelectedTag(n, labels), notes)
  }

  function VisibilityFiltered(notes: seq<Note>, f: VisibilityFilter): (r: seq<Note>)
    ensures IsSubseq(r, notes)
    ensures f == ALL ==> r == notes
    ensures f.Only? ==> forall n :: n in r <==> n in notes && n.visibility == f.visibility
  {
    match f
    case ALL => SubseqReflexive(notes); notes
    case Only(v) => Filter((n: Note) => n.visibility == v, notes)
  }

  /** An empty query matches every note, so searching for it shows the whole list. */
  lemma EmptySearchKeepsAll(notes: seq<Note>)
    ensures SearchNotes(notes, "") == notes
  {
    forall n | n in notes ensures MatchesSearch(n, "") {
      ContainsSelfAndEmpty(Lower(n.title));
    }
    FilterAllPass((n: Note) => MatchesSearch(n, ""), notes);
  }

  /** The search ignores the case of the query. */
  lemma SearchIgnoresQueryCase(notes: seq<Note>, query: string)
    ensures SearchNotes(notes, query) == SearchNotes(notes, Lower(query))
  {
    LowerIsIdempotent(query);
    FilterExtensional((n: Note) => MatchesSearch(n, query), (n: Note) => MatchesSearch(n, Lower(query)), notes);
  }

  /** `notes.findIndex(note => note.id === id)`: the first index holding that id, or -1. */
  function FindIndex(notes: seq<Note>, id: int): (i: int)
    ensures -1 <= i < |notes|
    ensures i == -1 <==> forall k :: 0 <= k < |notes| ==> notes[k].id != id
    ensures i >= 0 ==> notes[i].id == id && forall k :: 0 <= k < i ==> notes[k].id != id
  {
    if notes == [] then -1
    else if notes[0].id == id then 0
    else
      var j := FindIndex(notes[1..], id);
      if j == -1 then -1 else j + 1
  }

  /** `notes[findIndex(...)] = updated` when some note has the updated note's id;
      otherwise the list as it was. */
  function ReplaceById(notes: seq<Note>, updated: Note): (r: seq<Note>)
    ensures |r| == |notes|
  {
    var i := FindIndex(notes, updated.id);
    if i == -1 then notes else notes[i := updated]
  }

  /** Replacing touches only the first note with the id; an absent id changes nothing. */
  lemma ReplaceByIdEffect(notes: seq<Note>, updated: Note)
    ensures (forall k :: 0 <= k < |notes| ==> notes[k].id != updated.id) ==> ReplaceById(notes, updated) == notes
    ensures forall k :: 0 <= k < |notes| && k != FindIndex(notes, updated.id) ==>
      ReplaceById(notes, updated)[k] == notes[k]
    ensures FindIndex(notes, updated.id) >= 0 ==>
      ReplaceById(notes, updated)[FindIndex(notes, updated.id)] == updated
    ensures (exists k :: 0 <= k < |notes| && notes[k].id == updated.id) ==>
      updated in ReplaceById(notes, updated)
  {
    var i := FindIndex(notes, updated.id);
    if i != -1 {
      assert ReplaceById(notes, updated)[i] == updated;
    }
  }

  /** `notes.filter(note => note.id !== id)`. */
  function RemoveById(notes: seq<Note>, id: int): (r: seq<Note>)
    ensures IsSubseq(r, notes)
    ensures forall n :: n in r <==> n in notes && n.id != id
  {
    Filter((n: Note) => n.id != id, notes)
  }

  /** Removing an id twice is the same as removing it once, and removing an id that no
      note has changes nothing. */
  lemma RemoveByIdIdempotent(notes: seq<Note>, id: int)
    ensures RemoveById(RemoveById(notes, id), id) == RemoveById(notes, id)
    ensures (forall n :: n in notes ==> n.id != id) ==> RemoveById(notes, id) == notes
  {
    FilterIdempotent((n: Note) => n.id != id, notes);
    if forall n :: n in notes ==> n.id != id {
      FilterAllPass((n: Note) => n.id != id, notes);
    }
  }

  /** Replacing by id keeps the set of ids. */
  lemma ReplaceByIdKeepsIds(notes: seq<Note>, updated: Note)
    ensures Ids(ReplaceById(notes, updated)) == Ids(notes)
  {
    var i := FindIndex(notes, updated.id);
    if i != -1 {
      var r := ReplaceById(notes, updated);
      forall x | x in Ids(r) ensures x in Ids(notes) {
        var n :| n in r && n.id == x;
        var k :| 0 <= k < |r| && r[k] == n;
        assert notes[k].id == x;
      }
      forall x | x in Ids(notes) ensures x in Ids(r) {
        var n :| n in notes && n.id == x;
        var k :| 0 <= k < |notes| && notes[k] == n;
        assert r[k].id == x;
      }
    }
  }

  /** Removing by id removes exactly that id from the set of ids. */
  lemma RemoveByIdIds(notes: seq<Note>, id: int)
    ensures Ids(RemoveById(notes, id)) == Ids(notes) - {id}
  {
  }

  /** Prepending a note adds its id. */
  lemma PrependIds(note: Note, notes: seq<Note>)
    ensures Ids([note] + notes) == {note.id} + Ids(notes)
  {
    forall x | x in Ids([note] + notes) ensures x in {note.id} + Ids(notes) {
      var n :| n in [note] + notes && n.id == x;
      if n != note {
        assert n in notes;
      }
    }
  }
}
