/** The web notes slice (frontend-web/src/store/notes/notesSlice.ts): thunks that pass the
    API's reply through, and the reducers over the notes state. */
module WebNotes {
  import opened Wrappers
  import opened Seqs
  import opened ClientNotes

  datatype NotesView = NotesView(
    notes: seq<Note>,
    filteredNotes: seq<Note>,
    publicNote: Option<PublicNote>,
    searchQuery: string,
    selectedTags: seq<string>,
    visibilityFilter: VisibilityFilter,
    currentSearch: SearchParams,
    isLoading: bool,
    error: Option<string>)

  class NotesState {
    var notes: seq<Note>
    var filteredNotes: seq<Note>
    var publicNote: Option<PublicNote>
    var searchQuery: string
    var selectedTags: seq<string>
    var visibilityFilter: VisibilityFilter
    var currentSearch: SearchParams
    var isLoading: bool
    var error: Option<string>

    ghost function View(): NotesView
      reads this
    {
      NotesView(notes, filteredNotes, publicNote, searchQuery, selectedTags, visibilityFilter,
                currentSearch, isLoading, error)
    }

    /** Every shown note has the id of some loaded note. (The in-place patch of
        `updateNote` can break the stronger subsequence relation the mobile slice keeps.) */
    predicate Valid()
      reads this
    {
      Ids(filteredNotes) <= Ids(notes)
    }

    constructor ()
      ensures Valid()
      ensures View() == NotesView([], [], None, "", [], ALL, NoSearch, false, None)
    {
      notes := [];
      filteredNotes := [];
      publicNote := None;
      searchQuery := "";
      selectedTags := [];
      visibilityFilter := ALL;
      currentSearch := NoSearch;
      isLoading := false;
      error := None;
    }

    method SetSearchQuery(query: string)
      modifies this
      ensures Valid()
      ensures View() == old(View()).(searchQuery := query, filteredNotes := SearchNotes(notes, query))
    {
      searchQuery := query;
      filteredNotes := SearchNotes(notes, query);
    }

    method SetSelectedTags(labels: seq<string>)
      modifies this
      ensures Valid()
      ensures View() == old(View()).(selectedTags := labels, filteredNotes := TagFiltered(notes, labels))
    {
      selectedTags := labels;
      if |labels| == 0 {
        filteredNotes := notes;
      } else {
        filteredNotes := TagFiltered(notes, labels);
      }
    }

    method SetVisibilityFilter(f: VisibilityFilter)
      modifies this
      ensures Valid()
      ensures View() == old(View()).(visibilityFilter := f, filteredNotes := VisibilityFiltered(notes, f))
    {
      visibilityFilter := f;
      if f == ALL {
        filteredNotes := notes;
      } else {
        filteredNotes := VisibilityFiltered(notes, f);
      }
    }

    method ClearError()
      modifies this
      ensures View() == old(View()).(error := None)
    {
      error := None;
    }

    method SetCurrentSearch(search: SearchParams)
      modifies this
      ensures View() == old(View()).(currentSearch := search)
    {
      currentSearch := search;
    }

    /** Resets the search fields; both lists stay as they are. */
    method ClearSearch()
      modifies this
      ensures View() == old(View()).(currentSearch := NoSearch, searchQuery := "", selectedTags := [], visibilityFilter := ALL)
    {
      currentSearch := NoSearch;
      searchQuery := "";
      selectedTags := [];
      visibilityFilter := ALL;
    }

    method ClearPublicNote()
      modifies this
      ensures View() == old(View()).(publicNote := None)
    {
      publicNote := None;
    }

    /** Every `pending` case. */
    method Pending()
      modifies this
      ensures View() == old(View()).(isLoading := true, error := None)
    {
      isLoading := true;
      error := None;
    }

    /** Every `rejected` case; `getPublicNote`'s keeps the note shown before. */
    method Rejected(payload: Option<string>)
      modifies this
      ensures View() == old(View()).(isLoading := false, error := payload)
    {
      isLoading := false;
      error := payload;
    }

    /** `shareNote.fulfilled` and `shareNotePublic.fulfilled`. */
    method ShareFulfilled()
      modifies this
      ensures View() == old(View()).(isLoading := false, error := None)
    {
      isLoading := false;
      error := None;
    }

    method LoadNotesFulfilled(loaded: seq<Note>)
      modifies this
      ensures Valid()
      ensures View() == old(View()).(isLoading := false, notes := loaded, filteredNotes := loaded, error := None)
    {
      isLoading := false;
      notes := loaded;
      filteredNotes := loaded;
      error := None;
    }

    /** The new note goes first in both lists. */
    method CreateNoteFulfilled(note: Note)
      requires Valid()
      modifies this
      ensures Valid()
      ensures View() == old(View()).(isLoading := false, notes := [note] + old(notes),
                                     filteredNotes := [note] + old(filteredNotes), error := None)
    {
      isLoading := false;
      PrependIds(note, notes);
      PrependIds(note, filteredNotes);
      notes := [note] + notes;
      filteredNotes := [note] + filteredNotes;
      error := None;
    }

    /** When the full list has the payload's id, its first note with that id is replaced,
        and so is the shown list's first note with that id, if any; otherwise neither list
        changes, even when the shown list has the id. */
    method UpdateNoteFulfilled(note: Note)
      requires Valid()
      modifies this
      ensures Valid()
      ensures FindIndex(old(notes), note.id) == -1 ==>
        View() == old(View()).(isLoading := false, error := None)
      ensures FindIndex(old(notes), note.id) != -1 ==>
        View() == old(View()).(isLoading := false, error := None,
                               notes := ReplaceById(old(notes), note),
                               filteredNotes := ReplaceById(old(filteredNotes), note))
    {
      isLoading := false;
      var index := FindIndex(notes, note.id);
      if index != -1 {
        ReplaceByIdKeepsIds(notes, note);
        ReplaceByIdKeepsIds(filteredNotes, note);
        notes := notes[index := note];
        var filteredIndex := FindIndex(filteredNotes, note.id);
        if filteredIndex != -1 {
          filteredNotes := filteredNotes[filteredIndex := note];
        }
      }
      error := None;
    }

    /** Both lists lose every note with the id and keep the rest in order. */
    method DeleteNoteFulfilled(id: int)
      requires Valid()
      modifies this
      ensures Valid()
      ensures View() == old(View()).(isLoading := false, notes := RemoveById(old(notes), id),
                                     filteredNotes := RemoveById(old(filteredNotes), id), error := None)
    {
      isLoading := false;
      RemoveByIdIds(notes, id);
      RemoveByIdIds(filteredNotes, id);
      notes := RemoveById(notes, id);
      filteredNotes := RemoveById(filteredNotes, id);
      error := None;
    }

    method GetPublicNoteFulfilled(note: PublicNote)
      modifies this
      ensures View() == old(View()).(isLoading := false, publicNote := Some(note), error := None)
    {
      isLoading := false;
      publicNote := Some(note);
      error := None;
    }
  }
}
