/** The backend's note rules (backend-spring/.../service/NoteService.java): creating,
    updating and deleting a user's notes, attaching tags found or created by label
    ignoring case, and paging the notes shared with a user. */
module Notes {
  import opened Wrappers
  import opened Text
  import opened NotesDb

  /** A `NoteRequest`: an absent visibility or tag list is Java's `null`; the tag labels
      are listed in the order the request's set yields them. */
  datatype NoteInput = NoteInput(title: string, contentMd: string, visibility: Option<Visibility>, tags: Option<seq<string>>)

  /** What `getOrCreateTag` returns, with the state it leaves. */
  datatype TagChange = TagChange(tag: int, after: Store)

  /** `findByLabelIgnoreCase` finds a tag. */
  predicate HasTagLike(tags: map<int, string>, name: string)
  {
    exists id :: id in tags && Lower(tags[id]) == Lower(name)
  }

  /** `getOrCreateTag`: the tag whose label equals `name` ignoring case, or a new tag
      labelled `name`. */
  ghost function TagFor(s: Store, name: string): (r: TagChange)
    ensures r.tag in r.after.tags && Lower(r.after.tags[r.tag]) == Lower(name)
    ensures HasTagLike(s.tags, name) ==> r.after == s
    ensures !HasTagLike(s.tags, name) ==>
              r.tag == s.nextId && r.after == s.(tags := s.tags[s.nextId := name], nextId := s.nextId + 1)
  {
    if HasTagLike(s.tags, name) then
      var id :| id in s.tags && Lower(s.tags[id]) == Lower(name);
      TagChange(id, s)
    else
      TagChange(s.nextId, s.(tags := s.tags[s.nextId := name], nextId := s.nextId + 1))
  }

  /** One turn of the tag loop: note `noteId` linked to the tag of `name`. */
  ghost function AttachOne(s: Store, noteId: int, name: string): (r: Store)
    requires noteId in s.notes
    ensures r.notes.Keys == s.notes.Keys
    ensures r.users == s.users && r.shares == s.shares && r.links == s.links
    ensures forall id :: id in s.notes && id != noteId ==> r.notes[id] == s.notes[id]
    ensures r.notes[noteId] == s.notes[noteId].(tags := s.notes[noteId].tags + {TagFor(s, name).tag})
    ensures r.tags == TagFor(s, name).after.tags && r.nextId == TagFor(s, name).after.nextId
    ensures s.nextId <= r.nextId
  {
    var t := TagFor(s, name);
    var n := t.after.notes[noteId];
    t.after.(notes := t.after.notes[noteId := n.(tags := n.tags + {t.tag})])
  }

  /** The note `noteId` after linking it to the tag of each label in turn. */
  ghost function AttachTags(s: Store, noteId: int, names: seq<string>): (r: Store)
    requires noteId in s.notes
    ensures r.notes.Keys == s.notes.Keys
    ensures r.users == s.users && r.shares == s.shares && r.links == s.links
    ensures forall id :: id in s.notes && id != noteId ==> r.notes[id] == s.notes[id]
    ensures r.notes[noteId] == s.notes[noteId].(tags := r.notes[noteId].tags)
    ensures s.notes[noteId].tags <= r.notes[noteId].tags
    ensures s.nextId <= r.nextId
  {
    if names == [] then s
    else AttachOne(AttachTags(s, noteId, names[..|names| - 1]), noteId, names[|names| - 1])
  }

  /** The tags whose label equals one of `names` ignoring case. */
  ghost function Matching(tags: map<int, string>, names: seq<string>): (m: set<int>)
    ensures m <= tags.Keys
  {
    set id | id in tags && exists i :: 0 <= i < |names| && Lower(tags[id]) == Lower(names[i])
  }

  function VisibilityOrPrivate(v: Option<Visibility>): (w: Visibility)
    ensures v.Some? ==> w == v.value
    ensures v.None? ==> w == PRIVATE
  {
    if v.Some? then v.value else PRIVATE
  }

  /** The requested labels, none when the request has no tag list. */
  function LabelsOf(input: NoteInput): (names: seq<string>)
    ensures input.tags.Some? ==> names == input.tags.value
    ensures input.tags.None? ==> names == []
  {
    if input.tags.Some? then input.tags.value else []
  }

  /** `createNote`: a new note of the user, PRIVATE unless a visibility is given, with
      the requested tags when there are some. */
  ghost function CreateNoteEffect(s: Store, input: NoteInput, userEmail: string): (r: Change<int>)
    ensures r.result.Err? <==> userEmail !in s.users
    ensures r.result.Err? ==> r == Change(Err("User not found"), s)
    ensures r.result.Ok? ==>
              r.result.value == s.nextId && r.result.value in r.after.notes && r.after.notes.Keys == s.notes.Keys + {s.nextId}
    ensures r.result.Ok? ==>
              var n := r.after.notes[r.result.value];
              n.owner == s.users[userEmail] && n.title == input.title && n.contentMd == input.contentMd
              && n.visibility == VisibilityOrPrivate(input.visibility)
              && (input.tags.None? ==> n.tags == {})
  {
    if userEmail !in s.users then Change(Err("User not found"), s)
    else
      var id := s.nextId;
      var row := NoteRow(s.users[userEmail], input.title, input.contentMd, VisibilityOrPrivate(input.visibility), {});
      var s1 := s.(notes := s.notes[id := row], nextId := id + 1);
      Change(Ok(id), AttachTags(s1, id, LabelsOf(input)))
  }

  /** `updateNote`: title and content are overwritten; an absent visibility or tag list
      keeps the note's, a present tag list replaces its tags. */
  ghost function UpdateNoteEffect(s: Store, noteId: int, input: NoteInput, userEmail: string): (r: Change<int>)
    ensures r.result.Err? ==> r.after == s
    ensures r.result.Ok? ==>
              userEmail in s.users && OwnedBy(s, noteId, s.users[userEmail]) && r.result.value == noteId
              && r.after.notes.Keys == s.notes.Keys
    ensures r.result.Ok? ==>
              var n := r.after.notes[noteId];
              n.owner == s.notes[noteId].owner && n.title == input.title && n.contentMd == input.contentMd
              && n.visibility == (if input.visibility.Some? then input.visibility.value else s.notes[noteId].visibility)
              && (input.tags.None? ==> n.tags == s.notes[noteId].tags)
  {
    if userEmail !in s.users then Change(Err("User not found"), s)
    else if !OwnedBy(s, noteId, s.users[userEmail]) then Change(Err("Note not found"), s)
    else
      var n := s.notes[noteId];
      var visibility := if input.visibility.Some? then input.visibility.value else n.visibility;
      var edited := n.(title := input.title, contentMd := input.contentMd, visibility := visibility);
      if input.tags.Some? then
        Change(Ok(noteId), AttachTags(s.(notes := s.notes[noteId := edited.(tags := {})]), noteId, input.tags.value))
      else
        Change(Ok(noteId), s.(notes := s.notes[noteId := edited]))
  }

  /** `deleteNote`: the owner's note goes, and with it its shares and public links. */
  ghost function DeleteNoteEffect(s: Store, noteId: int, userEmail: string): (r: Change<()>)
    ensures r.result.Err? ==> r.after == s
    ensures r.result.Ok? <==> userEmail in s.users && OwnedBy(s, noteId, s.users[userEmail])
    ensures r.result.Ok? ==>
              r.after.notes == s.notes - {noteId} && r.after.tags == s.tags
              && (forall id :: id in r.after.shares <==> id in s.shares && s.shares[id].note != noteId)
              && (forall id :: id in r.after.links <==> id in s.links && s.links[id].note != noteId)
  {
    if userEmail !in s.users then Change(Err("User not found"), s)
    else if !OwnedBy(s, noteId, s.users[userEmail]) then Change(Err("Note not found"), s)
    else
      Change(Ok(()), s.(notes := s.notes - {noteId},
                        shares := map k | k in s.shares && s.shares[k].note != noteId :: s.shares[k],
                        links := map k | k in s.links && s.links[k].note != noteId :: s.links[k]))
  }

  /** Finding or creating a tag keeps the database consistent. */
  lemma TagForKeepsValid(s: Store, name: string)
    requires Valid(s)
    ensures Valid(TagFor(s, name).after)
  {
    var r := TagFor(s, name);
    if !HasTagLike(s.tags, name) {
      forall a, b | a in r.after.tags && b in r.after.tags && a != b
        ensures Lower(r.after.tags[a]) != Lower(r.after.tags[b])
      {
        if a == s.nextId {
          assert r.after.tags[b] == s.tags[b];
        } else if b == s.nextId {
          assert r.after.tags[a] == s.tags[a];
        }
      }
    }
  }

  /** Two lookups with labels equal ignoring case give the same tag, and together create
      at most one. */
  lemma SameTagIgnoringCase(s: Store, a: string, b: string)
    requires Valid(s)
    requires Lower(a) == Lower(b)
    ensures var r1 := TagFor(s, a);
            var r2 := TagFor(r1.after, b);
            r2.tag == r1.tag && r2.after == r1.after && |r2.after.tags| <= |s.tags| + 1
  {
    TagForKeepsValid(s, a);
    SecondLookup(s, a, b);
  }

  lemma SecondLookup(s: Store, a: string, b: string)
    requires Lower(a) == Lower(b) && LabelsDistinct(TagFor(s, a).after.tags)
    ensures var r1 := TagFor(s, a);
            var r2 := TagFor(r1.after, b);
            r2.tag == r1.tag && r2.after == r1.after && |r2.after.tags| <= |s.tags| + 1
  {
    var r1 := TagFor(s, a);
    assert HasTagLike(r1.after.tags, b);
    var r2 := TagFor(r1.after, b);
    assert Lower(r1.after.tags[r2.tag]) == Lower(r1.after.tags[r1.tag]);
    if !HasTagLike(s.tags, a) {
      assert r1.after.tags.Keys == s.tags.Keys + {s.nextId};
    }
  }

  /** One turn of the tag loop keeps the database consistent and every existing tag. */
  lemma AttachOneKeepsValid(s: Store, noteId: int, name: string)
    requires Valid(s) && noteId in s.notes
    ensures var r := AttachOne(s, noteId, name);
            Valid(r) && forall id :: id in s.tags ==> id in r.tags && r.tags[id] == s.tags[id]
  {
    TagForKeepsValid(s, name);
    var t := TagFor(s, name);
    var r := AttachOne(s, noteId, name);
    assert IdsBelow(r);
    assert References(r);
  }

  /** Attaching tags keeps the database consistent and keeps every existing tag. */
  lemma {:induction false} AttachTagsKeepsValid(s: Store, noteId: int, names: seq<string>)
    requires Valid(s) && noteId in s.notes
    ensures var r := AttachTags(s, noteId, names);
            Valid(r) && forall id :: id in s.tags ==> id in r.tags && r.tags[id] == s.tags[id]
    decreases |names|
  {
    if names != [] {
      var p := names[..|names| - 1];
      AttachTagsKeepsValid(s, noteId, p);
      AttachOneKeepsValid(AttachTags(s, noteId, p), noteId, names[|names| - 1]);
    }
  }

  /** One turn of the tag loop adds the tag of `name` to the matching set and keeps every
      earlier label matched. */
  lemma MatchingStep(s: Store, noteId: int, names: seq<string>)
    requires Valid(s) && noteId in s.notes && names != []
    ensures var p := names[..|names| - 1];
            var r := AttachOne(s, noteId, names[|names| - 1]);
            Matching(r.tags, names) == Matching(s.tags, p) + {TagFor(s, names[|names| - 1]).tag}
            && ((forall i :: 0 <= i < |p| ==> HasTagLike(s.tags, p[i])) ==>
                  forall i :: 0 <= i < |names| ==> HasTagLike(r.tags, names[i]))
  {
    var p := names[..|names| - 1];
    var name := names[|names| - 1];
    var t := TagFor(s, name);
    AttachOneKeepsValid(s, noteId, name);
    var tags := AttachOne(s, noteId, name).tags;
    assert tags == t.after.tags;
    assert names == p + [name];
    MatchingNarrows(s.tags, tags, p, name, t.tag);
    MatchingWidens(s.tags, tags, p, name, t.tag);
    if forall i :: 0 <= i < |p| ==> HasTagLike(s.tags, p[i]) {
      LabelsStayFound(s.tags, tags, p, name, t.tag);
    }
  }

  /** Every tag matching the extended list is an earlier match or the new label's tag. */
  lemma MatchingNarrows(prior: map<int, string>, tags: map<int, string>, p: seq<string>, name: string, tag: int)
    requires tag in tags && Lower(tags[tag]) == Lower(name)
    requires forall id :: id in prior ==> id in tags && tags[id] == prior[id]
    requires tags.Keys <= prior.Keys + {tag}
    requires LabelsDistinct(tags)
    ensures Matching(tags, p + [name]) <= Matching(prior, p) + {tag}
  {
    var names := p + [name];
    forall x | x in Matching(tags, names)
      ensures x in Matching(prior, p) + {tag}
    {
      var i :| 0 <= i < |names| && Lower(tags[x]) == Lower(names[i]);
      if i < |p| {
        assert names[i] == p[i];
        if x != tag {
          assert x in prior;
        }
      } else {
        assert Lower(tags[x]) == Lower(tags[tag]);
      }
    }
  }

  /** Earlier matches and the new label's tag all match the extended list. */
  lemma MatchingWidens(prior: map<int, string>, tags: map<int, string>, p: seq<string>, name: string, tag: int)
    requires tag in tags && Lower(tags[tag]) == Lower(name)
    requires forall id :: id in prior ==> id in tags && tags[id] == prior[id]
    ensures Matching(prior, p) + {tag} <= Matching(tags, p + [name])
  {
    var names := p + [name];
    forall x | x in Matching(prior, p) + {tag}
      ensures x in Matching(tags, names)
    {
      if x == tag {
        assert Lower(tags[x]) == Lower(names[|p|]);
      } else {
        var i :| 0 <= i < |p| && Lower(prior[x]) == Lower(p[i]);
        assert names[i] == p[i];
      }
    }
  }

  /** Labels that had a tag keep it, and the new label has one. */
  lemma LabelsStayFound(prior: map<int, string>, tags: map<int, string>, p: seq<string>, name: string, tag: int)
    requires tag in tags && Lower(tags[tag]) == Lower(name)
    requires forall id :: id in prior ==> id in tags && tags[id] == prior[id]
    requires forall i :: 0 <= i < |p| ==> HasTagLike(prior, p[i])
    ensures forall i :: 0 <= i < |p + [name]| ==> HasTagLike(tags, (p + [name])[i])
  {
    var names := p + [name];
    forall i | 0 <= i < |names|
      ensures HasTagLike(tags, names[i])
    {
      if i < |p| {
        assert names[i] == p[i];
        var id :| id in prior && Lower(prior[id]) == Lower(p[i]);
        assert tags[id] == prior[id];
      } else {
        assert Lower(tags[tag]) == Lower(names[i]);
      }
    }
  }

  /** The note gains exactly the tags whose labels match a requested label ignoring case,
      and every requested label has one. */
  lemma {:induction false} AttachTagsEffect(s: Store, noteId: int, names: seq<string>)
    requires Valid(s) && noteId in s.notes
    ensures var r := AttachTags(s, noteId, names);
            r.notes[noteId].tags == s.notes[noteId].tags + Matching(r.tags, names)
            && forall i :: 0 <= i < |names| ==> HasTagLike(r.tags, names[i])
    decreases |names|
  {
    if names != [] {
      AttachTagsEffect(s, noteId, names[..|names| - 1]);
      LastLabel(s, noteId, names);
    }
  }

  /** Attaching the last label adds its tag to the note and to the matching set. */
  lemma LastLabel(s: Store, noteId: int, names: seq<string>)
    requires Valid(s) && noteId in s.notes && names != []
    ensures var p := names[..|names| - 1];
            var s1 := AttachTags(s, noteId, p);
            var r := AttachTags(s, noteId, names);
            var tag := TagFor(s1, names[|names| - 1]).tag;
            && r.notes[noteId].tags == s1.notes[noteId].tags + {tag}
            && Matching(r.tags, names) == Matching(s1.tags, p) + {tag}
            && ((forall i :: 0 <= i < |p| ==> HasTagLike(s1.tags, p[i])) ==>
                  forall i :: 0 <= i < |names| ==> HasTagLike(r.tags, names[i]))
  {
    var p := names[..|names| - 1];
    AttachTagsStep(s, noteId, names);
    AttachTagsKeepsValid(s, noteId, p);
    MatchingStep(AttachTags(s, noteId, p), noteId, names);
  }

  /** The last label is attached after all the others. */
  lemma AttachTagsStep(s: Store, noteId: int, names: seq<string>)
    requires noteId in s.notes && names != []
    ensures AttachTags(s, noteId, names) == AttachOne(AttachTags(s, noteId, names[..|names| - 1]), noteId, names[|names| - 1])
  {
  }

  /** Tagging a note that has no tags leaves it with exactly the tags matching the
      labels, in a consistent database. */
  lemma RetagFromEmpty(s: Store, noteId: int, names: seq<string>)
    requires Valid(s) && noteId in s.notes && s.notes[noteId].tags == {}
    ensures var r := AttachTags(s, noteId, names);
            Valid(r)
            && r.notes[noteId].tags == Matching(r.tags, names)
            && forall i :: 0 <= i < |names| ==> HasTagLike(r.tags, names[i])
  {
    AttachTagsKeepsValid(s, noteId, names);
    AttachTagsEffect(s, noteId, names);
  }

  /** After an update with a tag list, the note's tags are exactly those matching the
      list; after one without, they are the old ones. */
  lemma UpdateNoteTags(s: Store, noteId: int, input: NoteInput, userEmail: string)
    requires Valid(s)
    requires UpdateNoteEffect(s, noteId, input, userEmail).result.Ok?
    ensures var r := UpdateNoteEffect(s, noteId, input, userEmail).after;
            Valid(r)
            && (input.tags.None? ==> r.notes[noteId].tags == s.notes[noteId].tags)
            && (input.tags.Some? ==>
                  r.notes[noteId].tags == Matching(r.tags, input.tags.value)
                  && forall i :: 0 <= i < |input.tags.value| ==> HasTagLike(r.tags, input.tags.value[i]))
  {
    var n := s.notes[noteId];
    var visibility := if input.visibility.Some? then input.visibility.value else n.visibility;
    var edited := n.(title := input.title, contentMd := input.contentMd, visibility := visibility);
    if input.tags.Some? {
      var s0 := s.(notes := s.notes[noteId := edited.(tags := {})]);
      assert Valid(s0);
      RetagFromEmpty(s0, noteId, input.tags.value);
    }
  }

  /** Inserting a note without tags under the next id keeps the database consistent. */
  lemma InsertNoteKeepsValid(s: Store, row: NoteRow)
    requires Valid(s) && row.tags == {}
    ensures Valid(s.(notes := s.notes[s.nextId := row], nextId := s.nextId + 1))
  {
    var s1 := s.(notes := s.notes[s.nextId := row], nextId := s.nextId + 1);
    assert IdsBelow(s1);
    assert References(s1);
  }

  /** What `createNote` leaves behind for an existing user: the new untagged note under
      the next id, then tagged. */
  lemma CreatedStore(s: Store, input: NoteInput, userEmail: string)
    requires userEmail in s.users
    ensures var row := NoteRow(s.users[userEmail], input.title, input.contentMd, VisibilityOrPrivate(input.visibility), {});
            CreateNoteEffect(s, input, userEmail)
              == Change(Ok(s.nextId), AttachTags(s.(notes := s.notes[s.nextId := row], nextId := s.nextId + 1), s.nextId, LabelsOf(input)))
  {
  }

  /** `createNote` in two steps: the insert, which keeps the database consistent, then
      the tag loop, which does nothing without labels. */
  lemma CreateThenTag(s: Store, input: NoteInput, userEmail: string, s1: Store)
    requires Valid(s) && userEmail in s.users
    requires s1 == s.(notes := s.notes[s.nextId := NoteRow(s.users[userEmail], input.title, input.contentMd, VisibilityOrPrivate(input.visibility), {})],
                      nextId := s.nextId + 1)
    ensures Valid(s1) && s.nextId in s1.notes
    ensures CreateNoteEffect(s, input, userEmail) == Change(Ok(s.nextId), AttachTags(s1, s.nextId, LabelsOf(input)))
    ensures AttachTags(s1, s.nextId, []) == s1
  {
    CreatedStore(s, input, userEmail);
    InsertNoteKeepsValid(s, s1.notes[s.nextId]);
  }

  /** Creating a note keeps the database consistent. */
  lemma CreateNoteKeepsValid(s: Store, input: NoteInput, userEmail: string)
    requires Valid(s)
    ensures Valid(CreateNoteEffect(s, input, userEmail).after)
  {
    if userEmail in s.users {
      CreatedStore(s, input, userEmail);
      InsertTaggedNote(s, NoteRow(s.users[userEmail], input.title, input.contentMd, VisibilityOrPrivate(input.visibility), {}), LabelsOf(input));
    }
  }

  /** A created note starts with exactly the tags matching its requested labels, and
      every requested label has a tag. */
  lemma CreateNoteTags(s: Store, input: NoteInput, userEmail: string)
    requires Valid(s)
    requires CreateNoteEffect(s, input, userEmail).result.Ok?
    ensures var r := CreateNoteEffect(s, input, userEmail);
            && r.after.notes[r.result.value].tags == Matching(r.after.tags, LabelsOf(input))
            && forall i :: 0 <= i < |LabelsOf(input)| ==> HasTagLike(r.after.tags, LabelsOf(input)[i])
  {
    CreatedStore(s, input, userEmail);
    InsertTaggedNote(s, NoteRow(s.users[userEmail], input.title, input.contentMd, VisibilityOrPrivate(input.visibility), {}), LabelsOf(input));
  }

  /** A note inserted untagged and then tagged has exactly the tags matching the labels. */
  lemma InsertTaggedNote(s: Store, row: NoteRow, names: seq<string>)
    requires Valid(s) && row.tags == {}
    ensures var s1 := s.(notes := s.notes[s.nextId := row], nextId := s.nextId + 1);
            var r := AttachTags(s1, s.nextId, names);
            Valid(r)
            && r.notes[s.nextId].tags == Matching(r.tags, names)
            && forall i :: 0 <= i < |names| ==> HasTagLike(r.tags, names[i])
  {
    InsertNoteKeepsValid(s, row);
    RetagFromEmpty(s.(notes := s.notes[s.nextId := row], nextId := s.nextId + 1), s.nextId, names);
  }

  /** Deleting a note keeps the database consistent: no share or link is left pointing at
      it. */
  lemma DeleteNoteKeepsValid(s: Store, noteId: int, userEmail: string)
    requires Valid(s)
    ensures Valid(DeleteNoteEffect(s, noteId, userEmail).after)
  {
  }

  /** Only the owner can update or delete: for anyone else both fail with "Note not found"
      and change nothing. */
  lemma OwnerOnly(s: Store, noteId: int, input: NoteInput, userEmail: string)
    requires userEmail in s.users && !OwnedBy(s, noteId, s.users[userEmail])
    ensures UpdateNoteEffect(s, noteId, input, userEmail) == Change(Err("Note not found"), s)
    ensures DeleteNoteEffect(s, noteId, userEmail) == Change(Err("Note not found"), s)
  {
  }

  /** A page of results and the total count. */
  datatype Page<T> = Page(content: seq<T>, totalElements: int)

  function Min(a: int, b: int): int
  {
    if a < b then a else b
  }

  /** `getSharedNotes` slicing of the shared-note list: elements from `page * size` up to
      `size` of them, with the list's length as total. A negative page, a size below one
      (both refused by `PageRequest.of`) and a start past the end (refused by `subList`)
      are errors. */
  function SharedPage<T>(shared: seq<T>, page: int, size: int): (r: Result<Page<T>>)
    ensures r.Ok? <==> 0 <= page && 1 <= size && page * size <= |shared|
    ensures r.Ok? ==> r.value.totalElements == |shared| && |r.value.content| <= size
    ensures r.Ok? ==> |r.value.content| == Min(page * size + size, |shared|) - page * size
    ensures r.Ok? ==> forall j :: 0 <= j < |r.value.content| ==> r.value.content[j] == shared[page * size + j]
    ensures page < 0 ==> r == Err("Page index must not be less than zero")
    ensures 0 <= page && size < 1 ==> r == Err("Page size must not be less than one")
    ensures 0 <= page && 1 <= size && page * size > |shared| ==>
      r == Err("fromIndex(" + IntToString(page * size) + ") > toIndex(" + IntToString(|shared|) + ")")
  {
    if page < 0 then Err("Page index must not be less than zero")
    else if size < 1 then Err("Page size must not be less than one")
    else
      var start := page * size;
      var end := Min(start + size, |shared|);
      if start > end then Err("fromIndex(" + IntToString(start) + ") > toIndex(" + IntToString(end) + ")")
      else Ok(Page(shared[start..end], |shared|))
  }

  lemma MulMonotone(a: int, b: int, c: int)
    requires a <= b && 0 <= c
    ensures a * c <= b * c
  {
  }

  lemma DivMod(i: int, size: int)
    requires 0 <= i && 1 <= size
    ensures (i / size) * size + i % size == i && 0 <= i % size < size && 0 <= i / size
  {
  }

  /** Every element of the list is on the page its index falls in, at its index within
      that page. */
  lemma PageOfIndex<T>(shared: seq<T>, size: int, i: int)
    requires 1 <= size && 0 <= i < |shared|
    ensures var r := SharedPage(shared, i / size, size);
            r.Ok? && i % size < |r.value.content| && r.value.content[i % size] == shared[i]
  {
    var p := i / size;
    var m := i % size;
    DivMod(i, size);
    var start := p * size;
    var end := Min(start + size, |shared|);
    assert SharedPage(shared, p, size) == Ok(Page(shared[start..end], |shared|));
    assert shared[start..end][m] == shared[start + m];
  }

  /** The pages before the one holding index `i` are full. */
  lemma EarlierPagesFull<T>(shared: seq<T>, size: int, i: int, q: int)
    requires 1 <= size && 0 <= i < |shared|
    requires 0 <= q < i / size
    ensures SharedPage(shared, q, size).Ok? && |SharedPage(shared, q, size).value.content| == size
  {
    DivMod(i, size);
    MulMonotone(q + 1, i / size, size);
    FullPage(shared, size, q);
  }

  lemma FullPage<T>(shared: seq<T>, size: int, q: int)
    requires 1 <= size && 0 <= q && (q + 1) * size <= |shared|
    ensures SharedPage(shared, q, size).Ok? && |SharedPage(shared, q, size).value.content| == size
  {
    assert q * size + size == (q + 1) * size;
  }

  /** `getSharedNotes` for a user, given the list the repository query yields. */
  function SharedNotes<T>(s: Store, userEmail: string, shared: seq<T>, page: int, size: int): (r: Result<Page<T>>)
    ensures userEmail !in s.users ==> r == Err("User not found")
    ensures userEmail in s.users ==> r == SharedPage(shared, page, size)
  {
    if userEmail !in s.users then Err("User not found") else SharedPage(shared, page, size)
  }

  /** The note service over the repositories. */
  class NoteService {
    const db: Database

    constructor (db: Database)
      ensures this.db == db
    {
      this.db := db;
    }

    /** `getOrCreateTag`. */
    method GetOrCreateTag(name: string) returns (tag: int)
      requires Valid(db.Snapshot())
      modifies db
      ensures TagChange(tag, db.Snapshot()) == TagFor(old(db.Snapshot()), name)
      ensures Valid(db.Snapshot())
    {
      ghost var s := db.Snapshot();
      TagForKeepsValid(s, name);
      if exists id :: id in db.tags && Lower(db.tags[id]) == Lower(name) {
        tag :| tag in db.tags && Lower(db.tags[tag]) == Lower(name);
        assert Lower(db.tags[tag]) == Lower(db.tags[TagFor(s, name).tag]);
      } else {
        tag := db.InsertTag(name);
      }
    }

    /** The tag loop shared by create and update: links note `noteId` to the tag of each
        label. */
    method AttachTagsTo(noteId: int, names: seq<string>)
      requires Valid(db.Snapshot()) && noteId in db.notes
      modifies db
      ensures db.Snapshot() == AttachTags(old(db.Snapshot()), noteId, names)
      ensures Valid(db.Snapshot())
    {
      ghost var s := db.Snapshot();
      for i := 0 to |names|
        invariant noteId in s.notes
        invariant db.Snapshot() == AttachTags(s, noteId, names[..i])
        invariant Valid(db.Snapshot())
      {
        assert names[..i + 1][..i] == names[..i];
        ghost var before := db.Snapshot();
        AttachOneKeepsValid(before, noteId, names[i]);
        var tag := GetOrCreateTag(names[i]);
        var note := db.notes[noteId];
        db.UpdateNote(noteId, note.(tags := note.tags + {tag}));
        assert db.Snapshot() == AttachOne(before, noteId, names[i]);
      }
      assert names[..|names|] == names;
    }

    method CreateNote(input: NoteInput, userEmail: string) returns (r: Result<int>)
      requires Valid(db.Snapshot())
      modifies db
      ensures Change(r, db.Snapshot()) == CreateNoteEffect(old(db.Snapshot()), input, userEmail)
    {
      if userEmail !in db.users {
        return Err("User not found");
      }
      ghost var s := db.Snapshot();
      var owner := db.users[userEmail];
      var id := db.InsertNote(NoteRow(owner, input.title, input.contentMd, VisibilityOrPrivate(input.visibility), {}));
      CreateThenTag(s, input, userEmail, db.Snapshot());
      if input.tags.Some? && |input.tags.value| > 0 {
        AttachTagsTo(id, input.tags.value);
      }
      return Ok(id);
    }

    method UpdateNote(noteId: int, input: NoteInput, userEmail: string) returns (r: Result<int>)
      requires Valid(db.Snapshot())
      modifies db
      ensures Change(r, db.Snapshot()) == UpdateNoteEffect(old(db.Snapshot()), noteId, input, userEmail)
    {
      if userEmail !in db.users {
        return Err("User not found");
      }
      var user := db.users[userEmail];
      if !(noteId in db.notes && db.notes[noteId].owner == user) {
        return Err("Note not found");
      }
      var note := db.notes[noteId];
      note := note.(title := input.title, contentMd := input.contentMd);
      if input.visibility.Some? {
        note := note.(visibility := input.visibility.value);
      }
      if input.tags.Some? {
        db.UpdateNote(noteId, note.(tags := {}));
        AttachTagsTo(noteId, input.tags.value);
      } else {
        db.UpdateNote(noteId, note);
      }
      return Ok(noteId);
    }

    method DeleteNote(noteId: int, userEmail: string) returns (r: Result<()>)
      modifies db
      ensures Change(r, db.Snapshot()) == DeleteNoteEffect(old(db.Snapshot()), noteId, userEmail)
    {
      if userEmail !in db.users {
        return Err("User not found");
      }
      var user := db.users[userEmail];
      if !(noteId in db.notes && db.notes[noteId].owner == user) {
        return Err("Note not found");
      }
      db.DeleteNoteCascading(noteId);
      return Ok(());
    }
  }
}
