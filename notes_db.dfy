/** The backend's persistent state as the Spring services see it through their
    repositories (backend-spring/.../repository and .../model): users by e-mail, notes with
    their owner and tags, shares, public links and tags, each table keyed by a generated id. */
module NotesDb {
  import opened Wrappers
  import opened Text

  datatype Visibility = PRIVATE | SHARED | PUBLIC

  /** The only permission a share can carry. */
  datatype Permission = READ

  /** A note row; `tags` holds the ids of the tags its `noteTags` link it to. */
  datatype NoteRow = NoteRow(owner: int, title: string, contentMd: string, visibility: Visibility, tags: set<int>)

  /** A share of `note` with the user `user`. */
  datatype ShareRow = ShareRow(note: int, user: int, permission: Permission)

  /** A public link; `expiresAt` is absent when the link never expires. */
  datatype LinkRow = LinkRow(note: int, urlToken: string, expiresAt: Option<int>)

  /** Every table at one moment; `nextId` is the next id the database hands out. */
  datatype Store = Store(
    users: map<string, int>,
    notes: map<int, NoteRow>,
    shares: map<int, ShareRow>,
    links: map<int, LinkRow>,
    tags: map<int, string>,
    nextId: int)

  /** What a service call answers together with the state it leaves. */
  datatype Change<T> = Change(result: Result<T>, after: Store)

  /** Every row's id was handed out before `nextId`. */
  ghost predicate IdsBelow(s: Store)
  {
    && 0 <= s.nextId
    && (forall id :: id in s.notes ==> 0 <= id < s.nextId)
    && (forall id :: id in s.shares ==> 0 <= id < s.nextId)
    && (forall id :: id in s.links ==> 0 <= id < s.nextId)
    && (forall id :: id in s.tags ==> 0 <= id < s.nextId)
  }

  /** Rows refer only to rows that exist. */
  ghost predicate References(s: Store)
  {
    && (forall id :: id in s.notes ==> s.notes[id].tags <= s.tags.Keys)
    && (forall id :: id in s.shares ==> s.shares[id].note in s.notes)
    && (forall id :: id in s.links ==> s.links[id].note in s.notes)
  }

  /** A note is shared at most once with a user. */
  ghost predicate SharesUnique(shares: map<int, ShareRow>)
  {
    forall a, b :: a in shares && b in shares && a != b ==>
      shares[a].note != shares[b].note || shares[a].user != shares[b].user
  }

  /** No two links carry the same token. */
  ghost predicate TokensUnique(links: map<int, LinkRow>)
  {
    forall a, b :: a in links && b in links && a != b ==> links[a].urlToken != links[b].urlToken
  }

  /** No two tags have labels equal ignoring case. */
  ghost predicate LabelsDistinct(tags: map<int, string>)
  {
    forall a, b :: a in tags && b in tags && a != b ==> Lower(tags[a]) != Lower(tags[b])
  }

  /** The consistency the services rely on and keep. */
  ghost predicate Valid(s: Store)
  {
    IdsBelow(s) && References(s) && SharesUnique(s.shares) && TokensUnique(s.links) && LabelsDistinct(s.tags)
  }

  /** `findByIdAndOwner` / `existsByIdAndOwner`. */
  predicate OwnedBy(s: Store, noteId: int, owner: int)
  {
    noteId in s.notes && s.notes[noteId].owner == owner
  }

  /** `existsByNoteAndSharedWithUser`. */
  predicate SharedWith(s: Store, noteId: int, user: int)
  {
    exists id :: id in s.shares && s.shares[id].note == noteId && s.shares[id].user == user
  }

  /** `findByNote` on shares is non-empty. */
  predicate HasShares(s: Store, noteId: int)
  {
    exists id :: id in s.shares && s.shares[id].note == noteId
  }

  /** `findByNote` on public links is non-empty. */
  predicate HasLinks(s: Store, noteId: int)
  {
    exists id :: id in s.links && s.links[id].note == noteId
  }

  /** `existsByUrlToken`. */
  predicate TokenInUse(s: Store, token: string)
  {
    exists id :: id in s.links && s.links[id].urlToken == token
  }

  /** The repositories, one map per table. */
  class Database {
    var users: map<string, int>
    var notes: map<int, NoteRow>
    var shares: map<int, ShareRow>
    var links: map<int, LinkRow>
    var tags: map<int, string>
    var nextId: int

    ghost function Snapshot(): Store
      reads this
    {
      Store(users, notes, shares, links, tags, nextId)
    }

    /** A database holding only the given accounts. */
    constructor (accounts: map<string, int>)
      ensures Snapshot() == Store(accounts, map[], map[], map[], map[], 0)
      ensures Valid(Snapshot())
    {
      users := accounts;
      notes := map[];
      shares := map[];
      links := map[];
      tags := map[];
      nextId := 0;
    }

    /** `save` of a new note: it receives the next id. */
    method InsertNote(row: NoteRow) returns (id: int)
      modifies this
      ensures id == old(nextId)
      ensures Snapshot() == old(Snapshot()).(notes := old(notes)[id := row], nextId := id + 1)
    {
      id := nextId;
      notes := notes[id := row];
      nextId := nextId + 1;
    }

    /** `save` of an existing note. */
    method UpdateNote(id: int, row: NoteRow)
      modifies this
      ensures Snapshot() == old(Snapshot()).(notes := old(notes)[id := row])
    {
      notes := notes[id := row];
    }

    method InsertShare(row: ShareRow) returns (id: int)
      modifies this
      ensures id == old(nextId)
      ensures Snapshot() == old(Snapshot()).(shares := old(shares)[id := row], nextId := id + 1)
    {
      id := nextId;
      shares := shares[id := row];
      nextId := nextId + 1;
    }

    method InsertLink(row: LinkRow) returns (id: int)
      modifies this
      ensures id == old(nextId)
      ensures Snapshot() == old(Snapshot()).(links := old(links)[id := row], nextId := id + 1)
    {
      id := nextId;
      links := links[id := row];
      nextId := nextId + 1;
    }

    method InsertTag(name: string) returns (id: int)
      modifies this
      ensures id == old(nextId)
      ensures Snapshot() == old(Snapshot()).(tags := old(tags)[id := name], nextId := id + 1)
    {
      id := nextId;
      tags := tags[id := name];
      nextId := nextId + 1;
    }

    method DeleteShare(id: int)
      modifies this
      ensures Snapshot() == old(Snapshot()).(shares := old(shares) - {id})
    {
      shares := shares - {id};
    }

    method DeleteLink(id: int)
      modifies this
      ensures Snapshot() == old(Snapshot()).(links := old(links) - {id})
    {
      links := links - {id};
    }

    /** `deleteById` on a note, cascading to its shares, its public links and its tag
        links (the tags themselves stay). */
    method DeleteNoteCascading(id: int)
      modifies this
      ensures Snapshot() == old(Snapshot()).(
                notes := old(notes) - {id},
                shares := map k | k in old(shares) && old(shares)[k].note != id :: old(shares)[k],
                links := map k | k in old(links) && old(links)[k].note != id :: old(links)[k])
    {
      notes := notes - {id};
      shares := map k | k in shares && shares[k].note != id :: shares[k];
      links := map k | k in links && links[k].note != id :: links[k];
    }
  }
}
