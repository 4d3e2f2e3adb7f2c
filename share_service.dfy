/** The backend's sharing rules (backend-spring/.../service/ShareService.java): sharing a
    note with a user, public links with random tokens, and how both move a note between
    PRIVATE, SHARED and PUBLIC. */
module Sharing {
  import opened Wrappers
  import opened NotesDb

  /** The token alphabet and the token length. */
  const Characters: string := "ABCDEFGHIJKLMNOPQRSTUVWXYZabcdefghijklmnopqrstuvwxyz0123456789"
  const TokenLength: int := 32

  /** Every draw is an index into the alphabet, as `nextInt(62)` guarantees. */
  predicate InAlphabet(picks: seq<int>)
  {
    forall i :: 0 <= i < |picks| ==> 0 <= picks[i] < |Characters|
  }

  /** One attempt's draws: a random index into the alphabet per token character. */
  predicate ValidDraws(picks: seq<int>)
  {
    |picks| == TokenLength && InAlphabet(picks)
  }

  /** The token an attempt spells. */
  function Candidate(picks: seq<int>): (t: string)
    requires InAlphabet(picks)
    ensures |t| == |picks|
    ensures forall i :: 0 <= i < |picks| ==> t[i] == Characters[picks[i]]
  {
    if picks == [] then []
    else Candidate(picks[..|picks| - 1]) + [Characters[picks[|picks| - 1]]]
  }

  /** An attempt whose token no link of `s` uses. */
  predicate FreshAttempt(s: Store, picks: seq<int>)
  {
    InAlphabet(picks) && !TokenInUse(s, Candidate(picks))
  }

  /** A token the service can hand out. */
  predicate IsToken(t: string)
  {
    |t| == TokenLength && forall i :: 0 <= i < |t| ==> t[i] in Characters
  }

  /** Every attempt spells a token of the right length over the alphabet. */
  lemma CandidateIsToken(picks: seq<int>)
    requires ValidDraws(picks)
    ensures IsToken(Candidate(picks))
  {
    var t := Candidate(picks);
    forall i | 0 <= i < |t|
      ensures t[i] in Characters
    {
      assert t[i] == Characters[picks[i]];
    }
  }

  /** Visibility after a share is added: PRIVATE becomes SHARED, the rest stay. */
  function AfterShareAdded(v: Visibility): (w: Visibility)
    ensures w != PRIVATE
    ensures v != PRIVATE ==> w == v
  {
    if v == PRIVATE then SHARED else v
  }

  /** Visibility after a share is removed: PRIVATE when none is left, whatever it was. */
  function AfterShareRemoved(v: Visibility, sharesLeft: bool): (w: Visibility)
    ensures sharesLeft ==> w == v
    ensures !sharesLeft ==> w == PRIVATE
  {
    if sharesLeft then v else PRIVATE
  }

  /** Visibility after a link is removed: with no link left, SHARED if some share is left
      and PRIVATE otherwise. */
  function AfterLinkRemoved(v: Visibility, linksLeft: bool, sharesLeft: bool): (w: Visibility)
    ensures linksLeft ==> w == v
    ensures !linksLeft ==> w != PUBLIC && (w == SHARED <==> sharesLeft)
  {
    if linksLeft then v else if sharesLeft then SHARED else PRIVATE
  }

  /** `shareNoteWithUser` on a state. */
  ghost function ShareEffect(s: Store, noteId: int, userEmail: string, ownerEmail: string): (r: Change<()>)
    ensures r.result.Err? ==> r.after == s
    ensures r.result.Ok? ==>
              ownerEmail in s.users && userEmail in s.users && OwnedBy(s, noteId, s.users[ownerEmail])
              && s.users[ownerEmail] != s.users[userEmail] && !SharedWith(s, noteId, s.users[userEmail])
              && r.after.shares == s.shares[s.nextId := ShareRow(noteId, s.users[userEmail], READ)]
              && r.after.notes == s.notes[noteId := s.notes[noteId].(visibility := AfterShareAdded(s.notes[noteId].visibility))]
  {
    if ownerEmail !in s.users then Change(Err("Owner not found"), s)
    else
      var owner := s.users[ownerEmail];
      if !OwnedBy(s, noteId, owner) then Change(Err("Note not found"), s)
      else if userEmail !in s.users then Change(Err("User not found"), s)
      else
        var target := s.users[userEmail];
        if owner == target then Change(Err("Cannot share note with yourself"), s)
        else if SharedWith(s, noteId, target) then Change(Err("Note already shared with this user"), s)
        else
          var n := s.notes[noteId];
          var s1 := s.(shares := s.shares[s.nextId := ShareRow(noteId, target, READ)], nextId := s.nextId + 1);
          Change(Ok(()), if n.visibility == PRIVATE then s1.(notes := s1.notes[noteId := n.(visibility := SHARED)]) else s1)
  }

  /** `createPublicLink` on a state, with the token `generateUniqueToken` produced. */
  ghost function CreatePublicLinkEffect(s: Store, noteId: int, ownerEmail: string, token: string): (r: Change<string>)
    ensures r.result.Err? ==> r.after == s
    ensures r.result.Ok? ==>
              ownerEmail in s.users && OwnedBy(s, noteId, s.users[ownerEmail]) && r.result.value == token
              && r.after.links == s.links[s.nextId := LinkRow(noteId, token, None)]
              && r.after.notes == s.notes[noteId := s.notes[noteId].(visibility := PUBLIC)]
              && r.after.shares == s.shares
  {
    if ownerEmail !in s.users then Change(Err("Owner not found"), s)
    else if !OwnedBy(s, noteId, s.users[ownerEmail]) then Change(Err("Note not found"), s)
    else
      var n := s.notes[noteId];
      Change(Ok(token), s.(links := s.links[s.nextId := LinkRow(noteId, token, None)],
                           notes := s.notes[noteId := n.(visibility := PUBLIC)],
                           nextId := s.nextId + 1))
  }

  /** `deleteShare` on a state; the share must belong to a note the caller owns. */
  ghost function DeleteShareEffect(s: Store, shareId: int, ownerEmail: string): (r: Change<()>)
    ensures r.result.Err? ==> r.after == s
    ensures r.result.Ok? ==>
              ownerEmail in s.users && shareId in s.shares && OwnedBy(s, s.shares[shareId].note, s.users[ownerEmail])
              && r.after.shares == s.shares - {shareId} && r.after.links == s.links
  {
    if ownerEmail !in s.users then Change(Err("Owner not found"), s)
    else if !(shareId in s.shares && OwnedBy(s, s.shares[shareId].note, s.users[ownerEmail])) then
      Change(Err("Share not found"), s)
    else
      var noteId := s.shares[shareId].note;
      var s1 := s.(shares := s.shares - {shareId});
      var n := s.notes[noteId];
      Change(Ok(()), s1.(notes := s1.notes[noteId := n.(visibility := AfterShareRemoved(n.visibility, HasShares(s1, noteId)))]))
  }

  /** `deletePublicLink` on a state; the link must belong to a note the caller owns. */
  ghost function DeletePublicLinkEffect(s: Store, linkId: int, ownerEmail: string): (r: Change<()>)
    ensures r.result.Err? ==> r.after == s
    ensures r.result.Ok? ==>
              ownerEmail in s.users && linkId in s.links && OwnedBy(s, s.links[linkId].note, s.users[ownerEmail])
              && r.after.links == s.links - {linkId} && r.after.shares == s.shares
  {
    if ownerEmail !in s.users then Change(Err("Owner not found"), s)
    else if !(linkId in s.links && OwnedBy(s, s.links[linkId].note, s.users[ownerEmail])) then
      Change(Err("Public link not found"), s)
    else
      var noteId := s.links[linkId].note;
      var s1 := s.(links := s.links - {linkId});
      var n := s.notes[noteId];
      Change(Ok(()), s1.(notes := s1.notes[noteId := n.(visibility := AfterLinkRemoved(n.visibility, HasLinks(s1, noteId), HasShares(s1, noteId)))]))
  }

  /** A link is live at `now` when it never expires or expires strictly later. */
  predicate Live(l: LinkRow, now: int)
    ensures l.expiresAt.None? ==> Live(l, now)
    ensures l.expiresAt.Some? && l.expiresAt.value <= now ==> !Live(l, now)
  {
    l.expiresAt.None? || l.expiresAt.value > now
  }

  /** `getPublicNote`: the note of the live link carrying the token, if there is one. */
  ghost function PublicNote(s: Store, token: string, now: int): (r: Option<int>)
    ensures r.Some? <==> exists id :: id in s.links && s.links[id].urlToken == token && Live(s.links[id], now)
    ensures r.Some? ==> exists id :: id in s.links && s.links[id].urlToken == token && s.links[id].note == r.value
  {
    if exists id :: id in s.links && s.links[id].urlToken == token && Live(s.links[id], now) then
      var id :| id in s.links && s.links[id].urlToken == token && Live(s.links[id], now);
      Some(s.links[id].note)
    else None
  }

  /** Sharing keeps the database consistent. */
  lemma ShareKeepsValid(s: Store, noteId: int, userEmail: string, ownerEmail: string)
    requires Valid(s)
    ensures Valid(ShareEffect(s, noteId, userEmail, ownerEmail).after)
  {
    var r := ShareEffect(s, noteId, userEmail, ownerEmail);
    if r.result.Ok? {
      var t := s.users[userEmail];
      forall a, b | a in r.after.shares && b in r.after.shares && a != b
        ensures r.after.shares[a].note != r.after.shares[b].note || r.after.shares[a].user != r.after.shares[b].user
      {
        if a == s.nextId {
          assert r.after.shares[b] == s.shares[b];
        } else if b == s.nextId {
          assert r.after.shares[a] == s.shares[a];
        }
      }
    }
  }

  /** The two refusals: sharing with oneself, and sharing twice with the same user. Both
      leave every table as it was. */
  lemma ShareRefusals(s: Store, noteId: int, userEmail: string, ownerEmail: string)
    requires ownerEmail in s.users && userEmail in s.users && OwnedBy(s, noteId, s.users[ownerEmail])
    ensures s.users[userEmail] == s.users[ownerEmail] ==>
              ShareEffect(s, noteId, userEmail, ownerEmail) == Change(Err("Cannot share note with yourself"), s)
    ensures s.users[userEmail] != s.users[ownerEmail] && SharedWith(s, noteId, s.users[userEmail]) ==>
              ShareEffect(s, noteId, userEmail, ownerEmail) == Change(Err("Note already shared with this user"), s)
  {
  }

  /** A successful share adds exactly one share, and sharing the same note with the same
      user again is refused. */
  lemma ShareOnceOnly(s: Store, noteId: int, userEmail: string, ownerEmail: string)
    requires Valid(s)
    requires ShareEffect(s, noteId, userEmail, ownerEmail).result.Ok?
    ensures var s1 := ShareEffect(s, noteId, userEmail, ownerEmail).after;
            |s1.shares| == |s.shares| + 1
            && ShareEffect(s1, noteId, userEmail, ownerEmail) == Change(Err("Note already shared with this user"), s1)
  {
    var s1 := ShareEffect(s, noteId, userEmail, ownerEmail).after;
    assert s.nextId !in s.shares;
    assert s1.shares[s.nextId].note == noteId && s1.shares[s.nextId].user == s.users[userEmail];
  }

  /** Operations on a note, share or link the caller does not own change nothing. */
  lemma NotOwnedChangesNothing(s: Store, noteId: int, shareId: int, linkId: int, ownerEmail: string,
                               userEmail: string, token: string)
    requires ownerEmail in s.users
    ensures !OwnedBy(s, noteId, s.users[ownerEmail]) ==>
              ShareEffect(s, noteId, userEmail, ownerEmail) == Change(Err("Note not found"), s)
              && CreatePublicLinkEffect(s, noteId, ownerEmail, token) == Change(Err("Note not found"), s)
    ensures shareId in s.shares && !OwnedBy(s, s.shares[shareId].note, s.users[ownerEmail]) ==>
              DeleteShareEffect(s, shareId, ownerEmail) == Change(Err("Share not found"), s)
    ensures linkId in s.links && !OwnedBy(s, s.links[linkId].note, s.users[ownerEmail]) ==>
              DeletePublicLinkEffect(s, linkId, ownerEmail) == Change(Err("Public link not found"), s)
  {
  }

  /** A new link with an unused token keeps the database consistent, so links created one
      after another all carry distinct tokens. */
  lemma CreatePublicLinkKeepsValid(s: Store, noteId: int, ownerEmail: string, token: string)
    requires Valid(s)
    requires !TokenInUse(s, token)
    ensures Valid(CreatePublicLinkEffect(s, noteId, ownerEmail, token).after)
  {
    var r := CreatePublicLinkEffect(s, noteId, ownerEmail, token);
    if r.result.Ok? {
      forall a, b | a in r.after.links && b in r.after.links && a != b
        ensures r.after.links[a].urlToken != r.after.links[b].urlToken
      {
        if a == s.nextId {
          assert r.after.links[b] == s.links[b];
        } else if b == s.nextId {
          assert r.after.links[a] == s.links[a];
        }
      }
    }
  }

  /** A created link serves its note, at any time, until it is deleted. */
  lemma CreatedLinkServesNote(s: Store, noteId: int, ownerEmail: string, token: string, now: int)
    requires Valid(s)
    requires !TokenInUse(s, token)
    requires CreatePublicLinkEffect(s, noteId, ownerEmail, token).result.Ok?
    ensures PublicNote(CreatePublicLinkEffect(s, noteId, ownerEmail, token).after, token, now) == Some(noteId)
  {
    var s1 := CreatePublicLinkEffect(s, noteId, ownerEmail, token).after;
    CreatePublicLinkKeepsValid(s, noteId, ownerEmail, token);
    assert s1.links[s.nextId].urlToken == token && Live(s1.links[s.nextId], now);
    var r := PublicNote(s1, token, now);
    var id :| id in s1.links && s1.links[id].urlToken == token && s1.links[id].note == r.value;
    assert id == s.nextId;
  }

  /** Removing shares keeps the database consistent. */
  lemma DeleteShareKeepsValid(s: Store, shareId: int, ownerEmail: string)
    requires Valid(s)
    ensures Valid(DeleteShareEffect(s, shareId, ownerEmail).after)
  {
  }

  /** Removing links keeps the database consistent. */
  lemma DeletePublicLinkKeepsValid(s: Store, linkId: int, ownerEmail: string)
    requires Valid(s)
    ensures Valid(DeletePublicLinkEffect(s, linkId, ownerEmail).after)
  {
  }

  /** Deleting the last share of a PUBLIC note makes it PRIVATE, yet its public link keeps
      serving it: visibility and reachability by link part ways. */
  lemma LastShareDeletedHidesPublicNote(s: Store, shareId: int, ownerEmail: string, linkId: int, now: int)
    requires Valid(s)
    requires ownerEmail in s.users && shareId in s.shares
    requires OwnedBy(s, s.shares[shareId].note, s.users[ownerEmail])
    requires forall id :: id in s.shares && id != shareId ==> s.shares[id].note != s.shares[shareId].note
    requires linkId in s.links && s.links[linkId].note == s.shares[shareId].note && Live(s.links[linkId], now)
    ensures var s1 := DeleteShareEffect(s, shareId, ownerEmail).after;
            s1.notes[s.shares[shareId].note].visibility == PRIVATE
            && PublicNote(s1, s.links[linkId].urlToken, now) == Some(s.shares[shareId].note)
  {
    var noteId := s.shares[shareId].note;
    var s1 := DeleteShareEffect(s, shareId, ownerEmail).after;
    assert !HasShares(s.(shares := s.shares - {shareId}), noteId);
    var token := s.links[linkId].urlToken;
    assert s1.links[linkId].urlToken == token && Live(s1.links[linkId], now);
    var r := PublicNote(s1, token, now);
    var id :| id in s1.links && s1.links[id].urlToken == token && s1.links[id].note == r.value;
    assert id == linkId;
  }

  /** Deleting a link leaves the note PUBLIC only while another link remains. */
  lemma DeleteLinkLeavesPublicOnlyWithLinks(s: Store, linkId: int, ownerEmail: string)
    requires Valid(s)
    requires DeletePublicLinkEffect(s, linkId, ownerEmail).result.Ok?
    ensures var s1 := DeletePublicLinkEffect(s, linkId, ownerEmail).after;
            var noteId := s.links[linkId].note;
            s1.notes[noteId].visibility == PUBLIC ==> HasLinks(s1, noteId)
  {
  }

  /** A taken attempt moves the search to the next one, and a fresh attempt is still ahead. */
  lemma NextAttempt(s: Store, draws: seq<seq<int>>, used: int)
    requires 0 <= used < |draws| && InAlphabet(draws[used]) && TokenInUse(s, Candidate(draws[used]))
    requires forall k :: 0 <= k < used ==> !FreshAttempt(s, draws[k])
    requires exists k :: used <= k < |draws| && FreshAttempt(s, draws[k])
    ensures used + 1 < |draws|
    ensures forall k :: 0 <= k < used + 1 ==> !FreshAttempt(s, draws[k])
    ensures exists k :: used + 1 <= k < |draws| && FreshAttempt(s, draws[k])
  {
    var w :| used <= w < |draws| && FreshAttempt(s, draws[w]);
    assert w != used;
  }

  /** The sharing service over the repositories. */
  class ShareService {
    const db: Database

    constructor (db: Database)
      ensures this.db == db
    {
      this.db := db;
    }

    /** `generateUniqueToken`: tries the attempts in order and returns the first token
        no link uses; `draws` stands for the random source and must hold such an attempt. */
    method GenerateUniqueToken(draws: seq<seq<int>>) returns (token: string, used: int)
      requires forall k :: 0 <= k < |draws| ==> |draws[k]| == TokenLength && InAlphabet(draws[k])
      requires exists k :: 0 <= k < |draws| && FreshAttempt(db.Snapshot(), draws[k])
      ensures 0 <= used < |draws| && token == Candidate(draws[used])
      ensures IsToken(token) && !TokenInUse(db.Snapshot(), token)
      ensures forall k :: 0 <= k < used ==> !FreshAttempt(db.Snapshot(), draws[k])
    {
      ghost var s := db.Snapshot();
      var links := db.links;
      used := 0;
      token := BuildToken(draws[0]);
      while exists id :: id in links && links[id].urlToken == token
        invariant 0 <= used < |draws| && token == Candidate(draws[used])
        invariant forall k :: 0 <= k < used ==> !FreshAttempt(s, draws[k])
        invariant exists k :: used <= k < |draws| && FreshAttempt(s, draws[k])
        decreases |draws| - used
      {
        var id :| id in links && links[id].urlToken == token;
        assert s.links == links;
        NextAttempt(s, draws, used);
        used := used + 1;
        token := BuildToken(draws[used]);
      }
      assert !TokenInUse(s, token);
      CandidateIsToken(draws[used]);
    }

    /** One attempt of the token loop: a character of the alphabet per draw. */
    static method BuildToken(picks: seq<int>) returns (token: string)
      requires ValidDraws(picks)
      ensures token == Candidate(picks)
    {
      token := [];
      for i := 0 to TokenLength
        invariant token == Candidate(picks[..i])
      {
        assert picks[..i + 1][..i] == picks[..i];
        token := token + [Characters[picks[i]]];
      }
      assert picks[..TokenLength] == picks;
    }

    method ShareNoteWithUser(noteId: int, userEmail: string, ownerEmail: string) returns (r: Result<()>)
      modifies db
      ensures Change(r, db.Snapshot()) == ShareEffect(old(db.Snapshot()), noteId, userEmail, ownerEmail)
    {
      if ownerEmail !in db.users {
        return Err("Owner not found");
      }
      var owner := db.users[ownerEmail];
      if !(noteId in db.notes && db.notes[noteId].owner == owner) {
        return Err("Note not found");
      }
      var note := db.notes[noteId];
      if userEmail !in db.users {
        return Err("User not found");
      }
      var target := db.users[userEmail];
      if owner == target {
        return Err("Cannot share note with yourself");
      }
      if exists id :: id in db.shares && db.shares[id].note == noteId && db.shares[id].user == target {
        return Err("Note already shared with this user");
      }
      var _ := db.InsertShare(ShareRow(noteId, target, READ));
      if note.visibility == PRIVATE {
        db.UpdateNote(noteId, note.(visibility := SHARED));
      }
      return Ok(());
    }

    /** `createPublicLink`; the token comes from the random draws. */
    method CreatePublicLink(noteId: int, ownerEmail: string, draws: seq<seq<int>>) returns (r: Result<string>)
      requires forall k :: 0 <= k < |draws| ==> |draws[k]| == TokenLength && InAlphabet(draws[k])
      requires exists k :: 0 <= k < |draws| && FreshAttempt(db.Snapshot(), draws[k])
      modifies db
      ensures r.Ok? ==> IsToken(r.value) && !TokenInUse(old(db.Snapshot()), r.value)
      ensures Change(r, db.Snapshot())
              == CreatePublicLinkEffect(old(db.Snapshot()), noteId, ownerEmail, if r.Ok? then r.value else "")
    {
      if ownerEmail !in db.users {
        return Err("Owner not found");
      }
      var owner := db.users[ownerEmail];
      if !(noteId in db.notes && db.notes[noteId].owner == owner) {
        return Err("Note not found");
      }
      var note := db.notes[noteId];
      var token, _ := GenerateUniqueToken(draws);
      var _ := db.InsertLink(LinkRow(noteId, token, None));
      db.UpdateNote(noteId, note.(visibility := PUBLIC));
      return Ok(token);
    }

    method DeleteShare(shareId: int, ownerEmail: string) returns (r: Result<()>)
      modifies db
      ensures Change(r, db.Snapshot()) == DeleteShareEffect(old(db.Snapshot()), shareId, ownerEmail)
    {
      if ownerEmail !in db.users {
        return Err("Owner not found");
      }
      var owner := db.users[ownerEmail];
      if !(shareId in db.shares && db.shares[shareId].note in db.notes && db.notes[db.shares[shareId].note].owner == owner) {
        return Err("Share not found");
      }
      var noteId := db.shares[shareId].note;
      db.DeleteShare(shareId);
      var remaining := exists id :: id in db.shares && db.shares[id].note == noteId;
      var note := db.notes[noteId];
      if !remaining {
        db.UpdateNote(noteId, note.(visibility := PRIVATE));
      } else {
        assert db.notes == db.notes[noteId := note];
      }
      return Ok(());
    }

    method DeletePublicLink(linkId: int, ownerEmail: string) returns (r: Result<()>)
      modifies db
      ensures Change(r, db.Snapshot()) == DeletePublicLinkEffect(old(db.Snapshot()), linkId, ownerEmail)
    {
      if ownerEmail !in db.users {
        return Err("Owner not found");
      }
      var owner := db.users[ownerEmail];
      if !(linkId in db.links && db.links[linkId].note in db.notes && db.notes[db.links[linkId].note].owner == owner) {
        return Err("Public link not found");
      }
      var noteId := db.links[linkId].note;
      db.DeleteLink(linkId);
      var remainingLinks := exists id :: id in db.links && db.links[id].note == noteId;
      var note := db.notes[noteId];
      if !remainingLinks {
        var remainingShares := exists id :: id in db.shares && db.shares[id].note == noteId;
        db.UpdateNote(noteId, note.(visibility := if remainingShares then SHARED else PRIVATE));
      } else {
        assert db.notes == db.notes[noteId := note];
      }
      return Ok(());
    }

    /** `getPublicNote`: read-only; `now` is the clock reading. */
    method GetPublicNote(token: string, now: int) returns (r: Option<int>)
      requires Valid(db.Snapshot())
      ensures r == PublicNote(db.Snapshot(), token, now)
    {
      if exists id :: id in db.links && db.links[id].urlToken == token && Live(db.links[id], now) {
        var id :| id in db.links && db.links[id].urlToken == token && Live(db.links[id], now);
        r := Some(db.links[id].note);
        ghost var p := PublicNote(db.Snapshot(), token, now);
        ghost var other :| other in db.links && db.links[other].urlToken == token && db.links[other].note == p.value;
        assert other == id;
      } else {
        r := None;
      }
    }
  }
}
