// The Library object of src/shared/library.cpp: its collections are updated
// in place by commit, which checks a change, applies it through the item
// pointers it fetched, stamps it with the next revision and logs it. Each
// method is proved against the value model of LibraryModel, whose
// consistency lemmas then carry over to the object.
module SharedLibrary {

  import opened Wrappers
  import opened LibraryTypes
  import opened LibraryModel
  import TagForest
  import CommitInvariants

  // ---------------------------------------------------------------------
  // Specification functions

  /** committedChangesSince on values: the log entries whose revision is at least r, in log order. */
  function Since(log: seq<CommittedChange>, r: nat): (res: seq<CommittedChange>)
    ensures |res| <= |log|
    ensures forall i :: 0 <= i < |res| ==> res[i].committedRevision >= r
    decreases |log|
  {
    if log == [] then []
    else
      var last := log[|log| - 1];
      Since(log[..|log| - 1], r) + (if last.committedRevision >= r then [last] else [])
  }

  /** The entries kept are exactly those at or after revision r. */
  lemma {:induction false} SinceMembers(log: seq<CommittedChange>, r: nat)
    ensures forall c :: c in Since(log, r) <==> c in log && c.committedRevision >= r
    decreases |log|
  {
    if log != [] {
      var init := log[..|log| - 1];
      SinceMembers(init, r);
      assert log == init + [log[|log| - 1]];
    }
  }

  /** On a log numbered 1 .. n, the entries since r are the suffix from position r - 1. */
  lemma {:induction false} SinceOfNumbered(log: seq<CommittedChange>, r: nat)
    requires forall i :: 0 <= i < |log| ==> log[i].committedRevision == i + 1
    ensures Since(log, r) == log[(if r <= 1 then 0 else if r - 1 <= |log| then r - 1 else |log|)..]
    decreases |log|
  {
    if log != [] {
      var init := log[..|log| - 1];
      SinceOfNumbered(init, r);
      assert log == init + [log[|log| - 1]];
    }
  }

  /**
   * commit(QVector) on values: each change whose revision is the next one is
   * committed; the others are skipped. A change the source would assert on
   * (a new parent that is no tag) stops the replay; the flag says so.
   */
  ghost function Replay(s: LibState, cs: seq<CommittedChange>, es: seq<nat>): (bool, LibState)
    requires |es| == |cs|
    decreases |cs|
  {
    if cs == [] then (false, s)
    else
      var (stopped, t) := Replay(s, cs[..|cs| - 1], es[..|es| - 1]);
      if stopped then (stopped, t) else ReplayStep(t, cs[|cs| - 1], es[|es| - 1])
  }

  /** Replaying one more change of the list is one more step, unless the replay has stopped. */
  lemma ReplaySnoc(s: LibState, cs: seq<CommittedChange>, es: seq<nat>, i: nat, e: nat)
    requires i < |cs| && |es| == i
    ensures Replay(s, cs[..i + 1], es + [e])
      == (var (stopped, t) := Replay(s, cs[..i], es); if stopped then (stopped, t) else ReplayStep(t, cs[i], e))
  {
    assert cs[..i + 1][..i] == cs[..i];
    assert (es + [e])[..i] == es;
  }

  /** One change of the replay, on a library that has not stopped. */
  ghost function ReplayStep(t: LibState, c: CommittedChange, e: nat): (bool, LibState)
  {
    if c.committedRevision != t.revision + 1 then (false, t)
    else if !RequestAsserts(t, c.request) then (true, t)
    else (false, Commit(t, c.request, e).1)
  }

  /** Replaying keeps the library consistent and its log numbered. */
  lemma {:induction false} ReplayKeepsInv(s: LibState, cs: seq<CommittedChange>, es: seq<nat>)
    requires |es| == |cs|
    requires Inv(s) && LogConsecutive(s)
    ensures Inv(Replay(s, cs, es).1) && LogConsecutive(Replay(s, cs, es).1)
    decreases |cs|
  {
    if cs != [] {
      ReplayKeepsInv(s, cs[..|cs| - 1], es[..|es| - 1]);
      var (stopped, t) := Replay(s, cs[..|cs| - 1], es[..|es| - 1]);
      var c := cs[|cs| - 1];
      if !stopped && c.committedRevision == t.revision + 1 && RequestAsserts(t, c.request) {
        CommitInvariants.CommitKeepsInv(t, c.request, es[|es| - 1]);
        CommitInvariants.CommitKeepsLog(t, c.request, es[|es| - 1]);
      }
    }
  }

  /**
   * Replaying only appends to the log, and every entry it appends is a change
   * of the list, committed under the revision the list gave it.
   */
  lemma {:induction false} ReplayOnlyAppendsListed(s: LibState, cs: seq<CommittedChange>, es: seq<nat>)
    requires |es| == |cs|
    ensures var n := Replay(s, cs, es).1;
      s.log <= n.log
      && forall i :: |s.log| <= i < |n.log| ==>
           exists j :: 0 <= j < |cs| && cs[j].request == n.log[i].request
                    && cs[j].committedRevision == n.log[i].committedRevision
    decreases |cs|
  {
    if cs != [] {
      var init, einit := cs[..|cs| - 1], es[..|es| - 1];
      ReplayOnlyAppendsListed(s, init, einit);
      var (stopped, t) := Replay(s, init, einit);
      var c := cs[|cs| - 1];
      var n := Replay(s, cs, es).1;
      forall i | |s.log| <= i < |n.log|
        ensures exists j :: 0 <= j < |cs| && cs[j].request == n.log[i].request
                         && cs[j].committedRevision == n.log[i].committedRevision
      {
        if i < |t.log| {
          assert n.log[i] == t.log[i];
          var j :| 0 <= j < |init| && init[j].request == t.log[i].request
                   && init[j].committedRevision == t.log[i].committedRevision;
          assert cs[j] == init[j];
        } else {
          assert cs[|cs| - 1] == c;
        }
      }
    }
  }

  /** Some file-ending key is a possible choice of getOrCreateFileEndingId. */
  lemma EndingExists(fileEndings: map<nat, string>, name: string)
    ensures exists e :: EndingChoice(fileEndings, name, e)
  {
    if k :| k in fileEndings && fileEndings[k] == name {
      assert EndingChoice(fileEndings, name, k);
    } else {
      assert EndingChoice(fileEndings, name, 0);
    }
  }

  /** Only SongSetFileEnding reads the file-ending choice. */
  lemma SongCaseIgnoresEnding(s: LibState, r: ChangeRequest, e: nat, e': nat)
    requires Group(r.changeType) == SongGroup && r.changeType != SongSetFileEnding
    ensures SongCase(s, r, e) == SongCase(s, r, e')
  {
  }

  /** In a consistent library 0 is no tag and the parent pointers have no cycle. */
  lemma InvTagShape(s: LibState)
    requires Inv(s)
    ensures 0 !in s.tags.items && TagForest.Acyclic(Parents(s.tags.items))
  {
  }

  // ---------------------------------------------------------------------
  // The object

  class Library {
    const songs: ItemCollection<Song>
    const albums: ItemCollection<Album>
    const artists: ItemCollection<Artist>
    const tags: ItemCollection<Tag>
    const fileEndings: ItemCollection<string>
    var rootTags: seq<nat>
    var revision: nat
    var log: seq<CommittedChange>

    /** The whole library as a value. */
    function Snap(): LibState
      reads this, songs, albums, artists, tags, fileEndings
    {
      LibState(songs.Contents(), albums.Contents(), artists.Contents(), tags.Contents(),
               fileEndings.Contents(), rootTags, revision, log)
    }

    /** Each collection creates the default item of its type. */
    predicate Defaults()
    {
      songs.defaultItem == NewSong && albums.defaultItem == NewAlbum && artists.defaultItem == NewArtist
      && tags.defaultItem == NewTag && fileEndings.defaultItem == ""
    }

    /** The class invariant: consistent links, a tag forest, and a log numbered 1 .. revision. */
    ghost predicate Valid()
      reads this, songs, albums, artists, tags, fileEndings
    {
      Defaults() && Inv(Snap()) && LogConsecutive(Snap())
    }

    /** Library(): empty collections, no root tags, revision 0, an empty log. */
    constructor ()
      ensures Snap() == EmptyState()
      ensures Valid()
    {
      songs := new ItemCollection(NewSong);
      albums := new ItemCollection(NewAlbum);
      artists := new ItemCollection(NewArtist);
      tags := new ItemCollection(NewTag);
      fileEndings := new ItemCollection("");
      rootTags := [];
      revision := 0;
      log := [];
      new;
      CommitInvariants.EmptyIsConsistent();
    }

    /**
     * getOrCreateFileEndingId: the first key in hash order whose value is the
     * ending, or else a new entry holding it.
     */
    method GetOrCreateFileEndingId(name: string) returns (id: nat, ghost choice: nat)
      requires Defaults()
      modifies fileEndings
      ensures EndingChoice(old(fileEndings.items), name, choice)
      ensures (id, fileEndings.Contents()) == FileEndingId(old(fileEndings.Contents()), name, choice)
    {
      var rest := fileEndings.items.Keys;
      while rest != {}
        invariant rest <= fileEndings.items.Keys
        invariant forall k :: k in fileEndings.items && k !in rest ==> fileEndings.items[k] != name
        decreases |rest|
      {
        var k :| k in rest;
        if fileEndings.items[k] == name {
          return k, k;
        }
        rest := rest - {k};
      }
      id := fileEndings.Create();
      fileEndings.Update(id, name);
      choice := 0;
    }

    /**
     * The ancestor walk of TagSetParent: follow the parents from d until 0,
     * reporting whether the walk passes through t.
     */
    method ParentChainMeets(d: nat, t: nat) returns (meets: bool)
      requires t != 0 && TagForest.Acyclic(Parents(tags.items))
      ensures meets <==> d != 0 && ChainMeets(tags.items, d, t)
    {
      ghost var P := Parents(tags.items);
      ghost var n: nat := 1;
      if d in P {
        n :| TagForest.Walk(P, d, n) == 0;
      }
      var p := d;
      ghost var k: nat := 0;
      while p != 0 && p != t
        invariant p == TagForest.Walk(P, d, k)
        invariant forall j :: 0 <= j < k ==> TagForest.Walk(P, d, j) != 0 && TagForest.Walk(P, d, j) != t
        invariant TagForest.Walk(P, d, n) == 0 && k <= n
        decreases n - k
      {
        var tag := tags.FindItem(p);
        TagForest.WalkSnoc(P, d, k);
        p := if tag.Some? then tag.value.parent else 0;
        k := k + 1;
      }
      meets := p != 0;
      if !meets {
        forall j: nat
          ensures TagForest.Walk(P, d, j) != t
        {
          if j >= k {
            TagForest.WalkStaysAtRoot(P, d, k, j);
          }
        }
      }
    }

    // --- the song cases

    method CommitSongAdd(req: ChangeRequest) returns (cr: CaseResult)
      requires req.changeType == SongAdd && Defaults()
      modifies songs, albums
      ensures cr == SongCase(old(Snap()), req, 0)
      ensures Snap() == if cr.Done? then cr.next else old(Snap())
    {
      var album := albums.FindItem(req.targetId);
      if album.None? {
        return Rejected("album not found");
      }
      var id := songs.Create();
      songs.Update(id, songs.items[id].(name := req.name, album := req.targetId));
      albums.Update(req.targetId, albums.items[req.targetId].(songs := albums.items[req.targetId].songs + [id]));
      cr := Done(id, Snap());
    }

    method CommitSongRemove(req: ChangeRequest) returns (cr: CaseResult)
      requires req.changeType == SongRemove
      modifies songs, albums
      ensures cr == SongCase(old(Snap()), req, 0)
      ensures Snap() == if cr.Done? then cr.next else old(Snap())
    {
      var song := songs.FindItem(req.targetId);
      if song.None? {
        return Rejected("song not found");
      }
      var album := albums.FindItem(song.value.album);
      if album.None? {
        return Rejected("album not found");
      }
      if song.value.tags != [] {
        return Rejected("Song still has tags");
      }
      albums.Update(song.value.album, album.value.(songs := RemoveAll(album.value.songs, req.targetId)));
      songs.Remove(req.targetId);
      cr := Done(0, Snap());
    }

    /** SongSetName, SongSetPosition and SongSetLength: one field of the song is overwritten. */
    method CommitSongSetField(req: ChangeRequest) returns (cr: CaseResult)
      requires req.changeType == SongSetName || req.changeType == SongSetPosition || req.changeType == SongSetLength
      modifies songs
      ensures cr == SongCase(old(Snap()), req, 0)
      ensures Snap() == if cr.Done? then cr.next else old(Snap())
    {
      var song := songs.FindItem(req.targetId);
      if song.None? {
        return Rejected("song not found");
      }
      var v := song.value;
      if req.changeType == SongSetName {
        v := v.(name := req.name);
      } else if req.changeType == SongSetPosition {
        v := v.(position := req.detail);
      } else {
        v := v.(secs := req.detail);
      }
      songs.Update(req.targetId, v);
      cr := Done(0, Snap());
    }

    method CommitSongSetFileEnding(req: ChangeRequest) returns (cr: CaseResult, ghost ending: nat)
      requires req.changeType == SongSetFileEnding && Defaults()
      modifies songs, fileEndings
      ensures EndingChoice(old(fileEndings.items), req.name, ending)
      ensures cr == SongCase(old(Snap()), req, ending)
      ensures Snap() == if cr.Done? then cr.next else old(Snap())
    {
      var song := songs.FindItem(req.targetId);
      if song.None? {
        EndingExists(fileEndings.items, req.name);
        ending :| EndingChoice(fileEndings.items, req.name, ending);
        return Rejected("song not found"), ending;
      }
      var fe;
      fe, ending := GetOrCreateFileEndingId(req.name);
      songs.Update(req.targetId, song.value.(fileEnding := fe));
      cr := Done(0, Snap());
    }

    method CommitSongSetAlbum(req: ChangeRequest) returns (cr: CaseResult)
      requires req.changeType == SongSetAlbum
      modifies songs, albums
      ensures cr == SongCase(old(Snap()), req, 0)
      ensures Snap() == if cr.Done? then cr.next else old(Snap())
    {
      var t, d := req.targetId, req.detail;
      var song := songs.FindItem(t);
      if song.None? {
        return Rejected("song not found");
      }
      var o := song.value.album;
      var oldAlbum := albums.FindItem(o);
      if oldAlbum.None? {
        return Rejected("oldAlbum not found");
      }
      var newAlbum := albums.FindItem(d);
      if newAlbum.None? {
        return Rejected("newAlbum not found");
      }
      songs.Update(t, song.value.(album := d));
      albums.Update(o, albums.items[o].(songs := RemoveAll(albums.items[o].songs, t)));
      albums.Update(d, albums.items[d].(songs := albums.items[d].songs + [t]));
      cr := Done(0, Snap());
    }

    /** SongAddTag and SongRemoveTag: both ends of the tagging change together. */
    method CommitSongTagging(req: ChangeRequest) returns (cr: CaseResult)
      requires req.changeType == SongAddTag || req.changeType == SongRemoveTag
      modifies songs, tags
      ensures cr == SongCase(old(Snap()), req, 0)
      ensures Snap() == if cr.Done? then cr.next else old(Snap())
    {
      var t, d := req.targetId, req.detail;
      var song := songs.FindItem(t);
      if song.None? {
        return Rejected("song not found");
      }
      var tag := tags.FindItem(d);
      if tag.None? {
        return Rejected("tag not found");
      }
      if req.changeType == SongAddTag {
        if d in song.value.tags {
          return Rejected("Tag already on song");
        }
        songs.Update(t, song.value.(tags := song.value.tags + [d]));
        tags.Update(d, tag.value.(songs := tag.value.songs + [t]));
      } else {
        if d !in song.value.tags {
          return Rejected("Tag not on Song");
        }
        songs.Update(t, song.value.(tags := RemoveAll(song.value.tags, d)));
        tags.Update(d, tag.value.(songs := RemoveAll(tag.value.songs, t)));
      }
      cr := Done(0, Snap());
    }

    // --- the album cases

    method CommitAlbumAdd(req: ChangeRequest) returns (cr: CaseResult)
      requires req.changeType == AlbumAdd && Defaults()
      modifies albums, artists
      ensures cr == AlbumCase(old(Snap()), req)
      ensures Snap() == if cr.Done? then cr.next else old(Snap())
    {
      var artist := artists.FindItem(req.targetId);
      if artist.None? {
        return Rejected("artist not found");
      }
      var id := albums.Create();
      albums.Update(id, albums.items[id].(artist := req.targetId, name := req.name));
      artists.Update(req.targetId, artist.value.(albums := artist.value.albums + [id]));
      cr := Done(id, Snap());
    }

    method CommitAlbumRemove(req: ChangeRequest) returns (cr: CaseResult)
      requires req.changeType == AlbumRemove
      modifies albums, artists
      ensures cr == AlbumCase(old(Snap()), req)
      ensures Snap() == if cr.Done? then cr.next else old(Snap())
    {
      var album := albums.FindItem(req.targetId);
      if album.None? {
        return Rejected("album not found");
      }
      var artist := artists.FindItem(album.value.artist);
      if artist.None? {
        return Rejected("artist not found");
      }
      if album.value.songs != [] {
        return Rejected("Album still contains songs");
      }
      if album.value.tags != [] {
        return Rejected("Album still has tags");
      }
      artists.Update(album.value.artist, artist.value.(albums := RemoveAll(artist.value.albums, req.targetId)));
      albums.Remove(req.targetId);
      cr := Done(0, Snap());
    }

    method CommitAlbumSetName(req: ChangeRequest) returns (cr: CaseResult)
      requires req.changeType == AlbumSetName
      modifies albums
      ensures cr == AlbumCase(old(Snap()), req)
      ensures Snap() == if cr.Done? then cr.next else old(Snap())
    {
      var album := albums.FindItem(req.targetId);
      if album.None? {
        return Rejected("album not found");
      }
      albums.Update(req.targetId, album.value.(name := req.name));
      cr := Done(0, Snap());
    }

    method CommitAlbumSetArtist(req: ChangeRequest) returns (cr: CaseResult)
      requires req.changeType == AlbumSetArtist
      modifies albums, artists
      ensures cr == AlbumCase(old(Snap()), req)
      ensures Snap() == if cr.Done? then cr.next else old(Snap())
    {
      var t, d := req.targetId, req.detail;
      var album := albums.FindItem(t);
      if album.None? {
        return Rejected("album not found");
      }
      var o := album.value.artist;
      var oldArtist := artists.FindItem(o);
      if oldArtist.None? {
        return Rejected("oldArtist not found");
      }
      var newArtist := artists.FindItem(d);
      if newArtist.None? {
        return Rejected("newArtist not found");
      }
      albums.Update(t, album.value.(artist := d));
      artists.Update(o, artists.items[o].(albums := RemoveAll(artists.items[o].albums, t)));
      artists.Update(d, artists.items[d].(albums := artists.items[d].albums + [t]));
      cr := Done(0, Snap());
    }

    /** AlbumAddTag and AlbumRemoveTag: both ends of the tagging change together. */
    method CommitAlbumTagging(req: ChangeRequest) returns (cr: CaseResult)
      requires req.changeType == AlbumAddTag || req.changeType == AlbumRemoveTag
      modifies albums, tags
      ensures cr == AlbumCase(old(Snap()), req)
      ensures Snap() == if cr.Done? then cr.next else old(Snap())
    {
      var t, d := req.targetId, req.detail;
      var album := albums.FindItem(t);
      if album.None? {
        return Rejected("album not found");
      }
      var tag := tags.FindItem(d);
      if tag.None? {
        return Rejected("tag not found");
      }
      if req.changeType == AlbumAddTag {
        if d in album.value.tags {
          return Rejected("Tag already on album");
        }
        albums.Update(t, album.value.(tags := album.value.tags + [d]));
        tags.Update(d, tag.value.(albums := tag.value.albums + [t]));
      } else {
        if d !in album.value.tags {
          return Rejected("Tag not on Album");
        }
        albums.Update(t, album.value.(tags := RemoveAll(album.value.tags, d)));
        tags.Update(d, tag.value.(albums := RemoveAll(tag.value.albums, t)));
      }
      cr := Done(0, Snap());
    }

    // --- the artist cases

    /**
     * ArtistAddOrGet and ArtistAdd: the name lookup of ArtistAddOrGet finds an
     * id, but the case falls through into ArtistAdd, which creates a new
     * artist and overwrites the id.
     */
    method CommitArtistAdd(req: ChangeRequest) returns (cr: CaseResult)
      requires (req.changeType == ArtistAdd || req.changeType == ArtistAddOrGet) && Defaults()
      modifies artists
      ensures cr == ArtistCase(old(Snap()), req)
      ensures Snap() == if cr.Done? then cr.next else old(Snap())
    {
      var createdId := 0;
      if req.changeType == ArtistAddOrGet {
        var ids := artists.Ids();
        var i := 0;
        while i < |ids|
          invariant 0 <= i <= |ids|
        {
          if artists.items[ids[i]].name == req.name {
            createdId := ids[i];
            break;
          }
          i := i + 1;
        }
      }
      createdId := artists.Create();
      artists.Update(createdId, artists.items[createdId].(name := req.name));
      cr := Done(createdId, Snap());
    }

    method CommitArtistRemove(req: ChangeRequest) returns (cr: CaseResult)
      requires req.changeType == ArtistRemove
      modifies artists
      ensures cr == ArtistCase(old(Snap()), req)
      ensures Snap() == if cr.Done? then cr.next else old(Snap())
    {
      var artist := artists.FindItem(req.targetId);
      if artist.None? {
        return Rejected("artist not found");
      }
      if artist.value.albums != [] {
        return Rejected("Artist still has albums");
      }
      if artist.value.tags != [] {
        return Rejected("Artist still has tags");
      }
      artists.Remove(req.targetId);
      cr := Done(0, Snap());
    }

    method CommitArtistSetName(req: ChangeRequest) returns (cr: CaseResult)
      requires req.changeType == ArtistSetName
      modifies artists
      ensures cr == ArtistCase(old(Snap()), req)
      ensures Snap() == if cr.Done? then cr.next else old(Snap())
    {
      var artist := artists.FindItem(req.targetId);
      if artist.None? {
        return Rejected("artist not found");
      }
      artists.Update(req.targetId, artist.value.(name := req.name));
      cr := Done(0, Snap());
    }

    /** ArtistAddTag and ArtistRemoveTag: both ends of the tagging change together. */
    method CommitArtistTagging(req: ChangeRequest) returns (cr: CaseResult)
      requires req.changeType == ArtistAddTag || req.changeType == ArtistRemoveTag
      modifies artists, tags
      ensures cr == ArtistCase(old(Snap()), req)
      ensures Snap() == if cr.Done? then cr.next else old(Snap())
    {
      var t, d := req.targetId, req.detail;
      var artist := artists.FindItem(t);
      if artist.None? {
        return Rejected("artist not found");
      }
      var tag := tags.FindItem(d);
      if tag.None? {
        return Rejected("tag not found");
      }
      if req.changeType == ArtistAddTag {
        if d in artist.value.tags {
          return Rejected("Tag already on artist");
        }
        artists.Update(t, artist.value.(tags := artist.value.tags + [d]));
        tags.Update(d, tag.value.(artists := tag.value.artists + [t]));
      } else {
        if d !in artist.value.tags {
          return Rejected("Tag not on Artist");
        }
        artists.Update(t, artist.value.(tags := RemoveAll(artist.value.tags, d)));
        tags.Update(d, tag.value.(artists := RemoveAll(tag.value.artists, t)));
      }
      cr := Done(0, Snap());
    }

    // --- the tag cases

    method CommitTagAdd(req: ChangeRequest) returns (cr: CaseResult)
      requires req.changeType == TagAdd && Defaults()
      modifies this, tags
      ensures cr == TagCase(old(Snap()), req)
      ensures Snap() == if cr.Done? then cr.next else old(Snap())
    {
      var p := req.targetId;
      var parentTag := tags.FindItem(p);
      if parentTag.None? && p != 0 {
        return Rejected("Parent tag not found");
      }
      var id := tags.Create();
      tags.Update(id, tags.items[id].(name := req.name, parent := p));
      if parentTag.Some? {
        tags.Update(p, tags.items[p].(children := tags.items[p].children + [id]));
      } else {
        rootTags := rootTags + [id];
      }
      cr := Done(id, Snap());
    }

    method CommitTagRemove(req: ChangeRequest) returns (cr: CaseResult)
      requires req.changeType == TagRemove
      modifies this, tags
      ensures cr == TagCase(old(Snap()), req)
      ensures Snap() == if cr.Done? then cr.next else old(Snap())
    {
      var t := req.targetId;
      var tag := tags.FindItem(t);
      if tag.None? {
        return Rejected("tag not found");
      }
      if tag.value.children != [] {
        return Rejected("Tag still contains children");
      }
      if tag.value.songs != [] {
        return Rejected("Tag still used for songs");
      }
      if tag.value.albums != [] {
        return Rejected("Tag still used for albums");
      }
      if tag.value.artists != [] {
        return Rejected("Tag still used for artists");
      }
      var p := tag.value.parent;
      var parentTag := tags.FindItem(p);
      if parentTag.Some? {
        tags.Update(p, parentTag.value.(children := RemoveAll(parentTag.value.children, t)));
      } else {
        rootTags := RemoveAll(rootTags, t);
      }
      tags.Remove(t);
      cr := Done(0, Snap());
    }

    method CommitTagSetName(req: ChangeRequest) returns (cr: CaseResult)
      requires req.changeType == TagSetName
      modifies tags
      ensures cr == TagCase(old(Snap()), req)
      ensures Snap() == if cr.Done? then cr.next else old(Snap())
    {
      var tag := tags.FindItem(req.targetId);
      if tag.None? {
        return Rejected("tag not found");
      }
      tags.Update(req.targetId, tag.value.(name := req.name));
      cr := Done(0, Snap());
    }

    method CommitTagSetParent(req: ChangeRequest) returns (cr: CaseResult)
      requires req.changeType == TagSetParent
      requires 0 !in tags.items && TagForest.Acyclic(Parents(tags.items))
      modifies this, tags
      ensures cr == TagCase(old(Snap()), req)
      ensures Snap() == if cr.Done? then cr.next else old(Snap())
    {
      ghost var s := Snap();
      var t, d := req.targetId, req.detail;
      var tag := tags.FindItem(t);
      if tag.None? {
        return Rejected("tag not found");
      }
      var o := tag.value.parent;
      if d == o {
        return Rejected("Parent is the same");
      }
      if t == d {
        return Rejected("Can't be your own parent");
      }
      var oldParent := tags.FindItem(o);
      var newParent := tags.FindItem(d);
      var meets := ParentChainMeets(d, t);
      if meets {
        return Rejected("Detected circular tag parenting");
      }
      if o == 0 {
        rootTags := RemoveAll(rootTags, t);
      } else if oldParent.Some? {
        tags.Update(o, tags.items[o].(children := RemoveAll(tags.items[o].children, t)));
      }
      ghost var tags1, roots1 := tags.items, rootTags;
      assert tags1 == if o != 0 && o in s.tags.items then s.tags.items[o := s.tags.items[o].(children := RemoveAll(s.tags.items[o].children, t))] else s.tags.items;
      if d == 0 {
        rootTags := rootTags + [t];
      } else if newParent.Some? {
        tags.Update(d, tags.items[d].(children := tags.items[d].children + [t]));
      }
      assert tags.items == if d != 0 && d in tags1 then tags1[d := tags1[d].(children := tags1[d].children + [t])] else tags1;
      tags.Update(t, tags.items[t].(parent := d));
      assert Snap() == Reparent(s, t, d);
      cr := Done(0, Snap());
    }

    // --- the whole commit

    /** The change cases of commit, dispatched on the change type. */
    method CommitCaseStep(req: ChangeRequest) returns (cr: CaseResult, ghost ending: nat)
      requires Defaults() && 0 !in tags.items && TagForest.Acyclic(Parents(tags.items))
      modifies this, songs, albums, artists, tags, fileEndings
      ensures EndingChoice(old(fileEndings.items), req.name, ending)
      ensures cr == CommitCase(old(Snap()), req, ending)
      ensures Snap() == if cr.Done? then cr.next else old(Snap())
    {
      ghost var s := Snap();
      EndingExists(fileEndings.items, req.name);
      ending :| EndingChoice(fileEndings.items, req.name, ending);
      var t := req.changeType;
      match Group(t)
      case NoGroup =>
        cr := Rejected("No such LibraryChangeRequest");
      case SongGroup =>
        if t == SongSetFileEnding {
          cr, ending := CommitSongSetFileEnding(req);
        } else {
          if t == SongAdd {
            cr := CommitSongAdd(req);
          } else if t == SongRemove {
            cr := CommitSongRemove(req);
          } else if t == SongSetName || t == SongSetPosition || t == SongSetLength {
            cr := CommitSongSetField(req);
          } else if t == SongSetAlbum {
            cr := CommitSongSetAlbum(req);
          } else {
            cr := CommitSongTagging(req);
          }
          SongCaseIgnoresEnding(s, req, 0, ending);
        }
      case AlbumGroup =>
        if t == AlbumAdd {
          cr := CommitAlbumAdd(req);
        } else if t == AlbumRemove {
          cr := CommitAlbumRemove(req);
        } else if t == AlbumSetName {
          cr := CommitAlbumSetName(req);
        } else if t == AlbumSetArtist {
          cr := CommitAlbumSetArtist(req);
        } else {
          cr := CommitAlbumTagging(req);
        }
      case ArtistGroup =>
        if t == ArtistAdd || t == ArtistAddOrGet {
          cr := CommitArtistAdd(req);
        } else if t == ArtistRemove {
          cr := CommitArtistRemove(req);
        } else if t == ArtistSetName {
          cr := CommitArtistSetName(req);
        } else {
          cr := CommitArtistTagging(req);
        }
      case TagGroup =>
        if t == TagAdd {
          cr := CommitTagAdd(req);
        } else if t == TagRemove {
          cr := CommitTagRemove(req);
        } else if t == TagSetName {
          cr := CommitTagSetName(req);
        } else {
          cr := CommitTagSetParent(req);
        }
    }

    /** Commit in terms of the case's result: a rejection leaves the state, a success is stamped and logged. */
    static lemma CommitByCase(s: LibState, req: ChangeRequest, ending: nat, cr: CaseResult, out: Outcome, t: LibState)
      requires cr == CommitCase(s, req, ending)
      requires cr.Rejected? ==> out == Failed(cr.message) && t == s
      requires cr.Done? ==>
        var c := CommittedChange(req, s.revision + 1, cr.createdId);
        out == Committed(c) && t == cr.next.(revision := s.revision + 1, log := s.log + [c])
      ensures (out, t) == LibraryModel.Commit(s, req, ending)
    {
    }

    /** Library::commit(change) without the consistency bookkeeping: the case, then the stamp. */
    method CommitStep(req: ChangeRequest) returns (out: Outcome, ghost ending: nat)
      requires Defaults() && 0 !in tags.items && TagForest.Acyclic(Parents(tags.items))
      modifies this, songs, albums, artists, tags, fileEndings
      ensures EndingChoice(old(Snap()).fileEndings.items, req.name, ending)
      ensures (out, Snap()) == LibraryModel.Commit(old(Snap()), req, ending)
    {
      ghost var s := Snap();
      var rev, oldLog := revision, log;
      var cr;
      cr, ending := CommitCaseStep(req);
      if cr.Rejected? {
        out := Failed(cr.message);
      } else {
        var c := CommittedChange(req, rev + 1, cr.createdId);
        revision := rev + 1;
        log := oldLog + [c];
        out := Committed(c);
      }
      CommitByCase(s, req, ending, cr, out, Snap());
    }

    /**
     * Library::commit(change): a rejected change leaves the library as it was;
     * an accepted one is applied, stamped with the next revision and logged.
     * The library stays consistent either way.
     */
    method Commit(req: ChangeRequest) returns (out: Outcome, ghost ending: nat)
      requires Valid() && RequestAsserts(Snap(), req)
      modifies this, songs, albums, artists, tags, fileEndings
      ensures Valid()
      ensures EndingChoice(old(Snap()).fileEndings.items, req.name, ending)
      ensures (out, Snap()) == LibraryModel.Commit(old(Snap()), req, ending)
    {
      ghost var s := Snap();
      InvTagShape(s);
      out, ending := CommitStep(req);
      CommitInvariants.CommitKeepsInv(s, req, ending);
      CommitInvariants.CommitKeepsLog(s, req, ending);
    }

    /**
     * commit(QVector): replays the changes whose revision is the next one, in
     * list order, and skips the rest. A change the source would assert on
     * stops the replay.
     */
    method CommitAll(changes: seq<CommittedChange>) returns (stopped: bool, ghost endings: seq<nat>)
      requires Valid()
      modifies this, songs, albums, artists, tags, fileEndings
      ensures Valid()
      ensures |endings| == |changes|
      ensures (stopped, Snap()) == Replay(old(Snap()), changes, endings)
    {
      ghost var s := Snap();
      stopped := false;
      endings := [];
      var i := 0;
      while i < |changes| && !stopped
        invariant 0 <= i <= |changes| && |endings| == i
        invariant Valid()
        invariant (stopped, Snap()) == Replay(s, changes[..i], endings)
      {
        ghost var e;
        stopped, e := CommitNext(changes[i]);
        ReplaySnoc(s, changes, endings, i, e);
        endings := endings + [e];
        i := i + 1;
      }
      if stopped {
        ghost var done := endings;
        endings := endings + seq(|changes| - i, _ => 0);
        assert endings[..i] == done;
        StoppedStays(s, changes, endings, i);
      } else {
        assert changes[..|changes|] == changes;
      }
    }

    /** One round of commit(QVector): commit the change when its revision is the next one. */
    method CommitNext(c: CommittedChange) returns (stopped: bool, ghost e: nat)
      requires Valid()
      modifies this, songs, albums, artists, tags, fileEndings
      ensures Valid()
      ensures (stopped, Snap()) == ReplayStep(old(Snap()), c, e)
    {
      stopped := false;
      e := 0;
      if c.committedRevision == revision + 1 {
        if RequestAsserts(Snap(), c.request) {
          var out;
          out, e := Commit(c.request);
        } else {
          stopped := true;
        }
      }
    }

    /** committedChangesSince(revision): the log entries at or after it, in log order. */
    method CommittedChangesSince(r: nat) returns (ret: seq<CommittedChange>)
      ensures ret == Since(log, r)
    {
      ret := [];
      var i := 0;
      while i < |log|
        invariant 0 <= i <= |log|
        invariant ret == Since(log[..i], r)
      {
        assert log[..i + 1][..i] == log[..i];
        if log[i].committedRevision >= r {
          ret := ret + [log[i]];
        }
        i := i + 1;
      }
      assert log[..|log|] == log;
    }
  }

  /** Once the replay stops, the remaining changes leave it as it is. */
  lemma {:induction false} StoppedStays(s: LibState, cs: seq<CommittedChange>, es: seq<nat>, i: nat)
    requires i <= |cs| && |es| == |cs|
    requires Replay(s, cs[..i], es[..i]).0
    ensures Replay(s, cs, es) == Replay(s, cs[..i], es[..i])
    decreases |cs| - i
  {
    if i < |cs| {
      assert cs[..i + 1][..i] == cs[..i];
      assert es[..i + 1][..i] == es[..i];
      StoppedStays(s, cs, es, i + 1);
    } else {
      assert cs[..i] == cs && es[..i] == es;
    }
  }
}
