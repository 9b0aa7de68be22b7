// The older library of src/dbcommon (src/dbcommon/src/library.cpp): the same
// songs, albums, artists and tags as the shared library, changed by
// LibraryChange values whose commit returns the new revision or 0. Its cases
// are stated here as the code writes them and compared with the shared
// library's: most agree, four lack a check the shared library has, and the
// list replay commits changes under revisions they did not carry.
module DbLibrary {

  import opened Wrappers
  import opened LibraryTypes
  import LM = LibraryModel
  import TagForest
  import SharedLibrary
  import DbItems

  /** LibraryChange::Type, in the order of src/dbcommon/include/library.hpp. */
  datatype ChangeType =
    | Invalid
    | SongAdd | SongRemove | SongSetName | SongSetPosition | SongSetLength
    | SongSetFileEnding | SongSetAlbum | SongAddTag | SongRemoveTag
    | AlbumAdd | AlbumRemove | AlbumSetName | AlbumSetArtist | AlbumAddTag | AlbumRemoveTag
    | ArtistAdd | ArtistRemove | ArtistSetName | ArtistAddTag | ArtistRemoveTag
    | TagAdd | TagRemove | TagSetName | TagSetParent

  /** LibraryChange: what to change, on which item, with which argument. */
  datatype LibraryChange = LibraryChange(changeType: ChangeType, subject: nat, detail: nat, name: string)

  /** CommittedLibraryChange: a change and the revision it was committed under. */
  datatype CommittedLibraryChange = CommittedLibraryChange(change: LibraryChange, revision: nat)

  /** isCreatingNewId: the four Add changes; every one of them also carries a name. */
  predicate IsCreatingNewId(t: ChangeType)
    ensures IsCreatingNewId(t) ==> HasStringArg(t)
  {
    match t
    case TagAdd | ArtistAdd | AlbumAdd | SongAdd => true
    case _ => false
  }

  /** hasStringArg: the changes whose name field is an argument. */
  predicate HasStringArg(t: ChangeType)
  {
    match t
    case TagAdd | ArtistAdd | AlbumAdd | SongAdd
       | SongSetFileEnding | TagSetName | ArtistSetName | AlbumSetName | SongSetName => true
    case _ => false
  }

  /** The part of the commit switch that handles a change type. */
  function Group(t: ChangeType): LM.ChangeGroup
  {
    match t
    case Invalid => LM.NoGroup
    case SongAdd | SongRemove | SongSetName | SongSetPosition | SongSetLength
       | SongSetFileEnding | SongSetAlbum | SongAddTag | SongRemoveTag => LM.SongGroup
    case AlbumAdd | AlbumRemove | AlbumSetName | AlbumSetArtist | AlbumAddTag | AlbumRemoveTag => LM.AlbumGroup
    case ArtistAdd | ArtistRemove | ArtistSetName | ArtistAddTag | ArtistRemoveTag => LM.ArtistGroup
    case TagAdd | TagRemove | TagSetName | TagSetParent => LM.TagGroup
  }

  /** The shared library's change type of the same name. */
  function Shared(t: ChangeType): (u: LM.ChangeType)
    ensures LM.Group(u) == Group(t)
    ensures u != LM.ArtistAddOrGet
  {
    match t
    case Invalid => LM.Invalid
    case SongAdd => LM.SongAdd
    case SongRemove => LM.SongRemove
    case SongSetName => LM.SongSetName
    case SongSetPosition => LM.SongSetPosition
    case SongSetLength => LM.SongSetLength
    case SongSetFileEnding => LM.SongSetFileEnding
    case SongSetAlbum => LM.SongSetAlbum
    case SongAddTag => LM.SongAddTag
    case SongRemoveTag => LM.SongRemoveTag
    case AlbumAdd => LM.AlbumAdd
    case AlbumRemove => LM.AlbumRemove
    case AlbumSetName => LM.AlbumSetName
    case AlbumSetArtist => LM.AlbumSetArtist
    case AlbumAddTag => LM.AlbumAddTag
    case AlbumRemoveTag => LM.AlbumRemoveTag
    case ArtistAdd => LM.ArtistAdd
    case ArtistRemove => LM.ArtistRemove
    case ArtistSetName => LM.ArtistSetName
    case ArtistAddTag => LM.ArtistAddTag
    case ArtistRemoveTag => LM.ArtistRemoveTag
    case TagAdd => LM.TagAdd
    case TagRemove => LM.TagRemove
    case TagSetName => LM.TagSetName
    case TagSetParent => LM.TagSetParent
  }

  /** The same change as a request of the shared library. */
  function Request(c: LibraryChange): LM.ChangeRequest
  {
    LM.ChangeRequest(Shared(c.changeType), c.subject, c.detail, c.name)
  }

  // ---------------------------------------------------------------------
  // The change cases of Library::commit, as written

  /**
   * An accepted song change names an existing song (SongAdd: an existing
   * album) and reports no created id but for SongAdd; a refusal says why.
   */
  function SongCase(s: LM.LibState, c: LibraryChange, ending: nat): (res: LM.CaseResult)
    requires Group(c.changeType) == LM.SongGroup
    ensures res.Rejected? ==> res.message != ""
    ensures res.Done? ==> res.next.revision == s.revision && res.next.log == s.log
    ensures res.Done? ==> if c.changeType == SongAdd then c.subject in s.albums.items
      else c.subject in s.songs.items && res.createdId == 0
  {
    var songs, albums, tags := s.songs.items, s.albums.items, s.tags.items;
    var t, d := c.subject, c.detail;
    match c.changeType
    case SongAdd =>
      if t !in albums then LM.Rejected("album not found")
      else var (id, n) := LM.AddSong(s, t, c.name); LM.Done(id, n)
    case SongRemove =>
      // no check that the song has no tags
      if t !in songs then LM.Rejected("song not found")
      else if songs[t].album !in albums then LM.Rejected("album not found")
      else LM.Done(0, LM.RemoveSong(s, t))
    case SongSetName =>
      if t !in songs then LM.Rejected("song not found")
      else LM.Done(0, LM.SetSongs(s, songs[t := songs[t].(name := c.name)]))
    case SongSetPosition =>
      if t !in songs then LM.Rejected("song not found")
      else LM.Done(0, LM.SetSongs(s, songs[t := songs[t].(position := d)]))
    case SongSetLength =>
      if t !in songs then LM.Rejected("song not found")
      else LM.Done(0, LM.SetSongs(s, songs[t := songs[t].(secs := d)]))
    case SongSetFileEnding =>
      if t !in songs then LM.Rejected("song not found")
      else
        var (fe, fes) := LM.FileEndingId(s.fileEndings, c.name, ending);
        LM.Done(0, LM.SetSongs(s.(fileEndings := fes), songs[t := songs[t].(fileEnding := fe)]))
    case SongSetAlbum =>
      if t !in songs then LM.Rejected("song not found")
      else if songs[t].album !in albums then LM.Rejected("oldAlbum not found")
      else if d !in albums then LM.Rejected("newAlbum not found")
      else LM.Done(0, LM.MoveSong(s, t, d))
    case SongAddTag =>
      if t !in songs then LM.Rejected("song not found")
      else if d !in tags then LM.Rejected("tag not found")
      else if d in songs[t].tags then LM.Rejected("Tag already on song")
      else LM.Done(0, LM.TagSong(s, t, d))
    case SongRemoveTag =>
      if t !in songs then LM.Rejected("song not found")
      else if d !in tags then LM.Rejected("tag not found")
      else if d !in songs[t].tags then LM.Rejected("Tag not on Song")
      else LM.Done(0, LM.UntagSong(s, t, d))
  }

  /**
   * AlbumRemove as written: the album leaves its artist's list, and then the
   * SONG with the album's id is erased; the album itself stays.
   */
  function RemoveAlbumAsWritten(s: LM.LibState, t: nat): (r: LM.LibState)
    requires t in s.albums.items && s.albums.items[t].artist in s.artists.items
    ensures r.albums == s.albums && t !in r.songs.items
    ensures s.albums.items[t].artist in r.artists.items && t !in r.artists.items[s.albums.items[t].artist].albums
  {
    var artists, a := s.artists.items, s.albums.items[t].artist;
    var st := LM.SetArtists(s, artists[a := artists[a].(albums := LM.RemoveAll(artists[a].albums, t))]);
    LM.SetSongs(st, s.songs.items - {t})
  }

  /**
   * An accepted album change names an existing album (AlbumAdd: an existing
   * artist); a removed album had no songs, tags or not.
   */
  function AlbumCase(s: LM.LibState, c: LibraryChange): (res: LM.CaseResult)
    requires Group(c.changeType) == LM.AlbumGroup
    ensures res.Rejected? ==> res.message != ""
    ensures res.Done? ==> res.next.revision == s.revision && res.next.log == s.log
    ensures res.Done? ==> if c.changeType == AlbumAdd then c.subject in s.artists.items
      else c.subject in s.albums.items && res.createdId == 0
    ensures res.Done? && c.changeType == AlbumRemove ==> s.albums.items[c.subject].songs == []
  {
    var albums, artists, tags := s.albums.items, s.artists.items, s.tags.items;
    var t, d := c.subject, c.detail;
    match c.changeType
    case AlbumAdd =>
      if t !in artists then LM.Rejected("artist not found")
      else var (id, n) := LM.AddAlbum(s, t, c.name); LM.Done(id, n)
    case AlbumRemove =>
      // no check that the album has no tags
      if t !in albums then LM.Rejected("album not found")
      else if albums[t].artist !in artists then LM.Rejected("artist not found")
      else if albums[t].songs != [] then LM.Rejected("Album still contains songs")
      else LM.Done(0, RemoveAlbumAsWritten(s, t))
    case AlbumSetName =>
      if t !in albums then LM.Rejected("album not found")
      else LM.Done(0, LM.SetAlbums(s, albums[t := albums[t].(name := c.name)]))
    case AlbumSetArtist =>
      if t !in albums then LM.Rejected("album not found")
      else if albums[t].artist !in artists then LM.Rejected("oldArtist not found")
      else if d !in artists then LM.Rejected("newArtist not found")
      else LM.Done(0, LM.MoveAlbum(s, t, d))
    case AlbumAddTag =>
      if t !in albums then LM.Rejected("album not found")
      else if d !in tags then LM.Rejected("tag not found")
      else if d in albums[t].tags then LM.Rejected("Tag already on album")
      else LM.Done(0, LM.TagAlbum(s, t, d))
    case AlbumRemoveTag =>
      if t !in albums then LM.Rejected("album not found")
      else if d !in tags then LM.Rejected("tag not found")
      else if d !in albums[t].tags then LM.Rejected("Tag not on Album")
      else LM.Done(0, LM.UntagAlbum(s, t, d))
  }

  /**
   * ArtistAdd is always accepted; any other accepted artist change names an
   * existing artist, and a removed artist had no albums, tags or not.
   */
  function ArtistCase(s: LM.LibState, c: LibraryChange): (res: LM.CaseResult)
    requires Group(c.changeType) == LM.ArtistGroup
    ensures res.Rejected? ==> res.message != ""
    ensures res.Done? ==> res.next.revision == s.revision && res.next.log == s.log
    ensures c.changeType == ArtistAdd ==> res.Done? && res.createdId == s.artists.nextId
    ensures res.Done? && c.changeType != ArtistAdd ==> c.subject in s.artists.items && res.createdId == 0
    ensures res.Done? && c.changeType == ArtistRemove ==> s.artists.items[c.subject].albums == []
  {
    var artists, tags := s.artists.items, s.tags.items;
    var t, d := c.subject, c.detail;
    match c.changeType
    case ArtistAdd =>
      var (id, n) := LM.AddArtist(s, c.name); LM.Done(id, n)
    case ArtistRemove =>
      // no check that the artist has no tags
      if t !in artists then LM.Rejected("artist not found")
      else if artists[t].albums != [] then LM.Rejected("Artist still has albums")
      else LM.Done(0, LM.SetArtists(s, artists - {t}))
    case ArtistSetName =>
      if t !in artists then LM.Rejected("artist not found")
      else LM.Done(0, LM.SetArtists(s, artists[t := artists[t].(name := c.name)]))
    case ArtistAddTag =>
      if t !in artists then LM.Rejected("artist not found")
      else if d !in tags then LM.Rejected("tag not found")
      else if d in artists[t].tags then LM.Rejected("Tag already on artist")
      else LM.Done(0, LM.TagArtist(s, t, d))
    case ArtistRemoveTag =>
      if t !in artists then LM.Rejected("artist not found")
      else if d !in tags then LM.Rejected("tag not found")
      else if d !in artists[t].tags then LM.Rejected("Tag not on Artist")
      else LM.Done(0, LM.UntagArtist(s, t, d))
  }

  /**
   * An accepted tag change names an existing tag (TagAdd: a tag or 0 as the
   * parent); a removed tag was unused; a new parent differs from the old one
   * and from the tag, with no check for cycles.
   */
  function TagCase(s: LM.LibState, c: LibraryChange): (res: LM.CaseResult)
    requires Group(c.changeType) == LM.TagGroup
    ensures res.Rejected? ==> res.message != ""
    ensures res.Done? ==> res.next.revision == s.revision && res.next.log == s.log
    ensures res.Done? ==> if c.changeType == TagAdd then c.subject in s.tags.items || c.subject == 0
      else c.subject in s.tags.items && res.createdId == 0
    ensures res.Done? && c.changeType == TagRemove ==>
      var tag := s.tags.items[c.subject];
      tag.children == [] && tag.songs == [] && tag.albums == [] && tag.artists == []
    ensures res.Done? && c.changeType == TagSetParent ==>
      c.detail != s.tags.items[c.subject].parent && c.detail != c.subject
  {
    var tags := s.tags.items;
    var t, d := c.subject, c.detail;
    match c.changeType
    case TagAdd =>
      if t !in tags && t != 0 then LM.Rejected("Parent tag not found")
      else var (id, n) := LM.AddTag(s, t, c.name); LM.Done(id, n)
    case TagRemove =>
      if t !in tags then LM.Rejected("tag not found")
      else if tags[t].children != [] then LM.Rejected("Tag still contains children")
      else if tags[t].songs != [] then LM.Rejected("Tag still used for songs")
      else if tags[t].albums != [] then LM.Rejected("Tag still used for albums")
      else if tags[t].artists != [] then LM.Rejected("Tag still used for artists")
      else LM.Done(0, LM.RemoveTag(s, t))
    case TagSetName =>
      if t !in tags then LM.Rejected("tag not found")
      else LM.Done(0, LM.SetTags(s, tags[t := tags[t].(name := c.name)]))
    case TagSetParent =>
      // no walk up the new parent's ancestors
      if t !in tags then LM.Rejected("tag not found")
      else if d == tags[t].parent then LM.Rejected("Parent is the same")
      else if t == d then LM.Rejected("Can't be your own parent")
      else LM.Done(0, LM.Reparent(s, t, d))
  }

  /** The switch of Library::commit; Invalid and unknown types return 0. */
  function Case(s: LM.LibState, c: LibraryChange, ending: nat): (res: LM.CaseResult)
    ensures Group(c.changeType) == LM.NoGroup ==> res.Rejected?
    ensures res.Done? ==> res.next.revision == s.revision && res.next.log == s.log
    ensures res.Done? && !IsCreatingNewId(c.changeType) ==> res.createdId == 0
  {
    match Group(c.changeType)
    case NoGroup => LM.Rejected("")
    case SongGroup => SongCase(s, c, ending)
    case AlbumGroup => AlbumCase(s, c)
    case ArtistGroup => ArtistCase(s, c)
    case TagGroup => TagCase(s, c)
  }

  /**
   * The Q_ASSERTs whose failure would dereference a null pointer: the old and
   * the new parent of a TagSetParent are each a tag or 0.
   */
  predicate DbAsserts(s: LM.LibState, c: LibraryChange)
  {
    var tags := s.tags.items;
    c.changeType == TagSetParent && c.subject in tags
      && c.detail != tags[c.subject].parent && c.detail != c.subject
    ==> (c.detail == 0 || c.detail in tags)
        && (tags[c.subject].parent == 0 || tags[c.subject].parent in tags)
  }

  /** A change without a string argument is committed the same whatever its name field holds. */
  lemma NameReadOnlyWithStringArg(s: LM.LibState, c: LibraryChange, name: string, ending: nat)
    requires !HasStringArg(c.changeType)
    ensures Case(s, c, ending) == Case(s, c.(name := name), ending)
  {
  }

  // ---------------------------------------------------------------------
  // What one commit does

  /** Everything this library keeps: the entities and revision (lib.log unused) and its own log. */
  datatype DbState = DbState(lib: LM.LibState, committed: seq<CommittedLibraryChange>)

  /** A new library: empty collections, revision 0, an empty log. */
  function EmptyDb(): DbState
  {
    DbState(LM.EmptyState(), [])
  }

  /** The log holds revisions 1 .. revision, in order. */
  ghost predicate DbLogConsecutive(d: DbState)
  {
    |d.committed| == d.lib.revision
    && forall i :: 0 <= i < |d.committed| ==> d.committed[i].revision == i + 1
  }

  /** The change as logged: an Add records the id it created in its detail. */
  function Logged(c: LibraryChange, createdId: nat): LibraryChange
  {
    if IsCreatingNewId(c.changeType) then c.(detail := createdId) else c
  }

  /**
   * Library::commit(change, createdId): 0 and nothing changed when a check
   * fails; otherwise the new revision, the id an Add created (written to
   * *createdId), and the change logged under that revision.
   */
  function CommitChange(d: DbState, c: LibraryChange, ending: nat): (res: (nat, Option<nat>, DbState))
    ensures res.0 == 0 <==> res.2 == d
    ensures res.1.Some? <==> res.0 != 0 && IsCreatingNewId(c.changeType)
    ensures res.0 != 0 ==>
      && res.0 == d.lib.revision + 1 && res.2.lib.revision == res.0 && res.2.lib.log == d.lib.log
      && |res.2.committed| == |d.committed| + 1 && res.2.committed[..|d.committed|] == d.committed
      && res.2.committed[|d.committed|].revision == res.0
  {
    match Case(d.lib, c, ending)
    case Rejected(_) => (0, None, d)
    case Done(id, next) =>
      var rev := d.lib.revision + 1;
      (rev, if IsCreatingNewId(c.changeType) then Some(id) else None,
       DbState(next.(revision := rev, log := d.lib.log), d.committed + [CommittedLibraryChange(Logged(c, id), rev)]))
  }

  /** A case never touches the revision or the shared log. */
  lemma CaseKeepsRevision(s: LM.LibState, c: LibraryChange, ending: nat)
    requires Case(s, c, ending).Done?
    ensures Case(s, c, ending).next.revision == s.revision
    ensures Case(s, c, ending).next.log == s.log
  {
  }

  /**
   * commit returns 0 exactly when it changes nothing; otherwise it returns the
   * next revision, logs the change under it and keeps the log numbered.
   */
  lemma CommitRevision(d: DbState, c: LibraryChange, ending: nat)
    requires DbLogConsecutive(d)
    ensures var (rev, created, n) := CommitChange(d, c, ending);
      (rev == 0 <==> n == d)
      && (rev != 0 ==> rev == d.lib.revision + 1 && n.lib.revision == rev
                       && n.committed[..|d.committed|] == d.committed && |n.committed| == |d.committed| + 1
                       && n.committed[|d.committed|].revision == rev
                       && n.committed[|d.committed|].change == (if created.Some? then c.(detail := created.value) else c))
      && (created.Some? <==> rev != 0 && IsCreatingNewId(c.changeType))
      && DbLogConsecutive(n)
  {
    var (rev, created, n) := CommitChange(d, c, ending);
    if rev != 0 {
      var cr := Case(d.lib, c, ending);
      CaseKeepsRevision(d.lib, c, ending);
      if !IsCreatingNewId(c.changeType) {
        assert Logged(c, cr.createdId) == c;
      }
      forall i | 0 <= i < |n.committed|
        ensures n.committed[i].revision == i + 1
      {
        if i < |d.committed| {
          assert n.committed[i] == d.committed[i];
        }
      }
    }
  }

  /** The id an Add reports is the counter of its collection, so it was not in use. */
  lemma CreatedIdIsFresh(d: DbState, c: LibraryChange, ending: nat)
    requires LM.Numbered(d.lib)
    requires CommitChange(d, c, ending).1.Some?
    ensures var id := CommitChange(d, c, ending).1.value; var s := d.lib;
      IsValidId(id)
      && match c.changeType
         case SongAdd => id == s.songs.nextId && id !in s.songs.items
         case AlbumAdd => id == s.albums.nextId && id !in s.albums.items
         case ArtistAdd => id == s.artists.nextId && id !in s.artists.items
         case _ => c.changeType == TagAdd && id == s.tags.nextId && id !in s.tags.items
  {
  }

  // ---------------------------------------------------------------------
  // Agreement with the shared library

  /** Every song case but SongRemove is the shared library's. */
  lemma SongCaseAgrees(s: LM.LibState, c: LibraryChange, ending: nat)
    requires Group(c.changeType) == LM.SongGroup && c.changeType != SongRemove
    ensures SongCase(s, c, ending) == LM.SongCase(s, Request(c), ending)
  {
  }

  /**
   * SongRemove accepts everything the shared one accepts, with the same
   * result, and beyond that exactly the songs that still have tags.
   */
  lemma SongRemoveDiffers(s: LM.LibState, c: LibraryChange, ending: nat)
    requires c.changeType == SongRemove
    ensures LM.SongCase(s, Request(c), ending).Done? ==> SongCase(s, c, ending) == LM.SongCase(s, Request(c), ending)
    ensures SongCase(s, c, ending).Done? && LM.SongCase(s, Request(c), ending).Rejected?
      <==> c.subject in s.songs.items && s.songs.items[c.subject].album in s.albums.items
           && s.songs.items[c.subject].tags != []
  {
  }

  /** Every album case but AlbumRemove is the shared library's. */
  lemma AlbumCaseAgrees(s: LM.LibState, c: LibraryChange)
    requires Group(c.changeType) == LM.AlbumGroup && c.changeType != AlbumRemove
    ensures AlbumCase(s, c) == LM.AlbumCase(s, Request(c))
  {
  }

  /** Every artist case but ArtistRemove is the shared library's. */
  lemma ArtistCaseAgrees(s: LM.LibState, c: LibraryChange)
    requires Group(c.changeType) == LM.ArtistGroup && c.changeType != ArtistRemove
    ensures ArtistCase(s, c) == LM.ArtistCase(s, Request(c))
  {
  }

  /**
   * ArtistRemove accepts everything the shared one accepts, with the same
   * result, and beyond that exactly the artists that still have tags.
   */
  lemma ArtistRemoveDiffers(s: LM.LibState, c: LibraryChange)
    requires c.changeType == ArtistRemove
    ensures LM.ArtistCase(s, Request(c)).Done? ==> ArtistCase(s, c) == LM.ArtistCase(s, Request(c))
    ensures ArtistCase(s, c).Done? && LM.ArtistCase(s, Request(c)).Rejected?
      <==> c.subject in s.artists.items && s.artists.items[c.subject].albums == []
           && s.artists.items[c.subject].tags != []
  {
  }

  /** Every tag case but TagSetParent is the shared library's. */
  lemma TagCaseAgrees(s: LM.LibState, c: LibraryChange)
    requires Group(c.changeType) == LM.TagGroup && c.changeType != TagSetParent
    ensures TagCase(s, c) == LM.TagCase(s, Request(c))
  {
  }

  /** TagSetParent accepts what the shared one accepts, with the same result, and also every cycle. */
  lemma TagSetParentDiffers(s: LM.LibState, c: LibraryChange)
    requires c.changeType == TagSetParent
    ensures LM.TagCase(s, Request(c)).Done? ==> TagCase(s, c) == LM.TagCase(s, Request(c))
    ensures TagCase(s, c).Done? && LM.TagCase(s, Request(c)).Rejected?
      <==> c.detail != 0 && LM.ChainMeets(s.tags.items, c.detail, c.subject)
           && c.subject in s.tags.items && c.detail != s.tags.items[c.subject].parent && c.detail != c.subject
  {
  }

  // ---------------------------------------------------------------------
  // Replaying a list and reading the log

  /**
   * commit(QVector) as written: every change whose revision is above the
   * current one is committed, whatever revision that commit then gets. A
   * change that would dereference a null parent stops the replay.
   */
  ghost function Replay(d: DbState, cs: seq<CommittedLibraryChange>, es: seq<nat>): (bool, DbState)
    requires |es| == |cs|
    decreases |cs|
  {
    if cs == [] then (false, d)
    else
      var (stopped, t) := Replay(d, cs[..|cs| - 1], es[..|es| - 1]);
      if stopped then (stopped, t) else ReplayStep(t, cs[|cs| - 1], es[|es| - 1])
  }

  ghost function ReplayStep(t: DbState, c: CommittedLibraryChange, e: nat): (bool, DbState)
  {
    if c.revision <= t.lib.revision then (false, t)
    else if !DbAsserts(t.lib, c.change) then (true, t)
    else (false, CommitChange(t, c.change, e).2)
  }

  lemma ReplaySnoc(d: DbState, cs: seq<CommittedLibraryChange>, es: seq<nat>, i: nat, e: nat)
    requires i < |cs| && |es| == i
    ensures Replay(d, cs[..i + 1], es + [e])
      == (var (stopped, t) := Replay(d, cs[..i], es); if stopped then (stopped, t) else ReplayStep(t, cs[i], e))
  {
    assert cs[..i + 1][..i] == cs[..i];
    assert (es + [e])[..i] == es;
  }

  lemma {:induction false} StoppedStays(d: DbState, cs: seq<CommittedLibraryChange>, es: seq<nat>, i: nat)
    requires i <= |cs| && |es| == |cs|
    requires Replay(d, cs[..i], es[..i]).0
    ensures Replay(d, cs, es) == Replay(d, cs[..i], es[..i])
    decreases |cs| - i
  {
    if i < |cs| {
      assert cs[..i + 1][..i] == cs[..i];
      assert es[..i + 1][..i] == es[..i];
      StoppedStays(d, cs, es, i + 1);
    } else {
      assert cs[..i] == cs && es[..i] == es;
    }
  }

  /** The replay keeps the log numbered 1 .. revision. */
  lemma {:induction false} ReplayKeepsLog(d: DbState, cs: seq<CommittedLibraryChange>, es: seq<nat>)
    requires |es| == |cs| && DbLogConsecutive(d)
    ensures DbLogConsecutive(Replay(d, cs, es).1)
    decreases |cs|
  {
    if cs != [] {
      ReplayKeepsLog(d, cs[..|cs| - 1], es[..|es| - 1]);
      var (stopped, t) := Replay(d, cs[..|cs| - 1], es[..|es| - 1]);
      if !stopped {
        CommitRevision(t, cs[|cs| - 1].change, es[|es| - 1]);
      }
    }
  }

  /** committedChangesSince on values: the log entries whose revision is at least r, in log order. */
  function Since(log: seq<CommittedLibraryChange>, r: nat): (res: seq<CommittedLibraryChange>)
    ensures |res| <= |log|
    ensures forall i :: 0 <= i < |res| ==> res[i].revision >= r
    decreases |log|
  {
    if log == [] then []
    else
      var last := log[|log| - 1];
      Since(log[..|log| - 1], r) + (if last.revision >= r then [last] else [])
  }

  /** The entries kept are exactly those at or after revision r. */
  lemma {:induction false} SinceMembers(log: seq<CommittedLibraryChange>, r: nat)
    ensures forall c :: c in Since(log, r) <==> c in log && c.revision >= r
    decreases |log|
  {
    if log != [] {
      var init := log[..|log| - 1];
      SinceMembers(init, r);
      assert log == init + [log[|log| - 1]];
    }
  }

  // ---------------------------------------------------------------------
  // The object

  class Library {
    const songs: DbItems.ItemCollection<LM.Song>
    const albums: DbItems.ItemCollection<LM.Album>
    const artists: DbItems.ItemCollection<LM.Artist>
    const tags: DbItems.ItemCollection<LM.Tag>
    const fileEndings: DbItems.ItemCollection<string>
    var rootTags: seq<nat>
    var revision: nat
    var committedChanges: seq<CommittedLibraryChange>

    /** The whole library as a value. */
    function Snap(): DbState
      reads this, songs, albums, artists, tags, fileEndings
    {
      DbState(LM.LibState(songs.Contents(), albums.Contents(), artists.Contents(), tags.Contents(),
                          fileEndings.Contents(), rootTags, revision, []), committedChanges)
    }

    /** Each collection creates the default item of its type. */
    predicate Defaults()
    {
      songs.defaultItem == LM.NewSong && albums.defaultItem == LM.NewAlbum && artists.defaultItem == LM.NewArtist
      && tags.defaultItem == LM.NewTag && fileEndings.defaultItem == ""
    }

    /** The class invariant: the log is numbered 1 .. revision. */
    ghost predicate Valid()
      reads this, songs, albums, artists, tags, fileEndings
    {
      Defaults() && Snap().lib.log == [] && DbLogConsecutive(Snap())
    }

    constructor ()
      ensures Snap() == EmptyDb()
      ensures Valid()
    {
      songs := new DbItems.ItemCollection(LM.NewSong);
      albums := new DbItems.ItemCollection(LM.NewAlbum);
      artists := new DbItems.ItemCollection(LM.NewArtist);
      tags := new DbItems.ItemCollection(LM.NewTag);
      fileEndings := new DbItems.ItemCollection("");
      rootTags := [];
      revision := 0;
      committedChanges := [];
    }

    /**
     * The search of getFileEnding: the first key in hash order whose value is
     * the ending; when there is none, the entry is created by the case.
     */
    method FindFileEnding(name: string) returns (ending: nat)
      ensures LM.EndingChoice(fileEndings.items, name, ending)
    {
      var rest := fileEndings.items.Keys;
      while rest != {}
        invariant rest <= fileEndings.items.Keys
        invariant forall k :: k in fileEndings.items && k !in rest ==> fileEndings.items[k] != name
        decreases |rest|
      {
        var k :| k in rest;
        if fileEndings.items[k] == name {
          return k;
        }
        rest := rest - {k};
      }
      ending := 0;
    }

    /** Writes an accepted case's state through to the collections and the root list. */
    method Store(n: LM.LibState)
      modifies this, songs, albums, artists, tags, fileEndings
      ensures Snap() == old(Snap()).(lib := n.(revision := old(revision), log := []))
    {
      songs.items, songs.nextId := n.songs.items, n.songs.nextId;
      albums.items, albums.nextId := n.albums.items, n.albums.nextId;
      artists.items, artists.nextId := n.artists.items, n.artists.nextId;
      tags.items, tags.nextId := n.tags.items, n.tags.nextId;
      fileEndings.items, fileEndings.nextId := n.fileEndings.items, n.fileEndings.nextId;
      rootTags := n.rootTags;
    }

    /** Library::commit(change, createdId): the new revision, or 0 when a check fails. */
    method Commit(change: LibraryChange) returns (rev: nat, createdId: Option<nat>, ghost ending: nat)
      requires Valid()
      requires DbAsserts(Snap().lib, change)
      modifies this, songs, albums, artists, tags, fileEndings
      ensures Valid()
      ensures (rev, createdId, Snap()) == CommitChange(old(Snap()), change, ending)
    {
      ghost var d := Snap();
      var e := 0;
      if change.changeType == SongSetFileEnding {
        e := FindFileEnding(change.name);
      }
      ending := e;
      var cr := Case(Snap().lib, change, e);
      if cr.Rejected? {
        return 0, None, ending;
      }
      CaseKeepsRevision(d.lib, change, e);
      Store(cr.next);
      revision := revision + 1;
      committedChanges := committedChanges + [CommittedLibraryChange(Logged(change, cr.createdId), revision)];
      rev := revision;
      createdId := if IsCreatingNewId(change.changeType) then Some(cr.createdId) else None;
      CommitRevision(d, change, e);
    }

    /** commit(QVector): commits every change whose revision is above the current one. */
    method CommitAll(changes: seq<CommittedLibraryChange>) returns (stopped: bool, ghost endings: seq<nat>)
      requires Valid()
      modifies this, songs, albums, artists, tags, fileEndings
      ensures Valid()
      ensures |endings| == |changes|
      ensures (stopped, Snap()) == Replay(old(Snap()), changes, endings)
    {
      ghost var s := Snap();
      stopped := false;
      endings := [];
      var i := 0;
      while i < |changes| && !stopped
        invariant 0 <= i <= |changes| && |endings| == i
        invariant Valid()
        invariant (stopped, Snap()) == Replay(s, changes[..i], endings)
      {
        ghost var e;
        stopped, e := CommitNext(changes[i]);
        ReplaySnoc(s, changes, endings, i, e);
        endings := endings + [e];
        i := i + 1;
      }
      if stopped {
        ghost var done := endings;
        endings := endings + seq(|changes| - i, _ => 0);
        assert endings[..i] == done;
        StoppedStays(s, changes, endings, i);
      } else {
        assert changes[..|changes|] == changes;
      }
    }

    /** One round of commit(QVector). */
    method CommitNext(c: CommittedLibraryChange) returns (stopped: bool, ghost e: nat)
      requires Valid()
      modifies this, songs, albums, artists, tags, fileEndings
      ensures Valid()
      ensures (stopped, Snap()) == ReplayStep(old(Snap()), c, e)
    {
      stopped := false;
      e := 0;
      if c.revision > revision {
        if DbAsserts(Snap().lib, c.change) {
          var rev, created;
          rev, created, e := Commit(c.change);
        } else {
          stopped := true;
        }
      }
    }

    /** committedChangesSince(revision): the log entries at or after it, in log order. */
    method CommittedChangesSince(r: nat) returns (ret: seq<CommittedLibraryChange>)
      ensures ret == Since(committedChanges, r)
    {
      ret := [];
      var i := 0;
      while i < |committedChanges|
        invariant 0 <= i <= |committedChanges|
        invariant ret == Since(committedChanges[..i], r)
      {
        assert committedChanges[..i + 1][..i] == committedChanges[..i];
        if committedChanges[i].revision >= r {
          ret := ret + [committedChanges[i]];
        }
        i := i + 1;
      }
      assert committedChanges[..|committedChanges|] == committedChanges;
    }
  }
}
