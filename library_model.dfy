// The music library of src/shared/library.cpp as values: its entities
// (src/shared/library.hpp), its change requests, its state, the invariant
// that ties the two ends of every link together, and what one
// Library::commit does to the state, change type by change type.
module LibraryModel {

  import opened LibraryTypes
  import TagForest

  datatype Song = Song(name: string, album: nat, fileEnding: nat, position: nat, secs: nat, tags: seq<nat>)
  datatype Album = Album(name: string, artist: nat, songs: seq<nat>, tags: seq<nat>)
  datatype Artist = Artist(name: string, albums: seq<nat>, tags: seq<nat>)
  datatype Tag = Tag(name: string, parent: nat, children: seq<nat>, songs: seq<nat>, albums: seq<nat>, artists: seq<nat>)

  // What `T()` yields for each entity. The source leaves the id members of a
  // default Song/Album/Tag uninitialised; commit overwrites them at once.
  const NewSong: Song := Song("", 0, 0, 0, 0, [])
  const NewAlbum: Album := Album("", 0, [], [])
  const NewArtist: Artist := Artist("", [], [])
  const NewTag: Tag := Tag("", 0, [], [], [], [])

  datatype ChangeType =
    | Invalid
    | SongAdd | SongRemove | SongSetName | SongSetPosition | SongSetLength
    | SongSetFileEnding | SongSetAlbum | SongAddTag | SongRemoveTag
    | AlbumAdd | AlbumRemove | AlbumSetName | AlbumSetArtist | AlbumAddTag | AlbumRemoveTag
    | ArtistAdd | ArtistAddOrGet | ArtistRemove | ArtistSetName | ArtistAddTag | ArtistRemoveTag
    | TagAdd | TagRemove | TagSetName | TagSetParent

  /** The part of Library::commit's switch that handles a change type. */
  datatype ChangeGroup = NoGroup | SongGroup | AlbumGroup | ArtistGroup | TagGroup

  function Group(t: ChangeType): ChangeGroup
  {
    match t
    case Invalid => NoGroup
    case SongAdd | SongRemove | SongSetName | SongSetPosition | SongSetLength
       | SongSetFileEnding | SongSetAlbum | SongAddTag | SongRemoveTag => SongGroup
    case AlbumAdd | AlbumRemove | AlbumSetName | AlbumSetArtist | AlbumAddTag | AlbumRemoveTag => AlbumGroup
    case ArtistAdd | ArtistAddOrGet | ArtistRemove | ArtistSetName | ArtistAddTag | ArtistRemoveTag => ArtistGroup
    case TagAdd | TagRemove | TagSetName | TagSetParent => TagGroup
  }

  /** LibraryChangeRequest: what to change, on which item, with which argument. */
  datatype ChangeRequest = ChangeRequest(changeType: ChangeType, targetId: nat, detail: nat, name: string)

  /** CommittedLibraryChange: the request, the revision it got, and the id it created (0 if none). */
  datatype CommittedChange = CommittedChange(request: ChangeRequest, committedRevision: nat, createdId: nat)

  /** Result<CommittedLibraryChange, QString>. */
  datatype Outcome = Committed(change: CommittedChange) | Failed(message: string)

  /** Everything commit reads and writes. */
  datatype LibState = LibState(
    songs: Items<Song>, albums: Items<Album>, artists: Items<Artist>, tags: Items<Tag>,
    fileEndings: Items<string>, rootTags: seq<nat>, revision: nat, log: seq<CommittedChange>)

  /** QVector::removeAll: every occurrence of x leaves, the rest keeps its order. */
  function RemoveAll(s: seq<nat>, x: nat): (r: seq<nat>)
    ensures forall y {:trigger y in r} :: y in r <==> y in s && y != x
    ensures |r| <= |s|
  {
    if s == [] then []
    else (if s[0] == x then [] else [s[0]]) + RemoveAll(s[1..], x)
  }

  /** The parent pointers of the tags. */
  function Parents(tags: map<nat, Tag>): (p: map<nat, nat>)
    ensures p.Keys == tags.Keys
    ensures forall t :: t in tags ==> p[t] == tags[t].parent
  {
    map t | t in tags :: tags[t].parent
  }

  // ---------------------------------------------------------------------
  // The invariant

  ghost predicate Numbered(s: LibState)
  {
    WellNumbered(s.songs) && WellNumbered(s.albums) && WellNumbered(s.artists)
    && WellNumbered(s.tags) && WellNumbered(s.fileEndings)
  }

  /**
   * A one-to-many link kept at both ends: every child names a parent that
   * exists and lists it, and every parent lists only children that name it.
   */
  ghost predicate OneToMany<C, P>(cs: map<nat, C>, ps: map<nat, P>, up: C -> nat, down: P -> seq<nat>)
  {
    (forall x :: x in cs ==> up(cs[x]) in ps && x in down(ps[up(cs[x])]))
    && (forall a, x :: a in ps && x in down(ps[a]) ==> x in cs && up(cs[x]) == a)
  }

  /** A tagging kept at both ends: a tag is on an item exactly when the item is on the tag. */
  ghost predicate ManyToMany<C>(cs: map<nat, C>, tags: map<nat, Tag>, ctags: C -> seq<nat>, titems: Tag -> seq<nat>)
  {
    (forall x, t :: x in cs && t in ctags(cs[x]) ==> t in tags && x in titems(tags[t]))
    && (forall t, x :: t in tags && x in titems(tags[t]) ==> x in cs && t in ctags(cs[x]))
  }

  // The link fields, as functions the two predicates above are applied to.
  function SongAlbum(x: Song): nat { x.album }
  function AlbumSongs(x: Album): seq<nat> { x.songs }
  function AlbumArtist(x: Album): nat { x.artist }
  function ArtistAlbums(x: Artist): seq<nat> { x.albums }
  function SongTags(x: Song): seq<nat> { x.tags }
  function AlbumTags(x: Album): seq<nat> { x.tags }
  function ArtistTags(x: Artist): seq<nat> { x.tags }
  function TagSongs(x: Tag): seq<nat> { x.songs }
  function TagAlbums(x: Tag): seq<nat> { x.albums }
  function TagArtists(x: Tag): seq<nat> { x.artists }

  /** Every parent is 0 or a tag, and no tag is its own ancestor. */
  ghost predicate ForestShape(tags: map<nat, Tag>)
  {
    TagForest.ParentsClosed(Parents(tags)) && TagForest.Acyclic(Parents(tags))
  }

  /** The root list holds tags only, and exactly the tags whose parent is 0. */
  ghost predicate RootsListed(tags: map<nat, Tag>, roots: seq<nat>)
  {
    (forall r :: r in roots ==> r in tags)
    && (forall t :: t in tags ==> (t in roots <==> tags[t].parent == 0))
  }

  /** Every child a tag lists is a tag that names it as its parent. */
  ghost predicate ChildrenNameParent(tags: map<nat, Tag>)
  {
    forall t, c :: t in tags && c in tags[t].children ==> c in tags && tags[c].parent == t
  }

  /** Every tag with a parent is listed among that parent's children. */
  ghost predicate ParentListsChild(tags: map<nat, Tag>)
  {
    forall t :: t in tags && tags[t].parent != 0 ==> tags[t].parent in tags && t in tags[tags[t].parent].children
  }

  /** The child lists match the parent pointers both ways. */
  ghost predicate ChildrenAgree(tags: map<nat, Tag>)
  {
    ChildrenNameParent(tags) && ParentListsChild(tags)
  }

  /** The tags form a forest whose roots are listed and whose child lists match the parent pointers. */
  ghost predicate TagTree(tags: map<nat, Tag>, roots: seq<nat>)
  {
    ForestShape(tags) && RootsListed(tags, roots) && ChildrenAgree(tags)
  }

  ghost predicate Inv(s: LibState)
  {
    Numbered(s)
    && OneToMany(s.songs.items, s.albums.items, SongAlbum, AlbumSongs)
    && OneToMany(s.albums.items, s.artists.items, AlbumArtist, ArtistAlbums)
    && ManyToMany(s.songs.items, s.tags.items, SongTags, TagSongs)
    && ManyToMany(s.albums.items, s.tags.items, AlbumTags, TagAlbums)
    && ManyToMany(s.artists.items, s.tags.items, ArtistTags, TagArtists)
    && TagTree(s.tags.items, s.rootTags)
  }

  /** The log holds revisions 1 .. revision, in order. */
  ghost predicate LogConsecutive(s: LibState)
  {
    |s.log| == s.revision && forall i :: 0 <= i < |s.log| ==> s.log[i].committedRevision == i + 1
  }

  /** A freshly constructed library. */
  function EmptyState(): LibState
  {
    LibState(Items(map[], 1), Items(map[], 1), Items(map[], 1), Items(map[], 1), Items(map[], 1), [], 0, [])
  }

  // ---------------------------------------------------------------------
  // What one commit does

  /** The result of a change case before the revision is stamped. */
  datatype CaseResult = Done(createdId: nat, next: LibState) | Rejected(message: string)

  /**
   * The key getOrCreateFileEndingId settles on: `ending` when that key already
   * maps to the name; otherwise no key maps to the name and a new one is made.
   */
  ghost predicate EndingChoice(fileEndings: map<nat, string>, name: string, ending: nat)
  {
    (ending in fileEndings && fileEndings[ending] == name)
    || (forall k :: k in fileEndings ==> fileEndings[k] != name)
  }

  /** getOrCreateFileEndingId on values: the id it returns and the collection after. */
  function FileEndingId(c: Items<string>, name: string, ending: nat): (res: (nat, Items<string>))
    ensures res.0 in res.1.items && res.1.items[res.0] == name
    ensures forall k :: k in c.items && k != res.0 ==> k in res.1.items && res.1.items[k] == c.items[k]
    ensures res.1 == c <==> ending in c.items && c.items[ending] == name
  {
    if ending in c.items && c.items[ending] == name then (ending, c)
    else
      var (id, c1) := CreateItem(c, "");
      (id, Items(c1.items[id := name], c1.nextId))
  }

  /** The ancestor walk meets t: some number of steps up from `from` lands on t. */
  ghost predicate ChainMeets(tags: map<nat, Tag>, from: nat, t: nat)
    ensures from == t ==> ChainMeets(tags, from, t)
    ensures from in tags && from != 0 && tags[from].parent == t ==> ChainMeets(tags, from, t)
  {
    assert TagForest.Walk(Parents(tags), from, 0) == from;
    assert from in tags && from != 0 ==> TagForest.Walk(Parents(tags), from, 1) == tags[from].parent;
    exists k: nat :: TagForest.Walk(Parents(tags), from, k) == t
  }

  function SetSongs(s: LibState, m: map<nat, Song>): LibState { s.(songs := Items(m, s.songs.nextId)) }
  function SetAlbums(s: LibState, m: map<nat, Album>): LibState { s.(albums := Items(m, s.albums.nextId)) }
  function SetArtists(s: LibState, m: map<nat, Artist>): LibState { s.(artists := Items(m, s.artists.nextId)) }
  function SetTags(s: LibState, m: map<nat, Tag>): LibState { s.(tags := Items(m, s.tags.nextId)) }

  // What each accepted change does to the state. Each map is written in the
  // order the source writes through its pointers, so ids that coincide behave
  // as they do there.

  /** SongAdd: a new song named `name` on album a, appended to the album's songs. */
  function AddSong(s: LibState, a: nat, name: string): (nat, LibState)
    requires a in s.albums.items
  {
    var (id, c) := CreateItem(s.songs, NewSong);
    var albums := s.albums.items;
    var st := s.(songs := Items(c.items[id := NewSong.(name := name, album := a)], c.nextId));
    (id, SetAlbums(st, albums[a := albums[a].(songs := albums[a].songs + [id])]))
  }

  /** SongRemove: the song leaves its album's list and the collection. */
  function RemoveSong(s: LibState, t: nat): LibState
    requires t in s.songs.items && s.songs.items[t].album in s.albums.items
  {
    var albums, a := s.albums.items, s.songs.items[t].album;
    var st := SetAlbums(s, albums[a := albums[a].(songs := RemoveAll(albums[a].songs, t))]);
    SetSongs(st, s.songs.items - {t})
  }

  /** SongSetAlbum: the song names album d, leaves its old album's list and joins d's. */
  function MoveSong(s: LibState, t: nat, d: nat): LibState
    requires t in s.songs.items && s.songs.items[t].album in s.albums.items && d in s.albums.items
  {
    var albums, o := s.albums.items, s.songs.items[t].album;
    var a1 := albums[o := albums[o].(songs := RemoveAll(albums[o].songs, t))];
    var a2 := a1[d := a1[d].(songs := a1[d].songs + [t])];
    SetAlbums(SetSongs(s, s.songs.items[t := s.songs.items[t].(album := d)]), a2)
  }

  /** SongAddTag: tag d appended to the song's tags, the song to the tag's songs. */
  function TagSong(s: LibState, t: nat, d: nat): LibState
    requires t in s.songs.items && d in s.tags.items
  {
    var songs, tags := s.songs.items, s.tags.items;
    var st := SetSongs(s, songs[t := songs[t].(tags := songs[t].tags + [d])]);
    SetTags(st, tags[d := tags[d].(songs := tags[d].songs + [t])])
  }

  /** SongRemoveTag: both lists lose every occurrence of the other end. */
  function UntagSong(s: LibState, t: nat, d: nat): LibState
    requires t in s.songs.items && d in s.tags.items
  {
    var songs, tags := s.songs.items, s.tags.items;
    var st := SetSongs(s, songs[t := songs[t].(tags := RemoveAll(songs[t].tags, d))]);
    SetTags(st, tags[d := tags[d].(songs := RemoveAll(tags[d].songs, t))])
  }

  /** AlbumAdd: a new album named `name` by artist a, appended to the artist's albums. */
  function AddAlbum(s: LibState, a: nat, name: string): (nat, LibState)
    requires a in s.artists.items
  {
    var (id, c) := CreateItem(s.albums, NewAlbum);
    var artists := s.artists.items;
    var st := s.(albums := Items(c.items[id := NewAlbum.(artist := a, name := name)], c.nextId));
    (id, SetArtists(st, artists[a := artists[a].(albums := artists[a].albums + [id])]))
  }

  /** AlbumRemove: the album leaves its artist's list and the collection. */
  function RemoveAlbum(s: LibState, t: nat): LibState
    requires t in s.albums.items && s.albums.items[t].artist in s.artists.items
  {
    var artists, a := s.artists.items, s.albums.items[t].artist;
    var st := SetArtists(s, artists[a := artists[a].(albums := RemoveAll(artists[a].albums, t))]);
    SetAlbums(st, s.albums.items - {t})
  }

  /** AlbumSetArtist: the album names artist d, leaves its old artist's list and joins d's. */
  function MoveAlbum(s: LibState, t: nat, d: nat): LibState
    requires t in s.albums.items && s.albums.items[t].artist in s.artists.items && d in s.artists.items
  {
    var artists, o := s.artists.items, s.albums.items[t].artist;
    var a1 := artists[o := artists[o].(albums := RemoveAll(artists[o].albums, t))];
    var a2 := a1[d := a1[d].(albums := a1[d].albums + [t])];
    SetArtists(SetAlbums(s, s.albums.items[t := s.albums.items[t].(artist := d)]), a2)
  }

  function TagAlbum(s: LibState, t: nat, d: nat): LibState
    requires t in s.albums.items && d in s.tags.items
  {
    var albums, tags := s.albums.items, s.tags.items;
    var st := SetAlbums(s, albums[t := albums[t].(tags := albums[t].tags + [d])]);
    SetTags(st, tags[d := tags[d].(albums := tags[d].albums + [t])])
  }

  function UntagAlbum(s: LibState, t: nat, d: nat): LibState
    requires t in s.albums.items && d in s.tags.items
  {
    var albums, tags := s.albums.items, s.tags.items;
    var st := SetAlbums(s, albums[t := albums[t].(tags := RemoveAll(albums[t].tags, d))]);
    SetTags(st, tags[d := tags[d].(albums := RemoveAll(tags[d].albums, t))])
  }

  /** ArtistAdd: a new artist named `name`. */
  function AddArtist(s: LibState, name: string): (nat, LibState)
  {
    var (id, c) := CreateItem(s.artists, NewArtist);
    (id, s.(artists := Items(c.items[id := NewArtist.(name := name)], c.nextId)))
  }

  function TagArtist(s: LibState, t: nat, d: nat): LibState
    requires t in s.artists.items && d in s.tags.items
  {
    var artists, tags := s.artists.items, s.tags.items;
    var st := SetArtists(s, artists[t := artists[t].(tags := artists[t].tags + [d])]);
    SetTags(st, tags[d := tags[d].(artists := tags[d].artists + [t])])
  }

  function UntagArtist(s: LibState, t: nat, d: nat): LibState
    requires t in s.artists.items && d in s.tags.items
  {
    var artists, tags := s.artists.items, s.tags.items;
    var st := SetArtists(s, artists[t := artists[t].(tags := RemoveAll(artists[t].tags, d))]);
    SetTags(st, tags[d := tags[d].(artists := RemoveAll(tags[d].artists, t))])
  }

  /** TagAdd: a new tag under p, in p's children, or in the root list when p is not a tag. */
  function AddTag(s: LibState, p: nat, name: string): (nat, LibState)
  {
    var (id, c) := CreateItem(s.tags, NewTag);
    var tags1 := c.items[id := NewTag.(name := name, parent := p)];
    if p in s.tags.items then
      (id, s.(tags := Items(tags1[p := tags1[p].(children := tags1[p].children + [id])], c.nextId)))
    else
      (id, s.(tags := Items(tags1, c.nextId), rootTags := s.rootTags + [id]))
  }

  /** TagRemove: the tag leaves its parent's children (or the root list) and the collection. */
  function RemoveTag(s: LibState, t: nat): LibState
    requires t in s.tags.items
  {
    var tags, p := s.tags.items, s.tags.items[t].parent;
    if p in tags then
      SetTags(s, tags[p := tags[p].(children := RemoveAll(tags[p].children, t))] - {t})
    else
      SetTags(s.(rootTags := RemoveAll(s.rootTags, t)), tags - {t})
  }

  /**
   * TagSetParent: off the old parent's children (or the root list when the
   * parent is 0), onto the new parent's children (or the root list when d is 0).
   */
  function Reparent(s: LibState, t: nat, d: nat): LibState
    requires t in s.tags.items
  {
    var tags, o := s.tags.items, s.tags.items[t].parent;
    var roots1 := if o == 0 then RemoveAll(s.rootTags, t) else s.rootTags;
    var tags1 := if o != 0 && o in tags then tags[o := tags[o].(children := RemoveAll(tags[o].children, t))] else tags;
    var roots2 := if d == 0 then roots1 + [t] else roots1;
    var tags2 := if d != 0 && d in tags1 then tags1[d := tags1[d].(children := tags1[d].children + [t])] else tags1;
    SetTags(s.(rootTags := roots2), tags2[t := tags2[t].(parent := d)])
  }

  /**
   * An accepted song change names an existing song (SongAdd: an existing
   * album) and reports no created id but for SongAdd; a removed song had no
   * tags; a refusal says why.
   */
  function SongCase(s: LibState, r: ChangeRequest, ending: nat): (res: CaseResult)
    requires Group(r.changeType) == SongGroup
    ensures res.Rejected? ==> res.message != ""
    ensures res.Done? ==> res.next.revision == s.revision && res.next.log == s.log
    ensures res.Done? ==> if r.changeType == SongAdd then r.targetId in s.albums.items
      else r.targetId in s.songs.items && res.createdId == 0
    ensures res.Done? && r.changeType == SongRemove ==> s.songs.items[r.targetId].tags == []
  {
    var songs, albums, tags := s.songs.items, s.albums.items, s.tags.items;
    var t, d := r.targetId, r.detail;
    match r.changeType
    case SongAdd =>
      if t !in albums then Rejected("album not found")
      else var (id, n) := AddSong(s, t, r.name); Done(id, n)
    case SongRemove =>
      if t !in songs then Rejected("song not found")
      else if songs[t].album !in albums then Rejected("album not found")
      else if songs[t].tags != [] then Rejected("Song still has tags")
      else Done(0, RemoveSong(s, t))
    case SongSetName =>
      if t !in songs then Rejected("song not found")
      else Done(0, SetSongs(s, songs[t := songs[t].(name := r.name)]))
    case SongSetPosition =>
      if t !in songs then Rejected("song not found")
      else Done(0, SetSongs(s, songs[t := songs[t].(position := d)]))
    case SongSetLength =>
      if t !in songs then Rejected("song not found")
      else Done(0, SetSongs(s, songs[t := songs[t].(secs := d)]))
    case SongSetFileEnding =>
      if t !in songs then Rejected("song not found")
      else
        var (fe, c) := FileEndingId(s.fileEndings, r.name, ending);
        Done(0, SetSongs(s.(fileEndings := c), songs[t := songs[t].(fileEnding := fe)]))
    case SongSetAlbum =>
      if t !in songs then Rejected("song not found")
      else if songs[t].album !in albums then Rejected("oldAlbum not found")
      else if d !in albums then Rejected("newAlbum not found")
      else Done(0, MoveSong(s, t, d))
    case SongAddTag =>
      if t !in songs then Rejected("song not found")
      else if d !in tags then Rejected("tag not found")
      else if d in songs[t].tags then Rejected("Tag already on song")
      else Done(0, TagSong(s, t, d))
    case SongRemoveTag =>
      if t !in songs then Rejected("song not found")
      else if d !in tags then Rejected("tag not found")
      else if d !in songs[t].tags then Rejected("Tag not on Song")
      else Done(0, UntagSong(s, t, d))
  }

  /**
   * An accepted album change names an existing album (AlbumAdd: an existing
   * artist); a removed album had neither songs nor tags.
   */
  function AlbumCase(s: LibState, r: ChangeRequest): (res: CaseResult)
    requires Group(r.changeType) == AlbumGroup
    ensures res.Rejected? ==> res.message != ""
    ensures res.Done? ==> res.next.revision == s.revision && res.next.log == s.log
    ensures res.Done? ==> if r.changeType == AlbumAdd then r.targetId in s.artists.items
      else r.targetId in s.albums.items && res.createdId == 0
    ensures res.Done? && r.changeType == AlbumRemove ==>
      s.albums.items[r.targetId].songs == [] && s.albums.items[r.targetId].tags == []
  {
    var albums, artists, tags := s.albums.items, s.artists.items, s.tags.items;
    var t, d := r.targetId, r.detail;
    match r.changeType
    case AlbumAdd =>
      if t !in artists then Rejected("artist not found")
      else var (id, n) := AddAlbum(s, t, r.name); Done(id, n)
    case AlbumRemove =>
      if t !in albums then Rejected("album not found")
      else if albums[t].artist !in artists then Rejected("artist not found")
      else if albums[t].songs != [] then Rejected("Album still contains songs")
      else if albums[t].tags != [] then Rejected("Album still has tags")
      else Done(0, RemoveAlbum(s, t))
    case AlbumSetName =>
      if t !in albums then Rejected("album not found")
      else Done(0, SetAlbums(s, albums[t := albums[t].(name := r.name)]))
    case AlbumSetArtist =>
      if t !in albums then Rejected("album not found")
      else if albums[t].artist !in artists then Rejected("oldArtist not found")
      else if d !in artists then Rejected("newArtist not found")
      else Done(0, MoveAlbum(s, t, d))
    case AlbumAddTag =>
      if t !in albums then Rejected("album not found")
      else if d !in tags then Rejected("tag not found")
      else if d in albums[t].tags then Rejected("Tag already on album")
      else Done(0, TagAlbum(s, t, d))
    case AlbumRemoveTag =>
      if t !in albums then Rejected("album not found")
      else if d !in tags then Rejected("tag not found")
      else if d !in albums[t].tags then Rejected("Tag not on Album")
      else Done(0, UntagAlbum(s, t, d))
  }

  /**
   * ArtistAdd and ArtistAddOrGet are always accepted; any other accepted
   * artist change names an existing artist, and a removed artist had neither
   * albums nor tags.
   */
  function ArtistCase(s: LibState, r: ChangeRequest): (res: CaseResult)
    requires Group(r.changeType) == ArtistGroup
    ensures res.Rejected? ==> res.message != ""
    ensures res.Done? ==> res.next.revision == s.revision && res.next.log == s.log
    ensures r.changeType in {ArtistAdd, ArtistAddOrGet} ==> res.Done? && res.createdId == s.artists.nextId
    ensures res.Done? && r.changeType !in {ArtistAdd, ArtistAddOrGet} ==> r.targetId in s.artists.items && res.createdId == 0
    ensures res.Done? && r.changeType == ArtistRemove ==>
      s.artists.items[r.targetId].albums == [] && s.artists.items[r.targetId].tags == []
  {
    var artists, tags := s.artists.items, s.tags.items;
    var t, d := r.targetId, r.detail;
    match r.changeType
    case ArtistAdd | ArtistAddOrGet =>
      // the name lookup of ArtistAddOrGet falls through into ArtistAdd
      var (id, n) := AddArtist(s, r.name); Done(id, n)
    case ArtistRemove =>
      if t !in artists then Rejected("artist not found")
      else if artists[t].albums != [] then Rejected("Artist still has albums")
      else if artists[t].tags != [] then Rejected("Artist still has tags")
      else Done(0, SetArtists(s, artists - {t}))
    case ArtistSetName =>
      if t !in artists then Rejected("artist not found")
      else Done(0, SetArtists(s, artists[t := artists[t].(name := r.name)]))
    case ArtistAddTag =>
      if t !in artists then Rejected("artist not found")
      else if d !in tags then Rejected("tag not found")
      else if d in artists[t].tags then Rejected("Tag already on artist")
      else Done(0, TagArtist(s, t, d))
    case ArtistRemoveTag =>
      if t !in artists then Rejected("artist not found")
      else if d !in tags then Rejected("tag not found")
      else if d !in artists[t].tags then Rejected("Tag not on Artist")
      else Done(0, UntagArtist(s, t, d))
  }

  /**
   * An accepted tag change names an existing tag (TagAdd: a tag or 0 as the
   * parent); a removed tag was unused; a new parent differs from the old one
   * and from the tag, and the tag is none of its ancestors.
   */
  ghost function TagCase(s: LibState, r: ChangeRequest): (res: CaseResult)
    requires Group(r.changeType) == TagGroup
    ensures res.Rejected? ==> res.message != ""
    ensures res.Done? ==> res.next.revision == s.revision && res.next.log == s.log
    ensures res.Done? ==> if r.changeType == TagAdd then r.targetId in s.tags.items || r.targetId == 0
      else r.targetId in s.tags.items && res.createdId == 0
    ensures res.Done? && r.changeType == TagRemove ==>
      var tag := s.tags.items[r.targetId];
      tag.children == [] && tag.songs == [] && tag.albums == [] && tag.artists == []
    ensures res.Done? && r.changeType == TagSetParent ==>
      && r.detail != s.tags.items[r.targetId].parent && r.detail != r.targetId
      && (r.detail != 0 ==> !ChainMeets(s.tags.items, r.detail, r.targetId))
  {
    var tags := s.tags.items;
    var t, d := r.targetId, r.detail;
    match r.changeType
    case TagAdd =>
      if t !in tags && t != 0 then Rejected("Parent tag not found")
      else var (id, n) := AddTag(s, t, r.name); Done(id, n)
    case TagRemove =>
      if t !in tags then Rejected("tag not found")
      else if tags[t].children != [] then Rejected("Tag still contains children")
      else if tags[t].songs != [] then Rejected("Tag still used for songs")
      else if tags[t].albums != [] then Rejected("Tag still used for albums")
      else if tags[t].artists != [] then Rejected("Tag still used for artists")
      else Done(0, RemoveTag(s, t))
    case TagSetName =>
      if t !in tags then Rejected("tag not found")
      else Done(0, SetTags(s, tags[t := tags[t].(name := r.name)]))
    case TagSetParent =>
      if t !in tags then Rejected("tag not found")
      else if d == tags[t].parent then Rejected("Parent is the same")
      else if t == d then Rejected("Can't be your own parent")
      else if d != 0 && ChainMeets(tags, d, t) then Rejected("Detected circular tag parenting")
      else Done(0, Reparent(s, t, d))
  }

  /** The change cases of Library::commit, before the revision is stamped. */
  ghost function CommitCase(s: LibState, r: ChangeRequest, ending: nat): (res: CaseResult)
    ensures Group(r.changeType) == NoGroup <==> res == Rejected("No such LibraryChangeRequest")
    ensures res.Done? ==> res.next.revision == s.revision && res.next.log == s.log
  {
    match Group(r.changeType)
    case NoGroup => Rejected("No such LibraryChangeRequest")
    case SongGroup => SongCase(s, r, ending)
    case AlbumGroup => AlbumCase(s, r)
    case ArtistGroup => ArtistCase(s, r)
    case TagGroup => TagCase(s, r)
  }

  /**
   * Library::commit(change): a rejected change leaves the state as it was; an
   * accepted one bumps the revision, stamps the change with it and logs it.
   */
  ghost function Commit(s: LibState, r: ChangeRequest, ending: nat): (res: (Outcome, LibState))
    ensures r.changeType == Invalid ==> res.0.Failed?
    ensures res.0.Failed? ==> res.1 == s
    ensures res.0.Committed? ==>
      res.0.change.request == r && res.0.change.committedRevision == s.revision + 1
      && res.1.revision == s.revision + 1 && res.1.log == s.log + [res.0.change]
  {
    match CommitCase(s, r, ending)
    case Rejected(m) => (Failed(m), s)
    case Done(id, next) =>
      var c := CommittedChange(r, s.revision + 1, id);
      (Committed(c), next.(revision := s.revision + 1, log := s.log + [c]))
  }

  /** The only precondition the source asserts on a request: a new parent is a tag or 0. */
  predicate RequestAsserts(s: LibState, r: ChangeRequest)
  {
    r.changeType == TagSetParent && r.targetId in s.tags.items
      && r.detail != s.tags.items[r.targetId].parent && r.detail != r.targetId
    ==> r.detail == 0 || r.detail in s.tags.items
  }
}
