// Library::commit keeps the library consistent (src/shared/library.cpp:52-341):
// both ends of every link agree, ids stay below their counters, and the tags
// stay a forest. One lemma per group of change types, then the whole commit.
module LibraryInvariants {

  import opened LibraryTypes
  import opened LibraryModel
  import TagForest

  /** Writing one tag changes the parent map at that tag only. */
  lemma ParentsUpdate(tags: map<nat, Tag>, t: nat, v: Tag)
    ensures Parents(tags[t := v]) == Parents(tags)[t := v.parent]
  {
  }

  /** Removing one tag removes it from the parent map. */
  lemma ParentsRemove(tags: map<nat, Tag>, t: nat)
    ensures Parents(tags - {t}) == Parents(tags) - {t}
  {
  }

  /** Rewriting a tag with its parent kept leaves the forest exactly as it was. */
  lemma ParentsKept(tags: map<nat, Tag>, t: nat, v: Tag)
    requires t in tags && v.parent == tags[t].parent
    ensures Parents(tags[t := v]) == Parents(tags)
  {
    ParentsUpdate(tags, t, v);
  }

  /** Changing only the item lists of a tag keeps the tag tree. */
  lemma TagTreeKeptByItemLists(tags: map<nat, Tag>, roots: seq<nat>, t: nat, v: Tag)
    requires TagTree(tags, roots) && t in tags
    requires v.parent == tags[t].parent && v.children == tags[t].children
    ensures TagTree(tags[t := v], roots)
  {
    ParentsKept(tags, t, v);
  }

  // ---------------------------------------------------------------------
  // One-to-many links (song -> album, album -> artist)

  /** A child rewritten with the same parent keeps the link. */
  lemma ChildKept<C, P>(cs: map<nat, C>, ps: map<nat, P>, up: C -> nat, down: P -> seq<nat>, x: nat, v: C)
    requires OneToMany(cs, ps, up, down) && x in cs && up(v) == up(cs[x])
    ensures OneToMany(cs[x := v], ps, up, down)
  {
  }

  /** A parent rewritten with the same child list keeps the link. */
  lemma ParentKept<C, P>(cs: map<nat, C>, ps: map<nat, P>, up: C -> nat, down: P -> seq<nat>, a: nat, v: P)
    requires OneToMany(cs, ps, up, down) && a in ps && down(v) == down(ps[a])
    ensures OneToMany(cs, ps[a := v], up, down)
  {
  }

  /** Children rewritten, none of them changing parent, keep the link. */
  lemma ChildrenSameUp<C, P>(cs: map<nat, C>, cs': map<nat, C>, ps: map<nat, P>, up: C -> nat, down: P -> seq<nat>)
    requires OneToMany(cs, ps, up, down) && cs'.Keys == cs.Keys
    requires forall x :: x in cs ==> up(cs'[x]) == up(cs[x])
    ensures OneToMany(cs', ps, up, down)
  {
  }

  /** A fresh child under an existing parent, appended to that parent's list. */
  lemma AddChild<C, P>(cs: map<nat, C>, ps: map<nat, P>, up: C -> nat, down: P -> seq<nat>,
                       id: nat, v: C, a: nat, pv: P)
    requires OneToMany(cs, ps, up, down) && id !in cs && a in ps
    requires up(v) == a && down(pv) == down(ps[a]) + [id]
    ensures OneToMany(cs[id := v], ps[a := pv], up, down)
  {
  }

  /** A child taken out of its collection and out of its parent's list. */
  lemma RemoveChild<C, P>(cs: map<nat, C>, ps: map<nat, P>, up: C -> nat, down: P -> seq<nat>, x: nat, pv: P)
    requires OneToMany(cs, ps, up, down) && x in cs
    requires down(pv) == RemoveAll(down(ps[up(cs[x])]), x)
    ensures OneToMany(cs - {x}, ps[up(cs[x]) := pv], up, down)
  {
  }

  /** A child moved from its parent's list to the end of another parent's list. */
  lemma MoveChild<C, P>(cs: map<nat, C>, ps: map<nat, P>, up: C -> nat, down: P -> seq<nat>,
                        x: nat, v: C, d: nat, po: P, pd: P)
    requires OneToMany(cs, ps, up, down) && x in cs && d in ps && up(v) == d
    requires down(po) == RemoveAll(down(ps[up(cs[x])]), x)
    requires down(pd) == down(ps[up(cs[x]) := po][d]) + [x]
    ensures OneToMany(cs[x := v], ps[up(cs[x]) := po][d := pd], up, down)
  {
  }

  /** A fresh parent with an empty list. */
  lemma AddParent<C, P>(cs: map<nat, C>, ps: map<nat, P>, up: C -> nat, down: P -> seq<nat>, id: nat, pv: P)
    requires OneToMany(cs, ps, up, down) && id !in ps && down(pv) == []
    ensures OneToMany(cs, ps[id := pv], up, down)
  {
  }

  /** A parent with an empty list taken out. */
  lemma RemoveParent<C, P>(cs: map<nat, C>, ps: map<nat, P>, up: C -> nat, down: P -> seq<nat>, a: nat)
    requires OneToMany(cs, ps, up, down) && a in ps && down(ps[a]) == []
    ensures OneToMany(cs, ps - {a}, up, down)
  {
  }

  // ---------------------------------------------------------------------
  // Taggings (songs, albums, artists <-> tags)

  lemma ItemKept<C>(cs: map<nat, C>, tags: map<nat, Tag>, ctags: C -> seq<nat>, titems: Tag -> seq<nat>, x: nat, v: C)
    requires ManyToMany(cs, tags, ctags, titems) && x in cs && ctags(v) == ctags(cs[x])
    ensures ManyToMany(cs[x := v], tags, ctags, titems)
  {
  }

  lemma TagKept<C>(cs: map<nat, C>, tags: map<nat, Tag>, ctags: C -> seq<nat>, titems: Tag -> seq<nat>, t: nat, v: Tag)
    requires ManyToMany(cs, tags, ctags, titems) && t in tags && titems(v) == titems(tags[t])
    ensures ManyToMany(cs, tags[t := v], ctags, titems)
  {
  }

  /** Tagging: the tag appended to the item's list and the item to the tag's list. */
  lemma Link<C>(cs: map<nat, C>, tags: map<nat, Tag>, ctags: C -> seq<nat>, titems: Tag -> seq<nat>,
                x: nat, t: nat, v: C, tv: Tag)
    requires ManyToMany(cs, tags, ctags, titems) && x in cs && t in tags
    requires ctags(v) == ctags(cs[x]) + [t] && titems(tv) == titems(tags[t]) + [x]
    ensures ManyToMany(cs[x := v], tags[t := tv], ctags, titems)
  {
  }

  /** Untagging: every occurrence removed from both lists. */
  lemma Unlink<C>(cs: map<nat, C>, tags: map<nat, Tag>, ctags: C -> seq<nat>, titems: Tag -> seq<nat>,
                  x: nat, t: nat, v: C, tv: Tag)
    requires ManyToMany(cs, tags, ctags, titems) && x in cs && t in tags
    requires ctags(v) == RemoveAll(ctags(cs[x]), t) && titems(tv) == RemoveAll(titems(tags[t]), x)
    ensures ManyToMany(cs[x := v], tags[t := tv], ctags, titems)
  {
  }

  /** Items rewritten, none of them changing tags, keep the tagging. */
  lemma ItemsSameTags<C>(cs: map<nat, C>, cs': map<nat, C>, tags: map<nat, Tag>, ctags: C -> seq<nat>, titems: Tag -> seq<nat>)
    requires ManyToMany(cs, tags, ctags, titems) && cs'.Keys == cs.Keys
    requires forall x :: x in cs ==> ctags(cs'[x]) == ctags(cs[x])
    ensures ManyToMany(cs', tags, ctags, titems)
  {
  }

  lemma AddUntagged<C>(cs: map<nat, C>, tags: map<nat, Tag>, ctags: C -> seq<nat>, titems: Tag -> seq<nat>, id: nat, v: C)
    requires ManyToMany(cs, tags, ctags, titems) && id !in cs && ctags(v) == []
    ensures ManyToMany(cs[id := v], tags, ctags, titems)
  {
  }

  lemma RemoveUntagged<C>(cs: map<nat, C>, tags: map<nat, Tag>, ctags: C -> seq<nat>, titems: Tag -> seq<nat>, x: nat)
    requires ManyToMany(cs, tags, ctags, titems) && x in cs && ctags(cs[x]) == []
    ensures ManyToMany(cs - {x}, tags, ctags, titems)
  {
  }

  lemma AddUnusedTag<C>(cs: map<nat, C>, tags: map<nat, Tag>, ctags: C -> seq<nat>, titems: Tag -> seq<nat>, id: nat, tv: Tag)
    requires ManyToMany(cs, tags, ctags, titems) && id !in tags && titems(tv) == []
    ensures ManyToMany(cs, tags[id := tv], ctags, titems)
  {
  }

  lemma RemoveUnusedTag<C>(cs: map<nat, C>, tags: map<nat, Tag>, ctags: C -> seq<nat>, titems: Tag -> seq<nat>, t: nat)
    requires ManyToMany(cs, tags, ctags, titems) && t in tags && titems(tags[t]) == []
    ensures ManyToMany(cs, tags - {t}, ctags, titems)
  {
  }
}

module LibraryCaseInvariants {

  import opened LibraryTypes
  import opened LibraryModel
  import opened LibraryInvariants
  import TagForest

  /** A collection whose keys shrink or stay, under the same counter, stays well numbered. */
  lemma SubKeysNumbered<T>(c: Items<T>, m: map<nat, T>)
    requires WellNumbered(c) && m.Keys <= c.items.Keys
    ensures WellNumbered(Items(m, c.nextId))
  {
  }

  /** A tagging step whose other links and tag tree are unaffected. */
  lemma TagListsOnlyKeepInv(s: LibState, n: LibState, d: nat, tv: Tag)
    requires Inv(s) && d in s.tags.items
    requires n.tags == Items(s.tags.items[d := tv], s.tags.nextId)
    requires tv.parent == s.tags.items[d].parent && tv.children == s.tags.items[d].children
    requires n.rootTags == s.rootTags && n.fileEndings == s.fileEndings
    ensures TagTree(n.tags.items, n.rootTags) && WellNumbered(n.tags) && WellNumbered(n.fileEndings)
  {
    SubKeysNumbered(s.tags, n.tags.items);
    TagTreeKeptByItemLists(s.tags.items, s.rootTags, d, tv);
  }

  // ---------------------------------------------------------------------
  // Songs. For each change: what the new state looks like (without the
  // invariant in view), that such a state keeps the invariant, and the two
  // put together.

  lemma AddSongShape(s: LibState, a: nat, name: string)
    requires WellNumbered(s.songs) && a in s.albums.items
    ensures var (id, n) := AddSong(s, a, name);
      IsValidId(id) && id !in s.songs.items && WellNumbered(n.songs)
      && n.songs.items == s.songs.items[id := NewSong.(name := name, album := a)]
      && n.albums == Items(s.albums.items[a := s.albums.items[a].(songs := s.albums.items[a].songs + [id])], s.albums.nextId)
      && n.artists == s.artists && n.tags == s.tags && n.fileEndings == s.fileEndings && n.rootTags == s.rootTags
  {
    CreateIsFresh(s.songs, NewSong);
  }

  lemma AddSongStateKeepsInv(s: LibState, n: LibState, id: nat, v: Song, av: Album)
    requires Inv(s) && id !in s.songs.items && v.album in s.albums.items && v.tags == []
    requires av == s.albums.items[v.album].(songs := s.albums.items[v.album].songs + [id])
    requires WellNumbered(n.songs) && n.songs.items == s.songs.items[id := v]
    requires n.albums == Items(s.albums.items[v.album := av], s.albums.nextId)
    requires n.artists == s.artists && n.tags == s.tags && n.fileEndings == s.fileEndings && n.rootTags == s.rootTags
    ensures Inv(n)
  {
    SubKeysNumbered(s.albums, n.albums.items);
    AddChild(s.songs.items, s.albums.items, SongAlbum, AlbumSongs, id, v, v.album, av);
    ChildKept(s.albums.items, s.artists.items, AlbumArtist, ArtistAlbums, v.album, av);
    AddUntagged(s.songs.items, s.tags.items, SongTags, TagSongs, id, v);
    ItemKept(s.albums.items, s.tags.items, AlbumTags, TagAlbums, v.album, av);
  }

  lemma AddSongKeepsInv(s: LibState, a: nat, name: string)
    requires Inv(s) && a in s.albums.items
    ensures Inv(AddSong(s, a, name).1)
  {
    AddSongShape(s, a, name);
    var id := AddSong(s, a, name).0;
    AddSongStateKeepsInv(s, AddSong(s, a, name).1, id, NewSong.(name := name, album := a),
                         s.albums.items[a].(songs := s.albums.items[a].songs + [id]));
  }

  lemma RemoveSongKeepsInv(s: LibState, t: nat)
    requires Inv(s) && t in s.songs.items && s.songs.items[t].album in s.albums.items
    requires s.songs.items[t].tags == []
    ensures Inv(RemoveSong(s, t))
  {
    var n := RemoveSong(s, t);
    var a := s.songs.items[t].album;
    var av := s.albums.items[a].(songs := RemoveAll(s.albums.items[a].songs, t));
    assert n.albums.items == s.albums.items[a := av];
    SubKeysNumbered(s.songs, n.songs.items);
    SubKeysNumbered(s.albums, n.albums.items);
    RemoveChild(s.songs.items, s.albums.items, SongAlbum, AlbumSongs, t, av);
    ChildKept(s.albums.items, s.artists.items, AlbumArtist, ArtistAlbums, a, av);
    RemoveUntagged(s.songs.items, s.tags.items, SongTags, TagSongs, t);
    ItemKept(s.albums.items, s.tags.items, AlbumTags, TagAlbums, a, av);
  }

  /** Rewriting a song with its album and tags kept (name, position, length, file ending). */
  lemma RewriteSongKeepsInv(s: LibState, t: nat, v: Song)
    requires Inv(s) && t in s.songs.items
    requires v.album == s.songs.items[t].album && v.tags == s.songs.items[t].tags
    ensures Inv(SetSongs(s, s.songs.items[t := v]))
  {
    SubKeysNumbered(s.songs, s.songs.items[t := v]);
    ChildKept(s.songs.items, s.albums.items, SongAlbum, AlbumSongs, t, v);
    ItemKept(s.songs.items, s.tags.items, SongTags, TagSongs, t, v);
  }

  /** getOrCreateFileEndingId keeps the file endings well numbered. */
  lemma FileEndingNumbered(c: Items<string>, name: string, ending: nat)
    requires WellNumbered(c)
    ensures WellNumbered(FileEndingId(c, name, ending).1)
  {
    if !(ending in c.items && c.items[ending] == name) {
      CreateIsFresh(c, "");
    }
  }

  /** The file-ending collection takes part in no link. */
  lemma NewEndingsKeepInv(s: LibState, fe: Items<string>)
    requires Inv(s) && WellNumbered(fe)
    ensures Inv(s.(fileEndings := fe))
  {
  }

  /** Moving a song rewrites the song-lists of two albums and nothing else about albums. */
  lemma MoveSongAlbums(s: LibState, t: nat, d: nat)
    requires t in s.songs.items && s.songs.items[t].album in s.albums.items && d in s.albums.items
    ensures var n := MoveSong(s, t, d);
      n.albums.nextId == s.albums.nextId && n.albums.items.Keys == s.albums.items.Keys
      && (forall a :: a in s.albums.items ==>
            n.albums.items[a].artist == s.albums.items[a].artist && n.albums.items[a].tags == s.albums.items[a].tags)
      && n.songs == Items(s.songs.items[t := s.songs.items[t].(album := d)], s.songs.nextId)
      && n.artists == s.artists && n.tags == s.tags && n.fileEndings == s.fileEndings && n.rootTags == s.rootTags
  {
  }

  lemma MoveSongKeepsInv(s: LibState, t: nat, d: nat)
    requires Inv(s) && t in s.songs.items && s.songs.items[t].album in s.albums.items && d in s.albums.items
    ensures Inv(MoveSong(s, t, d))
  {
    var n := MoveSong(s, t, d);
    MoveSongAlbums(s, t, d);
    var albums := s.albums.items;
    var o := s.songs.items[t].album;
    var v := s.songs.items[t].(album := d);
    var po := albums[o].(songs := RemoveAll(albums[o].songs, t));
    var a1 := albums[o := po];
    var pd := a1[d].(songs := a1[d].songs + [t]);
    assert n.albums.items == a1[d := pd];
    SubKeysNumbered(s.songs, n.songs.items);
    SubKeysNumbered(s.albums, n.albums.items);
    MoveChild(s.songs.items, albums, SongAlbum, AlbumSongs, t, v, d, po, pd);
    ChildrenSameUp(albums, n.albums.items, s.artists.items, AlbumArtist, ArtistAlbums);
    ItemKept(s.songs.items, s.tags.items, SongTags, TagSongs, t, v);
    ItemsSameTags(albums, n.albums.items, s.tags.items, AlbumTags, TagAlbums);
  }

  lemma TagSongKeepsInv(s: LibState, t: nat, d: nat)
    requires Inv(s) && t in s.songs.items && d in s.tags.items
    ensures Inv(TagSong(s, t, d))
  {
    var n := TagSong(s, t, d);
    var v := s.songs.items[t].(tags := s.songs.items[t].tags + [d]);
    var tv := s.tags.items[d].(songs := s.tags.items[d].songs + [t]);
    assert n.songs.items == s.songs.items[t := v];
    SubKeysNumbered(s.songs, n.songs.items);
    TagListsOnlyKeepInv(s, n, d, tv);
    Link(s.songs.items, s.tags.items, SongTags, TagSongs, t, d, v, tv);
    ChildKept(s.songs.items, s.albums.items, SongAlbum, AlbumSongs, t, v);
    TagKept(s.albums.items, s.tags.items, AlbumTags, TagAlbums, d, tv);
    TagKept(s.artists.items, s.tags.items, ArtistTags, TagArtists, d, tv);
  }

  lemma UntagSongKeepsInv(s: LibState, t: nat, d: nat)
    requires Inv(s) && t in s.songs.items && d in s.tags.items
    ensures Inv(UntagSong(s, t, d))
  {
    var n := UntagSong(s, t, d);
    var v := s.songs.items[t].(tags := RemoveAll(s.songs.items[t].tags, d));
    var tv := s.tags.items[d].(songs := RemoveAll(s.tags.items[d].songs, t));
    assert n.songs.items == s.songs.items[t := v];
    SubKeysNumbered(s.songs, n.songs.items);
    TagListsOnlyKeepInv(s, n, d, tv);
    Unlink(s.songs.items, s.tags.items, SongTags, TagSongs, t, d, v, tv);
    ChildKept(s.songs.items, s.albums.items, SongAlbum, AlbumSongs, t, v);
    TagKept(s.albums.items, s.tags.items, AlbumTags, TagAlbums, d, tv);
    TagKept(s.artists.items, s.tags.items, ArtistTags, TagArtists, d, tv);
  }

  lemma SongAddCaseKeepsInv(s: LibState, r: ChangeRequest, ending: nat)
    requires r.changeType == SongAdd && SongCase(s, r, ending).Done? && Inv(s)
    ensures Inv(SongCase(s, r, ending).next)
  {
    AddSongKeepsInv(s, r.targetId, r.name);
  }

  lemma SongRemoveCaseKeepsInv(s: LibState, r: ChangeRequest, ending: nat)
    requires r.changeType == SongRemove && SongCase(s, r, ending).Done? && Inv(s)
    ensures Inv(SongCase(s, r, ending).next)
  {
    RemoveSongKeepsInv(s, r.targetId);
  }

  lemma SongSetFieldCaseKeepsInv(s: LibState, r: ChangeRequest, ending: nat)
    requires Inv(s) && r.changeType in {SongSetName, SongSetPosition, SongSetLength}
    requires SongCase(s, r, ending).Done?
    ensures Inv(SongCase(s, r, ending).next)
  {
    var songs, t := s.songs.items, r.targetId;
    if r.changeType == SongSetName {
      RewriteSongKeepsInv(s, t, songs[t].(name := r.name));
    } else if r.changeType == SongSetPosition {
      RewriteSongKeepsInv(s, t, songs[t].(position := r.detail));
    } else {
      RewriteSongKeepsInv(s, t, songs[t].(secs := r.detail));
    }
  }

  lemma SongSetFileEndingCaseKeepsInv(s: LibState, r: ChangeRequest, ending: nat)
    requires r.changeType == SongSetFileEnding && SongCase(s, r, ending).Done? && Inv(s)
    ensures Inv(SongCase(s, r, ending).next)
  {
    var (fe, c) := FileEndingId(s.fileEndings, r.name, ending);
    FileEndingNumbered(s.fileEndings, r.name, ending);
    NewEndingsKeepInv(s, c);
    RewriteSongKeepsInv(s.(fileEndings := c), r.targetId, s.songs.items[r.targetId].(fileEnding := fe));
  }

  lemma SongSetAlbumCaseKeepsInv(s: LibState, r: ChangeRequest, ending: nat)
    requires r.changeType == SongSetAlbum && SongCase(s, r, ending).Done? && Inv(s)
    ensures Inv(SongCase(s, r, ending).next)
  {
    MoveSongKeepsInv(s, r.targetId, r.detail);
  }

  lemma SongAddTagCaseKeepsInv(s: LibState, r: ChangeRequest, ending: nat)
    requires r.changeType == SongAddTag && SongCase(s, r, ending).Done? && Inv(s)
    ensures Inv(SongCase(s, r, ending).next)
  {
    TagSongKeepsInv(s, r.targetId, r.detail);
  }

  lemma SongRemoveTagCaseKeepsInv(s: LibState, r: ChangeRequest, ending: nat)
    requires r.changeType == SongRemoveTag && SongCase(s, r, ending).Done? && Inv(s)
    ensures Inv(SongCase(s, r, ending).next)
  {
    UntagSongKeepsInv(s, r.targetId, r.detail);
  }

  lemma SongGroupTypes(t: ChangeType)
    requires Group(t) == SongGroup
    ensures t == SongAdd || t == SongRemove || t == SongSetName || t == SongSetPosition || t == SongSetLength
         || t == SongSetFileEnding || t == SongSetAlbum || t == SongAddTag || t == SongRemoveTag
  {
  }

  lemma SongCaseKeepsInv(s: LibState, r: ChangeRequest, ending: nat)
    requires Group(r.changeType) == SongGroup
    requires SongCase(s, r, ending).Done?
    requires Inv(s)
    ensures Inv(SongCase(s, r, ending).next)
  {
    SongGroupTypes(r.changeType);
    match r.changeType
    case SongAdd => SongAddCaseKeepsInv(s, r, ending);
    case SongRemove => SongRemoveCaseKeepsInv(s, r, ending);
    case SongSetName | SongSetPosition | SongSetLength => SongSetFieldCaseKeepsInv(s, r, ending);
    case SongSetFileEnding => SongSetFileEndingCaseKeepsInv(s, r, ending);
    case SongSetAlbum => SongSetAlbumCaseKeepsInv(s, r, ending);
    case SongAddTag => SongAddTagCaseKeepsInv(s, r, ending);
    case SongRemoveTag => SongRemoveTagCaseKeepsInv(s, r, ending);
  }

  // ---------------------------------------------------------------------
  // Albums

  lemma AddAlbumShape(s: LibState, a: nat, name: string)
    requires WellNumbered(s.albums) && a in s.artists.items
    ensures var (id, n) := AddAlbum(s, a, name);
      IsValidId(id) && id !in s.albums.items && WellNumbered(n.albums)
      && n.albums.items == s.albums.items[id := NewAlbum.(artist := a, name := name)]
      && n.artists == Items(s.artists.items[a := s.artists.items[a].(albums := s.artists.items[a].albums + [id])], s.artists.nextId)
      && n.songs == s.songs && n.tags == s.tags && n.fileEndings == s.fileEndings && n.rootTags == s.rootTags
  {
    CreateIsFresh(s.albums, NewAlbum);
  }

  lemma AddAlbumStateKeepsInv(s: LibState, n: LibState, id: nat, v: Album, av: Artist)
    requires Inv(s) && id !in s.albums.items && v.artist in s.artists.items && v.tags == [] && v.songs == []
    requires av == s.artists.items[v.artist].(albums := s.artists.items[v.artist].albums + [id])
    requires WellNumbered(n.albums) && n.albums.items == s.albums.items[id := v]
    requires n.artists == Items(s.artists.items[v.artist := av], s.artists.nextId)
    requires n.songs == s.songs && n.tags == s.tags && n.fileEndings == s.fileEndings && n.rootTags == s.rootTags
    ensures Inv(n)
  {
    SubKeysNumbered(s.artists, n.artists.items);
    AddParent(s.songs.items, s.albums.items, SongAlbum, AlbumSongs, id, v);
    AddChild(s.albums.items, s.artists.items, AlbumArtist, ArtistAlbums, id, v, v.artist, av);
    AddUntagged(s.albums.items, s.tags.items, AlbumTags, TagAlbums, id, v);
    ItemKept(s.artists.items, s.tags.items, ArtistTags, TagArtists, v.artist, av);
  }

  lemma AddAlbumKeepsInv(s: LibState, a: nat, name: string)
    requires Inv(s) && a in s.artists.items
    ensures Inv(AddAlbum(s, a, name).1)
  {
    AddAlbumShape(s, a, name);
    var id := AddAlbum(s, a, name).0;
    AddAlbumStateKeepsInv(s, AddAlbum(s, a, name).1, id, NewAlbum.(artist := a, name := name),
                          s.artists.items[a].(albums := s.artists.items[a].albums + [id]));
  }

  lemma RemoveAlbumKeepsInv(s: LibState, t: nat)
    requires Inv(s) && t in s.albums.items && s.albums.items[t].artist in s.artists.items
    requires s.albums.items[t].songs == [] && s.albums.items[t].tags == []
    ensures Inv(RemoveAlbum(s, t))
  {
    var n := RemoveAlbum(s, t);
    var a := s.albums.items[t].artist;
    var av := s.artists.items[a].(albums := RemoveAll(s.artists.items[a].albums, t));
    assert n.artists.items == s.artists.items[a := av];
    SubKeysNumbered(s.albums, n.albums.items);
    SubKeysNumbered(s.artists, n.artists.items);
    RemoveParent(s.songs.items, s.albums.items, SongAlbum, AlbumSongs, t);
    RemoveChild(s.albums.items, s.artists.items, AlbumArtist, ArtistAlbums, t, av);
    RemoveUntagged(s.albums.items, s.tags.items, AlbumTags, TagAlbums, t);
    ItemKept(s.artists.items, s.tags.items, ArtistTags, TagArtists, a, av);
  }

  /** Rewriting an album with its songs, artist and tags kept (its name). */
  lemma RewriteAlbumKeepsInv(s: LibState, t: nat, v: Album)
    requires Inv(s) && t in s.albums.items
    requires v.songs == s.albums.items[t].songs && v.artist == s.albums.items[t].artist && v.tags == s.albums.items[t].tags
    ensures Inv(SetAlbums(s, s.albums.items[t := v]))
  {
    SubKeysNumbered(s.albums, s.albums.items[t := v]);
    ParentKept(s.songs.items, s.albums.items, SongAlbum, AlbumSongs, t, v);
    ChildKept(s.albums.items, s.artists.items, AlbumArtist, ArtistAlbums, t, v);
    ItemKept(s.albums.items, s.tags.items, AlbumTags, TagAlbums, t, v);
  }

  /** Moving an album rewrites the album-lists of two artists and nothing else about artists. */
  lemma MoveAlbumArtists(s: LibState, t: nat, d: nat)
    requires t in s.albums.items && s.albums.items[t].artist in s.artists.items && d in s.artists.items
    ensures var n := MoveAlbum(s, t, d);
      n.artists.nextId == s.artists.nextId && n.artists.items.Keys == s.artists.items.Keys
      && (forall a :: a in s.artists.items ==> n.artists.items[a].tags == s.artists.items[a].tags)
      && n.albums == Items(s.albums.items[t := s.albums.items[t].(artist := d)], s.albums.nextId)
      && n.songs == s.songs && n.tags == s.tags && n.fileEndings == s.fileEndings && n.rootTags == s.rootTags
  {
  }

  lemma MoveAlbumKeepsInv(s: LibState, t: nat, d: nat)
    requires Inv(s) && t in s.albums.items && s.albums.items[t].artist in s.artists.items && d in s.artists.items
    ensures Inv(MoveAlbum(s, t, d))
  {
    var n := MoveAlbum(s, t, d);
    MoveAlbumArtists(s, t, d);
    var artists := s.artists.items;
    var o := s.albums.items[t].artist;
    var v := s.albums.items[t].(artist := d);
    var po := artists[o].(albums := RemoveAll(artists[o].albums, t));
    var a1 := artists[o := po];
    var pd := a1[d].(albums := a1[d].albums + [t]);
    assert n.artists.items == a1[d := pd];
    SubKeysNumbered(s.albums, n.albums.items);
    SubKeysNumbered(s.artists, n.artists.items);
    ParentKept(s.songs.items, s.albums.items, SongAlbum, AlbumSongs, t, v);
    MoveChild(s.albums.items, artists, AlbumArtist, ArtistAlbums, t, v, d, po, pd);
    ItemKept(s.albums.items, s.tags.items, AlbumTags, TagAlbums, t, v);
    ItemsSameTags(artists, n.artists.items, s.tags.items, ArtistTags, TagArtists);
  }

  lemma TagAlbumKeepsInv(s: LibState, t: nat, d: nat)
    requires Inv(s) && t in s.albums.items && d in s.tags.items
    ensures Inv(TagAlbum(s, t, d))
  {
    var n := TagAlbum(s, t, d);
    var v := s.albums.items[t].(tags := s.albums.items[t].tags + [d]);
    var tv := s.tags.items[d].(albums := s.tags.items[d].albums + [t]);
    assert n.albums.items == s.albums.items[t := v];
    SubKeysNumbered(s.albums, n.albums.items);
    TagListsOnlyKeepInv(s, n, d, tv);
    Link(s.albums.items, s.tags.items, AlbumTags, TagAlbums, t, d, v, tv);
    ParentKept(s.songs.items, s.albums.items, SongAlbum, AlbumSongs, t, v);
    ChildKept(s.albums.items, s.artists.items, AlbumArtist, ArtistAlbums, t, v);
    TagKept(s.songs.items, s.tags.items, SongTags, TagSongs, d, tv);
    TagKept(s.artists.items, s.tags.items, ArtistTags, TagArtists, d, tv);
  }

  lemma UntagAlbumKeepsInv(s: LibState, t: nat, d: nat)
    requires Inv(s) && t in s.albums.items && d in s.tags.items
    ensures Inv(UntagAlbum(s, t, d))
  {
    var n := UntagAlbum(s, t, d);
    var v := s.albums.items[t].(tags := RemoveAll(s.albums.items[t].tags, d));
    var tv := s.tags.items[d].(albums := RemoveAll(s.tags.items[d].albums, t));
    assert n.albums.items == s.albums.items[t := v];
    SubKeysNumbered(s.albums, n.albums.items);
    TagListsOnlyKeepInv(s, n, d, tv);
    Unlink(s.albums.items, s.tags.items, AlbumTags, TagAlbums, t, d, v, tv);
    ParentKept(s.songs.items, s.albums.items, SongAlbum, AlbumSongs, t, v);
    ChildKept(s.albums.items, s.artists.items, AlbumArtist, ArtistAlbums, t, v);
    TagKept(s.songs.items, s.tags.items, SongTags, TagSongs, d, tv);
    TagKept(s.artists.items, s.tags.items, ArtistTags, TagArtists, d, tv);
  }

  lemma AlbumAddCaseKeepsInv(s: LibState, r: ChangeRequest)
    requires r.changeType == AlbumAdd && AlbumCase(s, r).Done? && Inv(s)
    ensures Inv(AlbumCase(s, r).next)
  {
    AddAlbumKeepsInv(s, r.targetId, r.name);
  }

  lemma AlbumRemoveCaseKeepsInv(s: LibState, r: ChangeRequest)
    requires r.changeType == AlbumRemove && AlbumCase(s, r).Done? && Inv(s)
    ensures Inv(AlbumCase(s, r).next)
  {
    RemoveAlbumKeepsInv(s, r.targetId);
  }

  lemma AlbumSetNameCaseKeepsInv(s: LibState, r: ChangeRequest)
    requires r.changeType == AlbumSetName && AlbumCase(s, r).Done? && Inv(s)
    ensures Inv(AlbumCase(s, r).next)
  {
    RewriteAlbumKeepsInv(s, r.targetId, s.albums.items[r.targetId].(name := r.name));
  }

  lemma AlbumSetArtistCaseKeepsInv(s: LibState, r: ChangeRequest)
    requires r.changeType == AlbumSetArtist && AlbumCase(s, r).Done? && Inv(s)
    ensures Inv(AlbumCase(s, r).next)
  {
    MoveAlbumKeepsInv(s, r.targetId, r.detail);
  }

  lemma AlbumAddTagCaseKeepsInv(s: LibState, r: ChangeRequest)
    requires r.changeType == AlbumAddTag && AlbumCase(s, r).Done? && Inv(s)
    ensures Inv(AlbumCase(s, r).next)
  {
    TagAlbumKeepsInv(s, r.targetId, r.detail);
  }

  lemma AlbumRemoveTagCaseKeepsInv(s: LibState, r: ChangeRequest)
    requires r.changeType == AlbumRemoveTag && AlbumCase(s, r).Done? && Inv(s)
    ensures Inv(AlbumCase(s, r).next)
  {
    UntagAlbumKeepsInv(s, r.targetId, r.detail);
  }

  lemma AlbumGroupTypes(t: ChangeType)
    requires Group(t) == AlbumGroup
    ensures t == AlbumAdd || t == AlbumRemove || t == AlbumSetName || t == AlbumSetArtist
         || t == AlbumAddTag || t == AlbumRemoveTag
  {
  }

  lemma AlbumCaseKeepsInv(s: LibState, r: ChangeRequest)
    requires Group(r.changeType) == AlbumGroup
    requires AlbumCase(s, r).Done?
    requires Inv(s)
    ensures Inv(AlbumCase(s, r).next)
  {
    AlbumGroupTypes(r.changeType);
    match r.changeType
    case AlbumAdd => AlbumAddCaseKeepsInv(s, r);
    case AlbumRemove => AlbumRemoveCaseKeepsInv(s, r);
    case AlbumSetName => AlbumSetNameCaseKeepsInv(s, r);
    case AlbumSetArtist => AlbumSetArtistCaseKeepsInv(s, r);
    case AlbumAddTag => AlbumAddTagCaseKeepsInv(s, r);
    case AlbumRemoveTag => AlbumRemoveTagCaseKeepsInv(s, r);
  }

  // ---------------------------------------------------------------------
  // Artists

  lemma AddArtistKeepsInv(s: LibState, name: string)
    requires Inv(s)
    ensures Inv(AddArtist(s, name).1)
  {
    var (id, n) := AddArtist(s, name);
    var v := NewArtist.(name := name);
    AddArtistShape(s, name);
    AddParent(s.albums.items, s.artists.items, AlbumArtist, ArtistAlbums, id, v);
    AddUntagged(s.artists.items, s.tags.items, ArtistTags, TagArtists, id, v);
  }

  lemma AddArtistShape(s: LibState, name: string)
    requires WellNumbered(s.artists)
    ensures var (id, n) := AddArtist(s, name);
      IsValidId(id) && id !in s.artists.items && WellNumbered(n.artists)
      && n.artists.items == s.artists.items[id := NewArtist.(name := name)]
      && n.songs == s.songs && n.albums == s.albums && n.tags == s.tags
      && n.fileEndings == s.fileEndings && n.rootTags == s.rootTags
  {
    CreateIsFresh(s.artists, NewArtist);
  }

  lemma RemoveArtistKeepsInv(s: LibState, t: nat)
    requires Inv(s) && t in s.artists.items && s.artists.items[t].albums == [] && s.artists.items[t].tags == []
    ensures Inv(SetArtists(s, s.artists.items - {t}))
  {
    SubKeysNumbered(s.artists, s.artists.items - {t});
    RemoveParent(s.albums.items, s.artists.items, AlbumArtist, ArtistAlbums, t);
    RemoveUntagged(s.artists.items, s.tags.items, ArtistTags, TagArtists, t);
  }

  lemma RewriteArtistKeepsInv(s: LibState, t: nat, v: Artist)
    requires Inv(s) && t in s.artists.items
    requires v.albums == s.artists.items[t].albums && v.tags == s.artists.items[t].tags
    ensures Inv(SetArtists(s, s.artists.items[t := v]))
  {
    SubKeysNumbered(s.artists, s.artists.items[t := v]);
    ParentKept(s.albums.items, s.artists.items, AlbumArtist, ArtistAlbums, t, v);
    ItemKept(s.artists.items, s.tags.items, ArtistTags, TagArtists, t, v);
  }

  lemma TagArtistKeepsInv(s: LibState, t: nat, d: nat)
    requires Inv(s) && t in s.artists.items && d in s.tags.items
    ensures Inv(TagArtist(s, t, d))
  {
    var n := TagArtist(s, t, d);
    var v := s.artists.items[t].(tags := s.artists.items[t].tags + [d]);
    var tv := s.tags.items[d].(artists := s.tags.items[d].artists + [t]);
    assert n.artists.items == s.artists.items[t := v];
    SubKeysNumbered(s.artists, n.artists.items);
    TagListsOnlyKeepInv(s, n, d, tv);
    Link(s.artists.items, s.tags.items, ArtistTags, TagArtists, t, d, v, tv);
    ParentKept(s.albums.items, s.artists.items, AlbumArtist, ArtistAlbums, t, v);
    TagKept(s.songs.items, s.tags.items, SongTags, TagSongs, d, tv);
    TagKept(s.albums.items, s.tags.items, AlbumTags, TagAlbums, d, tv);
  }

  lemma UntagArtistKeepsInv(s: LibState, t: nat, d: nat)
    requires Inv(s) && t in s.artists.items && d in s.tags.items
    ensures Inv(UntagArtist(s, t, d))
  {
    var n := UntagArtist(s, t, d);
    var v := s.artists.items[t].(tags := RemoveAll(s.artists.items[t].tags, d));
    var tv := s.tags.items[d].(artists := RemoveAll(s.tags.items[d].artists, t));
    assert n.artists.items == s.artists.items[t := v];
    SubKeysNumbered(s.artists, n.artists.items);
    TagListsOnlyKeepInv(s, n, d, tv);
    Unlink(s.artists.items, s.tags.items, ArtistTags, TagArtists, t, d, v, tv);
    ParentKept(s.albums.items, s.artists.items, AlbumArtist, ArtistAlbums, t, v);
    TagKept(s.songs.items, s.tags.items, SongTags, TagSongs, d, tv);
    TagKept(s.albums.items, s.tags.items, AlbumTags, TagAlbums, d, tv);
  }

  /** Both ArtistAdd and ArtistAddOrGet create an artist, whatever the state. */
  lemma ArtistAddCaseCreates(s: LibState, r: ChangeRequest)
    requires r.changeType == ArtistAdd || r.changeType == ArtistAddOrGet
    ensures ArtistCase(s, r) == Done(AddArtist(s, r.name).0, AddArtist(s, r.name).1)
  {
  }

  lemma ArtistAddCaseKeepsInv(s: LibState, r: ChangeRequest)
    requires (r.changeType == ArtistAdd || r.changeType == ArtistAddOrGet) && ArtistCase(s, r).Done? && Inv(s)
    ensures Inv(ArtistCase(s, r).next)
  {
    ArtistAddCaseCreates(s, r);
    AddArtistKeepsInv(s, r.name);
  }

  lemma ArtistRemoveCaseKeepsInv(s: LibState, r: ChangeRequest)
    requires r.changeType == ArtistRemove && ArtistCase(s, r).Done? && Inv(s)
    ensures Inv(ArtistCase(s, r).next)
  {
    RemoveArtistKeepsInv(s, r.targetId);
  }

  lemma ArtistSetNameCaseKeepsInv(s: LibState, r: ChangeRequest)
    requires r.changeType == ArtistSetName && ArtistCase(s, r).Done? && Inv(s)
    ensures Inv(ArtistCase(s, r).next)
  {
    RewriteArtistKeepsInv(s, r.targetId, s.artists.items[r.targetId].(name := r.name));
  }

  lemma ArtistAddTagCaseKeepsInv(s: LibState, r: ChangeRequest)
    requires r.changeType == ArtistAddTag && ArtistCase(s, r).Done? && Inv(s)
    ensures Inv(ArtistCase(s, r).next)
  {
    TagArtistKeepsInv(s, r.targetId, r.detail);
  }

  lemma ArtistRemoveTagCaseKeepsInv(s: LibState, r: ChangeRequest)
    requires r.changeType == ArtistRemoveTag && ArtistCase(s, r).Done? && Inv(s)
    ensures Inv(ArtistCase(s, r).next)
  {
    UntagArtistKeepsInv(s, r.targetId, r.detail);
  }

  lemma ArtistGroupTypes(t: ChangeType)
    requires Group(t) == ArtistGroup
    ensures t == ArtistAdd || t == ArtistAddOrGet || t == ArtistRemove || t == ArtistSetName
         || t == ArtistAddTag || t == ArtistRemoveTag
  {
  }

  lemma ArtistCaseKeepsInv(s: LibState, r: ChangeRequest)
    requires Group(r.changeType) == ArtistGroup
    requires ArtistCase(s, r).Done?
    requires Inv(s)
    ensures Inv(ArtistCase(s, r).next)
  {
    ArtistGroupTypes(r.changeType);
    match r.changeType
    case ArtistAdd | ArtistAddOrGet => ArtistAddCaseKeepsInv(s, r);
    case ArtistRemove => ArtistRemoveCaseKeepsInv(s, r);
    case ArtistSetName => ArtistSetNameCaseKeepsInv(s, r);
    case ArtistAddTag => ArtistAddTagCaseKeepsInv(s, r);
    case ArtistRemoveTag => ArtistRemoveTagCaseKeepsInv(s, r);
  }
}
