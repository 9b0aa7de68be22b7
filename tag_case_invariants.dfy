// The tag changes of Library::commit keep the library consistent
// (src/shared/library.cpp:246-320), and with them the whole commit.
module TagCaseInvariants {

  import opened LibraryTypes
  import opened LibraryModel
  import opened LibraryInvariants
  import opened LibraryCaseInvariants
  import opened TagTreeInvariants
  import TagForest

  // ---------------------------------------------------------------------
  // TagAdd

  /** TagAdd creates a fresh, valid tag id and touches nothing but the tags and the root list. */
  lemma AddTagShape(s: LibState, p: nat, name: string)
    requires WellNumbered(s.tags)
    ensures var (id, n) := AddTag(s, p, name);
      id == s.tags.nextId && IsValidId(id) && id !in s.tags.items && WellNumbered(n.tags)
      && n.songs == s.songs && n.albums == s.albums && n.artists == s.artists
      && n.fileEndings == s.fileEndings
  {
    CreateIsFresh(s.tags, NewTag);
  }

  lemma AddTagKeepsInv(s: LibState, p: nat, name: string)
    requires Inv(s) && (p == 0 || p in s.tags.items)
    ensures Inv(AddTag(s, p, name).1)
  {
    var (id, n) := AddTag(s, p, name);
    var tags := s.tags.items;
    AddTagShape(s, p, name);
    AddTagItemLists(s, p, name);
    AddTagForest(s, p, name);
    AddTagRoots(s, p, name);
    AddTagChildren(s, p, name);
    TagsGrowUnused(s.songs.items, tags, n.tags.items, SongTags, TagSongs, id);
    TagsGrowUnused(s.albums.items, tags, n.tags.items, AlbumTags, TagAlbums, id);
    TagsGrowUnused(s.artists.items, tags, n.tags.items, ArtistTags, TagArtists, id);
  }

  // ---------------------------------------------------------------------
  // TagRemove

  lemma RemoveTagKeepsInv(s: LibState, t: nat)
    requires Inv(s) && t in s.tags.items
    requires var v := s.tags.items[t]; v.children == [] && v.songs == [] && v.albums == [] && v.artists == []
    ensures Inv(RemoveTag(s, t))
  {
    var n := RemoveTag(s, t);
    var tags := s.tags.items;
    RemoveTagState(s, t);
    RemoveTagItemLists(s, t);
    SubKeysNumbered(s.tags, n.tags.items);
    RemoveTagForest(s, t);
    RemoveTagRoots(s, t);
    RemoveTagChildren(s, t);
    TagsShrinkUnused(s.songs.items, tags, n.tags.items, SongTags, TagSongs, t);
    TagsShrinkUnused(s.albums.items, tags, n.tags.items, AlbumTags, TagAlbums, t);
    TagsShrinkUnused(s.artists.items, tags, n.tags.items, ArtistTags, TagArtists, t);
  }

  // ---------------------------------------------------------------------
  // TagSetName

  lemma RenameTagKeepsInv(s: LibState, t: nat, name: string)
    requires Inv(s) && t in s.tags.items
    ensures Inv(SetTags(s, s.tags.items[t := s.tags.items[t].(name := name)]))
  {
    var v := s.tags.items[t].(name := name);
    SubKeysNumbered(s.tags, s.tags.items[t := v]);
    TagTreeKeptByItemLists(s.tags.items, s.rootTags, t, v);
    TagKept(s.songs.items, s.tags.items, SongTags, TagSongs, t, v);
    TagKept(s.albums.items, s.tags.items, AlbumTags, TagAlbums, t, v);
    TagKept(s.artists.items, s.tags.items, ArtistTags, TagArtists, t, v);
  }

  // ---------------------------------------------------------------------
  // TagSetParent

  /** In a consistent library a tag's parent is 0 or another tag, and 0 is never a tag. */
  lemma ParentIsOtherTag(s: LibState, t: nat)
    requires Inv(s) && t in s.tags.items
    ensures 0 !in s.tags.items
    ensures var o := s.tags.items[t].parent; o != t && (o == 0 || o in s.tags.items)
  {
    var P := Parents(s.tags.items);
    assert t != 0;
    TagForest.NoSelfParent(P, t);
  }

  /** TagSetParent onto a parent whose ancestors do not include t. */
  lemma ReparentKeepsInv(s: LibState, t: nat, d: nat)
    requires Inv(s) && t in s.tags.items
    requires d != s.tags.items[t].parent && d != t && (d == 0 || d in s.tags.items)
    requires d != 0 ==> !ChainMeets(s.tags.items, d, t)
    ensures Inv(Reparent(s, t, d))
  {
    var n := Reparent(s, t, d);
    var tags := s.tags.items;
    ParentIsOtherTag(s, t);
    ReparentItems(s, t, d);
    SubKeysNumbered(s.tags, n.tags.items);
    ReparentForest(s, t, d);
    ReparentRoots(s, t, d);
    ReparentChildren(s, t, d);
    TagsSameItems(s.songs.items, tags, n.tags.items, SongTags, TagSongs);
    TagsSameItems(s.albums.items, tags, n.tags.items, AlbumTags, TagAlbums);
    TagsSameItems(s.artists.items, tags, n.tags.items, ArtistTags, TagArtists);
  }

  // ---------------------------------------------------------------------
  // The tag cases

  lemma TagAddCaseKeepsInv(s: LibState, r: ChangeRequest)
    requires r.changeType == TagAdd && TagCase(s, r).Done? && Inv(s)
    ensures Inv(TagCase(s, r).next)
  {
    AddTagKeepsInv(s, r.targetId, r.name);
  }

  lemma TagRemoveCaseKeepsInv(s: LibState, r: ChangeRequest)
    requires r.changeType == TagRemove && TagCase(s, r).Done? && Inv(s)
    ensures Inv(TagCase(s, r).next)
  {
    RemoveTagKeepsInv(s, r.targetId);
  }

  lemma TagSetNameCaseKeepsInv(s: LibState, r: ChangeRequest)
    requires r.changeType == TagSetName && TagCase(s, r).Done? && Inv(s)
    ensures Inv(TagCase(s, r).next)
  {
    RenameTagKeepsInv(s, r.targetId, r.name);
  }

  lemma TagSetParentCaseKeepsInv(s: LibState, r: ChangeRequest)
    requires RequestAsserts(s, r) && r.changeType == TagSetParent && TagCase(s, r).Done? && Inv(s)
    ensures Inv(TagCase(s, r).next)
  {
    ReparentKeepsInv(s, r.targetId, r.detail);
  }

  lemma TagGroupTypes(t: ChangeType)
    requires Group(t) == TagGroup
    ensures t == TagAdd || t == TagRemove || t == TagSetName || t == TagSetParent
  {
  }

  lemma TagCaseKeepsInv(s: LibState, r: ChangeRequest)
    requires Group(r.changeType) == TagGroup
    requires TagCase(s, r).Done?
    requires Inv(s) && RequestAsserts(s, r)
    ensures Inv(TagCase(s, r).next)
  {
    TagGroupTypes(r.changeType);
    match r.changeType
    case TagAdd => TagAddCaseKeepsInv(s, r);
    case TagRemove => TagRemoveCaseKeepsInv(s, r);
    case TagSetName => TagSetNameCaseKeepsInv(s, r);
    case TagSetParent => TagSetParentCaseKeepsInv(s, r);
  }
}
