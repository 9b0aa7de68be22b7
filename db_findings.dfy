// What the older library's commit (src/dbcommon/src/library.cpp) does to a
// consistent library where the shared library refuses or repairs: four
// cases that break the links between items, and a list replay that commits
// a change under a revision it did not carry.
module DbFindings {

  import opened LibraryTypes
  import LM = LibraryModel
  import TagForest
  import SharedLibrary
  import opened DbLibrary

  // ---------------------------------------------------------------------
  // Broken links: each makes the invariant false

  /** A tag that lists a song which is gone. */
  lemma TagListsMissingSong(n: LM.LibState, d: nat, x: nat)
    requires d in n.tags.items && x in n.tags.items[d].songs && x !in n.songs.items
    ensures !LM.Inv(n)
  {
    if LM.Inv(n) {
      LinkedBack(n.songs.items, n.tags.items, LM.SongTags, LM.TagSongs, d, x);
    }
  }

  /** A tag that lists an artist which is gone. */
  lemma TagListsMissingArtist(n: LM.LibState, d: nat, x: nat)
    requires d in n.tags.items && x in n.tags.items[d].artists && x !in n.artists.items
    ensures !LM.Inv(n)
  {
    assert x in LM.TagArtists(n.tags.items[d]);
  }

  /** An album whose artist does not list it. */
  lemma ArtistMissesAlbum(n: LM.LibState, x: nat)
    requires x in n.albums.items && n.albums.items[x].artist in n.artists.items
    requires x !in n.artists.items[n.albums.items[x].artist].albums
    ensures !LM.Inv(n)
  {
    assert x !in LM.ArtistAlbums(n.artists.items[LM.AlbumArtist(n.albums.items[x])]);
  }

  /** Two tags that are each other's parent never reach the root. */
  lemma {:induction false} TwoCycleNeverRoots(p: map<nat, nat>, a: nat, b: nat, id: nat, n: nat)
    requires a in p && b in p && p[a] == b && p[b] == a && a != 0 && b != 0
    requires id == a || id == b
    ensures TagForest.Walk(p, id, n) != 0
    decreases n
  {
    if n > 0 {
      TwoCycleNeverRoots(p, a, b, TagForest.Step(p, id), n - 1);
    }
  }

  // ---------------------------------------------------------------------
  // SongRemove

  /** In a consistent library a tagged song's first tag is a tag that lists it. */
  lemma TaggedSongLinks(s: LM.LibState, t: nat)
    requires t in s.songs.items && s.songs.items[t].tags != [] && LM.Inv(s)
    ensures var d := s.songs.items[t].tags[0];
      s.songs.items[t].album in s.albums.items && d in s.tags.items && t in s.tags.items[d].songs
  {
    assert s.songs.items[t].tags[0] in LM.SongTags(s.songs.items[t]);
  }

  /** SongRemove on a song whose album exists: done, the song is gone, and the tags are untouched. */
  lemma SongRemoveKeepsTags(s: LM.LibState, t: nat)
    requires t in s.songs.items && s.songs.items[t].album in s.albums.items
    ensures var r := Case(s, LibraryChange(SongRemove, t, 0, ""), 0);
      r.Done? && t !in r.next.songs.items && r.next.tags == s.tags
  {
  }

  /** Removing a song that still has a tag leaves that tag listing a song that is gone. */
  lemma SongRemoveLeavesTag(s: LM.LibState, t: nat)
    requires t in s.songs.items && s.songs.items[t].tags != [] && LM.Inv(s)
    ensures var r := Case(s, LibraryChange(SongRemove, t, 0, ""), 0);
      r.Done? && !LM.Inv(r.next)
  {
    TaggedSongLinks(s, t);
    SongRemoveKeepsTags(s, t);
    var r := Case(s, LibraryChange(SongRemove, t, 0, ""), 0);
    TagListsMissingSong(r.next, s.songs.items[t].tags[0], t);
  }

  // ---------------------------------------------------------------------
  // ArtistRemove

  lemma TaggedArtistLinks(s: LM.LibState, t: nat)
    requires t in s.artists.items && s.artists.items[t].tags != [] && LM.Inv(s)
    ensures var d := s.artists.items[t].tags[0]; d in s.tags.items && t in s.tags.items[d].artists
  {
    LinkedForth(s.artists.items, s.tags.items, LM.ArtistTags, LM.TagArtists, t, s.artists.items[t].tags[0]);
  }

  /** Under the many-to-many links, an item's tag is a tag that lists the item. */
  lemma LinkedForth<C>(cs: map<nat, C>, tags: map<nat, LM.Tag>, ctags: C -> seq<nat>, titems: LM.Tag -> seq<nat>, x: nat, t: nat)
    requires LM.ManyToMany(cs, tags, ctags, titems) && x in cs && t in ctags(cs[x])
    ensures t in tags && x in titems(tags[t])
  {
  }

  /** Under the many-to-many links, an item a tag lists exists. */
  lemma LinkedBack<C>(cs: map<nat, C>, tags: map<nat, LM.Tag>, ctags: C -> seq<nat>, titems: LM.Tag -> seq<nat>, t: nat, x: nat)
    requires LM.ManyToMany(cs, tags, ctags, titems) && t in tags && x in titems(tags[t])
    ensures x in cs
  {
  }

  lemma ArtistRemoveKeepsTags(s: LM.LibState, t: nat)
    requires t in s.artists.items && s.artists.items[t].albums == []
    ensures var r := Case(s, LibraryChange(ArtistRemove, t, 0, ""), 0);
      r.Done? && t !in r.next.artists.items && r.next.tags == s.tags
  {
  }

  /** Removing an artist without albums but with a tag leaves that tag listing an artist that is gone. */
  lemma ArtistRemoveLeavesTag(s: LM.LibState, t: nat)
    requires t in s.artists.items && s.artists.items[t].albums == [] && s.artists.items[t].tags != [] && LM.Inv(s)
    ensures var r := Case(s, LibraryChange(ArtistRemove, t, 0, ""), 0);
      r.Done? && !LM.Inv(r.next)
  {
    TaggedArtistLinks(s, t);
    ArtistRemoveKeepsTags(s, t);
    var r := Case(s, LibraryChange(ArtistRemove, t, 0, ""), 0);
    TagListsMissingArtist(r.next, s.artists.items[t].tags[0], t);
  }

  // ---------------------------------------------------------------------
  // AlbumRemove

  lemma AlbumArtistExists(s: LM.LibState, t: nat)
    requires t in s.albums.items && LM.Inv(s)
    ensures s.albums.items[t].artist in s.artists.items
  {
    assert LM.AlbumArtist(s.albums.items[t]) in s.artists.items;
  }

  /**
   * AlbumRemove on an empty album: done, the album stays in the collection
   * but leaves its artist's list, and the song with the album's id is erased.
   */
  lemma AlbumRemoveKeepsAlbum(s: LM.LibState, t: nat)
    requires t in s.albums.items && s.albums.items[t].artist in s.artists.items && s.albums.items[t].songs == []
    ensures var r := Case(s, LibraryChange(AlbumRemove, t, 0, ""), 0); var a := s.albums.items[t].artist;
      r.Done? && r.next.albums == s.albums && a in r.next.artists.items
      && t !in r.next.artists.items[a].albums && r.next.songs.items == s.songs.items - {t}
  {
  }

  /** Removing an empty album leaves it in place, unknown to its artist, and erases a song instead. */
  lemma AlbumRemoveBreaksLinks(s: LM.LibState, t: nat)
    requires t in s.albums.items && s.albums.items[t].songs == [] && LM.Inv(s)
    ensures var r := Case(s, LibraryChange(AlbumRemove, t, 0, ""), 0);
      r.Done? && t in r.next.albums.items && r.next.songs.items == s.songs.items - {t} && !LM.Inv(r.next)
  {
    AlbumArtistExists(s, t);
    AlbumRemoveKeepsAlbum(s, t);
    var r := Case(s, LibraryChange(AlbumRemove, t, 0, ""), 0);
    ArtistMissesAlbum(r.next, t);
  }

  // ---------------------------------------------------------------------
  // TagSetParent

  /** In a consistent library a tag's child is neither 0 nor its parent. */
  lemma ChildShape(s: LM.LibState, t: nat, d: nat)
    requires t in s.tags.items && d in s.tags.items && s.tags.items[d].parent == t && LM.Inv(s)
    ensures t != 0 && d != 0 && d != t && s.tags.items[t].parent != d
  {
    var P := LM.Parents(s.tags.items);
    SharedLibrary.InvTagShape(s);
    TagForest.NoSelfParent(P, d);
    if s.tags.items[t].parent == d {
      assert TagForest.ReachesRoot(P, t);
      var n: nat :| TagForest.Walk(P, t, n) == 0;
      TwoCycleNeverRoots(P, t, d, t, n);
    }
  }

  /** TagSetParent of a tag under its own child: done, and the two name each other as parent. */
  lemma ReparentUnderChild(s: LM.LibState, t: nat, d: nat)
    requires t in s.tags.items && d in s.tags.items && s.tags.items[d].parent == t
    requires d != t && s.tags.items[t].parent != d
    ensures var r := Case(s, LibraryChange(TagSetParent, t, d, ""), 0);
      r.Done? && t in r.next.tags.items && d in r.next.tags.items
      && r.next.tags.items[t].parent == d && r.next.tags.items[d].parent == t
  {
  }

  /** Moving a tag under its own child makes the two a cycle that never reaches the root. */
  lemma TagSetParentMakesCycle(s: LM.LibState, t: nat, d: nat)
    requires t in s.tags.items && d in s.tags.items && s.tags.items[d].parent == t && LM.Inv(s)
    ensures var r := Case(s, LibraryChange(TagSetParent, t, d, ""), 0);
      r.Done? && !TagForest.Acyclic(LM.Parents(r.next.tags.items))
  {
    ChildShape(s, t, d);
    ReparentUnderChild(s, t, d);
    var r := Case(s, LibraryChange(TagSetParent, t, d, ""), 0);
    var P := LM.Parents(r.next.tags.items);
    if TagForest.ReachesRoot(P, t) {
      var n: nat :| TagForest.Walk(P, t, n) == 0;
      TwoCycleNeverRoots(P, t, d, t, n);
    }
  }

  // ---------------------------------------------------------------------
  // commit(QVector)

  /**
   * A new library given one change stamped revision 5: the change is
   * committed, and logged under revision 1.
   */
  lemma ReplayRestampsGap()
    ensures var c := CommittedLibraryChange(LibraryChange(ArtistAdd, 0, 0, "B"), 5);
      var (stopped, d) := Replay(EmptyDb(), [c], [0]);
      !stopped && d.lib.revision == 1 && |d.committed| == 1 && d.committed[0].revision == 1
      && d.committed[0].revision != c.revision
  {
    var c := CommittedLibraryChange(LibraryChange(ArtistAdd, 0, 0, "B"), 5);
    assert [c][..0] == [];
  }

  /** The shared library's replay skips that change and leaves the library as it was. */
  lemma ReplayGapSkipped()
    ensures var c := LM.CommittedChange(LM.ChangeRequest(LM.ArtistAdd, 0, 0, "B"), 5, 0);
      SharedLibrary.Replay(LM.EmptyState(), [c], [0]) == (false, LM.EmptyState())
  {
    var c := LM.CommittedChange(LM.ChangeRequest(LM.ArtistAdd, 0, 0, "B"), 5, 0);
    assert [c][..0] == [];
  }
}
