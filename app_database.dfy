// The app's Database (src/app/src/database/database.cpp): it holds the
// library the app shows, keeps it in step with the server by asking for the
// whole library once and for the change list since its revision afterwards,
// sends the change requests edits and removals turn into, and follows the
// downloads it started until the server no longer lists them. Requests go
// out as values of ServerRequest and are numbered by the order they were
// sent; what a reply's bytes parse to is handed in as a Payload. The
// library's own commit is a parameter whose revision behaviour is stated,
// and LibraryModel.Commit is shown to have it.
module AppDatabase {

  import opened Wrappers
  import LM = LibraryModel
  import Sorting
  import Decimal

  /** What a running request was for. */
  datatype RequestType = LibraryGet | LibraryUpdate | BandcampDownload | YoutubeDownload | DownloadQuery | LibraryChanges

  /** NetCommon::DownloadRequest::Type. */
  datatype DownloadType = BandcampAlbum | YoutubeVideo | YoutubePlaylist

  /** NetCommon::DownloadRequest. */
  datatype DownloadRequest = DownloadRequest(
    tp: DownloadType, url: string, artistId: nat, artistName: string, albumName: string, currentRevision: nat)

  /** A request sent to the server, by what it asks for. */
  datatype ServerRequest =
    | GetLibrary
    | GetChangeList(since: nat)
    | RequestChanges(changes: seq<LM.ChangeRequest>)
    | NewDownload(request: DownloadRequest)
    | RunningDownloads

  /** The script a request goes to. */
  function PathOf(r: ServerRequest): string
  {
    match r
    case GetLibrary => "/lib.do"
    case GetChangeList(_) => "/get-change-list.do"
    case RequestChanges(_) => "/request-changes.do"
    case NewDownload(_) => "/download.do"
    case RunningDownloads => "/running-downloads.do"
  }

  /** The query of a change-list request: "v=" and the revision in decimal. */
  function ChangeListQuery(since: nat): (q: string)
    ensures |q| > 2 && q[..2] == "v=" && Decimal.AllDigits(q[2..])
  {
    "v=" + Decimal.NatToString(since)
  }

  /** The revision asked for is read back from the query. */
  lemma ChangeListQueryRoundTrip(since: nat)
    ensures Decimal.DigitsValue(ChangeListQuery(since)[2..]) == since
  {
    assert ChangeListQuery(since)[2..] == Decimal.NatToString(since);
    Decimal.NatToStringValue(since);
  }

  /** A download started: the request, the tags for its artist, the reply awaited and the id the server gave it. */
  datatype Download = Download(request: DownloadRequest, albumTags: seq<nat>, reply: Option<nat>, id: int)

  /** What a reply's data parses to, as each kind of request reads it. */
  datatype Payload = Payload(
    library: Option<LM.LibState>, changes: Option<seq<LM.CommittedChange>>, number: int, runningIds: seq<int>)

  /** Everything the Database holds. */
  datatype DbState = DbState(
    hasLibrary: bool, lib: LM.LibState, requests: map<nat, RequestType>, sent: seq<ServerRequest>,
    waiting: seq<LM.CommittedChange>, downloads: seq<Download>, downloadsPending: bool, changesPending: bool,
    downloadQuery: Option<nat>, libraryChanged: nat)

  /** Library::commit applied to the app's library. */
  type Committer = (LM.LibState, LM.ChangeRequest) -> LM.LibState

  /** A commit leaves the revision or advances it by one. */
  ghost predicate Monotone(commit: Committer)
  {
    forall l, r :: commit(l, r).revision == l.revision || commit(l, r).revision == l.revision + 1
  }

  /** A commit that accepts every change. */
  ghost predicate AlwaysAdvances(commit: Committer)
  {
    forall l, r :: commit(l, r).revision == l.revision + 1
  }

  /** The library's commit, whichever file ending it settles on, is monotone. */
  lemma LibraryCommitMonotone(ending: nat)
    ensures Monotone((l, r) => LM.Commit(l, r, ending).1)
  {
    forall l, r
      ensures LM.Commit(l, r, ending).1.revision == l.revision || LM.Commit(l, r, ending).1.revision == l.revision + 1
    {
      var res := LM.Commit(l, r, ending);
      if res.0.Committed? {
        assert res.1.revision == l.revision + 1;
      }
    }
  }

  // ---------------------------------------------------------------------
  // Requests

  /** hasRunningRequestType. */
  function HasRunning(requests: map<nat, RequestType>, t: RequestType): (b: bool)
    ensures b <==> exists r :: r in requests && requests[r] == t
  {
    t in requests.Values
  }

  /** requestFromServer followed by recording what the reply is for: the reply is numbered by the sending order. */
  function Send(s: DbState, r: ServerRequest, t: RequestType): (res: (DbState, nat))
    ensures res.1 == |s.sent| && res.0.sent == s.sent + [r] && res.0.requests == s.requests[|s.sent| := t]
  {
    (s.(sent := s.sent + [r], requests := s.requests[|s.sent| := t]), |s.sent|)
  }

  /** Replies are numbered below the count of requests sent, and a query reply is the one the query field names. */
  predicate Valid(s: DbState)
  {
    (forall r :: r in s.requests ==> r < |s.sent|)
    && (forall r :: r in s.requests && s.requests[r] == DownloadQuery ==> s.downloadQuery == Some(r))
  }

  /** At most one request for the library or its changes is running. */
  predicate SingleSync(s: DbState)
  {
    forall r1, r2 :: r1 in s.requests && r2 in s.requests && IsSync(s.requests[r1]) && IsSync(s.requests[r2]) ==> r1 == r2
  }

  predicate IsSync(t: RequestType)
  {
    t == LibraryGet || t == LibraryUpdate
  }

  /**
   * sync: nothing while the library or its changes are being fetched;
   * otherwise the whole library when none is held, else the changes since
   * the held revision.
   */
  function Synced(s: DbState): (res: (DbState, Option<nat>))
  {
    if HasRunning(s.requests, LibraryGet) || HasRunning(s.requests, LibraryUpdate) then (s, None)
    else if !s.hasLibrary then
      var (t, r) := Send(s, GetLibrary, LibraryGet); (t, Some(r))
    else
      var (t, r) := Send(s, GetChangeList(s.lib.revision), LibraryUpdate); (t, Some(r))
  }

  /** A sync sends exactly when none is running, and what it asks for depends on whether a library is held. */
  lemma SyncRequests(s: DbState)
    ensures var (t, r) := Synced(s);
      && (r.Some? <==> !(exists q :: q in s.requests && IsSync(s.requests[q])))
      && (r.None? ==> t == s)
      && (r.Some? ==> t.sent == s.sent + [if s.hasLibrary then GetChangeList(s.lib.revision) else GetLibrary])
  {
    if exists q :: q in s.requests && IsSync(s.requests[q]) {
      var q :| q in s.requests && IsSync(s.requests[q]);
      assert HasRunning(s.requests, s.requests[q]);
    }
  }

  /** Syncing keeps at most one library request running. */
  lemma SyncKeepsSingleSync(s: DbState)
    requires Valid(s) && SingleSync(s)
    ensures Valid(Synced(s).0) && SingleSync(Synced(s).0)
  {
    SyncRequests(s);
  }

  /** sendChangeRequests: nothing for no changes; otherwise the changes go out and are pending. */
  function SendChanges(s: DbState, changes: seq<LM.ChangeRequest>): (res: (DbState, Option<nat>))
    ensures changes == [] <==> res.1.None?
    ensures changes == [] ==> res.0 == s
  {
    if changes == [] then (s, None)
    else
      var (t, r) := Send(s, RequestChanges(changes), LibraryChanges);
      (t.(changesPending := true), Some(r))
  }

  /** download: stamped with the held revision, sent, and followed until the server is done with it. */
  function StartDownloadOf(s: DbState, request: DownloadRequest, albumTags: seq<nat>): (res: (DbState, nat))
    requires request.tp != YoutubePlaylist
    ensures res.0.downloadsPending
    ensures res.0.downloads == s.downloads + [Download(request.(currentRevision := s.lib.revision), albumTags, Some(res.1), 0)]
  {
    var stamped := request.(currentRevision := s.lib.revision);
    var (t, r) := Send(s, NewDownload(stamped), if request.tp == BandcampAlbum then BandcampDownload else YoutubeDownload);
    (t.(downloads := s.downloads + [Download(stamped, albumTags, Some(r), 0)], downloadsPending := true), r)
  }

  // ---------------------------------------------------------------------
  // Item details

  /** The elements of a list. */
  function ElementsOf(s: seq<nat>): set<nat>
  {
    set i | 0 <= i < |s| :: s[i]
  }

  /** The elements of from that are not among among, in order. */
  function Missing(from: seq<nat>, among: seq<nat>): (r: seq<nat>)
    ensures |r| <= |from|
  {
    if from == [] then []
    else Missing(from[..|from| - 1], among) + (if from[|from| - 1] in among then [] else [from[|from| - 1]])
  }

  /** An element is missing exactly when it is in from and not in among. */
  lemma {:induction false} MissingMembers(from: seq<nat>, among: seq<nat>, x: nat)
    ensures x in Missing(from, among) <==> x in from && x !in among
  {
    if from != [] {
      var init := from[..|from| - 1];
      MissingMembers(init, among, x);
      assert from == init + [from[|from| - 1]];
    }
  }

  /** One change of a type per tag, on the same item. */
  function TagChanges(t: LM.ChangeType, id: nat, tags: seq<nat>): (r: seq<LM.ChangeRequest>)
    ensures |r| == |tags|
    ensures forall k :: 0 <= k < |tags| ==> r[k] == LM.ChangeRequest(t, id, tags[k], "")
  {
    seq(|tags|, k requires 0 <= k < |tags| => LM.ChangeRequest(t, id, tags[k], ""))
  }

  /** The three change types of an item kind. */
  datatype DetailTypes = DetailTypes(setName: LM.ChangeType, addTag: LM.ChangeType, removeTag: LM.ChangeType)

  predicate Distinct3(k: DetailTypes)
  {
    k.setName != k.addTag && k.setName != k.removeTag && k.addTag != k.removeTag
  }

  const ArtistDetails := DetailTypes(LM.ArtistSetName, LM.ArtistAddTag, LM.ArtistRemoveTag)
  const AlbumDetails := DetailTypes(LM.AlbumSetName, LM.AlbumAddTag, LM.AlbumRemoveTag)
  const SongDetails := DetailTypes(LM.SongSetName, LM.SongAddTag, LM.SongRemoveTag)

  /**
   * setItemDetails' change list: a new name when it differs, then the
   * removal of each old tag not kept, in the old order, then the addition
   * of each new tag not held, in the new order.
   */
  function DetailChanges(id: nat, oldName: string, oldTags: seq<nat>, newName: string, newTags: seq<nat>, k: DetailTypes): seq<LM.ChangeRequest>
  {
    (if oldName != newName then [LM.ChangeRequest(k.setName, id, 0, newName)] else [])
    + TagChanges(k.removeTag, id, Missing(oldTags, newTags))
    + TagChanges(k.addTag, id, Missing(newTags, oldTags))
  }

  lemma TagChangesMembers(t: LM.ChangeType, id: nat, tags: seq<nat>, c: LM.ChangeRequest)
    ensures c in TagChanges(t, id, tags) <==> c.changeType == t && c.targetId == id && c.detail in tags && c.name == ""
  {
    if c.changeType == t && c.targetId == id && c.detail in tags && c.name == "" {
      var k :| 0 <= k < |tags| && tags[k] == c.detail;
      assert TagChanges(t, id, tags)[k] == c;
    }
  }

  /**
   * The change list says exactly what differs: a renaming iff the names
   * differ, a tag removed iff it is old and not new, a tag added iff it is
   * new and not old.
   */
  lemma DetailChangesExact(id: nat, oldName: string, oldTags: seq<nat>, newName: string, newTags: seq<nat>, k: DetailTypes, t: nat)
    requires Distinct3(k)
    ensures var cs := DetailChanges(id, oldName, oldTags, newName, newTags, k);
      && (LM.ChangeRequest(k.setName, id, 0, newName) in cs <==> oldName != newName)
      && (LM.ChangeRequest(k.removeTag, id, t, "") in cs <==> t in oldTags && t !in newTags)
      && (LM.ChangeRequest(k.addTag, id, t, "") in cs <==> t in newTags && t !in oldTags)
  {
    var named := if oldName != newName then [LM.ChangeRequest(k.setName, id, 0, newName)] else [];
    var removed := TagChanges(k.removeTag, id, Missing(oldTags, newTags));
    var added := TagChanges(k.addTag, id, Missing(newTags, oldTags));
    var rm := LM.ChangeRequest(k.removeTag, id, t, "");
    var ad := LM.ChangeRequest(k.addTag, id, t, "");
    var sn := LM.ChangeRequest(k.setName, id, 0, newName);
    TagChangesMembers(k.removeTag, id, Missing(oldTags, newTags), rm);
    TagChangesMembers(k.addTag, id, Missing(newTags, oldTags), rm);
    TagChangesMembers(k.removeTag, id, Missing(oldTags, newTags), ad);
    TagChangesMembers(k.addTag, id, Missing(newTags, oldTags), ad);
    TagChangesMembers(k.removeTag, id, Missing(oldTags, newTags), sn);
    TagChangesMembers(k.addTag, id, Missing(newTags, oldTags), sn);
    MissingMembers(oldTags, newTags, t);
    MissingMembers(newTags, oldTags, t);
    assert DetailChanges(id, oldName, oldTags, newName, newTags, k) == named + removed + added;
  }

  /** Taking away the removed tags and adding the added ones turns the old tag set into the new one. */
  lemma DetailChangesReachNewTags(id: nat, oldName: string, oldTags: seq<nat>, newName: string, newTags: seq<nat>, k: DetailTypes)
    requires Distinct3(k)
    ensures var cs := DetailChanges(id, oldName, oldTags, newName, newTags, k);
      var removed := set t | t in oldTags && LM.ChangeRequest(k.removeTag, id, t, "") in cs;
      var added := set t | t in newTags && LM.ChangeRequest(k.addTag, id, t, "") in cs;
      (ElementsOf(oldTags) - removed) + added == ElementsOf(newTags)
  {
    var cs := DetailChanges(id, oldName, oldTags, newName, newTags, k);
    var removed := set t | t in oldTags && LM.ChangeRequest(k.removeTag, id, t, "") in cs;
    var added := set t | t in newTags && LM.ChangeRequest(k.addTag, id, t, "") in cs;
    forall t
      ensures t in (ElementsOf(oldTags) - removed) + added <==> t in ElementsOf(newTags)
    {
      DetailChangesExact(id, oldName, oldTags, newName, newTags, k, t);
      ElementsOfMembers(oldTags, t);
      ElementsOfMembers(newTags, t);
    }
  }

  lemma ElementsOfMembers(s: seq<nat>, x: nat)
    ensures x in ElementsOf(s) <==> x in s
  {
    if x in s {
      var i :| 0 <= i < |s| && s[i] == x;
      assert s[i] in ElementsOf(s);
    }
  }

  // ---------------------------------------------------------------------
  // Removals

  /** The library's accessors answer nothing for an unknown id. */
  function SongTagsOf(lib: LM.LibState, id: nat): seq<nat>
  {
    if id in lib.songs.items then lib.songs.items[id].tags else []
  }

  function AlbumSongsOf(lib: LM.LibState, id: nat): seq<nat>
  {
    if id in lib.albums.items then lib.albums.items[id].songs else []
  }

  function AlbumTagsOf(lib: LM.LibState, id: nat): seq<nat>
  {
    if id in lib.albums.items then lib.albums.items[id].tags else []
  }

  function AlbumNameOf(lib: LM.LibState, id: nat): string
  {
    if id in lib.albums.items then lib.albums.items[id].name else ""
  }

  function ArtistAlbumsOf(lib: LM.LibState, id: nat): seq<nat>
  {
    if id in lib.artists.items then lib.artists.items[id].albums else []
  }

  function ArtistTagsOf(lib: LM.LibState, id: nat): seq<nat>
  {
    if id in lib.artists.items then lib.artists.items[id].tags else []
  }

  function ArtistNameOf(lib: LM.LibState, id: nat): string
  {
    if id in lib.artists.items then lib.artists.items[id].name else ""
  }

  function SongNameOf(lib: LM.LibState, id: nat): string
  {
    if id in lib.songs.items then lib.songs.items[id].name else ""
  }

  /** addRemoveSong: the song's tags come off, then the song goes. */
  function SongRemoval(lib: LM.LibState, id: nat): seq<LM.ChangeRequest>
  {
    TagChanges(LM.SongRemoveTag, id, SongTagsOf(lib, id)) + [LM.ChangeRequest(LM.SongRemove, id, 0, "")]
  }

  function SongsRemoval(lib: LM.LibState, songs: seq<nat>): seq<LM.ChangeRequest>
  {
    if songs == [] then [] else SongsRemoval(lib, songs[..|songs| - 1]) + SongRemoval(lib, songs[|songs| - 1])
  }

  /** addRemoveAlbum: its songs' removals, its tags, then the album. */
  function AlbumRemoval(lib: LM.LibState, id: nat): seq<LM.ChangeRequest>
  {
    SongsRemoval(lib, AlbumSongsOf(lib, id)) + TagChanges(LM.AlbumRemoveTag, id, AlbumTagsOf(lib, id))
    + [LM.ChangeRequest(LM.AlbumRemove, id, 0, "")]
  }

  function AlbumsRemoval(lib: LM.LibState, albums: seq<nat>): seq<LM.ChangeRequest>
  {
    if albums == [] then [] else AlbumsRemoval(lib, albums[..|albums| - 1]) + AlbumRemoval(lib, albums[|albums| - 1])
  }

  lemma AppendTwo<T>(s: seq<T>, a: seq<T>, b: seq<T>, sa: seq<T>, sab: seq<T>)
    requires sa == s + a && sab == sa + b
    ensures sab == s + (a + b)
  {
  }

  lemma AppendThree<T>(s: seq<T>, a: seq<T>, b: seq<T>, c: seq<T>, sa: seq<T>, sab: seq<T>, sabc: seq<T>)
    requires sa == s + a && sab == sa + b && sabc == sab + c
    ensures sabc == s + (a + b + c)
  {
  }

  lemma SongsRemovalStep(lib: LM.LibState, songs: seq<nat>, i: nat)
    requires i < |songs|
    ensures SongsRemoval(lib, songs[..i + 1]) == SongsRemoval(lib, songs[..i]) + SongRemoval(lib, songs[i])
  {
    assert songs[..i + 1][..i] == songs[..i];
  }

  lemma AlbumsRemovalStep(lib: LM.LibState, albums: seq<nat>, i: nat)
    requires i < |albums|
    ensures AlbumsRemoval(lib, albums[..i + 1]) == AlbumsRemoval(lib, albums[..i]) + AlbumRemoval(lib, albums[i])
  {
    assert albums[..i + 1][..i] == albums[..i];
  }

  /** addRemoveArtist: its albums' removals, its tags, then the artist. */
  function ArtistRemoval(lib: LM.LibState, id: nat): seq<LM.ChangeRequest>
  {
    AlbumsRemoval(lib, ArtistAlbumsOf(lib, id)) + TagChanges(LM.ArtistRemoveTag, id, ArtistTagsOf(lib, id))
    + [LM.ChangeRequest(LM.ArtistRemove, id, 0, "")]
  }

  /** Only song changes: tag removals and song removals. */
  predicate SongChangesOnly(cs: seq<LM.ChangeRequest>)
  {
    forall k :: 0 <= k < |cs| ==> cs[k].changeType == LM.SongRemoveTag || cs[k].changeType == LM.SongRemove
  }

  /** Song and album removals and their tag removals only. */
  predicate AlbumChangesOnly(cs: seq<LM.ChangeRequest>)
  {
    forall k :: 0 <= k < |cs| ==>
      cs[k].changeType in {LM.SongRemoveTag, LM.SongRemove, LM.AlbumRemoveTag, LM.AlbumRemove}
  }

  /** A song's removal ends in the song's own removal, after the removal of each of its tags. */
  lemma SongRemovalOrder(lib: LM.LibState, id: nat)
    ensures var cs := SongRemoval(lib, id);
      && cs[|cs| - 1] == LM.ChangeRequest(LM.SongRemove, id, 0, "")
      && (forall t :: t in SongTagsOf(lib, id) ==> LM.ChangeRequest(LM.SongRemoveTag, id, t, "") in cs[..|cs| - 1])
      && (forall k :: 0 <= k < |cs| - 1 ==> cs[k].changeType == LM.SongRemoveTag)
  {
    var tags := SongTagsOf(lib, id);
    var cs := SongRemoval(lib, id);
    assert cs[..|cs| - 1] == TagChanges(LM.SongRemoveTag, id, tags);
    forall t | t in tags
      ensures LM.ChangeRequest(LM.SongRemoveTag, id, t, "") in cs[..|cs| - 1]
    {
      TagChangesMembers(LM.SongRemoveTag, id, tags, LM.ChangeRequest(LM.SongRemoveTag, id, t, ""));
    }
  }

  /** Removing songs removes each of them, and changes nothing but songs. */
  lemma {:induction false} SongsRemovalCovers(lib: LM.LibState, songs: seq<nat>)
    ensures SongChangesOnly(SongsRemoval(lib, songs))
    ensures forall s :: s in songs ==> LM.ChangeRequest(LM.SongRemove, s, 0, "") in SongsRemoval(lib, songs)
  {
    if songs != [] {
      var init := songs[..|songs| - 1];
      var last := songs[|songs| - 1];
      SongsRemovalCovers(lib, init);
      SongRemovalOrder(lib, last);
      var a: seq<LM.ChangeRequest> := SongsRemoval(lib, init);
      var b: seq<LM.ChangeRequest> := SongRemoval(lib, last);
      assert SongChangesOnly(a + b) by {
        forall k | 0 <= k < |a + b|
          ensures (a + b)[k].changeType == LM.SongRemoveTag || (a + b)[k].changeType == LM.SongRemove
        {
          if k >= |a| {
            assert (a + b)[k] == b[k - |a|];
          }
        }
      }
      forall s | s in songs
        ensures LM.ChangeRequest(LM.SongRemove, s, 0, "") in a + b
      {
        if s != last {
          assert s in init by {
            var i :| 0 <= i < |songs| && songs[i] == s;
            assert i < |songs| - 1;
            assert init[i] == s;
          }
        } else {
          assert b[|b| - 1] in a + b;
        }
      }
    }
  }

  /**
   * An album's removal ends in the album's own removal, after every one of
   * its songs' removals and its tags', and nothing before it removes an
   * album.
   */
  lemma AlbumRemovalOrder(lib: LM.LibState, id: nat)
    ensures var cs := AlbumRemoval(lib, id);
      && cs[|cs| - 1] == LM.ChangeRequest(LM.AlbumRemove, id, 0, "")
      && (forall s :: s in AlbumSongsOf(lib, id) ==> LM.ChangeRequest(LM.SongRemove, s, 0, "") in cs[..|cs| - 1])
      && (forall t :: t in AlbumTagsOf(lib, id) ==> LM.ChangeRequest(LM.AlbumRemoveTag, id, t, "") in cs[..|cs| - 1])
      && (forall k :: 0 <= k < |cs| - 1 ==> cs[k].changeType != LM.AlbumRemove && cs[k].changeType != LM.ArtistRemove)
  {
    var songs := SongsRemoval(lib, AlbumSongsOf(lib, id));
    var tags := TagChanges(LM.AlbumRemoveTag, id, AlbumTagsOf(lib, id));
    var cs := AlbumRemoval(lib, id);
    SongsRemovalCovers(lib, AlbumSongsOf(lib, id));
    assert cs[..|cs| - 1] == songs + tags;
    forall t | t in AlbumTagsOf(lib, id)
      ensures LM.ChangeRequest(LM.AlbumRemoveTag, id, t, "") in songs + tags
    {
      TagChangesMembers(LM.AlbumRemoveTag, id, AlbumTagsOf(lib, id), LM.ChangeRequest(LM.AlbumRemoveTag, id, t, ""));
    }
    forall k | 0 <= k < |cs| - 1
      ensures cs[k].changeType != LM.AlbumRemove && cs[k].changeType != LM.ArtistRemove
    {
      assert cs[k] == (songs + tags)[k];
      if k >= |songs| {
        assert (songs + tags)[k] == tags[k - |songs|];
      }
    }
  }

  /** Removing albums removes each of them, and changes nothing but songs and albums. */
  lemma {:induction false} AlbumsRemovalCovers(lib: LM.LibState, albums: seq<nat>)
    ensures AlbumChangesOnly(AlbumsRemoval(lib, albums))
    ensures forall a :: a in albums ==> LM.ChangeRequest(LM.AlbumRemove, a, 0, "") in AlbumsRemoval(lib, albums)
  {
    if albums != [] {
      var init := albums[..|albums| - 1];
      var last := albums[|albums| - 1];
      AlbumsRemovalCovers(lib, init);
      AlbumRemovalOrder(lib, last);
      SongsRemovalCovers(lib, AlbumSongsOf(lib, last));
      var a: seq<LM.ChangeRequest> := AlbumsRemoval(lib, init);
      var b: seq<LM.ChangeRequest> := AlbumRemoval(lib, last);
      var bs := SongsRemoval(lib, AlbumSongsOf(lib, last));
      var bt := TagChanges(LM.AlbumRemoveTag, last, AlbumTagsOf(lib, last));
      assert b == bs + bt + [LM.ChangeRequest(LM.AlbumRemove, last, 0, "")];
      assert AlbumChangesOnly(b) by {
        forall k | 0 <= k < |b|
          ensures b[k].changeType in {LM.SongRemoveTag, LM.SongRemove, LM.AlbumRemoveTag, LM.AlbumRemove}
        {
          if k < |bs| {
            assert b[k] == bs[k];
          } else if k < |bs| + |bt| {
            assert b[k] == bt[k - |bs|];
          }
        }
      }
      assert AlbumChangesOnly(a + b) by {
        forall k | 0 <= k < |a + b|
          ensures (a + b)[k].changeType in {LM.SongRemoveTag, LM.SongRemove, LM.AlbumRemoveTag, LM.AlbumRemove}
        {
          if k >= |a| {
            assert (a + b)[k] == b[k - |a|];
          }
        }
      }
      forall x | x in albums
        ensures LM.ChangeRequest(LM.AlbumRemove, x, 0, "") in a + b
      {
        if x != last {
          assert x in init by {
            var i :| 0 <= i < |albums| && albums[i] == x;
            assert i < |albums| - 1;
            assert init[i] == x;
          }
        } else {
          assert b[|b| - 1] in a + b;
        }
      }
    }
  }

  /**
   * An artist's removal ends in the artist's own removal, after every one of
   * its albums' removals and its tags', and nothing before it removes an
   * artist.
   */
  lemma ArtistRemovalOrder(lib: LM.LibState, id: nat)
    ensures var cs := ArtistRemoval(lib, id);
      && cs[|cs| - 1] == LM.ChangeRequest(LM.ArtistRemove, id, 0, "")
      && (forall a :: a in ArtistAlbumsOf(lib, id) ==> LM.ChangeRequest(LM.AlbumRemove, a, 0, "") in cs[..|cs| - 1])
      && (forall t :: t in ArtistTagsOf(lib, id) ==> LM.ChangeRequest(LM.ArtistRemoveTag, id, t, "") in cs[..|cs| - 1])
      && (forall k :: 0 <= k < |cs| - 1 ==> cs[k].changeType != LM.ArtistRemove)
  {
    var albums := AlbumsRemoval(lib, ArtistAlbumsOf(lib, id));
    var tags := TagChanges(LM.ArtistRemoveTag, id, ArtistTagsOf(lib, id));
    var cs := ArtistRemoval(lib, id);
    AlbumsRemovalCovers(lib, ArtistAlbumsOf(lib, id));
    assert cs[..|cs| - 1] == albums + tags;
    forall t | t in ArtistTagsOf(lib, id)
      ensures LM.ChangeRequest(LM.ArtistRemoveTag, id, t, "") in albums + tags
    {
      TagChangesMembers(LM.ArtistRemoveTag, id, ArtistTagsOf(lib, id), LM.ChangeRequest(LM.ArtistRemoveTag, id, t, ""));
    }
    forall k | 0 <= k < |cs| - 1
      ensures cs[k].changeType != LM.ArtistRemove
    {
      assert cs[k] == (albums + tags)[k];
      if k >= |albums| {
        assert (albums + tags)[k] == tags[k - |albums|];
      }
    }
  }

  // ---------------------------------------------------------------------
  // Applying the server's changes

  /** The order the waiting changes are sorted in. */
  function ByRevision(a: LM.CommittedChange, b: LM.CommittedChange): bool
  {
    a.committedRevision < b.committedRevision
  }

  /**
   * The walk over the sorted waiting changes: an entry at or below the
   * library's revision is erased, one just above it is committed and kept,
   * and the first other entry ends the walk, keeping the rest. kept and
   * applied gather what was kept and what was handed to commit.
   */
  function Walk(ws: seq<LM.CommittedChange>, lib: LM.LibState, commit: Committer,
                kept: seq<LM.CommittedChange>, applied: seq<LM.ChangeRequest>)
    : (res: (seq<LM.CommittedChange>, LM.LibState, seq<LM.ChangeRequest>))
    ensures forall c :: c in res.0 ==> c in kept || c in ws
    ensures |res.2| + |kept| <= |res.0| + |applied|
    decreases |ws|
  {
    if ws == [] then (kept, lib, applied)
    else if ws[0].committedRevision <= lib.revision then Walk(ws[1..], lib, commit, kept, applied)
    else if ws[0].committedRevision == lib.revision + 1 then
      Walk(ws[1..], commit(lib, ws[0].request), commit, kept + [ws[0]], applied + [ws[0].request])
    else (kept + ws, lib, applied)
  }

  /** Every entry kept is above the revision the walk started from: all at or below it are erased, duplicates included. */
  lemma {:induction false} WalkKeepsAbove(ws: seq<LM.CommittedChange>, lib: LM.LibState, commit: Committer,
                                         kept: seq<LM.CommittedChange>, applied: seq<LM.ChangeRequest>, bound: nat)
    requires Monotone(commit) && bound <= lib.revision && Sorting.SortedBy(ByRevision, ws)
    requires forall c :: c in kept ==> c.committedRevision > bound
    ensures forall c :: c in Walk(ws, lib, commit, kept, applied).0 ==> c.committedRevision > bound
    ensures Walk(ws, lib, commit, kept, applied).1.revision >= lib.revision
    decreases |ws|
  {
    if ws != [] {
      SortedTail(ws);
      if ws[0].committedRevision <= lib.revision {
        WalkKeepsAbove(ws[1..], lib, commit, kept, applied, bound);
      } else if ws[0].committedRevision == lib.revision + 1 {
        var next := commit(lib, ws[0].request);
        assert next.revision >= lib.revision;
        WalkKeepsAbove(ws[1..], next, commit, kept + [ws[0]], applied + [ws[0].request], bound);
      } else {
        forall c | c in kept + ws
          ensures c.committedRevision > bound
        {
          if c !in kept {
            var i :| 0 <= i < |ws| && ws[i] == c;
            SortedAbove(ws, i);
          }
        }
      }
    }
  }

  /** The rest of a sorted list is sorted. */
  lemma SortedTail(ws: seq<LM.CommittedChange>)
    requires Sorting.SortedBy(ByRevision, ws) && ws != []
    ensures Sorting.SortedBy(ByRevision, ws[1..])
  {
    var rest := ws[1..];
    forall i | 0 < i < |rest|
      ensures !ByRevision(rest[i], rest[i - 1])
    {
      assert rest[i] == ws[i + 1] && rest[i - 1] == ws[i];
    }
  }

  /** The changes handed to commit are those kept after the accumulated ones, each at the revision it was committed at. */
  lemma {:induction false} WalkAppliesInOrder(ws: seq<LM.CommittedChange>, lib: LM.LibState, commit: Committer,
                                             kept: seq<LM.CommittedChange>, applied: seq<LM.ChangeRequest>)
    requires AlwaysAdvances(commit)
    ensures var (k, l, a) := Walk(ws, lib, commit, kept, applied);
      |a| >= |applied| && a[..|applied|] == applied && l.revision == lib.revision + |a| - |applied|
    decreases |ws|
  {
    if ws != [] {
      if ws[0].committedRevision <= lib.revision {
        WalkAppliesInOrder(ws[1..], lib, commit, kept, applied);
      } else if ws[0].committedRevision == lib.revision + 1 {
        var next := commit(lib, ws[0].request);
        WalkAppliesInOrder(ws[1..], next, commit, kept + [ws[0]], applied + [ws[0].request]);
        var a := Walk(ws, lib, commit, kept, applied).2;
        assert a[..|applied| + 1][..|applied|] == a[..|applied|];
      }
    }
  }

  /**
   * On a list sorted by revision and a commit that accepts every change, the
   * walk stops only at a gap: no entry carries the revision just above the
   * one reached.
   */
  lemma {:induction false} WalkStopsAtGap(ws: seq<LM.CommittedChange>, lib: LM.LibState, commit: Committer,
                                         kept: seq<LM.CommittedChange>, applied: seq<LM.ChangeRequest>)
    requires AlwaysAdvances(commit) && Sorting.SortedBy(ByRevision, ws)
    ensures var l := Walk(ws, lib, commit, kept, applied).1;
      l.revision >= lib.revision && forall c :: c in ws ==> c.committedRevision != l.revision + 1
    decreases |ws|
  {
    if ws != [] {
      var rest := ws[1..];
      SortedTail(ws);
      if ws[0].committedRevision <= lib.revision {
        WalkStopsAtGap(rest, lib, commit, kept, applied);
        assert ws == [ws[0]] + rest;
      } else if ws[0].committedRevision == lib.revision + 1 {
        var next := commit(lib, ws[0].request);
        WalkStopsAtGap(rest, next, commit, kept + [ws[0]], applied + [ws[0].request]);
        assert ws == [ws[0]] + rest;
      } else {
        forall c | c in ws
          ensures c.committedRevision != lib.revision + 1
        {
          var i :| 0 <= i < |ws| && ws[i] == c;
          SortedAbove(ws, i);
        }
      }
    }
  }

  /** In a list sorted by revision, no entry is below the first. */
  lemma {:induction false} SortedAbove(ws: seq<LM.CommittedChange>, i: nat)
    requires Sorting.SortedBy(ByRevision, ws) && i < |ws|
    ensures ws[i].committedRevision >= ws[0].committedRevision
  {
    if i > 0 {
      SortedAbove(ws, i - 1);
      assert !ByRevision(ws[i], ws[i - 1]);
    }
  }

  /**
   * applyLibraryChanges: unreadable data changes nothing and fails;
   * otherwise the changes join the waiting ones, are sorted by revision and
   * walked, and libraryChanged is emitted when anything was committed.
   */
  function ApplyChanges(s: DbState, parsed: Option<seq<LM.CommittedChange>>, commit: Committer): (res: (DbState, bool))
    ensures parsed.None? <==> !res.1
    ensures parsed.None? ==> res.0 == s
  {
    if parsed.None? then (s, false)
    else
      var sorted := Sorting.Sort(ByRevision, s.waiting + parsed.value);
      var (kept, lib, applied) := Walk(sorted, s.lib, commit, [], []);
      (s.(waiting := kept, lib := lib, libraryChanged := if applied != [] then s.libraryChanged + 1 else s.libraryChanged), true)
  }

  /**
   * With a commit that accepts everything, applying changes commits only
   * entries above the held revision, advances it by one per change
   * committed, leaves no entry for the next revision behind, and keeps
   * nothing at or below the revision it started from.
   */
  lemma ApplyChangesAdvances(s: DbState, cs: seq<LM.CommittedChange>, commit: Committer)
    requires AlwaysAdvances(commit)
    ensures var (t, ok) := ApplyChanges(s, Some(cs), commit);
      && ok && t.lib.revision >= s.lib.revision
      && (forall c :: c in s.waiting + cs ==> c.committedRevision != t.lib.revision + 1)
      && (forall c :: c in t.waiting ==> c.committedRevision > s.lib.revision)
      && (t.libraryChanged == s.libraryChanged + 1 <==> t.lib.revision > s.lib.revision)
  {
    var all := s.waiting + cs;
    var sorted := Sorting.Sort(ByRevision, all);
    assert Sorting.Asymmetric(ByRevision);
    Sorting.SortSorted(ByRevision, all);
    assert Monotone(commit);
    WalkStopsAtGap(sorted, s.lib, commit, [], []);
    WalkKeepsAbove(sorted, s.lib, commit, [], [], s.lib.revision);
    WalkAppliesInOrder(sorted, s.lib, commit, [], []);
    forall c | c in all
      ensures c in sorted
    {
      assert multiset(sorted)[c] == multiset(all)[c];
    }
  }

  /** onNewLibrary: a library that deserialises replaces the held one. */
  function NewLibrary(s: DbState, parsed: Option<LM.LibState>): (t: DbState)
    ensures parsed.None? ==> t == s
    ensures parsed.Some? ==> t.hasLibrary && t.lib == parsed.value && t.libraryChanged == s.libraryChanged + 1
  {
    if parsed.Some? then s.(lib := parsed.value, hasLibrary := true, libraryChanged := s.libraryChanged + 1) else s
  }

  // ---------------------------------------------------------------------
  // Downloads

  /** A download is over when its reply has come and the server no longer lists its id. */
  predicate Finished(d: Download, runningIds: seq<int>)
  {
    d.reply.None? && d.id !in runningIds
  }

  /** The downloads still running, in order. */
  function StillRunning(ds: seq<Download>, runningIds: seq<int>): (r: seq<Download>)
    ensures |r| <= |ds|
  {
    if ds == [] then []
    else StillRunning(ds[..|ds| - 1], runningIds) + (if Finished(ds[|ds| - 1], runningIds) then [] else [ds[|ds| - 1]])
  }

  lemma StillRunningStep(ds: seq<Download>, runningIds: seq<int>, j: nat)
    requires j < |ds|
    ensures StillRunning(ds[..j + 1], runningIds)
      == StillRunning(ds[..j], runningIds) + (if Finished(ds[j], runningIds) then [] else [ds[j]])
  {
    assert ds[..j + 1][..j] == ds[..j];
  }

  /** One step of the erase loop: the download at the cursor is erased when over, else passed. */
  lemma DropStep(ds: seq<Download>, runningIds: seq<int>, j: nat, kept: seq<Download>, i: nat)
    requires j < |ds| && kept == StillRunning(ds[..j], runningIds) + ds[j..] && i == |StillRunning(ds[..j], runningIds)|
    ensures i < |kept| && kept[i] == ds[j]
    ensures Finished(ds[j], runningIds) ==> kept[..i] + kept[i + 1..] == StillRunning(ds[..j + 1], runningIds) + ds[j + 1..]
    ensures !Finished(ds[j], runningIds) ==>
      kept == StillRunning(ds[..j + 1], runningIds) + ds[j + 1..] && i + 1 == |StillRunning(ds[..j + 1], runningIds)|
  {
    StillRunningStep(ds, runningIds, j);
    var done := StillRunning(ds[..j], runningIds);
    assert ds[j..] == [ds[j]] + ds[j + 1..];
    assert kept[..i] == done && kept[i + 1..] == ds[j + 1..];
  }

  /** A download stays exactly when it was there and is not over. */
  lemma {:induction false} StillRunningMembers(ds: seq<Download>, runningIds: seq<int>, d: Download)
    ensures d in StillRunning(ds, runningIds) <==> d in ds && !Finished(d, runningIds)
  {
    if ds != [] {
      var init := ds[..|ds| - 1];
      StillRunningMembers(init, runningIds, d);
      assert ds == init + [ds[|ds| - 1]];
    }
  }

  /** Something was dropped exactly when some download is over. */
  lemma {:induction false} StillRunningShorter(ds: seq<Download>, runningIds: seq<int>)
    ensures |StillRunning(ds, runningIds)| < |ds| <==> exists k :: 0 <= k < |ds| && Finished(ds[k], runningIds)
  {
    if ds != [] {
      var init := ds[..|ds| - 1];
      StillRunningShorter(init, runningIds);
      if exists k :: 0 <= k < |init| && Finished(init[k], runningIds) {
        var k :| 0 <= k < |init| && Finished(init[k], runningIds);
        assert ds[k] == init[k];
      }
      if exists k :: 0 <= k < |ds| && Finished(ds[k], runningIds) {
        var k :| 0 <= k < |ds| && Finished(ds[k], runningIds);
        if k < |init| {
          assert init[k] == ds[k];
        }
      }
    }
  }

  /**
   * onDownloadQueryResult: the query is over; downloads the server is done
   * with are dropped and trigger a sync; downloads count as pending while
   * the server lists any.
   */
  function QueryResult(s: DbState, runningIds: seq<int>): (t: DbState)
  {
    var kept := StillRunning(s.downloads, runningIds);
    var s1 := s.(downloadQuery := None, downloads := kept);
    var s2 := if |kept| < |s.downloads| then Synced(s1).0 else s1;
    s2.(downloadsPending := |runningIds| > 0)
  }

  /** A query result keeps exactly the downloads not over, syncs only when one was, and reports downloads pending iff the server listed any. */
  lemma QueryResultDrops(s: DbState, runningIds: seq<int>, d: Download)
    ensures var t := QueryResult(s, runningIds);
      && (d in t.downloads <==> d in s.downloads && !Finished(d, runningIds))
      && t.downloadsPending == (runningIds != [])
      && t.downloadQuery.None?
      && ((forall k :: 0 <= k < |s.downloads| ==> !Finished(s.downloads[k], runningIds)) ==> t.sent == s.sent)
  {
    StillRunningMembers(s.downloads, runningIds, d);
    StillRunningShorter(s.downloads, runningIds);
  }

  /** A download reply: the first download awaiting it gets the id the reply reads as and awaits nothing more. */
  function DownloadReplied(ds: seq<Download>, reply: nat, id: int): (r: seq<Download>)
    ensures |r| == |ds|
  {
    if ds == [] then []
    else if ds[0].reply == Some(reply) then [ds[0].(reply := None, id := id)] + ds[1..]
    else [ds[0]] + DownloadReplied(ds[1..], reply, id)
  }

  /**
   * onNetworkReplyFinished: the reply stops being awaited; the library or
   * its changes are taken in when the reply has no error; a download reply
   * gives the download its id; a query reply is read even on error; then
   * changes count as pending while any change request is running.
   */
  function ReplyFinished(s: DbState, reply: nat, error: bool, payload: Payload, commit: Committer): (t: DbState)
  {
    var s1 := s.(requests := s.requests - {reply});
    var s2 := if reply !in s.requests then s1 else Handled(s1, s.requests[reply], reply, error, payload, commit);
    s2.(changesPending := HasRunning(s2.requests, LibraryChanges))
  }

  /** The switch of onNetworkReplyFinished, once the reply is no longer awaited. */
  function Handled(s: DbState, t: RequestType, reply: nat, error: bool, payload: Payload, commit: Committer): (r: DbState)
  {
    match t
    case LibraryGet => if error then s else NewLibrary(s, payload.library)
    case LibraryUpdate => if error then s else ApplyChanges(s, payload.changes, commit).0
    case LibraryChanges => if error then s else ApplyChanges(s, payload.changes, commit).0
    case BandcampDownload => s.(downloads := DownloadReplied(s.downloads, reply, payload.number))
    case YoutubeDownload => s.(downloads := DownloadReplied(s.downloads, reply, payload.number))
    case DownloadQuery => QueryResult(s, payload.runningIds)
  }

  /** A reply for an error changes no library and applies no change. */
  lemma ReplyWithErrorKeepsLibrary(s: DbState, reply: nat, payload: Payload, commit: Committer)
    requires reply in s.requests && s.requests[reply] != DownloadQuery
    ensures var t := ReplyFinished(s, reply, true, payload, commit);
      t.lib == s.lib && t.waiting == s.waiting && t.hasLibrary == s.hasLibrary && reply !in t.requests
  {
  }

  /** The first download awaiting the reply, if any. */
  predicate FirstAwaiting(ds: seq<Download>, reply: nat, k: nat)
  {
    k < |ds| && ds[k].reply == Some(reply) && forall j :: 0 <= j < k ==> ds[j].reply != Some(reply)
  }

  /** A download reply changes the first download awaiting it and nothing else, or nothing at all when none awaits it. */
  lemma {:induction false} DownloadRepliedAt(ds: seq<Download>, reply: nat, id: int)
    ensures forall k: nat :: FirstAwaiting(ds, reply, k) ==>
      DownloadReplied(ds, reply, id) == ds[k := ds[k].(reply := None, id := id)]
    ensures (forall j :: 0 <= j < |ds| ==> ds[j].reply != Some(reply)) ==> DownloadReplied(ds, reply, id) == ds
  {
    if ds != [] && ds[0].reply != Some(reply) {
      DownloadRepliedAt(ds[1..], reply, id);
      forall k: nat | FirstAwaiting(ds, reply, k)
        ensures DownloadReplied(ds, reply, id) == ds[k := ds[k].(reply := None, id := id)]
      {
        assert FirstAwaiting(ds[1..], reply, k - 1);
        assert [ds[0]] + ds[1..][k - 1 := ds[k].(reply := None, id := id)] == ds[k := ds[k].(reply := None, id := id)];
      }
      if forall j :: 0 <= j < |ds| ==> ds[j].reply != Some(reply) {
        assert forall j :: 0 <= j < |ds| - 1 ==> ds[1..][j].reply != Some(reply);
        assert [ds[0]] + ds[1..] == ds;
      }
    }
  }

  /** onDownloadQueryTimer: the running downloads are asked for, and the reply is remembered as the query. */
  function QueryTimer(s: DbState): (t: DbState)
  {
    var (s1, r) := Send(s, RunningDownloads, DownloadQuery);
    s1.(downloadQuery := Some(r))
  }

  /** A query started while none runs keeps the requests numbered and the query the one DownloadQuery request. */
  lemma QueryTimerKeepsValid(s: DbState)
    requires Valid(s) && s.downloadQuery.None?
    ensures Valid(QueryTimer(s))
    ensures QueryTimer(s).downloadQuery == Some(|s.sent|) && QueryTimer(s).sent == s.sent + [RunningDownloads]
  {
  }

  /** A sync keeps the requests numbered below the count sent and leaves the query alone. */
  lemma SyncedKeepsValid(s: DbState)
    requires Valid(s)
    ensures Valid(Synced(s).0) && Synced(s).0.downloadQuery == s.downloadQuery
  {
  }

  /** Every reply leaves the requests numbered and the query consistent, and a query reply ends the query. */
  lemma ReplyFinishedKeepsValid(s: DbState, reply: nat, error: bool, payload: Payload, commit: Committer)
    requires Valid(s)
    ensures Valid(ReplyFinished(s, reply, error, payload, commit))
    ensures reply in s.requests && s.requests[reply] == DownloadQuery ==>
      ReplyFinished(s, reply, error, payload, commit).downloadQuery.None?
  {
    var s1 := s.(requests := s.requests - {reply});
    assert Valid(s1);
    if reply in s.requests {
      HandledKeepsValid(s1, s.requests[reply], reply, error, payload, commit);
    }
  }

  lemma HandledKeepsValid(s: DbState, t: RequestType, reply: nat, error: bool, payload: Payload, commit: Committer)
    requires Valid(s)
    requires t == DownloadQuery ==> forall r :: r in s.requests ==> s.requests[r] != DownloadQuery
    ensures Valid(Handled(s, t, reply, error, payload, commit))
    ensures t == DownloadQuery ==> Handled(s, t, reply, error, payload, commit).downloadQuery.None?
  {
    match t
    case DownloadQuery =>
      var s2 := s.(downloadQuery := None, downloads := StillRunning(s.downloads, payload.runningIds));
      assert Valid(s2);
      SyncedKeepsValid(s2);
    case LibraryUpdate =>
      var r := ApplyChanges(s, payload.changes, commit).0;
      assert r.requests == s.requests && r.sent == s.sent && r.downloadQuery == s.downloadQuery;
    case LibraryChanges =>
      var r := ApplyChanges(s, payload.changes, commit).0;
      assert r.requests == s.requests && r.sent == s.sent && r.downloadQuery == s.downloadQuery;
    case _ =>
  }

  // ---------------------------------------------------------------------
  // The object

  /** Database: the library held and the requests in flight. */
  class Database {
    var hasLibrary: bool
    var lib: LM.LibState
    var requests: map<nat, RequestType>
    var sent: seq<ServerRequest>
    var waiting: seq<LM.CommittedChange>
    var downloads: seq<Download>
    var downloadsPending: bool
    var changesPending: bool
    var downloadQuery: Option<nat>
    var libraryChanged: nat

    function State(): DbState
      reads this
    {
      DbState(hasLibrary, lib, requests, sent, waiting, downloads, downloadsPending, changesPending, downloadQuery, libraryChanged)
    }

    /** The state after the constructor, before its first sync. */
    constructor(empty: LM.LibState)
      ensures State() == DbState(false, empty, map[], [], [], [], false, false, None, 0)
    {
      hasLibrary := false;
      lib := empty;
      requests := map[];
      sent := [];
      waiting := [];
      downloads := [];
      downloadsPending := false;
      changesPending := false;
      downloadQuery := None;
      libraryChanged := 0;
    }

    method SendRequest(r: ServerRequest, t: RequestType) returns (reply: nat)
      modifies this
      ensures (State(), reply) == Send(old(State()), r, t)
    {
      reply := |sent|;
      sent := sent + [r];
      requests := requests[reply := t];
    }

    /** hasRunningRequestType: a search through the running requests. */
    method HasRunningRequestType(t: RequestType) returns (found: bool)
      ensures found == HasRunning(requests, t)
    {
      var rest := requests.Keys;
      found := false;
      while rest != {}
        invariant rest <= requests.Keys
        invariant found <==> exists r :: r in requests.Keys - rest && requests[r] == t
        decreases rest
      {
        var r :| r in rest;
        if requests[r] == t {
          found := true;
        }
        rest := rest - {r};
      }
    }

    method Sync() returns (reply: Option<nat>)
      modifies this
      ensures (State(), reply) == Synced(old(State()))
    {
      var getting := HasRunningRequestType(LibraryGet);
      var updating := HasRunningRequestType(LibraryUpdate);
      if getting || updating {
        return None;
      }
      var r;
      if !hasLibrary {
        r := SendRequest(GetLibrary, LibraryGet);
      } else {
        r := SendRequest(GetChangeList(lib.revision), LibraryUpdate);
      }
      return Some(r);
    }

    method SendChangeRequests(changes: seq<LM.ChangeRequest>) returns (reply: Option<nat>)
      modifies this
      ensures (State(), reply) == SendChanges(old(State()), changes)
    {
      if changes == [] {
        return None;
      }
      var r := SendRequest(RequestChanges(changes), LibraryChanges);
      changesPending := true;
      return Some(r);
    }

    method StartDownload(request: DownloadRequest, albumTags: seq<nat>) returns (reply: nat)
      requires request.tp != YoutubePlaylist
      modifies this
      ensures (State(), reply) == StartDownloadOf(old(State()), request, albumTags)
    {
      var stamped := request.(currentRevision := lib.revision);
      var t := if request.tp == BandcampAlbum then BandcampDownload else YoutubeDownload;
      reply := SendRequest(NewDownload(stamped), t);
      downloads := downloads + [Download(stamped, albumTags, Some(reply), 0)];
      downloadsPending := true;
    }

    /** setItemDetails' loops: the differences between the old and the new name and tags. */
    static method DetailChangeList(id: nat, oldName: string, oldTags: seq<nat>, newName: string, newTags: seq<nat>, k: DetailTypes)
      returns (changes: seq<LM.ChangeRequest>)
      ensures changes == DetailChanges(id, oldName, oldTags, newName, newTags, k)
    {
      changes := [];
      if oldName != newName {
        changes := changes + [LM.ChangeRequest(k.setName, id, 0, newName)];
      }
      var named := changes;
      var i := 0;
      while i < |oldTags|
        invariant 0 <= i <= |oldTags|
        invariant changes == named + TagChanges(k.removeTag, id, Missing(oldTags[..i], newTags))
      {
        assert oldTags[..i + 1][..i] == oldTags[..i];
        if oldTags[i] !in newTags {
          changes := changes + [LM.ChangeRequest(k.removeTag, id, oldTags[i], "")];
        }
        i := i + 1;
      }
      assert oldTags[..i] == oldTags;
      var removed := changes;
      var j := 0;
      while j < |newTags|
        invariant 0 <= j <= |newTags|
        invariant changes == removed + TagChanges(k.addTag, id, Missing(newTags[..j], oldTags))
      {
        assert newTags[..j + 1][..j] == newTags[..j];
        if newTags[j] !in oldTags {
          changes := changes + [LM.ChangeRequest(k.addTag, id, newTags[j], "")];
        }
        j := j + 1;
      }
      assert newTags[..j] == newTags;
    }

    /** setItemDetails: the differences are sent as one change request. */
    method SetItemDetails(id: nat, oldName: string, oldTags: seq<nat>, newName: string, newTags: seq<nat>, k: DetailTypes)
      returns (reply: Option<nat>)
      modifies this
      ensures (State(), reply) == SendChanges(old(State()), DetailChanges(id, oldName, oldTags, newName, newTags, k))
    {
      var changes := DetailChangeList(id, oldName, oldTags, newName, newTags, k);
      reply := SendChangeRequests(changes);
    }

    method SetArtistDetails(id: nat, name: string, tags: seq<nat>) returns (reply: Option<nat>)
      modifies this
      ensures (State(), reply) == SendChanges(old(State()),
        DetailChanges(id, ArtistNameOf(old(lib), id), ArtistTagsOf(old(lib), id), name, tags, ArtistDetails))
    {
      reply := SetItemDetails(id, ArtistNameOf(lib, id), ArtistTagsOf(lib, id), name, tags, ArtistDetails);
    }

    method SetAlbumDetails(id: nat, name: string, tags: seq<nat>) returns (reply: Option<nat>)
      modifies this
      ensures (State(), reply) == SendChanges(old(State()),
        DetailChanges(id, AlbumNameOf(old(lib), id), AlbumTagsOf(old(lib), id), name, tags, AlbumDetails))
    {
      reply := SetItemDetails(id, AlbumNameOf(lib, id), AlbumTagsOf(lib, id), name, tags, AlbumDetails);
    }

    method SetSongDetails(id: nat, name: string, tags: seq<nat>) returns (reply: Option<nat>)
      modifies this
      ensures (State(), reply) == SendChanges(old(State()),
        DetailChanges(id, SongNameOf(old(lib), id), SongTagsOf(old(lib), id), name, tags, SongDetails))
    {
      reply := SetItemDetails(id, SongNameOf(lib, id), SongTagsOf(lib, id), name, tags, SongDetails);
    }

    /** setAlbumArtist: one change moving the album. */
    method SetAlbumArtist(album: nat, artist: nat) returns (reply: Option<nat>)
      modifies this
      ensures (State(), reply) == SendChanges(old(State()), [LM.ChangeRequest(LM.AlbumSetArtist, album, artist, "")])
    {
      reply := SendChangeRequests([LM.ChangeRequest(LM.AlbumSetArtist, album, artist, "")]);
    }

    /** The tag loop the three addRemove helpers share: one removal per tag, in order. */
    static method AddTagRemovals(changes: seq<LM.ChangeRequest>, t: LM.ChangeType, id: nat, tags: seq<nat>)
      returns (out: seq<LM.ChangeRequest>)
      ensures out == changes + TagChanges(t, id, tags)
    {
      out := changes;
      var i := 0;
      while i < |tags|
        invariant 0 <= i <= |tags|
        invariant out == changes + TagChanges(t, id, tags[..i])
      {
        out := out + [LM.ChangeRequest(t, id, tags[i], "")];
        i := i + 1;
      }
      assert tags[..i] == tags;
    }

    method AddRemoveSong(changes: seq<LM.ChangeRequest>, id: nat) returns (out: seq<LM.ChangeRequest>)
      ensures out == changes + SongRemoval(lib, id)
    {
      out := AddTagRemovals(changes, LM.SongRemoveTag, id, SongTagsOf(lib, id));
      out := out + [LM.ChangeRequest(LM.SongRemove, id, 0, "")];
    }

    method AddRemoveAlbum(changes: seq<LM.ChangeRequest>, id: nat) returns (out: seq<LM.ChangeRequest>)
      ensures out == changes + AlbumRemoval(lib, id)
    {
      var songs := AlbumSongsOf(lib, id);
      out := changes;
      var i := 0;
      while i < |songs|
        invariant 0 <= i <= |songs|
        invariant out == changes + SongsRemoval(lib, songs[..i])
      {
        SongsRemovalStep(lib, songs, i);
        ghost var before := out;
        out := AddRemoveSong(out, songs[i]);
        AppendTwo(changes, SongsRemoval(lib, songs[..i]), SongRemoval(lib, songs[i]), before, out);
        i := i + 1;
      }
      assert songs[..i] == songs;
      out := AddTagRemovals(out, LM.AlbumRemoveTag, id, AlbumTagsOf(lib, id));
      out := out + [LM.ChangeRequest(LM.AlbumRemove, id, 0, "")];
    }

    /** The album loop of addRemoveArtist. */
    method AddAlbumRemovals(changes: seq<LM.ChangeRequest>, albums: seq<nat>) returns (out: seq<LM.ChangeRequest>)
      ensures out == changes + AlbumsRemoval(lib, albums)
    {
      out := changes;
      var i := 0;
      while i < |albums|
        invariant 0 <= i <= |albums|
        invariant out == changes + AlbumsRemoval(lib, albums[..i])
      {
        AlbumsRemovalStep(lib, albums, i);
        ghost var before := out;
        out := AddRemoveAlbum(out, albums[i]);
        AppendTwo(changes, AlbumsRemoval(lib, albums[..i]), AlbumRemoval(lib, albums[i]), before, out);
        i := i + 1;
      }
      assert albums[..i] == albums;
    }

    method AddRemoveArtist(changes: seq<LM.ChangeRequest>, id: nat) returns (out: seq<LM.ChangeRequest>)
      ensures out == changes + ArtistRemoval(lib, id)
    {
      var albums := ArtistAlbumsOf(lib, id);
      out := AddAlbumRemovals(changes, albums);
      ghost var withAlbums := out;
      out := AddTagRemovals(out, LM.ArtistRemoveTag, id, ArtistTagsOf(lib, id));
      ghost var withTags := out;
      out := out + [LM.ChangeRequest(LM.ArtistRemove, id, 0, "")];
      AppendThree(changes, AlbumsRemoval(lib, albums), TagChanges(LM.ArtistRemoveTag, id, ArtistTagsOf(lib, id)),
        [LM.ChangeRequest(LM.ArtistRemove, id, 0, "")], withAlbums, withTags, out);
    }

    method RemoveArtist(id: nat) returns (reply: Option<nat>)
      modifies this
      ensures (State(), reply) == SendChanges(old(State()), ArtistRemoval(old(lib), id))
    {
      var changes := AddRemoveArtist([], id);
      assert changes == ArtistRemoval(lib, id);
      reply := SendChangeRequests(changes);
    }

    method RemoveAlbum(id: nat) returns (reply: Option<nat>)
      modifies this
      ensures (State(), reply) == SendChanges(old(State()), AlbumRemoval(old(lib), id))
    {
      var changes := AddRemoveAlbum([], id);
      assert changes == AlbumRemoval(lib, id);
      reply := SendChangeRequests(changes);
    }

    method RemoveSong(id: nat) returns (reply: Option<nat>)
      modifies this
      ensures (State(), reply) == SendChanges(old(State()), SongRemoval(old(lib), id))
    {
      var changes := AddRemoveSong([], id);
      assert changes == SongRemoval(lib, id);
      reply := SendChangeRequests(changes);
    }

    /** applyLibraryChanges: the waiting list is sorted, then erased from and committed in place. */
    method ApplyLibraryChanges(parsed: Option<seq<LM.CommittedChange>>, commit: Committer) returns (ok: bool)
      modifies this
      ensures (State(), ok) == ApplyChanges(old(State()), parsed, commit)
    {
      if parsed.None? {
        return false;
      }
      var ws := Sorting.Sort(ByRevision, waiting + parsed.value);
      var hasChanged, l;
      ghost var applied;
      ws, l, hasChanged, applied := WalkWaiting(ws, lib, commit);
      waiting, lib := ws, l;
      if hasChanged {
        libraryChanged := libraryChanged + 1;
      }
      return true;
    }

    /** The erase-or-commit loop of applyLibraryChanges, over the sorted waiting list. */
    static method WalkWaiting(sorted: seq<LM.CommittedChange>, lib0: LM.LibState, commit: Committer)
      returns (ws: seq<LM.CommittedChange>, lib: LM.LibState, hasChanged: bool, ghost applied: seq<LM.ChangeRequest>)
      ensures (ws, lib, applied) == Walk(sorted, lib0, commit, [], [])
      ensures hasChanged <==> applied != []
    {
      ws, lib := sorted, lib0;
      hasChanged := false;
      applied := [];
      var i := 0;
      while i < |ws|
        invariant 0 <= i <= |ws|
        invariant Walk(sorted, lib0, commit, [], []) == Walk(ws[i..], lib, commit, ws[..i], applied)
        invariant hasChanged <==> applied != []
        decreases |ws| - i
      {
        var c := ws[i];
        if c.committedRevision <= lib.revision {
          ghost var before := ws;
          assert before[i..][1..] == before[i + 1..];
          ws := ws[..i] + ws[i + 1..];
          assert ws[..i] == before[..i];
          assert ws[i..] == before[i + 1..];
        } else if c.committedRevision == lib.revision + 1 {
          assert ws[i..][1..] == ws[i + 1..];
          assert ws[..i + 1] == ws[..i] + [c];
          lib := commit(lib, c.request);
          hasChanged := true;
          applied := applied + [c.request];
          i := i + 1;
        } else {
          assert ws[..i] + ws[i..] == ws;
          assert Walk(ws[i..], lib, commit, ws[..i], applied) == (ws, lib, applied);
          break;
        }
      }
      if i == |ws| {
        assert ws[..i] == ws;
      }
    }

    /** onNewLibrary. */
    method OnNewLibrary(parsed: Option<LM.LibState>)
      modifies this
      ensures State() == NewLibrary(old(State()), parsed)
    {
      if parsed.Some? {
        lib := parsed.value;
        hasLibrary := true;
        libraryChanged := libraryChanged + 1;
      }
    }

    /** onDownloadQueryTimer. */
    method OnDownloadQueryTimer()
      modifies this
      requires downloadQuery.None?
      ensures State() == QueryTimer(old(State()))
    {
      var r := SendRequest(RunningDownloads, DownloadQuery);
      downloadQuery := Some(r);
    }

    /** The erase loop of onDownloadQueryResult, over the running downloads. */
    static method DropFinished(ds: seq<Download>, runningIds: seq<int>) returns (kept: seq<Download>, needsSync: bool)
      ensures kept == StillRunning(ds, runningIds)
      ensures needsSync <==> |kept| < |ds|
    {
      kept := ds;
      needsSync := false;
      var i, j := 0, 0;
      while j < |ds|
        invariant 0 <= j <= |ds|
        invariant kept == StillRunning(ds[..j], runningIds) + ds[j..]
        invariant i == |StillRunning(ds[..j], runningIds)| <= j
        invariant needsSync <==> i < j
      {
        DropStep(ds, runningIds, j, kept, i);
        if Finished(kept[i], runningIds) {
          needsSync := true;
          kept := kept[..i] + kept[i + 1..];
        } else {
          i := i + 1;
        }
        j := j + 1;
      }
      assert ds[..j] == ds;
    }

    /** onDownloadQueryResult: the running ids are what the reply's JSON array lists. */
    method OnDownloadQueryResult(runningIds: seq<int>)
      modifies this
      requires downloadQuery.Some?
      ensures State() == QueryResult(old(State()), runningIds)
    {
      downloadQuery := None;
      var kept, needsSync := DropFinished(downloads, runningIds);
      downloads := kept;
      if needsSync {
        var _ := Sync();
      }
      downloadsPending := |runningIds| > 0;
    }

    /** The find_if of onNetworkReplyFinished: the first download awaiting the reply takes its id. */
    static method ReplyDownload(ds: seq<Download>, reply: nat, id: int) returns (r: seq<Download>)
      ensures r == DownloadReplied(ds, reply, id)
    {
      DownloadRepliedAt(ds, reply, id);
      var k := 0;
      while k < |ds| && ds[k].reply != Some(reply)
        invariant 0 <= k <= |ds|
        invariant forall j :: 0 <= j < k ==> ds[j].reply != Some(reply)
      {
        k := k + 1;
      }
      if k < |ds| {
        assert FirstAwaiting(ds, reply, k);
        r := ds[k := ds[k].(reply := None, id := id)];
      } else {
        r := ds;
      }
    }

    /** The switch of onNetworkReplyFinished. */
    method Handle(t: RequestType, reply: nat, error: bool, payload: Payload, commit: Committer)
      modifies this
      requires t == DownloadQuery ==> downloadQuery.Some?
      ensures State() == Handled(old(State()), t, reply, error, payload, commit)
    {
      match t {
        case LibraryGet =>
          if !error {
            OnNewLibrary(payload.library);
          }
        case LibraryUpdate =>
          if !error {
            var _ := ApplyLibraryChanges(payload.changes, commit);
          }
        case LibraryChanges =>
          if !error {
            var _ := ApplyLibraryChanges(payload.changes, commit);
          }
        case BandcampDownload =>
          downloads := ReplyDownload(downloads, reply, payload.number);
        case YoutubeDownload =>
          downloads := ReplyDownload(downloads, reply, payload.number);
        case DownloadQuery =>
          OnDownloadQueryResult(payload.runningIds);
      }
    }

    /** onNetworkReplyFinished: the reply's data arrives parsed as the Payload. */
    method OnNetworkReplyFinished(reply: nat, error: bool, payload: Payload, commit: Committer)
      modifies this
      requires Valid(State())
      ensures State() == ReplyFinished(old(State()), reply, error, payload, commit)
    {
      if reply !in requests {
        assert requests - {reply} == requests;
      } else {
        var requestType := requests[reply];
        requests := requests - {reply};
        Handle(requestType, reply, error, payload, commit);
      }
      changesPending := HasRunningRequestType(LibraryChanges);
    }
  }
}
