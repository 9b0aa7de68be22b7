// The app's DatabaseInterface (src/app/src/database/database_interface.cpp):
// the search over the Database's library and the results list the artist
// overview shows, and the dialogs that edit an item, start a download or
// confirm a removal, each ending in a call on the Database. The library's
// artists in name order are handed in as a parameter; what the string list
// and the tag selection of the dialogs hold is handed in as parameters too,
// and what the dialogs were last told to show is kept in two fields.
module DbInterface {

  import opened Wrappers
  import LM = LibraryModel
  import AD = AppDatabase
  import Text

  // ---------------------------------------------------------------------
  // Matching

  /** matchesSearch: the lower-cased name contains every keyword as it was typed. */
  predicate MatchesSearch(keywords: seq<string>, name: string)
  {
    forall k :: 0 <= k < |keywords| ==> Text.Contains(Text.Lower(name), keywords[k])
  }

  /** matchesTags: every list of tags matches. */
  predicate MatchesTags(tags: seq<nat>)
  {
    true
  }

  /** The keywords of a search string: its parts between single spaces, empty ones kept. */
  function Keywords(searchString: string): (kw: seq<string>)
    ensures |kw| >= 1 && forall k :: 0 <= k < |kw| ==> ' ' !in kw[k]
  {
    Text.Split(searchString, ' ')
  }

  /** The empty search string is one empty keyword, which every name contains. */
  lemma EmptySearchMatchesAll(name: string)
    ensures MatchesSearch(Keywords(""), name)
  {
    assert Keywords("") == [""];
    Text.ContainsEmpty(Text.Lower(name));
  }

  /** Lower-casing leaves no upper-case ASCII letter. */
  lemma LowerHasNoUpper(s: string, j: int)
    requires 0 <= j < |s|
    ensures !('A' <= Text.Lower(s)[j] <= 'Z')
  {
  }

  /**
   * Keywords are not lower-cased, so one holding an upper-case ASCII letter
   * is contained in no lower-cased name: such a search matches no name.
   */
  lemma UpperCaseKeywordMatchesNothing(keywords: seq<string>, name: string, k: nat, i: nat)
    requires k < |keywords| && i < |keywords[k]| && 'A' <= keywords[k][i] <= 'Z'
    ensures !MatchesSearch(keywords, name)
  {
    var lower := Text.Lower(name);
    if Text.Contains(lower, keywords[k]) {
      var j :| 0 <= j <= |lower| && Text.OccursAt(lower, keywords[k], j);
      assert lower[j..j + |keywords[k]|][i] == keywords[k][i];
      LowerHasNoUpper(name, j + i);
      assert false;
    }
  }

  // ---------------------------------------------------------------------
  // Search results

  /** SearchResultAlbum: an album and the songs of it that were found. */
  datatype ResultAlbum = ResultAlbum(albumId: nat, songs: seq<nat>)

  /** SearchResultArtist as computeSearchResults builds it. */
  datatype ResultArtist = ResultArtist(id: nat, albums: seq<ResultAlbum>)

  /** An entry of the results list: the artist, the DbArtist object shown for it (by number), and what was found. */
  datatype ShownArtist = ShownArtist(id: nat, artist: nat, albums: seq<ResultAlbum>)

  /** The songs kept for an album, in the album's order. */
  function SongsFound(lib: LM.LibState, keywords: seq<string>, songs: seq<nat>, albumHasTag: bool, albumHasString: bool)
    : seq<nat>
  {
    if songs == [] then []
    else
      var s := songs[|songs| - 1];
      var hasTag := albumHasTag || MatchesTags(AD.SongTagsOf(lib, s));
      var hasString := albumHasString || MatchesSearch(keywords, AD.SongNameOf(lib, s));
      SongsFound(lib, keywords, songs[..|songs| - 1], albumHasTag, albumHasString) + (if hasTag && hasString then [s] else [])
  }

  /** One album's result. */
  function AlbumFound(lib: LM.LibState, keywords: seq<string>, a: nat, artistHasTag: bool, artistHasString: bool)
    : ResultAlbum
  {
    var hasTag := artistHasTag || MatchesTags(AD.AlbumTagsOf(lib, a));
    var hasString := artistHasString || MatchesSearch(keywords, AD.AlbumNameOf(lib, a));
    ResultAlbum(a, SongsFound(lib, keywords, AD.AlbumSongsOf(lib, a), hasTag, hasString))
  }

  /** Whether an album's result is kept. */
  predicate AlbumKept(lib: LM.LibState, keywords: seq<string>, a: nat, artistHasTag: bool, artistHasString: bool)
  {
    artistHasTag || MatchesTags(AD.AlbumTagsOf(lib, a))
    || artistHasString || MatchesSearch(keywords, AD.AlbumNameOf(lib, a))
    || AlbumFound(lib, keywords, a, artistHasTag, artistHasString).songs != []
  }

  /** The albums kept for an artist, in the artist's order. */
  function AlbumsFound(lib: LM.LibState, keywords: seq<string>, albums: seq<nat>, artistHasTag: bool, artistHasString: bool)
    : seq<ResultAlbum>
  {
    if albums == [] then []
    else
      var a := albums[|albums| - 1];
      AlbumsFound(lib, keywords, albums[..|albums| - 1], artistHasTag, artistHasString)
      + (if AlbumKept(lib, keywords, a, artistHasTag, artistHasString)
         then [AlbumFound(lib, keywords, a, artistHasTag, artistHasString)] else [])
  }

  /** One artist's result. */
  function ArtistFound(lib: LM.LibState, keywords: seq<string>, id: nat): ResultArtist
  {
    var hasTag := MatchesTags(AD.ArtistTagsOf(lib, id));
    var hasString := MatchesSearch(keywords, AD.ArtistNameOf(lib, id));
    ResultArtist(id, AlbumsFound(lib, keywords, AD.ArtistAlbumsOf(lib, id), hasTag, hasString))
  }

  /** computeSearchResults: the artists kept, in name order. */
  function SearchResults(lib: LM.LibState, keywords: seq<string>, byName: seq<nat>): seq<ResultArtist>
  {
    if byName == [] then []
    else
      var id := byName[|byName| - 1];
      var found := ArtistFound(lib, keywords, id);
      SearchResults(lib, keywords, byName[..|byName| - 1])
      + (if MatchesTags(AD.ArtistTagsOf(lib, id)) || MatchesSearch(keywords, AD.ArtistNameOf(lib, id)) || found.albums != []
         then [found] else [])
  }

  /** Whether a song is found: its own, its album's or its artist's name matches. */
  predicate SongMatches(lib: LM.LibState, keywords: seq<string>, artist: nat, album: nat, song: nat)
  {
    MatchesSearch(keywords, AD.ArtistNameOf(lib, artist)) || MatchesSearch(keywords, AD.AlbumNameOf(lib, album))
    || MatchesSearch(keywords, AD.SongNameOf(lib, song))
  }

  /** The songs found are the album's songs whose name matches, unless the album already does, in order. */
  lemma {:induction false} SongsFoundMembers(lib: LM.LibState, keywords: seq<string>, songs: seq<nat>, hasString: bool)
    ensures var r := SongsFound(lib, keywords, songs, true, hasString);
      && |r| <= |songs|
      && (hasString ==> r == songs)
      && forall s :: s in r <==> s in songs && (hasString || MatchesSearch(keywords, AD.SongNameOf(lib, s)))
  {
    if songs != [] {
      var init := songs[..|songs| - 1];
      SongsFoundMembers(lib, keywords, init, hasString);
      assert songs == init + [songs[|songs| - 1]];
    }
  }

  /** Every album of the artist is kept, in order. */
  lemma {:induction false} AlbumsFoundAll(lib: LM.LibState, keywords: seq<string>, albums: seq<nat>, hasString: bool)
    ensures var r := AlbumsFound(lib, keywords, albums, true, hasString);
      |r| == |albums| && forall j :: 0 <= j < |albums| ==> r[j] == AlbumFound(lib, keywords, albums[j], true, hasString)
  {
    if albums != [] {
      AlbumsFoundAll(lib, keywords, albums[..|albums| - 1], hasString);
    }
  }

  /** Every artist is kept, in name order. */
  lemma {:induction false} SearchResultsAll(lib: LM.LibState, keywords: seq<string>, byName: seq<nat>)
    ensures var r := SearchResults(lib, keywords, byName);
      |r| == |byName| && forall i :: 0 <= i < |byName| ==> r[i] == ArtistFound(lib, keywords, byName[i])
  {
    if byName != [] {
      SearchResultsAll(lib, keywords, byName[..|byName| - 1]);
    }
  }

  /**
   * The search results list every artist in name order with every one of
   * its albums in the library's order, and with exactly the album's songs
   * whose own, album's or artist's name matches the keywords.
   */
  lemma SearchResultsContents(lib: LM.LibState, keywords: seq<string>, byName: seq<nat>, i: nat, j: nat, s: nat)
    requires i < |byName|
    ensures var r := SearchResults(lib, keywords, byName);
      && |r| == |byName| && r[i].id == byName[i]
      && |r[i].albums| == |AD.ArtistAlbumsOf(lib, byName[i])|
      && (j < |r[i].albums| ==>
            var a := AD.ArtistAlbumsOf(lib, byName[i])[j];
            && r[i].albums[j].albumId == a
            && (s in r[i].albums[j].songs <==> s in AD.AlbumSongsOf(lib, a) && SongMatches(lib, keywords, byName[i], a, s)))
  {
    SearchResultsAll(lib, keywords, byName);
    var id := byName[i];
    var artistHasString := MatchesSearch(keywords, AD.ArtistNameOf(lib, id));
    AlbumsFoundAll(lib, keywords, AD.ArtistAlbumsOf(lib, id), artistHasString);
    if j < |AD.ArtistAlbumsOf(lib, id)| {
      var a := AD.ArtistAlbumsOf(lib, id)[j];
      SongsFoundMembers(lib, keywords, AD.AlbumSongsOf(lib, a),
        artistHasString || MatchesSearch(keywords, AD.AlbumNameOf(lib, a)));
    }
  }

  // ---------------------------------------------------------------------
  // Keeping the results list in step

  /** No two entries for the same artist. */
  predicate DistinctIds(ids: seq<nat>)
  {
    forall j, k :: 0 <= j < k < |ids| ==> ids[j] != ids[k]
  }

  predicate DistinctShown(r: seq<ShownArtist>)
  {
    forall j, k :: 0 <= j < k < |r| ==> r[j].id != r[k].id
  }

  predicate DistinctFound(found: seq<ResultArtist>)
  {
    forall j, k :: 0 <= j < k < |found| ==> found[j].id != found[k].id
  }

  /** QVector::move: the item at from is taken out and put back at to. */
  function Moved<T>(s: seq<T>, from: nat, to: nat): (r: seq<T>)
    requires from < |s| && to < |s|
    ensures |r| == |s| && r[to] == s[from]
    ensures to < from ==> r == s[..to] + [s[from]] + (s[to..from] + s[from + 1..])
  {
    if from == to then s
    else if to < from then s[..to] + [s[from]] + s[to..from] + s[from + 1..]
    else s[..from] + s[from + 1..to + 1] + [s[from]] + s[to + 1..]
  }

  /** QVector::insert before index i. */
  function InsertedAt<T>(s: seq<T>, i: nat, x: T): (r: seq<T>)
    requires i <= |s|
    ensures |r| == |s| + 1 && r[i] == x && r[..i] == s[..i] && r[i + 1..] == s[i..]
  {
    s[..i] + [x] + s[i..]
  }

  /** Some entry of the list was for the artist. */
  ghost predicate WasShown(old0: seq<ShownArtist>, id: nat)
  {
    exists e :: e in old0 && e.id == id
  }

  /** An entry keeps the object an earlier entry for its artist had, or has one made after the update began. */
  ghost predicate Keeps(old0: seq<ShownArtist>, x: ShownArtist, created0: nat)
  {
    if WasShown(old0, x.id) then forall e :: e in old0 && e.id == x.id ==> x.artist == e.artist
    else x.artist >= created0
  }

  /** No result before position i is for the artist. */
  predicate NotPlaced(found: seq<ResultArtist>, i: nat, id: nat)
    requires i <= |found|
  {
    forall k :: 0 <= k < i ==> found[k].id != id
  }

  /**
   * The loop of updateSearchResults after i rounds: the first i entries are
   * the first i results, every later entry is an untouched earlier one, and
   * every earlier entry not yet placed is still among the later ones.
   */
  ghost predicate Placing(old0: seq<ShownArtist>, found: seq<ResultArtist>, r: seq<ShownArtist>, i: nat, created0: nat)
  {
    && i <= |found| && i <= |r|
    && (forall k :: 0 <= k < i ==> r[k].id == found[k].id && r[k].albums == found[k].albums)
    && (forall k :: 0 <= k < i ==> Keeps(old0, r[k], created0))
    && (forall k :: i <= k < |r| ==> r[k] in old0)
    && (forall e :: e in old0 && NotPlaced(found, i, e.id) ==> e in r[i..])
  }

  /** The list shows, position by position, the artists of the results. */
  predicate SameIds(r: seq<ShownArtist>, found: seq<ResultArtist>)
  {
    |r| == |found| && forall k :: 0 <= k < |r| ==> r[k].id == found[k].id && r[k].albums == found[k].albums
  }

  /** Once every result is placed, the first |found| entries are the new list: distinct, one per result, each keeping its object. */
  lemma PlacedAll(old0: seq<ShownArtist>, found: seq<ResultArtist>, r: seq<ShownArtist>, created0: nat, created: nat)
    requires DistinctFound(found) && |found| <= |r| && Placing(old0, found, r, |found|, created0)
    requires forall k :: 0 <= k < |r| ==> r[k].artist < created
    ensures var t := r[..|found|];
      && DistinctShown(t) && (forall k :: 0 <= k < |t| ==> t[k].artist < created)
      && forall k :: 0 <= k < |found| ==>
           t[k].id == found[k].id && t[k].albums == found[k].albums && Keeps(old0, t[k], created0)
  {
  }

  lemma SameIdSameEntry(old0: seq<ShownArtist>, e: ShownArtist, f: ShownArtist)
    requires DistinctShown(old0) && e in old0 && f in old0 && e.id == f.id
    ensures e == f
  {
    var a :| 0 <= a < |old0| && old0[a] == e;
    var b :| 0 <= b < |old0| && old0[b] == f;
    assert a == b;
  }

  /** One round: an entry for the i-th result is put at i, and the other unplaced entries stay behind it. */
  lemma PlaceStep(old0: seq<ShownArtist>, found: seq<ResultArtist>, r: seq<ShownArtist>, i: nat, created0: nat,
                  x: ShownArtist, rest: seq<ShownArtist>)
    requires Placing(old0, found, r, i, created0) && i < |found| && DistinctFound(found)
    requires x.id == found[i].id && x.albums == found[i].albums && Keeps(old0, x, created0)
    requires forall y :: y in rest ==> y in r[i..]
    requires forall y :: y in r[i..] && y.id != found[i].id ==> y in rest
    ensures Placing(old0, found, r[..i] + [x] + rest, i + 1, created0)
  {
    var r' := r[..i] + [x] + rest;
    forall k | i + 1 <= k < |r'|
      ensures r'[k] in old0
    {
      assert r'[k] in rest;
      var m :| i <= m < |r| && r[m] == r'[k];
    }
    forall e | e in old0 && NotPlaced(found, i + 1, e.id)
      ensures e in r'[i + 1..]
    {
      assert NotPlaced(found, i, e.id);
      assert e in r[i..];
      assert r'[i + 1..] == rest;
    }
  }

  /** The entry for the i-th result when none is in the list: nothing earlier was shown for it. */
  lemma NewArtistUnseen(old0: seq<ShownArtist>, found: seq<ResultArtist>, r: seq<ShownArtist>, i: nat, created0: nat)
    requires Placing(old0, found, r, i, created0) && i < |found| && DistinctFound(found)
    requires forall k :: i <= k < |r| ==> r[k].id != found[i].id
    ensures !WasShown(old0, found[i].id)
  {
    if WasShown(old0, found[i].id) {
      var e :| e in old0 && e.id == found[i].id;
      assert NotPlaced(found, i, e.id);
    }
  }

  /** An insertion before i, or an append at i, then a new value at i. */
  lemma InsertThenSet<T>(r: seq<T>, i: nat, y: T, x: T)
    requires i <= |r|
    ensures i == |r| ==> (r + [y])[i := x] == r[..i] + [x] + r[i..]
    ensures InsertedAt(r, i, y)[i := x] == r[..i] + [x] + r[i..]
  {
    if i == |r| {
      assert r[..i] == r && r[i..] == [];
    }
  }

  /** The entry at idx moved to i (or left at i), then a new value at i. */
  lemma MoveThenSet<T>(r: seq<T>, idx: nat, i: nat, x: T)
    requires i <= idx < |r|
    ensures (if idx != i then Moved(r, idx, i) else r)[i := x] == r[..i] + [x] + (r[i..idx] + r[idx + 1..])
  {
    if idx == i {
      assert r[i..idx] == [];
      assert r == r[..i] + [r[i]] + r[i + 1..];
    } else {
      var m := Moved(r, idx, i);
      assert m == r[..i] + [r[idx]] + (r[i..idx] + r[idx + 1..]);
    }
  }

  /** Objects below a bound stay below it when entries are placed. */
  lemma HandlesBelow(r: seq<ShownArtist>, i: nat, x: ShownArtist, rest: seq<ShownArtist>, c: nat)
    requires i <= |r| && forall k :: 0 <= k < |r| ==> r[k].artist < c
    requires x.artist < c && forall y :: y in rest ==> y in r[i..]
    ensures forall k :: 0 <= k < |r[..i] + [x] + rest| ==> (r[..i] + [x] + rest)[k].artist < c
  {
    var s := r[..i] + [x] + rest;
    forall k | 0 <= k < |s|
      ensures s[k].artist < c
    {
      if k > i {
        assert s[k] in rest;
        var m :| i <= m < |r| && r[m] == s[k];
      }
    }
  }

  /** Taking the entry at idx out of the unplaced part leaves the others. */
  lemma RestAfterMove(r: seq<ShownArtist>, i: nat, idx: nat)
    requires i <= idx < |r|
    ensures forall y :: y in r[i..idx] + r[idx + 1..] ==> y in r[i..]
    ensures forall y :: y in r[i..] && y.id != r[idx].id ==> y in r[i..idx] + r[idx + 1..]
  {
    forall y | y in r[i..] && y.id != r[idx].id
      ensures y in r[i..idx] + r[idx + 1..]
    {
      var m :| i <= m < |r| && r[m] == y;
      if m < idx {
        assert y == r[i..idx][m - i];
      } else {
        assert y == r[idx + 1..][m - idx - 1];
      }
    }
  }

  /** The entry for the i-th result when one is in the list: it keeps its object. */
  lemma MovedArtistKept(old0: seq<ShownArtist>, found: seq<ResultArtist>, r: seq<ShownArtist>, i: nat, created0: nat,
                        idx: nat)
    requires Placing(old0, found, r, i, created0) && i < |found| && i <= idx < |r| && r[idx].id == found[i].id && DistinctShown(old0)
    ensures Keeps(old0, r[idx], created0)
  {
    assert r[idx] in old0;
    forall e | e in old0 && e.id == r[idx].id
      ensures r[idx].artist == e.artist
    {
      SameIdSameEntry(old0, e, r[idx]);
    }
  }

  // ---------------------------------------------------------------------
  // The edit, download and removal dialogs

  datatype EditType = EditNone | EditArtist | EditAlbum | EditSong | ChangeAlbumArtist

  datatype EditSource = SourceNone | SourceLibrary | SourceBandcamp | SourceYoutube

  /** What a DbItem is, as qobject_cast tells it. */
  datatype ItemKind = ArtistItem | AlbumItem | SongItem | OtherItem

  /** A DbItem: its kind, id, name and tags. */
  datatype Item = Item(kind: ItemKind, id: nat, name: string, tags: seq<nat>)

  /** The download asked for, with the tags chosen for its artist. */
  datatype Requested = Requested(request: AD.DownloadRequest, albumTags: seq<nat>)

  /** The dialogs' state; shownName and shownTags are what the string list and the tag selection were last given. */
  datatype EditState = EditState(
    editType: EditType, editSource: EditSource, editedId: nat, requested: Option<Requested>,
    removal: Option<Item>, shownName: string, shownTags: seq<nat>)

  /** What a dialog asks of the Database. */
  datatype DbCall =
    | NoCall
    | Download(request: AD.DownloadRequest, albumTags: seq<nat>)
    | SetAlbumArtist(album: nat, artist: nat)
    | SetDetails(kind: ItemKind, id: nat, name: string, tags: seq<nat>)
    | Remove(kind: ItemKind, id: nat)

  /** editItemVisible. */
  predicate EditItemVisible(st: EditState)
  {
    st.editType != EditNone && st.editSource != SourceNone
  }

  /** editItemStringsChoiceActive. */
  predicate StringsChoiceActive(st: EditState)
  {
    (st.editType == EditArtist || st.editType == ChangeAlbumArtist) && st.editSource != SourceNone
  }

  /** A download is held exactly while a download dialog is open. */
  predicate Valid(st: EditState)
  {
    (st.editSource == SourceBandcamp || st.editSource == SourceYoutube) <==> st.requested.Some?
  }

  /** No dialog open. */
  predicate Idle(st: EditState)
  {
    st.editType == EditNone && st.editSource == SourceNone && st.requested.None?
  }

  /** requestDownload: ignored while a download or an edit is under way; otherwise the artist dialog opens for it. */
  function DownloadRequested(st: EditState, request: AD.DownloadRequest): (t: EditState)
  {
    if st.requested.Some? || st.editType != EditNone || st.editSource != SourceNone then st
    else st.(requested := Some(Requested(request, [])), editType := EditArtist,
             editSource := if request.tp == AD.BandcampAlbum then SourceBandcamp else SourceYoutube,
             editedId := 0, shownName := request.artistName, shownTags := [])
  }

  /** editItem: an artist, album or song opens its dialog with its name and tags; anything else opens nothing. */
  function ItemEdited(st: EditState, item: Item): (t: EditState)
  {
    var tp := match item.kind
      case ArtistItem => EditArtist
      case AlbumItem => EditAlbum
      case SongItem => EditSong
      case OtherItem => EditNone;
    if tp == EditNone then st.(editType := EditNone, editSource := SourceNone, editedId := 0)
    else st.(editType := tp, editSource := SourceLibrary, editedId := item.id, shownName := item.name, shownTags := item.tags)
  }

  /** changeAlbumArtist: the artist choice opens for the album, showing its artist's name. */
  function ChangeAlbumArtistOf(st: EditState, album: nat, artistName: string): (t: EditState)
  {
    st.(editType := ChangeAlbumArtist, editSource := SourceLibrary, shownName := artistName, editedId := album)
  }

  /** The artist step of a download dialog: an artist chosen from the list, or a new name with the tags chosen. */
  function WithArtist(d: Requested, selectedId: int, enteredName: string, selectedTags: seq<nat>): Requested
  {
    if selectedId > 0 then d.(request := d.request.(artistId := selectedId))
    else d.(request := d.request.(artistName := enteredName), albumTags := selectedTags)
  }

  /**
   * editOkClicked, given the list's selected id and entered string and the
   * tags selected: a Bandcamp download is sent after the artist step; a
   * YouTube one asks for the album next and is sent after it; a library
   * edit sends its change and closes.
   */
  function OkClicked(st: EditState, selectedId: int, enteredName: string, selectedTags: seq<nat>): (res: (EditState, DbCall))
    requires Valid(st)
    requires st.editSource == SourceLibrary ==> st.editedId > 0
  {
    match st.editSource
    case SourceBandcamp =>
      var d := if st.editType == EditArtist then WithArtist(st.requested.value, selectedId, enteredName, selectedTags)
               else st.requested.value;
      (st.(editType := EditNone, editSource := SourceNone, requested := None), Download(d.request, d.albumTags))
    case SourceYoutube =>
      if st.editType == EditArtist then
        (st.(editType := EditAlbum, requested := Some(WithArtist(st.requested.value, selectedId, enteredName, selectedTags)),
             shownName := ""), NoCall)
      else if st.editType == EditAlbum then
        var d := st.requested.value;
        (st.(editType := EditNone, editSource := SourceNone, requested := None),
         Download(d.request.(albumName := enteredName), d.albumTags))
      else (st, NoCall)
    case SourceLibrary =>
      var call :=
        if st.editType == ChangeAlbumArtist && selectedId > 0 then SetAlbumArtist(st.editedId, selectedId)
        else if st.editType == EditArtist then SetDetails(ArtistItem, st.editedId, enteredName, selectedTags)
        else if st.editType == EditAlbum then SetDetails(AlbumItem, st.editedId, enteredName, selectedTags)
        else if st.editType == EditSong then SetDetails(SongItem, st.editedId, enteredName, selectedTags)
        else NoCall;
      (st.(editType := EditNone, editSource := SourceNone), call)
    case SourceNone => (st, NoCall)
  }

  /** editCancelClicked. */
  function Cancelled(st: EditState): (t: EditState)
  {
    st.(requested := None, editedId := 0, editType := EditNone, editSource := SourceNone)
  }

  /** removeItem: ignored while a removal is awaiting confirmation or an edit dialog is visible. */
  function RemovalAsked(st: EditState, item: Item): (t: EditState)
  {
    if st.removal.Some? || EditItemVisible(st) then st else st.(removal := Some(item))
  }

  /** confirmationText. */
  function ConfirmationText(st: EditState): string
  {
    if st.removal.None? then "" else "Really remove " + st.removal.value.name + "?"
  }

  /** confirm: on ok an artist, album or song awaiting confirmation is removed; the confirmation closes either way. */
  function Confirmed(st: EditState, ok: bool): (res: (EditState, DbCall))
  {
    var call := if ok && st.removal.Some? && st.removal.value.kind != OtherItem
                then Remove(st.removal.value.kind, st.removal.value.id) else NoCall;
    (st.(removal := None), call)
  }

  /** onArtistStringSelected: choosing an artist in the artist dialog shows that artist's tags. */
  function ArtistChosen(st: EditState, id: int, lib: LM.LibState): (t: EditState)
  {
    if id >= 0 && st.editType == EditArtist then st.(shownTags := AD.ArtistTagsOf(lib, id)) else st
  }

  /** What a call does to the Database's state. */
  function CallEffect(s: AD.DbState, call: DbCall): AD.DbState
    requires call.Download? ==> call.request.tp != AD.YoutubePlaylist
  {
    match call
    case NoCall => s
    case Download(request, tags) => AD.StartDownloadOf(s, request, tags).0
    case SetAlbumArtist(album, artist) => AD.SendChanges(s, [LM.ChangeRequest(LM.AlbumSetArtist, album, artist, "")]).0
    case SetDetails(kind, id, name, tags) =>
      if kind == ArtistItem then
        AD.SendChanges(s, AD.DetailChanges(id, AD.ArtistNameOf(s.lib, id), AD.ArtistTagsOf(s.lib, id), name, tags, AD.ArtistDetails)).0
      else if kind == AlbumItem then
        AD.SendChanges(s, AD.DetailChanges(id, AD.AlbumNameOf(s.lib, id), AD.AlbumTagsOf(s.lib, id), name, tags, AD.AlbumDetails)).0
      else if kind == SongItem then
        AD.SendChanges(s, AD.DetailChanges(id, AD.SongNameOf(s.lib, id), AD.SongTagsOf(s.lib, id), name, tags, AD.SongDetails)).0
      else s
    case Remove(kind, id) =>
      if kind == ArtistItem then AD.SendChanges(s, AD.ArtistRemoval(s.lib, id)).0
      else if kind == AlbumItem then AD.SendChanges(s, AD.AlbumRemoval(s.lib, id)).0
      else if kind == SongItem then AD.SendChanges(s, AD.SongRemoval(s.lib, id)).0
      else s
  }

  // ---------------------------------------------------------------------
  // Properties of the dialogs

  /** A download request opens the artist dialog from idle, with the source its type calls for, and is ignored otherwise. */
  lemma RequestDownloadOpens(st: EditState, request: AD.DownloadRequest)
    ensures var t := DownloadRequested(st, request);
      && (Idle(st) ==>
            t.editType == EditArtist && EditItemVisible(t) && StringsChoiceActive(t)
            && t.requested == Some(Requested(request, []))
            && (t.editSource == SourceBandcamp <==> request.tp == AD.BandcampAlbum))
      && (!Idle(st) ==> t == st)
      && (Valid(st) ==> Valid(t))
  {
  }

  /** A Bandcamp download is sent at the first ok, with the artist chosen or named, and the dialog closes. */
  lemma BandcampDownloadFlow(st: EditState, request: AD.DownloadRequest, selectedId: int, name: string, tags: seq<nat>)
    requires Idle(st) && request.tp == AD.BandcampAlbum
    ensures var (t, call) := OkClicked(DownloadRequested(st, request), selectedId, name, tags);
      && Idle(t) && !EditItemVisible(t)
      && call == (if selectedId > 0 then Download(request.(artistId := selectedId), [])
                  else Download(request.(artistName := name), tags))
  {
  }

  /**
   * A YouTube download needs two oks: the first records the artist and
   * opens the album step with nothing sent; the second sends the download
   * with the album entered then, and the dialog closes.
   */
  lemma YoutubeDownloadFlow(st: EditState, request: AD.DownloadRequest, selectedId: int, artistName: string,
                            tags: seq<nat>, albumName: string, laterId: int, laterTags: seq<nat>)
    requires Idle(st) && request.tp != AD.BandcampAlbum
    ensures var (t1, call1) := OkClicked(DownloadRequested(st, request), selectedId, artistName, tags);
      && call1 == NoCall && t1.editType == EditAlbum && t1.editSource == SourceYoutube && EditItemVisible(t1)
      && !StringsChoiceActive(t1)
      && var (t2, call2) := OkClicked(t1, laterId, albumName, laterTags);
      && Idle(t2)
      && call2 == (if selectedId > 0 then Download(request.(artistId := selectedId, albumName := albumName), [])
                   else Download(request.(artistName := artistName, albumName := albumName), tags))
  {
  }

  /** A library edit sends its one change and closes; an album's artist changes only when one was chosen. */
  lemma LibraryEditFlow(st: EditState, item: Item, selectedId: int, name: string, tags: seq<nat>)
    requires Idle(st) && item.kind != OtherItem && item.id > 0
    ensures var t := ItemEdited(st, item);
      && EditItemVisible(t) && t.shownName == item.name && t.shownTags == item.tags && t.editedId == item.id
      && var (t2, call) := OkClicked(t, selectedId, name, tags);
      && Idle(t2) && call == SetDetails(item.kind, item.id, name, tags)
  {
  }

  lemma ChangeAlbumArtistFlow(st: EditState, album: nat, artistName: string, selectedId: int, name: string, tags: seq<nat>)
    requires Idle(st) && album > 0
    ensures var t := ChangeAlbumArtistOf(st, album, artistName);
      && StringsChoiceActive(t)
      && var (t2, call) := OkClicked(t, selectedId, name, tags);
      && Idle(t2) && call == (if selectedId > 0 then SetAlbumArtist(album, selectedId) else NoCall)
  {
  }

  /** Every step keeps a download held exactly while a download dialog is open. */
  lemma StepsKeepValid(st: EditState, selectedId: int, name: string, tags: seq<nat>, item: Item, ok: bool)
    requires Valid(st)
    ensures Valid(Cancelled(st)) && Idle(Cancelled(st)) && !EditItemVisible(Cancelled(st))
    ensures Valid(RemovalAsked(st, item)) && Valid(Confirmed(st, ok).0)
    ensures st.editSource == SourceLibrary ==> st.editedId > 0 ==> Valid(OkClicked(st, selectedId, name, tags).0)
    ensures st.editType == EditNone && st.editSource == SourceNone ==> Valid(ItemEdited(st, item))
  {
  }

  /** A removal waits for confirmation unless one already does or an edit dialog is visible; confirming sends it. */
  lemma RemovalFlow(st: EditState, item: Item, ok: bool)
    ensures var t := RemovalAsked(st, item);
      && (st.removal.None? && !EditItemVisible(st) ==>
            t.removal == Some(item) && ConfirmationText(t) == "Really remove " + item.name + "?")
      && (st.removal.Some? || EditItemVisible(st) ==> t == st)
      && var (t2, call) := Confirmed(t, ok);
      && t2.removal.None? && ConfirmationText(t2) == ""
      && (call != NoCall <==> ok && t.removal.Some? && t.removal.value.kind != OtherItem)
  {
  }

  /** Searching for "Q" right after searching for nothing shows the song the empty search found, which "Q" does not. */
  lemma SearchShowsPreviousKeywords(lib: LM.LibState, a: nat, b: nat, c: nat)
    requires AD.ArtistAlbumsOf(lib, a) == [b] && AD.AlbumSongsOf(lib, b) == [c]
    ensures SearchResults(lib, [], [a]) == [ResultArtist(a, [ResultAlbum(b, [c])])]
    ensures SearchResults(lib, Keywords(""), [a]) == [ResultArtist(a, [ResultAlbum(b, [c])])]
    ensures SearchResults(lib, Keywords("Q"), [a]) == [ResultArtist(a, [ResultAlbum(b, [])])]
  {
    var none, q := Keywords(""), Keywords("Q");
    Text.SplitWithoutSep("Q", ' ');
    EmptySearchMatchesAll(AD.ArtistNameOf(lib, a));
    UpperCaseKeywordMatchesNothing(q, AD.ArtistNameOf(lib, a), 0, 0);
    UpperCaseKeywordMatchesNothing(q, AD.AlbumNameOf(lib, b), 0, 0);
    UpperCaseKeywordMatchesNothing(q, AD.SongNameOf(lib, c), 0, 0);
    assert [c][..0] == [] && [b][..0] == [] && [a][..0] == [];
    assert SongsFound(lib, [], [c], true, true) == [c];
    assert AlbumsFound(lib, [], [b], true, true) == [ResultAlbum(b, [c])];
    assert SongsFound(lib, none, [c], true, true) == [c];
    assert SongsFound(lib, q, [c], true, false) == [];
    assert AlbumsFound(lib, none, [b], true, true) == [ResultAlbum(b, [c])];
    assert AlbumsFound(lib, q, [b], true, false) == [ResultAlbum(b, [])];
  }

  // ---------------------------------------------------------------------
  // The object

  /** DatabaseInterface: the Database it drives, the search and its results, and the dialogs' state. */
  class DatabaseInterface {
    const db: AD.Database
    var searchString: string
    var keywords: seq<string>
    var results: seq<ShownArtist>
    /** How many DbArtist objects the results list has made. */
    var created: nat
    var editType: EditType
    var editSource: EditSource
    var editedId: nat
    var requested: Option<Requested>
    var removal: Option<Item>
    var shownName: string
    var shownTags: seq<nat>

    function State(): EditState
      reads this
    {
      EditState(editType, editSource, editedId, requested, removal, shownName, shownTags)
    }

    /** One entry per artist, each with an object made before. */
    predicate ResultsValid()
      reads this
    {
      DistinctShown(results) && forall k :: 0 <= k < |results| ==> results[k].artist < created
    }

    /** A new Database, asked for the library at once. */
    constructor(empty: LM.LibState)
      ensures fresh(db) && db.State() == AD.Synced(AD.DbState(false, empty, map[], [], [], [], false, false, None, 0)).0
      ensures searchString == "" && keywords == [] && results == [] && created == 0 && ResultsValid()
      ensures State() == EditState(EditNone, SourceNone, 0, None, None, "", []) && Idle(State()) && Valid(State())
    {
      db := new AD.Database(empty);
      searchString := "";
      keywords := [];
      results := [];
      created := 0;
      editType := EditNone;
      editSource := SourceNone;
      editedId := 0;
      requested := None;
      removal := None;
      shownName := "";
      shownTags := [];
      new;
      var _ := db.Sync();
    }

    /** The song loop of computeSearchResults. */
    static method FindSongs(lib: LM.LibState, keywords: seq<string>, songs: seq<nat>, albumHasTag: bool, albumHasString: bool)
      returns (found: seq<nat>)
      ensures found == SongsFound(lib, keywords, songs, albumHasTag, albumHasString)
    {
      found := [];
      var i := 0;
      while i < |songs|
        invariant 0 <= i <= |songs|
        invariant found == SongsFound(lib, keywords, songs[..i], albumHasTag, albumHasString)
      {
        assert songs[..i + 1][..i] == songs[..i];
        var songHasTag := albumHasTag || MatchesTags(AD.SongTagsOf(lib, songs[i]));
        var songHasString := albumHasString || MatchesSearch(keywords, AD.SongNameOf(lib, songs[i]));
        if songHasTag && songHasString {
          found := found + [songs[i]];
        }
        i := i + 1;
      }
      assert songs[..i] == songs;
    }

    /** The album loop of computeSearchResults. */
    static method FindAlbums(lib: LM.LibState, keywords: seq<string>, albums: seq<nat>, artistHasTag: bool, artistHasString: bool)
      returns (found: seq<ResultAlbum>)
      ensures found == AlbumsFound(lib, keywords, albums, artistHasTag, artistHasString)
    {
      found := [];
      var i := 0;
      while i < |albums|
        invariant 0 <= i <= |albums|
        invariant found == AlbumsFound(lib, keywords, albums[..i], artistHasTag, artistHasString)
      {
        assert albums[..i + 1][..i] == albums[..i];
        var a := albums[i];
        var albumHasTag := artistHasTag || MatchesTags(AD.AlbumTagsOf(lib, a));
        var albumHasString := artistHasString || MatchesSearch(keywords, AD.AlbumNameOf(lib, a));
        var songs := FindSongs(lib, keywords, AD.AlbumSongsOf(lib, a), albumHasTag, albumHasString);
        if albumHasTag || albumHasString || songs != [] {
          found := found + [ResultAlbum(a, songs)];
        }
        i := i + 1;
      }
      assert albums[..i] == albums;
    }

    /** computeSearchResults, over the library's artists in name order. */
    method ComputeSearchResults(byName: seq<nat>) returns (found: seq<ResultArtist>)
      ensures found == SearchResults(db.lib, keywords, byName)
    {
      var lib := db.lib;
      found := [];
      var i := 0;
      while i < |byName|
        invariant 0 <= i <= |byName|
        invariant found == SearchResults(lib, keywords, byName[..i])
      {
        assert byName[..i + 1][..i] == byName[..i];
        var id := byName[i];
        var artistHasTag := MatchesTags(AD.ArtistTagsOf(lib, id));
        var artistHasString := MatchesSearch(keywords, AD.ArtistNameOf(lib, id));
        var albums := FindAlbums(lib, keywords, AD.ArtistAlbumsOf(lib, id), artistHasTag, artistHasString);
        if artistHasTag || artistHasString || albums != [] {
          found := found + [ResultArtist(id, albums)];
        }
        i := i + 1;
      }
      assert byName[..i] == byName;
    }

    /** getArtistIndex: the first entry for the artist, or -1. */
    static method ArtistIndex(r: seq<ShownArtist>, id: nat) returns (idx: int)
      ensures -1 <= idx < |r|
      ensures idx >= 0 ==> r[idx].id == id && forall k :: 0 <= k < idx ==> r[k].id != id
      ensures idx == -1 <==> forall k :: 0 <= k < |r| ==> r[k].id != id
    {
      var i := 0;
      while i < |r|
        invariant 0 <= i <= |r|
        invariant forall k :: 0 <= k < i ==> r[k].id != id
      {
        if r[i].id == id {
          return i;
        }
        i := i + 1;
      }
      return -1;
    }

    /** One round of the move-or-insert loop of updateSearchResults, then the entry takes the result's albums. */
    static method PlaceOne(old0: seq<ShownArtist>, found: seq<ResultArtist>, created0: nat,
                           r: seq<ShownArtist>, i: nat, created: nat)
      returns (r': seq<ShownArtist>, created': nat)
      requires DistinctShown(old0) && DistinctFound(found) && i < |found|
      requires Placing(old0, found, r, i, created0) && created >= created0
      requires forall k :: 0 <= k < |r| ==> r[k].artist < created
      ensures Placing(old0, found, r', i + 1, created0) && created' >= created
      ensures forall k :: 0 <= k < |r'| ==> r'[k].artist < created'
    {
      var idx := -1;
      if i < |r| {
        idx := ArtistIndex(r, found[i].id);
        if 0 <= idx < i {
          assert false;
        }
      }
      if idx < 0 {
        NewArtistUnseen(old0, found, r, i, created0);
        r' := PlaceNew(r, i, found[i], created);
        created' := created + 1;
        PlaceStep(old0, found, r, i, created0, r'[i], r[i..]);
        HandlesBelow(r, i, r'[i], r[i..], created');
      } else {
        MovedArtistKept(old0, found, r, i, created0, idx);
        RestAfterMove(r, i, idx);
        r' := PlaceMoved(r, i, idx, found[i]);
        created' := created;
        PlaceStep(old0, found, r, i, created0, r'[i], r[i..idx] + r[idx + 1..]);
        HandlesBelow(r, i, r'[i], r[i..idx] + r[idx + 1..], created');
      }
    }

    /** A new entry, with a new object, put at i: appended at the end or inserted before i. */
    static method PlaceNew(r: seq<ShownArtist>, i: nat, result: ResultArtist, created: nat) returns (r': seq<ShownArtist>)
      requires i <= |r|
      ensures r' == r[..i] + [ShownArtist(result.id, created, result.albums)] + r[i..]
    {
      var made := ShownArtist(result.id, created, []);
      if i == |r| {
        r' := r + [made];
      } else {
        r' := InsertedAt(r, i, made);
      }
      r' := r'[i := r'[i].(albums := result.albums)];
      InsertThenSet(r, i, made, ShownArtist(result.id, created, result.albums));
    }

    /** The entry at idx moved to i, taking the result's albums. */
    static method PlaceMoved(r: seq<ShownArtist>, i: nat, idx: nat, result: ResultArtist) returns (r': seq<ShownArtist>)
      requires i <= idx < |r|
      ensures r' == r[..i] + [r[idx].(albums := result.albums)] + (r[i..idx] + r[idx + 1..])
    {
      r' := r;
      if idx != i {
        r' := Moved(r, idx, i);
      }
      r' := r'[i := r'[i].(albums := result.albums)];
      MoveThenSet(r, idx, i, r[idx].(albums := result.albums));
    }

    /** The move-or-insert loop of updateSearchResults. */
    static method PlaceAll(old0: seq<ShownArtist>, found: seq<ResultArtist>, created0: nat)
      returns (r: seq<ShownArtist>, created: nat)
      requires DistinctShown(old0) && DistinctFound(found)
      requires forall k :: 0 <= k < |old0| ==> old0[k].artist < created0
      ensures |found| <= |r| && Placing(old0, found, r, |found|, created0) && created >= created0
      ensures forall k :: 0 <= k < |r| ==> r[k].artist < created
    {
      r, created := old0, created0;
      var i := 0;
      while i < |found|
        invariant 0 <= i <= |found|
        invariant Placing(old0, found, r, i, created0) && created >= created0
        invariant forall k :: 0 <= k < |r| ==> r[k].artist < created
      {
        r, created := PlaceOne(old0, found, created0, r, i, created);
        i := i + 1;
      }
    }

    /**
     * updateSearchResults: the list becomes the new results position by
     * position; an artist already listed keeps its object, a new one gets
     * a new object.
     */
    method UpdateSearchResults(byName: seq<nat>)
      modifies this
      requires ResultsValid() && DistinctIds(byName)
      ensures ResultsValid() && created >= old(created)
      ensures var found := SearchResults(db.lib, keywords, byName);
        && |results| == |found|
        && forall k :: 0 <= k < |found| ==>
             results[k].id == found[k].id && results[k].albums == found[k].albums
             && Keeps(old(results), results[k], old(created))
      ensures unchanged(this`searchString, this`keywords, this`editType, this`editSource, this`editedId, this`requested)
      ensures unchanged(this`removal, this`shownName, this`shownTags)
    {
      var found := ComputeSearchResults(byName);
      SearchResultsAll(db.lib, keywords, byName);
      var r, c := PlaceAll(results, found, created);
      PlacedAll(results, found, r, created, c);
      var t := DropTail(r, |found|);
      results, created := t, c;
    }

    /**
     * search, as written: the results are brought up to date BEFORE the new
     * keywords are stored, so they answer the previous search string.
     */
    method Search(text: string, byName: seq<nat>)
      modifies this
      requires ResultsValid() && DistinctIds(byName)
      ensures ResultsValid() && searchString == text
      ensures old(searchString) != text ==>
        && keywords == Keywords(text)
        && SameIds(results, SearchResults(db.lib, old(keywords), byName))
      ensures old(searchString) == text ==> unchanged(this)
    {
      if searchString == text {
        return;
      }
      UpdateSearchResults(byName);
      searchString := text;
      keywords := Keywords(text);
    }

    /** search as evidently intended: the new keywords are stored first, so the results answer the new search string. */
    method SearchFixed(text: string, byName: seq<nat>)
      modifies this
      requires ResultsValid() && DistinctIds(byName)
      ensures ResultsValid() && searchString == text
      ensures old(searchString) != text ==>
        && keywords == Keywords(text)
        && SameIds(results, SearchResults(db.lib, Keywords(text), byName))
      ensures old(searchString) == text ==> unchanged(this)
    {
      if searchString == text {
        return;
      }
      searchString := text;
      keywords := Keywords(text);
      UpdateSearchResults(byName);
    }

    /** requestDownload. */
    method RequestDownload(request: AD.DownloadRequest)
      modifies this
      ensures State() == DownloadRequested(old(State()), request)
      ensures unchanged(this`searchString, this`keywords, this`results, this`created)
    {
      if requested.Some? || editType != EditNone || editSource != SourceNone {
        return;
      }
      requested := Some(Requested(request, []));
      editType := EditArtist;
      editSource := if request.tp == AD.BandcampAlbum then SourceBandcamp else SourceYoutube;
      editedId := 0;
      shownName := request.artistName;
      shownTags := [];
    }

    /** editItem. */
    method EditItem(item: Item)
      modifies this
      ensures State() == ItemEdited(old(State()), item)
      ensures unchanged(this`searchString, this`keywords, this`results, this`created)
    {
      editType := match item.kind
        case ArtistItem => EditArtist
        case AlbumItem => EditAlbum
        case SongItem => EditSong
        case OtherItem => EditNone;
      if editType != EditNone {
        shownName := item.name;
        shownTags := item.tags;
      }
      editSource := if editType != EditNone then SourceLibrary else SourceNone;
      editedId := if editType != EditNone then item.id else 0;
    }

    /** changeAlbumArtist, given the album and its artist's name. */
    method ChangeAlbumArtist(album: nat, artistName: string)
      modifies this
      ensures State() == ChangeAlbumArtistOf(old(State()), album, artistName)
      ensures unchanged(this`searchString, this`keywords, this`results, this`created)
    {
      editType := EditType.ChangeAlbumArtist;
      editSource := SourceLibrary;
      shownName := artistName;
      editedId := album;
    }

    /** editOkClicked: three checks in turn, on the source as each leaves it. */
    method EditOkClicked(selectedId: int, enteredName: string, selectedTags: seq<nat>)
      modifies this, db
      requires Valid(State())
      requires editSource == SourceLibrary ==> editedId > 0
      requires requested.Some? ==> requested.value.request.tp != AD.YoutubePlaylist
      ensures var res := OkClicked(old(State()), selectedId, enteredName, selectedTags);
        && State() == res.0
        && (res.1.Download? ==> res.1.request.tp != AD.YoutubePlaylist)
        && db.State() == CallEffect(old(db.State()), res.1)
      ensures unchanged(this`searchString, this`keywords, this`results, this`created)
    {
      if editSource == SourceBandcamp {
        OkBandcamp(selectedId, enteredName, selectedTags);
      }
      if editSource == SourceYoutube {
        OkYoutube(selectedId, enteredName, selectedTags);
      }
      if editSource == SourceLibrary {
        OkLibrary(selectedId, enteredName, selectedTags);
      }
    }

    /** editOkClicked on a Bandcamp download: the download is sent and the dialog closes. */
    method OkBandcamp(selectedId: int, enteredName: string, selectedTags: seq<nat>)
      modifies this, db
      requires editSource == SourceBandcamp && requested.Some?
      requires requested.value.request.tp != AD.YoutubePlaylist
      ensures var res := OkClicked(old(State()), selectedId, enteredName, selectedTags);
        && State() == res.0 && res.1.Download? && res.1.request.tp != AD.YoutubePlaylist
        && db.State() == CallEffect(old(db.State()), res.1)
      ensures unchanged(this`searchString, this`keywords, this`results, this`created)
    {
      var d := requested.value;
      if editType == EditArtist {
        d := WithArtist(d, selectedId, enteredName, selectedTags);
      }
      editType := EditNone;
      editSource := SourceNone;
      var reply := db.StartDownload(d.request, d.albumTags);
      requested := None;
    }

    /** editOkClicked on a YouTube download: the artist step asks for the album next; the album step sends it. */
    method OkYoutube(selectedId: int, enteredName: string, selectedTags: seq<nat>)
      modifies this, db
      requires editSource == SourceYoutube && requested.Some?
      requires requested.value.request.tp != AD.YoutubePlaylist
      ensures var res := OkClicked(old(State()), selectedId, enteredName, selectedTags);
        && State() == res.0 && (res.1.Download? ==> res.1.request.tp != AD.YoutubePlaylist)
        && (requested.Some? ==> requested.value.request.tp != AD.YoutubePlaylist)
        && db.State() == CallEffect(old(db.State()), res.1)
      ensures unchanged(this`searchString, this`keywords, this`results, this`created)
    {
      if editType == EditArtist {
        requested := Some(WithArtist(requested.value, selectedId, enteredName, selectedTags));
        editType := EditAlbum;
        shownName := "";
      } else if editType == EditAlbum {
        editType := EditNone;
        editSource := SourceNone;
        var d := requested.value;
        var reply := db.StartDownload(d.request.(albumName := enteredName), d.albumTags);
        requested := None;
      }
    }

    /** editOkClicked on a library edit: the album's new artist or the item's details are sent and the dialog closes. */
    method OkLibrary(selectedId: int, enteredName: string, selectedTags: seq<nat>)
      modifies this, db
      requires editSource == SourceLibrary && editedId > 0 && requested.None?
      ensures var res := OkClicked(old(State()), selectedId, enteredName, selectedTags);
        && State() == res.0 && db.State() == CallEffect(old(db.State()), res.1)
      ensures unchanged(this`searchString, this`keywords, this`results, this`created)
    {
      if editType == EditType.ChangeAlbumArtist && selectedId > 0 {
        var reply := db.SetAlbumArtist(editedId, selectedId);
      } else if editType == EditArtist {
        var reply := db.SetArtistDetails(editedId, enteredName, selectedTags);
      } else if editType == EditAlbum {
        var reply := db.SetAlbumDetails(editedId, enteredName, selectedTags);
      } else if editType == EditSong {
        var reply := db.SetSongDetails(editedId, enteredName, selectedTags);
      }
      editType := EditNone;
      editSource := SourceNone;
    }

    /** editCancelClicked. */
    method EditCancelClicked()
      modifies this
      ensures State() == Cancelled(old(State()))
      ensures unchanged(this`searchString, this`keywords, this`results, this`created)
    {
      requested := None;
      editedId := 0;
      editType := EditNone;
      editSource := SourceNone;
    }

    /** removeItem. */
    method RemoveItem(item: Item)
      modifies this
      ensures State() == RemovalAsked(old(State()), item)
      ensures unchanged(this`searchString, this`keywords, this`results, this`created)
    {
      if removal.Some? || (editType != EditNone && editSource != SourceNone) {
        return;
      }
      removal := Some(item);
    }

    /** confirm. */
    method Confirm(ok: bool)
      modifies this, db
      ensures var res := Confirmed(old(State()), ok);
        State() == res.0 && db.State() == CallEffect(old(db.State()), res.1)
      ensures unchanged(this`searchString, this`keywords, this`results, this`created)
    {
      if ok && removal.Some? {
        var item := removal.value;
        if item.kind == ArtistItem {
          var reply := db.RemoveArtist(item.id);
        } else if item.kind == AlbumItem {
          var reply := db.RemoveAlbum(item.id);
        } else if item.kind == SongItem {
          var reply := db.RemoveSong(item.id);
        }
      }
      removal := None;
    }

    /** onArtistStringSelected. */
    method OnArtistStringSelected(id: int)
      modifies this
      ensures State() == ArtistChosen(old(State()), id, db.lib)
      ensures unchanged(this`searchString, this`keywords, this`results, this`created)
    {
      if id < 0 {
        return;
      }
      if editType == EditArtist {
        shownTags := AD.ArtistTagsOf(db.lib, id);
      }
    }

    /** The tail of updateSearchResults: entries past the results are removed from the end. */
    static method DropTail(r: seq<ShownArtist>, n: nat) returns (t: seq<ShownArtist>)
      requires n <= |r|
      ensures t == r[..n]
    {
      t := r;
      while |t| > n
        invariant n <= |t| <= |r| && t == r[..|t|]
      {
        t := t[..|t| - 1];
      }
    }
  }
}

