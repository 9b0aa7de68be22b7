// The app's controller (src/app/src/controller.cpp): it turns search results
// and library items into playlist entries, builds download requests, and
// formats times. Search results and library items are given as values; the
// network queries a result may start are returned as a flag instead of
// being issued.
module Controller {

  import opened Wrappers
  import Decimal
  import Text
  import Playlist

  /** formatTimeString: "%d:%02d" of the whole minutes and the whole seconds left over, from milliseconds. */
  function FormatTimeString(msecs: int): (s: string)
    ensures msecs >= 0 ==> Text.Split(s, ':') == [Decimal.IntToString(msecs / 60000), Decimal.Pad2(msecs % 60000 / 1000)]
  {
    Decimal.MinutesSeconds(Decimal.CDiv(msecs, 60000), Decimal.CDiv(Decimal.CMod(msecs, 60000), 1000))
  }

  /** For whole seconds, the time string is the playlist's duration string: the milliseconds do not change the text. */
  lemma FormatTimeMatchesDuration(secs: int, extraMsecs: int)
    requires 0 <= secs && 0 <= extraMsecs < 1000
    ensures FormatTimeString(secs * 1000 + extraMsecs) == Decimal.MinutesSeconds(Decimal.CDiv(secs, 60), Decimal.CMod(secs, 60))
  {
    var ms := secs * 1000 + extraMsecs;
    assert ms / 60000 == secs / 60 by {
      assert secs == (secs / 60) * 60 + secs % 60;
      assert ms == (secs / 60) * 60000 + ((secs % 60) * 1000 + extraMsecs);
      assert 0 <= (secs % 60) * 1000 + extraMsecs < 60000;
    }
    assert ms % 60000 == (secs % 60) * 1000 + extraMsecs by {
      assert ms == (secs / 60) * 60000 + ((secs % 60) * 1000 + extraMsecs);
    }
    assert ((secs % 60) * 1000 + extraMsecs) / 1000 == secs % 60;
  }

  /** The seconds part of a non-negative time is below 60, so it is always two digits. */
  lemma FormatTimeSecondsInRange(msecs: int)
    requires msecs >= 0
    ensures 0 <= Decimal.CDiv(Decimal.CMod(msecs, 60000), 1000) < 60
  {
  }

  /** A Bandcamp track of a search result, with what the playlist shows of its album. */
  datatype Track = Track(url: string, albumArtist: string, albumTitle: string, title: string, secs: int, iconUrl: string)

  /** The kinds of search result and what the controller reads from each. */
  datatype SearchResult =
    | BandcampArtistResult
    | BandcampAlbumResult(albumUrl: string, artist: string, albumTitle: string, tracks: seq<Track>)
    | BandcampTrackResult(track: Track)
    | YoutubeVideoResult(videoUrl: string, videoTitle: string, audioUrl: string, videoSecs: int, videoIconUrl: string)

  /** An entry made from a Bandcamp track. */
  predicate FromTrack(e: Playlist.Entry, t: Track)
  {
    e.source == Playlist.Bandcamp && e.url == t.url && e.artist == t.albumArtist
    && e.title == t.title && e.duration == t.secs && e.iconUrl == t.iconUrl
  }

  /** Entries made from the tracks, one for one and in the same order. */
  predicate FromTracks(es: seq<Playlist.Entry>, tracks: seq<Track>)
  {
    |es| == |tracks| && forall i :: 0 <= i < |es| ==> FromTrack(es[i], tracks[i])
  }

  /** The entries queued for a search result: its album's tracks, its track, or its video's audio. */
  predicate FromResult(es: seq<Playlist.Entry>, r: SearchResult)
  {
    match r
    case BandcampArtistResult => es == []
    case BandcampAlbumResult(_, _, _, tracks) => FromTracks(es, tracks)
    case BandcampTrackResult(t) => |es| == 1 && FromTrack(es[0], t)
    case YoutubeVideoResult(_, title, audioUrl, secs, iconUrl) =>
      && |es| == 1 && es[0].source == Playlist.Youtube && es[0].title == title && es[0].artist == ""
      && es[0].url == audioUrl && es[0].duration == secs && es[0].iconUrl == iconUrl
  }

  /** The icon URLs requested when a search result is queued. */
  function ResultIcons(r: SearchResult): set<string>
  {
    match r
    case BandcampArtistResult => {}
    case BandcampAlbumResult(_, _, _, tracks) => TrackIcons(tracks)
    case BandcampTrackResult(t) => {t.iconUrl}
    case YoutubeVideoResult(_, _, _, _, iconUrl) => {iconUrl}
  }

  /** The icon table after registering some URLs: old icons kept, the new URLs added with empty icons. */
  predicate IconsAdded(before: map<string, string>, after: map<string, string>, urls: set<string>)
  {
    && after.Keys == before.Keys + urls
    && (forall u :: u in before ==> after[u] == before[u])
    && (forall u :: u in after && u !in before ==> after[u] == "")
  }

  /** Registering one more URL extends the set. */
  lemma IconsAddedStep(before: map<string, string>, mid: map<string, string>, urls: set<string>, url: string)
    requires IconsAdded(before, mid, urls)
    ensures IconsAdded(before, Playlist.IconRequested(mid, url), urls + {url})
  {
  }

  /** The icon URLs of some tracks. */
  function TrackIcons(tracks: seq<Track>): set<string>
  {
    set i | 0 <= i < |tracks| :: tracks[i].iconUrl
  }

  lemma TrackIconsSnoc(tracks: seq<Track>, i: nat)
    requires i < |tracks|
    ensures TrackIcons(tracks[..i + 1]) == TrackIcons(tracks[..i]) + {tracks[i].iconUrl}
  {
    assert forall k :: 0 <= k < i ==> tracks[..i + 1][k] == tracks[..i][k];
    assert tracks[..i + 1][i] == tracks[i];
  }

  lemma TrackIconsCons(tracks: seq<Track>, i: nat)
    requires i < |tracks|
    ensures TrackIcons(tracks[i..]) == TrackIcons(tracks[i + 1..]) + {tracks[i].iconUrl}
  {
    assert tracks[i..] == [tracks[i]] + tracks[i + 1..];
  }

  /** An entry for one track put in front of the entries for the following ones. */
  lemma FromTracksCons(e: Playlist.Entry, es: seq<Playlist.Entry>, tracks: seq<Track>, i: nat)
    requires i < |tracks| && FromTrack(e, tracks[i]) && FromTracks(es, tracks[i + 1..])
    ensures FromTracks([e] + es, tracks[i..])
  {
    assert tracks[i..] == [tracks[i]] + tracks[i + 1..];
  }

  /** A library song as the playlist receives it. */
  datatype LibrarySong = LibrarySong(filePath: string, artistName: string, albumName: string, name: string, secs: int)

  /** The library items a user can queue; Other is anything that is none of the three. */
  datatype LibraryItem =
    | ArtistItem(albums: seq<seq<LibrarySong>>)
    | AlbumItem(songs: seq<LibrarySong>)
    | SongItem(song: LibrarySong)
    | OtherItem

  /** The songs of a list of albums, album after album. */
  function Concat(albums: seq<seq<LibrarySong>>): seq<LibrarySong>
  {
    if albums == [] then [] else albums[0] + Concat(albums[1..])
  }

  /** The songs an item stands for: an artist's albums in order, an album's songs, a single song, or nothing. */
  function ItemSongs(item: LibraryItem): seq<LibrarySong>
  {
    match item
    case ArtistItem(albums) => Concat(albums)
    case AlbumItem(songs) => songs
    case SongItem(song) => [song]
    case OtherItem => []
  }

  /** An entry made from a library song. */
  predicate FromSong(e: Playlist.Entry, s: LibrarySong)
  {
    e.source == Playlist.Library && e.url == s.filePath && e.artist == s.artistName
    && e.title == s.name && e.duration == s.secs && e.iconUrl == ""
  }

  /** What download sends: the kind of download, its URL and the names to file it under. */
  datatype DownloadRequestType = BandcampAlbumDownload | YoutubeVideoDownload
  datatype DownloadRequest = DownloadRequest(requestType: DownloadRequestType, url: string, artistName: string, albumName: string)

  /**
   * download: a Bandcamp album is requested under its artist and title, a
   * YouTube video under its title with no artist; other results are not
   * supported and nothing is requested.
   */
  function Download(result: SearchResult): (r: Option<DownloadRequest>)
    ensures r.Some? <==> result.BandcampAlbumResult? || result.YoutubeVideoResult?
    ensures result.BandcampAlbumResult? ==>
      r == Some(DownloadRequest(BandcampAlbumDownload, result.albumUrl, result.artist, result.albumTitle))
    ensures result.YoutubeVideoResult? ==>
      r == Some(DownloadRequest(YoutubeVideoDownload, result.videoUrl, "", result.videoTitle))
  {
    match result
    case BandcampAlbumResult(url, artist, title, _) => Some(DownloadRequest(BandcampAlbumDownload, url, artist, title))
    case YoutubeVideoResult(url, title, _, _, _) => Some(DownloadRequest(YoutubeVideoDownload, url, "", title))
    case _ => None
  }

  /** The request names the result it was built from: its type matches the result's kind. */
  lemma DownloadKind(result: SearchResult)
    requires Download(result).Some?
    ensures Download(result).value.requestType == BandcampAlbumDownload <==> result.BandcampAlbumResult?
  {
  }

  /** What addSearchResultToPlaylist did with a result. */
  datatype Outcome = Ignored | Queued | QueryStarted

  class Controller {
    const playlist: Playlist.Playlist

    constructor (playlist: Playlist.Playlist)
      ensures this.playlist == playlist
    {
      this.playlist := playlist;
    }

    /** queueBandcampTrack: the track is appended or prepended. */
    method QueueBandcampTrack(t: Track, append: bool) returns (e: Playlist.Entry)
      modifies playlist, playlist.entries
      ensures fresh(e) && FromTrack(e, t)
      ensures append ==> playlist.entries.data == old(playlist.entries.data) + [e]
      ensures !append ==> playlist.entries.data == [e] + old(playlist.entries.data)
      ensures playlist.icons == Playlist.IconRequested(old(playlist.icons), t.iconUrl)
      ensures playlist.current == old(playlist.current) && playlist.hasSelected == old(playlist.hasSelected)
    {
      if append {
        e := playlist.Append(Playlist.Bandcamp, t.title, t.albumArtist, t.url, t.secs, t.iconUrl);
      } else {
        e := playlist.Prepend(Playlist.Bandcamp, t.title, t.albumArtist, t.url, t.secs, t.iconUrl);
      }
    }

    /**
     * queueBandcampAlbum: nothing for an album without tracks; otherwise
     * appending queues the tracks front to back, and prepending queues them
     * back to front, so in both cases the album keeps its order.
     */
    method QueueBandcampAlbum(tracks: seq<Track>, append: bool) returns (queued: bool, added: seq<Playlist.Entry>)
      modifies playlist, playlist.entries
      ensures queued <==> |tracks| > 0
      ensures FromTracks(added, tracks)
      ensures forall i :: 0 <= i < |added| ==> fresh(added[i])
      ensures append ==> playlist.entries.data == old(playlist.entries.data) + added
      ensures !append ==> playlist.entries.data == added + old(playlist.entries.data)
      ensures IconsAdded(old(playlist.icons), playlist.icons, TrackIcons(tracks))
      ensures playlist.current == old(playlist.current) && playlist.hasSelected == old(playlist.hasSelected)
    {
      if |tracks| == 0 {
        return false, [];
      }
      if append {
        added := AppendTracks(tracks);
      } else {
        added := PrependTracks(tracks);
      }
      return true, added;
    }

    /** The appending loop of queueBandcampAlbum: front to back, each track at the end. */
    method AppendTracks(tracks: seq<Track>) returns (added: seq<Playlist.Entry>)
      modifies playlist, playlist.entries
      ensures FromTracks(added, tracks)
      ensures forall i :: 0 <= i < |added| ==> fresh(added[i])
      ensures playlist.entries.data == old(playlist.entries.data) + added
      ensures IconsAdded(old(playlist.icons), playlist.icons, TrackIcons(tracks))
      ensures playlist.current == old(playlist.current) && playlist.hasSelected == old(playlist.hasSelected)
    {
      added := [];
      var i := 0;
      while i < |tracks|
        invariant 0 <= i <= |tracks|
        invariant FromTracks(added, tracks[..i])
        invariant forall k :: 0 <= k < |added| ==> fresh(added[k])
        invariant playlist.entries.data == old(playlist.entries.data) + added
        invariant IconsAdded(old(playlist.icons), playlist.icons, TrackIcons(tracks[..i]))
        invariant playlist.current == old(playlist.current) && playlist.hasSelected == old(playlist.hasSelected)
      {
        ghost var icons := playlist.icons;
        var e := QueueBandcampTrack(tracks[i], true);
        IconsAddedStep(old(playlist.icons), icons, TrackIcons(tracks[..i]), tracks[i].iconUrl);
        TrackIconsSnoc(tracks, i);
        added := added + [e];
        i := i + 1;
      }
      assert tracks[..i] == tracks;
    }

    /** The prepending loop of queueBandcampAlbum: back to front, each track at the front. */
    method PrependTracks(tracks: seq<Track>) returns (added: seq<Playlist.Entry>)
      modifies playlist, playlist.entries
      ensures FromTracks(added, tracks)
      ensures forall i :: 0 <= i < |added| ==> fresh(added[i])
      ensures playlist.entries.data == added + old(playlist.entries.data)
      ensures IconsAdded(old(playlist.icons), playlist.icons, TrackIcons(tracks))
      ensures playlist.current == old(playlist.current) && playlist.hasSelected == old(playlist.hasSelected)
    {
      added := [];
      var i := |tracks|;
      while i > 0
        invariant 0 <= i <= |tracks|
        invariant FromTracks(added, tracks[i..])
        invariant forall k :: 0 <= k < |added| ==> fresh(added[k])
        invariant playlist.entries.data == added + old(playlist.entries.data)
        invariant IconsAdded(old(playlist.icons), playlist.icons, TrackIcons(tracks[i..]))
        invariant playlist.current == old(playlist.current) && playlist.hasSelected == old(playlist.hasSelected)
      {
        i := i - 1;
        ghost var icons := playlist.icons;
        var e := QueueBandcampTrack(tracks[i], false);
        IconsAddedStep(old(playlist.icons), icons, TrackIcons(tracks[i + 1..]), tracks[i].iconUrl);
        TrackIconsCons(tracks, i);
        FromTracksCons(e, added, tracks, i);
        added := [e] + added;
      }
      assert tracks[0..] == tracks;
    }

    /**
     * addSearchResultToPlaylist: a missing result or an artist is ignored;
     * an album is queued when its tracks are known and otherwise queried;
     * a track is queued; a video is queued when its audio URL is known and
     * otherwise queried.
     */
    method AddSearchResultToPlaylist(result: Option<SearchResult>, append: bool) returns (outcome: Outcome, added: seq<Playlist.Entry>)
      modifies playlist, playlist.entries
      ensures outcome == Ignored <==> result.None? || result.value.BandcampArtistResult?
      ensures outcome == QueryStarted <==>
        result.Some? && ((result.value.BandcampAlbumResult? && |result.value.tracks| == 0)
          || (result.value.YoutubeVideoResult? && result.value.audioUrl == ""))
      ensures outcome != Queued ==>
        added == [] && playlist.entries.data == old(playlist.entries.data) && playlist.icons == old(playlist.icons)
      ensures outcome == Queued ==> FromResult(added, result.value) && |added| > 0
      ensures outcome == Queued ==> forall i :: 0 <= i < |added| ==> fresh(added[i])
      ensures outcome == Queued && append ==> playlist.entries.data == old(playlist.entries.data) + added
      ensures outcome == Queued && !append ==> playlist.entries.data == added + old(playlist.entries.data)
      ensures outcome == Queued ==> IconsAdded(old(playlist.icons), playlist.icons, ResultIcons(result.value))
      ensures playlist.current == old(playlist.current) && playlist.hasSelected == old(playlist.hasSelected)
    {
      added := [];
      if result.None? {
        return Ignored, [];
      }
      match result.value
      case BandcampAlbumResult(_, _, _, tracks) =>
        var queued;
        queued, added := QueueBandcampAlbum(tracks, append);
        outcome := if queued then Queued else QueryStarted;
        if !queued {
          assert tracks == [];
          assert TrackIcons(tracks) == {};
        }
      case BandcampTrackResult(t) =>
        var e := QueueBandcampTrack(t, append);
        added := [e];
        IconsAddedStep(old(playlist.icons), old(playlist.icons), {}, t.iconUrl);
        outcome := Queued;
      case YoutubeVideoResult(_, title, audioUrl, secs, iconUrl) =>
        if audioUrl == "" {
          outcome := QueryStarted;
        } else {
          var e;
          if append {
            e := playlist.Append(Playlist.Youtube, title, "", audioUrl, secs, iconUrl);
          } else {
            e := playlist.Prepend(Playlist.Youtube, title, "", audioUrl, secs, iconUrl);
          }
          added := [e];
          IconsAddedStep(old(playlist.icons), old(playlist.icons), {}, iconUrl);
          outcome := Queued;
        }
      case BandcampArtistResult =>
        outcome := Ignored;
    }

    /**
     * addLibraryItemToPlaylist: the item's songs are collected (an artist's
     * albums in order) and each is added in that order, at the end or at the
     * front. Added one by one at the front, they end up in reverse order.
     */
    method AddLibraryItemToPlaylist(item: LibraryItem, append: bool) returns (added: seq<Playlist.Entry>)
      modifies playlist, playlist.entries
      ensures |added| == |ItemSongs(item)|
      ensures forall i :: 0 <= i < |added| ==> fresh(added[i]) && FromSong(added[i], ItemSongs(item)[i])
      ensures append ==> playlist.entries.data == old(playlist.entries.data) + added
      ensures !append ==> playlist.entries.data == Reversed(added) + old(playlist.entries.data)
      ensures playlist.current == old(playlist.current) && playlist.hasSelected == old(playlist.hasSelected)
    {
      var songs := ItemSongs(item);
      added := [];
      var i := 0;
      while i < |songs|
        invariant 0 <= i <= |songs|
        invariant |added| == i
        invariant forall k :: 0 <= k < i ==> fresh(added[k]) && FromSong(added[k], songs[k])
        invariant append ==> playlist.entries.data == old(playlist.entries.data) + added
        invariant !append ==> playlist.entries.data == Reversed(added) + old(playlist.entries.data)
        invariant playlist.current == old(playlist.current) && playlist.hasSelected == old(playlist.hasSelected)
      {
        var s := songs[i];
        var e;
        if append {
          e := playlist.Append(Playlist.Library, s.name, s.artistName, s.filePath, s.secs, "");
        } else {
          e := playlist.Prepend(Playlist.Library, s.name, s.artistName, s.filePath, s.secs, "");
          assert Reversed(added + [e]) == [e] + Reversed(added);
        }
        added := added + [e];
        i := i + 1;
      }
    }
  }

  /** The sequence back to front. */
  function Reversed<T>(s: seq<T>): (r: seq<T>)
    ensures |r| == |s|
    ensures forall i :: 0 <= i < |s| ==> r[i] == s[|s| - 1 - i]
  {
    if s == [] then [] else Reversed(s[1..]) + [s[0]]
  }
}
