// Reading the Bandcamp scraper's JSON (src/common/src/json.cpp): a song
// needs a name, a URL and an "m:ss" duration; an album needs a name, a URL,
// an icon and a non-empty list of songs that all read. Fields are assigned
// only once everything has been checked.
module BandcampJson {

  import opened Wrappers
  import opened JsonConv
  import Text
  import Decimal

  /** QJsonValue::toString: the string, or the empty string for any other value. */
  function AsString(j: Json): (s: string)
    ensures j.JString? ==> s == j.s
    ensures !j.JString? ==> s == ""
  {
    if j.JString? then j.s else ""
  }

  /** QJsonValue::toObject: the object, or an empty object for any other value. */
  function AsObject(j: Json): (m: map<string, Json>)
    ensures j.JObject? ==> m == j.members
    ensures !j.JObject? ==> m == map[]
  {
    if j.JObject? then j.members else map[]
  }

  /** QJsonValue::toArray: the array, or an empty array for any other value. */
  function AsArray(j: Json): (a: seq<Json>)
    ensures j.JArray? ==> a == j.elems
    ensures !j.JArray? ==> a == []
  {
    if j.JArray? then j.elems else []
  }

  /**
   * The "m:ss" duration: exactly two ':'-separated parts that are both
   * integers, giving m * 60 + s; the seconds are not range-checked.
   */
  function ParseDuration(d: string): (r: Option<int>)
    ensures r.Some? ==> |Text.Split(d, ':')| == 2
  {
    var parts := Text.Split(d, ':');
    if |parts| != 2 then None
    else
      match (Decimal.ParseInt(parts[0]), Decimal.ParseInt(parts[1]))
      case (Some(m), Some(s)) => Some(m * 60 + s)
      case _ => None
  }

  /** Every 32-bit duration written "%d:%02d" (as the playlist and the uploader show it) reads back. */
  lemma DurationRoundTrip(secs: int)
    requires Decimal.Int32Min <= secs <= Decimal.Int32Max
    ensures ParseDuration(Decimal.MinutesSeconds(Decimal.CDiv(secs, 60), Decimal.CMod(secs, 60))) == Some(secs)
  {
    var m := Decimal.CDiv(secs, 60);
    var s := Decimal.CMod(secs, 60);
    Decimal.CDivMod(secs, 60);
    Decimal.IntToStringParses(m);
    Decimal.Pad2Parses(s);
  }

  /** Any two 32-bit integers are accepted, seconds of 60 or more included. */
  lemma DurationAnySeconds(m: int, s: int)
    requires Decimal.Int32Min <= m <= Decimal.Int32Max && Decimal.Int32Min <= s <= Decimal.Int32Max
    ensures ParseDuration(Decimal.IntToString(m) + ":" + Decimal.IntToString(s)) == Some(m * 60 + s)
  {
    Decimal.NoColon(m);
    Decimal.NoColon(s);
    Text.SplitAtSep(Decimal.IntToString(m), Decimal.IntToString(s), ':');
    Text.SplitWithoutSep(Decimal.IntToString(s), ':');
    Decimal.IntToStringParses(m);
    Decimal.IntToStringParses(s);
  }

  /** A song as an album stores it. */
  datatype SongInfo = SongInfo(name: string, url: string, secs: int)

  /** BandcampSongInfo::fromJson's checks and results. */
  function ParseSong(obj: map<string, Json>): (r: Option<SongInfo>)
    ensures r.Some? <==> "name" in obj && "url" in obj && "duration" in obj && ParseDuration(AsString(obj["duration"])).Some?
    ensures r.Some? ==> r.value == SongInfo(AsString(obj["name"]), AsString(obj["url"]), ParseDuration(AsString(obj["duration"])).value)
  {
    if "name" !in obj || "url" !in obj || "duration" !in obj then None
    else
      match ParseDuration(AsString(obj["duration"]))
      case None => None
      case Some(secs) => Some(SongInfo(AsString(obj["name"]), AsString(obj["url"]), secs))
  }

  class BandcampSongInfo {
    var name: string
    var url: string
    var secs: int

    constructor ()
      ensures name == "" && url == "" && secs == 0
    {
      name := "";
      url := "";
      secs := 0;
    }

    function Value(): SongInfo
      reads this
    {
      SongInfo(name, url, secs)
    }

    /** fromJson: on success the fields hold what was read; on failure they are untouched. */
    method FromJson(obj: map<string, Json>) returns (ok: bool)
      modifies this
      ensures ok <==> ParseSong(obj).Some?
      ensures ok ==> Value() == ParseSong(obj).value
      ensures !ok ==> Value() == old(Value())
    {
      if "name" !in obj || "url" !in obj || "duration" !in obj {
        return false;
      }
      var durParts := Text.Split(AsString(obj["duration"]), ':');
      if |durParts| != 2 {
        return false;
      }
      var durMins := Decimal.ParseInt(durParts[0]);
      var durSecs := Decimal.ParseInt(durParts[1]);
      if durMins.None? || durSecs.None? {
        return false;
      }
      name := AsString(obj["name"]);
      url := AsString(obj["url"]);
      secs := durMins.value * 60 + durSecs.value;
      return true;
    }
  }

  /** One element of the track array, read as an object. */
  function TrackSong(j: Json): Option<SongInfo>
  {
    ParseSong(AsObject(j))
  }

  /** The songs of a track array, each element read as an object, when every one of them reads. */
  function ParseTracks(tracks: seq<Json>): (r: Option<seq<SongInfo>>)
    ensures r.Some? ==> |r.value| == |tracks|
  {
    if tracks == [] then Some([])
    else
      var n := |tracks| - 1;
      match ParseTracks(tracks[..n])
      case None => None
      case Some(songs) =>
        match TrackSong(tracks[n])
        case None => None
        case Some(song) => Some(songs + [song])
  }

  /** In a track list that reads, each track's song is in its place. */
  lemma {:induction false} ParseTracksAt(tracks: seq<Json>, k: nat)
    requires ParseTracks(tracks).Some? && k < |tracks|
    ensures TrackSong(tracks[k]) == Some(ParseTracks(tracks).value[k])
  {
    var n := |tracks| - 1;
    if k < n {
      ParseTracksAt(tracks[..n], k);
    }
  }

  /** A track list that reads has no track that does not. */
  lemma {:induction false} ParseTracksNone(tracks: seq<Json>, k: nat)
    requires k < |tracks| && TrackSong(tracks[k]).None?
    ensures ParseTracks(tracks).None?
  {
    var n := |tracks| - 1;
    if k < n {
      ParseTracksNone(tracks[..n], k);
    }
  }

  /** One more track that reads extends the songs read so far. */
  lemma ParseTracksSnoc(tracks: seq<Json>, i: nat, songs: seq<SongInfo>, song: SongInfo)
    requires i < |tracks| && ParseTracks(tracks[..i]) == Some(songs) && TrackSong(tracks[i]) == Some(song)
    ensures ParseTracks(tracks[..i + 1]) == Some(songs + [song])
  {
    assert tracks[..i + 1][..i] == tracks[..i];
  }

  /** A track list whose tracks all read, reads. */
  lemma {:induction false} ParseTracksAll(tracks: seq<Json>)
    requires forall k :: 0 <= k < |tracks| ==> TrackSong(tracks[k]).Some?
    ensures ParseTracks(tracks).Some?
  {
    if tracks != [] {
      var n := |tracks| - 1;
      assert forall k :: 0 <= k < n ==> tracks[..n][k] == tracks[k];
      ParseTracksAll(tracks[..n]);
    }
  }

  /** The track list reads iff every track does, and then holds each track's song in order. */
  lemma ParseTracksMeaning(tracks: seq<Json>)
    ensures ParseTracks(tracks).Some? <==> forall k :: 0 <= k < |tracks| ==> TrackSong(tracks[k]).Some?
    ensures ParseTracks(tracks).Some? ==>
      forall k :: 0 <= k < |tracks| ==> ParseTracks(tracks).value[k] == TrackSong(tracks[k]).value
  {
    if ParseTracks(tracks).Some? {
      forall k | 0 <= k < |tracks|
        ensures TrackSong(tracks[k]) == Some(ParseTracks(tracks).value[k])
      {
        ParseTracksAt(tracks, k);
      }
    } else if forall k :: 0 <= k < |tracks| ==> TrackSong(tracks[k]).Some? {
      ParseTracksAll(tracks);
    }
  }

  /** A track that does not read makes every longer prefix fail. */
  lemma ParseTracksFails(tracks: seq<Json>, i: nat)
    requires i < |tracks| && TrackSong(tracks[i]).None?
    ensures ParseTracks(tracks).None?
  {
    ParseTracksNone(tracks, i);
  }

  /** What BandcampAlbumInfo::fromJson reads: name, url, icon and the songs. */
  datatype AlbumInfo = AlbumInfo(name: string, url: string, icon: string, tracks: seq<SongInfo>)

  /** BandcampAlbumInfo::fromJson's checks: four keys, a non-empty track array, and every track a song. */
  function ParseAlbum(obj: map<string, Json>): (r: Option<AlbumInfo>)
    ensures r.Some? ==> "name" in obj && "url" in obj && "icon" in obj && "tracks" in obj
    ensures r.Some? ==> |r.value.tracks| == |AsArray(obj["tracks"])| > 0
  {
    if "name" !in obj || "icon" !in obj || "tracks" !in obj || "url" !in obj then None
    else
      var trackArray := AsArray(obj["tracks"]);
      if trackArray == [] then None
      else
        match ParseTracks(trackArray)
        case None => None
        case Some(songs) => Some(AlbumInfo(AsString(obj["name"]), AsString(obj["url"]), AsString(obj["icon"]), songs))
  }

  /** An album is read iff its keys are there, it has tracks, and every track is a readable song. */
  lemma ParseAlbumAccepts(obj: map<string, Json>)
    ensures ParseAlbum(obj).Some? <==>
      && "name" in obj && "url" in obj && "icon" in obj && "tracks" in obj
      && |AsArray(obj["tracks"])| > 0
      && forall k :: 0 <= k < |AsArray(obj["tracks"])| ==> TrackSong(AsArray(obj["tracks"])[k]).Some?
  {
    if "tracks" in obj {
      ParseTracksMeaning(AsArray(obj["tracks"]));
    }
  }

  class BandcampAlbumInfo {
    var name: string
    var url: string
    var icon: string
    var tracks: seq<SongInfo>

    constructor ()
      ensures name == "" && url == "" && icon == "" && tracks == []
    {
      name := "";
      url := "";
      icon := "";
      tracks := [];
    }

    function Value(): AlbumInfo
      reads this
    {
      AlbumInfo(name, url, icon, tracks)
    }

    /** fromJson: all or nothing; the fields change only when every track read. */
    method FromJson(obj: map<string, Json>) returns (ok: bool)
      modifies this
      ensures ok <==> ParseAlbum(obj).Some?
      ensures ok ==> Value() == ParseAlbum(obj).value
      ensures !ok ==> Value() == old(Value())
    {
      if "name" !in obj || "icon" !in obj || "tracks" !in obj || "url" !in obj {
        return false;
      }
      var trackArray := AsArray(obj["tracks"]);
      if trackArray == [] {
        return false;
      }
      var songInfo: seq<SongInfo> := [];
      var i := 0;
      while i < |trackArray|
        invariant 0 <= i <= |trackArray|
        invariant ParseTracks(trackArray[..i]) == Some(songInfo)
        invariant Value() == old(Value())
      {
        var song := new BandcampSongInfo();
        var songOk := song.FromJson(AsObject(trackArray[i]));
        if !songOk {
          ParseTracksFails(trackArray, i);
          return false;
        }
        ParseTracksSnoc(trackArray, i, songInfo, song.Value());
        songInfo := songInfo + [song.Value()];
        i := i + 1;
      }
      assert trackArray[..i] == trackArray;
      name := AsString(obj["name"]);
      url := AsString(obj["url"]);
      icon := AsString(obj["icon"]);
      tracks := songInfo;
      return true;
    }
  }
}
