// The player front-end of the app (src/app/src/audio.cpp): the status shown
// to the UI is computed from the media player's error flag, state and media
// status; a status change is signalled, and the end of a song advances the
// playlist. The media player itself is outside the model: each slot is given
// what the player reports, and a song change returns what the player is
// asked to do.
module Audio {

  import opened Wrappers
  import Playlist

  /** Audio::Status. */
  datatype Status = Stopped | Error | Paused | PausedLoading | Playing | PlayingLoading

  /** QMediaPlayer::State. */
  datatype PlayerState = StoppedState | PlayingState | PausedState

  /** QMediaPlayer::MediaStatus; Other stands for any value outside the enumeration. */
  datatype MediaStatus =
    | UnknownMediaStatus | NoMedia | LoadingMedia | LoadedMedia | StalledMedia
    | BufferingMedia | BufferedMedia | EndOfMedia | InvalidMedia | OtherMediaStatus

  /** What the media player reports: whether it has an error, its state and its media status. */
  datatype Player = Player(hasError: bool, state: PlayerState, mediaStatus: MediaStatus)

  predicate IsPlaying(s: Status)
  {
    s == Playing || s == PlayingLoading
  }

  predicate IsPaused(s: Status)
  {
    s == Paused || s == PausedLoading
  }

  predicate IsLoading(s: Status)
  {
    s == PlayingLoading || s == PausedLoading
  }

  /** The three flags: never playing and paused at once, loading only while playing or paused, and neither for Stopped or Error. */
  lemma StatusFlags(s: Status)
    ensures !(IsPlaying(s) && IsPaused(s))
    ensures IsLoading(s) ==> IsPlaying(s) || IsPaused(s)
    ensures s == Stopped || s == Error <==> !IsPlaying(s) && !IsPaused(s)
  {
  }

  /** computeStatus: the status the player's report stands for. */
  function ComputeStatus(p: Player): (s: Status)
    ensures p.hasError ==> s == Error
    ensures IsLoading(s) <==> !p.hasError && p.mediaStatus == StalledMedia
    ensures s == Paused ==> p.state == PausedState
  {
    if p.hasError then Error
    else
      var playingState := p.state == PlayingState;
      var pausedState := p.state == PausedState;
      match p.mediaStatus
      case UnknownMediaStatus => Error
      case InvalidMedia => Error
      case NoMedia => Stopped
      case EndOfMedia => Stopped
      case LoadedMedia => Stopped
      case StalledMedia => if playingState then PlayingLoading else PausedLoading
      case BufferingMedia => if playingState then Playing else if pausedState then Paused else Stopped
      case BufferedMedia => if playingState then Playing else if pausedState then Paused else Stopped
      case LoadingMedia => if playingState then Playing else if pausedState then Paused else Stopped
      case OtherMediaStatus => Error
  }

  /**
   * The status is playing exactly when the player plays media it is loading,
   * buffering or stalled on; a stalled player that is not playing counts as
   * paused and loading, whatever its state.
   */
  lemma ComputeStatusPlaying(p: Player)
    ensures IsPlaying(ComputeStatus(p)) <==>
      && !p.hasError && p.state == PlayingState
      && p.mediaStatus in {LoadingMedia, StalledMedia, BufferingMedia, BufferedMedia}
    ensures !p.hasError && p.mediaStatus == StalledMedia && p.state == StoppedState ==> ComputeStatus(p) == PausedLoading
  {
  }

  /** Finished, empty or merely loaded media is Stopped; unknown or invalid media is Error. */
  lemma ComputeStatusMedia(p: Player)
    requires !p.hasError
    ensures p.mediaStatus in {NoMedia, EndOfMedia, LoadedMedia} ==> ComputeStatus(p) == Stopped
    ensures p.mediaStatus in {UnknownMediaStatus, InvalidMedia, OtherMediaStatus} ==> ComputeStatus(p) == Error
  {
  }

  class Audio {
    const playlist: Playlist.Playlist
    var status: Status

    constructor (playlist: Playlist.Playlist)
      ensures this.playlist == playlist && status == Stopped
    {
      this.playlist := playlist;
      status := Stopped;
    }

    /** hasSong: the playlist has a current song. */
    function HasSong(): (r: bool)
      reads playlist, playlist.entries
      ensures r <==> playlist.CurrentSong().Some?
    {
      playlist.CurrentSong() != None
    }

    /**
     * updateStatus: the status becomes the computed one, with a change
     * signalled only when it differs; at the end of the media the playlist
     * moves to its next song.
     */
    method UpdateStatus(p: Player) returns (changed: bool)
      modifies this, playlist
      ensures status == ComputeStatus(p)
      ensures changed <==> old(status) != status
      ensures playlist.entries.data == old(playlist.entries.data) && playlist.icons == old(playlist.icons)
      ensures p.mediaStatus == EndOfMedia && |playlist.entries.data| > 0 ==>
        playlist.current == Playlist.Advanced(old(playlist.current), 1, |playlist.entries.data|)
      ensures !(p.mediaStatus == EndOfMedia && |playlist.entries.data| > 0) ==> playlist.current == old(playlist.current)
    {
      var computed := ComputeStatus(p);
      changed := false;
      if status != computed {
        status := computed;
        changed := true;
      }
      if p.mediaStatus == EndOfMedia {
        var _ := playlist.Next();
      }
    }

    /**
     * onCurrentSongChanged: with no current song the player is stopped,
     * otherwise it is given the song's URL and started; the status is set
     * accordingly and then recomputed from what the player reports
     * afterwards. The change signal compares with that intermediate status.
     */
    method OnCurrentSongChanged(after: Player) returns (media: Option<string>, changed: bool)
      modifies this, playlist
      ensures media.None? <==> old(playlist.CurrentSong()).None?
      ensures media.Some? ==> media.value == old(playlist.CurrentSong()).value.url
      ensures status == ComputeStatus(after)
      ensures changed <==> ComputeStatus(after) != (if media.None? then Stopped else Playing)
      ensures playlist.entries.data == old(playlist.entries.data) && playlist.icons == old(playlist.icons)
    {
      var song := playlist.CurrentSong();
      if song.None? {
        media := None;
        status := Stopped;
      } else {
        media := Some(song.value.url);
        status := Playing;
      }
      changed := UpdateStatus(after);
    }
  }
}
