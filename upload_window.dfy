// The uploader's main window (src/uploader/mainwindow.cpp): audio files are
// picked by suffix, shown under a path relative to the chosen directory with
// the tags read from them, and uploaded one at a time, each entry checked for
// sanity first. The file system, the tag reader, the dialogs and the network
// are parameters: a FileSystem answers what QFileInfo and QFile would, Tags
// what TagLib reads, and the answer to the "Skipping upload" question is a
// function of the entry. The message sent is the request record; its JSON and
// base64 text are outside the model.
module UploadWindow {

  import opened Wrappers
  import Text
  import FV = FileView

  /** What QFileInfo and QFile tell of a path. */
  datatype FileStatus = FileStatus(
    isFile: bool, present: bool, readable: bool, size: int,
    absolutePath: string, opens: bool, contents: seq<bv8>)

  type FileSystem = string -> FileStatus

  /** What TagLib reads from a file: the track number is unsigned, the length absent without audio properties. */
  datatype Tags = Tags(artist: string, album: string, title: string, track: UInt32, length: Option<int>)

  type UInt32 = x: int | 0 <= x < 0x1_0000_0000

  // ---------------------------------------------------------------------
  // Paths

  /** removePrefix: the prefix is cut off once, when the string starts with it. */
  function RemovePrefix(dst: string, prefix: string): (r: string)
    ensures Text.StartsWith(dst, prefix) ==> prefix + r == dst
    ensures !Text.StartsWith(dst, prefix) ==> r == dst
  {
    if Text.StartsWith(dst, prefix) then dst[|prefix|..] else dst
  }

  /** Only one copy of the prefix goes, however often it repeats. */
  lemma RemovePrefixOnce(prefix: string, s: string)
    ensures RemovePrefix(prefix + s, prefix) == s
  {
    assert (prefix + s)[..|prefix|] == prefix;
  }

  /** The display path: the absolute path without the base directory, then without one leading '/', then without one leading '\'. */
  function DisplayPath(absPath: string, baseDir: string): string
  {
    RemovePrefix(RemovePrefix(RemovePrefix(absPath, baseDir), "/"), "\\")
  }

  /** A file below the base directory is shown by its path relative to it. */
  lemma DisplayPathRelative(baseDir: string, rel: string)
    requires rel == [] || (rel[0] != '/' && rel[0] != '\\')
    ensures DisplayPath(baseDir + "/" + rel, baseDir) == rel
  {
    RemovePrefixOnce(baseDir, "/" + rel);
    assert baseDir + "/" + rel == baseDir + ("/" + rel);
    RemovePrefixOnce("/", rel);
    assert !Text.StartsWith(rel, "\\") by {
      if rel != [] {
        assert rel[..1] != "\\";
      }
    }
  }

  /** The part of s after the last c; all of s when c does not occur. */
  function AfterLast(s: string, c: char): (r: string)
    ensures |r| <= |s| && c !in r
  {
    if s == [] then []
    else if s[|s| - 1] == c then []
    else AfterLast(s[..|s| - 1], c) + [s[|s| - 1]]
  }

  /** Text without c after s leaves the part after the last c of s in front of it. */
  lemma {:induction false} AfterLastAppend(s: string, t: string, c: char)
    requires c !in t
    ensures AfterLast(s + t, c) == AfterLast(s, c) + t
    decreases |t|
  {
    if t == [] {
      assert s + t == s;
    } else {
      var init := t[..|t| - 1];
      var last := t[|t| - 1];
      assert last != c;
      AfterLastAppend(s, init, c);
      var st := s + t;
      assert st[|st| - 1] == last;
      DropLastOfAppend(s, t);
      assert AfterLast(st, c) == AfterLast(s + init, c) + [last];
      assert t == init + [last];
    }
  }

  lemma DropLastOfAppend(s: string, t: string)
    requires t != []
    ensures (s + t)[..|s + t| - 1] == s + t[..|t| - 1]
  {
  }

  /** QFileInfo::suffix: the file name's part after its last '.', empty without a '.'. */
  function Suffix(path: string): string
  {
    var name := AfterLast(path, '/');
    if '.' in name then AfterLast(name, '.') else []
  }

  /** A file named with an extension has that extension as its suffix. */
  lemma SuffixOfName(base: string, ext: string)
    requires '.' !in ext && '/' !in ext
    ensures Suffix(base + "." + ext) == ext
  {
    var dir := AfterLast(base, '/');
    assert base + "." + ext == base + ("." + ext);
    AfterLastAppend(base, "." + ext, '/');
    var name := dir + ("." + ext);
    assert name[|dir|] == '.';
    var dotted := dir + ".";
    assert dotted[|dotted| - 1] == '.';
    assert AfterLast(dotted, '.') == [];
    assert name == dotted + ext;
    AfterLastAppend(dotted, ext, '.');
  }

  /** s_audioSuffixes, compared case-sensitively. */
  predicate IsAudioSuffix(s: string)
  {
    s == "3gp" || s == "flac" || s == "m4a" || s == "mp3" || s == "ogg" || s == "oga"
    || s == "mogg" || s == "opus" || s == "wav" || s == "wma" || s == "webm"
  }

  /** A regular file whose suffix is in the list. */
  predicate IsAudioFile(fs: FileSystem, path: string)
  {
    fs(path).isFile && IsAudioSuffix(Suffix(path))
  }

  /** Case counts: a file ending in ".MP3" is not taken. */
  lemma UpperCaseSuffixNotAudio(fs: FileSystem, base: string)
    ensures !IsAudioFile(fs, base + ".MP3")
  {
    assert base + ".MP3" == base + "." + "MP3";
    SuffixOfName(base, "MP3");
    assert "MP3"[0] == 'M';
  }

  /** The files of a list that are audio files, in order. */
  function AudioFiles(fs: FileSystem, files: seq<string>): (r: seq<string>)
    ensures |r| <= |files|
  {
    if files == [] then []
    else AudioFiles(fs, files[..|files| - 1]) + (if IsAudioFile(fs, files[|files| - 1]) then [files[|files| - 1]] else [])
  }

  /** A path is kept exactly when it is listed and is an audio file. */
  lemma {:induction false} AudioFilesMembers(fs: FileSystem, files: seq<string>, p: string)
    ensures p in AudioFiles(fs, files) <==> p in files && IsAudioFile(fs, p)
  {
    if files != [] {
      var init := files[..|files| - 1];
      AudioFilesMembers(fs, init, p);
      assert files == init + [files[|files| - 1]];
    }
  }

  /** The filtering loop of addFilesToTableView. */
  method FilterAudioFiles(fs: FileSystem, files: seq<string>) returns (filtered: seq<string>)
    ensures filtered == AudioFiles(fs, files)
  {
    filtered := [];
    var i := 0;
    while i < |files|
      invariant 0 <= i <= |files|
      invariant filtered == AudioFiles(fs, files[..i])
    {
      assert files[..i + 1][..i] == files[..i];
      if fs(files[i]).isFile && IsAudioSuffix(Suffix(files[i])) {
        filtered := filtered + [files[i]];
      }
      i := i + 1;
    }
    assert files[..i] == files;
  }

  // ---------------------------------------------------------------------
  // Entries

  /** The track number as the int it is stored in. */
  function TrackPosition(track: UInt32): (position: int)
    ensures track < 0x8000_0000 ==> position == track
    ensures track >= 0x8000_0000 ==> position < 0
  {
    if track < 0x8000_0000 then track else track - 0x1_0000_0000
  }

  /** The entry for a file: its absolute path, its display path, its tags, and a duration of 0 without audio properties. */
  function EntryFor(fs: FileSystem, tags: string -> Tags, baseDir: string, file: string): FV.FileEntry
  {
    var absPath := fs(file).absolutePath;
    var t := tags(absPath);
    FV.FileEntry(absPath, DisplayPath(absPath, baseDir), t.artist, t.album, TrackPosition(t.track), t.title,
                 if t.length.Some? then t.length.value else 0)
  }

  /** The entries for a list of files. */
  function EntriesFor(fs: FileSystem, tags: string -> Tags, baseDir: string, files: seq<string>): (r: seq<FV.FileEntry>)
    ensures |r| == |files| && forall k :: 0 <= k < |files| ==> r[k] == EntryFor(fs, tags, baseDir, files[k])
  {
    seq(|files|, k requires 0 <= k < |files| => EntryFor(fs, tags, baseDir, files[k]))
  }

  /** One more file adds its entry at the end. */
  lemma EntriesSnoc(fs: FileSystem, tags: string -> Tags, baseDir: string, files: seq<string>, i: nat)
    requires i < |files|
    ensures EntriesFor(fs, tags, baseDir, files[..i + 1])
      == EntriesFor(fs, tags, baseDir, files[..i]) + [EntryFor(fs, tags, baseDir, files[i])]
  {
    var longer := EntriesFor(fs, tags, baseDir, files[..i + 1]);
    var shorter := EntriesFor(fs, tags, baseDir, files[..i]) + [EntryFor(fs, tags, baseDir, files[i])];
    forall k | 0 <= k < |longer|
      ensures longer[k] == shorter[k]
    {
      assert files[..i + 1][k] == files[k];
    }
    assert longer == shorter;
  }

  /** Concatenation is associative. */
  lemma Associated<T>(a: seq<T>, b: seq<T>, c: seq<T>)
    ensures (a + b) + c == a + (b + c)
  {
  }

  /** The body of addFilesToTableView's loop: the entry read for one file. */
  method ReadEntry(fs: FileSystem, tags: string -> Tags, baseDir: string, file: string) returns (entry: FV.FileEntry)
    ensures entry == EntryFor(fs, tags, baseDir, file)
  {
    var absPath := fs(file).absolutePath;
    var t := tags(absPath);
    var displayPath := absPath;
    displayPath := RemovePrefix(displayPath, baseDir);
    displayPath := RemovePrefix(displayPath, "/");
    displayPath := RemovePrefix(displayPath, "\\");
    entry := FV.FileEntry(absPath, displayPath, t.artist, t.album, TrackPosition(t.track), t.title,
                          if t.length.Some? then t.length.value else 0);
  }

  /** How many files are added when the progress dialog reports a cancel from step cancelAt on. */
  function AddedCount(count: nat, cancelAt: Option<nat>): (n: nat)
    ensures n <= count
    ensures cancelAt.None? ==> n == count
  {
    if cancelAt.Some? && cancelAt.value < count then cancelAt.value else count
  }

  // ---------------------------------------------------------------------
  // Uploads

  /** UploadSongRequest: what the server is told of the song. */
  datatype UploadRequest = UploadRequest(
    title: string, duration: int, position: int, albumName: string, artistName: string,
    fileEnding: string, fileSize: int)

  /** A POST made: the file's data and the request. */
  datatype Post = Post(data: seq<bv8>, request: UploadRequest)

  /** 90 MiB, the largest file uploaded. */
  const MaxUploadSize: int := 90 * 0x10_0000

  /** The sanity check of startNextUpload: tags filled in, a positive duration, a position, and a readable file of at most 90 MiB. */
  predicate Sane(fs: FileSystem, e: FV.FileEntry)
  {
    !(e.artist == [] || e.album == [] || e.title == [] || e.duration <= 0 || e.position < 0
      || !fs(e.path).present || !fs(e.path).readable || fs(e.path).size > MaxUploadSize)
  }

  /** The request built for an entry. */
  function RequestFor(fs: FileSystem, e: FV.FileEntry): UploadRequest
  {
    UploadRequest(e.title, e.duration, e.position, e.album, e.artist, Suffix(e.path), fs(e.path).size)
  }

  /** The answers to "Skipping upload": Ignore goes on, Cancel stops, and a dialog closed otherwise does neither. */
  datatype Choice = Ignore | Cancel | Closed

  /** The upload state: the queue, the progress dialog's value (None once reset), the reply awaited, and the posts made. */
  datatype Uploads = Uploads(queue: seq<FV.FileEntry>, progress: Option<int>, current: Option<nat>, posts: seq<Post>)

  /** Posting makes the new reply the awaited one. */
  function Posted(u: Uploads, p: Post): (r: Uploads)
    ensures r.current == Some(|u.posts|) && r.posts == u.posts + [p]
  {
    u.(posts := u.posts + [p], current := Some(|u.posts|))
  }

  /**
   * startNextUpload with the dialog present and no reply awaited: the
   * progress goes up; an empty queue resets the dialog; otherwise the first
   * entry is taken, asked about when not sane, and posted. When the file does
   * not open, the next upload is started; as written (fixed false) the code
   * then goes on to post the entry with the empty data read from the
   * unopened file.
   */
  function Next(fs: FileSystem, ask: FV.FileEntry -> Choice, u: Uploads, fixed: bool): Uploads
    requires u.progress.Some? && u.current.None?
    decreases |u.queue|
  {
    var u1 := u.(progress := Some(u.progress.value + 1));
    if u1.queue == [] then u1.(progress := None)
    else
      var e := u1.queue[0];
      var u2 := u1.(queue := u1.queue[1..]);
      if !Sane(fs, e) then
        match ask(e)
        case Ignore => Next(fs, ask, u2, fixed)
        case Cancel => u2.(queue := [], progress := None)
        case Closed => u2
      else if !fs(e.path).opens then
        var after := Next(fs, ask, u2, fixed);
        if fixed then after else Posted(after, Post([], RequestFor(fs, e)))
      else Posted(u2, Post(fs(e.path).contents, RequestFor(fs, e)))
  }

  /** A reply is awaited only while the progress dialog exists, and it is one of the posts made. */
  predicate Inv(u: Uploads)
  {
    u.current.Some? ==> u.progress.Some? && u.current.value < |u.posts|
  }

  /** Starting the next upload keeps the invariant. */
  lemma {:induction false} NextKeepsInv(fs: FileSystem, ask: FV.FileEntry -> Choice, u: Uploads)
    requires u.progress.Some? && u.current.None?
    ensures Inv(Next(fs, ask, u, true))
    decreases |u.queue|
  {
    if u.queue != [] {
      var u2 := u.(progress := Some(u.progress.value + 1), queue := u.queue[1..]);
      NextKeepsInv(fs, ask, u2);
    }
  }

  /**
   * At most one post is made, of the first entry of the queue that is sane
   * and opens, with the file's contents; the posts before stay, and what is
   * left of the queue is a suffix of it.
   */
  lemma {:induction false} NextPostsSaneEntry(fs: FileSystem, ask: FV.FileEntry -> Choice, u: Uploads)
    requires u.progress.Some? && u.current.None?
    ensures var r := Next(fs, ask, u, true);
      && |r.queue| <= |u.queue| && r.queue == u.queue[|u.queue| - |r.queue|..]
      && u.posts <= r.posts && |r.posts| <= |u.posts| + 1
      && (|r.posts| == |u.posts| + 1 ==>
            r.current == Some(|u.posts|) &&
            exists e :: e in u.queue && Sane(fs, e) && fs(e.path).opens && r.posts[|u.posts|] == Post(fs(e.path).contents, RequestFor(fs, e)))
      && (|r.posts| == |u.posts| ==> r.current.None?)
    decreases |u.queue|
  {
    if u.queue != [] {
      var u2 := u.(progress := Some(u.progress.value + 1), queue := u.queue[1..]);
      NextPostsSaneEntry(fs, ask, u2);
      var r := Next(fs, ask, u, true);
      var r2 := Next(fs, ask, u2, true);
      if |r.posts| == |u.posts| + 1 && r == r2 {
        var e :| e in u2.queue && Sane(fs, e) && fs(e.path).opens && r2.posts[|u.posts|] == Post(fs(e.path).contents, RequestFor(fs, e));
        assert e in u.queue;
      }
      if r == r2 {
        assert r.queue == u.queue[|u.queue| - |r.queue|..];
      }
    }
  }

  /** A request for a sane entry passes the checks the server repeats: tags present, positive duration, a position, at most 90 MiB. */
  lemma SaneRequest(fs: FileSystem, e: FV.FileEntry)
    requires Sane(fs, e)
    ensures var q := RequestFor(fs, e);
      q.title != [] && q.albumName != [] && q.artistName != [] && q.duration > 0 && q.position >= 0 && q.fileSize <= MaxUploadSize
  {
  }

  /** A sane entry whose file exists but does not open, alone in the queue. */
  function UnopenedExample(): (FileSystem, FV.FileEntry)
  {
    var fs := (p: string) => FileStatus(true, true, true, 1000, p, false, []);
    (fs, FV.FileEntry("/music/a.mp3", "a.mp3", "Artist", "Album", 1, "Title", 60))
  }

  /**
   * As written, a file that does not open still gets posted, with no data
   * and its full size announced, after the dialog was already reset: the
   * reply to it then finds no dialog.
   */
  lemma NextAsWrittenPostsUnopened(ask: FV.FileEntry -> Choice)
    ensures var (fs, e) := UnopenedExample();
      var r := Next(fs, ask, Uploads([e], Some(0), None, []), false);
      && r.posts == [Post([], RequestFor(fs, e))]
      && RequestFor(fs, e).fileSize == 1000
      && !Inv(r)
  {
    var (fs, e) := UnopenedExample();
    var u := Uploads([e], Some(0), None, []);
    assert Sane(fs, e);
    var after := Next(fs, ask, u.(progress := Some(1), queue := []), false);
    assert after == Uploads([], None, None, []);
  }

  /** Corrected, the same queue posts nothing and leaves the invariant intact. */
  lemma NextSkipsUnopened(ask: FV.FileEntry -> Choice)
    ensures var (fs, e) := UnopenedExample();
      var r := Next(fs, ask, Uploads([e], Some(0), None, []), true);
      r.posts == [] && r.queue == [] && r.progress.None? && Inv(r)
  {
    var (fs, e) := UnopenedExample();
    assert Sane(fs, e);
  }

  // ---------------------------------------------------------------------
  // The window

  /** MainWindow: the file table and the upload queue. */
  class MainWindow {

    const view: FV.FileView
    var filesToUpload: seq<FV.FileEntry>
    var progress: Option<int>
    var currentUpload: Option<nat>
    var posts: seq<Post>

    /** The upload state as a value. */
    function State(): Uploads
      reads this
    {
      Uploads(filesToUpload, progress, currentUpload, posts)
    }

    predicate Valid()
      reads this
    {
      Inv(State())
    }

    constructor()
      ensures Valid() && fresh(view) && fresh(view.model) && view.model.files == []
      ensures filesToUpload == [] && progress.None? && currentUpload.None? && posts == []
    {
      view := new FV.FileView();
      filesToUpload := [];
      progress := None;
      currentUpload := None;
      posts := [];
    }

    /**
     * addFilesToTableView: the audio files among those given get an entry
     * each, in order, until the progress dialog reports a cancel.
     */
    method AddFilesToTableView(fs: FileSystem, tags: string -> Tags, baseDir: string, files: seq<string>, cancelAt: Option<nat>)
      modifies view.model
      ensures var filtered := AudioFiles(fs, files);
        view.model.files == old(view.model.files) + EntriesFor(fs, tags, baseDir, filtered[..AddedCount(|filtered|, cancelAt)])
    {
      var filtered := FilterAudioFiles(fs, files);
      AddEntries(fs, tags, baseDir, filtered, cancelAt);
    }

    /** The loop of addFilesToTableView: an entry per audio file, in order, until the cancel. */
    method AddEntries(fs: FileSystem, tags: string -> Tags, baseDir: string, filtered: seq<string>, cancelAt: Option<nat>)
      modifies view.model
      ensures view.model.files == old(view.model.files) + EntriesFor(fs, tags, baseDir, filtered[..AddedCount(|filtered|, cancelAt)])
    {
      ghost var start := view.model.files;
      var i := 0;
      while i < |filtered|
        invariant 0 <= i <= |filtered| && i <= AddedCount(|filtered|, cancelAt)
        invariant view.model.files == start + EntriesFor(fs, tags, baseDir, filtered[..i])
      {
        if cancelAt.Some? && i >= cancelAt.value {
          break;
        }
        var entry := ReadEntry(fs, tags, baseDir, filtered[i]);
        EntriesSnoc(fs, tags, baseDir, filtered, i);
        Associated(start, EntriesFor(fs, tags, baseDir, filtered[..i]), [entry]);
        view.Add(entry);
        i := i + 1;
      }
      assert i == AddedCount(|filtered|, cancelAt);
    }

    /** startNextUpload, with the return the open failure evidently needs. */
    method StartNextUpload(fs: FileSystem, ask: FV.FileEntry -> Choice)
      requires progress.Some? && currentUpload.None?
      modifies this
      ensures State() == Next(fs, ask, old(State()), true)
      decreases |filesToUpload|
    {
      progress := Some(progress.value + 1);
      if filesToUpload == [] {
        progress := None;
        return;
      }
      var entry := filesToUpload[0];
      filesToUpload := filesToUpload[1..];
      if !Sane(fs, entry) {
        var answer := ask(entry);
        if answer == Ignore {
          StartNextUpload(fs, ask);
        } else if answer == Cancel {
          CancelUploads();
        }
        return;
      }
      if !fs(entry.path).opens {
        StartNextUpload(fs, ask);
        return;
      }
      var request := UploadRequest(entry.title, entry.duration, entry.position, entry.album, entry.artist,
                                   Suffix(entry.path), fs(entry.path).size);
      posts := posts + [Post(fs(entry.path).contents, request)];
      currentUpload := Some(|posts| - 1);
    }

    /** cancelUploads: the queue is emptied and the dialog reset. */
    method CancelUploads()
      modifies this
      ensures filesToUpload == [] && progress.None?
      ensures currentUpload == old(currentUpload) && posts == old(posts)
    {
      filesToUpload := [];
      progress := None;
    }

    /** onUploadClicked: unless a reply is awaited, the table's files are queued and the first upload started. */
    method OnUploadClicked(fs: FileSystem, ask: FV.FileEntry -> Choice)
      requires Valid()
      modifies this
      ensures Valid()
      ensures old(currentUpload).Some? ==> State() == old(State())
      ensures old(currentUpload).None? ==> State() == Next(fs, ask, Uploads(view.model.files, Some(0), None, old(posts)), true)
    {
      if currentUpload.Some? {
        return;
      }
      filesToUpload := view.model.files;
      progress := Some(0);
      NextKeepsInv(fs, ask, State());
      StartNextUpload(fs, ask);
    }

    /** onNetworkReplyFinished: the awaited reply, whatever it says, lets the next upload start; any other is ignored. */
    method OnNetworkReplyFinished(reply: nat, fs: FileSystem, ask: FV.FileEntry -> Choice)
      requires Valid()
      modifies this
      ensures Valid()
      ensures old(currentUpload) != Some(reply) ==> State() == old(State())
      ensures old(currentUpload) == Some(reply) ==> State() == Next(fs, ask, old(State()).(current := None), true)
    {
      if currentUpload != Some(reply) {
        return;
      }
      currentUpload := None;
      NextKeepsInv(fs, ask, State());
      StartNextUpload(fs, ask);
    }
  }
}
