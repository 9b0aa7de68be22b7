// The server's message CGI (src/server_cgi/main.cpp): a message arrives
// base64url-encoded after "?message64=" in REQUEST_URI or as the POST body;
// Ping and MediaUrlRequest are answered directly, an UploadSongRequest is
// checked against the POST data and handed on with it, a YoutubeUrlQuery is
// answered from youtube-dl's description of the video, and the library
// requests are forwarded to the database server. youtube-dl, the sockets,
// the temporary file, base64 and the JSON reader are outside the model:
// what they produce is given as a World.
module ServerCgiMessages {

  import opened Wrappers
  import opened JsonConv
  import Text
  import Decimal
  import LibraryMessages
  import CgiRequest

  // ---------------------------------------------------------------------
  // Selecting a format of a YouTube video

  /** QJsonValue::toString: the string, or the empty string for any other value. */
  function StringOf(j: Json): string
  {
    if j.JString? then j.s else []
  }

  /** QJsonValue::toInt: a number that fits an int, or 0 for anything else. */
  function IntOf(j: Json): int
  {
    if j.JNumber? && Decimal.Int32Min <= j.n <= Decimal.Int32Max then j.n else 0
  }

  /** The members of one youtube-dl format that the selection reads. */
  datatype Format = Format(name: string, size: int, url: string)

  function FormatOf(j: Json): Format
  {
    Format(StringOf(Member(j, "format")), IntOf(Member(j, "filesize")), StringOf(Member(j, "url")))
  }

  function FormatsOf(js: seq<Json>): (fs: seq<Format>)
    ensures |fs| == |js| && forall i :: 0 <= i < |js| ==> fs[i] == FormatOf(js[i])
  {
    seq(|js|, i requires 0 <= i < |js| => FormatOf(js[i]))
  }

  /** A DASH format: its lower-cased name contains "dash". */
  predicate IsDash(f: Format)
  {
    Text.Contains(Text.Lower(f.name), "dash")
  }

  /** A format that may replace the candidate: not DASH, "audio only" (case-sensitive) in its name, a non-zero size. */
  predicate Eligible(f: Format)
  {
    !IsDash(f) && Text.Contains(f.name, "audio only") && f.size != 0
  }

  /** The selection loop's variables: the selected URL and the recorded size. */
  datatype Best = Best(url: string, size: int)

  /** One round of the loop: DASH is skipped; with no URL yet any format is taken, otherwise only a larger eligible one. */
  function Step(b: Best, f: Format): Best
  {
    if IsDash(f) then b
    else if b.url == [] || (Eligible(f) && f.size > b.size) then Best(f.url, f.size)
    else b
  }

  /** The loop's variables after the given formats, starting from no URL and size 0. */
  function Selection(fs: seq<Format>): Best
  {
    if fs == [] then Best([], 0)
    else Step(Selection(fs[..|fs| - 1]), fs[|fs| - 1])
  }

  /** The formats that are not DASH, in order. */
  function NonDash(fs: seq<Format>): (r: seq<Format>)
    ensures forall f :: f in r <==> f in fs && !IsDash(f)
  {
    if fs == [] then []
    else
      var init := NonDash(fs[..|fs| - 1]);
      assert forall f :: f in fs <==> f in fs[..|fs| - 1] || f == fs[|fs| - 1];
      if IsDash(fs[|fs| - 1]) then init else init + [fs[|fs| - 1]]
  }

  /** DASH formats are skipped entirely: the selection is that of the other formats alone. */
  lemma {:induction false} SelectionIgnoresDash(fs: seq<Format>)
    ensures Selection(fs) == Selection(NonDash(fs))
  {
    if fs != [] {
      var init := fs[..|fs| - 1];
      var f := fs[|fs| - 1];
      SelectionIgnoresDash(init);
      if !IsDash(f) {
        assert (NonDash(init) + [f])[..|NonDash(init)|] == NonDash(init);
      }
    }
  }

  /** i is the first format that is not DASH. */
  predicate FirstNonDash(fs: seq<Format>, i: int)
  {
    0 <= i < |fs| && !IsDash(fs[i]) && forall k :: 0 <= k < i ==> IsDash(fs[k])
  }

  /** Every format that is not DASH has a URL. */
  predicate UrlsGiven(fs: seq<Format>)
  {
    forall i :: 0 <= i < |fs| && !IsDash(fs[i]) ==> fs[i].url != []
  }

  /** What the selection means when the formats that count have URLs. */
  ghost predicate Selected(fs: seq<Format>, b: Best)
  {
    && (b.url == [] <==> forall i :: 0 <= i < |fs| ==> IsDash(fs[i]))
    && (forall i :: FirstNonDash(fs, i) ==> fs[i].size <= b.size)
    && (forall i :: 0 <= i < |fs| && Eligible(fs[i]) ==> fs[i].size <= b.size)
    && (b.url != [] ==> exists i :: 0 <= i < |fs| && Best(fs[i].url, fs[i].size) == b && (FirstNonDash(fs, i) || Eligible(fs[i])))
  }

  /** Dropping the last format keeps the URLs given. */
  lemma UrlsGivenInit(fs: seq<Format>)
    requires fs != [] && UrlsGiven(fs)
    ensures UrlsGiven(fs[..|fs| - 1])
  {
    var init := fs[..|fs| - 1];
    forall i | 0 <= i < |init| && !IsDash(init[i])
      ensures init[i].url != []
    {
      assert init[i] == fs[i];
    }
  }

  /** Once a URL is selected, a round keeps one and never lowers the recorded size. */
  lemma StepGrows(b: Best, f: Format)
    requires b.url != [] && (!IsDash(f) ==> f.url != [])
    ensures Step(b, f).url != [] && b.size <= Step(b, f).size
  {
  }

  /** With URLs on the formats that count, a URL is selected exactly when some format is not DASH. */
  lemma {:induction false} SelectionFindsUrl(fs: seq<Format>)
    requires UrlsGiven(fs)
    ensures Selection(fs).url == [] <==> forall i :: 0 <= i < |fs| ==> IsDash(fs[i])
  {
    if fs != [] {
      var init := fs[..|fs| - 1];
      UrlsGivenInit(fs);
      SelectionFindsUrl(init);
      assert forall i :: 0 <= i < |init| ==> init[i] == fs[i];
    }
  }

  /** The selected size is at least that of the first format that is not DASH. */
  lemma {:induction false} SelectionAtLeastFirst(fs: seq<Format>)
    requires UrlsGiven(fs)
    ensures forall i :: FirstNonDash(fs, i) ==> fs[i].size <= Selection(fs).size
  {
    if fs != [] {
      var init := fs[..|fs| - 1];
      var f := fs[|fs| - 1];
      UrlsGivenInit(fs);
      SelectionAtLeastFirst(init);
      SelectionFindsUrl(init);
      forall i | FirstNonDash(fs, i)
        ensures fs[i].size <= Selection(fs).size
      {
        if i == |init| {
          assert forall k :: 0 <= k < |init| ==> init[k] == fs[k];
        } else {
          assert init[i] == fs[i];
          assert FirstNonDash(init, i);
          StepGrows(Selection(init), f);
        }
      }
    }
  }

  /** The selected size is at least that of every eligible audio-only format. */
  lemma {:induction false} SelectionAtLeastEligible(fs: seq<Format>)
    requires UrlsGiven(fs)
    ensures forall i :: 0 <= i < |fs| && Eligible(fs[i]) ==> fs[i].size <= Selection(fs).size
  {
    if fs != [] {
      var init := fs[..|fs| - 1];
      var f := fs[|fs| - 1];
      UrlsGivenInit(fs);
      SelectionAtLeastEligible(init);
      SelectionFindsUrl(init);
      forall i | 0 <= i < |fs| && Eligible(fs[i])
        ensures fs[i].size <= Selection(fs).size
      {
        if i < |init| {
          assert init[i] == fs[i];
          StepGrows(Selection(init), f);
        }
      }
    }
  }

  /** The selection is the first format that is not DASH or an eligible audio-only one. */
  lemma {:induction false} SelectionFrom(fs: seq<Format>)
    requires UrlsGiven(fs)
    ensures Selection(fs).url != [] ==>
      exists i :: 0 <= i < |fs| && Best(fs[i].url, fs[i].size) == Selection(fs) && (FirstNonDash(fs, i) || Eligible(fs[i]))
  {
    if fs != [] {
      var init := fs[..|fs| - 1];
      var f := fs[|fs| - 1];
      var b := Selection(init);
      UrlsGivenInit(fs);
      SelectionFrom(init);
      SelectionFindsUrl(init);
      if Selection(fs) == b && b.url != [] {
        var i :| 0 <= i < |init| && Best(init[i].url, init[i].size) == b && (FirstNonDash(init, i) || Eligible(init[i]));
        assert init[i] == fs[i];
        assert FirstNonDash(init, i) ==> FirstNonDash(fs, i);
      } else if Selection(fs) != b {
        assert forall k :: 0 <= k < |init| ==> init[k] == fs[k];
        assert FirstNonDash(fs, |init|) || Eligible(f);
      }
    }
  }

  /**
   * With URLs on the formats that count, a URL is selected exactly when some
   * format is not DASH; the selected format is the first such format or an
   * eligible audio-only one, and its size is at least that of the first
   * such format and of every eligible format.
   */
  lemma SelectionIsBest(fs: seq<Format>)
    requires UrlsGiven(fs)
    ensures Selected(fs, Selection(fs))
  {
    SelectionFindsUrl(fs);
    SelectionAtLeastFirst(fs);
    SelectionAtLeastEligible(fs);
    SelectionFrom(fs);
  }

  /** The recorded size is seeded by the first candidate even when it is not audio-only: a later format no larger than it never replaces it. */
  lemma SeededByFirst(first: Format, later: Format)
    requires !IsDash(first) && first.url != [] && later.size <= first.size
    ensures Selection([first, later]) == Best(first.url, first.size)
  {
    assert [first][..0] == [];
    assert Selection([first]) == Best(first.url, first.size);
    assert [first, later][..1] == [first];
  }

  /** The selection loop of getYoutubeUrl. */
  method SelectFormat(formats: seq<Json>) returns (bestUrl: string, bestSize: int)
    ensures Best(bestUrl, bestSize) == Selection(FormatsOf(formats))
  {
    ghost var fs := FormatsOf(formats);
    bestSize := 0;
    bestUrl := [];
    var i := 0;
    while i < |formats|
      invariant 0 <= i <= |formats|
      invariant Best(bestUrl, bestSize) == Selection(fs[..i])
    {
      assert fs[..i + 1][..i] == fs[..i];
      var f := FormatOf(formats[i]);
      if !IsDash(f) {
        var isBest := bestUrl == [];
        if !isBest && Eligible(f) && f.size > bestSize {
          isBest := true;
        }
        if isBest {
          bestUrl := f.url;
          bestSize := f.size;
        }
      }
      i := i + 1;
    }
    assert fs[..i] == fs;
  }

  // ---------------------------------------------------------------------
  // Replies

  /** A message as the CGI dispatches it: its type (an UploadSongRequest is a type of its own), and the members it reads. */
  datatype Kind = Typed(t: LibraryMessages.MessageType) | UploadSongRequest
  datatype Incoming = Incoming(kind: Kind, videoId: string, fileSize: int)

  /**
   * What the CGI prints: an Error, a Pong, a YoutubeUrlResponse, a
   * MediaUrlResponse, or whatever the database server at host:port answers
   * to request (for an upload, the request carries the POST data, written
   * to a temporary file first).
   */
  datatype Reply =
    | ErrorReply(message: string)
    | Pong
    | YoutubeUrlResponse(title: string, duration: int, chapters: seq<Json>, url: string)
    | MediaUrlResponse(baseUrl: string)
    | DbServerAnswer(host: string, port: nat, request: Incoming, file: Option<string>)

  /** The server settings the CGI reads. */
  datatype Settings = Settings(valid: bool, dbserverHost: string, dbserverPort: nat, mediaBaseUrl: string)

  /**
   * What the outside world gives back: youtube-dl's output for a video id
   * (None when it fails; a document that is not JSON is JNull), whether the
   * temporary file opens, the base64url decoder and the message reader.
   */
  datatype World = World(
    youtubeDl: string -> Option<Json>,
    tempFileOpens: bool,
    base64Decode: string -> string,
    parse: string -> Option<Incoming>)

  /** QJsonValue::toArray: the elements, or none for any other value. */
  function ArrayOf(j: Json): seq<Json>
  {
    if j.JArray? then j.elems else []
  }

  /**
   * getYoutubeUrl: "Internal Error" when youtube-dl fails, its output is no
   * object, "formats" is missing or no array, or no URL is selected;
   * otherwise the selected URL with the video's title, duration and chapters.
   */
  function YoutubeUrl(output: Option<Json>): (r: Reply)
    ensures r.ErrorReply? || r.YoutubeUrlResponse?
    ensures r.ErrorReply? ==> r.message == "Internal Error"
    ensures (output.None? || !output.value.JObject? || "formats" !in output.value.members) ==> r.ErrorReply?
    ensures r.YoutubeUrlResponse? ==>
      && output.Some? && output.value.JObject? && "formats" in output.value.members
      && output.value.members["formats"].JArray?
      && r.url == Selection(FormatsOf(output.value.members["formats"].elems)).url != []
      && r.title == StringOf(Member(output.value, "title"))
      && r.duration == IntOf(Member(output.value, "duration"))
      && r.chapters == ArrayOf(Member(output.value, "chapters"))
  {
    if output.None? || !output.value.JObject? then ErrorReply("Internal Error")
    else
      var json := output.value;
      if "formats" !in json.members || !json.members["formats"].JArray? then ErrorReply("Internal Error")
      else
        var best := Selection(FormatsOf(json.members["formats"].elems));
        if best.url == [] then ErrorReply("Internal Error")
        else YoutubeUrlResponse(StringOf(Member(json, "title")), IntOf(Member(json, "duration")), ArrayOf(Member(json, "chapters")), best.url)
  }

  /** With URLs on its formats, a video with any format that is not DASH gets a URL, and one with none gets "Internal Error". */
  lemma YoutubeUrlFound(json: map<string, Json>, formats: seq<Json>)
    requires "formats" in json && json["formats"] == JArray(formats)
    requires UrlsGiven(FormatsOf(formats))
    ensures YoutubeUrl(Some(JObject(json))).YoutubeUrlResponse? <==> exists i :: 0 <= i < |formats| && !IsDash(FormatOf(formats[i]))
  {
    var fs := FormatsOf(formats);
    SelectionFindsUrl(fs);
    var r := YoutubeUrl(Some(JObject(json)));
    assert r.YoutubeUrlResponse? <==> Selection(fs).url != [];
    if exists i :: 0 <= i < |formats| && !IsDash(FormatOf(formats[i])) {
      var i :| 0 <= i < |formats| && !IsDash(FormatOf(formats[i]));
      assert !IsDash(fs[i]);
    }
  }

  /** The body of getYoutubeUrl around the selection loop. */
  method GetYoutubeUrl(output: Option<Json>) returns (r: Reply)
    ensures r == YoutubeUrl(output)
  {
    if output.None? || !output.value.JObject? {
      return ErrorReply("Internal Error");
    }
    var json := output.value;
    if "formats" !in json.members || !json.members["formats"].JArray? {
      return ErrorReply("Internal Error");
    }
    var bestUrl, bestSize := SelectFormat(json.members["formats"].elems);
    if bestUrl == [] {
      return ErrorReply("Internal Error");
    }
    return YoutubeUrlResponse(StringOf(Member(json, "title")), IntOf(Member(json, "duration")), ArrayOf(Member(json, "chapters")), bestUrl);
  }

  /**
   * uploadFile: the declared size must equal the POST data's length; then
   * the data goes to a temporary file ("Internal error" when it cannot be
   * opened) and the database server is asked to take the file.
   */
  function UploadFile(settings: Settings, tempFileOpens: bool, m: Incoming, postData: string): (r: Reply)
    ensures m.fileSize != |postData| ==> r == ErrorReply("Specified file size doesn't match POST data")
    ensures r.DbServerAnswer? <==> m.fileSize == |postData| && tempFileOpens
    ensures r.DbServerAnswer? ==> r.file == Some(postData) && r.request == m
  {
    if m.fileSize != |postData| then ErrorReply("Specified file size doesn't match POST data")
    else if !tempFileOpens then ErrorReply("Internal error")
    else DbServerAnswer(settings.dbserverHost, settings.dbserverPort, m, Some(postData))
  }

  /** The types handleMessage forwards to the database server. */
  predicate IsForwarded(t: LibraryMessages.MessageType)
  {
    match t
    case LibraryRequest | IdRequest | ChangesRequest | ChangeListRequest | DownloadRequest | DownloadQuery => true
    case _ => false
  }

  /** handleMessage: the reply to each type of message. */
  function HandleMessage(settings: Settings, world: World, m: Incoming, postData: string): (r: Reply)
    ensures m.kind == Typed(LibraryMessages.Ping) ==> r == Pong
    ensures m.kind.Typed? && IsForwarded(m.kind.t) ==> r == DbServerAnswer(settings.dbserverHost, settings.dbserverPort, m, None)
    ensures m.kind == Typed(LibraryMessages.YoutubeUrlQuery) ==> r == YoutubeUrl(world.youtubeDl(m.videoId))
    ensures m.kind == Typed(LibraryMessages.MediaUrlRequest) ==> r == MediaUrlResponse(settings.mediaBaseUrl)
    ensures m.kind == UploadSongRequest ==> r == UploadFile(settings, world.tempFileOpens, m, postData)
    ensures r == ErrorReply("Unhandled message type") <==>
      (m.kind.Typed? && !IsForwarded(m.kind.t) &&
       m.kind.t !in {LibraryMessages.Ping, LibraryMessages.YoutubeUrlQuery, LibraryMessages.MediaUrlRequest})
  {
    match m.kind
    case UploadSongRequest => UploadFile(settings, world.tempFileOpens, m, postData)
    case Typed(t) =>
      if t == LibraryMessages.Ping then Pong
      else if IsForwarded(t) then DbServerAnswer(settings.dbserverHost, settings.dbserverPort, m, None)
      else if t == LibraryMessages.YoutubeUrlQuery then YoutubeUrl(world.youtubeDl(m.videoId))
      else if t == LibraryMessages.MediaUrlRequest then MediaUrlResponse(settings.mediaBaseUrl)
      else ErrorReply("Unhandled message type")
  }

  /** handleMessage with the selection loop run for a YoutubeUrlQuery. */
  method Handle(settings: Settings, world: World, m: Incoming, postData: string) returns (r: Reply)
    ensures r == HandleMessage(settings, world, m, postData)
  {
    if m.kind == Typed(LibraryMessages.YoutubeUrlQuery) {
      r := GetYoutubeUrl(world.youtubeDl(m.videoId));
    } else {
      r := HandleMessage(settings, world, m, postData);
    }
  }

  // ---------------------------------------------------------------------
  // Reading the request

  /** The marker of a message passed in the query. */
  const Marker: string := "?message64="

  /** The first position at or after i where sub occurs in s, or -1. */
  function IndexFrom(s: string, sub: string, i: nat): (r: int)
    requires i <= |s|
    ensures r == -1 <==> forall j :: i <= j <= |s| ==> !Text.OccursAt(s, sub, j)
    ensures r != -1 ==> i <= r && Text.OccursAt(s, sub, r) && forall j :: i <= j < r ==> !Text.OccursAt(s, sub, j)
    decreases |s| - i
  {
    if Text.OccursAt(s, sub, i) then i
    else if i == |s| then -1
    else IndexFrom(s, sub, i + 1)
  }

  /** QByteArray::indexOf: the first position where sub occurs, or -1 when it does not. */
  function IndexOf(s: string, sub: string): (r: int)
    ensures r == -1 <==> !Text.Contains(s, sub)
    ensures r != -1 ==> Text.OccursAt(s, sub, r) && forall j :: 0 <= j < r ==> !Text.OccursAt(s, sub, j)
  {
    IndexFrom(s, sub, 0)
  }

  /** The encoded message: what follows the first "?message64=" in the URI, if there is one. */
  function Message64(uri: string): (r: Option<string>)
    ensures r.None? <==> !Text.Contains(uri, Marker)
    ensures r.Some? ==> exists k :: Text.OccursAt(uri, Marker, k) && uri[k + |Marker|..] == r.value
  {
    var k := IndexOf(uri, Marker);
    if k >= 0 then Some(uri[k + |Marker|..]) else None
  }

  /** A URI whose path holds no '?' carries the payload after the marker. */
  lemma Message64After(path: string, payload: string)
    requires '?' !in path
    ensures Message64(path + Marker + payload) == Some(payload)
  {
    var uri := path + Marker + payload;
    assert Text.OccursAt(uri, Marker, |path|);
    forall j | 0 <= j < |path|
      ensures !Text.OccursAt(uri, Marker, j)
    {
      assert uri[j] == path[j] != Marker[0];
      assert j + |Marker| <= |uri| ==> uri[j..j + |Marker|][0] == uri[j];
    }
    assert uri[|path| + |Marker|..] == payload;
  }

  /** The value of CONTENT_LENGTH: QByteArray::toInt, 0 when it is not a number. */
  function ContentLength(env: map<string, string>): (n: int)
    ensures Decimal.Int32Min <= n <= Decimal.Int32Max
    ensures CgiRequest.EnvEmpty(env, "CONTENT_LENGTH") ==> n == 0
  {
    match Decimal.ParseInt(CgiRequest.EnvValue(env, "CONTENT_LENGTH"))
    case Some(v) => v
    case None => 0
  }

  /** The POST data: the first contentLength bytes of the input, or all of it when shorter; nothing unless the length is positive. */
  function PostData(contentLength: int, stdin: string): (r: string)
    ensures contentLength <= 0 ==> r == []
    ensures contentLength > 0 ==> r <= stdin && |r| == if |stdin| < contentLength then |stdin| else contentLength
  {
    if contentLength <= 0 then []
    else if |stdin| < contentLength then stdin
    else stdin[..contentLength]
  }

  /** The reading loop: chunks of at most 1024 bytes until CONTENT_LENGTH bytes are read or the input ends. */
  method ReadPostData(contentLength: int, stdin: string) returns (postData: string)
    ensures postData == PostData(contentLength, stdin)
  {
    postData := [];
    if contentLength > 0 {
      var pos: nat := 0;
      var eof := false;
      while |postData| < contentLength && !eof
        invariant pos <= |stdin| && postData == stdin[..pos] && |postData| <= contentLength
        invariant eof ==> pos == |stdin|
        decreases contentLength - |postData|, if eof then 0 else 1
      {
        var want := if 1024 < contentLength - |postData| then 1024 else contentLength - |postData|;
        var read := if want < |stdin| - pos then want else |stdin| - pos;
        if read < want {
          eof := true;
        }
        postData := postData + stdin[pos..pos + read];
        pos := pos + read;
      }
      if eof {
        assert stdin[..pos] == stdin;
      }
    }
  }

  /** The message text: the decoded query message when it is not empty, otherwise the POST data. */
  function MessageText(uri: string, postData: string, decode: string -> string): (text: string)
    ensures !Text.Contains(uri, Marker) ==> text == postData
    ensures text == [] ==> postData == []
  {
    var query := match Message64(uri) case Some(m64) => decode(m64) case None => [];
    if query == [] then postData else query
  }

  /** What main does: exit with 1 on invalid settings, otherwise print a reply. */
  datatype Exit = Failed | Printed(reply: Reply)

  /** main's result for an environment and standard input. */
  function Answer(settings: Settings, env: map<string, string>, stdin: string, world: World): (r: Exit)
    ensures r.Failed? <==> !settings.valid
  {
    if !settings.valid then Failed
    else
      var postData := PostData(ContentLength(env), stdin);
      var text := MessageText(CgiRequest.EnvValue(env, "REQUEST_URI"), postData, world.base64Decode);
      match world.parse(text)
      case None => Printed(ErrorReply("Failed to parse message"))
      case Some(m) => Printed(HandleMessage(settings, world, m, postData))
  }

  /**
   * An upload passed in the query is answered with the size error exactly
   * when its declared size differs from the bytes read from the input.
   */
  lemma UploadChecksPostData(settings: Settings, env: map<string, string>, stdin: string, world: World, path: string, payload: string)
    requires settings.valid && '?' !in path
    requires "REQUEST_URI" in env && env["REQUEST_URI"] == path + Marker + payload
    requires world.base64Decode(payload) != []
    requires world.parse(world.base64Decode(payload)).Some?
    requires world.parse(world.base64Decode(payload)).value.kind == UploadSongRequest
    ensures var m := world.parse(world.base64Decode(payload)).value;
      Answer(settings, env, stdin, world) == Printed(ErrorReply("Specified file size doesn't match POST data")) <==>
      m.fileSize != |PostData(ContentLength(env), stdin)|
  {
    Message64After(path, payload);
  }

  /** main: the settings are checked, the POST data read, the message parsed and handled. */
  method Run(settings: Settings, env: map<string, string>, stdin: string, world: World) returns (r: Exit)
    ensures r == Answer(settings, env, stdin, world)
  {
    if !settings.valid {
      return Failed;
    }
    var uri := CgiRequest.EnvValue(env, "REQUEST_URI");
    var queryMessage := [];
    var index := IndexOf(uri, Marker);
    if index >= 0 {
      queryMessage := world.base64Decode(uri[index + |Marker|..]);
    }
    var postData := ReadPostData(ContentLength(env), stdin);
    var text := if queryMessage == [] then postData else queryMessage;
    var parsed := world.parse(text);
    if parsed.None? {
      return Printed(ErrorReply("Failed to parse message"));
    }
    var reply := Handle(settings, world, parsed.value, postData);
    return Printed(reply);
  }
}
