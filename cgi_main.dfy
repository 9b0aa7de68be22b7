// The app-facing CGI program (src/cgi/main.cpp): after the request is parsed
// it routes on the command, talking to the library server on port 12345 or
// running the node scrapers. Sockets, processes and the download itself are
// outside the model; a run is described by the Action it takes.
module CgiMain {

  import opened Wrappers
  import opened CgiRequest

  /** The one server this program talks to. */
  const Server: ServerConfig := ServerConfig("localhost", 12345, 1000)

  /** The commands that print "[]" when v is missing or empty. */
  predicate ListsWithoutV(command: string)
  {
    match command
    case "get-change-list.do" => true
    case "request-changes.do" => true
    case "search.do" => true
    case "bandcamp-artist-info.do" => true
    case "bandcamp-album-info.do" => true
    case _ => false
  }

  /**
   * The routing of main. requestParses says whether v decodes to a
   * download request; an unknown command does nothing.
   */
  function Route(req: Request, requestParses: bool): (a: Action)
    ensures ListsWithoutV(req.command) && !HasV(req.values) ==> a == EmptyList
  {
    var hasV := HasV(req.values);
    var v := if hasV then req.values["v"] else "";
    match req.command
    case "lib.do" => Send(Server, LibraryRequest, "")
    case "get-change-list.do" => if hasV then Send(Server, ChangeListRequest, v) else EmptyList
    case "request-changes.do" => if hasV then Send(Server, ChangesRequest, v) else EmptyList
    case "search.do" => if hasV then RunScript("search.js", v, true) else EmptyList
    case "bandcamp-download.do" => if hasV && requestParses then BandcampDownload(Server, v) else Silent
    case "bandcamp-artist-info.do" => if hasV then RunScript("bandcamp-artist-info.js", v, false) else EmptyList
    case "bandcamp-album-info.do" => if hasV then RunScript("bandcamp-album-info.js", v, false) else EmptyList
    case _ => Silent
  }

  /** What a run does for a URI. */
  function MainAction(uri: string, requestParses: bool): (a: Action)
    ensures uri == [] || uri[0] != '/' ==> a == Silent
  {
    match RequestOf(uri)
    case None => Silent
    case Some(req) => Route(req, requestParses)
  }

  /** main: the request is parsed, then routed. */
  method Run(uri: string, requestParses: bool) returns (a: Action)
    ensures a == MainAction(uri, requestParses)
  {
    var req := ParseRequest(uri);
    if req.None? {
      return Silent;
    }
    a := Route(req.value, requestParses);
  }

  /** Every answer that uses v uses it as given, and only a command that needs v acts on it. */
  lemma RouteUsesV(req: Request, requestParses: bool)
    ensures Route(req, requestParses).Send? && Route(req, requestParses).kind != LibraryRequest ==>
      HasV(req.values) && Route(req, requestParses).data == req.values["v"] && Route(req, requestParses).server == Server
    ensures Route(req, requestParses).RunScript? ==> HasV(req.values) && Route(req, requestParses).arg == req.values["v"]
    ensures Route(req, requestParses).BandcampDownload? ==> HasV(req.values) && requestParses
  {
  }

  /** A download runs only when v is given and decodes; otherwise nothing is printed at all. */
  lemma DownloadNeedsRequest(req: Request, requestParses: bool)
    requires req.command == "bandcamp-download.do"
    ensures Route(req, requestParses).BandcampDownload? <==> HasV(req.values) && requestParses
    ensures !Route(req, requestParses).BandcampDownload? ==> Route(req, requestParses) == Silent
  {
  }
}
