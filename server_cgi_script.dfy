// The server's CGI program (src/server/cgi/main.cpp): the same request
// parsing as the app-facing CGI, a library server and a download server
// whose ports the environment may override, and routing on the command.
// Sockets and processes are outside the model; a run is described by the
// Action it takes.
module ServerCgiScript {

  import opened Wrappers
  import Decimal
  import opened CgiRequest

  const LibServerPort: string := "LIB_SERVER_PORT"
  const DownloadServerPort: string := "DOWNLOAD_SERVER_PORT"

  /** The port as written: the variable is read only when it is unset or empty, which gives 0. */
  function PortAsWritten(env: map<string, string>, name: string, default: nat): (p: nat)
    ensures p < 0x1_0000 || p == default
    ensures EnvEmpty(env, name) ==> p == 0
  {
    if EnvEmpty(env, name) then Decimal.ToUShort(EnvValue(env, name)) else default
  }

  /** As written, an unset variable turns the port to 0 and a set one is ignored. */
  lemma PortOverrideInverted(env: map<string, string>, name: string, default: nat)
    ensures EnvEmpty(env, name) ==> PortAsWritten(env, name, default) == 0
    ensures !EnvEmpty(env, name) ==> PortAsWritten(env, name, default) == default
  {
  }

  /** The port as intended: a set variable overrides the default. */
  function Port(env: map<string, string>, name: string, default: nat): (p: nat)
    ensures EnvEmpty(env, name) ==> p == default
    ensures !EnvEmpty(env, name) ==> p == Decimal.ToUShort(env[name])
  {
    if EnvEmpty(env, name) then default else Decimal.ToUShort(EnvValue(env, name))
  }

  /** A variable holding a port number sets that port; without one the default stands. */
  lemma PortOverride(env: map<string, string>, name: string, default: nat)
    requires name in env && env[name] != "" && Decimal.AllDigits(env[name]) && Decimal.DigitsValue(env[name]) < 0x1_0000
    ensures Port(env, name, default) == Decimal.DigitsValue(env[name])
    ensures Port(env - {name}, name, default) == default
  {
  }

  /** The library server, port 12345 unless overridden. */
  function LibraryServer(env: map<string, string>): ServerConfig
  {
    ServerConfig("localhost", Port(env, LibServerPort, 12345), 1000)
  }

  /** The download server, port 54321 unless overridden. */
  function DownloadServer(env: map<string, string>): ServerConfig
  {
    ServerConfig("localhost", Port(env, DownloadServerPort, 54321), 1000)
  }

  /** The commands that print "[]" when v is missing or empty. */
  predicate ListsWithoutV(command: string)
  {
    match command
    case "get-change-list.do" => true
    case "request-changes.do" => true
    case "search.do" => true
    case "bandcamp-artist-info.do" => true
    case "bandcamp-album-info.do" => true
    case _ => false
  }

  /** The library server as written: port 0 when the variable is unset, 12345 when it is set. */
  function LibraryServerAsWritten(env: map<string, string>): (c: ServerConfig)
    ensures c.port == if EnvEmpty(env, LibServerPort) then 0 else 12345
  {
    ServerConfig("localhost", PortAsWritten(env, LibServerPort, 12345), 1000)
  }

  /** The download server as written: port 0 when the variable is unset, 54321 when it is set. */
  function DownloadServerAsWritten(env: map<string, string>): (c: ServerConfig)
    ensures c.port == if EnvEmpty(env, DownloadServerPort) then 0 else 54321
  {
    ServerConfig("localhost", PortAsWritten(env, DownloadServerPort, 54321), 1000)
  }

  /** The routing of main, given the library and download servers; an unknown command does nothing. */
  function RouteTo(req: Request, lib: ServerConfig, dl: ServerConfig): (a: Action)
    ensures ListsWithoutV(req.command) && !HasV(req.values) ==> a == EmptyList
    ensures a.Send? && a.kind in {DownloadRequest, DownloadQuery} ==> a.server == dl
    ensures a.Send? && a.kind !in {DownloadRequest, DownloadQuery} ==> a.server == lib
  {
    var hasV := HasV(req.values);
    var v := if hasV then req.values["v"] else "";
    match req.command
    case "lib.do" => Send(lib, LibraryRequest, "")
    case "get-change-list.do" => if hasV then Send(lib, ChangeListRequest, v) else EmptyList
    case "request-changes.do" => if hasV then Send(lib, ChangesRequest, v) else EmptyList
    case "search.do" => if hasV then RunScript("search.js", v, true) else EmptyList
    case "download.do" => if hasV then Send(dl, DownloadRequest, v) else Silent
    case "running-downloads.do" => Send(dl, DownloadQuery, "")
    case "bandcamp-artist-info.do" => if hasV then RunScript("bandcamp-artist-info.js", v, false) else EmptyList
    case "bandcamp-album-info.do" => if hasV then RunScript("bandcamp-album-info.js", v, false) else EmptyList
    case _ => Silent
  }

  /** The routing of main with the ports as intended. */
  function Route(req: Request, env: map<string, string>): (a: Action)
    ensures ListsWithoutV(req.command) && !HasV(req.values) ==> a == EmptyList
  {
    RouteTo(req, LibraryServer(env), DownloadServer(env))
  }

  /**
   * The routing of main with the ports as written: the same action as
   * Route, except that what is sent goes to the servers PortAsWritten gives.
   */
  function RouteAsWritten(req: Request, env: map<string, string>): (a: Action)
    ensures !Route(req, env).Send? ==> a == Route(req, env)
    ensures Route(req, env).Send? ==> a.Send? && a.kind == Route(req, env).kind && a.data == Route(req, env).data
    ensures a.Send? && a.kind in {DownloadRequest, DownloadQuery} ==> a.server == DownloadServerAsWritten(env)
    ensures a.Send? && a.kind !in {DownloadRequest, DownloadQuery} ==> a.server == LibraryServerAsWritten(env)
  {
    RouteTo(req, LibraryServerAsWritten(env), DownloadServerAsWritten(env))
  }

  /**
   * As written, lib.do without LIB_SERVER_PORT goes to port 0, and with
   * the variable set it still goes to 12345; as intended it goes to 12345
   * and to the variable's port.
   */
  lemma LibDoPortAsWritten(req: Request, env: map<string, string>)
    requires req.command == "lib.do"
    ensures LibServerPort !in env ==> RouteAsWritten(req, env) == Send(ServerConfig("localhost", 0, 1000), LibraryRequest, "")
    ensures LibServerPort !in env ==> Route(req, env) == Send(ServerConfig("localhost", 12345, 1000), LibraryRequest, "")
    ensures !EnvEmpty(env, LibServerPort) ==>
      RouteAsWritten(req, env).server.port == 12345 && Route(req, env).server.port == Decimal.ToUShort(env[LibServerPort])
  {
  }

  /** What a run does for a URI and an environment. */
  function MainAction(uri: string, env: map<string, string>): (a: Action)
    ensures uri == [] || uri[0] != '/' ==> a == Silent
  {
    match RequestOf(uri)
    case None => Silent
    case Some(req) => Route(req, env)
  }

  /** main: the request is parsed, then routed. */
  method Run(uri: string, env: map<string, string>) returns (a: Action)
    ensures a == MainAction(uri, env)
  {
    var req := ParseRequest(uri);
    if req.None? {
      return Silent;
    }
    a := Route(req.value, env);
  }

  /** Downloads go to the download server and everything else sent goes to the library server. */
  lemma RouteServers(req: Request, env: map<string, string>)
    ensures Route(req, env).Send? && Route(req, env).kind in {DownloadRequest, DownloadQuery} ==> Route(req, env).server == DownloadServer(env)
    ensures Route(req, env).Send? && Route(req, env).kind !in {DownloadRequest, DownloadQuery} ==> Route(req, env).server == LibraryServer(env)
  {
  }

  /** A download is sent only when v is given; otherwise nothing is printed at all. */
  lemma DownloadNeedsV(req: Request, env: map<string, string>)
    requires req.command == "download.do"
    ensures HasV(req.values) ==> Route(req, env) == Send(DownloadServer(env), DownloadRequest, req.values["v"])
    ensures !HasV(req.values) ==> Route(req, env) == Silent
  {
  }
}
