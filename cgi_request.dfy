// The request parsing both CGI front ends share (src/cgi/main.cpp and
// src/server/cgi/main.cpp, which repeat it word for word): REQUEST_URI is
// "/command?key=value&key=value"; the command loses its leading slashes, and
// each well-formed pair of the query is stored, later keys overwriting
// earlier ones. The environment is given as a map.
module CgiRequest {

  import opened Wrappers
  import Text

  /** s without its leading slashes. */
  function StripSlashes(s: string): (r: string)
    ensures |r| <= |s| && s[|s| - |r|..] == r
    ensures forall i :: 0 <= i < |s| - |r| ==> s[i] == '/'
    ensures r == [] || r[0] != '/'
  {
    if s != [] && s[0] == '/' then StripSlashes(s[1..]) else s
  }

  /** Stripping twice strips nothing more. */
  lemma StripSlashesIdempotent(s: string)
    ensures StripSlashes(StripSlashes(s)) == StripSlashes(s)
  {
  }

  /** Slashes put in front of a command without one are stripped again. */
  lemma {:induction false} StripSlashesAfterSlashes(n: nat, command: string)
    requires command == [] || command[0] != '/'
    ensures StripSlashes(seq(n, _ => '/') + command) == command
  {
    if n > 0 {
      var s := seq(n, _ => '/') + command;
      assert s[1..] == seq(n - 1, _ => '/') + command;
      StripSlashesAfterSlashes(n - 1, command);
    } else {
      assert seq(n, _ => '/') + command == command;
    }
  }

  /** getCommand: leading slashes are removed one at a time. */
  method GetCommand(request: string) returns (command: string)
    ensures command == StripSlashes(request)
  {
    command := request;
    while command != [] && command[0] == '/'
      invariant StripSlashes(command) == StripSlashes(request)
      decreases |command|
    {
      command := command[1..];
    }
  }

  /** The values of the pairs: a piece that '=' splits into exactly two parts sets its key, the later piece winning. */
  function QueryValues(pieces: seq<string>): map<string, string>
  {
    if pieces == [] then map[]
    else
      var init := QueryValues(pieces[..|pieces| - 1]);
      var kv := Text.Split(pieces[|pieces| - 1], '=');
      if |kv| == 2 then init[kv[0] := kv[1]] else init
  }

  /** A key is set exactly when some piece is a well-formed pair for it. */
  lemma {:induction false} QueryValuesKeys(pieces: seq<string>, key: string)
    ensures key in QueryValues(pieces) <==>
      exists i :: 0 <= i < |pieces| && |Text.Split(pieces[i], '=')| == 2 && Text.Split(pieces[i], '=')[0] == key
  {
    if pieces != [] {
      var init := pieces[..|pieces| - 1];
      QueryValuesKeys(init, key);
      if exists i :: 0 <= i < |init| && |Text.Split(init[i], '=')| == 2 && Text.Split(init[i], '=')[0] == key {
        var i :| 0 <= i < |init| && |Text.Split(init[i], '=')| == 2 && Text.Split(init[i], '=')[0] == key;
        assert pieces[i] == init[i];
      }
      if exists i :: 0 <= i < |pieces| && |Text.Split(pieces[i], '=')| == 2 && Text.Split(pieces[i], '=')[0] == key {
        var i :| 0 <= i < |pieces| && |Text.Split(pieces[i], '=')| == 2 && Text.Split(pieces[i], '=')[0] == key;
        if i < |init| {
          assert init[i] == pieces[i];
        }
      }
    }
  }

  /** The value stored for a key is that of the last well-formed pair for it. */
  lemma {:induction false} QueryValuesLast(pieces: seq<string>, i: nat, key: string, value: string)
    requires i < |pieces| && Text.Split(pieces[i], '=') == [key, value]
    requires forall j :: i < j < |pieces| ==> !(|Text.Split(pieces[j], '=')| == 2 && Text.Split(pieces[j], '=')[0] == key)
    ensures key in QueryValues(pieces) && QueryValues(pieces)[key] == value
  {
    if i < |pieces| - 1 {
      var init := pieces[..|pieces| - 1];
      assert init[i] == pieces[i];
      QueryValuesLast(init, i, key, value);
    }
  }

  /** A query of one pair whose key and value hold neither '&' nor '=' is read back as that pair. */
  lemma QuerySinglePair(key: string, value: string)
    requires '&' !in key && '=' !in key && '&' !in value && '=' !in value
    ensures QueryValues(Text.Split(key + "=" + value, '&')) == map[key := value]
  {
    var s := key + "=" + value;
    PairWithout(key, value, '&');
    Text.SplitWithoutSep(s, '&');
    Text.SplitAtSep(key, value, '=');
    Text.SplitWithoutSep(value, '=');
    assert [s][..0] == [];
  }

  /** The query loop: each piece between '&' is split on '=' and stored when it has exactly two parts. */
  method ParseQuery(query: string) returns (values: map<string, string>)
    ensures values == QueryValues(Text.Split(query, '&'))
  {
    var pieces := Text.Split(query, '&');
    values := map[];
    var i := 0;
    while i < |pieces|
      invariant 0 <= i <= |pieces|
      invariant values == QueryValues(pieces[..i])
    {
      assert pieces[..i + 1][..i] == pieces[..i];
      var kv := Text.Split(pieces[i], '=');
      if |kv| == 2 {
        values := values[kv[0] := kv[1]];
      }
      i := i + 1;
    }
    assert pieces[..i] == pieces;
  }

  /** A parsed request: the command and the query's values. */
  datatype Request = Request(command: string, values: map<string, string>)

  /**
   * The request a URI stands for: none unless it starts with '/'; the part
   * up to the first '?' names the command, and the part up to a second '?'
   * is the query.
   */
  function RequestOf(uri: string): (r: Option<Request>)
    ensures r.None? <==> uri == [] || uri[0] != '/'
  {
    if uri == [] || uri[0] != '/' then None
    else
      var parts := Text.Split(uri[1..], '?');
      var query := if |parts| > 1 then parts[1] else "";
      Some(Request(StripSlashes(parts[0]), QueryValues(Text.Split(query, '&'))))
  }

  /** A URI with neither '?' nor '&' nor '=' in its command, and one pair after it, parses to that command and pair. */
  lemma RequestOfSimple(command: string, key: string, value: string)
    requires command == [] || command[0] != '/'
    requires '?' !in command && '&' !in key && '=' !in key && '&' !in value && '=' !in value && '?' !in key && '?' !in value
    ensures RequestOf("/" + command + "?" + key + "=" + value) == Some(Request(command, map[key := value]))
  {
    var uri := "/" + command + "?" + key + "=" + value;
    var q := key + "=" + value;
    assert uri[1..] == command + "?" + q;
    PairWithout(key, value, '?');
    Text.SplitAtSep(command, q, '?');
    Text.SplitWithoutSep(q, '?');
    var parts := Text.Split(uri[1..], '?');
    assert parts == [command, q];
    assert StripSlashes(command) == command;
    QuerySinglePair(key, value);
  }

  /** A character in neither half, other than '=', is not in the pair. */
  lemma PairWithout(key: string, value: string, c: char)
    requires c != '=' && c !in key && c !in value
    ensures c !in key + "=" + value
  {
    var s := key + "=" + value;
    forall i | 0 <= i < |s|
      ensures s[i] != c
    {
      if i < |key| {
        assert s[i] == key[i];
      } else if i > |key| {
        assert s[i] == value[i - |key| - 1];
      }
    }
  }

  /** The parsing at the top of main: no request unless the URI starts with '/'. */
  method ParseRequest(uri: string) returns (r: Option<Request>)
    ensures r == RequestOf(uri)
  {
    if uri == [] || uri[0] != '/' {
      return None;
    }
    var parts := Text.Split(uri[1..], '?');
    var query := if |parts| > 1 then parts[1] else "";
    assert RequestOf(uri) == Some(Request(StripSlashes(parts[0]), QueryValues(Text.Split(query, '&'))));
    var command := GetCommand(parts[0]);
    var values := ParseQuery(query);
    return Some(Request(command, values));
  }

  /** A value for "v" was given and is not empty. */
  predicate HasV(values: map<string, string>)
  {
    "v" in values && values["v"] != ""
  }

  /** The host, port and timeout of a server the CGI talks to. */
  datatype ServerConfig = ServerConfig(host: string, port: nat, timeout: nat)

  /** qEnvironmentVariableIsEmpty: unset or set to the empty string. */
  predicate EnvEmpty(env: map<string, string>, name: string)
  {
    name !in env || env[name] == ""
  }

  /** qEnvironmentVariable: the value, or the empty string when unset. */
  function EnvValue(env: map<string, string>, name: string): (v: string)
    ensures EnvEmpty(env, name) <==> v == ""
  {
    if name in env then env[name] else ""
  }

  /** The messages a CGI sends to a server. */
  datatype MessageKind = LibraryRequest | ChangeListRequest | ChangesRequest | DownloadRequest | DownloadQuery

  /**
   * What a CGI run does: nothing at all, print "[]", send a message and
   * print the answer, run a node script with an argument (base64url-decoded
   * first when decoded is set), or run a Bandcamp download.
   */
  datatype Action =
    | Silent
    | EmptyList
    | Send(server: ServerConfig, kind: MessageKind, data: string)
    | RunScript(script: string, arg: string, decoded: bool)
    | BandcampDownload(server: ServerConfig, request: string)
}
