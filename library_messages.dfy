// The client/server messages of the shared library
// (src/shared/library_messages.hpp, and typeString and Message::fromJson in
// src/shared/library.cpp). A concrete message is its type tag and the values
// of its registered members in registration order; which members a type
// registers, and how each member checks its JSON value, is given by a
// descriptor function.
module LibraryMessages {

  import opened Wrappers
  import opened JsonConv
  import JsonTemplates

  /** MoosickMessage::Type, in declaration order. */
  datatype MessageType =
    | Error | Ping | Pong
    | LibraryRequest | LibraryResponse
    | MediaUrlRequest | MediaUrlResponse
    | IdRequest | IdResponse
    | ChangesRequest | ChangesResponse
    | ChangeListRequest | ChangeListResponse
    | DownloadRequest | DownloadResponse | DownloadQuery | DownloadQueryResponse
    | YoutubeUrlQuery | YoutubeUrlResponse

  /** A concrete message: the tag DEFINE_MESSAGE_TYPE gives it and its member values. */
  datatype Body = Body(msgType: MessageType, members: seq<Json>)

  /** The registered members of each message type. */
  type Descriptors = MessageType -> seq<JsonTemplates.MemberDescriptor>

  /** Every message type, in declaration order. */
  const AllTypes: seq<MessageType> := [
    Error, Ping, Pong, LibraryRequest, LibraryResponse, MediaUrlRequest, MediaUrlResponse,
    IdRequest, IdResponse, ChangesRequest, ChangesResponse, ChangeListRequest, ChangeListResponse,
    DownloadRequest, DownloadResponse, DownloadQuery, DownloadQueryResponse, YoutubeUrlQuery, YoutubeUrlResponse]

  /** The types Message::fromJson tries, in the order it tries them: the media URL pair is missing. */
  const CheckedTypes: seq<MessageType> := [
    Error, Ping, Pong, LibraryRequest, LibraryResponse,
    IdRequest, IdResponse, ChangesRequest, ChangesResponse, ChangeListRequest, ChangeListResponse,
    DownloadRequest, DownloadResponse, DownloadQuery, DownloadQueryResponse, YoutubeUrlQuery, YoutubeUrlResponse]

  lemma AllTypesListed(t: MessageType)
    ensures t in AllTypes
  {
  }

  lemma CheckedTypesListed(t: MessageType)
    ensures t in CheckedTypes <==> t != MediaUrlRequest && t != MediaUrlResponse
  {
  }

  // ---------------------------------------------------------------------
  // Type names

  /** The name of each type: the enumerator's own name. */
  function TypeString(t: MessageType): (s: string)
    ensures |s| > 0
  {
    match t
    case Error => "Error"
    case Ping => "Ping"
    case Pong => "Pong"
    case LibraryRequest => "LibraryRequest"
    case LibraryResponse => "LibraryResponse"
    case MediaUrlRequest => "MediaUrlRequest"
    case MediaUrlResponse => "MediaUrlResponse"
    case IdRequest => "IdRequest"
    case IdResponse => "IdResponse"
    case ChangesRequest => "ChangesRequest"
    case ChangesResponse => "ChangesResponse"
    case ChangeListRequest => "ChangeListRequest"
    case ChangeListResponse => "ChangeListResponse"
    case DownloadRequest => "DownloadRequest"
    case DownloadResponse => "DownloadResponse"
    case DownloadQuery => "DownloadQuery"
    case DownloadQueryResponse => "DownloadQueryResponse"
    case YoutubeUrlQuery => "YoutubeUrlQuery"
    case YoutubeUrlResponse => "YoutubeUrlResponse"
  }

  /**
   * typeString as written: the switch has no case for the media URL pair,
   * which falls to qFatal (None here).
   */
  function TypeStringAsWritten(t: MessageType): (r: Option<string>)
    ensures r.None? <==> t == MediaUrlRequest || t == MediaUrlResponse
    ensures r.Some? ==> r.value == TypeString(t)
  {
    if t == MediaUrlRequest || t == MediaUrlResponse then None else Some(TypeString(t))
  }

  /** The type a name denotes, if any: the inverse of TypeString. */
  function ParseType(s: string): (r: Option<MessageType>)
  {
    match s
    case "Error" => Some(Error)
    case "Ping" => Some(Ping)
    case "Pong" => Some(Pong)
    case "LibraryRequest" => Some(LibraryRequest)
    case "LibraryResponse" => Some(LibraryResponse)
    case "MediaUrlRequest" => Some(MediaUrlRequest)
    case "MediaUrlResponse" => Some(MediaUrlResponse)
    case "IdRequest" => Some(IdRequest)
    case "IdResponse" => Some(IdResponse)
    case "ChangesRequest" => Some(ChangesRequest)
    case "ChangesResponse" => Some(ChangesResponse)
    case "ChangeListRequest" => Some(ChangeListRequest)
    case "ChangeListResponse" => Some(ChangeListResponse)
    case "DownloadRequest" => Some(DownloadRequest)
    case "DownloadResponse" => Some(DownloadResponse)
    case "DownloadQuery" => Some(DownloadQuery)
    case "DownloadQueryResponse" => Some(DownloadQueryResponse)
    case "YoutubeUrlQuery" => Some(YoutubeUrlQuery)
    case "YoutubeUrlResponse" => Some(YoutubeUrlResponse)
    case _ => None
  }

  lemma ParseTypeString(t: MessageType)
    ensures ParseType(TypeString(t)) == Some(t)
  {
    match t
    case Error => assert ParseType("Error") == Some(Error);
    case Ping => assert ParseType("Ping") == Some(Ping);
    case Pong => assert ParseType("Pong") == Some(Pong);
    case LibraryRequest => assert ParseType("LibraryRequest") == Some(LibraryRequest);
    case LibraryResponse => assert ParseType("LibraryResponse") == Some(LibraryResponse);
    case MediaUrlRequest => assert ParseType("MediaUrlRequest") == Some(MediaUrlRequest);
    case MediaUrlResponse => assert ParseType("MediaUrlResponse") == Some(MediaUrlResponse);
    case IdRequest => assert ParseType("IdRequest") == Some(IdRequest);
    case IdResponse => assert ParseType("IdResponse") == Some(IdResponse);
    case ChangesRequest => assert ParseType("ChangesRequest") == Some(ChangesRequest);
    case ChangesResponse => assert ParseType("ChangesResponse") == Some(ChangesResponse);
    case ChangeListRequest => assert ParseType("ChangeListRequest") == Some(ChangeListRequest);
    case ChangeListResponse => assert ParseType("ChangeListResponse") == Some(ChangeListResponse);
    case DownloadRequest => assert ParseType("DownloadRequest") == Some(DownloadRequest);
    case DownloadResponse => assert ParseType("DownloadResponse") == Some(DownloadResponse);
    case DownloadQuery => assert ParseType("DownloadQuery") == Some(DownloadQuery);
    case DownloadQueryResponse => assert ParseType("DownloadQueryResponse") == Some(DownloadQueryResponse);
    case YoutubeUrlQuery => assert ParseType("YoutubeUrlQuery") == Some(YoutubeUrlQuery);
    case YoutubeUrlResponse => assert ParseType("YoutubeUrlResponse") == Some(YoutubeUrlResponse);
  }

  lemma ParseTypeSound(s: string)
    ensures ParseType(s).Some? ==> TypeString(ParseType(s).value) == s
  {
    match s
    case "Error" =>
    case "Ping" =>
    case "Pong" =>
    case "LibraryRequest" =>
    case "LibraryResponse" =>
    case "MediaUrlRequest" =>
    case "MediaUrlResponse" =>
    case "IdRequest" =>
    case "IdResponse" =>
    case "ChangesRequest" =>
    case "ChangesResponse" =>
    case "ChangeListRequest" =>
    case "ChangeListResponse" =>
    case "DownloadRequest" =>
    case "DownloadResponse" =>
    case "DownloadQuery" =>
    case "DownloadQueryResponse" =>
    case "YoutubeUrlQuery" =>
    case "YoutubeUrlResponse" =>
    case _ =>
  }

  lemma TypeStringInjective(t: MessageType, u: MessageType)
    requires TypeString(t) == TypeString(u)
    ensures t == u
  {
    ParseTypeString(t);
    ParseTypeString(u);
  }

  /** The first type in types whose name is id: the chain of CHECK_MESSAGE_TYPE tests. */
  function Route(id: string, types: seq<MessageType>): (r: Option<MessageType>)
    ensures r.Some? ==> r.value in types && TypeString(r.value) == id
    ensures r.None? ==> forall t :: t in types ==> TypeString(t) != id
  {
    if types == [] then None
    else if TypeString(types[0]) == id then Some(types[0])
    else Route(id, types[1..])
  }

  /** A listed type is found by its name: the names are pairwise distinct. */
  lemma {:induction false} RouteFinds(types: seq<MessageType>, t: MessageType)
    requires t in types
    ensures Route(TypeString(t), types) == Some(t)
  {
    if TypeString(types[0]) == TypeString(t) {
      TypeStringInjective(types[0], t);
    } else {
      RouteFinds(types[1..], t);
    }
  }

  /** Routing through a list finds the type the name denotes, when it is listed. */
  lemma {:induction false} RouteIsParse(id: string, types: seq<MessageType>)
    ensures Route(id, types) == (if ParseType(id).Some? && ParseType(id).value in types then ParseType(id) else None)
  {
    ParseTypeSound(id);
    if types != [] {
      if TypeString(types[0]) == id {
        ParseTypeString(types[0]);
      } else {
        RouteIsParse(id, types[1..]);
      }
    }
  }

  /** A type that is not listed is not found by its name. */
  lemma {:induction false} RouteMisses(types: seq<MessageType>, t: MessageType)
    requires t !in types
    ensures Route(TypeString(t), types) == None
  {
    if types != [] {
      if TypeString(types[0]) == TypeString(t) {
        TypeStringInjective(types[0], t);
      }
      RouteMisses(types[1..], t);
    }
  }

  // ---------------------------------------------------------------------
  // Message::fromJson

  /**
   * The routing of Message::fromJson on the top-level object: "id" must be
   * a string and "data" an object; the type named by id decodes data with
   * its registered members, and an id no type has is a custom error.
   */
  function FromObjectWith(obj: map<string, Json>, desc: Descriptors, types: seq<MessageType>): (r: Result<Body, EnjsonError>)
    ensures "id" !in obj ==> r == Err(MissingMemberError("id"))
    ensures "id" in obj && !obj["id"].JString? ==> r == Err(TypeError(StringType, TypeOf(obj["id"])))
    ensures "id" in obj && obj["id"].JString? && "data" !in obj ==> r == Err(MissingMemberError("data"))
    ensures "id" in obj && obj["id"].JString? && "data" in obj && !obj["data"].JObject?
      ==> r == Err(TypeError(ObjectType, TypeOf(obj["data"])))
    ensures r.Ok? ==> (
      && "id" in obj && obj["id"].JString? && "data" in obj && obj["data"].JObject?
      && Route(obj["id"].s, types) == Some(r.value.msgType)
      && JsonTemplates.DejsonObjectSpec(obj["data"], desc(r.value.msgType)) == Ok(r.value.members))
  {
    if "id" !in obj then Err(MissingMemberError("id"))
    else if !obj["id"].JString? then Err(TypeError(StringType, TypeOf(obj["id"])))
    else if "data" !in obj then Err(MissingMemberError("data"))
    else if !obj["data"].JObject? then Err(TypeError(ObjectType, TypeOf(obj["data"])))
    else
      var id := obj["id"].s;
      match Route(id, types)
      case None => Err(CustomError("No such message ID: " + id, None))
      case Some(t) =>
        match JsonTemplates.DejsonObjectSpec(obj["data"], desc(t))
        case Err(e) => Err(e)
        case Ok(values) => Ok(Body(t, values))
  }

  /** fromJson as written: only the types that have a case in typeString can be read. */
  function FromObjectAsWritten(obj: map<string, Json>, desc: Descriptors): Result<Body, EnjsonError>
  {
    FromObjectWith(obj, desc, CheckedTypes)
  }

  /** fromJson with every type routed by its name. */
  function FromObject(obj: map<string, Json>, desc: Descriptors): Result<Body, EnjsonError>
  {
    FromObjectWith(obj, desc, AllTypes)
  }

  /** Message::fromJson on a parsed document: a document that is not an object fails first. */
  function FromJson(p: Parsed, desc: Descriptors): (r: Result<Body, EnjsonError>)
    ensures JsonDeserializeObject(p).Err? ==> r == Err(JsonDeserializeObject(p).error)
  {
    match JsonDeserializeObject(p)
    case Err(e) => Err(e)
    case Ok(obj) => FromObject(obj, desc)
  }

  /**
   * Message::fromJson as written: routed through typeString's cases, so a
   * message it reads is one the intended routing reads too, and never of
   * the media URL pair.
   */
  function FromJsonAsWritten(p: Parsed, desc: Descriptors): (r: Result<Body, EnjsonError>)
    ensures JsonDeserializeObject(p).Err? ==> r == Err(JsonDeserializeObject(p).error)
    ensures r.Ok? ==> r == FromJson(p, desc) && r.value.msgType in CheckedTypes
  {
    match JsonDeserializeObject(p)
    case Err(e) => Err(e)
    case Ok(obj) =>
      AsWrittenReadsLess(obj, desc);
      FromObjectAsWritten(obj, desc)
  }

  /** The document {"id":"MediaUrlRequest","data":{}} is refused as written and read as intended. */
  lemma FromJsonMediaUrlRequest(p: Parsed, desc: Descriptors)
    requires JsonDeserializeObject(p).Ok?
    requires var obj := JsonDeserializeObject(p).value;
      "id" in obj && obj["id"] == JString("MediaUrlRequest") && "data" in obj && obj["data"] == JObject(map[])
    requires desc(MediaUrlRequest) == []
    ensures FromJsonAsWritten(p, desc) == Err(CustomError("No such message ID: " + TypeString(MediaUrlRequest), None))
    ensures FromJson(p, desc) == Ok(Body(MediaUrlRequest, []))
  {
    var obj := JsonDeserializeObject(p).value;
    assert TypeString(MediaUrlRequest) == "MediaUrlRequest";
    MediaUrlRequestRefused(obj, desc);
    MediaUrlRequestRead(obj, desc);
  }

  /** No other type carries a name of the media URL pair. */
  lemma NamedOutsideMediaPair(t: MessageType)
    requires t != MediaUrlRequest && t != MediaUrlResponse
    ensures TypeString(t) != "MediaUrlRequest" && TypeString(t) != "MediaUrlResponse"
  {
    ParseTypeString(t);
    assert ParseType("MediaUrlRequest") == Some(MediaUrlRequest);
    assert ParseType("MediaUrlResponse") == Some(MediaUrlResponse);
  }

  /** What the written routing reads, the intended routing reads the same way. */
  lemma AsWrittenReadsLess(obj: map<string, Json>, desc: Descriptors)
    ensures FromObjectAsWritten(obj, desc).Ok? ==> FromObjectAsWritten(obj, desc) == FromObject(obj, desc)
    ensures FromObjectAsWritten(obj, desc).Ok? ==> FromObjectAsWritten(obj, desc).value.msgType in CheckedTypes
  {
    var r := FromObjectAsWritten(obj, desc);
    if r.Ok? {
      var t := r.value.msgType;
      CheckedTypesListed(t);
      NamedOutsideMediaPair(t);
      assert obj["id"].s == TypeString(t);
      AsWrittenAgrees(obj, desc);
    }
  }

  /** A message read from JSON carries the type its "id" names. */
  lemma FromObjectNamesType(obj: map<string, Json>, desc: Descriptors)
    requires FromObject(obj, desc).Ok?
    ensures TypeString(FromObject(obj, desc).value.msgType) == obj["id"].s
  {
  }

  /** An id that names no type is reported as a custom error naming it. */
  lemma FromObjectUnknownId(obj: map<string, Json>, desc: Descriptors)
    requires "id" in obj && obj["id"].JString? && "data" in obj && obj["data"].JObject?
    requires forall t :: TypeString(t) != obj["id"].s
    ensures FromObject(obj, desc) == Err(CustomError("No such message ID: " + obj["id"].s, None))
  {
  }

  // ---------------------------------------------------------------------
  // messageToJson and the round trip

  /** messageToJson's object: the type's name under "id" and the members under "data". */
  function ToObject(b: Body, desc: Descriptors): (obj: map<string, Json>)
    requires |b.members| == |desc(b.msgType)|
    ensures obj.Keys == {"id", "data"} && obj["id"] == JString(TypeString(b.msgType)) && obj["data"].JObject?
  {
    map["id" := JString(TypeString(b.msgType)),
        "data" := JObject(JsonTemplates.Inserted(desc(b.msgType), b.members, |b.members|))]
  }

  /**
   * A message written by messageToJson is read back by fromJson when its
   * registered names are distinct and each member accepts its own value.
   */
  lemma MessageRoundTrip(b: Body, desc: Descriptors)
    requires |b.members| == |desc(b.msgType)| && JsonTemplates.DistinctNames(desc(b.msgType))
    requires forall k :: 0 <= k < |b.members| ==> desc(b.msgType)[k].setter(b.members[k]) == NoError
    ensures FromObject(ToObject(b, desc), desc) == Ok(b)
  {
    AllTypesListed(b.msgType);
    RouteFinds(AllTypes, b.msgType);
    JsonTemplates.ObjectRoundTrip(desc(b.msgType), b.members);
  }

  /**
   * Where typeString has a case, the written routing agrees with routing by
   * name: the two differ only for the media URL pair.
   */
  lemma AsWrittenAgrees(obj: map<string, Json>, desc: Descriptors)
    requires "id" in obj && obj["id"].JString?
    requires obj["id"].s != "MediaUrlRequest" && obj["id"].s != "MediaUrlResponse"
    ensures FromObjectAsWritten(obj, desc) == FromObject(obj, desc)
  {
    RoutesAgree(obj["id"].s);
  }

  /** Outside the media URL pair, both lists route a name to the same type. */
  lemma RoutesAgree(id: string)
    requires id != "MediaUrlRequest" && id != "MediaUrlResponse"
    ensures Route(id, CheckedTypes) == Route(id, AllTypes)
  {
    RouteIsParse(id, AllTypes);
    RouteIsParse(id, CheckedTypes);
    ParseTypeSound(id);
    if ParseType(id).Some? {
      var t := ParseType(id).value;
      AllTypesListed(t);
      CheckedTypesListed(t);
    }
  }

  /** As written, a media URL request is refused as an unknown id, and naming its type aborts. */
  lemma MediaUrlRequestRefused(obj: map<string, Json>, desc: Descriptors)
    requires "id" in obj && obj["id"] == JString(TypeString(MediaUrlRequest)) && "data" in obj && obj["data"].JObject?
    ensures FromObjectAsWritten(obj, desc) == Err(CustomError("No such message ID: " + TypeString(MediaUrlRequest), None))
    ensures TypeStringAsWritten(MediaUrlRequest).None?
  {
    RouteIsParse(obj["id"].s, CheckedTypes);
    ParseTypeString(MediaUrlRequest);
    CheckedTypesListed(MediaUrlRequest);
  }

  /** Routed by name, the same request is read when the type registers no members. */
  lemma MediaUrlRequestRead(obj: map<string, Json>, desc: Descriptors)
    requires "id" in obj && obj["id"] == JString(TypeString(MediaUrlRequest)) && "data" in obj && obj["data"] == JObject(map[])
    requires desc(MediaUrlRequest) == []
    ensures FromObject(obj, desc) == Ok(Body(MediaUrlRequest, []))
  {
    RouteIsParse(obj["id"].s, AllTypes);
    ParseTypeString(MediaUrlRequest);
    AllTypesListed(MediaUrlRequest);
  }

  // ---------------------------------------------------------------------
  // fromJsonAs

  /**
   * Message::fromJsonAs<T>: fromJson's error is passed on; a message of
   * another type is a custom error naming the type that was read.
   */
  function FromJsonAs(p: Parsed, desc: Descriptors, t: MessageType): (r: Result<Body, EnjsonError>)
    ensures FromJson(p, desc).Err? ==> r == Err(FromJson(p, desc).error)
    ensures FromJson(p, desc).Ok? && FromJson(p, desc).value.msgType != t
      ==> r == Err(CustomError("Wrong message type: " + TypeString(FromJson(p, desc).value.msgType), None))
    ensures r.Ok? <==> FromJson(p, desc).Ok? && FromJson(p, desc).value.msgType == t
    ensures r.Ok? ==> r == FromJson(p, desc) && r.value.msgType == t
  {
    match FromJson(p, desc)
    case Err(e) => Err(e)
    case Ok(b) =>
      if b.msgType == t then Ok(b) else Err(CustomError("Wrong message type: " + TypeString(b.msgType), None))
  }

  // ---------------------------------------------------------------------
  // Message

  /** A Message: an owning pointer to a concrete message, or null. */
  class Message {
    var msg: Option<Body>

    constructor Empty()
      ensures msg == None
    {
      msg := None;
    }

    constructor (b: Body)
      ensures msg == Some(b)
    {
      msg := Some(b);
    }

    /** getType: the held message's tag, Error when there is none. */
    function GetType(): (t: MessageType)
      reads this
      ensures msg.Some? ==> t == msg.value.msgType
      ensures msg.None? ==> t == Error
    {
      if msg.Some? then msg.value.msgType else Error
    }

    /** getTypeString: the held message's type name, "null" when there is none. */
    function GetTypeString(): (s: string)
      reads this
      ensures msg.None? ==> s == "null"
      ensures msg.Some? ==> s == TypeString(msg.value.msgType)
    {
      if msg.Some? then TypeString(msg.value.msgType) else "null"
    }

    /** as<T>: the held message when its tag is T's, null otherwise; the held message is dereferenced unchecked. */
    function As(t: MessageType): (r: Option<Body>)
      requires msg.Some?
      reads this
      ensures r.Some? <==> GetType() == t
      ensures r.Some? ==> r.value == msg.value
    {
      if msg.value.msgType == t then msg else None
    }

    /**
     * Move assignment: the target takes over rhs's message and rhs is left
     * null; moving a message into itself keeps it.
     */
    method MoveAssign(rhs: Message)
      modifies this, rhs
      ensures rhs != this ==> msg == old(rhs.msg) && rhs.msg == None
      ensures rhs == this ==> msg == old(msg)
    {
      var taken := rhs.msg;
      rhs.msg := None;
      msg := taken;
    }
  }

  /** The type fromJsonAs was asked for is the only one as<T> accepts of what it read. */
  lemma FromJsonAsMatchesAs(p: Parsed, desc: Descriptors, t: MessageType, m: Message)
    requires FromJson(p, desc).Ok? && m.msg == Some(FromJson(p, desc).value)
    ensures FromJsonAs(p, desc, t).Ok? <==> m.As(t).Some?
  {
  }
}
