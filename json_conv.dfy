// JSON values and the deserialisation error of the shared code
// (src/shared/jsonconv.cpp): the EnjsonError kinds, their messages, the
// primitive dejson/enjson conversions and the three document readers.
// A QJsonValue is the datatype Json; numbers are integers here.
module JsonConv {

  import opened Wrappers

  /** QJsonValue::Type. */
  datatype JsonType = NullType | BoolType | DoubleType | StringType | ArrayType | ObjectType | UndefinedType

  /** A QJsonValue. A QJsonObject is a map, so its keys are unique. */
  datatype Json =
    | JNull
    | JBool(b: bool)
    | JNumber(n: int)
    | JString(s: string)
    | JArray(elems: seq<Json>)
    | JObject(members: map<string, Json>)
    | JUndefined

  function TypeOf(j: Json): JsonType
  {
    match j
    case JNull => NullType
    case JBool(_) => BoolType
    case JNumber(_) => DoubleType
    case JString(_) => StringType
    case JArray(_) => ArrayType
    case JObject(_) => ObjectType
    case JUndefined => UndefinedType
  }

  /** `json[name]`: the member of an object, Undefined when absent or when json is no object. */
  function Member(j: Json, name: string): (v: Json)
    ensures !(j.JObject? && name in j.members) ==> v.JUndefined?
  {
    if j.JObject? && name in j.members then j.members[name] else JUndefined
  }

  // ---------------------------------------------------------------------
  // EnjsonError

  /**
   * The kinds of EnjsonError with the member of the union each keeps alive.
   * A parse error keeps the text of QJsonParseError::errorString(). The
   * build* factories are the constructors.
   */
  datatype EnjsonError =
    | NoError
    | ParseError(parseMessage: string)
    | TypeError(expected: JsonType, found: JsonType)
    | CustomError(message: string, cause: Option<EnjsonError>)
    | MissingMemberError(name: string)
    | MemberError(name: string, inner: EnjsonError)
    | ElementError(element: int, inner: EnjsonError)

  predicate IsOk(e: EnjsonError) { e.NoError? }
  predicate IsError(e: EnjsonError) { !e.NoError? }

  /** jsonTypeName: Double is shown as "Number", the other types by their own name. */
  function TypeName(t: JsonType): (name: string)
    ensures t == DoubleType <==> name == "Number"
  {
    match t
    case NullType => "Null"
    case BoolType => "Bool"
    case DoubleType => "Number"
    case StringType => "String"
    case ArrayType => "Array"
    case ObjectType => "Object"
    case UndefinedType => "Undefined"
  }

  /** Distinct types have distinct names, so a type error message names both types unambiguously. */
  lemma TypeNamesDistinct(t: JsonType, u: JsonType)
    requires t != u
    ensures TypeName(t) != TypeName(u)
  {
  }

  /** QString::number(n) for a non-negative n. */
  function NatString(n: nat): (s: string)
    ensures |s| > 0 && forall i :: 0 <= i < |s| ==> '0' <= s[i] <= '9'
  {
    var d := [(('0' as int) + n % 10) as char];
    if n < 10 then d else NatString(n / 10) + d
  }

  /** QString::number(n): a minus sign for negative numbers, then the decimal digits. */
  function IntString(n: int): (s: string)
    ensures |s| > 0
    ensures n >= 0 <==> s[0] != '-'
  {
    if n >= 0 then NatString(n) else "-" + NatString(-n)
  }

  /** The value of a string of decimal digits. */
  function DigitsValue(s: string): nat
    requires forall i :: 0 <= i < |s| ==> '0' <= s[i] <= '9'
  {
    if s == [] then 0 else 10 * DigitsValue(s[..|s| - 1]) + (s[|s| - 1] as int - '0' as int)
  }

  /** The digits of an element index read back as that index. */
  lemma {:induction false} NatStringValue(n: nat)
    ensures DigitsValue(NatString(n)) == n
  {
    var s := NatString(n);
    if n >= 10 {
      NatStringValue(n / 10);
      assert s[..|s| - 1] == NatString(n / 10);
    }
  }

  predicate IsPrefix(p: string, s: string) { |p| <= |s| && s[..|p|] == p }
  predicate IsSuffix(p: string, s: string) { |p| <= |s| && s[|s| - |p|..] == p }

  /** EnjsonError::toString. */
  function ToString(e: EnjsonError): string
  {
    match e
    case NoError => "No Error"
    case ParseError(msg) => "Parse Error: " + msg
    case TypeError(expected, found) => "Type Error: expected " + TypeName(expected) + ", found " + TypeName(found)
    case CustomError(message, cause) =>
      if cause.None? then message else message + ": " + ToString(cause.value)
    case MissingMemberError(name) => "Missing Member: " + name
    case MemberError(name, inner) => name + ": " + ToString(inner)
    case ElementError(element, inner) => "Element " + IntString(element) + ": " + ToString(inner)
  }

  lemma PrefixSuffix(a: string, b: string)
    ensures IsPrefix(a, a + b) && IsSuffix(b, a + b)
  {
    assert (a + b)[..|a|] == a;
    assert (a + b)[|a + b| - |b|..] == b;
  }

  /** A type error's message names the expected type first and the found type last. */
  lemma TypeErrorMessage(expected: JsonType, found: JsonType)
    ensures var s := ToString(TypeError(expected, found));
      IsPrefix("Type Error: expected " + TypeName(expected), s) && IsSuffix(", found " + TypeName(found), s)
  {
    PrefixSuffix("Type Error: expected " + TypeName(expected), ", found " + TypeName(found));
  }

  /** A missing member's message ends with the member's name. */
  lemma MissingMemberMessage(name: string)
    ensures var s := ToString(MissingMemberError(name));
      IsPrefix("Missing Member: ", s) && IsSuffix(name, s)
  {
    PrefixSuffix("Missing Member: ", name);
  }

  /** A parse error's message ends with the parser's own message. */
  lemma ParseErrorMessage(msg: string)
    ensures var s := ToString(ParseError(msg));
      IsPrefix("Parse Error: ", s) && IsSuffix(msg, s)
  {
    PrefixSuffix("Parse Error: ", msg);
  }

  /**
   * A wrapped error's message ends with the inner error's message: behind
   * the member's name, behind "Element i", or behind the custom message.
   */
  lemma NestedMessage(e: EnjsonError)
    requires e.MemberError? || e.ElementError? || (e.CustomError? && e.cause.Some?)
    ensures e.MemberError? ==> IsPrefix(e.name + ": ", ToString(e)) && IsSuffix(ToString(e.inner), ToString(e))
    ensures e.ElementError? ==>
      IsPrefix("Element " + IntString(e.element) + ": ", ToString(e)) && IsSuffix(ToString(e.inner), ToString(e))
    ensures e.CustomError? ==> IsPrefix(e.message, ToString(e)) && IsSuffix(": " + ToString(e.cause.value), ToString(e))
  {
    match e
    case CustomError(message, cause) => PrefixSuffix(message, ": " + ToString(cause.value));
    case MemberError(name, inner) => PrefixSuffix(name + ": ", ToString(inner));
    case ElementError(element, inner) => PrefixSuffix("Element " + IntString(element) + ": ", ToString(inner));
  }

  /**
   * An EnjsonError object. Copy and move assignment first clear the target
   * and then read the source, so assigning an error to itself clears it.
   */
  class ErrorCell {
    var error: EnjsonError

    /** The default constructor holds NoError. */
    constructor ()
      ensures error == NoError
    {
      error := NoError;
    }

    /** The copy and move constructors start from NoError and assign. */
    constructor Copy(other: EnjsonError)
      ensures error == other
    {
      error := other;
    }

    function IsOk(): (b: bool)
      reads this
      ensures b <==> error == NoError
    {
      error.NoError?
    }

    /** clear(): back to NoError, whatever the kind was. */
    method Clear()
      modifies this
      ensures error == NoError
    {
      error := NoError;
    }

    /** operator=(const EnjsonError &): a deep copy of rhs, taken after this was cleared. */
    method CopyAssign(rhs: ErrorCell)
      modifies this
      ensures rhs != this ==> error == old(rhs.error) && rhs.error == old(rhs.error)
      ensures rhs == this ==> error == NoError
    {
      Clear();
      error := rhs.error;
    }

    /** operator=(EnjsonError &&): this takes rhs's error and rhs is cleared. */
    method MoveAssign(rhs: ErrorCell)
      modifies this, rhs
      ensures rhs != this ==> error == old(rhs.error)
      ensures rhs.error == NoError
    {
      Clear();
      error := rhs.error;
      rhs.Clear();
    }
  }

  // ---------------------------------------------------------------------
  // Primitive dejson and enjson

  /** DEJSON_EXPECT_TYPE: the value itself when it has the expected type, else a type error naming both. */
  function Expect(j: Json, expected: JsonType): (r: Result<Json, EnjsonError>)
    ensures r.Ok? <==> TypeOf(j) == expected
    ensures r.Ok? ==> r.value == j
    ensures r.Err? ==> r.error == TypeError(expected, TypeOf(j))
  {
    if TypeOf(j) == expected then Ok(j) else Err(TypeError(expected, TypeOf(j)))
  }

  /** dejson into qint32 or qint64: numbers only. */
  function DejsonInt(j: Json): (r: Result<int, EnjsonError>)
    ensures r.Ok? <==> j.JNumber?
    ensures r.Err? ==> r.error == TypeError(DoubleType, TypeOf(j))
  {
    match Expect(j, DoubleType)
    case Err(e) => Err(e)
    case Ok(v) => Ok(v.n)
  }

  const U32Range: nat := 0x1_0000_0000

  /** dejson into quint32: numbers only, converted modulo 2^32. */
  function DejsonU32(j: Json): (r: Result<nat, EnjsonError>)
    ensures r.Ok? <==> j.JNumber?
    ensures r.Ok? ==> r.value < U32Range
    ensures r.Err? ==> r.error == TypeError(DoubleType, TypeOf(j))
  {
    match Expect(j, DoubleType)
    case Err(e) => Err(e)
    case Ok(v) => Ok(v.n % U32Range)
  }

  function DejsonString(j: Json): (r: Result<string, EnjsonError>)
    ensures r.Ok? <==> j.JString?
    ensures r.Err? ==> r.error == TypeError(StringType, TypeOf(j))
  {
    match Expect(j, StringType)
    case Err(e) => Err(e)
    case Ok(v) => Ok(v.s)
  }

  function DejsonBool(j: Json): (r: Result<bool, EnjsonError>)
    ensures r.Ok? <==> j.JBool?
    ensures r.Err? ==> r.error == TypeError(BoolType, TypeOf(j))
  {
    match Expect(j, BoolType)
    case Err(e) => Err(e)
    case Ok(v) => Ok(v.b)
  }

  function DejsonObject(j: Json): (r: Result<map<string, Json>, EnjsonError>)
    ensures r.Ok? <==> j.JObject?
    ensures r.Err? ==> r.error == TypeError(ObjectType, TypeOf(j))
  {
    match Expect(j, ObjectType)
    case Err(e) => Err(e)
    case Ok(v) => Ok(v.members)
  }

  function DejsonArray(j: Json): (r: Result<seq<Json>, EnjsonError>)
    ensures r.Ok? <==> j.JArray?
    ensures r.Err? ==> r.error == TypeError(ArrayType, TypeOf(j))
  {
    match Expect(j, ArrayType)
    case Err(e) => Err(e)
    case Ok(v) => Ok(v.elems)
  }

  /** enjson of a signed integer; dejson reads it back. */
  function EnjsonInt(n: int): (j: Json)
    ensures DejsonInt(j) == Ok(n)
  {
    JNumber(n)
  }

  /** enjson of a quint32 goes through qint64, which holds every quint32. */
  function EnjsonU32(n: nat): (j: Json)
    requires n < U32Range
    ensures DejsonU32(j) == Ok(n) && DejsonInt(j) == Ok(n)
  {
    JNumber(n)
  }

  function EnjsonString(s: string): (j: Json)
    ensures DejsonString(j) == Ok(s)
  {
    JString(s)
  }

  function EnjsonBool(b: bool): (j: Json)
    ensures DejsonBool(j) == Ok(b)
  {
    JBool(b)
  }

  // ---------------------------------------------------------------------
  // Documents

  /**
   * What QJsonDocument::fromJson made of the bytes: a parse error with its
   * message, an empty (null) document, or a top-level array or object.
   */
  datatype Parsed =
    | ParseFailed(message: string)
    | NullDocument
    | ArrayDocument(elems: seq<Json>)
    | ObjectDocument(members: map<string, Json>)

  /** jsonDeserialize: the top-level value, a parse error, or a type error for an empty document. */
  function JsonDeserialize(p: Parsed): (r: Result<Json, EnjsonError>)
    ensures p.ParseFailed? ==> r == Err(ParseError(p.message))
    ensures p.NullDocument? ==> r == Err(TypeError(ObjectType, NullType))
    ensures p.ArrayDocument? ==> r == Ok(JArray(p.elems))
    ensures p.ObjectDocument? ==> r == Ok(JObject(p.members))
  {
    match p
    case ParseFailed(msg) => Err(ParseError(msg))
    case NullDocument => Err(TypeError(ObjectType, NullType))
    case ArrayDocument(elems) => Ok(JArray(elems))
    case ObjectDocument(members) => Ok(JObject(members))
  }

  /** jsonDeserializeObject: an array document is a type error. */
  function JsonDeserializeObject(p: Parsed): (r: Result<map<string, Json>, EnjsonError>)
    ensures r.Ok? <==> p.ObjectDocument?
    ensures r.Ok? ==> r.value == p.members
    ensures p.ArrayDocument? ==> r == Err(TypeError(ObjectType, ArrayType))
    ensures JsonDeserialize(p).Err? ==> r == Err(JsonDeserialize(p).error)
  {
    match JsonDeserialize(p)
    case Err(e) => Err(e)
    case Ok(v) => if v.JArray? then Err(TypeError(ObjectType, ArrayType)) else Ok(v.members)
  }

  /** jsonDeserializeArray: an object document is a type error. */
  function JsonDeserializeArray(p: Parsed): (r: Result<seq<Json>, EnjsonError>)
    ensures r.Ok? <==> p.ArrayDocument?
    ensures r.Ok? ==> r.value == p.elems
    ensures p.ObjectDocument? ==> r == Err(TypeError(ArrayType, ObjectType))
    ensures JsonDeserialize(p).Err? ==> r == Err(JsonDeserialize(p).error)
  {
    match JsonDeserialize(p)
    case Err(e) => Err(e)
    case Ok(v) => if v.JObject? then Err(TypeError(ArrayType, ObjectType)) else Ok(v.elems)
  }

  /** No document is read both as an object and as an array, and an empty one as neither. */
  lemma ObjectOrArray(p: Parsed)
    ensures !(JsonDeserializeObject(p).Ok? && JsonDeserializeArray(p).Ok?)
    ensures p.NullDocument? ==> JsonDeserializeObject(p).Err? && JsonDeserializeArray(p).Err?
  {
  }
}
