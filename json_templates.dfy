// The generic conversions of src/shared/jsonconv.hpp: dejsonFromString,
// enjson and dejson of vectors and pairs, the member lookup of
// DEJSON_GET_MEMBER, and the reflective object conversion. A C++ type's
// dejson is a function from Json to a result, its enjson a function to
// Json. A reflected object is the list of its member descriptors (name and
// setter, in registration order) and the values its members hold.
module JsonTemplates {

  import opened Wrappers
  import opened JsonConv

  /** dejsonFromString<T>: the parse error unchanged, otherwise T's dejson of the top-level value. */
  function DejsonFromString<T>(p: Parsed, dec: Json -> Result<T, EnjsonError>): (r: Result<T, EnjsonError>)
    ensures p.ParseFailed? ==> r == Err(ParseError(p.message))
    ensures p.NullDocument? ==> r == Err(TypeError(ObjectType, NullType))
    ensures p.ArrayDocument? ==> r == dec(JArray(p.elems))
    ensures p.ObjectDocument? ==> r == dec(JObject(p.members))
  {
    match JsonDeserialize(p)
    case Err(e) => Err(e)
    case Ok(v) => dec(v)
  }

  // ---------------------------------------------------------------------
  // Vectors

  /** The elements enjson of a vector appends, one per value, in order. */
  function Encoded<T>(values: seq<T>, enc: T -> Json): (js: seq<Json>)
    ensures |js| == |values| && forall i :: 0 <= i < |values| ==> js[i] == enc(values[i])
  {
    if values == [] then [] else Encoded(values[..|values| - 1], enc) + [enc(values[|values| - 1])]
  }

  /** enjson(QVector<T>): an array of the values' encodings, same length and order. */
  method EnjsonVector<T>(values: seq<T>, enc: T -> Json) returns (j: Json)
    ensures j == JArray(Encoded(values, enc))
  {
    var arr: seq<Json> := [];
    var i := 0;
    while i < |values|
      invariant 0 <= i <= |values|
      invariant arr == Encoded(values[..i], enc)
    {
      assert values[..i + 1][..i] == values[..i];
      arr := arr + [enc(values[i])];
      i := i + 1;
    }
    assert values[..i] == values;
    j := JArray(arr);
  }

  /**
   * The first n elements decoded one by one: an element's error stops the
   * decoding as the error of that element.
   */
  function DecodePrefix<T>(elems: seq<Json>, dec: Json -> Result<T, EnjsonError>, n: nat): (r: Result<seq<T>, EnjsonError>)
    requires n <= |elems|
    ensures r.Ok? <==> forall k :: 0 <= k < n ==> dec(elems[k]).Ok?
    ensures r.Ok? ==> |r.value| == n && forall k :: 0 <= k < n ==> dec(elems[k]) == Ok(r.value[k])
    ensures r.Err? ==>
      && r.error.ElementError? && 0 <= r.error.element < n
      && dec(elems[r.error.element]) == Err(r.error.inner)
      && forall k :: 0 <= k < r.error.element ==> dec(elems[k]).Ok?
  {
    if n == 0 then Ok([])
    else
      match DecodePrefix(elems, dec, n - 1)
      case Err(e) => Err(e)
      case Ok(vs) =>
        match dec(elems[n - 1])
        case Err(e) => Err(ElementError(n - 1, e))
        case Ok(v) => Ok(vs + [v])
  }

  /** Once an element failed, decoding more elements keeps that error. */
  lemma {:induction false} DecodeErrorSticks<T>(elems: seq<Json>, dec: Json -> Result<T, EnjsonError>, n: nat, m: nat)
    requires n <= m <= |elems| && DecodePrefix(elems, dec, n).Err?
    ensures DecodePrefix(elems, dec, m) == DecodePrefix(elems, dec, n)
    decreases m
  {
    if m > n {
      DecodeErrorSticks(elems, dec, n, m - 1);
    }
  }

  /** dejson(QVector<T>): a type error for a non-array, else every element decoded in order. */
  function DejsonVectorSpec<T>(j: Json, dec: Json -> Result<T, EnjsonError>): Result<seq<T>, EnjsonError>
  {
    if !j.JArray? then Err(TypeError(ArrayType, TypeOf(j))) else DecodePrefix(j.elems, dec, |j.elems|)
  }

  /** dejson(QVector<T>) as the loop that appends decoded elements and returns at the first failure. */
  method DejsonVector<T>(j: Json, dec: Json -> Result<T, EnjsonError>) returns (r: Result<seq<T>, EnjsonError>)
    ensures r == DejsonVectorSpec(j, dec)
    ensures !j.JArray? ==> r == Err(TypeError(ArrayType, TypeOf(j)))
  {
    if !j.JArray? {
      return Err(TypeError(ArrayType, TypeOf(j)));
    }
    var arr := j.elems;
    var ret: seq<T> := [];
    var i := 0;
    while i < |arr|
      invariant 0 <= i <= |arr|
      invariant DecodePrefix(arr, dec, i) == Ok(ret)
    {
      var element := dec(arr[i]);
      if element.Err? {
        DecodeErrorSticks(arr, dec, i + 1, |arr|);
        return Err(ElementError(i, element.error));
      }
      ret := ret + [element.value];
      i := i + 1;
    }
    r := Ok(ret);
  }

  /** A vector encoded element by element decodes back to itself when each element does. */
  lemma VectorRoundTrip<T>(values: seq<T>, enc: T -> Json, dec: Json -> Result<T, EnjsonError>)
    requires forall v :: dec(enc(v)) == Ok(v)
    ensures DejsonVectorSpec(JArray(Encoded(values, enc)), dec) == Ok(values)
  {
    var js := Encoded(values, enc);
    var r := DecodePrefix(js, dec, |js|);
    assert forall k :: 0 <= k < |js| ==> dec(js[k]) == Ok(values[k]);
    assert r.Ok?;
    assert r.value == values;
  }

  // ---------------------------------------------------------------------
  // Pairs

  /** enjson(QPair<A, B>): an object with exactly the members "first" and "second". */
  function EnjsonPair<A, B>(a: A, b: B, ea: A -> Json, eb: B -> Json): (j: Json)
    ensures j.JObject? && j.members.Keys == {"first", "second"}
    ensures j.members["first"] == ea(a) && j.members["second"] == eb(b)
  {
    JObject(map["first" := ea(a), "second" := eb(b)])
  }

  /**
   * dejson(QPair<A, B>): a type error for a non-object; "first" missing is
   * reported before "second" missing; both halves are decoded and a's error
   * is reported before b's.
   */
  function DejsonPair<A, B>(j: Json, da: Json -> Result<A, EnjsonError>, db: Json -> Result<B, EnjsonError>)
    : (r: Result<(A, B), EnjsonError>)
    ensures r.Ok? <==>
      && j.JObject? && "first" in j.members && "second" in j.members
      && da(j.members["first"]).Ok? && db(j.members["second"]).Ok?
    ensures r.Ok? ==> r.value == (da(j.members["first"]).value, db(j.members["second"]).value)
    ensures !j.JObject? ==> r == Err(TypeError(ObjectType, TypeOf(j)))
    ensures j.JObject? && "first" !in j.members ==> r == Err(MissingMemberError("first"))
    ensures j.JObject? && "first" in j.members && da(j.members["first"]).Err? ==>
      r == Err(MissingMemberError("second")) || r == Err(da(j.members["first"]).error)
  {
    match Expect(j, ObjectType)
    case Err(e) => Err(e)
    case Ok(_) =>
      var obj := j.members;
      if "first" !in obj then Err(MissingMemberError("first"))
      else if "second" !in obj then Err(MissingMemberError("second"))
      else
        var a := da(obj["first"]);
        var b := db(obj["second"]);
        if a.Err? then Err(a.error)
        else if b.Err? then Err(b.error)
        else Ok((a.value, b.value))
  }

  /** A pair encoded as an object decodes back to itself when each half does. */
  lemma PairRoundTrip<A, B>(a: A, b: B, ea: A -> Json, eb: B -> Json,
                            da: Json -> Result<A, EnjsonError>, db: Json -> Result<B, EnjsonError>)
    requires da(ea(a)) == Ok(a) && db(eb(b)) == Ok(b)
    ensures DejsonPair(EnjsonPair(a, b, ea, eb), da, db) == Ok((a, b))
  {
  }

  // ---------------------------------------------------------------------
  // DEJSON_GET_MEMBER

  /** DEJSON_GET_MEMBER: a missing member is reported by name, otherwise its own decoding error is passed on. */
  function GetMember<T>(j: Json, name: string, dec: Json -> Result<T, EnjsonError>): (r: Result<T, EnjsonError>)
    ensures !(j.JObject? && name in j.members) ==> r == Err(MissingMemberError(name))
    ensures j.JObject? && name in j.members && !j.members[name].JUndefined? ==> r == dec(j.members[name])
  {
    var v := Member(j, name);
    if v.JUndefined? then Err(MissingMemberError(name)) else dec(v)
  }

  // ---------------------------------------------------------------------
  // Reflected objects

  /** A registered member: its name and the setter that stores a JSON value into it. */
  datatype MemberDescriptor = MemberDescriptor(name: string, setter: Json -> EnjsonError)

  /** The member is present in the object and its setter accepts the value. */
  predicate MemberOk(m: map<string, Json>, d: MemberDescriptor)
  {
    d.name in m && d.setter(m[d.name]) == NoError
  }

  /** Why a member that is not MemberOk fails: missing, or the setter's own error. */
  function MemberFailure(m: map<string, Json>, d: MemberDescriptor): EnjsonError
  {
    if d.name !in m then MissingMemberError(d.name) else d.setter(m[d.name])
  }

  /**
   * The first n members of the descriptor read from the object in order: the
   * values stored, or the failure of the first member that is missing or
   * that its setter refuses (not wrapped in a MemberError).
   */
  function DecodeMembers(m: map<string, Json>, desc: seq<MemberDescriptor>, n: nat): (r: Result<seq<Json>, EnjsonError>)
    requires n <= |desc|
    ensures r.Ok? <==> forall k :: 0 <= k < n ==> MemberOk(m, desc[k])
    ensures r.Ok? ==> |r.value| == n && forall k :: 0 <= k < n ==> r.value[k] == m[desc[k].name]
    ensures r.Err? ==> exists k :: (
      && 0 <= k < n && !MemberOk(m, desc[k]) && r.error == MemberFailure(m, desc[k])
      && forall i :: 0 <= i < k ==> MemberOk(m, desc[i]))
  {
    if n == 0 then Ok([])
    else
      match DecodeMembers(m, desc, n - 1)
      case Err(e) => Err(e)
      case Ok(vs) =>
        var d := desc[n - 1];
        if d.name !in m then Err(MissingMemberError(d.name))
        else
          var error := d.setter(m[d.name]);
          if IsError(error) then Err(error) else Ok(vs + [m[d.name]])
  }

  lemma {:induction false} MembersErrorSticks(m: map<string, Json>, desc: seq<MemberDescriptor>, n: nat, k: nat)
    requires n <= k <= |desc| && DecodeMembers(m, desc, n).Err?
    ensures DecodeMembers(m, desc, k) == DecodeMembers(m, desc, n)
    decreases k
  {
    if k > n {
      MembersErrorSticks(m, desc, n, k - 1);
    }
  }

  /** dejson of a reflected object: a type error for a non-object, else its members in registration order. */
  function DejsonObjectSpec(j: Json, desc: seq<MemberDescriptor>): Result<seq<Json>, EnjsonError>
  {
    if !j.JObject? then Err(TypeError(ObjectType, TypeOf(j))) else DecodeMembers(j.members, desc, |desc|)
  }

  /** dejson of a reflected object as the loop over the descriptor's members. */
  method DejsonObject(j: Json, desc: seq<MemberDescriptor>) returns (r: Result<seq<Json>, EnjsonError>)
    ensures r == DejsonObjectSpec(j, desc)
    ensures !j.JObject? ==> r == Err(TypeError(ObjectType, TypeOf(j)))
  {
    if !j.JObject? {
      return Err(TypeError(ObjectType, TypeOf(j)));
    }
    var obj := j.members;
    var ret: seq<Json> := [];
    var i := 0;
    while i < |desc|
      invariant 0 <= i <= |desc|
      invariant DecodeMembers(obj, desc, i) == Ok(ret)
    {
      var member := desc[i];
      if member.name !in obj {
        MembersErrorSticks(obj, desc, i + 1, |desc|);
        return Err(MissingMemberError(member.name));
      }
      var error := member.setter(obj[member.name]);
      if IsError(error) {
        MembersErrorSticks(obj, desc, i + 1, |desc|);
        return Err(error);
      }
      ret := ret + [obj[member.name]];
      i := i + 1;
    }
    r := Ok(ret);
  }

  /** The object enjson builds: each member inserted under its name, a later name overwriting an earlier one. */
  function Inserted(desc: seq<MemberDescriptor>, values: seq<Json>, n: nat): map<string, Json>
    requires n <= |desc| && |values| == |desc|
  {
    if n == 0 then map[] else Inserted(desc, values, n - 1)[desc[n - 1].name := values[n - 1]]
  }

  /** enjson of a reflected object: every registered member, read through its getter. */
  method EnjsonObject(desc: seq<MemberDescriptor>, values: seq<Json>) returns (j: Json)
    requires |values| == |desc|
    ensures j == JObject(Inserted(desc, values, |desc|))
    ensures forall k :: 0 <= k < |desc| ==> desc[k].name in j.members
  {
    var ret: map<string, Json> := map[];
    var i := 0;
    while i < |desc|
      invariant 0 <= i <= |desc|
      invariant ret == Inserted(desc, values, i)
      invariant forall k :: 0 <= k < i ==> desc[k].name in ret
    {
      ret := ret[desc[i].name := values[i]];
      i := i + 1;
    }
    j := JObject(ret);
  }

  predicate DistinctNames(desc: seq<MemberDescriptor>)
  {
    forall i, k :: 0 <= i < k < |desc| ==> desc[i].name != desc[k].name
  }

  /** With distinct names each member keeps its own value in the written object. */
  lemma {:induction false} InsertedValue(desc: seq<MemberDescriptor>, values: seq<Json>, n: nat, k: nat)
    requires k < n <= |desc| && |values| == |desc| && DistinctNames(desc)
    ensures desc[k].name in Inserted(desc, values, n) && Inserted(desc, values, n)[desc[k].name] == values[k]
    decreases n
  {
    if k < n - 1 {
      InsertedValue(desc, values, n - 1, k);
    }
  }

  /**
   * An object written by enjson is read back by dejson when the member names
   * are distinct and every setter accepts the value its getter gave.
   */
  lemma ObjectRoundTrip(desc: seq<MemberDescriptor>, values: seq<Json>)
    requires |values| == |desc| && DistinctNames(desc)
    requires forall k :: 0 <= k < |desc| ==> desc[k].setter(values[k]) == NoError
    ensures DejsonObjectSpec(JObject(Inserted(desc, values, |desc|)), desc) == Ok(values)
  {
    var m := Inserted(desc, values, |desc|);
    forall k | 0 <= k < |desc|
      ensures MemberOk(m, desc[k]) && m[desc[k].name] == values[k]
    {
      InsertedValue(desc, values, |desc|, k);
    }
    var r := DecodeMembers(m, desc, |desc|);
    assert r.Ok?;
    assert r.value == values;
  }
}
