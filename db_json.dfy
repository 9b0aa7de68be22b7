// The JSON helpers of the older library (src/dbcommon/src/jsonconv.cpp and
// src/dbcommon/include/jsonconv.hpp). Conversions report success as a bool
// and write an out-parameter only on success; here an out-parameter is
// passed in and its final value returned next to the flag.
module DbJson {

  import opened Wrappers
  import opened JsonConv
  import JsonTemplates

  /** parseJsonArray: the top-level array, or an empty array for a failed, empty or non-array document. */
  function ParseJsonArray(p: Parsed): (a: seq<Json>)
    ensures p.ArrayDocument? ==> a == p.elems
    ensures !p.ArrayDocument? ==> a == []
  {
    if p.ArrayDocument? then p.elems else []
  }

  /** parseJsonObject: the top-level object, or an empty object otherwise. */
  function ParseJsonObject(p: Parsed): (m: map<string, Json>)
    ensures p.ObjectDocument? ==> m == p.members
    ensures !p.ObjectDocument? ==> m == map[]
  {
    if p.ObjectDocument? then p.members else map[]
  }

  /** The older readers agree with the shared ones wherever those succeed, and fall back to empty elsewhere. */
  lemma ParseAgreesWithShared(p: Parsed)
    ensures ParseJsonArray(p) == (if JsonDeserializeArray(p).Ok? then JsonDeserializeArray(p).value else [])
    ensures ParseJsonObject(p) == (if JsonDeserializeObject(p).Ok? then JsonDeserializeObject(p).value else map[])
  {
  }

  // ---------------------------------------------------------------------
  // Primitive fromJson / toJson

  /** fromJson(json, qint32 &) and fromJson(json, qint64 &): numbers only; value untouched otherwise. */
  function FromJsonInt(j: Json, value: int): (r: (bool, int))
    ensures r.0 <==> TypeOf(j) == DoubleType
    ensures !r.0 ==> r.1 == value
    ensures r.0 ==> DejsonInt(j) == Ok(r.1)
  {
    if !j.JNumber? then (false, value) else (true, j.n)
  }

  /** fromJson(json, quint32 &): numbers only, converted modulo 2^32; value untouched otherwise. */
  function FromJsonU32(j: Json, value: nat): (r: (bool, nat))
    ensures r.0 <==> TypeOf(j) == DoubleType
    ensures !r.0 ==> r.1 == value
    ensures r.0 ==> r.1 < U32Range && DejsonU32(j) == Ok(r.1)
  {
    if !j.JNumber? then (false, value) else (true, j.n % U32Range)
  }

  function FromJsonString(j: Json, value: string): (r: (bool, string))
    ensures r.0 <==> TypeOf(j) == StringType
    ensures !r.0 ==> r.1 == value
    ensures r.0 ==> DejsonString(j) == Ok(r.1)
  {
    if !j.JString? then (false, value) else (true, j.s)
  }

  function FromJsonBool(j: Json, value: bool): (r: (bool, bool))
    ensures r.0 <==> TypeOf(j) == BoolType
    ensures !r.0 ==> r.1 == value
    ensures r.0 ==> DejsonBool(j) == Ok(r.1)
  {
    if !j.JBool? then (false, value) else (true, j.b)
  }

  /** toJson(quint32) goes through qint64, so every quint32 is kept exactly and read back. */
  function ToJsonU32(v: nat): (j: Json)
    requires v < U32Range
    ensures forall old_value: nat {:trigger FromJsonU32(j, old_value)} :: FromJsonU32(j, old_value) == (true, v)
  {
    JNumber(v)
  }

  function ToJsonInt(v: int): (j: Json)
    ensures forall old_value: int {:trigger FromJsonInt(j, old_value)} :: FromJsonInt(j, old_value) == (true, v)
  {
    JNumber(v)
  }

  function ToJsonString(v: string): (j: Json)
    ensures forall old_value: string {:trigger FromJsonString(j, old_value)} :: FromJsonString(j, old_value) == (true, v)
  {
    JString(v)
  }

  function ToJsonBool(v: bool): (j: Json)
    ensures forall old_value: bool {:trigger FromJsonBool(j, old_value)} :: FromJsonBool(j, old_value) == (true, v)
  {
    JBool(v)
  }

  // ---------------------------------------------------------------------
  // Vectors

  /** toJson(QVector<T>): an array of the values' encodings, same length and order. */
  method ToJsonVector<T>(values: seq<T>, enc: T -> Json) returns (j: Json)
    ensures j == JArray(JsonTemplates.Encoded(values, enc))
  {
    var arr: seq<Json> := [];
    var i := 0;
    while i < |values|
      invariant 0 <= i <= |values|
      invariant arr == JsonTemplates.Encoded(values[..i], enc)
    {
      assert values[..i + 1][..i] == values[..i];
      arr := arr + [enc(values[i])];
      i := i + 1;
    }
    assert values[..i] == values;
    j := JArray(arr);
  }

  /**
   * An element decoder that writes the whole value: whether it succeeds, and
   * what it writes, do not depend on what the out-parameter held before.
   * All the primitive fromJson functions are such decoders.
   */
  ghost predicate Overwrites<T(!new)>(dec: (Json, T) -> (bool, T))
  {
    forall j, t, u :: dec(j, t).0 == dec(j, u).0 && (dec(j, t).0 ==> dec(j, t).1 == dec(j, u).1)
  }

  /**
   * The loop of fromJson(QVector<T>) over the first n elements: one
   * out-parameter tVal is reused for every element, and the first failure
   * ends the loop. The result is (success, collected, tVal).
   */
  function ReadElements<T(!new)>(elems: seq<Json>, dec: (Json, T) -> (bool, T), tVal: T, n: nat): (r: (bool, seq<T>, T))
    requires n <= |elems|
    ensures r.0 ==> |r.1| == n
    ensures Overwrites(dec) ==> (r.0 <==> forall k :: 0 <= k < n ==> dec(elems[k], tVal).0)
    ensures Overwrites(dec) && r.0 ==> forall k :: 0 <= k < n ==> r.1[k] == dec(elems[k], tVal).1
  {
    if n == 0 then (true, [], tVal)
    else
      var (ok, ret, t) := ReadElements(elems, dec, tVal, n - 1);
      if !ok then (false, ret, t)
      else
        var (okElement, next) := dec(elems[n - 1], t);
        if !okElement then (false, ret, next) else (true, ret + [next], next)
  }

  /** fromJson(json, QVector<T> &values): all or nothing; values is untouched unless every element decoded. */
  function FromJsonVectorSpec<T(!new)>(j: Json, values: seq<T>, dec: (Json, T) -> (bool, T), tVal: T): (bool, seq<T>)
  {
    if !j.JArray? then (false, values)
    else
      var r := ReadElements(j.elems, dec, tVal, |j.elems|);
      if r.0 then (true, r.1) else (false, values)
  }

  /** fromJson(json, QVector<T> &values) as the loop; tVal is what `T tVal;` default-constructs. */
  method FromJsonVector<T(!new)>(j: Json, values: seq<T>, dec: (Json, T) -> (bool, T), tVal: T) returns (ok: bool, out: seq<T>)
    ensures (ok, out) == FromJsonVectorSpec(j, values, dec, tVal)
    ensures !ok ==> out == values
  {
    if !j.JArray? {
      return false, values;
    }
    var arr := j.elems;
    var ret: seq<T> := [];
    var t := tVal;
    var i := 0;
    while i < |arr|
      invariant 0 <= i <= |arr|
      invariant ReadElements(arr, dec, tVal, i) == (true, ret, t)
    {
      var (okElement, next) := dec(arr[i], t);
      if !okElement {
        ReadStopsAtFailure(arr, dec, tVal, i + 1, |arr|);
        return false, values;
      }
      ret := ret + [next];
      t := next;
      i := i + 1;
    }
    return true, ret;
  }

  lemma {:induction false} ReadStopsAtFailure<T(!new)>(elems: seq<Json>, dec: (Json, T) -> (bool, T), tVal: T, n: nat, m: nat)
    requires n <= m <= |elems| && !ReadElements(elems, dec, tVal, n).0
    ensures !ReadElements(elems, dec, tVal, m).0
    decreases m
  {
    if m > n {
      ReadStopsAtFailure(elems, dec, tVal, n, m - 1);
    }
  }

  /**
   * With a decoder that writes the whole value, a vector written by toJson is
   * read back by fromJson whatever values held before.
   */
  lemma VectorRoundTrip<T(!new)>(vs: seq<T>, values: seq<T>, enc: T -> Json, dec: (Json, T) -> (bool, T), tVal: T)
    requires Overwrites(dec)
    requires forall v, t :: dec(enc(v), t) == (true, v)
    ensures FromJsonVectorSpec(JArray(JsonTemplates.Encoded(vs, enc)), values, dec, tVal) == (true, vs)
  {
    var js := JsonTemplates.Encoded(vs, enc);
    var r := ReadElements(js, dec, tVal, |js|);
    assert forall k :: 0 <= k < |js| ==> dec(js[k], tVal) == (true, vs[k]);
    assert r.0;
    assert r.1 == vs;
  }

  /** The string decoder writes the whole value. */
  lemma StringDecoderOverwrites()
    ensures Overwrites(FromJsonString)
  {
  }
}
