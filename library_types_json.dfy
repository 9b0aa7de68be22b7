// The JSON form of an ItemCollection in the shared library
// (src/shared/library_types.hpp): an object with the id counter under
// "nextId" and the (id, item) pairs under "entries", in the hash's
// iteration order.
module CollectionJson {

  import opened Wrappers
  import opened JsonConv
  import opened LibraryTypes
  import JsonTemplates

  /** An id written as JSON: through qint64, so every quint32 id is kept. */
  function KeyJson(k: nat): (j: Json)
    ensures k < U32Range ==> DejsonU32(j) == Ok(k)
  {
    JNumber(k)
  }

  /** The pair written for one entry: {"first": id, "second": item}. */
  function EntryJson<T>(items: map<nat, T>, k: nat, enc: T -> Json): Json
    requires k in items
  {
    JsonTemplates.EnjsonPair(k, items[k], KeyJson, enc)
  }

  /** The entries array for the keys in order. */
  function EntriesJson<T>(items: map<nat, T>, order: seq<nat>, enc: T -> Json): (js: seq<Json>)
    requires forall k :: k in order ==> k in items
    ensures |js| == |order| && forall i :: 0 <= i < |order| ==> js[i] == EntryJson(items, order[i], enc)
  {
    seq(|order|, i requires 0 <= i < |order| => EntryJson(items, order[i], enc))
  }

  /** One more key adds its pair at the end. */
  lemma EntriesSnoc<T>(items: map<nat, T>, order: seq<nat>, enc: T -> Json, i: nat)
    requires forall k :: k in order ==> k in items
    requires i < |order|
    ensures EntriesJson(items, order[..i + 1], enc) == EntriesJson(items, order[..i], enc) + [EntryJson(items, order[i], enc)]
  {
    var longer := EntriesJson(items, order[..i + 1], enc);
    var shorter := EntriesJson(items, order[..i], enc) + [EntryJson(items, order[i], enc)];
    forall k | 0 <= k < |longer|
      ensures longer[k] == shorter[k]
    {
      assert order[..i + 1][k] == order[k];
    }
    assert longer == shorter;
  }

  function CollectionJsonSpec<T>(c: Items<T>, order: seq<nat>, enc: T -> Json): Json
    requires c.nextId < U32Range && forall k :: k in order ==> k in c.items
  {
    JObject(map["nextId" := JNumber(c.nextId), "entries" := JArray(EntriesJson(c.items, order, enc))])
  }

  /** enjson(ItemCollection): the loop appending one pair per entry, then the object with the counter. */
  method EnjsonCollection<T>(c: Items<T>, order: seq<nat>, enc: T -> Json) returns (j: Json)
    requires c.nextId < U32Range
    requires Enumerates(order, c.items.Keys)
    ensures j == CollectionJsonSpec(c, order, enc)
    ensures j.JObject? && j.members.Keys == {"nextId", "entries"}
  {
    var entries: seq<Json> := [];
    var i := 0;
    while i < |order|
      invariant 0 <= i <= |order|
      invariant entries == EntriesJson(c.items, order[..i], enc)
    {
      EntriesSnoc(c.items, order, enc, i);
      entries := entries + [JsonTemplates.EnjsonPair(order[i], c.items[order[i]], KeyJson, enc)];
      i := i + 1;
    }
    assert order[..i] == order;
    j := JObject(map["nextId" := EnjsonU32(c.nextId), "entries" := JArray(entries)]);
  }

  /** The hash the dejson loop fills: each pair stored with operator[], later pairs overwriting earlier ones. */
  function Filled<T>(entries: seq<(nat, T)>): (m: map<nat, T>)
    ensures forall k :: k in m <==> exists i :: 0 <= i < |entries| && entries[i].0 == k
  {
    if entries == [] then map[]
    else
      var front := Filled(entries[..|entries| - 1]);
      var last := entries[|entries| - 1];
      assert forall i :: 0 <= i < |entries| - 1 ==> entries[..|entries| - 1][i] == entries[i];
      front[last.0 := last.1]
  }

  /** The decoder of one entry: a pair of a quint32 id and an item. */
  function EntryDecoder<T>(dec: Json -> Result<T, EnjsonError>): Json -> Result<(nat, T), EnjsonError>
  {
    e => JsonTemplates.DejsonPair(e, DejsonU32, dec)
  }

  function EntriesDecoder<T>(dec: Json -> Result<T, EnjsonError>): Json -> Result<seq<(nat, T)>, EnjsonError>
  {
    v => JsonTemplates.DejsonVectorSpec(v, EntryDecoder(dec))
  }

  /**
   * dejson(ItemCollection) on values: "nextId" first, then "entries"; each
   * missing member or decoding error is passed on. The counter is taken as
   * written, without comparing it to the ids.
   */
  function DejsonCollectionSpec<T>(j: Json, dec: Json -> Result<T, EnjsonError>): (r: Result<Items<T>, EnjsonError>)
    ensures !(j.JObject? && "nextId" in j.members) ==> r == Err(MissingMemberError("nextId"))
    ensures j.JObject? && "nextId" in j.members && !j.members["nextId"].JNumber? && !j.members["nextId"].JUndefined?
      ==> r == Err(TypeError(DoubleType, TypeOf(j.members["nextId"])))
    ensures j.JObject? && "nextId" in j.members && j.members["nextId"].JNumber? && "entries" !in j.members
      ==> r == Err(MissingMemberError("entries"))
    ensures r.Ok? ==> (
      && j.JObject? && "nextId" in j.members && j.members["nextId"].JNumber?
      && r.value.nextId == j.members["nextId"].n % U32Range)
  {
    match JsonTemplates.GetMember(j, "nextId", DejsonU32)
    case Err(e) => Err(e)
    case Ok(nextId) =>
      match JsonTemplates.GetMember(j, "entries", EntriesDecoder(dec))
      case Err(e) => Err(e)
      case Ok(entries) => Ok(Items(Filled(entries), nextId))
  }

  /** dejson(ItemCollection): the members fetched as DEJSON_GET_MEMBER does, then the fill loop. */
  method DejsonCollection<T>(j: Json, dec: Json -> Result<T, EnjsonError>) returns (r: Result<Items<T>, EnjsonError>)
    ensures r == DejsonCollectionSpec(j, dec)
  {
    var nextIdJson := Member(j, "nextId");
    if nextIdJson.JUndefined? {
      return Err(MissingMemberError("nextId"));
    }
    var nextId := DejsonU32(nextIdJson);
    if nextId.Err? {
      return Err(nextId.error);
    }
    var entriesJson := Member(j, "entries");
    if entriesJson.JUndefined? {
      return Err(MissingMemberError("entries"));
    }
    var entries := JsonTemplates.DejsonVector(entriesJson, EntryDecoder(dec));
    if entries.Err? {
      return Err(entries.error);
    }
    var es := entries.value;
    var ret: map<nat, T> := map[];
    var i := 0;
    while i < |es|
      invariant 0 <= i <= |es|
      invariant ret == Filled(es[..i])
    {
      assert es[..i + 1][..i] == es[..i];
      ret := ret[es[i].0 := es[i].1];
      i := i + 1;
    }
    assert es[..i] == es;
    return Ok(Items(ret, nextId.value));
  }

  /** With distinct ids, each id is stored with its own item. */
  lemma {:induction false} FilledDistinct<T>(entries: seq<(nat, T)>)
    requires forall i, j :: 0 <= i < j < |entries| ==> entries[i].0 != entries[j].0
    ensures forall i :: 0 <= i < |entries| ==> Filled(entries)[entries[i].0] == entries[i].1
  {
    if entries != [] {
      var front := entries[..|entries| - 1];
      FilledDistinct(front);
      forall i | 0 <= i < |entries| - 1
        ensures Filled(entries)[entries[i].0] == entries[i].1
      {
        assert front[i] == entries[i];
      }
    }
  }

  /** The (id, item) pairs of the keys in order. */
  function Pairs<T>(items: map<nat, T>, order: seq<nat>): (ps: seq<(nat, T)>)
    requires forall k :: k in order ==> k in items
    ensures |ps| == |order| && forall i :: 0 <= i < |order| ==> ps[i] == (order[i], items[order[i]])
  {
    seq(|order|, i requires 0 <= i < |order| => (order[i], items[order[i]]))
  }

  /** The entries array decodes to the pairs it was written from. */
  lemma EntriesDecode<T>(items: map<nat, T>, order: seq<nat>, enc: T -> Json, dec: Json -> Result<T, EnjsonError>)
    requires forall k :: k in order ==> k in items && k < U32Range
    requires forall v :: dec(enc(v)) == Ok(v)
    ensures JsonTemplates.DejsonVectorSpec(JArray(EntriesJson(items, order, enc)), EntryDecoder(dec)) == Ok(Pairs(items, order))
  {
    var js := EntriesJson(items, order, enc);
    var pairs := Pairs(items, order);
    forall i | 0 <= i < |order|
      ensures EntryDecoder(dec)(js[i]) == Ok(pairs[i])
    {
      JsonTemplates.PairRoundTrip(order[i], items[order[i]], KeyJson, enc, DejsonU32, dec);
    }
    var r := JsonTemplates.DecodePrefix(js, EntryDecoder(dec), |js|);
    assert r.Ok?;
    assert r.value == pairs;
  }

  /**
   * A collection written by enjson is read back by dejson, whatever the
   * iteration order, when its ids and counter fit in a quint32 and items
   * round-trip.
   */
  lemma CollectionRoundTrip<T>(c: Items<T>, order: seq<nat>, enc: T -> Json, dec: Json -> Result<T, EnjsonError>)
    requires c.nextId < U32Range && forall k :: k in c.items ==> k < U32Range
    requires Enumerates(order, c.items.Keys)
    requires forall v :: dec(enc(v)) == Ok(v)
    ensures DejsonCollectionSpec(CollectionJsonSpec(c, order, enc), dec) == Ok(c)
  {
    var j := CollectionJsonSpec(c, order, enc);
    var pairs := Pairs(c.items, order);
    NextIdDecodes(c, order, enc);
    EntriesMemberDecodes(c, order, enc, dec);
    FilledPairs(c.items, order);
    assert DejsonCollectionSpec(j, dec) == Ok(Items(Filled(pairs), c.nextId));
  }

  /** The counter written is the counter read. */
  lemma NextIdDecodes<T>(c: Items<T>, order: seq<nat>, enc: T -> Json)
    requires c.nextId < U32Range && forall k :: k in order ==> k in c.items
    ensures JsonTemplates.GetMember(CollectionJsonSpec(c, order, enc), "nextId", DejsonU32) == Ok(c.nextId)
  {
    var j := CollectionJsonSpec(c, order, enc);
    assert DejsonU32(KeyJson(c.nextId)) == Ok(c.nextId);
    assert j.members["nextId"] == KeyJson(c.nextId);
  }

  /** The entries written are the pairs read. */
  lemma EntriesMemberDecodes<T>(c: Items<T>, order: seq<nat>, enc: T -> Json, dec: Json -> Result<T, EnjsonError>)
    requires c.nextId < U32Range && forall k :: k in order ==> k in c.items && k < U32Range
    requires forall v :: dec(enc(v)) == Ok(v)
    ensures JsonTemplates.GetMember(CollectionJsonSpec(c, order, enc), "entries", EntriesDecoder(dec)) == Ok(Pairs(c.items, order))
  {
    var j := CollectionJsonSpec(c, order, enc);
    EntriesDecode(c.items, order, enc, dec);
    assert j.members["entries"] == JArray(EntriesJson(c.items, order, enc));
  }

  /** Filling the hash from the pairs of an enumeration of the keys gives back the hash. */
  lemma FilledPairs<T>(items: map<nat, T>, order: seq<nat>)
    requires Enumerates(order, items.Keys)
    ensures Filled(Pairs(items, order)) == items
  {
    var pairs := Pairs(items, order);
    FilledDistinct(pairs);
    forall k | k in items
      ensures k in Filled(pairs) && Filled(pairs)[k] == items[k]
    {
      var i :| 0 <= i < |order| && order[i] == k;
      assert pairs[i].0 == k;
    }
  }

  /**
   * dejson takes the counter as written: a collection with the id 5 and the
   * counter 1 is accepted, although create() would then hand out ids up to
   * 5 again.
   */
  lemma DejsonTrustsCounter<T>(item: Json, v: T, dec: Json -> Result<T, EnjsonError>)
    requires dec(item) == Ok(v)
    ensures var j := JObject(map["nextId" := JNumber(1), "entries" := JArray([JObject(map["first" := JNumber(5), "second" := item])])]);
      var r := DejsonCollectionSpec(j, dec);
      r.Ok? && 5 in r.value.items && r.value.nextId == 1 && !WellNumbered(r.value)
  {
    var pair := JObject(map["first" := JNumber(5), "second" := item]);
    assert EntryDecoder(dec)(pair) == Ok((5, v));
    var r := JsonTemplates.DecodePrefix([pair], EntryDecoder(dec), 1);
    assert [pair][0] == pair;
    assert r.Ok? && r.value == [(5, v)];
  }
}
