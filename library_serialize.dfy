// The hex library id and the JSON reader of the shared library
// (src/shared/library_serialize.cpp). Ids, positions and revisions are
// quint32 in the source: a JSON number is read as an int and then converted
// to quint32, which is reduction modulo 2^32; writing goes back through int.
module LibrarySerialize {

  import opened Wrappers
  import opened JsonConv
  import opened LibraryTypes
  import LM = LibraryModel
  import DbJson

  // ---------------------------------------------------------------------
  // 32-bit conversions

  /** An int converted to quint32. */
  function Unsigned(n: int): (u: nat)
    ensures u < U32Range
  {
    n % U32Range
  }

  /** A quint32 converted to int: values from 2^31 up wrap to negative numbers. */
  function Signed(v: nat): (n: int)
    requires v < U32Range
    ensures -0x8000_0000 <= n < 0x8000_0000
    ensures Unsigned(n) == v
  {
    if v < 0x8000_0000 then v else v - U32Range
  }

  // ---------------------------------------------------------------------
  // Hex digits

  predicate IsHexDigit(c: char)
  {
    ('0' <= c <= '9') || ('a' <= c <= 'f') || ('A' <= c <= 'F')
  }

  /** fromDigit: the value of a hex digit of either case; num is untouched for any other character. */
  function FromDigit(c: char, num: nat): (r: (bool, nat))
    ensures r.0 <==> IsHexDigit(c)
    ensures !r.0 ==> r.1 == num
    ensures r.0 ==> r.1 < 16
  {
    if '0' <= c <= '9' then (true, c as int - '0' as int)
    else if 'a' <= c <= 'f' then (true, 10 + (c as int - 'a' as int))
    else if 'A' <= c <= 'F' then (true, 10 + (c as int - 'A' as int))
    else (false, num)
  }

  /** An upper-case digit reads like its lower-case form. */
  lemma FromDigitIgnoresCase(c: char, num: nat)
    requires 'A' <= c <= 'F'
    ensures FromDigit(c, num) == FromDigit((c as int + 32) as char, num)
  {
  }

  /** toDigit: a lower-case hex digit, read back by fromDigit as n. */
  function ToDigit(n: nat): (c: char)
    requires n < 16
    ensures ('0' <= c <= '9') || ('a' <= c <= 'f')
    ensures forall num: nat {:trigger FromDigit(c, num)} :: FromDigit(c, num) == (true, n)
  {
    if n < 10 then ('0' as int + n) as char else ('a' as int + (n - 10)) as char
  }

  // ---------------------------------------------------------------------
  // LibraryId

  newtype byte = x: int | 0 <= x < 256

  /** LibraryId::LENGTH. */
  const LENGTH: nat := 8

  /** Two lower-case hex digits per byte, high nibble first. */
  function HexOf(b: seq<byte>): (s: string)
    ensures |s| == 2 * |b|
    ensures forall i :: 0 <= i < |b| ==> s[2 * i] == ToDigit(b[i] as int / 16) && s[2 * i + 1] == ToDigit(b[i] as int % 16)
  {
    if b == [] then []
    else
      var front := b[..|b| - 1];
      var last := b[|b| - 1] as int;
      assert forall i :: 0 <= i < |front| ==> front[i] == b[i];
      HexOf(front) + [ToDigit(last / 16), ToDigit(last % 16)]
  }

  /** Both characters of the i-th pair are hex digits. */
  predicate PairOk(s: string, i: int)
  {
    0 <= i && 2 * i + 1 < |s| && IsHexDigit(s[2 * i]) && IsHexDigit(s[2 * i + 1])
  }

  /** The byte the i-th pair of digits stands for. */
  function PairValue(s: string, i: int): byte
    requires PairOk(s, i)
  {
    (16 * FromDigit(s[2 * i], 0).1 + FromDigit(s[2 * i + 1], 0).1) as byte
  }

  /** A string fromString accepts: 2 * LENGTH hex digits of either case. */
  predicate ValidHex(s: string)
  {
    |s| == 2 * LENGTH && forall i :: 0 <= i < LENGTH ==> PairOk(s, i)
  }

  /** The bytes a valid hex string stands for. */
  function DecodeHex(s: string): (b: seq<byte>)
    requires ValidHex(s)
    ensures |b| == LENGTH && forall i :: 0 <= i < LENGTH ==> b[i] == PairValue(s, i)
  {
    seq(LENGTH, i requires 0 <= i < LENGTH && ValidHex(s) => PairValue(s, i))
  }

  /** The hex text of any id is valid and reads back as the same bytes. */
  lemma HexRoundTrip(b: seq<byte>)
    requires |b| == LENGTH
    ensures ValidHex(HexOf(b)) && DecodeHex(HexOf(b)) == b
  {
    var s := HexOf(b);
    forall i | 0 <= i < LENGTH
      ensures PairOk(s, i) && PairValue(s, i) == b[i]
    {
      var x := b[i] as int;
      assert s[2 * i] == ToDigit(x / 16) && s[2 * i + 1] == ToDigit(x % 16);
      assert FromDigit(s[2 * i], 0) == (true, x / 16);
      assert FromDigit(s[2 * i + 1], 0) == (true, x % 16);
    }
  }

  /** One more byte adds its two digits at the end. */
  lemma HexSnoc(b: seq<byte>, i: nat)
    requires i < |b|
    ensures HexOf(b[..i + 1]) == HexOf(b[..i]) + [ToDigit(b[i] as int / 16)] + [ToDigit(b[i] as int % 16)]
  {
    assert b[..i + 1][..i] == b[..i];
  }

  /** A LibraryId: a fixed array of LENGTH bytes. */
  class LibraryId {
    const bytes: array<byte>

    ghost predicate Valid()
      reads this
    {
      bytes.Length == LENGTH
    }

    constructor (b: seq<byte>)
      requires |b| == LENGTH
      ensures Valid() && bytes[..] == b && fresh(bytes)
    {
      bytes := new byte[LENGTH] (i requires 0 <= i < LENGTH => b[i]);
    }

    /** toString: the bytes as 2 * LENGTH lower-case hex digits, high nibble first. */
    method ToString() returns (s: string)
      requires Valid()
      ensures s == HexOf(bytes[..])
    {
      s := [];
      var i := 0;
      while i < LENGTH
        invariant 0 <= i <= LENGTH
        invariant s == HexOf(bytes[..i])
      {
        HexSnoc(bytes[..], i);
        s := s + [ToDigit(bytes[i] as int / 16)] + [ToDigit(bytes[i] as int % 16)];
        i := i + 1;
      }
      assert bytes[..i] == bytes[..];
    }

    /**
     * fromString: a string of the wrong length is refused without touching
     * the bytes. Otherwise the pairs are read in order; the first pair that
     * is not two hex digits stops the reading, and the bytes before it have
     * already been overwritten.
     */
    method FromString(s: string) returns (ok: bool)
      requires Valid()
      modifies bytes
      ensures |s| != 2 * LENGTH ==> !ok && bytes[..] == old(bytes[..])
      ensures ok <==> ValidHex(s)
      ensures ok ==> bytes[..] == DecodeHex(s)
      ensures !ok && |s| == 2 * LENGTH ==> exists i :: (
        && 0 <= i < LENGTH && !PairOk(s, i)
        && (forall k :: 0 <= k < i ==> PairOk(s, k) && bytes[k] == PairValue(s, k))
        && forall k :: i <= k < LENGTH ==> bytes[k] == old(bytes[k]))
    {
      if |s| != 2 * LENGTH {
        return false;
      }
      var i := 0;
      while i < LENGTH
        invariant 0 <= i <= LENGTH
        invariant forall k :: 0 <= k < i ==> PairOk(s, k) && bytes[k] == PairValue(s, k)
        invariant forall k :: i <= k < LENGTH ==> bytes[k] == old(bytes[k])
      {
        var (okHigh, high) := FromDigit(s[2 * i], 0);
        var (okLow, low) := FromDigit(s[2 * i + 1], 0);
        if !okHigh || !okLow {
          assert !PairOk(s, i);
          return false;
        }
        bytes[i] := (16 * high + low) as byte;
        i := i + 1;
      }
      assert bytes[..] == DecodeHex(s);
      return true;
    }

    /** operator==: byte by byte. */
    method Equals(other: LibraryId) returns (eq: bool)
      requires Valid() && other.Valid()
      ensures eq <==> bytes[..] == other.bytes[..]
    {
      var i := 0;
      while i < LENGTH
        invariant 0 <= i <= LENGTH
        invariant forall k :: 0 <= k < i ==> bytes[k] == other.bytes[k]
      {
        if bytes[i] != other.bytes[i] {
          assert bytes[..][i] != other.bytes[..][i];
          return false;
        }
        i := i + 1;
      }
      assert bytes[..] == other.bytes[..];
      return true;
    }
  }

  // ---------------------------------------------------------------------
  // Changes

  /** A LibraryChange as the JSON code sees it; the type is the raw enum number. */
  datatype SerialChange = SerialChange(changeType: nat, subject: nat, detail: nat, name: string)

  datatype SerialCommitted = SerialCommitted(change: SerialChange, revision: nat)

  predicate Fits(c: SerialChange)
  {
    c.changeType < U32Range && c.subject < U32Range && c.detail < U32Range
  }

  /** JSON_REQUIRE_INT: the member must exist and be a number. */
  function RequireInt(obj: map<string, Json>, tag: string): (r: Option<int>)
    ensures r.Some? <==> tag in obj && obj[tag].JNumber?
  {
    if tag in obj && obj[tag].JNumber? then Some(obj[tag].n) else None
  }

  /** JSON_REQUIRE_STRING: the member must exist and be a string. */
  function RequireString(obj: map<string, Json>, tag: string): (r: Option<string>)
    ensures r.Some? <==> tag in obj && obj[tag].JString?
  {
    if tag in obj && obj[tag].JString? then Some(obj[tag].s) else None
  }

  function ChangeMembers(c: SerialChange): map<string, Json>
    requires Fits(c)
  {
    map["type" := JNumber(Signed(c.changeType)), "subject" := JNumber(Signed(c.subject)),
        "detail" := JNumber(Signed(c.detail)), "name" := JString(c.name)]
  }

  /** toJson(LibraryChange): the four fields, numbers written as int. */
  function ChangeToJson(c: SerialChange): (j: Json)
    requires Fits(c)
    ensures j.JObject? && j.members.Keys == {"type", "subject", "detail", "name"}
  {
    JObject(ChangeMembers(c))
  }

  /**
   * fromJson(LibraryChange): an object with numbers under "type", "subject"
   * and "detail" and a string under "name"; change is untouched otherwise.
   */
  function ChangeFromJson(j: Json, change: SerialChange): (r: (bool, SerialChange))
    ensures r.0 <==> (
      && j.JObject?
      && RequireInt(j.members, "type").Some? && RequireInt(j.members, "subject").Some?
      && RequireInt(j.members, "detail").Some? && RequireString(j.members, "name").Some?)
    ensures !r.0 ==> r.1 == change
    ensures r.0 ==> Fits(r.1)
  {
    if !j.JObject? then (false, change)
    else
      var obj := j.members;
      match (RequireInt(obj, "type"), RequireInt(obj, "subject"), RequireInt(obj, "detail"), RequireString(obj, "name"))
      case (Some(tp), Some(subject), Some(detail), Some(name)) =>
        (true, SerialChange(Unsigned(tp), Unsigned(subject), Unsigned(detail), name))
      case _ => (false, change)
  }

  /** A change written by toJson is read back by fromJson. */
  lemma ChangeRoundTrip(c: SerialChange, change: SerialChange)
    requires Fits(c)
    ensures ChangeFromJson(ChangeToJson(c), change) == (true, c)
  {
  }

  /** toJson(CommittedLibraryChange): the change's members plus "revision". */
  function CommittedToJson(c: SerialCommitted): (j: Json)
    requires Fits(c.change) && c.revision < U32Range
    ensures j.JObject? && j.members.Keys == {"type", "subject", "detail", "name", "revision"}
  {
    JObject(ChangeMembers(c.change)["revision" := JNumber(Signed(c.revision))])
  }

  /** fromJson(CommittedLibraryChange): a readable change plus a numeric "revision"; untouched otherwise. */
  function CommittedFromJson(j: Json, change: SerialCommitted): (r: (bool, SerialCommitted))
    ensures r.0 <==> ChangeFromJson(j, change.change).0 && RequireInt(j.members, "revision").Some?
    ensures !r.0 ==> r.1 == change
    ensures r.0 ==> r.1.change == ChangeFromJson(j, change.change).1
  {
    if !j.JObject? then (false, change)
    else
      var (ok, ch) := ChangeFromJson(j, change.change);
      if !ok then (false, change)
      else
        match RequireInt(j.members, "revision")
        case None => (false, change)
        case Some(rev) => (true, SerialCommitted(ch, Unsigned(rev)))
  }

  /** A committed change written by toJson is read back by fromJson. */
  lemma CommittedRoundTrip(c: SerialCommitted, change: SerialCommitted)
    requires Fits(c.change) && c.revision < U32Range
    ensures CommittedFromJson(CommittedToJson(c), change) == (true, c)
  {
    var m := ChangeMembers(c.change)["revision" := JNumber(Signed(c.revision))];
    assert RequireInt(m, "type") == Some(Signed(c.change.changeType));
    assert RequireInt(m, "subject") == Some(Signed(c.change.subject));
    assert RequireInt(m, "detail") == Some(Signed(c.change.detail));
    assert RequireString(m, "name") == Some(c.change.name);
  }

  // ---------------------------------------------------------------------
  // Collections

  /** fromJson(json, TagId &): a number, converted to quint32; tag untouched otherwise. */
  function TagIdFromJson(j: Json, tag: nat): (r: (bool, nat))
    ensures r.0 <==> j.JNumber?
    ensures !r.0 ==> r.1 == tag
  {
    var (ok, id) := DbJson.FromJsonInt(j, 0);
    if ok then (true, Unsigned(id)) else (false, tag)
  }

  /** JSON_REQUIRE_TAGS: obj["tags"] read as a vector of tag ids. */
  function TagIds(obj: map<string, Json>): Option<seq<nat>>
  {
    var (ok, ids) := DbJson.FromJsonVectorSpec(Member(JObject(obj), "tags"), [], TagIdFromJson, 0);
    if ok then Some(ids) else None
  }

  /** The tag reader: a name and a parent; the reverse lists start empty. */
  function ReadTag(obj: map<string, Json>): (r: Option<LM.Tag>)
    ensures r.Some? ==> r.value.children == [] && r.value.songs == [] && r.value.albums == [] && r.value.artists == []
  {
    match (RequireString(obj, "name"), RequireInt(obj, "parent"))
    case (Some(name), Some(parent)) => Some(LM.Tag(name, Unsigned(parent), [], [], [], []))
    case _ => None
  }

  function ReadEnding(obj: map<string, Json>): Option<string>
  {
    RequireString(obj, "ending")
  }

  /** The artist reader: a name and tags; the album list starts empty. */
  function ReadArtist(obj: map<string, Json>): (r: Option<LM.Artist>)
    ensures r.Some? ==> r.value.albums == []
  {
    match (RequireString(obj, "name"), TagIds(obj))
    case (Some(name), Some(tags)) => Some(LM.Artist(name, [], tags))
    case _ => None
  }

  /** The album reader: a name, an artist and tags; the song list starts empty. */
  function ReadAlbum(obj: map<string, Json>): (r: Option<LM.Album>)
    ensures r.Some? ==> r.value.songs == []
  {
    match (RequireString(obj, "name"), RequireInt(obj, "artist"), TagIds(obj))
    case (Some(name), Some(artist), Some(tags)) => Some(LM.Album(name, Unsigned(artist), [], tags))
    case _ => None
  }

  function ReadSong(obj: map<string, Json>): Option<LM.Song>
  {
    match (RequireString(obj, "name"), RequireInt(obj, "album"), RequireInt(obj, "fileEnding"),
           RequireInt(obj, "position"), RequireInt(obj, "secs"), TagIds(obj))
    case (Some(name), Some(album), Some(ending), Some(pos), Some(secs), Some(tags)) =>
      Some(LM.Song(name, Unsigned(album), Unsigned(ending), Unsigned(pos), Unsigned(secs), tags))
    case _ => None
  }

  /** One element of a collection array: an object with a numeric "id" that the reader accepts. */
  function Entry<T>(j: Json, reader: map<string, Json> -> Option<T>): Option<(nat, T)>
  {
    if !j.JObject? then None
    else
      match (RequireInt(j.members, "id"), reader(j.members))
      case (Some(id), Some(item)) => Some((Unsigned(id), item))
      case _ => None
  }

  /** The first n elements read in order; None as soon as one of them is not an entry. */
  function ReadEntries<T>(elems: seq<Json>, reader: map<string, Json> -> Option<T>, n: nat): (r: Option<seq<(nat, T)>>)
    requires n <= |elems|
    ensures r.Some? <==> forall k :: 0 <= k < n ==> Entry(elems[k], reader).Some?
    ensures r.Some? ==> |r.value| == n && forall k :: 0 <= k < n ==> Entry(elems[k], reader) == Some(r.value[k])
  {
    if n == 0 then Some([])
    else
      match (ReadEntries(elems, reader, n - 1), Entry(elems[n - 1], reader))
      case (Some(es), Some(e)) => Some(es + [e])
      case _ => None
  }

  /** The collection that add() builds from the entries, starting from an empty one. */
  function Collect<T>(es: seq<(nat, T)>): (c: Items<T>)
    ensures c.nextId >= 1 && forall k :: k in c.items ==> k < c.nextId
    ensures forall i :: 0 <= i < |es| ==> es[i].0 in c.items && es[i].0 < c.nextId
    ensures forall k :: k in c.items ==> exists i :: 0 <= i < |es| && es[i].0 == k
  {
    if es == [] then Items(map[], 1)
    else
      var c := Collect(es[..|es| - 1]);
      assert forall i :: 0 <= i < |es| - 1 ==> es[..|es| - 1][i] == es[i];
      AddItem(c, es[|es| - 1].0, es[|es| - 1].1)
  }

  /** The entries of a collection array in array order; None for a non-array or a bad element. */
  function Entries<T>(val: Json, reader: map<string, Json> -> Option<T>): Option<seq<(nat, T)>>
  {
    if !val.JArray? then None else ReadEntries(val.elems, reader, |val.elems|)
  }

  /** readJsonCollection: all or nothing, the output rebuilt through add(). */
  function ReadCollectionSpec<T>(val: Json, col: Items<T>, reader: map<string, Json> -> Option<T>): (bool, Items<T>)
  {
    match Entries(val, reader)
    case None => (false, col)
    case Some(es) => (true, Collect(es))
  }

  /**
   * readJsonCollection as the loop over the array: the collection is only
   * assigned after every element was read, so on failure it is untouched;
   * on success every id read is a key and lies below the new counter.
   */
  method ReadJsonCollection<T>(val: Json, col: Items<T>, reader: map<string, Json> -> Option<T>)
    returns (ok: bool, out: Items<T>, entries: seq<(nat, T)>)
    ensures (ok, out) == ReadCollectionSpec(val, col, reader)
    ensures !ok ==> out == col
    ensures ok ==> out.nextId >= 1 && forall k :: k in out.items ==> k < out.nextId
    ensures ok ==> Entries(val, reader) == Some(entries)
  {
    entries := [];
    if !val.JArray? {
      return false, col, [];
    }
    var arr := val.elems;
    var ret: Items<T> := Items(map[], 1);
    var es: seq<(nat, T)> := [];
    var i := 0;
    while i < |arr|
      invariant 0 <= i <= |arr|
      invariant ReadEntries(arr, reader, i) == Some(es) && ret == Collect(es)
    {
      var value := arr[i];
      if !value.JObject? {
        EntriesStopAtFailure(arr, reader, i + 1, |arr|);
        return false, col, [];
      }
      var obj := value.members;
      var id := RequireInt(obj, "id");
      if id.None? {
        EntriesStopAtFailure(arr, reader, i + 1, |arr|);
        return false, col, [];
      }
      var newItem := reader(obj);
      if newItem.None? {
        EntriesStopAtFailure(arr, reader, i + 1, |arr|);
        return false, col, [];
      }
      var e := (Unsigned(id.value), newItem.value);
      assert Entry(value, reader) == Some(e);
      CollectSnoc(es, e);
      ret := AddItem(ret, e.0, e.1);
      es := es + [e];
      i := i + 1;
    }
    return true, ret, es;
  }

  lemma CollectSnoc<T>(es: seq<(nat, T)>, e: (nat, T))
    ensures Collect(es + [e]) == AddItem(Collect(es), e.0, e.1)
  {
    assert (es + [e])[..|es|] == es;
  }

  lemma {:induction false} EntriesStopAtFailure<T>(elems: seq<Json>, reader: map<string, Json> -> Option<T>, n: nat, m: nat)
    requires n <= m <= |elems| && ReadEntries(elems, reader, n).None?
    ensures ReadEntries(elems, reader, m).None?
    decreases m
  {
    if m > n {
      EntriesStopAtFailure(elems, reader, n, m - 1);
    }
  }

  // ---------------------------------------------------------------------
  // Reverse links

  /** The three item lists of a tag. */
  datatype TagList = SongList | AlbumList | ArtistList

  function ListOf(t: LM.Tag, l: TagList): seq<nat>
  {
    match l
    case SongList => t.songs
    case AlbumList => t.albums
    case ArtistList => t.artists
  }

  /** u is t with ids appended to its item lists and nothing else changed. */
  predicate Grows(t: LM.Tag, u: LM.Tag)
  {
    u.name == t.name && u.parent == t.parent && u.children == t.children
    && t.songs <= u.songs && t.albums <= u.albums && t.artists <= u.artists
  }

  lemma PrefixKeeps(s: seq<nat>, t: seq<nat>, x: nat)
    requires s <= t && x in s
    ensures x in t
  {
    var i :| 0 <= i < |s| && s[i] == x;
    assert t[i] == x;
  }

  lemma GrowsTrans(t: LM.Tag, u: LM.Tag, w: LM.Tag)
    requires Grows(t, u) && Grows(u, w)
    ensures Grows(t, w)
  {
    assert t.songs == w.songs[..|t.songs|] by { assert u.songs[..|t.songs|] == w.songs[..|u.songs|][..|t.songs|]; }
    assert t.albums == w.albums[..|t.albums|] by { assert u.albums[..|t.albums|] == w.albums[..|u.albums|][..|t.albums|]; }
    assert t.artists == w.artists[..|t.artists|] by { assert u.artists[..|t.artists|] == w.artists[..|u.artists|][..|t.artists|]; }
  }

  /** TAG_PUSH_ID: id appended to the chosen list of the tag, when the tag exists. */
  function PushTagId(tags: map<nat, LM.Tag>, tagId: nat, l: TagList, id: nat): (r: map<nat, LM.Tag>)
    ensures r.Keys == tags.Keys
    ensures forall d :: d in tags ==> Grows(tags[d], r[d])
    ensures tagId in tags ==> id in ListOf(r[tagId], l)
  {
    if tagId !in tags then tags
    else
      var t := tags[tagId];
      tags[tagId := match l
        case SongList => t.(songs := t.songs + [id])
        case AlbumList => t.(albums := t.albums + [id])
        case ArtistList => t.(artists := t.artists + [id])]
  }

  /** TAG_PUSH_IDS: id pushed to each of the item's tags, in the item's tag order. */
  function PushTagIds(tags: map<nat, LM.Tag>, ids: seq<nat>, l: TagList, id: nat): (r: map<nat, LM.Tag>)
    ensures r.Keys == tags.Keys
    ensures forall d :: d in tags ==> Grows(tags[d], r[d])
    ensures forall d :: d in ids && d in tags ==> id in ListOf(r[d], l)
  {
    if ids == [] then tags
    else
      var first := PushTagId(tags, ids[0], l, id);
      var r := PushTagIds(first, ids[1..], l, id);
      forall d | d in tags
        ensures Grows(tags[d], r[d])
      {
        GrowsTrans(tags[d], first[d], r[d]);
      }
      forall d | d == ids[0] && d in tags
        ensures id in ListOf(r[d], l)
      {
        PrefixKeeps(ListOf(first[d], l), ListOf(r[d], l), id);
      }
      r
  }

  /** The keys of order, in order, whose tag has parent q: what the fix-up appends to q's children. */
  function ChildrenIn(tags: map<nat, LM.Tag>, order: seq<nat>, q: nat): seq<nat>
  {
    if order == [] then []
    else
      var k := order[|order| - 1];
      ChildrenIn(tags, order[..|order| - 1], q) + (if k in tags && tags[k].parent == q then [k] else [])
  }

  /** The keys of order, in order, whose tag has parent 0: the root tags. */
  function RootsIn(tags: map<nat, LM.Tag>, order: seq<nat>): seq<nat>
  {
    if order == [] then []
    else
      var k := order[|order| - 1];
      RootsIn(tags, order[..|order| - 1]) + (if k in tags && tags[k].parent == 0 then [k] else [])
  }

  /**
   * The fix-up loop over the tags in hash order: each tag is pushed to its
   * parent's children when the parent exists, and listed as a root when its
   * parent is 0.
   */
  function FixUpTags(tags: map<nat, LM.Tag>, order: seq<nat>): (r: (map<nat, LM.Tag>, seq<nat>))
    ensures r.0.Keys == tags.Keys
  {
    if order == [] then (tags, [])
    else
      var (fixed, roots) := FixUpTags(tags, order[..|order| - 1]);
      var k := order[|order| - 1];
      if k !in fixed then (fixed, roots)
      else
        var p := fixed[k].parent;
        var pushed := if p in fixed then fixed[p := fixed[p].(children := fixed[p].children + [k])] else fixed;
        (pushed, if p == 0 then roots + [k] else roots)
  }

  /**
   * The fix-up appends to each tag's children exactly the keys of order
   * whose parent it is, and lists as roots exactly those whose parent is 0;
   * nothing else of a tag changes.
   */
  lemma {:induction false} FixUpTagsMeaning(tags: map<nat, LM.Tag>, order: seq<nat>)
    ensures forall q :: q in tags ==>
      FixUpTags(tags, order).0[q] == tags[q].(children := tags[q].children + ChildrenIn(tags, order, q))
    ensures FixUpTags(tags, order).1 == RootsIn(tags, order)
  {
    if order != [] {
      var front := order[..|order| - 1];
      FixUpTagsMeaning(tags, front);
      var fixed := FixUpTags(tags, front).0;
      var k := order[|order| - 1];
      var r := FixUpTags(tags, order).0;
      forall q | q in tags
        ensures r[q] == tags[q].(children := tags[q].children + ChildrenIn(tags, order, q))
      {
        assert ChildrenIn(tags, order, q) == ChildrenIn(tags, front, q) + (if k in tags && tags[k].parent == q then [k] else []);
      }
      assert RootsIn(tags, order) == RootsIn(tags, front) + (if k in tags && tags[k].parent == 0 then [k] else []);
    }
  }

  lemma {:induction false} ChildrenInMembers(tags: map<nat, LM.Tag>, order: seq<nat>, q: nat, k: nat)
    ensures k in ChildrenIn(tags, order, q) <==> k in order && k in tags && tags[k].parent == q
    ensures k in RootsIn(tags, order) <==> k in order && k in tags && tags[k].parent == 0
  {
    if order != [] {
      ChildrenInMembers(tags, order[..|order| - 1], q, k);
      assert order == order[..|order| - 1] + [order[|order| - 1]];
    }
  }

  /**
   * After the fix-up every tag sits in its parent's children when the parent
   * exists, among the roots when its parent is 0, and nowhere when its parent
   * is missing and not 0; and only children of a tag are added to its list.
   */
  lemma FixUpPlacesTags(tags: map<nat, LM.Tag>, order: seq<nat>, k: nat)
    requires Enumerates(order, tags.Keys)
    requires k in tags
    ensures var (fixed, roots) := FixUpTags(tags, order); var p := tags[k].parent;
      && (p in tags ==> k in fixed[p].children)
      && (k in roots <==> p == 0)
      && (forall q :: q in tags && q != p ==> k !in ChildrenIn(tags, order, q))
  {
    var p := tags[k].parent;
    FixUpTagsMeaning(tags, order);
    ChildrenInMembers(tags, order, p, k);
    forall q | q in tags && q != p
      ensures k !in ChildrenIn(tags, order, q)
    {
      ChildrenInMembers(tags, order, q, k);
    }
  }

  /**
   * The readers' tag pushes over a whole collection: for each entry, in array
   * order, its id pushed to the chosen list of each of its tags. An entry is
   * given as its id and its tag ids.
   */
  function LinkTags(tags: map<nat, LM.Tag>, es: seq<(nat, seq<nat>)>, l: TagList): (r: map<nat, LM.Tag>)
    ensures r.Keys == tags.Keys
    ensures forall d :: d in tags ==> Grows(tags[d], r[d])
    ensures forall i, d :: 0 <= i < |es| && d in es[i].1 && d in tags ==> es[i].0 in ListOf(r[d], l)
  {
    if es == [] then tags
    else
      var front := LinkTags(tags, es[..|es| - 1], l);
      var e := es[|es| - 1];
      var r := PushTagIds(front, e.1, l, e.0);
      forall d | d in tags
        ensures Grows(tags[d], r[d])
      {
        GrowsTrans(tags[d], front[d], r[d]);
      }
      forall i, d | 0 <= i < |es| - 1 && d in es[i].1 && d in tags
        ensures es[i].0 in ListOf(r[d], l)
      {
        assert es[..|es| - 1][i] == es[i];
        PrefixKeeps(ListOf(front[d], l), ListOf(r[d], l), es[i].0);
      }
      r
  }

  function ArtistTagRefs(es: seq<(nat, LM.Artist)>): (r: seq<(nat, seq<nat>)>)
    ensures |r| == |es| && forall i :: 0 <= i < |es| ==> r[i] == (es[i].0, es[i].1.tags)
  {
    seq(|es|, i requires 0 <= i < |es| => (es[i].0, es[i].1.tags))
  }

  function AlbumTagRefs(es: seq<(nat, LM.Album)>): (r: seq<(nat, seq<nat>)>)
    ensures |r| == |es| && forall i :: 0 <= i < |es| ==> r[i] == (es[i].0, es[i].1.tags)
  {
    seq(|es|, i requires 0 <= i < |es| => (es[i].0, es[i].1.tags))
  }

  function SongTagRefs(es: seq<(nat, LM.Song)>): (r: seq<(nat, seq<nat>)>)
    ensures |r| == |es| && forall i :: 0 <= i < |es| ==> r[i] == (es[i].0, es[i].1.tags)
  {
    seq(|es|, i requires 0 <= i < |es| => (es[i].0, es[i].1.tags))
  }

  /** The album reader's other push: each album id to its artist's albums, when the artist exists. */
  function LinkAlbumsToArtists(artists: map<nat, LM.Artist>, es: seq<(nat, LM.Album)>): (r: map<nat, LM.Artist>)
    ensures r.Keys == artists.Keys
    ensures forall a :: a in artists ==>
      (artists[a].albums <= r[a].albums && r[a].name == artists[a].name && r[a].tags == artists[a].tags)
    ensures forall i :: 0 <= i < |es| && es[i].1.artist in artists ==> es[i].0 in r[es[i].1.artist].albums
  {
    if es == [] then artists
    else
      var front := LinkAlbumsToArtists(artists, es[..|es| - 1]);
      var e := es[|es| - 1];
      var a := e.1.artist;
      var r := if a in front then front[a := front[a].(albums := front[a].albums + [e.0])] else front;
      forall i | 0 <= i < |es| - 1 && es[i].1.artist in artists
        ensures es[i].0 in r[es[i].1.artist].albums
      {
        assert es[..|es| - 1][i] == es[i];
        PrefixKeeps(front[es[i].1.artist].albums, r[es[i].1.artist].albums, es[i].0);
      }
      r
  }

  /** The song reader's other push: each song id to its album's songs, when the album exists. */
  function LinkSongsToAlbums(albums: map<nat, LM.Album>, es: seq<(nat, LM.Song)>): (r: map<nat, LM.Album>)
    ensures r.Keys == albums.Keys
    ensures forall a :: a in albums ==>
      (albums[a].songs <= r[a].songs && r[a].name == albums[a].name
       && r[a].artist == albums[a].artist && r[a].tags == albums[a].tags)
    ensures forall i :: 0 <= i < |es| && es[i].1.album in albums ==> es[i].0 in r[es[i].1.album].songs
  {
    if es == [] then albums
    else
      var front := LinkSongsToAlbums(albums, es[..|es| - 1]);
      var e := es[|es| - 1];
      var a := e.1.album;
      var r := if a in front then front[a := front[a].(songs := front[a].songs + [e.0])] else front;
      forall i | 0 <= i < |es| - 1 && es[i].1.album in albums
        ensures es[i].0 in r[es[i].1.album].songs
      {
        assert es[..|es| - 1][i] == es[i];
        PrefixKeeps(front[es[i].1.album].songs, r[es[i].1.album].songs, es[i].0);
      }
      r
  }

  // ---------------------------------------------------------------------
  // deserializeFromJson

  /** What `CommittedLibraryChange change;` holds before it is read into. */
  const BlankCommitted := SerialCommitted(SerialChange(0, 0, 0, ""), 0)

  /** The log loop over the first n entries: None as soon as one entry is not a committed change. */
  function ReadLog(log: seq<Json>, n: nat): (r: Option<seq<SerialCommitted>>)
    requires n <= |log|
    ensures r.Some? <==> forall k :: 0 <= k < n ==> CommittedFromJson(log[k], BlankCommitted).0
    ensures r.Some? ==> |r.value| == n && forall k :: 0 <= k < n ==> r.value[k] == CommittedFromJson(log[k], BlankCommitted).1
  {
    if n == 0 then Some([])
    else
      match ReadLog(log, n - 1)
      case None => None
      case Some(cs) =>
        var (ok, c) := CommittedFromJson(log[n - 1], BlankCommitted);
        if ok then Some(cs + [c]) else None
  }

  lemma {:induction false} LogStopsAtFailure(log: seq<Json>, n: nat, m: nat)
    requires n <= m <= |log| && ReadLog(log, n).None?
    ensures ReadLog(log, m).None?
    decreases m
  {
    if m > n {
      LogStopsAtFailure(log, n, m - 1);
    }
  }

  /** The tags after the artist, album and song readers' pushes, in that order. */
  function LinkedTags(fixed: map<nat, LM.Tag>, ars: seq<(nat, LM.Artist)>, als: seq<(nat, LM.Album)>, ss: seq<(nat, LM.Song)>)
    : (r: map<nat, LM.Tag>)
    ensures r.Keys == fixed.Keys
    ensures forall d :: d in fixed ==> Grows(fixed[d], r[d])
  {
    var withArtists := LinkTags(fixed, ArtistTagRefs(ars), ArtistList);
    var withAlbums := LinkTags(withArtists, AlbumTagRefs(als), AlbumList);
    var r := LinkTags(withAlbums, SongTagRefs(ss), SongList);
    forall d | d in fixed
      ensures Grows(fixed[d], r[d])
    {
      GrowsTrans(fixed[d], withArtists[d], withAlbums[d]);
      GrowsTrans(fixed[d], withAlbums[d], r[d]);
    }
    r
  }

  /** The library fields that deserializeFromJson assigns together. */
  datatype Loaded = Loaded(
    revision: nat, songs: Items<LM.Song>, albums: Items<LM.Album>, artists: Items<LM.Artist>,
    tags: Items<LM.Tag>, fileEndings: Items<string>, rootTags: seq<nat>, log: seq<SerialCommitted>)

  /**
   * The library built from the entries that were read: the collections
   * rebuilt through add(), the tag children and roots fixed up in the
   * hash's iteration order, and the readers' pushes applied in array order.
   */
  function Assemble(rev: int, ts: seq<(nat, LM.Tag)>, fs: seq<(nat, string)>, ars: seq<(nat, LM.Artist)>,
                    als: seq<(nat, LM.Album)>, ss: seq<(nat, LM.Song)>, log: seq<SerialCommitted>,
                    hashOrder: set<nat> -> seq<nat>): Loaded
  {
    var tags := Collect(ts);
    var (fixed, roots) := FixUpTags(tags.items, hashOrder(tags.items.Keys));
    var artists := Collect(ars);
    var albums := Collect(als);
    Loaded(Unsigned(rev), Collect(ss), albums.(items := LinkSongsToAlbums(albums.items, ss)),
           artists.(items := LinkAlbumsToArtists(artists.items, als)), tags.(items := LinkedTags(fixed, ars, als, ss)),
           Collect(fs), roots, log)
  }

  /** The reads after the id: five readable collections and a readable log, assembled; None otherwise. */
  function LoadFrom(lib: map<string, Json>, log: seq<Json>, rev: int, hashOrder: set<nat> -> seq<nat>): Option<Loaded>
  {
    match (Entries(Member(JObject(lib), "tags"), ReadTag), Entries(Member(JObject(lib), "fileEndings"), ReadEnding),
           Entries(Member(JObject(lib), "artists"), ReadArtist), Entries(Member(JObject(lib), "albums"), ReadAlbum),
           Entries(Member(JObject(lib), "songs"), ReadSong), ReadLog(log, |log|))
    case (Some(ts), Some(fs), Some(ars), Some(als), Some(ss), Some(cs)) =>
      Some(Assemble(rev, ts, fs, ars, als, ss, cs, hashOrder))
    case _ => None
  }

  /**
   * deserializeFromJson on values: a numeric "revision", a string "id" that
   * is a valid hex id, five readable collections and a readable log; None
   * when anything is missing or malformed.
   */
  function Deserialized(lib: map<string, Json>, log: seq<Json>, hashOrder: set<nat> -> seq<nat>): Option<Loaded>
  {
    match (RequireInt(lib, "revision"), RequireString(lib, "id"))
    case (Some(rev), Some(id)) => if ValidHex(id) then LoadFrom(lib, log, rev, hashOrder) else None
    case _ => None
  }

  /** The log loop of deserializeFromJson: the first entry that does not read ends it with a failure. */
  method ReadLogEntries(log: seq<Json>) returns (ok: bool, changes: seq<SerialCommitted>)
    ensures ok <==> ReadLog(log, |log|).Some?
    ensures ok ==> ReadLog(log, |log|) == Some(changes)
  {
    changes := [];
    var i := 0;
    while i < |log|
      invariant 0 <= i <= |log|
      invariant ReadLog(log, i) == Some(changes)
    {
      var (okChange, change) := CommittedFromJson(log[i], BlankCommitted);
      if !okChange {
        LogStopsAtFailure(log, i + 1, |log|);
        return false, changes;
      }
      changes := changes + [change];
      i := i + 1;
    }
    return true, changes;
  }

  /**
   * The body of deserializeFromJson after the id: every collection is read
   * into a local even when an earlier one failed, the tag fix-up and the
   * readers' pushes go to the locals, and then the log is read.
   */
  method ReadLibrary(lib: map<string, Json>, log: seq<Json>, rev: int, hashOrder: set<nat> -> seq<nat>) returns (r: Option<Loaded>)
    ensures r == LoadFrom(lib, log, rev, hashOrder)
  {
    var json := JObject(lib);
    var okTags, newTags, ts := ReadJsonCollection(Member(json, "tags"), Items(map[], 1), ReadTag);
    var (fixed, roots) := FixUpTags(newTags.items, hashOrder(newTags.items.Keys));
    var okEndings, newEndings, fs := ReadJsonCollection(Member(json, "fileEndings"), Items(map[], 1), ReadEnding);
    var okArtists, newArtists, ars := ReadJsonCollection(Member(json, "artists"), Items(map[], 1), ReadArtist);
    var linked := LinkTags(fixed, ArtistTagRefs(ars), ArtistList);
    var okAlbums, newAlbums, als := ReadJsonCollection(Member(json, "albums"), Items(map[], 1), ReadAlbum);
    linked := LinkTags(linked, AlbumTagRefs(als), AlbumList);
    newArtists := newArtists.(items := LinkAlbumsToArtists(newArtists.items, als));
    var okSongs, newSongs, ss := ReadJsonCollection(Member(json, "songs"), Items(map[], 1), ReadSong);
    linked := LinkTags(linked, SongTagRefs(ss), SongList);
    newAlbums := newAlbums.(items := LinkSongsToAlbums(newAlbums.items, ss));
    var okLog, changes := ReadLogEntries(log);
    if !(okTags && okEndings && okArtists && okAlbums && okSongs && okLog) {
      return None;
    }
    r := Some(Loaded(Unsigned(rev), newSongs, newAlbums, newArtists, newTags.(items := linked), newEndings, roots, changes));
  }

  /**
   * In an assembled library, with the hash order listing each tag once, a
   * tag sits in the children of its parent when that parent was read, and
   * among the roots exactly when its parent is 0.
   */
  lemma AssembledTagTree(rev: int, ts: seq<(nat, LM.Tag)>, fs: seq<(nat, string)>, ars: seq<(nat, LM.Artist)>,
                         als: seq<(nat, LM.Album)>, ss: seq<(nat, LM.Song)>, log: seq<SerialCommitted>,
                         hashOrder: set<nat> -> seq<nat>, k: nat)
    requires Enumerates(hashOrder(Collect(ts).items.Keys), Collect(ts).items.Keys)
    requires k in Collect(ts).items
    ensures var v := Assemble(rev, ts, fs, ars, als, ss, log, hashOrder); var p := v.tags.items[k].parent;
      && p == Collect(ts).items[k].parent
      && (p in v.tags.items ==> k in v.tags.items[p].children)
      && (k in v.rootTags <==> p == 0)
  {
    var tags := Collect(ts).items;
    var order := hashOrder(tags.Keys);
    var fixed := FixUpTags(tags, order).0;
    var withSongs := LinkedTags(fixed, ars, als, ss);
    FixUpPlacesTags(tags, order, k);
    FixUpTagsMeaning(tags, order);
    var p := tags[k].parent;
    assert withSongs[k].parent == p;
    if p in tags {
      assert withSongs[p].children == fixed[p].children;
    }
  }

  /** Every artist read is in the artist list of each of its tags, once all the readers' pushes are done. */
  lemma LinkedArtistTags(fixed: map<nat, LM.Tag>, ars: seq<(nat, LM.Artist)>, als: seq<(nat, LM.Album)>, ss: seq<(nat, LM.Song)>)
    ensures var r := LinkedTags(fixed, ars, als, ss);
      forall i, d :: 0 <= i < |ars| && d in ars[i].1.tags && d in r ==> ars[i].0 in r[d].artists
  {
    var withArtists := LinkTags(fixed, ArtistTagRefs(ars), ArtistList);
    var withAlbums := LinkTags(withArtists, AlbumTagRefs(als), AlbumList);
    var withSongs := LinkTags(withAlbums, SongTagRefs(ss), SongList);
    forall i, d | 0 <= i < |ars| && d in ars[i].1.tags && d in withSongs
      ensures ars[i].0 in withSongs[d].artists
    {
      assert ArtistTagRefs(ars)[i] == (ars[i].0, ars[i].1.tags);
      GrowsTrans(withArtists[d], withAlbums[d], withSongs[d]);
      PrefixKeeps(withArtists[d].artists, withSongs[d].artists, ars[i].0);
    }
  }

  /** Every album read is in the album list of each of its tags, once all the readers' pushes are done. */
  lemma LinkedAlbumTags(fixed: map<nat, LM.Tag>, ars: seq<(nat, LM.Artist)>, als: seq<(nat, LM.Album)>, ss: seq<(nat, LM.Song)>)
    ensures var r := LinkedTags(fixed, ars, als, ss);
      forall i, d :: 0 <= i < |als| && d in als[i].1.tags && d in r ==> als[i].0 in r[d].albums
  {
    var withArtists := LinkTags(fixed, ArtistTagRefs(ars), ArtistList);
    var withAlbums := LinkTags(withArtists, AlbumTagRefs(als), AlbumList);
    var withSongs := LinkTags(withAlbums, SongTagRefs(ss), SongList);
    forall i, d | 0 <= i < |als| && d in als[i].1.tags && d in withSongs
      ensures als[i].0 in withSongs[d].albums
    {
      assert AlbumTagRefs(als)[i] == (als[i].0, als[i].1.tags);
      PrefixKeeps(withAlbums[d].albums, withSongs[d].albums, als[i].0);
    }
  }

  /** Every song read is in the song list of each of its tags, once all the readers' pushes are done. */
  lemma LinkedSongTags(fixed: map<nat, LM.Tag>, ars: seq<(nat, LM.Artist)>, als: seq<(nat, LM.Album)>, ss: seq<(nat, LM.Song)>)
    ensures var r := LinkedTags(fixed, ars, als, ss);
      forall i, d :: 0 <= i < |ss| && d in ss[i].1.tags && d in r ==> ss[i].0 in r[d].songs
  {
    var withArtists := LinkTags(fixed, ArtistTagRefs(ars), ArtistList);
    var withAlbums := LinkTags(withArtists, AlbumTagRefs(als), AlbumList);
    var withSongs := LinkTags(withAlbums, SongTagRefs(ss), SongList);
    forall i, d | 0 <= i < |ss| && d in ss[i].1.tags && d in withSongs
      ensures ss[i].0 in withSongs[d].songs
    {
      assert SongTagRefs(ss)[i] == (ss[i].0, ss[i].1.tags);
    }
  }

  /**
   * In an assembled library every album read is listed by its artist when
   * that artist was read, and every song by its album when that album was.
   */
  lemma AssembledOwnerLists(rev: int, ts: seq<(nat, LM.Tag)>, fs: seq<(nat, string)>, ars: seq<(nat, LM.Artist)>,
                            als: seq<(nat, LM.Album)>, ss: seq<(nat, LM.Song)>, log: seq<SerialCommitted>,
                            hashOrder: set<nat> -> seq<nat>)
    ensures var v := Assemble(rev, ts, fs, ars, als, ss, log, hashOrder);
      && (forall i :: 0 <= i < |als| && als[i].1.artist in v.artists.items ==> als[i].0 in v.artists.items[als[i].1.artist].albums)
      && (forall i :: 0 <= i < |ss| && ss[i].1.album in v.albums.items ==> ss[i].0 in v.albums.items[ss[i].1.album].songs)
  {
  }

  /** The Library fields that deserializeFromJson writes; the id's bytes come with the id object. */
  class Library {
    const id: LibraryId
    var revision: nat
    var songs: Items<LM.Song>
    var albums: Items<LM.Album>
    var artists: Items<LM.Artist>
    var tags: Items<LM.Tag>
    var fileEndings: Items<string>
    var rootTags: seq<nat>
    var committedChanges: seq<SerialCommitted>

    ghost predicate Valid()
      reads this, id
    {
      id.Valid()
    }

    function State(): Loaded
      reads this
    {
      Loaded(revision, songs, albums, artists, tags, fileEndings, rootTags, committedChanges)
    }

    /** An empty library at revision 0 whose id is the generated bytes given. */
    constructor (generated: seq<byte>)
      requires |generated| == LENGTH
      ensures Valid() && id.bytes[..] == generated && fresh(id.bytes)
      ensures State() == Loaded(0, Items(map[], 1), Items(map[], 1), Items(map[], 1), Items(map[], 1), Items(map[], 1), [], [])
    {
      id := new LibraryId(generated);
      revision := 0;
      songs, albums, artists := Items(map[], 1), Items(map[], 1), Items(map[], 1);
      tags, fileEndings := Items(map[], 1), Items(map[], 1);
      rootTags, committedChanges := [], [];
    }

    /**
     * deserializeFromJson: the library fields are assigned all together and
     * only when everything was read; the id, however, is rewritten by
     * fromString before the collections and the log are looked at, so a
     * failure after that leaves the library with the new id.
     */
    method DeserializeFromJson(lib: map<string, Json>, log: seq<Json>, hashOrder: set<nat> -> seq<nat>) returns (ok: bool)
      requires Valid()
      modifies this, id.bytes
      ensures Valid()
      ensures ok <==> Deserialized(lib, log, hashOrder).Some?
      ensures ok ==> State() == Deserialized(lib, log, hashOrder).value
      ensures !ok ==> State() == old(State())
      ensures RequireInt(lib, "revision").None? || RequireString(lib, "id").None? ==> id.bytes[..] == old(id.bytes[..])
      ensures RequireInt(lib, "revision").Some? && RequireString(lib, "id").Some? && ValidHex(RequireString(lib, "id").value)
        ==> id.bytes[..] == DecodeHex(RequireString(lib, "id").value)
    {
      var rev := RequireInt(lib, "revision");
      if rev.None? {
        return false;
      }
      var idString := RequireString(lib, "id");
      if idString.None? {
        return false;
      }
      var idOk := id.FromString(idString.value);
      if !idOk {
        return false;
      }
      var loaded := ReadLibrary(lib, log, rev.value, hashOrder);
      assert Deserialized(lib, log, hashOrder) == loaded;
      if loaded.None? {
        return false;
      }
      Assign(loaded.value);
      return true;
    }

    /** The assignments that end deserializeFromJson: every library field at once. */
    method Assign(v: Loaded)
      modifies this
      ensures State() == v
    {
      revision, songs, albums, artists := v.revision, v.songs, v.albums, v.artists;
      tags, fileEndings, rootTags, committedChanges := v.tags, v.fileEndings, v.rootTags, v.log;
    }
  }
}
