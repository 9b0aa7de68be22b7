// ModelAdapter::Adapter<T> (src/app/src/util/modeladapter.hpp): a vector of
// values exposed to QML as a list model, with one accessor per named role.
// A QVariant result is an Option: None is the empty variant.
module ModelAdapter {

  import opened Wrappers

  /** QVector::indexOf: the first index holding v, or -1. */
  function IndexOf<T(==)>(s: seq<T>, v: T): (i: int)
    ensures -1 <= i < |s|
    ensures i == -1 <==> v !in s
    ensures i >= 0 ==> s[i] == v && v !in s[..i]
  {
    if |s| == 0 then -1
    else if s[0] == v then 0
    else
      var j := IndexOf(s[1..], v);
      assert s[1..][..if j < 0 then 0 else j] == s[1..1 + (if j < 0 then 0 else j)];
      if j < 0 then -1 else j + 1
  }

  /** remove(const T &): the first occurrence of v taken out, or s unchanged. */
  function RemovedFirst<T(==)>(s: seq<T>, v: T): seq<T>
  {
    var i := IndexOf(s, v);
    if i < 0 then s else s[..i] + s[i + 1..]
  }

  /** Removing the first occurrence takes exactly one v out of the multiset, and keeps the order of the rest. */
  lemma RemovedFirstCounts<T>(s: seq<T>, v: T)
    ensures v in s ==> |RemovedFirst(s, v)| == |s| - 1 && multiset(RemovedFirst(s, v)) == multiset(s) - multiset{v}
    ensures v !in s ==> RemovedFirst(s, v) == s
  {
    if v in s {
      var i := IndexOf(s, v);
      assert s == s[..i] + [v] + s[i + 1..];
      calc {
        multiset(s);
        multiset(s[..i] + [v] + s[i + 1..]);
        multiset(s[..i]) + multiset{v} + multiset(s[i + 1..]);
      }
    }
  }

  /** A negative index counts as 0. */
  function Clamp(index: int): nat
  {
    if index < 0 then 0 else index
  }

  /**
   * insert(index, val) as written: an index at or past the end first calls
   * add(val) and then inserts val again at that index.
   */
  function InsertedAsWritten<T>(s: seq<T>, index: int, val: T): seq<T>
    requires Clamp(index) <= |s| + 1
  {
    var i := Clamp(index);
    var grown := if i >= |s| then s + [val] else s;
    grown[..i] + [val] + grown[i..]
  }

  /** Inserting at the end stores the value twice. */
  lemma InsertAtEndTwice<T>(s: seq<T>, val: T)
    ensures InsertedAsWritten(s, |s|, val) == s + [val, val]
  {
    var grown := s + [val];
    assert grown[..|s|] == s;
  }

  /** insert(index, val) as intended: val placed once at the clamped index, or at the end. */
  function Inserted<T>(s: seq<T>, index: int, val: T): seq<T>
  {
    var i := if Clamp(index) > |s| then |s| else Clamp(index);
    s[..i] + [val] + s[i..]
  }

  /**
   * The intended insert adds exactly one val, at the clamped position, and
   * keeps the other elements in order around it.
   */
  lemma InsertedOnce<T>(s: seq<T>, index: int, val: T)
    ensures var i := if Clamp(index) > |s| then |s| else Clamp(index);
      var r := Inserted(s, index, val);
      |r| == |s| + 1 && r[i] == val && r[..i] == s[..i] && r[i + 1..] == s[i..]
      && multiset(r) == multiset(s) + multiset{val}
  {
    var i := if Clamp(index) > |s| then |s| else Clamp(index);
    assert s == s[..i] + s[i..];
    var r := Inserted(s, index, val);
    assert r[..i] == s[..i];
    assert r[i + 1..] == s[i..];
  }

  /** Before the end, the written insert is the intended one. */
  lemma InsertAgreesBeforeEnd<T>(s: seq<T>, index: int, val: T)
    requires Clamp(index) < |s|
    ensures InsertedAsWritten(s, index, val) == Inserted(s, index, val)
  {
  }

  /** No name occurs twice. */
  predicate DistinctNames(names: seq<string>)
  {
    forall i, j :: 0 <= i < j < |names| ==> names[i] != names[j]
  }

  class Adapter<T(==), V> {
    var data: seq<T>
    var roleNames: seq<string>
    var accessors: seq<T -> V>

    /** One accessor per role, and no role name twice. */
    predicate Valid()
      reads this
    {
      |roleNames| == |accessors| && DistinctNames(roleNames)
    }

    constructor ()
      ensures Valid() && data == [] && roleNames == [] && accessors == []
    {
      data := [];
      roleNames := [];
      accessors := [];
    }

    function Size(): (n: nat)
      reads this
      ensures n == |data|
    {
      |data|
    }

    /**
     * addAccessor: a new role name is registered with its accessor; a name
     * already registered aborts (fatal), leaving everything as it was.
     */
    method AddAccessor(roleName: string, accessor: T -> V) returns (fatal: bool)
      requires Valid()
      modifies this
      ensures Valid() && data == old(data)
      ensures fatal <==> roleName in old(roleNames)
      ensures fatal ==> roleNames == old(roleNames) && accessors == old(accessors)
      ensures !fatal ==> roleNames == old(roleNames) + [roleName] && accessors == old(accessors) + [accessor]
    {
      if roleName in roleNames {
        return true;
      }
      roleNames := roleNames + [roleName];
      accessors := accessors + [accessor];
      return false;
    }

    /** addValueAccessor: the role's value is the element itself, wrapped in a variant. */
    method AddValueAccessor(roleName: string, fromValue: T -> V) returns (fatal: bool)
      requires Valid()
      modifies this
      ensures Valid() && data == old(data)
      ensures fatal <==> roleName in old(roleNames)
      ensures fatal ==> roleNames == old(roleNames) && accessors == old(accessors)
      ensures !fatal ==> roleNames == old(roleNames) + [roleName] && accessors == old(accessors) + [fromValue]
    {
      fatal := AddAccessor(roleName, fromValue);
    }

    /** set: the element at a valid index is replaced. */
    method Set(idx: int, val: T)
      requires 0 <= idx < |data|
      modifies this
      ensures data == old(data)[idx := val]
      ensures roleNames == old(roleNames) && accessors == old(accessors)
    {
      data := data[idx := val];
    }

    /** add: val appended at the end. */
    method Add(val: T)
      modifies this
      ensures data == old(data) + [val]
      ensures roleNames == old(roleNames) && accessors == old(accessors)
    {
      data := data + [val];
    }

    /** insert as written; QVector::insert itself asserts a position at most the size. */
    method InsertAsWritten(index: int, val: T)
      requires Clamp(index) <= |data| + 1
      modifies this
      ensures data == InsertedAsWritten(old(data), index, val)
      ensures roleNames == old(roleNames) && accessors == old(accessors)
    {
      var i := index;
      if i < 0 {
        i := 0;
      }
      if i >= |data| {
        Add(val);
      }
      data := data[..i] + [val] + data[i..];
    }

    /** insert with the add taken as the alternative to inserting: val is stored once. */
    method Insert(index: int, val: T)
      modifies this
      ensures data == Inserted(old(data), index, val)
      ensures roleNames == old(roleNames) && accessors == old(accessors)
    {
      var i := index;
      if i < 0 {
        i := 0;
      }
      if i >= |data| {
        Add(val);
      } else {
        data := data[..i] + [val] + data[i..];
      }
    }

    /** remove(const T &): the first occurrence is removed; nothing happens when val is absent. */
    method Remove(val: T)
      modifies this
      ensures data == RemovedFirst(old(data), val)
      ensures roleNames == old(roleNames) && accessors == old(accessors)
    {
      var idx := IndexOf(data, val);
      if idx >= 0 && idx < |data| {
        RemoveAt(idx);
      }
    }

    /** remove(int): the element at a valid index is removed. */
    method RemoveAt(idx: int)
      requires 0 <= idx < |data|
      modifies this
      ensures data == old(data)[..idx] + old(data)[idx + 1..]
      ensures roleNames == old(roleNames) && accessors == old(accessors)
    {
      data := data[..idx] + data[idx + 1..];
    }

    /** clear: the adapter is left empty. */
    method Clear()
      modifies this
      ensures data == []
      ensures roleNames == old(roleNames) && accessors == old(accessors)
    {
      if |data| > 0 {
        data := [];
      }
    }

    /** getData: the role's accessor applied to the element, or the empty variant out of range. */
    function GetData(index: int, role: int): (r: Option<V>)
      reads this
      ensures r.Some? <==> 0 <= role < |accessors| && 0 <= index < |data|
      ensures r.Some? ==> r.value == accessors[role](data[index])
    {
      if role < 0 || role >= |accessors| then None
      else if index < 0 || index >= |data| then None
      else Some(accessors[role](data[index]))
    }
  }
}
