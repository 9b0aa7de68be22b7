// Id wrappers and the id-issuing hash collection of the shared library
// (src/shared/library_types.hpp). Ids are unbounded naturals here; the source
// stores them in quint32.
module LibraryTypes {

  import opened Wrappers

  /** FromInt::isValid: an id is valid when it is positive; 0 means "none". */
  predicate IsValidId(value: nat)
  {
    value > 0
  }

  /** The abstract value of an ItemCollection: its hash and its id counter. */
  datatype Items<T> = Items(items: map<nat, T>, nextId: nat)

  /** Every stored key lies below the counter, and the counter never issues 0. */
  ghost predicate WellNumbered<T>(c: Items<T>)
  {
    c.nextId >= 1 && forall k :: k in c.items ==> 0 < k < c.nextId
  }

  /** order lists every key exactly once: what iterating over a hash yields. */
  ghost predicate Enumerates(order: seq<nat>, keys: set<nat>)
  {
    (forall k :: k in order <==> k in keys)
    && forall i, j :: 0 <= i < j < |order| ==> order[i] != order[j]
  }

  /** ItemCollection::add on values: insert or overwrite, counter raised to id + 1. */
  function AddItem<T>(c: Items<T>, id: nat, v: T): (r: Items<T>)
    ensures r.items == c.items[id := v]
    ensures r.nextId >= c.nextId && r.nextId > id
    ensures forall k :: k in c.items && k < c.nextId ==> k < r.nextId
  {
    Items(c.items[id := v], if c.nextId > id + 1 then c.nextId else id + 1)
  }

  /** add keeps "every key < nextId"; it keeps well-numberedness whenever the id is valid. */
  lemma AddKeepsKeysBelowNext<T>(c: Items<T>, id: nat, v: T)
    requires forall k :: k in c.items ==> k < c.nextId
    ensures forall k :: k in AddItem(c, id, v).items ==> k < AddItem(c, id, v).nextId
    ensures WellNumbered(c) && IsValidId(id) ==> WellNumbered(AddItem(c, id, v))
  {
  }

  /** ItemCollection::create on values: the default item stored under the old counter. */
  function CreateItem<T>(c: Items<T>, dflt: T): (r: (nat, Items<T>))
  {
    (c.nextId, Items(c.items[c.nextId := dflt], c.nextId + 1))
  }

  /** A created id is valid, was not in use, and the collection stays well numbered. */
  lemma CreateIsFresh<T>(c: Items<T>, dflt: T)
    requires WellNumbered(c)
    ensures IsValidId(CreateItem(c, dflt).0)
    ensures CreateItem(c, dflt).0 !in c.items
    ensures WellNumbered(CreateItem(c, dflt).1)
    ensures CreateItem(c, dflt).1.items.Keys == c.items.Keys + {CreateItem(c, dflt).0}
  {
  }

  /** Removing a key and creating afterwards never hands the removed id out again. */
  lemma RemovedIdNotReissued<T>(c: Items<T>, id: nat, dflt: T)
    requires WellNumbered(c) && id in c.items
    ensures CreateItem(Items(c.items - {id}, c.nextId), dflt).0 != id
  {
  }

  class ItemCollection<T> {
    var items: map<nat, T>
    var nextId: nat
    /** What `T()` constructs. */
    const defaultItem: T

    function Contents(): Items<T>
      reads this
    {
      Items(items, nextId)
    }

    /** An empty collection whose counter starts at 1. */
    constructor (defaultItem: T)
      ensures items == map[] && nextId == 1 && this.defaultItem == defaultItem
      ensures WellNumbered(Contents())
    {
      items := map[];
      nextId := 1;
      this.defaultItem := defaultItem;
    }

    /** add(id, value): insert or overwrite; nextId := max(nextId, id + 1). */
    method Add(id: nat, value: T)
      modifies this
      ensures Contents() == AddItem(old(Contents()), id, value)
    {
      items := items[id := value];
      nextId := if nextId > id + 1 then nextId else id + 1;
    }

    /** findItem(id): the item when the key is present, None (a null pointer) otherwise. */
    method FindItem(id: nat) returns (found: Option<T>)
      ensures found.Some? <==> id in items
      ensures found.Some? ==> found.value == items[id]
    {
      if id in items {
        found := Some(items[id]);
      } else {
        found := None;
      }
    }

    /** Writing through the item findItem returned. */
    method Update(id: nat, value: T)
      requires id in items
      modifies this
      ensures items == old(items)[id := value] && nextId == old(nextId)
    {
      items := items[id := value];
    }

    /** create(): a default item under nextId, whose old value is returned; nextId += 1. */
    method Create() returns (id: nat)
      modifies this
      ensures (id, Contents()) == CreateItem(old(Contents()), defaultItem)
    {
      id := nextId;
      items := items[id := defaultItem];
      nextId := nextId + 1;
    }

    /** QHash::remove(id): the key leaves, the counter stays. */
    method Remove(id: nat)
      modifies this
      ensures items == old(items) - {id} && nextId == old(nextId)
    {
      items := items - {id};
    }

    /** ids(): every key once, in the hash's iteration order (left open here). */
    method Ids() returns (ids: seq<nat>)
      ensures forall i, j :: 0 <= i < j < |ids| ==> ids[i] != ids[j]
      ensures forall k :: k in ids <==> k in items
    {
      ids := [];
      var rest := items.Keys;
      while rest != {}
        invariant rest <= items.Keys
        invariant forall k :: k in ids <==> k in items && k !in rest
        invariant forall i, j :: 0 <= i < j < |ids| ==> ids[i] != ids[j]
        decreases |rest|
      {
        var k :| k in rest;
        ids := ids + [k];
        rest := rest - {k};
      }
    }
  }
}
