// The standalone ItemCollection of the older library
// (src/dbcommon/include/itemcollection.hpp): a hash from ids to items and
// the counter that issues new ids. Its values are the Items of LibraryTypes,
// whose add and create it shares.
module DbItems {

  import opened Wrappers
  import opened LibraryTypes

  class ItemCollection<T> {
    var items: map<nat, T>
    var nextId: nat
    /** What `T()` constructs. */
    const defaultItem: T

    function Contents(): Items<T>
      reads this
    {
      Items(items, nextId)
    }

    /** An empty collection whose counter starts at 1. */
    constructor (defaultItem: T)
      ensures Contents() == Items(map[], 1) && this.defaultItem == defaultItem
      ensures WellNumbered(Contents())
    {
      items := map[];
      nextId := 1;
      this.defaultItem := defaultItem;
    }

    /** add(id, value): insert or overwrite, and raise the counter to at least id + 1. */
    method Add(id: nat, value: T)
      modifies this
      ensures Contents() == AddItem(old(Contents()), id, value)
      ensures IsValidId(id) && WellNumbered(old(Contents())) ==> WellNumbered(Contents())
    {
      if WellNumbered(Contents()) {
        AddKeepsKeysBelowNext(Contents(), id, value);
      }
      items := items[id := value];
      nextId := if nextId > id + 1 then nextId else id + 1;
    }

    /** remove(id): only that key leaves; the counter stays, so the id is never issued again. */
    method Remove(id: nat)
      modifies this
      ensures items == old(items) - {id} && nextId == old(nextId)
      ensures WellNumbered(old(Contents())) ==> WellNumbered(Contents())
      ensures WellNumbered(old(Contents())) && id in old(items) ==> CreateItem(Contents(), defaultItem).0 != id
    {
      items := items - {id};
    }

    /** find(id): a pointer to the item, null exactly when the id is absent. */
    method Find(id: nat) returns (found: Option<T>)
      ensures found.None? <==> id !in items
      ensures found.Some? ==> found.value == items[id]
    {
      if id in items {
        found := Some(items[id]);
      } else {
        found := None;
      }
    }

    /** Writing through the item find returned. */
    method Update(id: nat, value: T)
      requires id in items
      modifies this
      ensures items == old(items)[id := value] && nextId == old(nextId)
    {
      items := items[id := value];
    }

    /** create(): a default item under the old counter, which is returned; the counter moves on. */
    method Create() returns (id: nat)
      modifies this
      ensures (id, Contents()) == CreateItem(old(Contents()), defaultItem)
      ensures WellNumbered(old(Contents())) ==> IsValidId(id) && id !in old(items) && WellNumbered(Contents())
    {
      if WellNumbered(Contents()) {
        CreateIsFresh(Contents(), defaultItem);
      }
      id := nextId;
      items := items[id := defaultItem];
      nextId := nextId + 1;
    }
  }
}
