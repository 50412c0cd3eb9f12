/** The item counter map of an inventory (src/game/inventory.rs). */
module Inventories {
  import opened Items

  /** The counts an inventory holds, by item. */
  type Counts = map<ItemId, uint32>

  /** `item_count` on a value: the stored count, or 0 for an item never added. */
  function Count(items: Counts, id: ItemId): (n: uint32)
    ensures id !in items ==> n == 0
  {
    if id in items then items[id] else 0
  }

  /** Whether `add_item(id, amount)` fits the `u32` counter (the source panics on overflow in debug builds). */
  predicate CanAdd(items: Counts, id: ItemId, amount: uint32) {
    Count(items, id) + amount < 0x1_0000_0000
  }

  /** `add_item` on a value: adds to an existing count, or inserts the amount as a new entry. */
  function Added(items: Counts, id: ItemId, amount: uint32): (r: Counts)
    requires CanAdd(items, id, amount)
    ensures r.Keys == items.Keys + {id}
    ensures Count(r, id) == Count(items, id) + amount
    ensures forall other | other != id :: Count(r, other) == Count(items, other)
  {
    if id in items then items[id := items[id] + amount] else items[id := amount]
  }

  /** After any `add_item`, even of zero, the inventory is no longer empty. */
  lemma AddedIsNotEmpty(items: Counts, id: ItemId, amount: uint32)
    requires CanAdd(items, id, amount)
    ensures Added(items, id, amount) != map[]
  {
    assert id in Added(items, id, amount);
  }

  /** The `Inventory` component. */
  class Inventory {
    var items: Counts

    /** `Inventory::default()`: no items. */
    constructor Default()
      ensures items == map[]
    {
      items := map[];
    }

    /** `is_empty`. */
    function IsEmpty(): (b: bool)
      reads this
      ensures b <==> forall id :: Count(items, id) == 0 && id !in items
    {
      assert forall id | id in items :: id in items.Keys;
      |items| == 0
    }

    /** `item_count`. */
    function ItemCount(id: ItemId): (n: uint32)
      reads this
      ensures n == Count(items, id)
    {
      if id in items then items[id] else 0
    }

    /** `add_item`. */
    method AddItem(id: ItemId, amount: uint32)
      requires CanAdd(items, id, amount)
      modifies this
      ensures items == Added(old(items), id, amount)
    {
      if id in items {
        items := items[id := items[id] + amount];
      } else {
        items := items[id := amount];
      }
    }
  }
}
