/** The player's inventory (client/src/entities/Inventory.ts). */
module Inventories {
  import opened Wrappers
  import Catalog

  datatype Inventory = Inventory(
    items: seq<Catalog.Item>,
    hotbar: seq<Option<Catalog.Item>>,
    specialSlot: Option<Catalog.Item>,
    armorSlots: seq<Option<Catalog.Item>>,
    maxSize: int)

  /** The number of item slots a cleared inventory offers. */
  const Capacity := 6

  /** `clear()`: no items, two empty hotbar slots, no special item, three empty armour
      slots (helmet, chestplate, boots) and room for six items. */
  function Clear(inv: Inventory): (r: Inventory)
    ensures r.items == [] && r.specialSlot == None && r.maxSize == Capacity
    ensures |r.hotbar| == 2 && forall i :: 0 <= i < |r.hotbar| ==> r.hotbar[i] == None
    ensures |r.armorSlots| == 3 && forall i :: 0 <= i < |r.armorSlots| ==> r.armorSlots[i] == None
  {
    Inventory([], [None, None], None, [None, None, None], Capacity)
  }

  /** The constructor, which does nothing but `clear()`. */
  function New(): (r: Inventory)
    ensures r.items == [] && r.maxSize == Capacity
  {
    Clear(Inventory([], [], None, [], 0))
  }

  /** Clearing forgets everything: the result is the new inventory whatever came before,
      so clearing twice is clearing once. */
  lemma ClearForgets(inv: Inventory, other: Inventory)
    ensures Clear(inv) == New() == Clear(other)
    ensures Clear(Clear(inv)) == Clear(inv)
    ensures |Clear(inv).items| < Clear(inv).maxSize
  {
  }
}
