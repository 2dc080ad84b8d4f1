/**
 * The server's 20-slot inventory, as the mock server manipulates it: a
 * JavaScript array of item stacks and `null`s, addressed by whatever value
 * the client put in the action message.
 *
 * Array semantics that matter here: the key is first turned into a
 * property name (`JsKeys.KeyOf`), so `inv[3]` and `inv["3"]` address the
 * same element. Reading an element outside the array gives `undefined` (an
 * empty slot); writing an element at or past the end grows the array, the
 * gap reading as empty. Any other key (a negative number, `"03"`,
 * `undefined`) addresses a named property of the array object: writes to
 * it can be read back through the same key, but the elements do not
 * change.
 */
module Inventory {
  import opened Basics
  import opened Protocol
  import opened JsKeys

  const InventorySize: int := 20

  /** The key names an existing element of `inv`. */
  predicate IsElement(inv: InventoryArray, k: PropertyKey) {
    k.ElementKey? && k.index < |inv.elements|
  }

  /** No slot, element or named, holds a stack of quantity below one. */
  ghost predicate StacksPositive(inv: InventoryArray) {
    && (forall j :: 0 <= j < |inv.elements| && inv.elements[j].Some? ==> inv.elements[j].value.quantity >= 1)
    && (forall n :: n in inv.named && inv.named[n].Some? ==> inv.named[n].value.quantity >= 1)
  }

  /** `inventory[key]`: a missing element or property reads as an empty slot. */
  function ReadSlot(inv: InventoryArray, k: PropertyKey): Slot {
    match k
    case ElementKey(i) => if i < |inv.elements| then inv.elements[i] else None
    case NamedKey(n) => if n in inv.named then inv.named[n] else None
  }

  /** `inventory[key] = v`. */
  function WriteSlot(inv: InventoryArray, k: PropertyKey, v: Slot): (r: InventoryArray)
    ensures k.ElementKey? ==>
              && |r.elements| == Max(|inv.elements|, k.index + 1)
              && r.named == inv.named
              && (forall j :: |inv.elements| <= j < |r.elements| && j != k.index ==> r.elements[j] == None)
    ensures k.NamedKey? ==> r.elements == inv.elements
  {
    match k
    case ElementKey(i) =>
      var el := inv.elements;
      if i < |el| then inv.(elements := el[i := v])
      else inv.(elements := el + seq(i - |el|, _ => None) + [v])
    case NamedKey(n) => inv.(named := inv.named[n := v])
  }

  /**
   * Read over write: the written key reads back the value written, and
   * every other key reads what it read before.
   */
  lemma ReadOverWrite(inv: InventoryArray, k: PropertyKey, v: Slot, k': PropertyKey)
    ensures ReadSlot(WriteSlot(inv, k, v), k) == v
    ensures k' != k ==> ReadSlot(WriteSlot(inv, k, v), k') == ReadSlot(inv, k')
  {
  }

  /** The stack `generateInitialInventory` puts in slot 0. */
  const HealingPotions: ItemStack := ItemStack("potion_heal", "治疗药水", 3, Uncommon, "🧪")

  /** `generateInitialInventory`: four starter stacks followed by sixteen empty slots. */
  function InitialInventory(): (inv: InventoryArray)
    ensures |inv.elements| == InventorySize && inv.named == map[]
    ensures StacksPositive(inv)
    ensures inv.elements[0] == Some(HealingPotions)
    ensures forall j :: 0 <= j < 4 ==> inv.elements[j].Some?
    ensures forall j :: 4 <= j < InventorySize ==> inv.elements[j] == None
  {
    InventoryArray(
      [ Some(HealingPotions),
        Some(ItemStack("scroll_magic", "魔法卷轴", 1, Rare, "📜")),
        Some(ItemStack("sword_iron", "铁剑", 1, Common, "⚔️")),
        Some(ItemStack("ring_gold", "金戒指", 1, Epic, "💍")) ]
      + seq(16, _ => None),
      map[])
  }

  /**
   * `consumeItem`: a stack of more than one loses one unit; any other
   * content of the slot (a single item, an empty slot) is cleared.
   */
  function ConsumeItem(inv: InventoryArray, k: PropertyKey): (r: InventoryArray)
    ensures StacksPositive(inv) ==> StacksPositive(r)
    ensures var before := ReadSlot(inv, k);
            && (before.Some? && before.value.quantity > 1 ==>
                  ReadSlot(r, k) == Some(before.value.(quantity := before.value.quantity - 1)))
            && (!(before.Some? && before.value.quantity > 1) ==> ReadSlot(r, k) == None)
    ensures forall k' :: k' != k ==> ReadSlot(r, k') == ReadSlot(inv, k')
    ensures IsElement(inv, k) ==> |r.elements| == |inv.elements|
    ensures k.NamedKey? ==> r.elements == inv.elements
  {
    var v := match ReadSlot(inv, k)
             case Some(item) => if item.quantity > 1 then Some(item.(quantity := item.quantity - 1)) else None
             case None => None;
    var r := WriteSlot(inv, k, v);
    ReadOverWriteAll(inv, k, v);
    r
  }

  /** `ReadOverWrite` for every other key at once. */
  lemma ReadOverWriteAll(inv: InventoryArray, k: PropertyKey, v: Slot)
    ensures ReadSlot(WriteSlot(inv, k, v), k) == v
    ensures forall k' :: k' != k ==> ReadSlot(WriteSlot(inv, k, v), k') == ReadSlot(inv, k')
  {
  }

  /** Writing a stack of quantity one or more, or `null`, keeps every stack positive. */
  lemma WriteSlotPositive(inv: InventoryArray, k: PropertyKey, v: Slot)
    requires StacksPositive(inv)
    requires v.Some? ==> v.value.quantity >= 1
    ensures StacksPositive(WriteSlot(inv, k, v))
  {
  }

  /** Moving a stack read from the inventory itself keeps every stack positive. */
  lemma MoveKeepsPositive(inv: InventoryArray, from: PropertyKey, to: PropertyKey, item: ItemStack)
    requires ReadSlot(inv, from) == Some(item)
    ensures StacksPositive(inv) ==> StacksPositive(WriteSlot(WriteSlot(inv, to, Some(item)), from, None))
  {
  }

  /**
   * `handleItemMove`'s check and move: if the slot at `from` holds a stack
   * carrying the claimed id, the stack is written to `to` and `from` is then
   * cleared, and the new inventory is returned; otherwise `None` (nothing
   * changes and the server sends no reply).
   */
  function MoveItem(inv: InventoryArray, from: PropertyKey, to: PropertyKey, itemId: Option<string>): (r: Option<InventoryArray>)
    ensures r.Some? <==> ReadSlot(inv, from).Some? && itemId == Some(ReadSlot(inv, from).value.id)
    ensures r.Some? ==> ReadSlot(r.value, from) == None
    ensures r.Some? && from != to ==> ReadSlot(r.value, to) == ReadSlot(inv, from)
    ensures r.Some? ==> forall k :: k != from && k != to ==> ReadSlot(r.value, k) == ReadSlot(inv, k)
    ensures r.Some? && StacksPositive(inv) ==> StacksPositive(r.value)
  {
    match ReadSlot(inv, from)
    case Some(item) =>
      if itemId == Some(item.id) then
        var mid := WriteSlot(inv, to, Some(item));
        var out := WriteSlot(mid, from, None);
        ReadOverWriteAll(inv, to, Some(item));
        ReadOverWriteAll(mid, from, None);
        MoveKeepsPositive(inv, from, to, item);
        Some(out)
      else None
    case None => None
  }

  /**
   * Moving a stack there and back again restores every slot except the
   * intermediate one, which ends empty: a round trip through an empty slot
   * changes nothing any key can read.
   */
  lemma MoveItemRoundTrip(inv: InventoryArray, a: PropertyKey, b: PropertyKey, itemId: Option<string>)
    requires a != b
    requires MoveItem(inv, a, b, itemId).Some?
    ensures var there := MoveItem(inv, a, b, itemId).value;
            var back := MoveItem(there, b, a, itemId);
            && back.Some?
            && ReadSlot(back.value, a) == ReadSlot(inv, a)
            && ReadSlot(back.value, b) == None
            && (forall k :: k != a && k != b ==> ReadSlot(back.value, k) == ReadSlot(inv, k))
  {
  }

  /**
   * A successful move to an element at or past the end grows the
   * inventory up to that index: the stack lands there, the gap reads
   * empty, and the source element is cleared.
   */
  lemma MoveItemGrows(inv: InventoryArray, from: PropertyKey, to: PropertyKey, itemId: Option<string>)
    requires MoveItem(inv, from, to, itemId).Some?
    requires from.ElementKey? && to.ElementKey? && to.index >= |inv.elements|
    ensures var r := MoveItem(inv, from, to, itemId).value;
            && |r.elements| == to.index + 1
            && r.elements[to.index] == inv.elements[from.index]
            && r.elements[from.index] == None
            && (forall j :: 0 <= j < |inv.elements| && j != from.index ==> r.elements[j] == inv.elements[j])
            && (forall j :: |inv.elements| <= j < to.index ==> r.elements[j] == None)
  {
  }

  /**
   * A successful move from an element to a key that is not an array index
   * (a negative number, a non-numeric string, `undefined`) empties the
   * element and parks the stack in a named property: the server can still
   * read it back under that key, but it is gone from the elements, which
   * are all a copy of the array or the client's inventory view shows.
   */
  lemma MoveItemToNamedKeyHides(inv: InventoryArray, from: PropertyKey, to: PropertyKey, itemId: Option<string>)
    requires MoveItem(inv, from, to, itemId).Some?
    requires from.ElementKey? && to.NamedKey?
    ensures var r := MoveItem(inv, from, to, itemId).value;
            && r.elements == inv.elements[from.index := None]
            && ReadSlot(r, to) == Some(inv.elements[from.index].value)
  {
  }

  // ---------------------------------------------------------------------
  // Units

  /** Units of a slot's stack (0 for an empty slot). */
  function Units(s: Slot): int {
    match s
    case Some(item) => item.quantity
    case None => 0
  }

  /** Total number of item units held in a sequence of slots. */
  function TotalUnits(slots: seq<Slot>): int {
    if |slots| == 0 then 0 else Units(slots[0]) + TotalUnits(slots[1..])
  }

  lemma {:induction false} TotalUnitsUpdate(slots: seq<Slot>, i: int, v: Slot)
    requires 0 <= i < |slots|
    ensures TotalUnits(slots[i := v]) == TotalUnits(slots) - Units(slots[i]) + Units(v)
    decreases |slots|
  {
    if i == 0 {
      assert slots[i := v][1..] == slots[1..];
    } else {
      TotalUnitsUpdate(slots[1..], i - 1, v);
      assert slots[i := v][1..] == slots[1..][i - 1 := v];
    }
  }

  lemma {:induction false} TotalUnitsOfEmpty(n: nat)
    ensures TotalUnits(seq<Slot>(n, _ => None)) == 0
  {
    if n > 0 {
      assert seq<Slot>(n, _ => None)[1..] == seq<Slot>(n - 1, _ => None);
      TotalUnitsOfEmpty(n - 1);
    }
  }

  lemma {:induction false} TotalUnitsAppend(a: seq<Slot>, b: seq<Slot>)
    ensures TotalUnits(a + b) == TotalUnits(a) + TotalUnits(b)
    decreases |a|
  {
    if |a| > 0 {
      assert (a + b)[1..] == a[1..] + b;
      TotalUnitsAppend(a[1..], b);
    } else {
      assert a + b == b;
    }
  }

  /**
   * The units a client can see: those held in the elements. Writing an
   * element replaces that element's units and nothing else (growing adds
   * empty slots); writing a named property leaves them alone.
   */
  lemma WriteSlotUnits(inv: InventoryArray, k: PropertyKey, v: Slot)
    ensures k.ElementKey? ==>
              TotalUnits(WriteSlot(inv, k, v).elements) == TotalUnits(inv.elements) - Units(ReadSlot(inv, k)) + Units(v)
    ensures k.NamedKey? ==> TotalUnits(WriteSlot(inv, k, v).elements) == TotalUnits(inv.elements)
  {
    if k.ElementKey? {
      var el := inv.elements;
      var i := k.index;
      if i < |el| {
        TotalUnitsUpdate(el, i, v);
      } else {
        TotalUnitsOfEmpty(i - |el|);
        TotalUnitsAppend(el, seq<Slot>(i - |el|, _ => None));
        TotalUnitsAppend(el + seq<Slot>(i - |el|, _ => None), [v]);
        assert TotalUnits([v]) == Units(v) by {
          assert [v][1..] == [];
        }
      }
    }
  }

  /**
   * Consuming from an occupied element removes exactly one unit from the
   * elements; consuming from an empty slot or a named property removes
   * none.
   */
  lemma ConsumeItemUnits(inv: InventoryArray, k: PropertyKey)
    requires StacksPositive(inv)
    ensures ReadSlot(inv, k).Some? && k.ElementKey? ==>
              TotalUnits(ConsumeItem(inv, k).elements) == TotalUnits(inv.elements) - 1
    ensures ReadSlot(inv, k).None? || k.NamedKey? ==>
              TotalUnits(ConsumeItem(inv, k).elements) == TotalUnits(inv.elements)
  {
    match ReadSlot(inv, k)
    case Some(item) =>
      if item.quantity > 1 {
        WriteSlotUnits(inv, k, Some(item.(quantity := item.quantity - 1)));
      } else {
        if k.ElementKey? {
          assert inv.elements[k.index] == Some(item);
        }
        WriteSlotUnits(inv, k, None);
      }
    case None =>
      WriteSlotUnits(inv, k, None);
  }

  /**
   * A successful move between two different elements loses exactly the
   * units of whatever occupied the destination; a move of an element onto
   * itself loses the moved stack.
   */
  lemma MoveItemUnits(inv: InventoryArray, from: PropertyKey, to: PropertyKey, itemId: Option<string>)
    requires from.ElementKey? && to.ElementKey?
    requires MoveItem(inv, from, to, itemId).Some?
    ensures from != to ==>
              TotalUnits(MoveItem(inv, from, to, itemId).value.elements)
              == TotalUnits(inv.elements) - Units(ReadSlot(inv, to))
    ensures from == to ==>
              TotalUnits(MoveItem(inv, from, to, itemId).value.elements)
              == TotalUnits(inv.elements) - Units(ReadSlot(inv, from))
  {
    var item := ReadSlot(inv, from);
    var mid := WriteSlot(inv, to, item);
    WriteSlotUnits(inv, to, item);
    WriteSlotUnits(mid, from, None);
    ReadOverWrite(inv, to, item, from);
  }
}
