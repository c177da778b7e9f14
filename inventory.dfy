/**
 * The container's slots and the two ledger operations on them: counting an
 * item over all slots, and debiting an amount of it slot by slot.
 */
module Inventory {

  /** An item identifier; items are matched by plain identifier equality. */
  type ItemName = string

  /** The identifier of the empty item, which no slot holding goods carries. */
  const NoItem: ItemName := ""

  /** One inventory slot: an item and how many of it the slot holds. */
  datatype ItemStack = ItemStack(item: ItemName, count: nat)
  {
    predicate IsEmpty()
    {
      count == 0 || item == NoItem
    }
  }

  const EmptyStack: ItemStack := ItemStack(NoItem, 0)

  /** Whether a slot is a non-empty stack of the named item. */
  predicate Holds(stack: ItemStack, name: ItemName)
  {
    !stack.IsEmpty() && stack.item == name
  }

  /** How many of the named item one slot contributes to the total. */
  function Share(stack: ItemStack, name: ItemName): nat
  {
    if Holds(stack, name) then stack.count else 0
  }

  /** Total count of the named item over every slot. */
  function Count(slots: seq<ItemStack>, name: ItemName): nat
  {
    if slots == [] then 0 else Share(slots[0], name) + Count(slots[1..], name)
  }

  function Min(a: nat, b: nat): nat
  {
    if a <= b then a else b
  }

  /**
   * The slots after debiting `amount` of the named item: matching slots are
   * drained in index order, the remainder carried to the next matching slot.
   * Item identifiers never change, no slot grows, and slots that do not hold
   * the item are left as they were (see DebitShape).
   */
  function Debit(slots: seq<ItemStack>, name: ItemName, amount: nat): (r: seq<ItemStack>)
    ensures |r| == |slots|
  {
    if slots == [] then []
    else if !Holds(slots[0], name) then [slots[0]] + Debit(slots[1..], name, amount)
    else if amount <= slots[0].count then [slots[0].(count := slots[0].count - amount)] + slots[1..]
    else [slots[0].(count := 0)] + Debit(slots[1..], name, amount - slots[0].count)
  }

  /**
   * The debit as the in-place walk performs it: slots before `from` are already
   * settled and the walk continues at `from` with `amount` still to take.
   */
  function DebitFrom(slots: seq<ItemStack>, name: ItemName, amount: nat, from: nat): (r: seq<ItemStack>)
    requires from <= |slots|
    decreases |slots| - from
  {
    if from == |slots| then slots
    else if !Holds(slots[from], name) then DebitFrom(slots, name, amount, from + 1)
    else if amount <= slots[from].count then slots[from := slots[from].(count := slots[from].count - amount)]
    else DebitFrom(slots[from := slots[from].(count := 0)], name, amount - slots[from].count, from + 1)
  }

  /** The walk from `from` leaves the settled prefix alone and debits the rest. */
  lemma {:induction false} DebitFromIsDebit(slots: seq<ItemStack>, name: ItemName, amount: nat, from: nat)
    requires from <= |slots|
    ensures DebitFrom(slots, name, amount, from) == slots[..from] + Debit(slots[from..], name, amount)
    decreases |slots| - from
  {
    if from < |slots| {
      var stack := slots[from];
      assert slots[from..][1..] == slots[from + 1..];
      if !Holds(stack, name) {
        DebitFromIsDebit(slots, name, amount, from + 1);
        assert slots[..from + 1] == slots[..from] + [stack];
      } else if amount <= stack.count {
        assert slots[from := stack.(count := stack.count - amount)]
            == slots[..from] + [stack.(count := stack.count - amount)] + slots[from + 1..];
      } else {
        var drained := slots[from := stack.(count := 0)];
        DebitFromIsDebit(drained, name, amount - stack.count, from + 1);
        assert drained[..from + 1] == slots[..from] + [stack.(count := 0)];
        assert drained[from + 1..] == slots[from + 1..];
      }
    } else {
      assert slots[from..] == [];
    }
  }

  /**
   * A debit keeps every slot's item, never makes a slot grow (nor, counts being
   * natural numbers, negative), and leaves slots not holding the item as they were.
   */
  lemma {:induction false} DebitShape(slots: seq<ItemStack>, name: ItemName, amount: nat, i: nat)
    requires i < |slots|
    ensures Debit(slots, name, amount)[i].item == slots[i].item
    ensures Debit(slots, name, amount)[i].count <= slots[i].count
    ensures !Holds(slots[i], name) ==> Debit(slots, name, amount)[i] == slots[i]
  {
    var r := Debit(slots, name, amount);
    var tail := slots[1..];
    if i > 0 {
      assert slots[i] == tail[i - 1];
      if !Holds(slots[0], name) {
        assert r == [slots[0]] + Debit(tail, name, amount);
        DebitShape(tail, name, amount, i - 1);
      } else if amount <= slots[0].count {
        assert r == [slots[0].(count := slots[0].count - amount)] + tail;
      } else {
        assert r == [slots[0].(count := 0)] + Debit(tail, name, amount - slots[0].count);
        DebitShape(tail, name, amount - slots[0].count, i - 1);
      }
    }
  }

  /**
   * A debit removes exactly min(amount, what is in stock) of the item: the whole
   * amount when the stock covers it, and all of the stock otherwise.
   */
  lemma {:induction false} DebitRemoves(slots: seq<ItemStack>, name: ItemName, amount: nat)
    ensures Count(Debit(slots, name, amount), name) == Count(slots, name) - Min(amount, Count(slots, name))
  {
    if slots != [] {
      var r := Debit(slots, name, amount);
      if !Holds(slots[0], name) {
        DebitRemoves(slots[1..], name, amount);
        assert r[1..] == Debit(slots[1..], name, amount);
      } else if amount <= slots[0].count {
        assert r[1..] == slots[1..];
      } else {
        DebitRemoves(slots[1..], name, amount - slots[0].count);
        assert r[1..] == Debit(slots[1..], name, amount - slots[0].count);
      }
    }
  }

  /** A debit of one item leaves the count of every other item unchanged. */
  lemma {:induction false} DebitKeepsOthers(slots: seq<ItemStack>, name: ItemName, amount: nat, other: ItemName)
    requires other != name
    ensures Count(Debit(slots, name, amount), other) == Count(slots, other)
  {
    if slots != [] {
      var r := Debit(slots, name, amount);
      if !Holds(slots[0], name) {
        DebitKeepsOthers(slots[1..], name, amount, other);
        assert r[1..] == Debit(slots[1..], name, amount);
      } else if amount <= slots[0].count {
        assert r[1..] == slots[1..];
      } else {
        DebitKeepsOthers(slots[1..], name, amount - slots[0].count, other);
        assert r[1..] == Debit(slots[1..], name, amount - slots[0].count);
      }
    }
  }

  /**
   * A debit drains in index order: when it changes a slot, every earlier slot
   * holding the item has been emptied.
   */
  lemma {:induction false} DebitInOrder(slots: seq<ItemStack>, name: ItemName, amount: nat, i: nat, j: nat)
    requires i < j < |slots|
    requires Holds(slots[i], name)
    requires Debit(slots, name, amount)[j] != slots[j]
    ensures Debit(slots, name, amount)[i].count == 0
  {
    var r := Debit(slots, name, amount);
    var tail := slots[1..];
    assert slots[j] == tail[j - 1];
    if !Holds(slots[0], name) {
      var rest := Debit(tail, name, amount);
      assert r == [slots[0]] + rest;
      assert slots[i] == tail[i - 1] && r[i] == rest[i - 1] && r[j] == rest[j - 1];
      DebitInOrder(tail, name, amount, i - 1, j - 1);
    } else if amount <= slots[0].count {
      // the debit stops at slot 0, so slot j cannot have changed
      assert false;
    } else if i > 0 {
      var rest := Debit(tail, name, amount - slots[0].count);
      assert r == [slots[0].(count := 0)] + rest;
      assert slots[i] == tail[i - 1] && r[i] == rest[i - 1] && r[j] == rest[j - 1];
      DebitInOrder(tail, name, amount - slots[0].count, i - 1, j - 1);
    }
  }
}
