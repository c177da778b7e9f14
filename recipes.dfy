/**
 * Repair eligibility and material withdrawal: how many of each recipe item a
 * damaged block needs, whether the slots hold enough, and the slots after the
 * materials are taken.
 */
module Recipes {
  import opened Wrappers
  import opened Inventory
  import opened Blocks

  /**
   * Items of one recipe line a block with `damage` out of `maxDamage` needs:
   * the full count scaled by the damage fraction, rounded up.
   */
  function Needed(count: nat, damage: nat, maxDamage: Positive): nat
  {
    (count * damage + maxDamage - 1) / maxDamage
  }

  /** Needed is the exact ceiling of count * damage / maxDamage. */
  lemma NeededIsCeiling(count: nat, damage: nat, maxDamage: Positive)
    ensures Needed(count, damage, maxDamage) * maxDamage >= count * damage
    ensures (Needed(count, damage, maxDamage) - 1) * maxDamage < count * damage || Needed(count, damage, maxDamage) == 0
  {
  }

  /** More damage never needs fewer items. */
  lemma NeededMonotone(count: nat, d1: nat, d2: nat, maxDamage: Positive)
    requires d1 <= d2
    ensures Needed(count, d1, maxDamage) <= Needed(count, d2, maxDamage)
  {
    NeededIsCeiling(count, d1, maxDamage);
    NeededIsCeiling(count, d2, maxDamage);
    assert count * d1 <= count * d2 by {
      MulMonotone(count, d1, d2);
    }
  }

  lemma MulMonotone(c: nat, a: int, b: int)
    requires a <= b
    ensures c * a <= c * b
  {
  }

  /** An undamaged block needs nothing, a block at its breaking damage needs the full count. */
  lemma NeededEnds(count: nat, maxDamage: Positive)
    ensures Needed(count, 0, maxDamage) == 0
    ensures Needed(count, maxDamage, maxDamage) == count
  {
    NeededIsCeiling(count, 0, maxDamage);
    NeededIsCeiling(count, maxDamage, maxDamage);
    var q := Needed(count, maxDamage, maxDamage);
    if q < count {
      MulMonotone(maxDamage, q, count - 1);
    } else if q > count {
      MulMonotone(maxDamage, count, q - 1);
    }
  }

  /** Whether the slots cover one recipe line for a block with the given damage. */
  predicate Covered(line: RecipeLine, damage: nat, maxDamage: Positive, slots: seq<ItemStack>)
  {
    Count(slots, line.item) >= Needed(line.count, damage, maxDamage)
  }

  /** A block can be repaired when it has a non-empty recipe and every line is covered. */
  predicate Repairable(info: BlockInfo, damage: nat, slots: seq<ItemStack>)
  {
    match info.repairItems
    case None => false
    case Some(lines) =>
      |lines| > 0 && forall j :: 0 <= j < |lines| ==> Covered(lines[j], damage, info.maxDamage, slots)
  }

  /** The first recipe line at or after `from` that the slots do not cover, if any. */
  function FirstShortfall(lines: seq<RecipeLine>, damage: nat, maxDamage: Positive, slots: seq<ItemStack>, from: nat)
    : (r: Option<nat>)
    requires from <= |lines|
    ensures r.Some? ==> from <= r.value < |lines|
    decreases |lines| - from
  {
    if from == |lines| then None
    else if !Covered(lines[from], damage, maxDamage, slots) then Some(from)
    else FirstShortfall(lines, damage, maxDamage, slots, from + 1)
  }

  /**
   * The search reports the first uncovered line at or after `from`, and reports
   * none only when every line from there on is covered.
   */
  lemma {:induction false} FirstShortfallFinds(lines: seq<RecipeLine>, damage: nat, maxDamage: Positive,
                                               slots: seq<ItemStack>, from: nat)
    requires from <= |lines|
    ensures var r := FirstShortfall(lines, damage, maxDamage, slots, from);
      r.Some? ==> !Covered(lines[r.value], damage, maxDamage, slots)
    ensures var r := FirstShortfall(lines, damage, maxDamage, slots, from);
      r.Some? ==> forall j :: from <= j < r.value ==> Covered(lines[j], damage, maxDamage, slots)
    ensures var r := FirstShortfall(lines, damage, maxDamage, slots, from);
      r.None? <==> forall j :: from <= j < |lines| ==> Covered(lines[j], damage, maxDamage, slots)
    decreases |lines| - from
  {
    if from < |lines| {
      FirstShortfallFinds(lines, damage, maxDamage, slots, from + 1);
    }
  }

  /**
   * The "last missing item" advisory after checking a block: the check stops at
   * the first uncovered line and records its item only when none of it is in
   * stock; otherwise the previous advisory stays.
   */
  function MissingAfterCheck(info: BlockInfo, damage: nat, slots: seq<ItemStack>, previous: Option<ItemName>)
    : Option<ItemName>
  {
    match info.repairItems
    case None => previous
    case Some(lines) =>
      match FirstShortfall(lines, damage, info.maxDamage, slots, 0)
      case None => previous
      case Some(i) => if Count(slots, lines[i].item) == 0 then Some(lines[i].item) else previous
  }

  /** A repairable block never changes the advisory. */
  lemma RepairableKeepsMissing(info: BlockInfo, damage: nat, slots: seq<ItemStack>, previous: Option<ItemName>)
    requires Repairable(info, damage, slots)
    ensures MissingAfterCheck(info, damage, slots, previous) == previous
  {
    FirstShortfallFinds(info.repairItems.value, damage, info.maxDamage, slots, 0);
  }

  /**
   * When the check changes the advisory, the block is not repairable and the
   * recorded item is that of the first uncovered recipe line, of which the
   * slots hold none.
   */
  lemma MissingOnlyWhenOutOfStock(info: BlockInfo, damage: nat, slots: seq<ItemStack>, previous: Option<ItemName>)
    requires MissingAfterCheck(info, damage, slots, previous) != previous
    ensures !Repairable(info, damage, slots)
    ensures info.repairItems.Some?
    ensures var lines := info.repairItems.value;
      exists i :: 0 <= i < |lines|
        && (forall j :: 0 <= j < i ==> Covered(lines[j], damage, info.maxDamage, slots))
        && !Covered(lines[i], damage, info.maxDamage, slots)
        && Count(slots, lines[i].item) == 0
        && MissingAfterCheck(info, damage, slots, previous) == Some(lines[i].item)
  {
    FirstShortfallFinds(info.repairItems.value, damage, info.maxDamage, slots, 0);
  }

  /**
   * The first uncovered recipe line decides the advisory: its item when the
   * slots hold none of it, and the previous advisory when they hold some.
   */
  lemma FirstShortfallDecidesMissing(info: BlockInfo, damage: nat, slots: seq<ItemStack>, previous: Option<ItemName>,
                                     i: nat)
    requires info.repairItems.Some? && i < |info.repairItems.value|
    requires forall j :: 0 <= j < i ==> Covered(info.repairItems.value[j], damage, info.maxDamage, slots)
    requires !Covered(info.repairItems.value[i], damage, info.maxDamage, slots)
    ensures var item := info.repairItems.value[i].item;
      MissingAfterCheck(info, damage, slots, previous) == if Count(slots, item) == 0 then Some(item) else previous
  {
    var lines := info.repairItems.value;
    FirstShortfallFinds(lines, damage, info.maxDamage, slots, 0);
    FirstShortfallFinds(lines, damage, info.maxDamage, slots, i);
    assert FirstShortfall(lines, damage, info.maxDamage, slots, 0) == Some(i);
  }

  /** The slots after debiting lines 0 .. n - 1 of a recipe, in order. */
  function DebitLines(slots: seq<ItemStack>, lines: seq<RecipeLine>, damage: nat, maxDamage: Positive, n: nat)
    : (r: seq<ItemStack>)
    requires n <= |lines|
    ensures |r| == |slots|
  {
    if n == 0 then slots
    else
      var line := lines[n - 1];
      Debit(DebitLines(slots, lines, damage, maxDamage, n - 1), line.item, Needed(line.count, damage, maxDamage))
  }

  /** The slots after taking a block's repair materials; unchanged when it has no recipe. */
  function Withdrawn(info: BlockInfo, damage: nat, slots: seq<ItemStack>): (r: seq<ItemStack>)
    ensures |r| == |slots|
  {
    match info.repairItems
    case None => slots
    case Some(lines) => DebitLines(slots, lines, damage, info.maxDamage, |lines|)
  }

  predicate DistinctItems(lines: seq<RecipeLine>)
  {
    forall i, j :: 0 <= i < j < |lines| ==> lines[i].item != lines[j].item
  }

  lemma {:induction false} DebitLinesCount(slots: seq<ItemStack>, lines: seq<RecipeLine>, damage: nat, maxDamage: Positive,
                                           n: nat, name: ItemName)
    requires n <= |lines| && DistinctItems(lines)
    requires forall j :: 0 <= j < |lines| ==> Covered(lines[j], damage, maxDamage, slots)
    ensures forall j :: 0 <= j < n && lines[j].item == name ==>
      Count(DebitLines(slots, lines, damage, maxDamage, n), name) == Count(slots, name) - Needed(lines[j].count, damage, maxDamage)
    ensures (forall j :: 0 <= j < n ==> lines[j].item != name) ==>
      Count(DebitLines(slots, lines, damage, maxDamage, n), name) == Count(slots, name)
  {
    if n > 0 {
      DebitLinesCount(slots, lines, damage, maxDamage, n - 1, name);
      var before := DebitLines(slots, lines, damage, maxDamage, n - 1);
      var line := lines[n - 1];
      var need := Needed(line.count, damage, maxDamage);
      if line.item == name {
        assert Covered(line, damage, maxDamage, slots);
        DebitRemoves(before, name, need);
      } else {
        DebitKeepsOthers(before, line.item, need, name);
      }
    }
  }

  /**
   * Taking the materials of a repairable block whose recipe names distinct items
   * lowers each recipe item's total by exactly the amount the check required,
   * and leaves every other item's total as it was.
   */
  lemma WithdrawnMatchesCheck(info: BlockInfo, damage: nat, slots: seq<ItemStack>, name: ItemName)
    requires Repairable(info, damage, slots) && DistinctItems(info.repairItems.value)
    ensures forall j :: 0 <= j < |info.repairItems.value| && info.repairItems.value[j].item == name ==>
      Count(Withdrawn(info, damage, slots), name)
        == Count(slots, name) - Needed(info.repairItems.value[j].count, damage, info.maxDamage)
    ensures (forall j :: 0 <= j < |info.repairItems.value| ==> info.repairItems.value[j].item != name) ==>
      Count(Withdrawn(info, damage, slots), name) == Count(slots, name)
  {
    var lines := info.repairItems.value;
    DebitLinesCount(slots, lines, damage, info.maxDamage, |lines|, name);
  }
}
