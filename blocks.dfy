/** Blocks, the block table, and the world as the container sees them. */
module Blocks {
  import opened Wrappers
  import opened Geometry
  import opened Inventory

  /** A block type identifier (an index into the game's block list). */
  type BlockType = nat

  /** The type of the air block, which stands for "no block" (the game's BlockValue.Air). */
  const AirType: BlockType := 0

  /** The part of a block value the container uses: its type and its damage. */
  datatype BlockValue = BlockValue(btype: BlockType, damage: nat)

  const Air: BlockValue := BlockValue(AirType, 0)

  /** One line of a block's repair recipe: an item and the count a full repair takes. */
  datatype RecipeLine = RecipeLine(item: ItemName, count: nat)

  type Positive = n: int | n > 0 witness 1

  /**
   * What the block table says about one block type: the damage at which it
   * breaks, and its repair recipe, absent for blocks that cannot be repaired.
   */
  datatype BlockInfo = BlockInfo(maxDamage: Positive, repairItems: Option<seq<RecipeLine>>)

  /** The game's block list, indexed by block type. */
  type BlockTable = BlockType -> BlockInfo

  /** The world's blocks; a position the map does not hold reads as air. */
  type World = map<Vec3, BlockValue>

  function BlockAt(world: World, pos: Vec3): (b: BlockValue)
    ensures pos !in world ==> b == Air
  {
    if pos in world then world[pos] else Air
  }
}
