/**
 * The repair scheduler as pure step functions over the container's state:
 * one tick either commits the armed target or scans one shell; power,
 * user access and stream reads change the state as the container does.
 */
module Scheduler {
  import opened Wrappers
  import opened Geometry
  import opened Inventory
  import opened Blocks
  import opened Recipes
  import opened Claims
  import opened Shells

  /** Everything the tick logic reads and writes in the container. */
  datatype RepairState = RepairState(
    isOn: bool,
    isAccessed: bool,                     // a remote player has the container open
    userAccessing: bool,                  // a local player has the container open
    doRepair: bool,                       // a target is armed for the next tick
    repairPosition: Vec3,
    repairBlock: BlockValue,              // snapshot of the target block at arming time
    repairDamage: nat,                    // the target's damage at arming time
    currentDistance: nat,                 // the shell the next scan examines
    lastMissingItem: Option<ItemName>,
    slots: seq<ItemStack>)

  /** What a tick reads from the game besides the world. */
  datatype Game = Game(
    blocks: BlockTable,
    players: seq<PlayerData>,
    owner: PlayerId,
    landClaimSize: nat,
    isDark: bool)

  /** An armed target is a real block whose recorded damage is its snapshot's damage. */
  predicate TargetConsistent(s: RepairState)
  {
    s.doRepair ==> s.repairBlock.btype != AirType && s.repairBlock.damage == s.repairDamage
  }

  /** Drop the acquired target; nothing happens when the target is already air. */
  function ResetAcquired(s: RepairState, origin: Vec3): (r: RepairState)
  {
    if s.repairBlock.btype != AirType then s.(doRepair := false, repairBlock := Air, repairPosition := origin)
    else s
  }

  /** The power setter: a change of value restarts the scan at shell 0; the same value changes nothing. */
  function SetPower(s: RepairState, value: bool): RepairState
  {
    if s.isOn != value then s.(isOn := value, currentDistance := 0) else s
  }

  /** The first three scan tests: a non-air block, damaged by at least a tenth, inside a claim. */
  predicate Candidate(b: BlockValue, pos: Vec3, game: Game)
  {
    b.btype != AirType
    && 10 * b.damage >= game.blocks(b.btype).maxDamage
    && IsBlockInsideClaim(game.players, game.owner, pos, LandRadius(game.landClaimSize), true)
  }

  /** All four scan tests for the block at `pos`. */
  predicate Qualifying(world: World, pos: Vec3, game: Game, slots: seq<ItemStack>)
  {
    var b := BlockAt(world, pos);
    Candidate(b, pos, game) && Repairable(game.blocks(b.btype), b.damage, slots)
  }

  datatype ScanOutcome =
    | Armed(index: nat, missing: Option<ItemName>)
    | Exhausted(missing: Option<ItemName>)

  /**
   * The walk over one shell from index `from`: it stops at the first offset whose
   * block passes all four tests; each block that passes the first three but not
   * the material check may update the advisory.
   */
  function ScanFrom(shell: seq<Vec3>, origin: Vec3, world: World, game: Game, slots: seq<ItemStack>,
                    from: nat, missing: Option<ItemName>): (r: ScanOutcome)
    requires from <= |shell|
    ensures r.Armed? ==> from <= r.index < |shell|
    decreases |shell| - from
  {
    if from == |shell| then Exhausted(missing)
    else
      var pos := Add(origin, shell[from]);
      var b := BlockAt(world, pos);
      if Candidate(b, pos, game) then
        var info := game.blocks(b.btype);
        var m := MissingAfterCheck(info, b.damage, slots, missing);
        if Repairable(info, b.damage, slots) then Armed(from, m)
        else ScanFrom(shell, origin, world, game, slots, from + 1, m)
      else ScanFrom(shell, origin, world, game, slots, from + 1, missing)
  }

  /**
   * The walk arms the first offset from `from` on whose block passes all four
   * tests, and comes back exhausted only when no offset from `from` on qualifies.
   */
  lemma {:induction false} ScanFromFindsFirst(shell: seq<Vec3>, origin: Vec3, world: World, game: Game,
                                              slots: seq<ItemStack>, from: nat, missing: Option<ItemName>)
    requires from <= |shell|
    ensures var r := ScanFrom(shell, origin, world, game, slots, from, missing);
      r.Armed? ==> Qualifying(world, Add(origin, shell[r.index]), game, slots)
    ensures var r := ScanFrom(shell, origin, world, game, slots, from, missing);
      r.Armed? ==> forall j :: from <= j < r.index ==> !Qualifying(world, Add(origin, shell[j]), game, slots)
    ensures var r := ScanFrom(shell, origin, world, game, slots, from, missing);
      r.Exhausted? ==> forall j :: from <= j < |shell| ==> !Qualifying(world, Add(origin, shell[j]), game, slots)
    decreases |shell| - from
  {
    if from < |shell| {
      var pos := Add(origin, shell[from]);
      var b := BlockAt(world, pos);
      var m := if Candidate(b, pos, game) then MissingAfterCheck(game.blocks(b.btype), b.damage, slots, missing) else missing;
      ScanFromFindsFirst(shell, origin, world, game, slots, from + 1, m);
    }
  }

  /** The shell a scan examines: past the outermost shell it wraps to 0. */
  function ScanDistance(s: RepairState, landRadius: nat): nat
  {
    if s.currentDistance > landRadius then 0 else s.currentDistance
  }

  /** The scan branch of a tick: arm the first qualifying block of the current shell, or move one shell out. */
  function ScanStep(s: RepairState, world: World, game: Game, origin: Vec3, landRadius: nat): RepairState
  {
    ScanShellStep(s, world, game, origin, ScanDistance(s, landRadius), Shell(landRadius, ScanDistance(s, landRadius)))
  }

  /** The scan of shell `d`, whose offsets are `shell`, in shell order. */
  function ScanShellStep(s: RepairState, world: World, game: Game, origin: Vec3, d: nat, shell: seq<Vec3>): RepairState
  {
    match ScanFrom(shell, origin, world, game, s.slots, 0, s.lastMissingItem)
    case Armed(j, m) =>
      var pos := Add(origin, shell[j]);
      var b := BlockAt(world, pos);
      s.(currentDistance := d, repairPosition := pos, repairBlock := b, doRepair := true,
         repairDamage := b.damage, lastMissingItem := m)
    case Exhausted(m) =>
      s.(currentDistance := d + 1, lastMissingItem := m)
  }


  /**
   * The armed branch of a tick. A target whose live damage grew is dropped.
   * Otherwise the snapshot is checked again; when it still passes, its materials
   * are taken and the snapshot is written back undamaged at the target position.
   * Either way the target is not armed afterwards.
   */
  function RepairStep(s: RepairState, world: World, game: Game, origin: Vec3): (RepairState, World)
  {
    var live := BlockAt(world, s.repairPosition);
    if live.damage > s.repairDamage then (ResetAcquired(s, origin), world)
    else
      var info := game.blocks(s.repairBlock.btype);
      var m := MissingAfterCheck(info, s.repairBlock.damage, s.slots, s.lastMissingItem);
      if Repairable(info, s.repairBlock.damage, s.slots) then
        var repaired := s.repairBlock.(damage := 0);
        var taken := s.(slots := Withdrawn(info, s.repairBlock.damage, s.slots), lastMissingItem := m,
                        repairBlock := repaired);
        (ResetAcquired(taken, origin).(doRepair := false), world[s.repairPosition := repaired])
      else (s.(lastMissingItem := m, doRepair := false), world)
  }

  /** One call of the auto-repair routine: nothing in the dark, else commit or scan. */
  function AutoRepairStep(s: RepairState, world: World, game: Game, origin: Vec3, landRadius: nat)
    : (RepairState, World)
  {
    if game.isDark then (s, world)
    else if s.doRepair then RepairStep(s, world, game, origin)
    else (ScanStep(s, world, game, origin, landRadius), world)
  }

  /** Whether a tick runs the auto-repair routine: powered, and nobody has the container open. */
  predicate TickRuns(s: RepairState)
  {
    s.isOn && !s.userAccessing && !s.isAccessed
  }

  function UpdateTickStep(s: RepairState, world: World, game: Game, origin: Vec3, landRadius: nat)
    : (RepairState, World)
  {
    if TickRuns(s) then AutoRepairStep(s, world, game, origin, landRadius) else (s, world)
  }

  /**
   * A change of the local user-access flag. Opening hands out the advisory as a
   * one-shot notice (the second component), clears it, and drops the target.
   */
  function AccessStep(s: RepairState, accessing: bool, origin: Vec3): (RepairState, Option<ItemName>)
  {
    if s.userAccessing == accessing then (s, None)
    else if accessing then (ResetAcquired(s.(userAccessing := true, lastMissingItem := None), origin), s.lastMissingItem)
    else (s.(userAccessing := false), None)
  }

  // ---- The armed branch ----

  /** A target whose live damage grew is dropped: no materials taken, no block written, same shell. */
  lemma ArmedTargetInvalidated(s: RepairState, world: World, game: Game, origin: Vec3)
    requires s.doRepair && TargetConsistent(s)
    requires BlockAt(world, s.repairPosition).damage > s.repairDamage
    ensures var (r, w) := RepairStep(s, world, game, origin);
      w == world && r.slots == s.slots && !r.doRepair && r.repairBlock == Air && r.repairPosition == origin
      && r.currentDistance == s.currentDistance && r.lastMissingItem == s.lastMissingItem
  {
  }

  /**
   * A target whose snapshot still passes the material check is committed: its
   * materials are withdrawn, the snapshot is written with damage 0 at exactly the
   * target position and nowhere else, and the target is dropped.
   */
  lemma ArmedTargetCommitted(s: RepairState, world: World, game: Game, origin: Vec3)
    requires s.doRepair && TargetConsistent(s)
    requires BlockAt(world, s.repairPosition).damage <= s.repairDamage
    requires Repairable(game.blocks(s.repairBlock.btype), s.repairBlock.damage, s.slots)
    ensures var (r, w) := RepairStep(s, world, game, origin);
      r.slots == Withdrawn(game.blocks(s.repairBlock.btype), s.repairDamage, s.slots)
      && s.repairPosition in w && w[s.repairPosition] == BlockValue(s.repairBlock.btype, 0)
      && (forall p :: p != s.repairPosition ==> BlockAt(w, p) == BlockAt(world, p))
      && !r.doRepair && r.repairBlock == Air && r.repairPosition == origin
      && r.currentDistance == s.currentDistance && r.lastMissingItem == s.lastMissingItem
  {
    RepairableKeepsMissing(game.blocks(s.repairBlock.btype), s.repairBlock.damage, s.slots, s.lastMissingItem);
  }

  /**
   * A target whose snapshot no longer passes the material check is not retried:
   * it is disarmed but its snapshot stays, so the container still reports it.
   */
  lemma ArmedTargetShortOfMaterials(s: RepairState, world: World, game: Game, origin: Vec3)
    requires s.doRepair && TargetConsistent(s)
    requires BlockAt(world, s.repairPosition).damage <= s.repairDamage
    requires !Repairable(game.blocks(s.repairBlock.btype), s.repairBlock.damage, s.slots)
    ensures var (r, w) := RepairStep(s, world, game, origin);
      w == world && r.slots == s.slots && !r.doRepair
      && r.repairBlock == s.repairBlock && r.repairBlock.btype != AirType && r.repairPosition == s.repairPosition
      && r.lastMissingItem == MissingAfterCheck(game.blocks(s.repairBlock.btype), s.repairDamage, s.slots, s.lastMissingItem)
  {
  }

  /**
   * The commit trusts the snapshot, not the live block: a target removed since it
   * was armed (air now, so its damage did not grow) is put back whole.
   */
  lemma CommitRestoresRemovedTarget(s: RepairState, world: World, game: Game, origin: Vec3)
    requires s.doRepair && TargetConsistent(s)
    requires BlockAt(world, s.repairPosition) == Air
    requires Repairable(game.blocks(s.repairBlock.btype), s.repairBlock.damage, s.slots)
    ensures var w := RepairStep(s, world, game, origin).1;
      BlockAt(w, s.repairPosition) != Air && BlockAt(w, s.repairPosition).btype == s.repairBlock.btype
  {
  }

  /** Arming is exclusive: a tick that starts armed never arms again and never picks another target. */
  lemma ArmedTickDisarms(s: RepairState, world: World, game: Game, origin: Vec3)
    requires s.doRepair && TargetConsistent(s)
    ensures var r := RepairStep(s, world, game, origin).0;
      !r.doRepair && (r.repairBlock == s.repairBlock || r.repairBlock == Air)
      && (r.repairPosition == s.repairPosition || r.repairPosition == origin)
      && r.currentDistance == s.currentDistance
  {
  }

  // ---- The scan branch ----

  /**
   * The scan arms exactly when some offset of the current shell qualifies, and
   * then arms the first such offset in shell order, from the live block there,
   * without moving to another shell; otherwise it moves one shell out. The
   * inventory is never touched.
   */
  lemma {:induction false} ScanArmsFirstQualifying(s: RepairState, world: World, game: Game, origin: Vec3, landRadius: nat)
    requires !s.doRepair
    ensures var r := ScanStep(s, world, game, origin, landRadius);
      r.slots == s.slots && r.isOn == s.isOn && r.userAccessing == s.userAccessing && r.isAccessed == s.isAccessed
    ensures var shell := Shell(landRadius, ScanDistance(s, landRadius));
      (ScanStep(s, world, game, origin, landRadius).doRepair
       <==> exists j :: 0 <= j < |shell| && Qualifying(world, Add(origin, shell[j]), game, s.slots))
    ensures var shell := Shell(landRadius, ScanDistance(s, landRadius));
      var r := ScanStep(s, world, game, origin, landRadius);
      r.doRepair ==>
        (r.currentDistance == ScanDistance(s, landRadius) && r.repairBlock == BlockAt(world, r.repairPosition)
         && r.repairDamage == r.repairBlock.damage
         && exists j :: 0 <= j < |shell| && r.repairPosition == Add(origin, shell[j])
              && Qualifying(world, r.repairPosition, game, s.slots)
              && forall i :: 0 <= i < j ==> !Qualifying(world, Add(origin, shell[i]), game, s.slots))
    ensures var r := ScanStep(s, world, game, origin, landRadius);
      !r.doRepair ==>
        (r.currentDistance == ScanDistance(s, landRadius) + 1 && r.repairBlock == s.repairBlock
         && r.repairPosition == s.repairPosition && r.repairDamage == s.repairDamage)
  {
    var d := ScanDistance(s, landRadius);
    var shell := Shell(landRadius, d);
    var r := ScanStep(s, world, game, origin, landRadius);
    var outcome := ScanFrom(shell, origin, world, game, s.slots, 0, s.lastMissingItem);
    ScanFromFindsFirst(shell, origin, world, game, s.slots, 0, s.lastMissingItem);
    if outcome.Armed? {
      var j := outcome.index;
      assert r.repairPosition == Add(origin, shell[j]);
      assert Qualifying(world, Add(origin, shell[j]), game, s.slots);
    }
  }

  /** A scan never arms air, and what it arms is consistent with its recorded damage. */
  lemma ScanKeepsTargetConsistent(s: RepairState, world: World, game: Game, origin: Vec3, landRadius: nat)
    requires !s.doRepair
    ensures TargetConsistent(ScanStep(s, world, game, origin, landRadius))
  {
    ScanArmsFirstQualifying(s, world, game, origin, landRadius);
  }

  /** The scan reads a shell in 0 .. landRadius and leaves the next shell index at most landRadius + 1. */
  lemma ScanDistanceBounds(s: RepairState, world: World, game: Game, origin: Vec3, landRadius: nat)
    requires !s.doRepair
    ensures ScanDistance(s, landRadius) <= landRadius
    ensures ScanStep(s, world, game, origin, landRadius).currentDistance <= landRadius + 1
    ensures s.currentDistance > landRadius ==> ScanStep(s, world, game, origin, landRadius).currentDistance <= 1
  {
    ScanArmsFirstQualifying(s, world, game, origin, landRadius);
  }

  /**
   * An armed target lies in the claim cube around the container, at the Chebyshev
   * distance of the shell being scanned.
   */
  lemma ArmedTargetInReach(s: RepairState, world: World, game: Game, origin: Vec3, landRadius: nat)
    requires !s.doRepair && ScanStep(s, world, game, origin, landRadius).doRepair
    ensures var r := ScanStep(s, world, game, origin, landRadius);
      var offset := Vec3(r.repairPosition.x - origin.x, r.repairPosition.y - origin.y, r.repairPosition.z - origin.z);
      InCube(offset, landRadius) && Chebyshev(offset) == ScanDistance(s, landRadius)
  {
    ScanArmsFirstQualifying(s, world, game, origin, landRadius);
    var r := ScanStep(s, world, game, origin, landRadius);
    var d := ScanDistance(s, landRadius);
    var shell := Shell(landRadius, d);
    var j :| 0 <= j < |shell| && r.repairPosition == Add(origin, shell[j]);
    var offset := Vec3(r.repairPosition.x - origin.x, r.repairPosition.y - origin.y, r.repairPosition.z - origin.z);
    assert offset == shell[j];
    OccurrencesOfEntry(shell, j);
    ShellPartition(landRadius, d, shell[j]);
  }

  // ---- Whole ticks, power, access ----

  /**
   * A tick does nothing in the dark. The first two clauses only unfold the gate
   * of UpdateTickStep (powered, and nobody has the container open); the third
   * combines it with the darkness check of AutoRepairStep.
   */
  lemma TickGated(s: RepairState, world: World, game: Game, origin: Vec3, landRadius: nat)
    ensures !TickRuns(s) ==> UpdateTickStep(s, world, game, origin, landRadius) == (s, world)
    ensures TickRuns(s) ==> UpdateTickStep(s, world, game, origin, landRadius) == AutoRepairStep(s, world, game, origin, landRadius)
    ensures game.isDark ==> UpdateTickStep(s, world, game, origin, landRadius) == (s, world)
  {
  }

  /** Every tick keeps an armed target consistent and never changes the power or access flags. */
  lemma TickKeepsTargetConsistent(s: RepairState, world: World, game: Game, origin: Vec3, landRadius: nat)
    requires TargetConsistent(s)
    ensures var r := UpdateTickStep(s, world, game, origin, landRadius).0;
      TargetConsistent(r) && r.isOn == s.isOn && r.userAccessing == s.userAccessing && r.isAccessed == s.isAccessed
  {
    if TickRuns(s) && !game.isDark && !s.doRepair {
      ScanKeepsTargetConsistent(s, world, game, origin, landRadius);
      ScanArmsFirstQualifying(s, world, game, origin, landRadius);
    }
  }

  /** Resetting the target twice is resetting it once; resetting an air target changes nothing. */
  lemma ResetIdempotent(s: RepairState, origin: Vec3)
    ensures ResetAcquired(ResetAcquired(s, origin), origin) == ResetAcquired(s, origin)
    ensures s.repairBlock.btype == AirType ==> ResetAcquired(s, origin) == s
    ensures TargetConsistent(s) ==> !ResetAcquired(s, origin).doRepair
  {
  }

  /**
   * The power setter only restarts the scan, and only on a real change: an armed
   * target and the inventory survive it.
   */
  lemma PowerOnlyRestartsScan(s: RepairState, value: bool)
    ensures var r := SetPower(s, value);
      r.isOn == value && r.doRepair == s.doRepair && r.repairBlock == s.repairBlock
      && r.repairPosition == s.repairPosition && r.slots == s.slots
      && r.currentDistance == (if s.isOn != value then 0 else s.currentDistance)
  {
  }

  /**
   * Opening the container hands out the advisory once, clears it, and drops the
   * target; closing it or repeating the current flag announces nothing.
   */
  lemma OpeningCancelsTarget(s: RepairState, accessing: bool, origin: Vec3)
    requires TargetConsistent(s)
    ensures var (r, notice) := AccessStep(s, accessing, origin);
      r.userAccessing == accessing && TargetConsistent(r) && r.slots == s.slots
      && (accessing && !s.userAccessing ==>
            notice == s.lastMissingItem && r.lastMissingItem == None && !r.doRepair && r.repairBlock.btype == AirType)
      && (!accessing || s.userAccessing ==> notice == None && r.lastMissingItem == s.lastMissingItem)
  {
  }
}
