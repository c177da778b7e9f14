/**
 * The auto-repair container: a storage block that, while powered, scans the
 * shells around itself one per tick for a damaged block of its owner's claim,
 * arms it, and on the next tick repairs it from its own inventory.
 */
module Container {
  import opened Wrappers
  import opened Geometry
  import opened Inventory
  import opened Blocks
  import opened Recipes
  import opened Claims
  import opened Shells
  import opened Scheduler
  import opened Codec

  /** Slots 0 .. r of the index hold the shells of `done`; slot r + 1 is unused. */
  ghost predicate Indexes(points: array<Option<seq<Vec3>>>, r: int, done: seq<Vec3>)
    reads points
  {
    0 <= r && points.Length == r + 2
    && (forall k :: 0 <= k <= r ==> points[k] == Some(AtDistance(done, k)))
    && points[r + 1] == None
  }

  class TileEntityClaimAutoRepair {
    /** The container's world position. */
    const position: Vec3
    /** The inventory slots (owned by the base storage container). */
    const items: array<ItemStack>

    var isOn: bool
    var isAccessed: bool
    var userAccessing: bool
    var repairPosition: Vec3
    var repairBlock: BlockValue
    var repairDamage: nat
    var doRepair: bool
    /** The shell index, built once by the constructor. */
    const maxRadius: nat
    const landRadius: nat
    /** Shell k of the index at slot k; the last slot is never filled (None). */
    const allPoints: array<Option<seq<Vec3>>>
    var currentDistance: nat
    var lastMissingItem: Option<ItemName>

    /** The shell index holds, at slot k, shell k of the cube of radius landRadius. */
    ghost predicate Indexed()
      reads allPoints
    {
      maxRadius == landRadius + 1
      && allPoints.Length == maxRadius + 1
      && (forall k :: 0 <= k <= landRadius ==> allPoints[k] == Some(Shell(landRadius, k)))
      && allPoints[maxRadius] == None
    }

    /** The shell index is built, and an armed target is a consistent snapshot. */
    ghost predicate Valid()
      reads this, allPoints, items
    {
      Indexed() && TargetConsistent(State())
    }

    /** The container's state as the scheduler sees it. */
    function State(): (s: RepairState)
      reads this, items
    {
      RepairState(isOn, isAccessed, userAccessing, doRepair, repairPosition, repairBlock, repairDamage,
                  currentDistance, lastMissingItem, items[..])
    }

    constructor (position: Vec3, slotCount: nat, landClaimSize: nat)
      ensures Valid() && fresh(items) && fresh(allPoints)
      ensures this.position == position && landRadius == LandRadius(landClaimSize)
      ensures State() == RepairState(false, false, false, false, Origin, Air, 0, 0, None, seq(slotCount, _ => EmptyStack))
    {
      this.position := position;
      items := new ItemStack[slotCount](_ => EmptyStack);
      isOn, isAccessed, userAccessing := false, false, false;
      repairPosition, repairBlock, repairDamage, doRepair := Origin, Air, 0, false;
      currentDistance, lastMissingItem := 0, None;
      var r, m, points := InitPoints(landClaimSize);
      landRadius, maxRadius, allPoints := r, m, points;
    }

    /**
     * Build the shell index for the land-claim size: slots 0 .. landRadius get
     * empty lists, then every offset of the cube is appended, in x, y, z loop
     * order, to the list of its Chebyshev distance.
     */
    static method InitPoints(landClaimSize: nat) returns (landRadius: nat, maxRadius: nat, allPoints: array<Option<seq<Vec3>>>)
      ensures fresh(allPoints)
      ensures landRadius == LandRadius(landClaimSize) && maxRadius == landRadius + 1
      ensures allPoints.Length == maxRadius + 1
      ensures forall k :: 0 <= k <= landRadius ==> allPoints[k] == Some(Shell(landRadius, k))
      ensures allPoints[maxRadius] == None
    {
      var r: int := LandRadius(landClaimSize);
      var points := new Option<seq<Vec3>>[r + 2](k => if k <= r then Some([]) else None);
      assert Indexes(points, r, []);
      ghost var done: seq<Vec3> := [];
      var x := -r;
      while x <= r
        invariant -r <= x <= r + 1
        invariant done == XRun(r, x)
        invariant Indexes(points, r, done)
      {
        done := IndexPlane(points, r, x, done);
        assert XRun(r, x + 1) == XRun(r, x) + YRun(r, x, r + 1);
        x := x + 1;
      }
      assert done == CubeOrder(r);
      landRadius := r;
      maxRadius := r + 1;
      allPoints := points;
    }

    /**
     * The middle loop of InitPoints: append the offsets (x, -r .. r, -r .. r),
     * row by row, to the lists of their distances.
     */
    static method IndexPlane(points: array<Option<seq<Vec3>>>, r: int, x: int, ghost done: seq<Vec3>)
        returns (ghost done': seq<Vec3>)
      requires 0 <= r && -r <= x <= r
      requires Indexes(points, r, done)
      modifies points
      ensures done' == done + YRun(r, x, r + 1)
      ensures Indexes(points, r, done')
    {
      done' := done;
      var y := -r;
      while y <= r
        invariant -r <= y <= r + 1
        invariant done' == done + YRun(r, x, y)
        invariant Indexes(points, r, done')
      {
        done' := IndexRow(points, r, x, y, done');
        assert YRun(r, x, y + 1) == YRun(r, x, y) + ZRun(r, x, y, r + 1);
        assert done' == done + (YRun(r, x, y) + ZRun(r, x, y, r + 1));
        y := y + 1;
      }
    }

    /**
     * The innermost loop of InitPoints: append the offsets (x, y, -r .. r)
     * to the lists of their distances.
     */
    static method IndexRow(points: array<Option<seq<Vec3>>>, r: int, x: int, y: int, ghost done: seq<Vec3>)
        returns (ghost done': seq<Vec3>)
      requires 0 <= r && -r <= x <= r && -r <= y <= r
      requires Indexes(points, r, done)
      modifies points
      ensures done' == done + ZRun(r, x, y, r + 1)
      ensures Indexes(points, r, done')
    {
      done' := done;
      var z := -r;
      while z <= r
        invariant -r <= z <= r + 1
        invariant done' == done + ZRun(r, x, y, z)
        invariant Indexes(points, r, done')
      {
        var vector := Vec3(x, y, z);
        var distance := Max(Abs(x), Max(Abs(y), Abs(z)));
        assert distance == Chebyshev(vector) && distance <= r;
        AtDistanceAppend(done', vector);
        ghost var prev := done';
        assert forall k :: 0 <= k <= r ==> points[k] == Some(AtDistance(prev, k));
        var list := points[distance].value;
        assert list == AtDistance(prev, distance);
        points[distance] := Some(list + [vector]);
        done' := done' + [vector];
        forall k | 0 <= k <= r
          ensures points[k] == Some(AtDistance(done', k))
        {
          assert AtDistance(done', k) == AtDistance(prev, k) + (if distance == k then [vector] else []);
          if k != distance {
            assert AtDistance(prev, k) + [] == AtDistance(prev, k);
          } else {
            assert points[k] == Some(list + [vector]);
          }
        }
        z := z + 1;
      }
    }

    /** Total count of the named item over the slots. */
    method GetItemCount(name: ItemName) returns (having: nat)
      ensures having == Count(items[..], name)
    {
      having := 0;
      var i := 0;
      while i < items.Length
        invariant 0 <= i <= items.Length
        invariant having + Count(items[i..], name) == Count(items[..], name)
      {
        assert items[i..] == [items[i]] + items[i + 1..];
        var stack := items[i];
        if !stack.IsEmpty() && stack.item == name {
          having := having + stack.count;
        }
        i := i + 1;
      }
    }

    /** Debit `count` of the named item, slot by slot in index order. */
    method ReduceItemCount(name: ItemName, count: nat)
      modifies items
      ensures items[..] == Debit(old(items[..]), name, count)
    {
      ghost var slots := items[..];
      var remaining: nat := count;
      var i := 0;
      while i < items.Length
        invariant 0 <= i <= items.Length
        invariant DebitFrom(items[..], name, remaining, i) == DebitFrom(slots, name, count, 0)
      {
        var stack := items[i];
        if !stack.IsEmpty() && stack.item == name {
          if remaining <= stack.count {
            items[i] := stack.(count := stack.count - remaining);
            DebitFromIsDebit(slots, name, count, 0);
            return;
          } else {
            remaining := remaining - stack.count;
            items[i] := stack.(count := 0);
          }
        }
        i := i + 1;
      }
      DebitFromIsDebit(slots, name, count, 0);
    }

    /**
     * Whether the inventory covers the block's repair recipe at its damage. Stops
     * at the first uncovered line, recording its item as the advisory when none
     * of it is in stock.
     */
    method CanRepairBlock(block: BlockValue, blocks: BlockTable) returns (ok: bool)
      modifies this`lastMissingItem
      ensures ok == Repairable(blocks(block.btype), block.damage, items[..])
      ensures lastMissingItem == MissingAfterCheck(blocks(block.btype), block.damage, items[..], old(lastMissingItem))
    {
      var localBlock := blocks(block.btype);
      if localBlock.repairItems.None? {
        return false;
      }
      var lines := localBlock.repairItems.value;
      var i := 0;
      while i < |lines|
        invariant 0 <= i <= |lines|
        invariant forall j :: 0 <= j < i ==> Covered(lines[j], block.damage, localBlock.maxDamage, items[..])
        invariant lastMissingItem == old(lastMissingItem)
      {
        var needed := Needed(lines[i].count, block.damage, localBlock.maxDamage);
        var available := GetItemCount(lines[i].item);
        if available < needed {
          if available == 0 {
            lastMissingItem := Some(lines[i].item);
          }
          FirstShortfallFinds(lines, block.damage, localBlock.maxDamage, items[..], 0);
          FirstShortfallFinds(lines, block.damage, localBlock.maxDamage, items[..], i);
          assert FirstShortfall(lines, block.damage, localBlock.maxDamage, items[..], 0) == Some(i);
          return false;
        }
        i := i + 1;
      }
      FirstShortfallFinds(lines, block.damage, localBlock.maxDamage, items[..], 0);
      ok := |lines| > 0;
    }

    /** Take the block's repair materials, recipe line by recipe line. */
    method TakeRepairMaterials(block: BlockValue, blocks: BlockTable)
      modifies items
      ensures items[..] == Withdrawn(blocks(block.btype), block.damage, old(items[..]))
    {
      var localBlock := blocks(block.btype);
      if localBlock.repairItems.None? {
        return;
      }
      var lines := localBlock.repairItems.value;
      for i := 0 to |lines|
        invariant items[..] == DebitLines(old(items[..]), lines, block.damage, localBlock.maxDamage, i)
      {
        var needed := Needed(lines[i].count, block.damage, localBlock.maxDamage);
        ReduceItemCount(lines[i].item, needed);
      }
    }

    /** Drop the acquired target, unless it is already air. */
    method ResetAcquiredBlock()
      modifies this`doRepair, this`repairBlock, this`repairPosition
      ensures State() == ResetAcquired(old(State()), position)
    {
      if repairBlock.btype != AirType {
        doRepair := false;
        repairBlock := Air;
        repairPosition := position;
      }
    }

    /** The power setter. */
    method SetIsOn(value: bool)
      modifies this`isOn, this`currentDistance
      ensures State() == SetPower(old(State()), value)
    {
      if isOn != value {
        isOn := value;
        currentDistance := 0;
      }
    }

    /** The armed branch of AutoRepair. */
    method RepairArmed(world: World, game: Game) returns (world': World)
      requires doRepair
      modifies this`doRepair, this`repairBlock, this`repairPosition, this`lastMissingItem, items
      ensures (State(), world') == RepairStep(old(State()), world, game, position)
    {
      world' := world;
      var currentBlock := BlockAt(world, repairPosition);
      if currentBlock.damage > repairDamage {
        ResetAcquiredBlock();
        return;
      }
      var ok := CanRepairBlock(repairBlock, game.blocks);
      if ok {
        TakeRepairMaterials(repairBlock, game.blocks);
        repairBlock := repairBlock.(damage := 0);
        world' := world[repairPosition := repairBlock];
        ResetAcquiredBlock();
      }
      doRepair := false;
    }

    /** The scan branch of AutoRepair: one shell per call. */
    method ScanShell(world: World, game: Game)
      requires !doRepair && allPoints.Length == landRadius + 2
      requires forall k :: 0 <= k <= landRadius ==> allPoints[k].Some?
      modifies this`doRepair, this`repairBlock, this`repairPosition, this`repairDamage, this`currentDistance,
               this`lastMissingItem
      ensures var d := ScanDistance(old(State()), landRadius);
        State() == ScanShellStep(old(State()), world, game, position, d, allPoints[d].value)
    {
      if currentDistance > landRadius {
        currentDistance := 0;
      }
      var shell := allPoints[currentDistance].value;
      var found := FindTarget(shell, world, game);
      if found.Some? {
        repairPosition := Add(position, shell[found.value]);
        repairBlock := BlockAt(world, repairPosition);
        doRepair := true;
        repairDamage := repairBlock.damage;
      } else {
        currentDistance := currentDistance + 1;
      }
    }

    /**
     * The walk over one shell: the index of the first offset whose block passes
     * all four scan tests, with the advisory updated by each material check.
     */
    method FindTarget(shell: seq<Vec3>, world: World, game: Game) returns (found: Option<nat>)
      modifies this`lastMissingItem
      ensures match ScanFrom(shell, position, world, game, items[..], 0, old(lastMissingItem))
              case Armed(j, m) => found == Some(j) && lastMissingItem == m
              case Exhausted(m) => found == None && lastMissingItem == m
    {
      ghost var outcome := ScanFrom(shell, position, world, game, items[..], 0, lastMissingItem);
      var claimSize := LandRadius(game.landClaimSize);
      var j := 0;
      while j < |shell|
        invariant 0 <= j <= |shell|
        invariant ScanFrom(shell, position, world, game, items[..], j, lastMissingItem) == outcome
      {
        var currentPosition := Add(position, shell[j]);
        var currentBlock := BlockAt(world, currentPosition);
        if currentBlock.btype != AirType && 10 * currentBlock.damage >= game.blocks(currentBlock.btype).maxDamage {
          if IsBlockInsideClaim(game.players, game.owner, currentPosition, claimSize, true) {
            var ok := CanRepairBlock(currentBlock, game.blocks);
            assert Candidate(currentBlock, currentPosition, game);
            if ok {
              return Some(j);
            }
          } else {
            assert !Candidate(currentBlock, currentPosition, game);
          }
        } else {
          assert !Candidate(currentBlock, currentPosition, game);
        }
        j := j + 1;
      }
      return None;
    }

    /** One call of the auto-repair routine. */
    method AutoRepair(world: World, game: Game) returns (world': World)
      requires Valid()
      modifies this`doRepair, this`repairBlock, this`repairPosition, this`repairDamage, this`currentDistance,
               this`lastMissingItem, items
      ensures Valid()
      ensures (State(), world') == AutoRepairStep(old(State()), world, game, position, landRadius)
    {
      world' := world;
      if game.isDark {
        return;
      }
      if doRepair {
        world' := RepairArmed(world, game);
        ArmedTickDisarms(old(State()), world, game, position);
      } else {
        ScanShell(world, game);
        assert allPoints[ScanDistance(old(State()), landRadius)].value == Shell(landRadius, ScanDistance(old(State()), landRadius));
        ScanKeepsTargetConsistent(old(State()), world, game, position, landRadius);
      }
    }

    /** The per-tick entry point. */
    method UpdateTick(world: World, game: Game) returns (world': World)
      requires Valid()
      modifies this`doRepair, this`repairBlock, this`repairPosition, this`repairDamage, this`currentDistance,
               this`lastMissingItem, items
      ensures Valid()
      ensures (State(), world') == UpdateTickStep(old(State()), world, game, position, landRadius)
    {
      world' := world;
      if isOn && !userAccessing && !isAccessed {
        world' := AutoRepair(world, game);
      }
    }

    /** A change of the local user-access flag; returns the advisory shown to the user, if any. */
    method SetUserAccessing(accessing: bool) returns (notice: Option<ItemName>)
      requires Valid()
      modifies this`userAccessing, this`lastMissingItem, this`doRepair, this`repairBlock, this`repairPosition
      ensures Valid()
      ensures (State(), notice) == AccessStep(old(State()), accessing, position)
    {
      notice := None;
      if userAccessing != accessing {
        userAccessing := accessing;
        if accessing {
          if lastMissingItem.Some? {
            notice := lastMissingItem;
            lastMissingItem := None;
          }
          ResetAcquiredBlock();
        }
      }
    }

    /** The extension fields written in the given direction; the matching read gets them back. */
    function Write(mode: WriteMode): (ts: seq<Token>)
      reads this, items
      ensures Decode(ReceiverMode(mode), ts) == Ok(Decoded(Outgoing(State(), mode), []))
    {
      RoundTrip(Outgoing(State(), mode), []);
      assert Encode(Outgoing(State(), mode)) + [] == Encode(Outgoing(State(), mode));
      Encode(Outgoing(State(), mode))
    }

    /** Read the extension fields in the given direction and apply them. */
    method Read(mode: ReadMode, ts: seq<Token>)
      requires Valid()
      modifies this`isOn, this`currentDistance, this`repairPosition, this`lastMissingItem, this`isAccessed,
               this`doRepair, this`repairBlock
      ensures Valid()
      ensures State() == ReadStep(old(State()), mode, ts, position)
    {
      var decoded := Decode(mode, ts);
      if decoded.Err? {
        return;
      }
      match decoded.value.ext
      case Persisted(on) =>
        SetIsOn(on);
      case ServerReport(on, _, target, missing) =>
        SetIsOn(on);
        repairPosition := target;
        lastMissingItem := missing;
      case ClientReport(on, accessing) =>
        SetIsOn(on);
        isAccessed := accessing;
        if accessing {
          ResetAcquiredBlock();
        }
        ReadKeepsTargetConsistent(old(State()), mode, ts, position);
    }
  }
}
