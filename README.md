# Claim auto-repair container, modelled in Dafny

This project models the auto-repair storage container of the OcbClaimAutoRepair game mod
(`Harmony/TileEntityClaimAutoRepair.cs`). While it is powered and nobody has it open, the container
works one tick at a time:

- A scan tick looks at one shell of a cube around the container (one Chebyshev distance from it).
  Shells are visited in order and wrap to 0 past the land-claim radius.
- The scan arms the first block in the shell that passes four tests:
  1. it is not air;
  2. it has at least a tenth of its maximum damage;
  3. it lies inside a primary land claim of the owner or of an ally;
  4. the container's inventory holds the materials its repair recipe scales to that damage.
- On the next tick the armed target is committed:
  - if the block took new damage since arming, the target is dropped;
  - otherwise, if the material check still passes, the materials are debited slot by slot and the block is written back undamaged;
  - either way the target is disarmed.
- The container also keeps a "last missing item" advisory. It is handed out once when a player opens the container.
- The container writes and reads a few extension fields in its network and persistence stream.

The model has one module per concern:

- `Geometry`: positions and the Chebyshev distance.
- `Inventory`: counting an item and debiting it slot by slot.
- `Blocks`: block values, the block table and the world map.
- `Recipes`: the material check, the advisory and the withdrawal.
- `Claims`: the claim footprint test.
- `Shells`: the shell index, in the builder's loop order.
- `Scheduler`: the whole repair state machine as pure step functions on a `RepairState` record.
- `Codec`: the stream extension as typed tokens.
- `Container`: the class `TileEntityClaimAutoRepair`.
  - Its fields are the source's fields.
  - Its methods are the source's methods, loops included.
  - Each method is proved to change the state exactly as the matching step function says.

The most important lemmas are about the step functions:

- the shells partition the cube;
- a scan arms the first qualifying block of the shell;
- a commit withdraws exactly what the check required and writes only the target position;
- an armed target is always a real block whose recorded damage is its snapshot's;
- a stream read gives back what was written.

Behaviour of the code worth knowing, which the model follows:

- **Failed commit.** A target that fails its material re-check at commit time is disarmed (`doRepair = false`). It is not retried on the next tick. Its snapshot and position stay, so the container still reports it. See `Scheduler.ArmedTargetShortOfMaterials`.
- **Power changes.** Switching the power only resets the shell index. An armed target survives a power change. See `Scheduler.PowerOnlyRestartsScan`.
- **Advisory.** The advisory is written only when none of the missing item is in stock. A line that is only partly covered leaves the previous advisory in place. See `Recipes.MissingOnlyWhenOutOfStock`.
- **Commit uses the snapshot.** The commit writes the snapshot taken at arming time. A target removed since then reads as air with damage 0, so its damage did not grow, and it is put back. See `Scheduler.CommitRestoresRemovedTarget`.
- **Item count.** The item count adds up every matching slot in full. Despite a comment in the source, it does not leave one item behind.
- **Malformed stream.** A read that fails part-way is caught and logged. The container is not reset to a default state (see "Left out").

## Model

| member | source | states |
|---|---|---|
| Geometry.LandRadius | Harmony/TileEntityClaimAutoRepair.cs:59 | the claim radius `(size - 1) / 2` with C# truncation: `2r + 1 <= size <= 2r + 2` for a positive size, and 0 for size 0 |
| Shells.AtDistanceAppend | Harmony/TileEntityClaimAutoRepair.cs:75-77 | appending one offset to the walk extends exactly the shell of its distance, by that offset at the end |
| Shells.ZRunCount | Harmony/TileEntityClaimAutoRepair.cs:72-78 | the innermost loop visits each offset (x, y, z) with z in range exactly once and nothing else |
| Shells.YRunCount | Harmony/TileEntityClaimAutoRepair.cs:70-79 | the middle loop visits each offset of its plane exactly once and nothing else |
| Shells.XRunCount | Harmony/TileEntityClaimAutoRepair.cs:68-80 | the outer loop visits each offset of the planes so far exactly once and nothing else |
| Shells.XRunStep | Harmony/TileEntityClaimAutoRepair.cs:68-80 | one more plane adds exactly the offsets of that plane |
| Shells.CubeOrderCount | Harmony/TileEntityClaimAutoRepair.cs:68-80 | the builder's walk visits every offset of the cube exactly once and no offset outside it |
| Shells.AtDistanceCount | Harmony/TileEntityClaimAutoRepair.cs:76-77 | the list for distance k holds an offset as often as the walk does when its distance is k, and never otherwise |
| Shells.ShellPartition | Harmony/TileEntityClaimAutoRepair.cs:61-80 | the shells partition the cube: an offset is in shell k exactly once when it is in the cube at distance k, and otherwise not at all |
| Shells.ShellZeroIsOrigin | Harmony/TileEntityClaimAutoRepair.cs:61-80 | shell 0 is exactly the container's own position |
| Shells.CubeOrderWithin | Harmony/TileEntityClaimAutoRepair.cs:60-77 | every offset the builder visits has a distance below maxRadius, so no write goes past the last list |
| Shells.XRunLength | Harmony/TileEntityClaimAutoRepair.cs:68-80 | the walk over the planes so far has (planes) * (2r + 1)^2 entries |
| Shells.ShellsTotal | Harmony/TileEntityClaimAutoRepair.cs:87-91 | the shell sizes summed over 0 .. landRadius come to (2r + 1)^3, the whole cube |
| Inventory.DebitFromIsDebit | Harmony/TileEntityClaimAutoRepair.cs:100-120 | the in-place walk from a slot index equals the settled prefix followed by the debit of the remaining slots |
| Inventory.DebitShape | Harmony/TileEntityClaimAutoRepair.cs:100-119 | a debit keeps every slot's item, never grows a slot, and leaves slots without the item untouched |
| Inventory.DebitRemoves | Harmony/TileEntityClaimAutoRepair.cs:98-121 | a debit removes exactly min(amount, stock) of the item |
| Inventory.DebitKeepsOthers | Harmony/TileEntityClaimAutoRepair.cs:98-121 | a debit leaves the total of every other item unchanged |
| Inventory.DebitInOrder | Harmony/TileEntityClaimAutoRepair.cs:100-119 | slots drain in index order: when a later slot changes, every earlier slot holding the item is empty |
| Recipes.NeededIsCeiling | Harmony/TileEntityClaimAutoRepair.cs:144-149 | the required count is the exact ceiling of count * damage / maxDamage |
| Recipes.NeededMonotone | Harmony/TileEntityClaimAutoRepair.cs:144-149 | more damage never needs fewer items |
| Recipes.NeededEnds | Harmony/TileEntityClaimAutoRepair.cs:144-149 | an undamaged block needs nothing; a block at its maximum damage needs the full recipe count |
| Recipes.FirstShortfallFinds | Harmony/TileEntityClaimAutoRepair.cs:146-156 | the check stops at the first uncovered recipe line, and finds none exactly when every line is covered |
| Recipes.RepairableKeepsMissing | Harmony/TileEntityClaimAutoRepair.cs:140-158 | a check that passes never touches the advisory |
| Recipes.MissingOnlyWhenOutOfStock | Harmony/TileEntityClaimAutoRepair.cs:146-154 | the advisory changes only on a failed check, and then names the item of the first uncovered recipe line, of which there is zero stock |
| Recipes.FirstShortfallDecidesMissing | Harmony/TileEntityClaimAutoRepair.cs:146-154 | the first uncovered recipe line sets the advisory to its item when there is zero stock of it, and otherwise leaves the previous advisory |
| Recipes.DebitLinesCount | Harmony/TileEntityClaimAutoRepair.cs:167-172 | after debiting the first n recipe lines, each debited item's total drops by its required count and other totals stay |
| Recipes.WithdrawnMatchesCheck | Harmony/TileEntityClaimAutoRepair.cs:161-173 | taking a repairable block's materials lowers each recipe item's total by exactly what the check required and no other item's |
| Claims.PrimaryCoversMeans | Harmony/TileEntityClaimAutoRepair.cs:351-366 | the walk over a player's claim blocks succeeds exactly when some primary claim block's x/z footprint covers the position |
| Claims.AnyPlayerCoversMeans | Harmony/TileEntityClaimAutoRepair.cs:335-369 | the walk over the players succeeds exactly when a qualifying player has a covering primary claim block |
| Claims.InsideClaimMeans | Harmony/TileEntityClaimAutoRepair.cs:328-373 | a position is inside exactly when the owner, or an ally whose access list names the owner, has a primary claim covering it |
| Claims.InsideClaimIgnoresHeight | Harmony/TileEntityClaimAutoRepair.cs:361-362 | the claim test never depends on the y coordinate |
| Claims.OnlyQualifyingPlayersCount | Harmony/TileEntityClaimAutoRepair.cs:342-348 | a player who is neither the owner nor an ally never changes the answer |
| Scheduler.ScanFromFindsFirst | Harmony/TileEntityClaimAutoRepair.cs:225-254 | the shell walk arms an offset that passes all four tests, with no earlier one passing; it is exhausted only when none passes |
| Scheduler.ScanArmsFirstQualifying | Harmony/TileEntityClaimAutoRepair.cs:221-256 | a scan arms exactly when some offset of the current shell qualifies, then arms the first one from the live block and stays on the shell; otherwise it moves one shell out; inventory and flags are untouched |
| Scheduler.ScanKeepsTargetConsistent | Harmony/TileEntityClaimAutoRepair.cs:230-239 | a scan never arms air, and records the armed block's own damage |
| Scheduler.ScanDistanceBounds | Harmony/TileEntityClaimAutoRepair.cs:223-255 | a scan reads a shell in 0 .. landRadius and leaves the shell index at most landRadius + 1 |
| Scheduler.ArmedTargetInReach | Harmony/TileEntityClaimAutoRepair.cs:225-237 | an armed target lies in the claim cube around the container, at the distance of the shell scanned |
| Scheduler.ArmedTargetInvalidated | Harmony/TileEntityClaimAutoRepair.cs:191-197 | a target whose live damage grew is dropped: no materials taken, world unchanged, same shell |
| Scheduler.ArmedTargetCommitted | Harmony/TileEntityClaimAutoRepair.cs:200-219 | a target that still passes is committed: its materials are withdrawn, the block is written undamaged at the target position and nowhere else, and the target is dropped |
| Scheduler.ArmedTargetShortOfMaterials | Harmony/TileEntityClaimAutoRepair.cs:200-219 | a target that fails the re-check is disarmed with its snapshot kept; nothing is withdrawn or written |
| Scheduler.CommitRestoresRemovedTarget | Harmony/TileEntityClaimAutoRepair.cs:191-208 | a target removed since arming is written back as its snapshot's block type |
| Scheduler.ArmedTickDisarms | Harmony/TileEntityClaimAutoRepair.cs:189-220 | a tick that starts armed always ends disarmed and never picks another target or shell |
| Scheduler.TickGated | Harmony/TileEntityClaimAutoRepair.cs:279-288 | a tick runs the routine only when powered and not open locally or remotely, and does nothing in the dark |
| Scheduler.TickKeepsTargetConsistent | Harmony/TileEntityClaimAutoRepair.cs:279-288 | every tick keeps an armed target consistent and leaves the power and access flags alone |
| Scheduler.ResetIdempotent | Harmony/TileEntityClaimAutoRepair.cs:259-277 | resetting the target twice equals resetting it once; resetting an air target changes nothing; afterwards nothing is armed |
| Scheduler.PowerOnlyRestartsScan | Harmony/TileEntityClaimAutoRepair.cs:31-44 | the power setter sets the flag and, only on a real change, resets the shell index; an armed target and the inventory survive |
| Scheduler.OpeningCancelsTarget | Harmony/TileEntityClaimAutoRepair.cs:290-312 | opening hands out the advisory once, clears it and drops the target; closing or repeating the flag announces nothing |
| Codec.RoundTrip | Harmony/TileEntityClaimAutoRepair.cs:376-447 | reading in the matching direction gives back exactly the written fields and leaves the following tokens |
| Codec.DecodeOnlyAcceptsEncodings | Harmony/TileEntityClaimAutoRepair.cs:376-411 | every stream a read accepts is an encoding of the fields it returns, in that direction, followed by the rest |
| Codec.TruncatedIsRejected | Harmony/TileEntityClaimAutoRepair.cs:376-417 | a stream cut short inside the extension fields is rejected |
| Codec.Outgoing | Harmony/TileEntityClaimAutoRepair.cs:419-447 | each write direction produces the fields the receiving read direction expects |
| Codec.ClientMirrorsServer | Harmony/TileEntityClaimAutoRepair.cs:386-401 | a client reading the server's report takes over the power flag, target position and advisory |
| Codec.ServerMirrorsClient | Harmony/TileEntityClaimAutoRepair.cs:402-410 | a server reading a client's report takes over its access flag, and an open container loses its target |
| Codec.ReadKeepsTargetConsistent | Harmony/TileEntityClaimAutoRepair.cs:376-417 | a read never arms a target, so the target stays consistent |
| Geometry.Chebyshev | Harmony/TileEntityClaimAutoRepair.cs:76 | the distance of an offset, the largest of the absolute values of x, y and z; the shells it defines are characterised by Shells.ShellPartition |
| Shells.Shell | Harmony/TileEntityClaimAutoRepair.cs:61-80 | the list at slot k after the builder's loops: the cube's offsets at distance k in loop order; characterised by Shells.ShellPartition and Shells.ShellsTotal |
| Inventory.Count | Harmony/TileEntityClaimAutoRepair.cs:123-138 | the total of an item over the non-empty slots holding it; Container.TileEntityClaimAutoRepair.GetItemCount is proved equal to it |
| Inventory.Debit | Harmony/TileEntityClaimAutoRepair.cs:98-121 | the slots after draining an amount of an item slot by slot, with the same number of slots; its meaning is stated by Inventory.DebitRemoves, DebitKeepsOthers, DebitShape and DebitInOrder |
| Recipes.Needed | Harmony/TileEntityClaimAutoRepair.cs:144-149 | the count one recipe line needs at a damage; stated as the exact ceiling by Recipes.NeededIsCeiling |
| Recipes.Repairable | Harmony/TileEntityClaimAutoRepair.cs:140-159 | the material check's answer: a non-empty recipe every line of which is covered; Container.TileEntityClaimAutoRepair.CanRepairBlock is proved equal to it |
| Recipes.FirstShortfall | Harmony/TileEntityClaimAutoRepair.cs:146-156 | the index of the line where the check's loop returns, if any; characterised by Recipes.FirstShortfallFinds |
| Recipes.MissingAfterCheck | Harmony/TileEntityClaimAutoRepair.cs:140-159 | the advisory after the check; characterised by Recipes.RepairableKeepsMissing, MissingOnlyWhenOutOfStock and FirstShortfallDecidesMissing |
| Recipes.DebitLines | Harmony/TileEntityClaimAutoRepair.cs:167-172 | the slots after the first n recipe lines are debited, with the same number of slots; stated by Recipes.DebitLinesCount |
| Recipes.Withdrawn | Harmony/TileEntityClaimAutoRepair.cs:161-173 | the slots after the materials are taken, with the same number of slots; stated by Recipes.WithdrawnMatchesCheck |
| Claims.PrimaryCovers | Harmony/TileEntityClaimAutoRepair.cs:351-366 | the walk over one player's claim blocks; characterised by Claims.PrimaryCoversMeans |
| Claims.AnyPlayerCovers | Harmony/TileEntityClaimAutoRepair.cs:335-369 | the walk over the player list; characterised by Claims.AnyPlayerCoversMeans |
| Claims.IsBlockInsideClaim | Harmony/TileEntityClaimAutoRepair.cs:328-373 | the claim footprint test; characterised by Claims.InsideClaimMeans |
| Scheduler.ResetAcquired | Harmony/TileEntityClaimAutoRepair.cs:259-277 | dropping the target; stated by Scheduler.ResetIdempotent and Container.TileEntityClaimAutoRepair.ResetAcquiredBlock |
| Scheduler.SetPower | Harmony/TileEntityClaimAutoRepair.cs:31-44 | the power setter; stated by Scheduler.PowerOnlyRestartsScan |
| Scheduler.ScanFrom | Harmony/TileEntityClaimAutoRepair.cs:225-254 | the walk over one shell, which arms an index inside the shell or is exhausted; characterised by Scheduler.ScanFromFindsFirst |
| Scheduler.ScanShellStep | Harmony/TileEntityClaimAutoRepair.cs:225-255 | the scan of one given shell; Container.TileEntityClaimAutoRepair.ScanShell is proved equal to it |
| Scheduler.ScanStep | Harmony/TileEntityClaimAutoRepair.cs:221-256 | the scan branch of a tick; characterised by Scheduler.ScanArmsFirstQualifying, ScanDistanceBounds and ArmedTargetInReach |
| Scheduler.RepairStep | Harmony/TileEntityClaimAutoRepair.cs:189-220 | the armed branch of a tick; characterised by Scheduler.ArmedTargetInvalidated, ArmedTargetCommitted, ArmedTargetShortOfMaterials and ArmedTickDisarms |
| Scheduler.AutoRepairStep | Harmony/TileEntityClaimAutoRepair.cs:175-257 | one call of the auto-repair routine; Container.TileEntityClaimAutoRepair.AutoRepair is proved equal to it |
| Scheduler.UpdateTickStep | Harmony/TileEntityClaimAutoRepair.cs:279-288 | the gated tick; stated by Scheduler.TickGated and TickKeepsTargetConsistent |
| Scheduler.AccessStep | Harmony/TileEntityClaimAutoRepair.cs:290-312 | a change of the local access flag and the notice it hands out; stated by Scheduler.OpeningCancelsTarget |
| Codec.Encode | Harmony/TileEntityClaimAutoRepair.cs:419-447 | the extension fields as written, in order; inverted by Codec.Decode (Codec.RoundTrip) |
| Codec.Decode | Harmony/TileEntityClaimAutoRepair.cs:376-411 | the extension fields as read in one direction; stated by Codec.RoundTrip, DecodeOnlyAcceptsEncodings and TruncatedIsRejected |
| Codec.ReadStep | Harmony/TileEntityClaimAutoRepair.cs:376-417 | the state after a read; stated by Codec.ClientMirrorsServer, ServerMirrorsClient and ReadKeepsTargetConsistent |
| Container.TileEntityClaimAutoRepair.constructor | Harmony/TileEntityClaimAutoRepair.cs:46-52 | a new container is off, idle and unaccessed, with its shell index built |
| Container.TileEntityClaimAutoRepair.InitPoints | Harmony/TileEntityClaimAutoRepair.cs:54-94 | the builder leaves shell k of the cube, in loop order, at slot k for k in 0 .. landRadius, with the last slot unused |
| Container.TileEntityClaimAutoRepair.IndexPlane | Harmony/TileEntityClaimAutoRepair.cs:70-79 | one pass of the middle loop appends the plane's offsets to the lists of their distances |
| Container.TileEntityClaimAutoRepair.IndexRow | Harmony/TileEntityClaimAutoRepair.cs:72-78 | one pass of the innermost loop appends the row's offsets to the lists of their distances |
| Container.TileEntityClaimAutoRepair.GetItemCount | Harmony/TileEntityClaimAutoRepair.cs:123-138 | the result is the item's total over all non-empty slots |
| Container.TileEntityClaimAutoRepair.ReduceItemCount | Harmony/TileEntityClaimAutoRepair.cs:98-121 | the slots become the slot-by-slot debit of the old slots |
| Container.TileEntityClaimAutoRepair.CanRepairBlock | Harmony/TileEntityClaimAutoRepair.cs:140-159 | the answer is whether the block has a non-empty recipe with every line covered; the advisory becomes its check-time value |
| Container.TileEntityClaimAutoRepair.TakeRepairMaterials | Harmony/TileEntityClaimAutoRepair.cs:161-173 | the slots become the old slots with every recipe line debited in order; unchanged without a recipe |
| Container.TileEntityClaimAutoRepair.ResetAcquiredBlock | Harmony/TileEntityClaimAutoRepair.cs:259-277 | the state becomes the reset state: disarmed, air target at the container's position, unless the target is already air |
| Container.TileEntityClaimAutoRepair.SetIsOn | Harmony/TileEntityClaimAutoRepair.cs:31-44 | the state becomes the power setter's result |
| Container.TileEntityClaimAutoRepair.RepairArmed | Harmony/TileEntityClaimAutoRepair.cs:189-220 | the state and world become the armed-branch step's result |
| Container.TileEntityClaimAutoRepair.ScanShell | Harmony/TileEntityClaimAutoRepair.cs:221-256 | the state becomes the scan of the wrapped current shell read from the index |
| Container.TileEntityClaimAutoRepair.FindTarget | Harmony/TileEntityClaimAutoRepair.cs:225-254 | the found index and the advisory are those of the shell walk |
| Container.TileEntityClaimAutoRepair.AutoRepair | Harmony/TileEntityClaimAutoRepair.cs:175-257 | the state and world become the tick routine's result, and the index and target consistency are kept |
| Container.TileEntityClaimAutoRepair.UpdateTick | Harmony/TileEntityClaimAutoRepair.cs:279-288 | the state and world become the gated tick's result, and validity is kept |
| Container.TileEntityClaimAutoRepair.SetUserAccessing | Harmony/TileEntityClaimAutoRepair.cs:290-312 | the state and the notice become the access step's result, and validity is kept |
| Container.TileEntityClaimAutoRepair.Write | Harmony/TileEntityClaimAutoRepair.cs:419-447 | the tokens written decode, in the receiver's direction, to exactly the container's outgoing fields |
| Container.TileEntityClaimAutoRepair.Read | Harmony/TileEntityClaimAutoRepair.cs:376-417 | the state becomes the read step's result, and validity is kept |

## Left out

- Sounds, chat messages, localisation, logging, the stopwatch and the block-change RPC broadcast are left out. They do not affect the state.
- The bounds helper and its enable/reset methods are left out because they are visual only.
- `SetModified` calls and the base container's own behaviour are left out:
  - `base.UpdateTick`;
  - `base.read`/`base.write`;
  - how `IsUserAccessing` is tracked (`userAccessing` is a plain field).
- World and game queries become parameters:
  - the world is a map from positions to block values, and a missing position reads as air;
  - the block table, the player list, the owner, the land-claim size and the darkness flag form the `Game` record.
- Land-claim blocks carry their primary flag directly. The game reads it from the block at each claim position.
- A null owner record, a null world and the `Block.list` lookup failing are left out.
- The block table is assumed to give every block type a positive maximum damage (`Positive`). For a maximum damage of 0 the source's float division gives NaN or infinity instead.
- Floating point: the damage fraction and `Mathf.Ceil` are modelled with exact integer arithmetic. This includes the 10% threshold (`10 * damage >= maxDamage`) and the required count (an integer ceiling). Float rounding at very large counts or damages is not captured.
- Integer widths are unbounded:
  - negative land-claim sizes are not modelled (the size is a `nat`);
  - 32-bit overflow of counts, damages and positions is not modelled.
- Codec.ReadStep: a stream the read rejects leaves the state unchanged. The source applies whatever fields it read before the failure and logs the exception.
- Container.TileEntityClaimAutoRepair.Read: same as Codec.ReadStep for a stream it rejects.
- Items are matched by identifier equality. The game compares the item type looked up by name.
- InitPoints gives its empty lists with an array initializer rather than a separate loop. The try/catch around the builder is left out: no index goes out of range (`Shells.CubeOrderWithin`).
- InitPoints computes but does not keep the `totalPoints` count. It only logs it. Its value is stated by `Shells.ShellsTotal`.
- Concurrency is left out. The remote-access flag is set by a read, and reads and ticks run one after another.
