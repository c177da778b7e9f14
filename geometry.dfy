/** Integer block positions and the distances the scan uses. */
module Geometry {

  /** A block position or an offset from one (the game's Vector3i). */
  datatype Vec3 = Vec3(x: int, y: int, z: int)

  const Origin: Vec3 := Vec3(0, 0, 0)

  function Abs(n: int): nat
  {
    if n < 0 then -n else n
  }

  function Max(a: nat, b: nat): nat
  {
    if a < b then b else a
  }

  /** Chebyshev distance of an offset from the origin: max(|x|, |y|, |z|). */
  function Chebyshev(v: Vec3): nat
  {
    Max(Abs(v.x), Max(Abs(v.y), Abs(v.z)))
  }

  /** Whether an offset lies in the cube [-r, r]^3. */
  predicate InCube(v: Vec3, r: int)
  {
    -r <= v.x <= r && -r <= v.y <= r && -r <= v.z <= r
  }

  function Add(a: Vec3, b: Vec3): Vec3
  {
    Vec3(a.x + b.x, a.y + b.y, a.z + b.z)
  }

  /**
   * Half of the land-claim size, as the game computes it with C#'s integer
   * division `(size - 1) / 2`, which truncates toward zero: a size of 0 gives 0.
   */
  function LandRadius(landClaimSize: nat): (r: nat)
    ensures 2 * r + 1 <= landClaimSize || (landClaimSize == 0 && r == 0)
    ensures landClaimSize <= 2 * r + 2
  {
    if landClaimSize == 0 then 0 else (landClaimSize - 1) / 2
  }
}
