/**
 * The shell index: every offset of the cube [-r, r]^3, grouped by Chebyshev
 * distance from the centre, each group in the builder's loop order
 * (x outer, y middle, z inner).
 */
module Shells {
  import opened Geometry

  /** Offsets (x, y, z) for z = -r .. zEnd - 1: one pass of the innermost loop so far. */
  function ZRun(r: int, x: int, y: int, zEnd: int): seq<Vec3>
    decreases zEnd + r
  {
    if zEnd <= -r then [] else ZRun(r, x, y, zEnd - 1) + [Vec3(x, y, zEnd - 1)]
  }

  /** Offsets of the rows y = -r .. yEnd - 1 of plane x, in loop order. */
  function YRun(r: int, x: int, yEnd: int): seq<Vec3>
    decreases yEnd + r
  {
    if yEnd <= -r then [] else YRun(r, x, yEnd - 1) + ZRun(r, x, yEnd - 1, r + 1)
  }

  /** Offsets of the planes x = -r .. xEnd - 1, in loop order. */
  function XRun(r: int, xEnd: int): seq<Vec3>
    decreases xEnd + r
  {
    if xEnd <= -r then [] else XRun(r, xEnd - 1) + YRun(r, xEnd - 1, r + 1)
  }

  /** The whole cube [-r, r]^3 in the builder's loop order. */
  function CubeOrder(r: nat): seq<Vec3>
  {
    XRun(r, r + 1)
  }

  /** The entries of s at Chebyshev distance k, in the order of s. */
  function AtDistance(s: seq<Vec3>, k: int): seq<Vec3>
  {
    if s == [] then []
    else AtDistance(s[..|s| - 1], k) + (if Chebyshev(s[|s| - 1]) == k then [s[|s| - 1]] else [])
  }

  /** Shell k of the index built for radius r. */
  function Shell(r: nat, k: int): seq<Vec3>
  {
    AtDistance(CubeOrder(r), k)
  }

  /** Total length of the shells 0 .. upTo - 1 of s. */
  function ShellSizes(s: seq<Vec3>, upTo: nat): nat
  {
    if upTo == 0 then 0 else ShellSizes(s, upTo - 1) + |AtDistance(s, upTo - 1)|
  }

  lemma AtDistanceAppend(s: seq<Vec3>, v: Vec3)
    ensures forall k :: AtDistance(s + [v], k) == AtDistance(s, k) + (if Chebyshev(v) == k then [v] else [])
  {
  }

  /** How many times v occurs in s. */
  function Occurrences(s: seq<Vec3>, v: Vec3): nat
  {
    if s == [] then 0 else Occurrences(s[..|s| - 1], v) + (if s[|s| - 1] == v then 1 else 0)
  }

  lemma {:induction false} OccurrencesAppend(a: seq<Vec3>, b: seq<Vec3>, v: Vec3)
    ensures Occurrences(a + b, v) == Occurrences(a, v) + Occurrences(b, v)
    decreases |b|
  {
    if b == [] {
      assert a + b == a;
    } else {
      var init := b[..|b| - 1];
      assert (a + b)[..|a + b| - 1] == a + init;
      OccurrencesAppend(a, init, v);
    }
  }

  /** Every entry of s occurs in it. */
  lemma {:induction false} OccurrencesOfEntry(s: seq<Vec3>, i: nat)
    requires i < |s|
    ensures Occurrences(s, s[i]) >= 1
  {
    if i < |s| - 1 {
      OccurrencesOfEntry(s[..|s| - 1], i);
    }
  }

  /** A sequence whose entries all equal v holds v once per entry. */
  lemma {:induction false} OccurrencesOfConstant(s: seq<Vec3>, v: Vec3)
    requires forall i :: 0 <= i < |s| ==> s[i] == v
    ensures Occurrences(s, v) == |s|
  {
    if s != [] {
      OccurrencesOfConstant(s[..|s| - 1], v);
    }
  }

  lemma {:induction false} ZRunCount(r: int, x: int, y: int, zEnd: int, v: Vec3)
    ensures Occurrences(ZRun(r, x, y, zEnd), v) == if v.x == x && v.y == y && -r <= v.z < zEnd then 1 else 0
    decreases zEnd + r
  {
    if zEnd > -r {
      ZRunCount(r, x, y, zEnd - 1, v);
      OccurrencesAppend(ZRun(r, x, y, zEnd - 1), [Vec3(x, y, zEnd - 1)], v);
    }
  }

  lemma {:induction false} YRunCount(r: int, x: int, yEnd: int, v: Vec3)
    ensures Occurrences(YRun(r, x, yEnd), v) == if v.x == x && -r <= v.y < yEnd && -r <= v.z <= r then 1 else 0
    decreases yEnd + r
  {
    if yEnd > -r {
      YRunCount(r, x, yEnd - 1, v);
      ZRunCount(r, x, yEnd - 1, r + 1, v);
      OccurrencesAppend(YRun(r, x, yEnd - 1), ZRun(r, x, yEnd - 1, r + 1), v);
    }
  }

  lemma {:induction false} XRunCount(r: int, xEnd: int, v: Vec3)
    ensures Occurrences(XRun(r, xEnd), v) == if -r <= v.x < xEnd && -r <= v.y <= r && -r <= v.z <= r then 1 else 0
    decreases xEnd + r
  {
    if xEnd > -r {
      XRunCount(r, xEnd - 1, v);
      XRunStep(r, xEnd, v);
    }
  }

  /** One plane more: the induction step of XRunCount. */
  lemma XRunStep(r: int, xEnd: int, v: Vec3)
    requires xEnd > -r
    requires Occurrences(XRun(r, xEnd - 1), v) == if -r <= v.x < xEnd - 1 && -r <= v.y <= r && -r <= v.z <= r then 1 else 0
    ensures Occurrences(XRun(r, xEnd), v) == if -r <= v.x < xEnd && -r <= v.y <= r && -r <= v.z <= r then 1 else 0
  {
    YRunCount(r, xEnd - 1, r + 1, v);
    OccurrencesAppend(XRun(r, xEnd - 1), YRun(r, xEnd - 1, r + 1), v);
  }

  /** The loop order visits every offset of the cube exactly once and nothing else. */
  lemma CubeOrderCount(r: nat, v: Vec3)
    ensures Occurrences(CubeOrder(r), v) == if InCube(v, r) then 1 else 0
  {
    XRunCount(r, r + 1, v);
  }

  lemma {:induction false} AtDistanceCount(s: seq<Vec3>, k: int, v: Vec3)
    ensures Occurrences(AtDistance(s, k), v) == if Chebyshev(v) == k then Occurrences(s, v) else 0
  {
    if s != [] {
      var init := s[..|s| - 1];
      var last := s[|s| - 1];
      AtDistanceCount(init, k, v);
      OccurrencesAppend(AtDistance(init, k), if Chebyshev(last) == k then [last] else [], v);
    }
  }

  /**
   * Shells partition the cube: an offset occurs in shell k exactly once when it
   * lies in the cube and its Chebyshev distance is k, and never otherwise.
   */
  lemma ShellPartition(r: nat, k: int, v: Vec3)
    ensures Occurrences(Shell(r, k), v) == if InCube(v, r) && Chebyshev(v) == k then 1 else 0
  {
    AtDistanceCount(CubeOrder(r), k, v);
    CubeOrderCount(r, v);
  }

  /** Shell 0 is exactly the centre offset. */
  lemma ShellZeroIsOrigin(r: nat)
    ensures Shell(r, 0) == [Origin]
  {
    var s := Shell(r, 0);
    forall i | 0 <= i < |s|
      ensures s[i] == Origin
    {
      OccurrencesOfEntry(s, i);
      ShellPartition(r, 0, s[i]);
    }
    OccurrencesOfConstant(s, Origin);
    ShellPartition(r, 0, Origin);
  }

  lemma {:induction false} ZRunLength(r: int, x: int, y: int, zEnd: int)
    requires -r <= zEnd
    ensures |ZRun(r, x, y, zEnd)| == zEnd + r
    decreases zEnd + r
  {
    if zEnd > -r {
      ZRunLength(r, x, y, zEnd - 1);
    }
  }

  lemma {:induction false} YRunLength(r: int, x: int, yEnd: int)
    requires 0 <= r && -r <= yEnd
    ensures |YRun(r, x, yEnd)| == (yEnd + r) * (2 * r + 1)
    decreases yEnd + r
  {
    if yEnd > -r {
      YRunLength(r, x, yEnd - 1);
      ZRunLength(r, x, yEnd - 1, r + 1);
    }
  }

  lemma {:induction false} XRunLength(r: int, xEnd: int)
    requires 0 <= r && -r <= xEnd
    ensures |XRun(r, xEnd)| == (xEnd + r) * ((2 * r + 1) * (2 * r + 1))
    decreases xEnd + r
  {
    if xEnd > -r {
      XRunLength(r, xEnd - 1);
      YRunLength(r, xEnd - 1, r + 1);
    }
  }

  lemma {:induction false} ShellSizesAppend(s: seq<Vec3>, v: Vec3, upTo: nat)
    ensures ShellSizes(s + [v], upTo) == ShellSizes(s, upTo) + (if Chebyshev(v) < upTo then 1 else 0)
  {
    if upTo > 0 {
      ShellSizesAppend(s, v, upTo - 1);
      AtDistanceAppend(s, v);
    }
  }

  lemma {:induction false} ShellSizesCover(s: seq<Vec3>, upTo: nat)
    requires forall i :: 0 <= i < |s| ==> Chebyshev(s[i]) < upTo
    ensures ShellSizes(s, upTo) == |s|
  {
    if s == [] {
      ShellSizesEmpty(upTo);
    } else {
      var init := s[..|s| - 1];
      assert s == init + [s[|s| - 1]];
      ShellSizesCover(init, upTo);
      ShellSizesAppend(init, s[|s| - 1], upTo);
    }
  }

  lemma {:induction false} ShellSizesEmpty(upTo: nat)
    ensures ShellSizes([], upTo) == 0
  {
    if upTo > 0 {
      ShellSizesEmpty(upTo - 1);
    }
  }

  /** Every offset the loop order visits is at distance at most r. */
  lemma CubeOrderWithin(r: nat)
    ensures forall i :: 0 <= i < |CubeOrder(r)| ==> Chebyshev(CubeOrder(r)[i]) < r + 1
  {
    var s := CubeOrder(r);
    forall i | 0 <= i < |s|
      ensures Chebyshev(s[i]) < r + 1
    {
      OccurrencesOfEntry(s, i);
      CubeOrderCount(r, s[i]);
    }
  }

  /** The shells 0 .. r together hold (2r + 1)^3 offsets: the whole cube. */
  lemma ShellsTotal(r: nat)
    ensures ShellSizes(CubeOrder(r), r + 1) == (2 * r + 1) * (2 * r + 1) * (2 * r + 1)
  {
    CubeOrderWithin(r);
    ShellSizesCover(CubeOrder(r), r + 1);
    XRunLength(r, r + 1);
    var side := 2 * r + 1;
    assert r + 1 + r == side;
    assert side * (side * side) == side * side * side;
  }
}
