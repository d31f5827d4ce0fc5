/**
 * The footprint arithmetic of PlaceableObject.cs: the snapping deltas, the
 * number of floors an object spans and the list of block offsets it
 * occupies, all computed from the world-space extents of its mesh bounds.
 *
 * Offsets are positions in the grid's units: x and z in half units, y a
 * floor index.
 */
module Footprint {
  import opened Grid

  type Length = r: real | r >= 0.0

  /** The extents of a mesh's bounding box, in world units. */
  datatype Size = Size(x: Length, y: Length, z: Length)

  /** Mathf.Round and Mathf.RoundToInt: the nearest integer, ties to the even one. */
  function RoundHalfEven(r: real): (n: int)
    ensures r - 0.5 <= n as real <= r + 0.5
    ensures (n as real == r - 0.5 || n as real == r + 0.5) ==> n % 2 == 0
  {
    var f := r.Floor;
    var d := r - f as real;
    if d < 0.5 then f
    else if d > 0.5 then f + 1
    else if f % 2 == 0 then f else f + 1
  }

  /** Mathf.CeilToInt */
  function CeilToInt(r: real): (n: int)
    ensures r <= n as real < r + 1.0
  {
    -((-r).Floor)
  }

  /** The tolerance CalculateBlockOffsets subtracts before rounding a size up. */
  const TOLERANCE: real := 0.15

  /** How many whole cells a size spans along one axis: CeilToInt(size - 0.15). */
  function CellCount(size: Length): (n: nat)
    ensures size - TOLERANCE <= n as real < size - TOLERANCE + 1.0
  {
    CeilToInt(size - TOLERANCE)
  }

  /**
   * One component of CalculateDeltas, in half units: objects whose rounded
   * size is a positive even number are shifted back half a unit.
   */
  function Delta(size: Length): int {
    var n := RoundHalfEven(size);
    if n > 0 && n % 2 == 0 then -1 else 0
  }

  /** PlaceableObject.CalculateDeltas */
  function Deltas(s: Size): (d: Pos)
    ensures d.y == 0
    ensures d.x == -1 <==> RoundHalfEven(s.x) > 0 && RoundHalfEven(s.x) % 2 == 0
    ensures d.x != -1 ==> d.x == 0
    ensures d.z == -1 <==> RoundHalfEven(s.z) > 0 && RoundHalfEven(s.z) % 2 == 0
    ensures d.z != -1 ==> d.z == 0
  {
    Pos(Delta(s.x), 0, Delta(s.z))
  }

  /**
   * PlaceableObject.CalculateFloorCount: the rounded number of floors the
   * height spans, plus one when FLOOR_HEIGHT / count is below the height.
   * A count of zero never grows: the float division by zero is +infinity.
   */
  function FloorCount(height: Length): int {
    var n := RoundHalfEven(height / FLOOR_HEIGHT);
    if n != 0 && FLOOR_HEIGHT / (n as real) < height then n + 1 else n
  }

  lemma DivisionAntitone(a: real, b: real, c: real)
    requires a >= 0.0 && 0.0 < b <= c
    ensures a / c <= a / b
  {
  }

  /**
   * What the increment rule amounts to, with r = height / FLOOR_HEIGHT:
   * up to half a floor counts as none, up to one floor as one, below one
   * and a half floors as two, and beyond that one more than the rounded
   * ratio.
   */
  lemma FloorCountCases(height: Length)
    ensures var r := height / FLOOR_HEIGHT;
      && (r <= 0.5 ==> FloorCount(height) == 0)
      && (0.5 < r <= 1.0 ==> FloorCount(height) == 1)
      && (1.0 < r < 1.5 ==> FloorCount(height) == 2)
      && (1.5 <= r ==> FloorCount(height) == RoundHalfEven(r) + 1)
  {
    var r := height / FLOOR_HEIGHT;
    var n := RoundHalfEven(r);
    assert height == r * FLOOR_HEIGHT;
    if n == 1 {
      assert FLOOR_HEIGHT / (n as real) == FLOOR_HEIGHT;
      assert FLOOR_HEIGHT < height <==> 1.0 < r;
    } else if n >= 2 {
      assert r >= 1.5;
      DivisionAntitone(FLOOR_HEIGHT, 2.0, n as real);
      assert FLOOR_HEIGHT / 2.0 < height;
    }
  }

  /**
   * Any object taller than half a floor gets enough floors to contain its
   * height.
   */
  lemma FloorCountCoversHeight(height: Length)
    requires height > FLOOR_HEIGHT / 2.0
    ensures FloorCount(height) >= 1
    ensures height <= FloorCount(height) as real * FLOOR_HEIGHT
  {
    FloorCountCases(height);
    var r := height / FLOOR_HEIGHT;
    assert height == r * FLOOR_HEIGHT;
    assert r > 0.5;
    assert r <= FloorCount(height) as real;
  }

  // ---------------------------------------------------------------------
  // Block offsets

  /** The number of half steps i = 0, 0.5, ... with i < n - 0.5. */
  function Steps(n: int): nat {
    if 2 * n - 1 > 0 then 2 * n - 1 else 0
  }

  /** An entry is kept when one of its two coordinates is whole. */
  predicate Kept(i: int, j: int) {
    i % 2 == 0 || j % 2 == 0
  }

  /** The offset for half-step counters i and j: (i - x/2, 0, j - z/2) in world terms. */
  function Offset(x: nat, z: nat, i: int, j: int): Pos {
    Pos(i - UNIT * (x / 2), 0, j - UNIT * (z / 2))
  }

  /** The kept entries of the inner loop for outer counter i, with the inner counter below m. */
  function Row(x: nat, z: nat, i: int, m: nat): seq<Pos> {
    if m == 0 then []
    else Row(x, z, i, m - 1) + (if Kept(i, m - 1) then [Offset(x, z, i, m - 1)] else [])
  }

  /** The kept entries of the nested loops with the outer counter below n. */
  function Rows(x: nat, z: nat, n: nat): seq<Pos> {
    if n == 0 then []
    else Rows(x, z, n - 1) + Row(x, z, n - 1, Steps(z))
  }

  /** The ground-floor offsets of an object spanning x by z cells. */
  function BaseOffsets(x: nat, z: nat): seq<Pos> {
    Rows(x, z, Steps(x))
  }

  /** The upper-floor copies of the first k base entries: floors 1 .. floorCount - 1 of each, in turn. */
  function Upper(base: seq<Pos>, floorCount: int, k: nat): seq<Pos>
    requires k <= |base|
  {
    if k == 0 then []
    else Upper(base, floorCount, k - 1) + Copies(base[k - 1], floorCount)
  }

  /** A base entry moved up to floor n. */
  function Lifted(b: Pos, n: int): Pos {
    Pos(b.x, n, b.z)
  }

  /** The copies of one base entry on floors 1 .. floorCount - 1. */
  function Copies(b: Pos, floorCount: int): (r: seq<Pos>)
    ensures |r| == if floorCount > 1 then floorCount - 1 else 0
  {
    if floorCount > 1 then seq(floorCount - 1, n => Lifted(b, n + 1)) else []
  }

  /** PlaceableObject.CalculateBlockOffsets, for world-space extents `size`. */
  function BlockOffsets(size: Size, floorCount: int): seq<Pos> {
    var x := CellCount(size.x);
    var z := CellCount(size.z);
    if x <= 1 && z <= 1 then [Pos(0, 0, 0)]
    else
      var base := BaseOffsets(x, z);
      if floorCount > 1 then base + Upper(base, floorCount, |base|) else base
  }

  // ---------------------------------------------------------------------
  // What the offset list contains

  lemma {:induction false} RowMembership(x: nat, z: nat, i: int, m: nat, p: Pos)
    ensures p in Row(x, z, i, m) <==>
      exists j :: 0 <= j < m && Kept(i, j) && p == Offset(x, z, i, j)
  {
    if m > 0 {
      RowMembership(x, z, i, m - 1, p);
      if p == Offset(x, z, i, m - 1) && Kept(i, m - 1) {
        assert p in Row(x, z, i, m);
      }
    }
  }

  lemma {:induction false} RowsMembership(x: nat, z: nat, n: nat, p: Pos)
    ensures p in Rows(x, z, n) <==>
      exists i, j :: 0 <= i < n && 0 <= j < Steps(z) && Kept(i, j) && p == Offset(x, z, i, j)
  {
    if n > 0 {
      RowsMembership(x, z, n - 1, p);
      RowMembership(x, z, n - 1, Steps(z), p);
      assert p in Rows(x, z, n) <==> p in Rows(x, z, n - 1) || p in Row(x, z, n - 1, Steps(z));
      if exists i, j :: 0 <= i < n && 0 <= j < Steps(z) && Kept(i, j) && p == Offset(x, z, i, j) {
        var i, j :| 0 <= i < n && 0 <= j < Steps(z) && Kept(i, j) && p == Offset(x, z, i, j);
        if i == n - 1 {
          assert p in Row(x, z, n - 1, Steps(z));
        } else {
          assert p in Rows(x, z, n - 1);
        }
      }
      if p in Row(x, z, n - 1, Steps(z)) {
        var j :| 0 <= j < Steps(z) && Kept(n - 1, j) && p == Offset(x, z, n - 1, j);
        assert 0 <= n - 1 < n;
      } else if p in Rows(x, z, n - 1) {
        var i, j :| 0 <= i < n - 1 && 0 <= j < Steps(z) && Kept(i, j) && p == Offset(x, z, i, j);
        assert 0 <= i < n;
      }
    }
  }

  /**
   * The ground-floor offsets are exactly the half-step grid points
   * (i - x/2, j - z/2) for 0 <= i, j < x - 0.5, z - 0.5 with i or j whole.
   */
  lemma BaseMembership(x: nat, z: nat, p: Pos)
    ensures p in BaseOffsets(x, z) <==>
      exists i, j :: 0 <= i < Steps(x) && 0 <= j < Steps(z) && Kept(i, j) && p == Offset(x, z, i, j)
  {
    RowsMembership(x, z, Steps(x), p);
  }

  lemma {:induction false} RowLength(x: nat, z: nat, i: int, m: nat)
    ensures |Row(x, z, i, m)| == if i % 2 == 0 then m else (m + 1) / 2
  {
    if m > 0 {
      RowLength(x, z, i, m - 1);
    }
  }

  lemma {:induction false} RowsLength(x: nat, z: nat, n: nat)
    requires z >= 1
    ensures |Rows(x, z, n)| == ((n + 1) / 2) * (2 * z - 1) + (n / 2) * z
  {
    if n > 0 {
      RowsLength(x, z, n - 1);
      RowLength(x, z, n - 1, Steps(z));
      assert (2 * z - 1 + 1) / 2 == z;
      RowsLengthStep(n, z);
    }
  }

  /** The arithmetic of one more row: a full row after an even counter, a half row after an odd one. */
  lemma RowsLengthStep(n: nat, z: nat)
    requires n >= 1 && z >= 1
    ensures ((n + 1) / 2) * (2 * z - 1) + (n / 2) * z
         == (n / 2) * (2 * z - 1) + ((n - 1) / 2) * z + (if (n - 1) % 2 == 0 then 2 * z - 1 else z)
  {
    if (n - 1) % 2 == 0 {
      assert (n + 1) / 2 == n / 2 + 1 && n / 2 == (n - 1) / 2;
      MulSucc(n / 2, 2 * z - 1);
    } else {
      assert (n + 1) / 2 == n / 2 && n / 2 == (n - 1) / 2 + 1;
      MulSucc((n - 1) / 2, z);
    }
  }

  lemma MulSucc(a: int, c: int)
    ensures (a + 1) * c == a * c + c
  {
  }

  /**
   * The ground floor of an x by z object has (2x-1)(2z-1) - (x-1)(z-1)
   * entries: the half-step grid without its (x-1)(z-1) points whose two
   * coordinates are both half units. A 2 by 2 object has 8.
   */
  lemma BaseCount(x: nat, z: nat)
    requires x >= 1 && z >= 1
    ensures |BaseOffsets(x, z)| == (2 * x - 1) * (2 * z - 1) - (x - 1) * (z - 1)
  {
    RowsLength(x, z, 2 * x - 1);
    assert (2 * x - 1 + 1) / 2 == x;
    assert (2 * x - 1) / 2 == x - 1;
    BaseCountArith(x, z);
  }

  lemma BaseCountArith(x: int, z: int)
    ensures x * (2 * z - 1) + (x - 1) * z == (2 * x - 1) * (2 * z - 1) - (x - 1) * (z - 1)
  {
  }

  lemma TwoByTwoHasEight()
    ensures |BaseOffsets(2, 2)| == 8
  {
    BaseCount(2, 2);
  }

  lemma {:induction false} UpperLength(base: seq<Pos>, floorCount: int, k: nat)
    requires k <= |base| && floorCount > 1
    ensures |Upper(base, floorCount, k)| == k * (floorCount - 1)
  {
    if k > 0 {
      UpperLength(base, floorCount, k - 1);
    }
  }

  lemma {:induction false} UpperMembership(base: seq<Pos>, floorCount: int, k: nat, p: Pos)
    requires k <= |base|
    ensures p in Upper(base, floorCount, k) <==>
      exists b, n :: 0 <= b < k && 1 <= n < floorCount && p == Lifted(base[b], n)
  {
    if k > 0 {
      UpperMembership(base, floorCount, k - 1, p);
      var c := Copies(base[k - 1], floorCount);
      assert Upper(base, floorCount, k) == Upper(base, floorCount, k - 1) + c;
      if p in Upper(base, floorCount, k - 1) {
        var b, n :| 0 <= b < k - 1 && 1 <= n < floorCount && p == Lifted(base[b], n);
        assert 0 <= b < k;
      } else if p in c {
        var n :| 0 <= n < |c| && c[n] == p;
        assert p == Lifted(base[k - 1], n + 1);
      }
      if exists b, n :: 0 <= b < k && 1 <= n < floorCount && p == Lifted(base[b], n) {
        var b, n :| 0 <= b < k && 1 <= n < floorCount && p == Lifted(base[b], n);
        if b == k - 1 {
          assert c[n - 1] == p;
        } else {
          assert p in Upper(base, floorCount, k - 1);
        }
      }
    }
  }

  /**
   * An object no wider and no deeper than 1.15 units occupies exactly its
   * own cell, whatever its floor count.
   */
  lemma SmallObjectOccupiesOneCell(size: Size, floorCount: int)
    requires size.x <= 1.0 + TOLERANCE && size.z <= 1.0 + TOLERANCE
    ensures BlockOffsets(size, floorCount) == [Pos(0, 0, 0)]
  {
  }

  /**
   * A wider object's list is its ground-floor entries (y = 0) first, then
   * for each of them in order its copies on floors 1 .. floorCount - 1; the
   * list has base length times floorCount entries.
   */
  lemma LargeObjectOffsets(size: Size, floorCount: int)
    requires CellCount(size.x) > 1 || CellCount(size.z) > 1
    ensures var base := BaseOffsets(CellCount(size.x), CellCount(size.z));
      var r := BlockOffsets(size, floorCount);
      && r[..|base|] == base
      && (forall k | 0 <= k < |base| :: r[k].y == 0)
      && (forall p :: p in r[|base|..] <==>
            exists b, n :: 0 <= b < |base| && 1 <= n < floorCount && p == Lifted(base[b], n))
      && |r| == if floorCount > 1 then |base| * floorCount else |base|
  {
    var x, z := CellCount(size.x), CellCount(size.z);
    assert BlockOffsets(size, floorCount) == WithUpperFloors(BaseOffsets(x, z), floorCount);
    GridOffsets(x, z, floorCount);
  }

  /** The base entries followed, when the object spans several floors, by their upper-floor copies. */
  function WithUpperFloors(base: seq<Pos>, floorCount: int): seq<Pos> {
    if floorCount > 1 then base + Upper(base, floorCount, |base|) else base
  }

  lemma GridOffsets(x: nat, z: nat, floorCount: int)
    ensures var base := BaseOffsets(x, z);
      var r := WithUpperFloors(base, floorCount);
      && r[..|base|] == base
      && (forall k | 0 <= k < |base| :: r[k].y == 0)
      && (forall p :: p in r[|base|..] <==>
            exists b, n :: 0 <= b < |base| && 1 <= n < floorCount && p == Lifted(base[b], n))
      && |r| == if floorCount > 1 then |base| * floorCount else |base|
  {
    var base := BaseOffsets(x, z);
    GroundFirst(x, z, floorCount);
    forall p
      ensures p in WithUpperFloors(base, floorCount)[|base|..] <==>
        exists b, n :: 0 <= b < |base| && 1 <= n < floorCount && p == Lifted(base[b], n)
    {
      UpperFloorsMembership(base, floorCount, p);
    }
    UpperFloorsLength(base, floorCount);
  }

  /** The ground-floor entries come first, all at y = 0. */
  lemma GroundFirst(x: nat, z: nat, floorCount: int)
    ensures var base := BaseOffsets(x, z);
      var r := WithUpperFloors(base, floorCount);
      && r[..|base|] == base
      && (forall k | 0 <= k < |base| :: r[k].y == 0)
  {
    var base := BaseOffsets(x, z);
    var r := WithUpperFloors(base, floorCount);
    assert r[..|base|] == base;
    forall k | 0 <= k < |base|
      ensures r[k].y == 0
    {
      assert r[k] == base[k];
      BaseMembership(x, z, base[k]);
    }
  }

  /** After the base come exactly its copies on floors 1 .. floorCount - 1. */
  lemma UpperFloorsMembership(base: seq<Pos>, floorCount: int, p: Pos)
    ensures p in WithUpperFloors(base, floorCount)[|base|..] <==>
      exists b, n :: 0 <= b < |base| && 1 <= n < floorCount && p == Lifted(base[b], n)
  {
    if floorCount > 1 {
      assert WithUpperFloors(base, floorCount)[|base|..] == Upper(base, floorCount, |base|);
      UpperMembership(base, floorCount, |base|, p);
    } else {
      assert WithUpperFloors(base, floorCount)[|base|..] == [];
    }
  }

  lemma UpperFloorsLength(base: seq<Pos>, floorCount: int)
    ensures |WithUpperFloors(base, floorCount)| == if floorCount > 1 then |base| * floorCount else |base|
  {
    if floorCount > 1 {
      UpperLength(base, floorCount, |base|);
      assert |base| + |base| * (floorCount - 1) == |base| * floorCount;
    }
  }

  /**
   * A quirk of the loop bounds: an object more than one cell wide whose
   * depth is at most 0.15 units (so it spans zero cells in z) gets an empty
   * offset list and occupies nothing.
   */
  lemma FlatWideObjectOccupiesNothing(size: Size, floorCount: int)
    requires size.x > 1.0 + TOLERANCE && size.z <= TOLERANCE
    ensures BlockOffsets(size, floorCount) == []
  {
    var x := CellCount(size.x);
    assert CellCount(size.z) == 0;
    assert Steps(0) == 0;
    forall n: nat | n <= Steps(x)
      ensures Rows(x, 0, n) == []
    {
      RowsEmptyWhenNoColumns(x, n);
    }
  }

  lemma {:induction false} RowsEmptyWhenNoColumns(x: nat, n: nat)
    ensures Rows(x, 0, n) == []
  {
    if n > 0 {
      RowsEmptyWhenNoColumns(x, n - 1);
    }
  }

  /** Reflection of an offset through the object's snapping delta. */
  function MirrorThrough(d: Pos, p: Pos): Pos {
    Pos(2 * d.x - p.x, p.y, 2 * d.z - p.z)
  }

  /** The half-unit shift of one delta component, for a rounded size n. */
  function HalfShift(n: int): int {
    if n > 0 && n % 2 == 0 then -1 else 0
  }

  /** A whole-unit extent spans exactly that many cells and rounds to itself. */
  lemma WholeExtent(w: nat)
    ensures CellCount(w as real) == w
    ensures Delta(w as real) == HalfShift(w)
  {
    assert RoundHalfEven(w as real) == w;
  }

  /**
   * The ground-floor offsets of an x by z object are symmetric about the
   * point (HalfShift(x), HalfShift(z)).
   */
  lemma BaseSymmetric(x: nat, z: nat, p: Pos)
    requires p in BaseOffsets(x, z)
    ensures MirrorThrough(Pos(HalfShift(x), 0, HalfShift(z)), p) in BaseOffsets(x, z)
  {
    var dl := Pos(HalfShift(x), 0, HalfShift(z));
    BaseMembership(x, z, p);
    var i, j :| 0 <= i < Steps(x) && 0 <= j < Steps(z) && Kept(i, j) && p == Offset(x, z, i, j);
    var i', j' := Steps(x) - 1 - i, Steps(z) - 1 - j;
    assert 2 * dl.x + 2 * UNIT * (x / 2) == Steps(x) - 1;
    assert 2 * dl.z + 2 * UNIT * (z / 2) == Steps(z) - 1;
    assert Kept(i', j');
    assert MirrorThrough(dl, p) == Offset(x, z, i', j');
    BaseMembership(x, z, MirrorThrough(dl, p));
  }

  /**
   * The deltas centre the footprint: for an object whose extents are whole
   * numbers of units, the ground-floor offsets are symmetric about the
   * delta CalculateDeltas gives, on both axes.
   */
  lemma FootprintSymmetricAboutDeltas(w: nat, h: Length, d: nat, p: Pos)
    requires p in BaseOffsets(CellCount(w as real), CellCount(d as real))
    ensures MirrorThrough(Deltas(Size(w as real, h, d as real)), p)
      in BaseOffsets(CellCount(w as real), CellCount(d as real))
  {
    WholeExtent(w);
    WholeExtent(d);
    assert Deltas(Size(w as real, h, d as real)) == Pos(HalfShift(w), 0, HalfShift(d));
    BaseSymmetric(w, d, p);
  }
}
