/** position: the physical coordinates of a cell centre or cell edge, with
    indices outside a periodic domain wrapped to the other side. */
module Position {
  import opened Geometry

  /** Highest index on an axis that is not wrapped: domhi for cell centres,
      domhi + 1 for edges, since there is one more edge than cells. */
  function HighIndex(domhi: int, cc: bool): int
  {
    if cc then domhi else domhi + 1
  }

  /** Starting offset on axis dir: the low bound, moved half a cell when cell-centred. */
  function CellOffset(g: GeometryData, dim: Dim, dir: nat, cc: bool): real
    requires Shaped(g, dim) && dir < dim
  {
    if cc then g.problo[dir] + 0.5 * g.dx[dir] else g.problo[dir]
  }

  /** Physical length of the domain along dir. */
  function DomainLength(g: GeometryData, dim: Dim, dir: nat): real
    requires Shaped(g, dim) && dir < dim
  {
    g.probhi[dir] - g.problo[dir]
  }

  /** Periodic correction on axis dir: one domain length up for an index below
      domlo, one down for an index above HighIndex. */
  function PeriodicShift(g: GeometryData, dim: Dim, dir: nat, idx: int, cc: bool): (s: real)
    requires Shaped(g, dim) && dir < dim
    ensures !g.periodic[dir] ==> s == 0.0
    ensures g.domlo[dir] <= idx <= HighIndex(g.domhi[dir], cc) ==> s == 0.0
    ensures g.periodic[dir] && idx < g.domlo[dir] <= g.domhi[dir] ==> s == DomainLength(g, dim, dir)
    ensures g.periodic[dir] && g.domlo[dir] <= g.domhi[dir] && idx > HighIndex(g.domhi[dir], cc) ==>
              s == -DomainLength(g, dim, dir)
  {
    var fromBelow := if g.periodic[dir] && idx < g.domlo[dir] then g.probhi[dir] - g.problo[dir] else 0.0;
    var fromAbove :=
      if g.periodic[dir] && ((cc && idx > g.domhi[dir]) || (!cc && idx > g.domhi[dir] + 1))
      then g.problo[dir] - g.probhi[dir] else 0.0;
    fromBelow + fromAbove
  }

  /** Final coordinate from an axis offset, an index and the spacing. */
  function Coordinate(offset: real, idx: int, dx: real): real
  {
    offset + (idx as real) * dx
  }

  /** Coordinate on one active axis. Off a periodic axis, and inside the domain,
      the index is extrapolated linearly with no clamping. */
  function AxisPosition(g: GeometryData, dim: Dim, dir: nat, idx: int, cc: bool): (x: real)
    requires Shaped(g, dim) && dir < dim
    ensures !g.periodic[dir] || g.domlo[dir] <= idx <= HighIndex(g.domhi[dir], cc) ==>
              x == g.problo[dir] + (if cc then 0.5 * g.dx[dir] else 0.0) + (idx as real) * g.dx[dir]
  {
    Coordinate(CellOffset(g, dim, dir, cc) + PeriodicShift(g, dim, dir, idx, cc), idx, g.dx[dir])
  }

  /** The full coordinate triple for index triple idx and centring flags cc. */
  function PositionOf(g: GeometryData, dim: Dim, idx: seq<int>, cc: seq<bool>): (loc: seq<real>)
    requires Shaped(g, dim) && |idx| == 3 && |cc| == 3
    ensures |loc| == 3
    ensures forall d :: dim <= d < 3 ==> loc[d] == 0.0
    ensures forall d :: 0 <= d < dim ==> loc[d] == AxisPosition(g, dim, d, idx[d], cc[d])
  {
    seq(3, d requires 0 <= d < 3 => if d < dim then AxisPosition(g, dim, d, idx[d], cc[d]) else 0.0)
  }

  /** position(i, j, k, geomdata, loc, ccx, ccy, ccz): fills loc with the
      coordinates of index (i, j, k), centred or on edges per axis. */
  method Position(g: GeometryData, dim: Dim, i: int, j: int, k: int, loc: array<real>,
                  ccx: bool, ccy: bool, ccz: bool)
    requires Shaped(g, dim) && loc.Length == 3
    modifies loc
    ensures loc[..] == PositionOf(g, dim, [i, j, k], [ccx, ccy, ccz])
  {
    var idx := [i, j, k];
    var cc := [ccx, ccy, ccz];
    var offset := StartOffsets(g, dim, cc);
    ghost var base := offset[..];
    WrapPeriodic(g, dim, idx, cc, offset);
    ghost var shifted := offset[..];
    PlaceAxes(g, dim, idx, offset, loc);
    PlacementIsPosition(g, dim, idx, cc, base, shifted, loc[..]);
  }

  /** First loop of position: each active axis starts at problo, or half a
      cell above it when cell-centred. */
  method StartOffsets(g: GeometryData, dim: Dim, cc: seq<bool>) returns (offset: array<real>)
    requires Shaped(g, dim) && |cc| == 3
    ensures fresh(offset) && offset.Length == dim
    ensures forall d :: 0 <= d < dim ==> offset[d] == CellOffset(g, dim, d, cc[d])
  {
    offset := new real[dim];
    for dir := 0 to dim
      invariant forall d :: 0 <= d < dir ==> offset[d] == CellOffset(g, dim, d, cc[d])
    {
      if cc[dir] {
        offset[dir] := g.problo[dir] + 0.5 * g.dx[dir];
      } else {
        offset[dir] := g.problo[dir];
      }
    }
  }

  /** Second loop of position: on periodic axes, move the offset by one domain
      length for indices outside the unwrapped range. */
  method WrapPeriodic(g: GeometryData, dim: Dim, idx: seq<int>, cc: seq<bool>, offset: array<real>)
    requires Shaped(g, dim) && |idx| == 3 && |cc| == 3 && offset.Length == dim
    modifies offset
    ensures forall d :: 0 <= d < dim ==> offset[d] == old(offset[d]) + PeriodicShift(g, dim, d, idx[d], cc[d])
  {
    for dir := 0 to dim
      invariant forall d :: 0 <= d < dir ==> offset[d] == old(offset[d]) + PeriodicShift(g, dim, d, idx[d], cc[d])
      invariant forall d :: dir <= d < dim ==> offset[d] == old(offset[d])
    {
      if g.periodic[dir] {
        if idx[dir] < g.domlo[dir] {
          offset[dir] := offset[dir] + (g.probhi[dir] - g.problo[dir]);
        }
        if (cc[dir] && idx[dir] > g.domhi[dir]) || (!cc[dir] && idx[dir] > g.domhi[dir] + 1) {
          offset[dir] := offset[dir] + (g.problo[dir] - g.probhi[dir]);
        }
      }
    }
  }

  /** Last two loops of position: active axes get offset + idx * dx, the
      remaining entries of loc are zero. */
  method PlaceAxes(g: GeometryData, dim: Dim, idx: seq<int>, offset: array<real>, loc: array<real>)
    requires Shaped(g, dim) && |idx| == 3 && offset.Length == dim && loc.Length == 3 && offset != loc
    modifies loc
    ensures forall d :: 0 <= d < dim ==> loc[d] == Coordinate(offset[d], idx[d], g.dx[d])
    ensures forall d :: dim <= d < 3 ==> loc[d] == 0.0
  {
    for dir := 0 to dim
      invariant forall d :: 0 <= d < dir ==> loc[d] == Coordinate(offset[d], idx[d], g.dx[d])
    {
      loc[dir] := offset[dir] + (idx[dir] as real) * g.dx[dir];
    }
    for dir := dim to 3
      invariant forall d :: 0 <= d < dim ==> loc[d] == Coordinate(offset[d], idx[d], g.dx[d])
      invariant forall d :: dim <= d < dir ==> loc[d] == 0.0
    {
      loc[dir] := 0.0;
    }
  }

  /** The three stages of Position (starting offsets, periodic shifts, scaled
      indices) compose to PositionOf. */
  lemma PlacementIsPosition(g: GeometryData, dim: Dim, idx: seq<int>, cc: seq<bool>,
                            base: seq<real>, shifted: seq<real>, loc: seq<real>)
    requires Shaped(g, dim) && |idx| == 3 && |cc| == 3
    requires |base| == dim && |shifted| == dim && |loc| == 3
    requires forall d :: 0 <= d < dim ==> base[d] == CellOffset(g, dim, d, cc[d])
    requires forall d :: 0 <= d < dim ==> shifted[d] == base[d] + PeriodicShift(g, dim, d, idx[d], cc[d])
    requires forall d :: 0 <= d < dim ==> loc[d] == Coordinate(shifted[d], idx[d], g.dx[d])
    requires forall d :: dim <= d < 3 ==> loc[d] == 0.0
    ensures loc == PositionOf(g, dim, idx, cc)
  {
    var want := PositionOf(g, dim, idx, cc);
    assert forall d :: 0 <= d < 3 ==> loc[d] == want[d];
  }

  /** The domain's physical length is exactly its number of cells times the spacing. */
  predicate PeriodMatches(g: GeometryData, dim: Dim, dir: nat)
    requires Shaped(g, dim) && dir < dim
  {
    && g.domlo[dir] <= g.domhi[dir]
    && DomainLength(g, dim, dir) == ((g.domhi[dir] - g.domlo[dir] + 1) as real) * g.dx[dir]
  }

  /** Number of cells of the domain along dir. */
  function CellCount(g: GeometryData, dim: Dim, dir: nat): int
    requires Shaped(g, dim) && dir < dim
  {
    g.domhi[dir] - g.domlo[dir] + 1
  }

  /** An index up to one period below the domain lands on the same coordinate as
      its periodic image inside the domain. */
  lemma WrapFromBelow(g: GeometryData, dim: Dim, dir: nat, idx: int, cc: bool)
    requires Shaped(g, dim) && dir < dim
    requires g.periodic[dir] && PeriodMatches(g, dim, dir)
    requires g.domlo[dir] - CellCount(g, dim, dir) <= idx < g.domlo[dir]
    ensures g.domlo[dir] <= idx + CellCount(g, dim, dir) <= g.domhi[dir]
    ensures AxisPosition(g, dim, dir, idx, cc) == AxisPosition(g, dim, dir, idx + CellCount(g, dim, dir), cc)
  {
    var n := CellCount(g, dim, dir);
    assert ((idx + n) as real) * g.dx[dir] == (idx as real) * g.dx[dir] + (n as real) * g.dx[dir];
  }

  /** An index up to one period above HighIndex lands on the same coordinate as
      its periodic image inside the domain. */
  lemma WrapFromAbove(g: GeometryData, dim: Dim, dir: nat, idx: int, cc: bool)
    requires Shaped(g, dim) && dir < dim
    requires g.periodic[dir] && PeriodMatches(g, dim, dir)
    requires HighIndex(g.domhi[dir], cc) < idx <= HighIndex(g.domhi[dir], cc) + CellCount(g, dim, dir)
    ensures g.domlo[dir] <= idx - CellCount(g, dim, dir) <= HighIndex(g.domhi[dir], cc)
    ensures AxisPosition(g, dim, dir, idx, cc) == AxisPosition(g, dim, dir, idx - CellCount(g, dim, dir), cc)
  {
    var n := CellCount(g, dim, dir);
    assert ((idx - n) as real) * g.dx[dir] == (idx as real) * g.dx[dir] - (n as real) * g.dx[dir];
  }

  /** A point m + 0.5 cells (m in [0, n)) or m cells (m in [0, n]) above lo lies
      within the n-cell interval starting at lo. */
  lemma ScaledOffsetWithin(lo: real, dx: real, m: real, half: real, n: real)
    requires dx > 0.0 && 0.0 <= m && (half == 0.0 || half == 0.5) && m + 2.0 * half <= n
    ensures lo + half * dx <= lo + half * dx + m * dx <= lo + n * dx
    ensures half == 0.5 ==> lo < lo + half * dx + m * dx < lo + n * dx
  {
    var rest := n - m - 2.0 * half;
    assert m * dx >= 0.0;
    assert rest * dx >= 0.0;
    assert rest * dx == n * dx - m * dx - 2.0 * half * dx;
  }

  /** A periodic index up to one period outside the unwrapped range is placed
      where its periodic image inside that range is. */
  lemma WrapToImage(g: GeometryData, dim: Dim, dir: nat, idx: int, cc: bool) returns (inside: int)
    requires Shaped(g, dim) && dir < dim
    requires g.periodic[dir] && PeriodMatches(g, dim, dir)
    requires g.domlo[dir] - CellCount(g, dim, dir) <= idx <= HighIndex(g.domhi[dir], cc) + CellCount(g, dim, dir)
    ensures g.domlo[dir] <= inside <= HighIndex(g.domhi[dir], cc)
    ensures AxisPosition(g, dim, dir, idx, cc) == AxisPosition(g, dim, dir, inside, cc)
  {
    var n := CellCount(g, dim, dir);
    if idx < g.domlo[dir] {
      WrapFromBelow(g, dim, dir, idx, cc);
      inside := idx + n;
    } else if idx > HighIndex(g.domhi[dir], cc) {
      WrapFromAbove(g, dim, dir, idx, cc);
      inside := idx - n;
    } else {
      inside := idx;
    }
  }

  /** On a periodic axis whose index 0 sits at problo, a cell-centred index up
      to one period outside the domain is wrapped to a point strictly inside
      (problo, probhi). */
  lemma CellCentreWrapsIntoDomain(g: GeometryData, dim: Dim, dir: nat, idx: int)
    requires Shaped(g, dim) && dir < dim
    requires g.periodic[dir] && PeriodMatches(g, dim, dir) && g.domlo[dir] == 0 && g.dx[dir] > 0.0
    requires -CellCount(g, dim, dir) <= idx <= g.domhi[dir] + CellCount(g, dim, dir)
    ensures g.problo[dir] < AxisPosition(g, dim, dir, idx, true) < g.probhi[dir]
  {
    var inside := WrapToImage(g, dim, dir, idx, true);
    ScaledOffsetWithin(g.problo[dir], g.dx[dir], inside as real, 0.5, CellCount(g, dim, dir) as real);
  }

  /** The same for edges: an edge index up to one period outside [0, domhi + 1]
      is placed within [problo, probhi]. */
  lemma EdgeWrapsIntoDomain(g: GeometryData, dim: Dim, dir: nat, idx: int)
    requires Shaped(g, dim) && dir < dim
    requires g.periodic[dir] && PeriodMatches(g, dim, dir) && g.domlo[dir] == 0 && g.dx[dir] > 0.0
    requires -CellCount(g, dim, dir) <= idx <= g.domhi[dir] + 1 + CellCount(g, dim, dir)
    ensures g.problo[dir] <= AxisPosition(g, dim, dir, idx, false) <= g.probhi[dir]
  {
    var inside := WrapToImage(g, dim, dir, idx, false);
    ScaledOffsetWithin(g.problo[dir], g.dx[dir], inside as real, 0.0, CellCount(g, dim, dir) as real);
  }

  /** A cell-centred index one past domhi is wrapped onto cell domlo, while the
      edge with the same index stays where the linear formula puts it, which
      for a domain starting at index 0 is the high boundary probhi. */
  lemma HighIndexCentring(g: GeometryData, dim: Dim, dir: nat)
    requires Shaped(g, dim) && dir < dim
    requires g.periodic[dir] && PeriodMatches(g, dim, dir)
    ensures AxisPosition(g, dim, dir, g.domhi[dir] + 1, true) == AxisPosition(g, dim, dir, g.domlo[dir], true)
    ensures AxisPosition(g, dim, dir, g.domhi[dir] + 1, false)
            == g.problo[dir] + ((g.domhi[dir] + 1) as real) * g.dx[dir]
    ensures g.domlo[dir] == 0 ==> AxisPosition(g, dim, dir, g.domhi[dir] + 1, false) == g.probhi[dir]
  {
    WrapFromAbove(g, dim, dir, g.domhi[dir] + 1, true);
  }

  /** A periodic unit-spaced domain [0, 10) of ten cells: cell -1 is placed at 9.5. */
  lemma WrapExample()
    ensures PositionOf(GeometryData([0.0], [10.0], [1.0], [0], [9], [true], Cartesian), 1,
                       [-1, 0, 0], [true, true, true]) == [9.5, 0.0, 0.0]
  {
    var g := GeometryData([0.0], [10.0], [1.0], [0], [9], [true], Cartesian);
    assert AxisPosition(g, 1, 0, -1, true) == 9.5;
  }
}

