/** The geometry descriptor the metric routines read (AMReX's GeometryData),
    reduced to the values they use, and the build-time dimensionality. */
module Geometry {

  /** Spatial dimensionality (AMREX_SPACEDIM, a build-time constant in the solver). */
  type Dim = d: int | 1 <= d <= 3 witness 1

  /** Coordinate-system tags (CoordSys): 0 Cartesian, 1 cylindrical, 2 spherical. */
  const Cartesian: int := 0
  const Cylindrical: int := 1
  const Spherical: int := 2

  /** Per-axis physical bounds, cell spacing, index bounds of the level's domain,
      periodicity flags, and the coordinate-system tag. */
  datatype GeometryData = GeometryData(
    problo: seq<real>,
    probhi: seq<real>,
    dx: seq<real>,
    domlo: seq<int>,
    domhi: seq<int>,
    periodic: seq<bool>,
    coord: int)

  /** Every per-axis array holds one entry per spatial dimension. */
  predicate Shaped(g: GeometryData, dim: Dim)
  {
    && |g.problo| == dim
    && |g.probhi| == dim
    && |g.dx| == dim
    && |g.domlo| == dim
    && |g.domhi| == dim
    && |g.periodic| == dim
  }

  /** The coordinate systems the solver supports for each dimensionality:
      Cartesian, 1-D cylindrical and spherical in 1-D; Cartesian and R-Z in 2-D;
      Cartesian only in 3-D. */
  predicate SupportedCoord(dim: Dim, coord: int)
  {
    if dim == 1 then Cartesian <= coord <= Spherical
    else if dim == 2 then Cartesian <= coord <= Cylindrical
    else coord == Cartesian
  }

  /** Cell spacing is strictly positive on every axis. */
  predicate PositiveSpacing(g: GeometryData, dim: Dim)
    requires Shaped(g, dim)
  {
    forall d :: 0 <= d < dim ==> g.dx[d] > 0.0
  }
}
