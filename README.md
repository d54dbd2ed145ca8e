# Castro grid utilities, verified model

This project models the small grid utilities that Castro's hydrodynamics kernels call
in their inner loops (`Source/driver/Castro_util.H`):

- **Passive-index mapping** (`upassmap`, `qpassmap`). A logical passive-quantity index
  is an advected scalar, then a species, then an auxiliary quantity. It maps to its slot
  in the conserved (U) or primitive (Q) state vector. The slot is the block base of its
  category plus its offset inside the category. Module `PassiveIndex`.
- **Pressure in the momentum flux** (`mom_flux_has_p`). This decides whether the flux of
  one momentum component along one direction carries the pressure term. Module `MomentumFlux`.
- **Cell and edge positions** (`position`). This gives the physical coordinates of an index
  triple, cell-centred or edge-centred per axis. On periodic axes, an index outside the
  domain is moved by one domain length. Module `Position`. The imperative routine is the
  method `Position.Position`. It fills a caller-supplied `loc` array through a local
  `offset` array, in the source's four loops. It is proved equal to the function
  `PositionOf`, and the wrap-around properties are lemmas about that function.
- **Metrics** (`geometry_util::volume`, `geometry_util::area`). These are closed-form cell
  volumes and low-face areas for:
  - 1-D Cartesian, cylindrical and spherical geometry;
  - 2-D Cartesian and R-Z geometry;
  - 3-D Cartesian geometry.

  Module `GeometryUtil`.

  The lemmas show that:
  - each curved cell is exactly the annulus or spherical shell between its face radii;
  - the axial face in R-Z is exactly the annulus between the radial faces;
  - planar faces times the normal spacing give the volume;
  - the faces and the volume are consistent as a finite-volume discretisation: the flux of
    the field `r e_r` out of a cell equals its divergence (1, 2 or 3) times the volume;
  - volumes and off-axis areas are positive.

The build-time dimensionality `AMREX_SPACEDIM` becomes a parameter `dim` in 1..3.
AMReX's `GeometryData` becomes the datatype `Geometry.GeometryData`. Its per-axis fields
are sequences of length `dim` (predicate `Shaped`).

The coordinate tag is kept as the integer the code tests:
- in 1-D, tag 0 is Cartesian, tag 1 is cylindrical, and every other tag takes the spherical branch;
- in 2-D, every tag other than 0 takes the R-Z branch;
- in 3-D, the tag is ignored.

A radial face on the symmetry axis (radius 0) has zero area in every curved geometry,
so radial face areas are positive only off the axis (`AxisFaceHasZeroArea`,
`AreaPositiveOffAxis`). The R-Z axial face is taken at the cell-centre radius, so it is
positive for the cell touching the axis too. `VolumePositive` assumes a non-negative
low radius for cylindrical cells. That condition is sufficient but not necessary: any
low radius above -dx[0]/2 also gives a positive volume. Spherical cells need no such
condition.

## Model

| member | source | states |
|---|---|---|
| PassiveIndex.PassMap | Source/driver/Castro_util.H:25-40 | The slot is the category's block base plus the index's offset from the category's first index, and a valid index lands inside its category's block. |
| PassiveIndex.UPassMap | Source/driver/Castro_util.H:25-40 | With non-overlapping blocks, the conserved-layout slot of a valid passive index is owned by exactly that index. |
| PassiveIndex.QPassMap | Source/driver/Castro_util.H:43-58 | The same for the primitive layout (QFA, QFS, QFX). |
| PassiveIndex.SlotOwnerOfPassMap | Source/driver/Castro_util.H:25-40 | Reading back the owner of the slot of a valid index returns that index, when the blocks are disjoint. |
| PassiveIndex.PassMapOfSlotOwner | Source/driver/Castro_util.H:25-40 | Every slot inside one of the three blocks belongs to a valid index, and that index maps back to the slot. |
| PassiveIndex.PassMapInjective | Source/driver/Castro_util.H:25-40 | Two valid indices with the same slot are equal, when the blocks are disjoint. |
| PassiveIndex.PassMapIncreasing | Source/driver/Castro_util.H:27-38 | Within one category, a larger index gets a strictly larger slot. |
| MomentumFlux.MomFluxHasP | Source/driver/Castro_util.H:61-88 | Pressure appears only on diagonal components. A diagonal Cartesian component always has it, and so does every diagonal component off axis 0. The radial-radial component in non-Cartesian 1-D/2-D never has it. In 3-D the result is exactly momDir == fluxDir. |
| Position.PeriodicShift | Source/driver/Castro_util.H:126-141 | The shift is zero off periodic axes and for indices in [domlo, HighIndex]. It is plus one domain length below domlo and minus one above HighIndex. HighIndex is domhi for cells and domhi + 1 for edges. |
| Position.AxisPosition | Source/driver/Castro_util.H:112-145 | On a non-periodic axis, or inside the unwrapped range, the coordinate is problo + (half a cell if centred) + idx * dx, with no clamping for ghost indices. |
| Position.PositionOf | Source/driver/Castro_util.H:112-149 | The result has three entries: the axis coordinate on each active axis and 0 on every axis from dim on. |
| Position.Position | Source/driver/Castro_util.H:93-151 | After the call, loc holds exactly PositionOf of (i, j, k) and (ccx, ccy, ccz). |
| Position.StartOffsets | Source/driver/Castro_util.H:112-121 | It returns a fresh offset array of length dim holding problo, plus half a cell on centred axes. |
| Position.WrapPeriodic | Source/driver/Castro_util.H:126-141 | Each active offset grows by its periodic shift, and nothing else changes. |
| Position.PlaceAxes | Source/driver/Castro_util.H:143-149 | loc gets offset + idx * dx on active axes and 0 on the rest. |
| Position.PlacementIsPosition | Source/driver/Castro_util.H:112-149 | The three stages compose to PositionOf. |
| Position.WrapFromBelow | Source/driver/Castro_util.H:129-131 | When the domain length is its cell count times dx, an index up to one period below domlo is placed where its image idx + N inside the domain is. |
| Position.WrapFromAbove | Source/driver/Castro_util.H:135-138 | An index up to one period above HighIndex is placed where its image idx - N is. |
| Position.WrapToImage | Source/driver/Castro_util.H:126-141 | Every periodic index within one period of the unwrapped range has an image inside it with the same coordinate. |
| Position.CellCentreWrapsIntoDomain | Source/driver/Castro_util.H:126-145 | A cell centre within one period of a domain starting at index 0 lands strictly inside (problo, probhi). |
| Position.EdgeWrapsIntoDomain | Source/driver/Castro_util.H:126-145 | An edge within one period of [0, domhi + 1] lands inside [problo, probhi]. |
| Position.HighIndexCentring | Source/driver/Castro_util.H:133-138 | Index domhi + 1 is wrapped onto cell domlo when cell-centred. As an edge it is not wrapped, and for a domain starting at 0 it sits at probhi. |
| Position.WrapExample | Source/driver/Castro_util.H:112-149 | In a periodic domain [0, 10) of ten unit cells, the centre of cell -1 is at 9.5. |
| GeometryUtil.Volume | Source/driver/Castro_util.H:157-234 | The cell volume, branch by branch as in the source. It has no contract of its own. Its properties are the lemmas CylindricalVolumeIsAnnulus, SphericalVolumeIsShell, RZVolumeIsAnnulus, PlanarFaceTimesSpacing, the RadialFluxBalance lemmas and VolumePositive. |
| GeometryUtil.Area | Source/driver/Castro_util.H:237-326 | The low-face area, branch by branch and per idir as in the source. It has no contract of its own. Its properties are the lemmas RZAxialAreaIsAnnulus, PlanarFaceTimesSpacing, the RadialFluxBalance lemmas, AreaPositiveOffAxis and AxisFaceHasZeroArea. |
| GeometryUtil.NextEdge | Source/driver/Castro_util.H:218-219 | The radius of face i + 1 is the radius of face i plus dx[0]. |
| GeometryUtil.AnnulusIdentity | Source/driver/Castro_util.H:190 | dx (rl + rr) = rr^2 - rl^2 for rr = rl + dx. |
| GeometryUtil.ShellIdentity | Source/driver/Castro_util.H:199 | dx (rl^2 + rl rr + rr^2) = rr^3 - rl^3 for rr = rl + dx. |
| GeometryUtil.CylindricalVolumeIsAnnulus | Source/driver/Castro_util.H:183-190 | The 1-D cylindrical volume is pi (rr^2 - rl^2). |
| GeometryUtil.SphericalVolumeIsShell | Source/driver/Castro_util.H:192-199 | The 1-D spherical volume is (4/3) pi (rr^3 - rl^3). |
| GeometryUtil.RZVolumeIsAnnulus | Source/driver/Castro_util.H:214-221 | The 2-D R-Z volume is pi (rr^2 - rl^2) dx[1]. |
| GeometryUtil.RZAxialAreaIsAnnulus | Source/driver/Castro_util.H:298-305 | The R-Z axial face, taken at the cell-centre radius, is exactly the annulus pi (rr^2 - rl^2). |
| GeometryUtil.RadialFluxBalance1D | Source/driver/Castro_util.H:250-276 | In 1-D, area(i+1) rr - area(i) rl is 1, 2 or 3 times the volume (Cartesian, cylindrical, spherical). |
| GeometryUtil.CylindricalFluxBalance1D | Source/driver/Castro_util.H:260-266 | The 1-D cylindrical case of the balance, with factor 2. |
| GeometryUtil.SphericalFluxBalance1D | Source/driver/Castro_util.H:268-275 | The 1-D spherical case of the balance, with factor 3. |
| GeometryUtil.RadialFluxBalance2D | Source/driver/Castro_util.H:278-307 | The same balance in 2-D Cartesian (factor 1) and R-Z (factor 2). |
| GeometryUtil.RadialFluxBalance3D | Source/driver/Castro_util.H:309-323 | The same balance in 3-D (factor 1). |
| GeometryUtil.PlanarFaceTimesSpacing | Source/driver/Castro_util.H:282-292 | In 2-D/3-D Cartesian geometry, and for the axial face in R-Z, area(idir) * dx[idir] equals the volume. |
| GeometryUtil.ShellFactorPositive | Source/driver/Castro_util.H:199 | The spherical factor rl^2 + rl rr + rr^2 is positive whenever rl < rr. |
| GeometryUtil.VolumePositive | Source/driver/Castro_util.H:173-231 | With positive spacing, every supported cell has positive volume. For a cylindrical cell the lemma assumes a non-negative low radius, which is sufficient. |
| GeometryUtil.VolumePositive1D | Source/driver/Castro_util.H:173-201 | The 1-D case: spherical needs only dx[0] > 0. |
| GeometryUtil.VolumePositive2D | Source/driver/Castro_util.H:203-223 | The 2-D case. |
| GeometryUtil.AreaPositiveOffAxis | Source/driver/Castro_util.H:250-323 | With positive spacing, every face has positive area. In curved geometry a radial face needs a positive radius, and the R-Z axial face needs only a non-negative low radius. |
| GeometryUtil.AreaPositive1D | Source/driver/Castro_util.H:250-276 | The 1-D case. |
| GeometryUtil.AreaPositive2D | Source/driver/Castro_util.H:278-307 | The 2-D case, both face directions. The R-Z axial face of the cell touching the axis is included. |
| GeometryUtil.AxisFaceHasZeroArea | Source/driver/Castro_util.H:260-300 | A radial face at radius 0 in curved geometry has area 0. |
| GeometryUtil.SphericalShellExample | Source/driver/Castro_util.H:196-199 | The shell from r = 1 to 2 has volume 28 pi / 3, and the sphere at r = 2 has area 16 pi. |
| GeometryUtil.RZCellExample | Source/driver/Castro_util.H:218-221 | The unit-height R-Z cell from r = 1 to 2 has volume 3 pi. |

## Left out

- Floating point: `Real` is modelled as exact `real`, so rounding and bit-exact results are not modelled.
- `M_PI` is the constant `GeometryUtil.Pi`, of which only its positivity is known. Every
  metric statement is an identity in pi.
- AMReX plumbing is not modelled: the `GeometryData` accessors, `Box::loVect`/`hiVect`,
  `GpuArray`, the GPU and inlining macros, `constexpr` and `amrex::ignore_unused`.
  `GeometryData` is a plain record.
- The `dg0`/`dg1`/`dg2` flags are not modelled. This file only defines them and never reads them.
- `NumAdv`, `NumSpec` and the block bases `UFA`/`UFS`/`UFX`/`QFA`/`QFS`/`QFX` are defined
  in headers that are not part of this model. They are parameters (`Counts`, `Bases`).
  The number of auxiliary quantities is a count of its own.
- The mappers perform no range check on the passive index, and neither does the model.
  Properties about valid slots assume `0 <= p < Total`.
- `AMREX_SPACEDIM` is a run-time parameter `dim`, not a compile-time selection. The local
  `offset` array has `dim` entries, as in the source.
- Position.Position: the four loops are three helper methods (the last two loops in one).
  This keeps each proof small. The loop bodies are unchanged.
- Position's wrap-around lemmas assume that the physical length of a periodic axis equals
  its cell count times `dx` (`PeriodMatches`). The code assumes this but does not check it.
  The lemmas cover indices up to one period outside the domain, because the code shifts by
  at most one period.
- Position.CellCentreWrapsIntoDomain and Position.EdgeWrapsIntoDomain also assume
  `domlo == 0` (index 0 at `problo`), as for a level-0 domain.
- `volume` and `area` ignore `j` and `k` (and `idir`, where the source does), as the code does.
  They are still parameters for the same signature.
- `position`'s default arguments `ccx = ccy = ccz = true` are not modelled: Position.Position
  takes the three flags explicitly, and a caller that omits them passes `true`.
- C++ `int` is modelled as an unbounded integer, so overflow at `domhi + 1`, `i + 1` or
  `UFA + ipassive` is not modelled. It cannot occur for realistic grid and state sizes.
