/** geometry_util::volume and geometry_util::area: closed-form cell volumes and
    face areas for the coordinate systems the solver supports. */
module GeometryUtil {
  import opened Geometry

  type PositiveReal = r: real | r > 0.0 witness 1.0

  /** M_PI. Only its positivity is used: every claim here is an algebraic identity. */
  const Pi: PositiveReal

  /** Radius (axis-0 coordinate) of the low face of cell i: problo[0] + i*dx[0]. */
  function LeftEdge(g: GeometryData, dim: Dim, i: int): real
    requires Shaped(g, dim)
  {
    g.problo[0] + (i as real) * g.dx[0]
  }

  function Sq(x: real): real { x * x }

  function Cube(x: real): real { x * x * x }

  /** A cell of spacing h starting at rl ends at rl + h. */
  lemma NextEdge(g: GeometryData, dim: Dim, i: int)
    requires Shaped(g, dim)
    ensures LeftEdge(g, dim, i + 1) == LeftEdge(g, dim, i) + g.dx[0]
  {
  }

  /** The disk-shell factor: h(r + (r + h)) is the difference of the squared radii. */
  lemma AnnulusIdentity(rl: real, h: real)
    ensures h * ((rl + h) + rl) == Sq(rl + h) - Sq(rl)
  {
  }

  /** The sphere-shell factor: h(r^2 + r(r + h) + (r + h)^2) is the difference of the cubed radii. */
  lemma ShellIdentity(rl: real, h: real)
    ensures h * (rl * rl + rl * (rl + h) + (rl + h) * (rl + h)) == Cube(rl + h) - Cube(rl)
  {
  }

  /** geometry_util::volume: volume of cell (i, j, k). */
  function Volume(g: GeometryData, dim: Dim, i: int, j: int, k: int): real
    requires Shaped(g, dim)
  {
    if dim == 1 then
      if g.coord == 0 then
        g.dx[0]
      else if g.coord == 1 then
        var rl := g.problo[0] + (i as real) * g.dx[0];
        var rr := rl + g.dx[0];
        Pi * g.dx[0] * (rr + rl)
      else
        var rl := g.problo[0] + (i as real) * g.dx[0];
        var rr := rl + g.dx[0];
        (4.0 / 3.0) * Pi * g.dx[0] * (rl * rl + rl * rr + rr * rr)
    else if dim == 2 then
      if g.coord == 0 then
        g.dx[0] * g.dx[1]
      else
        var r_l := g.problo[0] + (i as real) * g.dx[0];
        var r_r := g.problo[0] + ((i + 1) as real) * g.dx[0];
        Pi * (r_l + r_r) * g.dx[0] * g.dx[1]
    else
      g.dx[0] * g.dx[1] * g.dx[2]
  }

  /** geometry_util::area: area of the low face of cell (i, j, k) normal to idir. */
  function Area(g: GeometryData, dim: Dim, i: int, j: int, k: int, idir: int): real
    requires Shaped(g, dim)
  {
    if dim == 1 then
      if g.coord == 0 then
        1.0
      else if g.coord == 1 then
        var r := g.problo[0] + (i as real) * g.dx[0];
        2.0 * Pi * r
      else
        var r := g.problo[0] + (i as real) * g.dx[0];
        4.0 * Pi * r * r
    else if dim == 2 then
      if g.coord == 0 then
        if idir == 0 then g.dx[1] else g.dx[0]
      else
        if idir == 0 then
          var r := g.problo[0] + (i as real) * g.dx[0];
          2.0 * Pi * r * g.dx[1]
        else
          var r := g.problo[0] + ((i as real) + 0.5) * g.dx[0];
          2.0 * Pi * r * g.dx[0]
    else
      if idir == 0 then g.dx[1] * g.dx[2]
      else if idir == 1 then g.dx[0] * g.dx[2]
      else g.dx[0] * g.dx[1]
  }

  /** 1-D cylindrical: the cell is the annulus between its two face radii. */
  lemma CylindricalVolumeIsAnnulus(g: GeometryData, dim: Dim, i: int, j: int, k: int)
    requires Shaped(g, dim) && dim == 1 && g.coord == Cylindrical
    ensures Volume(g, dim, i, j, k) == Pi * (Sq(LeftEdge(g, dim, i + 1)) - Sq(LeftEdge(g, dim, i)))
  {
    var rl := LeftEdge(g, dim, i);
    NextEdge(g, dim, i);
    AnnulusIdentity(rl, g.dx[0]);
    assert Volume(g, dim, i, j, k) == Pi * (g.dx[0] * ((rl + g.dx[0]) + rl));
  }

  /** 1-D spherical (every tag other than 0 and 1): the cell is the spherical
      shell between its two face radii. */
  lemma SphericalVolumeIsShell(g: GeometryData, dim: Dim, i: int, j: int, k: int)
    requires Shaped(g, dim) && dim == 1 && g.coord != Cartesian && g.coord != Cylindrical
    ensures Volume(g, dim, i, j, k) == (4.0 / 3.0) * Pi * (Cube(LeftEdge(g, dim, i + 1)) - Cube(LeftEdge(g, dim, i)))
  {
    var rl := LeftEdge(g, dim, i);
    var rr := rl + g.dx[0];
    NextEdge(g, dim, i);
    ShellIdentity(rl, g.dx[0]);
    assert Volume(g, dim, i, j, k) == (4.0 / 3.0) * Pi * (g.dx[0] * (rl * rl + rl * rr + rr * rr));
  }

  /** 2-D R-Z (every tag other than 0): the cell is an annulus of height dx[1]. */
  lemma RZVolumeIsAnnulus(g: GeometryData, dim: Dim, i: int, j: int, k: int)
    requires Shaped(g, dim) && dim == 2 && g.coord != Cartesian
    ensures Volume(g, dim, i, j, k) == Pi * (Sq(LeftEdge(g, dim, i + 1)) - Sq(LeftEdge(g, dim, i))) * g.dx[1]
  {
    var rl := LeftEdge(g, dim, i);
    NextEdge(g, dim, i);
    AnnulusIdentity(rl, g.dx[0]);
    assert Volume(g, dim, i, j, k) == Pi * (g.dx[0] * ((rl + g.dx[0]) + rl)) * g.dx[1];
  }

  /** 2-D R-Z: the axial face, evaluated at the cell-centre radius, is exactly the
      annulus between the two radial faces (unlike the radial face, which uses
      its own radius). */
  lemma RZAxialAreaIsAnnulus(g: GeometryData, dim: Dim, i: int, j: int, k: int, idir: int)
    requires Shaped(g, dim) && dim == 2 && g.coord != Cartesian && idir != 0
    ensures Area(g, dim, i, j, k, idir) == Pi * (Sq(LeftEdge(g, dim, i + 1)) - Sq(LeftEdge(g, dim, i)))
  {
    var rl := LeftEdge(g, dim, i);
    var r := g.problo[0] + ((i as real) + 0.5) * g.dx[0];
    NextEdge(g, dim, i);
    AnnulusIdentity(rl, g.dx[0]);
    assert 2.0 * r == (rl + g.dx[0]) + rl;
    assert Area(g, dim, i, j, k, idir) == Pi * (g.dx[0] * (2.0 * r));
  }

  /** Divergence of the field whose axis-0 component is the axis-0 coordinate
      (x e_x in Cartesian, r e_r otherwise): 1, 2 and 3 in Cartesian,
      cylindrical and spherical coordinates. */
  function RadialDivergence(coord: int): real
  {
    if coord == Cartesian then 1.0 else if coord == Cylindrical then 2.0 else 3.0
  }

  /** Flux balance of r e_r across a cylindrical shell [rl, rl + h] of height c:
      2 pi r c r at the outer face minus the inner face is twice pi h (rr + rl) c. */
  lemma CylinderFluxIdentity(p: real, rl: real, rr: real, h: real, c: real)
    requires rr == rl + h
    ensures (2.0 * p * rr * c) * rr - (2.0 * p * rl * c) * rl == 2.0 * (p * (rl + rr) * h * c)
  {
  }

  /** Flux balance of r e_r across a spherical shell [rl, rl + h]: 4 pi r^3 at the
      outer face minus the inner face is three times (4/3) pi h (rl^2 + rl rr + rr^2). */
  lemma SphereFluxIdentity(p: real, rl: real, rr: real, h: real)
    requires rr == rl + h
    ensures (4.0 * p * rr * rr) * rr - (4.0 * p * rl * rl) * rl
            == 3.0 * ((4.0 / 3.0) * p * h * (rl * rl + rl * rr + rr * rr))
  {
    ShellIdentity(rl, h);
  }

  /** Finite-volume consistency across the axis-0 faces, in one dimension: for
      the field whose axis-0 component is the axis-0 coordinate, the flux
      through the cell's high face minus the flux through its low face equals
      its divergence times the cell volume, in every supported geometry. */
  lemma RadialFluxBalance1D(g: GeometryData, i: int, j: int, k: int)
    requires Shaped(g, 1) && SupportedCoord(1, g.coord)
    ensures Area(g, 1, i + 1, j, k, 0) * LeftEdge(g, 1, i + 1) - Area(g, 1, i, j, k, 0) * LeftEdge(g, 1, i)
            == RadialDivergence(g.coord) * Volume(g, 1, i, j, k)
  {
    NextEdge(g, 1, i);
    if g.coord == Cylindrical {
      CylindricalFluxBalance1D(g, i, j, k);
    } else if g.coord == Spherical {
      SphericalFluxBalance1D(g, i, j, k);
    }
  }

  lemma CylindricalFluxBalance1D(g: GeometryData, i: int, j: int, k: int)
    requires Shaped(g, 1) && g.coord == Cylindrical
    ensures Area(g, 1, i + 1, j, k, 0) * LeftEdge(g, 1, i + 1) - Area(g, 1, i, j, k, 0) * LeftEdge(g, 1, i)
            == 2.0 * Volume(g, 1, i, j, k)
  {
    var rl := LeftEdge(g, 1, i);
    var rr := LeftEdge(g, 1, i + 1);
    var h := g.dx[0];
    NextEdge(g, 1, i);
    assert Area(g, 1, i + 1, j, k, 0) == 2.0 * Pi * rr * 1.0;
    assert Area(g, 1, i, j, k, 0) == 2.0 * Pi * rl * 1.0;
    assert Volume(g, 1, i, j, k) == Pi * (rl + rr) * h * 1.0;
    CylinderFluxIdentity(Pi, rl, rr, h, 1.0);
  }

  lemma SphericalFluxBalance1D(g: GeometryData, i: int, j: int, k: int)
    requires Shaped(g, 1) && g.coord == Spherical
    ensures Area(g, 1, i + 1, j, k, 0) * LeftEdge(g, 1, i + 1) - Area(g, 1, i, j, k, 0) * LeftEdge(g, 1, i)
            == 3.0 * Volume(g, 1, i, j, k)
  {
    var rl := LeftEdge(g, 1, i);
    var rr := LeftEdge(g, 1, i + 1);
    var h := g.dx[0];
    NextEdge(g, 1, i);
    assert Area(g, 1, i + 1, j, k, 0) == 4.0 * Pi * rr * rr;
    assert Area(g, 1, i, j, k, 0) == 4.0 * Pi * rl * rl;
    assert Volume(g, 1, i, j, k) == (4.0 / 3.0) * Pi * h * (rl * rl + rl * rr + rr * rr);
    SphereFluxIdentity(Pi, rl, rr, h);
  }

  /** The same balance in two dimensions (Cartesian and R-Z). */
  lemma RadialFluxBalance2D(g: GeometryData, i: int, j: int, k: int)
    requires Shaped(g, 2) && SupportedCoord(2, g.coord)
    ensures Area(g, 2, i + 1, j, k, 0) * LeftEdge(g, 2, i + 1) - Area(g, 2, i, j, k, 0) * LeftEdge(g, 2, i)
            == RadialDivergence(g.coord) * Volume(g, 2, i, j, k)
  {
    var rl := LeftEdge(g, 2, i);
    var rr := LeftEdge(g, 2, i + 1);
    var h := g.dx[0];
    NextEdge(g, 2, i);
    if g.coord == Cartesian {
      assert g.dx[1] * rr - g.dx[1] * rl == g.dx[1] * (rr - rl);
    } else {
      assert Area(g, 2, i + 1, j, k, 0) == 2.0 * Pi * rr * g.dx[1];
      assert Area(g, 2, i, j, k, 0) == 2.0 * Pi * rl * g.dx[1];
      assert Volume(g, 2, i, j, k) == Pi * (rl + rr) * h * g.dx[1];
      CylinderFluxIdentity(Pi, rl, rr, h, g.dx[1]);
    }
  }

  /** The same balance in three (Cartesian) dimensions. */
  lemma RadialFluxBalance3D(g: GeometryData, i: int, j: int, k: int)
    requires Shaped(g, 3) && SupportedCoord(3, g.coord)
    ensures Area(g, 3, i + 1, j, k, 0) * LeftEdge(g, 3, i + 1) - Area(g, 3, i, j, k, 0) * LeftEdge(g, 3, i)
            == RadialDivergence(g.coord) * Volume(g, 3, i, j, k)
  {
    var rl := LeftEdge(g, 3, i);
    var rr := LeftEdge(g, 3, i + 1);
    var c := g.dx[1] * g.dx[2];
    NextEdge(g, 3, i);
    assert Area(g, 3, i + 1, j, k, 0) == c && Area(g, 3, i, j, k, 0) == c;
    assert c * rr - c * rl == c * (rr - rl);
    assert c * g.dx[0] == g.dx[0] * g.dx[1] * g.dx[2];
  }

  /** Across the faces that are planes (every direction in Cartesian geometry,
      the axial direction in R-Z) the cell is a prism: face area times the
      spacing along the face normal is the cell volume. */
  lemma PlanarFaceTimesSpacing(g: GeometryData, dim: Dim, i: int, j: int, k: int, idir: int)
    requires Shaped(g, dim) && SupportedCoord(dim, g.coord)
    requires 2 <= dim && 0 <= idir < dim
    requires g.coord != Cartesian ==> idir == 1
    ensures Area(g, dim, i, j, k, idir) * g.dx[idir] == Volume(g, dim, i, j, k)
  {
    if g.coord != Cartesian {
      RZVolumeIsAnnulus(g, dim, i, j, k);
      RZAxialAreaIsAnnulus(g, dim, i, j, k, idir);
    } else if dim == 3 {
      if idir == 1 {
        assert g.dx[0] * g.dx[2] * g.dx[1] == g.dx[0] * g.dx[1] * g.dx[2];
      } else if idir == 0 {
        assert g.dx[1] * g.dx[2] * g.dx[0] == g.dx[0] * g.dx[1] * g.dx[2];
      }
    }
  }

  /** The product of two numbers of the same non-zero sign is positive. */
  lemma ProductPositive(a: real, b: real)
    requires (a > 0.0 && b > 0.0) || (a < 0.0 && b < 0.0)
    ensures a * b > 0.0
  {
  }

  /** The product of three positive numbers is positive. */
  lemma TripleProductPositive(a: real, b: real, c: real)
    requires a > 0.0 && b > 0.0 && c > 0.0
    ensures a * b * c > 0.0
  {
    ProductPositive(a, b);
    ProductPositive(a * b, c);
  }

  /** r^2 + r s + s^2 is positive for r < s when both lie on one side of zero. */
  lemma ShellFactorNonNegative(rl: real, rr: real)
    requires 0.0 <= rl < rr
    ensures rl * rl + rl * rr + rr * rr > 0.0
  {
  }

  lemma ShellFactorNonPositive(rl: real, rr: real)
    requires rl < rr <= 0.0
    ensures rl * rl + rl * rr + rr * rr > 0.0
  {
  }

  /** Across the origin r s is negative, but r^2 + r s + s^2 = (r + s)^2 - r s. */
  lemma ShellFactorAcrossOrigin(rl: real, rr: real)
    requires rl < 0.0 < rr
    ensures rl * rl + rl * rr + rr * rr > 0.0
  {
    var s := rl + rr;
    assert s * s >= 0.0;
    assert s * s == rl * rl + 2.0 * (rl * rr) + rr * rr;
  }

  /** The spherical-shell factor r^2 + r s + s^2 is positive for every r < s. */
  lemma ShellFactorPositive(rl: real, rr: real)
    requires rl < rr
    ensures rl * rl + rl * rr + rr * rr > 0.0
  {
    if 0.0 <= rl {
      ShellFactorNonNegative(rl, rr);
    } else if rr <= 0.0 {
      ShellFactorNonPositive(rl, rr);
    } else {
      ShellFactorAcrossOrigin(rl, rr);
    }
  }

  /** Every cell has positive volume when the spacing is positive, provided a
      cylindrical cell does not reach across the axis. Spherical cells need no
      such condition. */
  lemma VolumePositive(g: GeometryData, dim: Dim, i: int, j: int, k: int)
    requires Shaped(g, dim) && SupportedCoord(dim, g.coord) && PositiveSpacing(g, dim)
    requires g.coord == Cylindrical ==> LeftEdge(g, dim, i) >= 0.0
    ensures Volume(g, dim, i, j, k) > 0.0
  {
    assert g.dx[0] > 0.0;
    if dim == 1 {
      VolumePositive1D(g, i, j, k);
    } else if dim == 2 {
      assert g.dx[1] > 0.0;
      VolumePositive2D(g, i, j, k);
    } else {
      assert g.dx[1] > 0.0 && g.dx[2] > 0.0;
      TripleProductPositive(g.dx[0], g.dx[1], g.dx[2]);
    }
  }

  lemma VolumePositive1D(g: GeometryData, i: int, j: int, k: int)
    requires Shaped(g, 1) && SupportedCoord(1, g.coord) && g.dx[0] > 0.0
    requires g.coord == Cylindrical ==> LeftEdge(g, 1, i) >= 0.0
    ensures Volume(g, 1, i, j, k) > 0.0
  {
    var rl := LeftEdge(g, 1, i);
    var h := g.dx[0];
    var rr := rl + h;
    if g.coord == Cylindrical {
      assert Volume(g, 1, i, j, k) == Pi * h * (rr + rl);
      TripleProductPositive(Pi, h, rr + rl);
    } else if g.coord == Spherical {
      assert Volume(g, 1, i, j, k) == (4.0 / 3.0) * Pi * h * (rl * rl + rl * rr + rr * rr);
      ShellFactorPositive(rl, rr);
      TripleProductPositive(Pi, h, rl * rl + rl * rr + rr * rr);
      assert (4.0 / 3.0) * Pi * h * (rl * rl + rl * rr + rr * rr)
             == (4.0 / 3.0) * (Pi * h * (rl * rl + rl * rr + rr * rr));
    }
  }

  lemma VolumePositive2D(g: GeometryData, i: int, j: int, k: int)
    requires Shaped(g, 2) && SupportedCoord(2, g.coord) && g.dx[0] > 0.0 && g.dx[1] > 0.0
    requires g.coord == Cylindrical ==> LeftEdge(g, 2, i) >= 0.0
    ensures Volume(g, 2, i, j, k) > 0.0
  {
    var rl := LeftEdge(g, 2, i);
    var h := g.dx[0];
    if g.coord == Cartesian {
      ProductPositive(h, g.dx[1]);
    } else {
      var rr := g.problo[0] + ((i + 1) as real) * h;
      assert rr == rl + h;
      assert Volume(g, 2, i, j, k) == Pi * (rl + rr) * h * g.dx[1];
      TripleProductPositive(Pi, rl + rr, h);
      ProductPositive(Pi * (rl + rr) * h, g.dx[1]);
    }
  }

  /** With positive spacing, every face off the symmetry axis has positive area.
      A radial face needs a positive radius; the R-Z axial face only needs the
      cell not to reach across the axis, since it is taken at the cell centre. */
  lemma AreaPositiveOffAxis(g: GeometryData, dim: Dim, i: int, j: int, k: int, idir: int)
    requires Shaped(g, dim) && SupportedCoord(dim, g.coord) && PositiveSpacing(g, dim)
    requires g.coord != Cartesian ==>
               if dim == 2 && idir != 0 then LeftEdge(g, dim, i) >= 0.0 else LeftEdge(g, dim, i) > 0.0
    ensures Area(g, dim, i, j, k, idir) > 0.0
  {
    assert g.dx[0] > 0.0;
    if dim == 1 {
      AreaPositive1D(g, i, j, k, idir);
    } else if dim == 2 {
      assert g.dx[1] > 0.0;
      AreaPositive2D(g, i, j, k, idir);
    } else {
      assert g.dx[1] > 0.0 && g.dx[2] > 0.0;
      ProductPositive(g.dx[1], g.dx[2]);
      ProductPositive(g.dx[0], g.dx[2]);
      ProductPositive(g.dx[0], g.dx[1]);
    }
  }

  lemma AreaPositive1D(g: GeometryData, i: int, j: int, k: int, idir: int)
    requires Shaped(g, 1) && SupportedCoord(1, g.coord) && g.dx[0] > 0.0
    requires g.coord != Cartesian ==> LeftEdge(g, 1, i) > 0.0
    ensures Area(g, 1, i, j, k, idir) > 0.0
  {
    var r := LeftEdge(g, 1, i);
    if g.coord == Cylindrical {
      assert Area(g, 1, i, j, k, idir) == 2.0 * Pi * r;
    } else if g.coord == Spherical {
      assert Area(g, 1, i, j, k, idir) == 4.0 * Pi * r * r;
    } else {
      assert Area(g, 1, i, j, k, idir) == 1.0;
    }
  }

  lemma AreaPositive2D(g: GeometryData, i: int, j: int, k: int, idir: int)
    requires Shaped(g, 2) && SupportedCoord(2, g.coord) && g.dx[0] > 0.0 && g.dx[1] > 0.0
    requires g.coord != Cartesian ==> if idir != 0 then LeftEdge(g, 2, i) >= 0.0 else LeftEdge(g, 2, i) > 0.0
    ensures Area(g, 2, i, j, k, idir) > 0.0
  {
    var r := LeftEdge(g, 2, i);
    var h := g.dx[0];
    if g.coord == Cylindrical {
      if idir == 0 {
        assert Area(g, 2, i, j, k, idir) == 2.0 * Pi * r * g.dx[1];
        TripleProductPositive(2.0 * Pi, r, g.dx[1]);
      } else {
        var rc := g.problo[0] + ((i as real) + 0.5) * h;
        assert rc == r + 0.5 * h;
        assert Area(g, 2, i, j, k, idir) == 2.0 * Pi * rc * h;
        TripleProductPositive(2.0 * Pi, rc, h);
      }
    }
  }

  /** A radial face lying on the axis (r = 0) has zero area, so the positivity
      above does not extend to it. */
  lemma AxisFaceHasZeroArea(g: GeometryData, dim: Dim, i: int, j: int, k: int)
    requires Shaped(g, dim) && SupportedCoord(dim, g.coord) && g.coord != Cartesian
    requires LeftEdge(g, dim, i) == 0.0
    ensures Area(g, dim, i, j, k, 0) == 0.0
  {
  }

  /** The shell from r = 1 to r = 2 has volume 28 pi / 3, and the sphere at r = 2 area 16 pi. */
  lemma SphericalShellExample()
    ensures var g := GeometryData([1.0], [3.0], [1.0], [0], [1], [false], Spherical);
            && Volume(g, 1, 0, 0, 0) == 28.0 * Pi / 3.0
            && Area(g, 1, 1, 0, 0, 0) == 16.0 * Pi
  {
  }

  /** The R-Z cell from r = 1 to r = 2 of unit height has volume 3 pi. */
  lemma RZCellExample()
    ensures var g := GeometryData([1.0, 0.0], [3.0, 1.0], [1.0, 1.0], [0, 0], [1, 0], [false, false], Cylindrical);
            Volume(g, 2, 0, 0, 0) == 3.0 * Pi
  {
  }
}
