/** mom_flux_has_p: which momentum-flux components carry a pressure term. */
module MomentumFlux {
  import opened Geometry

  /** True when the flux of momentum component momDir along fluxDir includes
      pressure. In 1-D and 2-D non-Cartesian geometry the radial-radial
      component does not: pressure enters there through a geometric source term. */
  function MomFluxHasP(dim: Dim, momDir: int, fluxDir: int, coord: int): (hasP: bool)
    ensures hasP ==> momDir == fluxDir
    ensures momDir == fluxDir && coord == Cartesian ==> hasP
    ensures momDir == fluxDir && momDir != 0 ==> hasP
    ensures dim <= 2 && momDir == 0 && fluxDir == 0 && coord != Cartesian ==> !hasP
    ensures dim == 3 ==> (hasP <==> momDir == fluxDir)
  {
    if dim <= 2 then
      if momDir == 0 && fluxDir == 0 then
        coord == Cartesian
      else
        momDir == fluxDir
    else
      momDir == fluxDir
  }
}
