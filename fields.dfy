/** The per-slice field solver of the quasi-static plasma model.

    From the plasma currents and densities of the current and the previous
    slice, the beam density and the field estimates it is handed, it finds
    the seven field components on an `n` x `n` transverse grid:
      - Ez and Phi by a Dirichlet (sine transform) solve of a Poisson equation
        on the interior cells, padded with a zero border;
      - Bz by a Neumann (cosine transform) solve, re-centred to zero mean;
      - Ex, Ey, Bx, By by a mixed sine/cosine solve of a Helmholtz-like
        equation whose "trick" term feeds back the previous field estimate,
        optionally extrapolated against the previous slice (variant A).
    The spectral transforms come from `Fftpack` as opaque linear maps, so the
    solver's algebra is proved for any choice of transform weights. */
module FieldSolver {
  import opened Grids
  import opened Fftpack
  import opened Data

  // ---------------------------------------------------------------------
  // Centred differences

  /** `a[2:, 1:-1] - a[:-2, 1:-1]`: on the interior of an `n` x `n` array,
      the difference of the neighbours along the first axis. */
  function DiffAxis0(a: Grid, n: nat): (r: Grid)
    requires n >= 2 && IsShape(a, n, n)
    ensures IsShape(r, n - 2, n - 2)
    ensures forall i, j :: 0 <= i < n - 2 && 0 <= j < n - 2 ==>
      r[i][j] == a[i + 2][j + 1] - a[i][j + 1]
  {
    Sub(Window(a, 2, 1, n - 2, n - 2), Window(a, 0, 1, n - 2, n - 2))
  }

  /** `a[1:-1, 2:] - a[1:-1, :-2]`: on the interior of an `n` x `n` array,
      the difference of the neighbours along the second axis. */
  function DiffAxis1(a: Grid, n: nat): (r: Grid)
    requires n >= 2 && IsShape(a, n, n)
    ensures IsShape(r, n - 2, n - 2)
    ensures forall i, j :: 0 <= i < n - 2 && 0 <= j < n - 2 ==>
      r[i][j] == a[i + 1][j + 2] - a[i + 1][j]
  {
    Sub(Window(a, 1, 2, n - 2, n - 2), Window(a, 1, 0, n - 2, n - 2))
  }

  /** An interior difference padded back to `n` x `n` with zeros and divided
      by two grid steps. */
  function Centred(d: Grid, n: nat, h: real): (r: Grid)
    requires n >= 2 && IsShape(d, n - 2, n - 2) && h != 0.0
    ensures IsShape(r, n, n) && BorderZero(r, n, n)
    ensures forall i, j :: 0 < i < n - 1 && 0 < j < n - 1 ==> r[i][j] == d[i - 1][j - 1] / (h * 2.0)
  {
    Div(Pad(d, n - 2), h * 2.0)
  }

  /** `dx_dy(arr, grid_step_size)`: the x and y derivatives of an `n` x `n`
      array by centred differences over two grid steps. The interior is
      filled from the shifted slices, the border stays zero. */
  function DxDy(arr: Grid, n: nat, h: real): (r: (Grid, Grid))
    requires n >= 2 && IsShape(arr, n, n) && h != 0.0
    ensures IsShape(r.0, n, n) && IsShape(r.1, n, n)
    ensures BorderZero(r.0, n, n) && BorderZero(r.1, n, n)
    ensures forall i, j :: 0 < i < n - 1 && 0 < j < n - 1 ==>
      && r.0[i][j] == (arr[i + 1][j] - arr[i - 1][j]) / (h * 2.0)
      && r.1[i][j] == (arr[i][j + 1] - arr[i][j - 1]) / (h * 2.0)
  {
    (Centred(DiffAxis0(arr, n), n, h), Centred(DiffAxis1(arr, n), n, h))
  }

  // ---------------------------------------------------------------------
  // Dirichlet solves: Ez and Phi

  /** The Dirichlet solve shared by `calculate_Ez` and `calculate_Phi`: the
      sine transform of the interior right-hand side, multiplied by
      `dirichlet_matrix` (which also carries the normalisation), transformed
      again and padded with a one-cell zero border. */
  function DirichletSolve(lib: Library, matrix: Grid, rhsInner: Grid, n: nat): (r: Grid)
    requires n >= 2 && IsShape(rhsInner, n - 2, n - 2) && IsShape(matrix, n - 2, n - 2)
    ensures IsShape(r, n, n) && BorderZero(r, n, n)
  {
    var f := Mul(Dstn(lib, rhsInner, n - 2), matrix);
    Pad(Dstn(lib, f, n - 2), n - 2)
  }

  /** `rhs_inner` of `calculate_Ez`: minus the divergence of (jx, jy) on the
      interior cells, by centred differences. */
  function EzRhs(jx: Grid, jy: Grid, n: nat, h: real): (r: Grid)
    requires n >= 2 && IsShape(jx, n, n) && IsShape(jy, n, n) && h != 0.0
    ensures IsShape(r, n - 2, n - 2)
  {
    Div(Neg(Add(DiffAxis0(jx, n), DiffAxis1(jy, n))), h * 2.0)
  }

  /** `calculate_Ez`: an `n` x `n` field whose outermost rows and columns are zero. */
  function CalculateEz(lib: Library, h: real, c: ConstArrays, currents: Currents, n: nat): (r: Grid)
    requires n >= 3 && h != 0.0 && c.Fits(n) && currents.Fits(n)
    ensures IsShape(r, n, n) && BorderZero(r, n, n)
  {
    DirichletSolve(lib, c.dirichletMatrix, EzRhs(currents.jx, currents.jy, n, h), n)
  }

  /** `rhs_inner` of `calculate_Phi`: `ro - jz` on the interior cells only. */
  function PhiRhs(ro: Grid, jz: Grid, n: nat): (r: Grid)
    requires n >= 2 && IsShape(ro, n, n) && IsShape(jz, n, n)
    ensures IsShape(r, n - 2, n - 2)
    ensures forall i, j :: 0 <= i < n - 2 && 0 <= j < n - 2 ==>
      r[i][j] == ro[i + 1][j + 1] - jz[i + 1][j + 1]
  {
    Window(Sub(ro, jz), 1, 1, n - 2, n - 2)
  }

  /** `calculate_Phi`: an `n` x `n` potential whose outermost rows and columns are zero. */
  function CalculatePhi(lib: Library, c: ConstArrays, currents: Currents, n: nat): (r: Grid)
    requires n >= 3 && c.Fits(n) && currents.Fits(n)
    ensures IsShape(r, n, n) && BorderZero(r, n, n)
  {
    DirichletSolve(lib, c.dirichletMatrix, PhiRhs(currents.ro, currents.jz, n), n)
  }

  // ---------------------------------------------------------------------
  // Neumann solve: Bz

  /** `rhs` of `calculate_Bz`: minus the curl (djx/dy - djy/dx) over the
      whole grid, each difference padded back to `n` x `n` with zeros. */
  function BzRhs(jx: Grid, jy: Grid, n: nat, h: real): (r: Grid)
    requires n >= 2 && IsShape(jx, n, n) && IsShape(jy, n, n) && h != 0.0
    ensures IsShape(r, n, n)
  {
    Div(Neg(Sub(Pad(DiffAxis1(jx, n), n - 2), Pad(DiffAxis0(jy, n), n - 2))), h * 2.0)
  }

  /** The cosine transform of the right-hand side, multiplied by
      `neumann_matrix`, transformed again. */
  function NeumannSolve(lib: Library, matrix: Grid, rhs: Grid, n: nat): (r: Grid)
    requires IsShape(rhs, n, n) && IsShape(matrix, n, n)
    ensures IsShape(r, n, n)
  {
    Dctn(lib, Mul(Dctn(lib, rhs, n), matrix), n)
  }

  /** `calculate_Bz`: the Neumann solution minus its mean, so that its entries
      sum to exactly zero. No border is added. */
  function CalculateBz(lib: Library, h: real, c: ConstArrays, currents: Currents, n: nat): (r: Grid)
    requires n >= 3 && h != 0.0 && c.Fits(n) && currents.Fits(n)
    ensures IsShape(r, n, n) && Sum(r) == 0.0
  {
    var bz := NeumannSolve(lib, c.neumannMatrix, BzRhs(currents.jx, currents.jy, n, h), n);
    SumAfterMeanRemoval(bz, n);
    Shift(bz, Mean(bz, n))
  }

  // ---------------------------------------------------------------------
  // Mixed solves: Ex, Ey, Bx, By

  /** `mix2d(a)`: sine transform along the first axis, cosine transform along
      the second, then a zero row added above and below. */
  function Mix2d(lib: Library, a: Grid, n: nat): (r: Grid)
    requires IsShape(a, |a|, n)
    ensures IsShape(r, |a| + 2, n) && EdgeRowsZero(r, |a| + 2, n)
  {
    var aDst := DstAxis0(lib, a, n);
    var aDstDct := DctAxis1(lib, aDst);
    PadRows(aDstDct, n)
  }

  /** A transverse component solved in the orientation of Ey and Bx: the hybrid
      transform of the inner rows of the right-hand side, its inner rows
      multiplied by `field_mixed_matrix`, and the hybrid transform again. The
      source multiplies in place for Ey (`Ey_f *= mix_mat`) and from the left
      for Bx, By, Ex (`mix_mat * ...`); over the reals these agree. */
  function MixedSolve(lib: Library, matrix: Grid, rhs: Grid, n: nat): (r: Grid)
    requires n >= 2 && IsShape(rhs, n, n) && IsShape(matrix, n - 2, n)
    ensures IsShape(r, n, n) && EdgeRowsZero(r, n, n)
  {
    var f := InnerRows(Mix2d(lib, InnerRows(rhs), n));
    Mix2d(lib, Mul(f, matrix), n)
  }

  /** A transverse component solved in the orientation of Ex and By: the
      mixed solve of the transposed right-hand side, transposed back. */
  function TransposedSolve(lib: Library, matrix: Grid, rhs: Grid, n: nat): (r: Grid)
    requires n >= 2 && IsShape(rhs, n, n) && IsShape(matrix, n - 2, n)
    ensures IsShape(r, n, n) && EdgeColumnsZero(r, n, n)
  {
    Transpose(MixedSolve(lib, matrix, Transpose(rhs, n), n), n)
  }

  /** The four transverse components, as `calculate_Ex_Ey_Bx_By` returns them. */
  datatype Transverse = Transverse(Ex: Grid, Ey: Grid, Bx: Grid, By: Grid)
  {
    predicate Fits(n: nat) {
      IsShape(Ex, n, n) && IsShape(Ey, n, n) && IsShape(Bx, n, n) && IsShape(By, n, n)
    }
  }

  /** `(full + beam_full + prev + beam_prev) / 2`: a plasma source at the
      middle of the step, from the plasma and beam terms of both slices. */
  function MidSlice(full: Grid, beamFull: Grid, prev: Grid, beamPrev: Grid, n: nat): (r: Grid)
    requires IsShape(full, n, n) && IsShape(beamFull, n, n) && IsShape(prev, n, n) && IsShape(beamPrev, n, n)
    ensures IsShape(r, n, n)
    ensures forall i, j :: 0 <= i < n && 0 <= j < n ==>
      r[i][j] == (full[i][j] + beamFull[i][j] + prev[i][j] + beamPrev[i][j]) / 2.0
  {
    Div(Add(Add(Add(full, beamFull), prev), beamPrev), 2.0)
  }

  /** `(j_prev - j) / xi_step_size`: the backward difference along xi from
      the previous slice to the current one. */
  function XiDerivative(prev: Grid, full: Grid, xi: real, n: nat): (r: Grid)
    requires IsShape(prev, n, n) && IsShape(full, n, n) && xi != 0.0
    ensures IsShape(r, n, n)
    ensures forall i, j :: 0 <= i < n && 0 <= j < n ==> r[i][j] == (prev[i][j] - full[i][j]) / xi
  {
    Div(Sub(prev, full), xi)
  }

  /** Inputs of the transverse solve have the grid's shape. */
  predicate TransverseInputs(avg: Fields, roBeamFull: Grid, roBeamPrev: Grid,
                             full: Currents, prev: Currents, n: nat)
  {
    avg.Fits(n) && IsShape(roBeamFull, n, n) && IsShape(roBeamPrev, n, n)
    && full.Fits(n) && prev.Fits(n)
  }

  /** `-((d - (j_prev - j) / xi) - t * trick)`: the right-hand side of Ex, Ey
      and By from the derivative `d` of the mid-slice density or `jz`, the
      transverse current `j` on both slices and the field estimate `t`. */
  function MinusRhs(d: Grid, jPrev: Grid, j: Grid, xi: real, t: Grid, trick: real, n: nat): (r: Grid)
    requires IsShape(d, n, n) && IsShape(jPrev, n, n) && IsShape(j, n, n) && IsShape(t, n, n) && xi != 0.0
    ensures IsShape(r, n, n)
    ensures forall x, y :: 0 <= x < n && 0 <= y < n ==>
      r[x][y] == -(d[x][y] - (jPrev[x][y] - j[x][y]) / xi) + t[x][y] * trick
  {
    Neg(Sub(Sub(d, XiDerivative(jPrev, j, xi, n)), Scale(t, trick)))
  }

  /** `+((d - (j_prev - j) / xi) + t * trick)`: the right-hand side of Bx, the
      one transverse component whose terms enter with a plus sign. */
  function PlusRhs(d: Grid, jPrev: Grid, j: Grid, xi: real, t: Grid, trick: real, n: nat): (r: Grid)
    requires IsShape(d, n, n) && IsShape(jPrev, n, n) && IsShape(j, n, n) && IsShape(t, n, n) && xi != 0.0
    ensures IsShape(r, n, n)
    ensures forall x, y :: 0 <= x < n && 0 <= y < n ==>
      r[x][y] == (d[x][y] - (jPrev[x][y] - j[x][y]) / xi) + t[x][y] * trick
  {
    Add(Sub(d, XiDerivative(jPrev, j, xi, n)), Scale(t, trick))
  }

  /** The four right-hand sides of `calculate_Ex_Ey_Bx_By`: mid-slice density
      and longitudinal current, their centred derivatives, the backward xi
      derivatives of jx and jy, and the trick term. */
  function TransverseRhs(h: real, xi: real, trick: real, avg: Fields,
                         roBeamFull: Grid, roBeamPrev: Grid,
                         full: Currents, prev: Currents, n: nat): (r: Transverse)
    requires n >= 2 && h != 0.0 && xi != 0.0
    requires TransverseInputs(avg, roBeamFull, roBeamPrev, full, prev, n)
    ensures r.Fits(n)
  {
    var ro := MidSlice(full.ro, roBeamFull, prev.ro, roBeamPrev, n);
    var jz := MidSlice(full.jz, roBeamFull, prev.jz, roBeamPrev, n);
    var dro := DxDy(ro, n, h);
    var djz := DxDy(jz, n, h);
    Transverse(
      MinusRhs(dro.0, prev.jx, full.jx, xi, avg.Ex, trick, n),
      MinusRhs(dro.1, prev.jy, full.jy, xi, avg.Ey, trick, n),
      PlusRhs(djz.1, prev.jy, full.jy, xi, avg.Bx, trick, n),
      MinusRhs(djz.0, prev.jx, full.jx, xi, avg.By, trick, n))
  }

  /** The four right-hand sides cell by cell, with the signs of the source:
      Ex, Ey and By are minus (density or `jz` derivative minus the xi
      derivative of the current) plus the trick term, Bx is plus. Both `ro`
      and `jz` are averaged with the beam's `ro` arrays. */
  lemma TransverseRhsFormulas(h: real, xi: real, trick: real, avg: Fields,
                              roBeamFull: Grid, roBeamPrev: Grid, full: Currents, prev: Currents, n: nat)
    requires n >= 2 && h != 0.0 && xi != 0.0
    requires TransverseInputs(avg, roBeamFull, roBeamPrev, full, prev, n)
    ensures var r := TransverseRhs(h, xi, trick, avg, roBeamFull, roBeamPrev, full, prev, n);
            var ro := MidSlice(full.ro, roBeamFull, prev.ro, roBeamPrev, n);
            var jz := MidSlice(full.jz, roBeamFull, prev.jz, roBeamPrev, n);
            forall i, j :: 0 <= i < n && 0 <= j < n ==>
              && r.Ex[i][j] == -(DxDy(ro, n, h).0[i][j] - (prev.jx[i][j] - full.jx[i][j]) / xi) + avg.Ex[i][j] * trick
              && r.Ey[i][j] == -(DxDy(ro, n, h).1[i][j] - (prev.jy[i][j] - full.jy[i][j]) / xi) + avg.Ey[i][j] * trick
              && r.Bx[i][j] == (DxDy(jz, n, h).1[i][j] - (prev.jy[i][j] - full.jy[i][j]) / xi) + avg.Bx[i][j] * trick
              && r.By[i][j] == -(DxDy(jz, n, h).0[i][j] - (prev.jx[i][j] - full.jx[i][j]) / xi) + avg.By[i][j] * trick
  {
    var r := TransverseRhs(h, xi, trick, avg, roBeamFull, roBeamPrev, full, prev, n);
    var ro := MidSlice(full.ro, roBeamFull, prev.ro, roBeamPrev, n);
    var jz := MidSlice(full.jz, roBeamFull, prev.jz, roBeamPrev, n);
    RhsCells(r, DxDy(ro, n, h), DxDy(jz, n, h), avg, full, prev, xi, trick, n);
  }

  /** The cells of the four right-hand sides assembled from given derivatives. */
  lemma RhsCells(r: Transverse, dro: (Grid, Grid), djz: (Grid, Grid), avg: Fields,
                 full: Currents, prev: Currents, xi: real, trick: real, n: nat)
    requires xi != 0.0 && avg.Fits(n) && full.Fits(n) && prev.Fits(n)
    requires IsShape(dro.0, n, n) && IsShape(dro.1, n, n) && IsShape(djz.0, n, n) && IsShape(djz.1, n, n)
    requires r == Transverse(
      MinusRhs(dro.0, prev.jx, full.jx, xi, avg.Ex, trick, n),
      MinusRhs(dro.1, prev.jy, full.jy, xi, avg.Ey, trick, n),
      PlusRhs(djz.1, prev.jy, full.jy, xi, avg.Bx, trick, n),
      MinusRhs(djz.0, prev.jx, full.jx, xi, avg.By, trick, n))
    ensures forall i, j :: 0 <= i < n && 0 <= j < n ==>
      && r.Ex[i][j] == -(dro.0[i][j] - (prev.jx[i][j] - full.jx[i][j]) / xi) + avg.Ex[i][j] * trick
      && r.Ey[i][j] == -(dro.1[i][j] - (prev.jy[i][j] - full.jy[i][j]) / xi) + avg.Ey[i][j] * trick
      && r.Bx[i][j] == (djz.1[i][j] - (prev.jy[i][j] - full.jy[i][j]) / xi) + avg.Bx[i][j] * trick
      && r.By[i][j] == -(djz.0[i][j] - (prev.jx[i][j] - full.jx[i][j]) / xi) + avg.By[i][j] * trick
  {
  }

  /** `calculate_Ex_Ey_Bx_By`: Ey and Bx are solved directly and have zero
      first and last rows; Ex and By are solved on the transpose and have
      zero first and last columns. `variantA` is accepted and not used here. */
  function CalculateExEyBxBy(lib: Library, h: real, xi: real, trick: real, variantA: bool,
                             c: ConstArrays, avg: Fields, roBeamFull: Grid, roBeamPrev: Grid,
                             full: Currents, prev: Currents, n: nat): (r: Transverse)
    requires n >= 3 && h != 0.0 && xi != 0.0 && c.Fits(n)
    requires TransverseInputs(avg, roBeamFull, roBeamPrev, full, prev, n)
    ensures r.Fits(n)
    ensures EdgeColumnsZero(r.Ex, n, n) && EdgeRowsZero(r.Ey, n, n)
    ensures EdgeRowsZero(r.Bx, n, n) && EdgeColumnsZero(r.By, n, n)
  {
    var rhs := TransverseRhs(h, xi, trick, avg, roBeamFull, roBeamPrev, full, prev, n);
    var m := c.fieldMixedMatrix;
    Transverse(
      TransposedSolve(lib, m, rhs.Ex, n),
      MixedSolve(lib, m, rhs.Ey, n),
      MixedSolve(lib, m, rhs.Bx, n),
      TransposedSolve(lib, m, rhs.By, n))
  }

  /** Variant A: `2 * solved - prev`, a linear extrapolation from the previous
      slice through the solved one. */
  function Extrapolate(solved: Grid, prev: Grid, n: nat): (r: Grid)
    requires IsShape(solved, n, n) && IsShape(prev, n, n)
    ensures IsShape(r, n, n)
    ensures forall i, j :: 0 <= i < n && 0 <= j < n ==> r[i][j] == 2.0 * solved[i][j] - prev[i][j]
  {
    Sub(Scale(solved, 2.0), prev)
  }

  /** A field that did not change since the previous slice stays put. */
  lemma ExtrapolateFixed(solved: Grid, n: nat)
    requires IsShape(solved, n, n)
    ensures Extrapolate(solved, solved, n) == solved
  {
    Ext(Extrapolate(solved, solved, n), solved);
  }

  // ---------------------------------------------------------------------
  // The right-hand sides against `dx_dy`

  /** The interior of a centred difference is the difference divided by two steps. */
  lemma WindowCentred(d: Grid, n: nat, h: real)
    requires n >= 2 && IsShape(d, n - 2, n - 2) && h != 0.0
    ensures Window(Centred(d, n, h), 1, 1, n - 2, n - 2) == Div(d, h * 2.0)
  {
    Ext(Window(Centred(d, n, h), 1, 1, n - 2, n - 2), Div(d, h * 2.0));
  }

  /** The inline stencil of `calculate_Ez` is `dx_dy`'s: its right-hand side
      is minus the sum of `dx_dy(jx).dx` and `dx_dy(jy).dy` on the interior
      cells of the full grid. */
  lemma EzRhsIsDivergence(jx: Grid, jy: Grid, n: nat, h: real)
    requires n >= 2 && IsShape(jx, n, n) && IsShape(jy, n, n) && h != 0.0
    ensures EzRhs(jx, jy, n, h)
         == Neg(Add(Window(DxDy(jx, n, h).0, 1, 1, n - 2, n - 2), Window(DxDy(jy, n, h).1, 1, 1, n - 2, n - 2)))
  {
    var da, db := DiffAxis0(jx, n), DiffAxis1(jy, n);
    var k := h * 2.0;
    calc {
      EzRhs(jx, jy, n, h);
      Div(Neg(Add(da, db)), k);
      { DivNegAdd(da, db, k); }
      Neg(Add(Div(da, k), Div(db, k)));
      { WindowCentred(da, n, h); WindowCentred(db, n, h); }
      Neg(Add(Window(Centred(da, n, h), 1, 1, n - 2, n - 2), Window(Centred(db, n, h), 1, 1, n - 2, n - 2)));
      { assert DxDy(jx, n, h).0 == Centred(da, n, h) && DxDy(jy, n, h).1 == Centred(db, n, h); }
      Neg(Add(Window(DxDy(jx, n, h).0, 1, 1, n - 2, n - 2), Window(DxDy(jy, n, h).1, 1, 1, n - 2, n - 2)));
    }
  }

  /** The right-hand side of `calculate_Bz` is minus `dx_dy(jx).dy` plus
      `dx_dy(jy).dx` over the whole grid; in particular its border is zero. */
  lemma BzRhsIsCurl(jx: Grid, jy: Grid, n: nat, h: real)
    requires n >= 2 && IsShape(jx, n, n) && IsShape(jy, n, n) && h != 0.0
    ensures BzRhs(jx, jy, n, h) == Neg(Sub(DxDy(jx, n, h).1, DxDy(jy, n, h).0))
    ensures BorderZero(BzRhs(jx, jy, n, h), n, n)
  {
    var da, db := DiffAxis1(jx, n), DiffAxis0(jy, n);
    var dy, dx := DxDy(jx, n, h).1, DxDy(jy, n, h).0;
    assert dy == Centred(da, n, h) && dx == Centred(db, n, h);
    DivNegSub(Pad(da, n - 2), Pad(db, n - 2), h * 2.0);
    BorderZeroOps(dy, dx, n, n, 0.0);
    BorderZeroOps(Sub(dy, dx), dx, n, n, 0.0);
  }

  // ---------------------------------------------------------------------
  // Linearity of the three solves

  lemma DirichletSolveLinear(lib: Library, matrix: Grid, a: Grid, b: Grid, n: nat, c: real)
    requires n >= 2 && IsShape(matrix, n - 2, n - 2)
    requires IsShape(a, n - 2, n - 2) && IsShape(b, n - 2, n - 2)
    ensures DirichletSolve(lib, matrix, Scale(a, c), n) == Scale(DirichletSolve(lib, matrix, a, n), c)
    ensures DirichletSolve(lib, matrix, Add(a, b), n)
         == Add(DirichletSolve(lib, matrix, a, n), DirichletSolve(lib, matrix, b, n))
  {
    var fa, fb := Dstn(lib, a, n - 2), Dstn(lib, b, n - 2);
    DstnDctnScale(lib, a, n - 2, c);
    MulScale(fa, matrix, c);
    var ga := Mul(fa, matrix);
    DstnDctnScale(lib, ga, n - 2, c);
    PadScale(Dstn(lib, ga, n - 2), n - 2, c);

    var gb := Mul(fb, matrix);
    DstnDctnAdd(lib, a, b, n - 2);
    MulAdd(fa, fb, matrix);
    DstnDctnAdd(lib, ga, gb, n - 2);
    PadAdd(Dstn(lib, ga, n - 2), Dstn(lib, gb, n - 2), n - 2);
  }

  lemma NeumannSolveLinear(lib: Library, matrix: Grid, a: Grid, b: Grid, n: nat, c: real)
    requires IsShape(matrix, n, n) && IsShape(a, n, n) && IsShape(b, n, n)
    ensures NeumannSolve(lib, matrix, Scale(a, c), n) == Scale(NeumannSolve(lib, matrix, a, n), c)
    ensures NeumannSolve(lib, matrix, Add(a, b), n)
         == Add(NeumannSolve(lib, matrix, a, n), NeumannSolve(lib, matrix, b, n))
  {
    var fa, fb := Dctn(lib, a, n), Dctn(lib, b, n);
    DstnDctnScale(lib, a, n, c);
    MulScale(fa, matrix, c);
    DstnDctnScale(lib, Mul(fa, matrix), n, c);

    DstnDctnAdd(lib, a, b, n);
    MulAdd(fa, fb, matrix);
    DstnDctnAdd(lib, Mul(fa, matrix), Mul(fb, matrix), n);
  }

  lemma Mix2dLinear(lib: Library, a: Grid, b: Grid, n: nat, c: real)
    requires IsShape(a, |a|, n) && IsShape(b, |a|, n)
    ensures Mix2d(lib, Scale(a, c), n) == Scale(Mix2d(lib, a, n), c)
    ensures Mix2d(lib, Add(a, b), n) == Add(Mix2d(lib, a, n), Mix2d(lib, b, n))
  {
    var da, db := DstAxis0(lib, a, n), DstAxis0(lib, b, n);
    AlongColumnsScale(lib.dst1, a, n, c);
    AlongRowsScale(lib.dct1, da, c);
    PadRowsScale(DctAxis1(lib, da), n, c);

    AlongColumnsAdd(lib.dst1, a, b, n);
    AlongRowsAdd(lib.dct1, da, db);
    PadRowsAdd(DctAxis1(lib, da), DctAxis1(lib, db), n);
  }

  lemma MixedSolveLinear(lib: Library, matrix: Grid, a: Grid, b: Grid, n: nat, c: real)
    requires n >= 2 && IsShape(matrix, n - 2, n) && IsShape(a, n, n) && IsShape(b, n, n)
    ensures MixedSolve(lib, matrix, Scale(a, c), n) == Scale(MixedSolve(lib, matrix, a, n), c)
    ensures MixedSolve(lib, matrix, Add(a, b), n)
         == Add(MixedSolve(lib, matrix, a, n), MixedSolve(lib, matrix, b, n))
  {
    var ia, ib := InnerRows(a), InnerRows(b);
    InnerRowsScale(a, c);
    Mix2dLinear(lib, ia, ib, n, c);
    var ma, mb := Mix2d(lib, ia, n), Mix2d(lib, ib, n);
    InnerRowsScale(ma, c);
    var fa, fb := InnerRows(ma), InnerRows(mb);
    MulScale(fa, matrix, c);
    Mix2dLinear(lib, Mul(fa, matrix), Mul(fb, matrix), n, c);

    InnerRowsAdd(a, b);
    InnerRowsAdd(ma, mb);
    MulAdd(fa, fb, matrix);
  }

  lemma TransposedSolveLinear(lib: Library, matrix: Grid, a: Grid, b: Grid, n: nat, c: real)
    requires n >= 2 && IsShape(matrix, n - 2, n) && IsShape(a, n, n) && IsShape(b, n, n)
    ensures TransposedSolve(lib, matrix, Scale(a, c), n) == Scale(TransposedSolve(lib, matrix, a, n), c)
    ensures TransposedSolve(lib, matrix, Add(a, b), n)
         == Add(TransposedSolve(lib, matrix, a, n), TransposedSolve(lib, matrix, b, n))
  {
    var ta, tb := Transpose(a, n), Transpose(b, n);
    TransposeScale(a, n, c);
    TransposeAdd(a, b, n);
    MixedSolveLinear(lib, matrix, ta, tb, n, c);
    var sa, sb := MixedSolve(lib, matrix, ta, n), MixedSolve(lib, matrix, tb, n);
    TransposeScale(sa, n, c);
    TransposeAdd(sa, sb, n);
  }

  // ---------------------------------------------------------------------
  // Zero in, zero out

  lemma DiffZero(arr: Grid, n: nat)
    requires n >= 2 && IsShape(arr, n, n) && AllZero(arr)
    ensures AllZero(DiffAxis0(arr, n)) && AllZero(DiffAxis1(arr, n))
  {
  }

  lemma CentredZero(d: Grid, n: nat, h: real)
    requires n >= 2 && IsShape(d, n - 2, n - 2) && h != 0.0 && AllZero(d)
    ensures AllZero(Centred(d, n, h))
  {
    AllZeroPad(d, n - 2);
    AllZeroDiv(Pad(d, n - 2), h * 2.0);
  }

  /** `dx_dy` of a zero array is a pair of zero arrays. */
  lemma DxDyZero(arr: Grid, n: nat, h: real)
    requires n >= 2 && IsShape(arr, n, n) && h != 0.0 && AllZero(arr)
    ensures AllZero(DxDy(arr, n, h).0) && AllZero(DxDy(arr, n, h).1)
  {
    DiffZero(arr, n);
    CentredZero(DiffAxis0(arr, n), n, h);
    CentredZero(DiffAxis1(arr, n), n, h);
  }

  lemma EzRhsZero(jx: Grid, jy: Grid, n: nat, h: real)
    requires n >= 2 && IsShape(jx, n, n) && IsShape(jy, n, n) && h != 0.0 && AllZero(jx) && AllZero(jy)
    ensures EzRhs(jx, jy, n, h) == Zeros(n - 2, n - 2)
  {
    DiffZero(jx, n);
    DiffZero(jy, n);
    var d0, d1 := DiffAxis0(jx, n), DiffAxis1(jy, n);
    AllZeroOps(d0, d1, 0.0);
    AllZeroOps(Add(d0, d1), Add(d0, d1), 0.0);
    AllZeroDiv(Neg(Add(d0, d1)), h * 2.0);
    AllZeroIsZeros(EzRhs(jx, jy, n, h), n - 2, n - 2);
  }

  lemma PhiRhsZero(ro: Grid, jz: Grid, n: nat)
    requires n >= 2 && IsShape(ro, n, n) && IsShape(jz, n, n) && AllZero(ro) && AllZero(jz)
    ensures PhiRhs(ro, jz, n) == Zeros(n - 2, n - 2)
  {
    AllZeroOps(ro, jz, 0.0);
    AllZeroWindow(Sub(ro, jz), 1, 1, n - 2, n - 2);
    AllZeroIsZeros(PhiRhs(ro, jz, n), n - 2, n - 2);
  }

  lemma BzRhsZero(jx: Grid, jy: Grid, n: nat, h: real)
    requires n >= 2 && IsShape(jx, n, n) && IsShape(jy, n, n) && h != 0.0 && AllZero(jx) && AllZero(jy)
    ensures BzRhs(jx, jy, n, h) == Zeros(n, n)
  {
    BzRhsIsCurl(jx, jy, n, h);
    DxDyZero(jx, n, h);
    DxDyZero(jy, n, h);
    var dy, dx := DxDy(jx, n, h).1, DxDy(jy, n, h).0;
    AllZeroOps(dy, dx, 0.0);
    AllZeroOps(Sub(dy, dx), Sub(dy, dx), 0.0);
    AllZeroIsZeros(Neg(Sub(dy, dx)), n, n);
  }

  /** Removing the mean of the zero array leaves it zero. */
  lemma MeanRemovalOfZero(n: nat)
    requires n > 0
    ensures Shift(Zeros(n, n), Mean(Zeros(n, n), n)) == Zeros(n, n)
  {
    var z := Zeros(n, n);
    SumZero(z);
    AllZeroOps(z, z, 0.0);
    AllZeroIsZeros(Shift(z, 0.0), n, n);
  }

  /** Each of the four solves sends the zero array to the zero array. */
  lemma SolvesOfZero(lib: Library, c: ConstArrays, n: nat)
    requires n >= 3 && c.Fits(n)
    ensures DirichletSolve(lib, c.dirichletMatrix, Zeros(n - 2, n - 2), n) == Zeros(n, n)
    ensures NeumannSolve(lib, c.neumannMatrix, Zeros(n, n), n) == Zeros(n, n)
    ensures MixedSolve(lib, c.fieldMixedMatrix, Zeros(n, n), n) == Zeros(n, n)
    ensures TransposedSolve(lib, c.fieldMixedMatrix, Zeros(n, n), n) == Zeros(n, n)
  {
    var zi, z := Zeros(n - 2, n - 2), Zeros(n, n);
    ScaleZeros(n - 2, n - 2, 0.0);
    ScaleZeros(n, n, 0.0);
    DirichletSolveLinear(lib, c.dirichletMatrix, zi, zi, n, 0.0);
    ScaleByZero(DirichletSolve(lib, c.dirichletMatrix, zi, n), n, n);
    NeumannSolveLinear(lib, c.neumannMatrix, z, z, n, 0.0);
    ScaleByZero(NeumannSolve(lib, c.neumannMatrix, z, n), n, n);
    MixedSolveLinear(lib, c.fieldMixedMatrix, z, z, n, 0.0);
    ScaleByZero(MixedSolve(lib, c.fieldMixedMatrix, z, n), n, n);
    TransposedSolveLinear(lib, c.fieldMixedMatrix, z, z, n, 0.0);
    ScaleByZero(TransposedSolve(lib, c.fieldMixedMatrix, z, n), n, n);
  }

  lemma EzOfZero(lib: Library, h: real, c: ConstArrays, currents: Currents, n: nat)
    requires n >= 3 && h != 0.0 && c.Fits(n) && currents.Fits(n) && currents.IsZero()
    ensures CalculateEz(lib, h, c, currents, n) == Zeros(n, n)
  {
    SolvesOfZero(lib, c, n);
    EzRhsZero(currents.jx, currents.jy, n, h);
  }

  lemma PhiOfZero(lib: Library, c: ConstArrays, currents: Currents, n: nat)
    requires n >= 3 && c.Fits(n) && currents.Fits(n) && currents.IsZero()
    ensures CalculatePhi(lib, c, currents, n) == Zeros(n, n)
  {
    SolvesOfZero(lib, c, n);
    PhiRhsZero(currents.ro, currents.jz, n);
  }

  lemma BzOfZero(lib: Library, h: real, c: ConstArrays, currents: Currents, n: nat)
    requires n >= 3 && h != 0.0 && c.Fits(n) && currents.Fits(n) && currents.IsZero()
    ensures CalculateBz(lib, h, c, currents, n) == Zeros(n, n)
  {
    SolvesOfZero(lib, c, n);
    BzRhsZero(currents.jx, currents.jy, n, h);
    MeanRemovalOfZero(n);
  }

  /** Without plasma currents and density, Ez, Phi and Bz vanish. */
  lemma LongitudinalOfZero(lib: Library, h: real, c: ConstArrays, currents: Currents, n: nat)
    requires n >= 3 && h != 0.0 && c.Fits(n) && currents.Fits(n) && currents.IsZero()
    ensures CalculateEz(lib, h, c, currents, n) == Zeros(n, n)
    ensures CalculatePhi(lib, c, currents, n) == Zeros(n, n)
    ensures CalculateBz(lib, h, c, currents, n) == Zeros(n, n)
  {
    EzOfZero(lib, h, c, currents, n);
    PhiOfZero(lib, c, currents, n);
    BzOfZero(lib, h, c, currents, n);
  }

  // ---------------------------------------------------------------------
  // The trick term

  /** The trick term enters every transverse right-hand side with a plus
      sign: each is its source part (the right-hand side for a zero field
      estimate) plus `trick` times the matching component of `avg`. */
  lemma TransverseRhsSplit(h: real, xi: real, trick: real, avg: Fields,
                           roBeamFull: Grid, roBeamPrev: Grid, full: Currents, prev: Currents, n: nat)
    requires n >= 2 && h != 0.0 && xi != 0.0
    requires TransverseInputs(avg, roBeamFull, roBeamPrev, full, prev, n)
    ensures var r := TransverseRhs(h, xi, trick, avg, roBeamFull, roBeamPrev, full, prev, n);
            var s := TransverseRhs(h, xi, trick, ZeroFields(n), roBeamFull, roBeamPrev, full, prev, n);
            && r.Ex == Add(s.Ex, Scale(avg.Ex, trick))
            && r.Ey == Add(s.Ey, Scale(avg.Ey, trick))
            && r.Bx == Add(s.Bx, Scale(avg.Bx, trick))
            && r.By == Add(s.By, Scale(avg.By, trick))
  {
    var ro := MidSlice(full.ro, roBeamFull, prev.ro, roBeamPrev, n);
    var jz := MidSlice(full.jz, roBeamFull, prev.jz, roBeamPrev, n);
    var dro, djz := DxDy(ro, n, h), DxDy(jz, n, h);
    var djx, djy := XiDerivative(prev.jx, full.jx, xi, n), XiDerivative(prev.jy, full.jy, xi, n);
    var z := Zeros(n, n);
    assert ZeroFields(n) == Fields(z, z, z, z, z, z, z);
    ScaleZeros(n, n, trick);

    var x, y, w, v := Sub(dro.0, djx), Sub(dro.1, djy), Sub(djz.1, djy), Sub(djz.0, djx);
    NegSubIsAdd(x, Scale(avg.Ex, trick));
    NegSubIsAdd(x, z);
    AddZeros(Neg(x), n, n);
    NegSubIsAdd(y, Scale(avg.Ey, trick));
    NegSubIsAdd(y, z);
    AddZeros(Neg(y), n, n);
    AddZeros(w, n, n);
    NegSubIsAdd(v, Scale(avg.By, trick));
    NegSubIsAdd(v, z);
    AddZeros(Neg(v), n, n);
  }

  /** With `trick = 0` the right-hand sides do not depend on the field estimate. */
  lemma TransverseRhsTrickOff(h: real, xi: real, avg: Fields,
                              roBeamFull: Grid, roBeamPrev: Grid, full: Currents, prev: Currents, n: nat)
    requires n >= 2 && h != 0.0 && xi != 0.0
    requires TransverseInputs(avg, roBeamFull, roBeamPrev, full, prev, n)
    ensures TransverseRhs(h, xi, 0.0, avg, roBeamFull, roBeamPrev, full, prev, n)
         == TransverseRhs(h, xi, 0.0, ZeroFields(n), roBeamFull, roBeamPrev, full, prev, n)
  {
    TransverseRhsSplit(h, xi, 0.0, avg, roBeamFull, roBeamPrev, full, prev, n);
    var s := TransverseRhs(h, xi, 0.0, ZeroFields(n), roBeamFull, roBeamPrev, full, prev, n);
    ScaleByZero(avg.Ex, n, n);
    ScaleByZero(avg.Ey, n, n);
    ScaleByZero(avg.Bx, n, n);
    ScaleByZero(avg.By, n, n);
    AddZeros(s.Ex, n, n);
    AddZeros(s.Ey, n, n);
    AddZeros(s.Bx, n, n);
    AddZeros(s.By, n, n);
  }

  /** Plasma and beam terms of both slices are all zero. */
  predicate NoSources(roBeamFull: Grid, roBeamPrev: Grid, full: Currents, prev: Currents) {
    AllZero(roBeamFull) && AllZero(roBeamPrev) && full.IsZero() && prev.IsZero()
  }

  /** Without sources, the four source parts are zero. */
  lemma SourcePartOfZero(h: real, xi: real, trick: real,
                         roBeamFull: Grid, roBeamPrev: Grid, full: Currents, prev: Currents, n: nat)
    requires n >= 2 && h != 0.0 && xi != 0.0
    requires TransverseInputs(ZeroFields(n), roBeamFull, roBeamPrev, full, prev, n)
    requires NoSources(roBeamFull, roBeamPrev, full, prev)
    ensures TransverseRhs(h, xi, trick, ZeroFields(n), roBeamFull, roBeamPrev, full, prev, n)
         == Transverse(Zeros(n, n), Zeros(n, n), Zeros(n, n), Zeros(n, n))
  {
    var ro := MidSlice(full.ro, roBeamFull, prev.ro, roBeamPrev, n);
    var jz := MidSlice(full.jz, roBeamFull, prev.jz, roBeamPrev, n);
    var djx, djy := XiDerivative(prev.jx, full.jx, xi, n), XiDerivative(prev.jy, full.jy, xi, n);
    assert AllZero(ro) && AllZero(jz) && AllZero(djx) && AllZero(djy);
    DxDyZero(ro, n, h);
    DxDyZero(jz, n, h);
    var z := Zeros(n, n);
    ScaleZeros(n, n, trick);
    NegSubZero(DxDy(ro, n, h).0, djx, n);
    NegSubZero(DxDy(ro, n, h).1, djy, n);
    AllZeroOps(DxDy(jz, n, h).1, djy, 0.0);
    AllZeroOps(Sub(DxDy(jz, n, h).1, djy), z, 0.0);
    AllZeroIsZeros(Add(Sub(DxDy(jz, n, h).1, djy), z), n, n);
    NegSubZero(DxDy(jz, n, h).0, djx, n);
  }

  /** `-((a - b) - 0)` of zero arrays is the zero array. */
  lemma NegSubZero(a: Grid, b: Grid, n: nat)
    requires IsShape(a, n, n) && IsShape(b, n, n) && AllZero(a) && AllZero(b)
    ensures Neg(Sub(Sub(a, b), Zeros(n, n))) == Zeros(n, n)
  {
    AllZeroOps(a, b, 0.0);
    AllZeroOps(Sub(a, b), Zeros(n, n), 0.0);
    var d := Sub(Sub(a, b), Zeros(n, n));
    AllZeroOps(d, d, 0.0);
    AllZeroIsZeros(Neg(d), n, n);
  }

  /** Superposition for the transverse fields: each solved component is the
      solution for a zero field estimate plus `trick` times the solve of the
      matching component of `avg`. */
  lemma TransverseSuperposition(lib: Library, h: real, xi: real, trick: real, variantA: bool,
                                c: ConstArrays, avg: Fields, roBeamFull: Grid, roBeamPrev: Grid,
                                full: Currents, prev: Currents, n: nat)
    requires n >= 3 && h != 0.0 && xi != 0.0 && c.Fits(n)
    requires TransverseInputs(avg, roBeamFull, roBeamPrev, full, prev, n)
    ensures var r := CalculateExEyBxBy(lib, h, xi, trick, variantA, c, avg, roBeamFull, roBeamPrev, full, prev, n);
            var s := CalculateExEyBxBy(lib, h, xi, trick, variantA, c, ZeroFields(n), roBeamFull, roBeamPrev, full, prev, n);
            var m := c.fieldMixedMatrix;
            && r.Ex == Add(s.Ex, Scale(TransposedSolve(lib, m, avg.Ex, n), trick))
            && r.Ey == Add(s.Ey, Scale(MixedSolve(lib, m, avg.Ey, n), trick))
            && r.Bx == Add(s.Bx, Scale(MixedSolve(lib, m, avg.Bx, n), trick))
            && r.By == Add(s.By, Scale(TransposedSolve(lib, m, avg.By, n), trick))
  {
    TransverseRhsSplit(h, xi, trick, avg, roBeamFull, roBeamPrev, full, prev, n);
    var s := TransverseRhs(h, xi, trick, ZeroFields(n), roBeamFull, roBeamPrev, full, prev, n);
    var m := c.fieldMixedMatrix;
    TransposedSolveLinear(lib, m, avg.Ex, avg.Ex, n, trick);
    TransposedSolveLinear(lib, m, s.Ex, Scale(avg.Ex, trick), n, trick);
    MixedSolveLinear(lib, m, avg.Ey, avg.Ey, n, trick);
    MixedSolveLinear(lib, m, s.Ey, Scale(avg.Ey, trick), n, trick);
    MixedSolveLinear(lib, m, avg.Bx, avg.Bx, n, trick);
    MixedSolveLinear(lib, m, s.Bx, Scale(avg.Bx, trick), n, trick);
    TransposedSolveLinear(lib, m, avg.By, avg.By, n, trick);
    TransposedSolveLinear(lib, m, s.By, Scale(avg.By, trick), n, trick);
  }

  /** Without sources, the transverse fields are `trick` times the solves of
      the field estimate; in particular they vanish when it is zero. */
  lemma TransverseWithoutSources(lib: Library, h: real, xi: real, trick: real, variantA: bool,
                                 c: ConstArrays, avg: Fields, roBeamFull: Grid, roBeamPrev: Grid,
                                 full: Currents, prev: Currents, n: nat)
    requires n >= 3 && h != 0.0 && xi != 0.0 && c.Fits(n)
    requires TransverseInputs(avg, roBeamFull, roBeamPrev, full, prev, n)
    requires NoSources(roBeamFull, roBeamPrev, full, prev)
    ensures var r := CalculateExEyBxBy(lib, h, xi, trick, variantA, c, avg, roBeamFull, roBeamPrev, full, prev, n);
            var m := c.fieldMixedMatrix;
            && r.Ex == Scale(TransposedSolve(lib, m, avg.Ex, n), trick)
            && r.Ey == Scale(MixedSolve(lib, m, avg.Ey, n), trick)
            && r.Bx == Scale(MixedSolve(lib, m, avg.Bx, n), trick)
            && r.By == Scale(TransposedSolve(lib, m, avg.By, n), trick)
  {
    TransverseSuperposition(lib, h, xi, trick, variantA, c, avg, roBeamFull, roBeamPrev, full, prev, n);
    SourcePartOfZero(h, xi, trick, roBeamFull, roBeamPrev, full, prev, n);
    SolvesOfZero(lib, c, n);
    var m := c.fieldMixedMatrix;
    ZerosAdd(Scale(TransposedSolve(lib, m, avg.Ex, n), trick), n, n);
    ZerosAdd(Scale(MixedSolve(lib, m, avg.Ey, n), trick), n, n);
    ZerosAdd(Scale(MixedSolve(lib, m, avg.Bx, n), trick), n, n);
    ZerosAdd(Scale(TransposedSolve(lib, m, avg.By, n), trick), n, n);
  }

  /** Zero sources and a zero field estimate give zero transverse fields. */
  lemma TransverseOfZero(lib: Library, h: real, xi: real, trick: real, variantA: bool,
                         c: ConstArrays, avg: Fields, roBeamFull: Grid, roBeamPrev: Grid,
                         full: Currents, prev: Currents, n: nat)
    requires n >= 3 && h != 0.0 && xi != 0.0 && c.Fits(n)
    requires TransverseInputs(avg, roBeamFull, roBeamPrev, full, prev, n)
    requires NoSources(roBeamFull, roBeamPrev, full, prev) && avg.IsZero()
    ensures CalculateExEyBxBy(lib, h, xi, trick, variantA, c, avg, roBeamFull, roBeamPrev, full, prev, n)
         == Transverse(Zeros(n, n), Zeros(n, n), Zeros(n, n), Zeros(n, n))
  {
    TransverseWithoutSources(lib, h, xi, trick, variantA, c, avg, roBeamFull, roBeamPrev, full, prev, n);
    var z, m := Zeros(n, n), c.fieldMixedMatrix;
    AllZeroIsZeros(avg.Ex, n, n);
    AllZeroIsZeros(avg.Ey, n, n);
    AllZeroIsZeros(avg.Bx, n, n);
    AllZeroIsZeros(avg.By, n, n);
    SolvesOfZero(lib, c, n);
    ScaleZeros(n, n, trick);
  }

  // ---------------------------------------------------------------------
  // Variant A

  /** Extrapolation keeps zero edge rows and zero edge columns. */
  lemma ExtrapolateEdges(solved: Grid, prev: Grid, n: nat)
    requires n > 0 && IsShape(solved, n, n) && IsShape(prev, n, n)
    ensures EdgeRowsZero(solved, n, n) && EdgeRowsZero(prev, n, n) ==> EdgeRowsZero(Extrapolate(solved, prev, n), n, n)
    ensures EdgeColumnsZero(solved, n, n) && EdgeColumnsZero(prev, n, n) ==> EdgeColumnsZero(Extrapolate(solved, prev, n), n, n)
  {
  }

  // ---------------------------------------------------------------------
  // FieldComputer

  /** `FieldComputer`: the solver's configuration, read once at construction
      (`window-width-step-size`, `xi-step`, `field-solver-subtraction-trick`,
      `field-solver-variant-A`), and the per-slice field computation. */
  class FieldComputer {
    const gridStepSize: real
    const xiStepSize: real
    const trick: real
    const variantA: bool

    constructor(gridStepSize: real, xiStepSize: real, trick: real, variantA: bool)
      ensures this.gridStepSize == gridStepSize && this.xiStepSize == xiStepSize
      ensures this.trick == trick && this.variantA == variantA
    {
      this.gridStepSize := gridStepSize;
      this.xiStepSize := xiStepSize;
      this.trick := trick;
      this.variantA := variantA;
    }

    /** The grid and slice steps divide the differences, so neither is zero. */
    predicate StepsNonZero() {
      gridStepSize != 0.0 && xiStepSize != 0.0
    }

    /** The arrays handed to `compute_fields` share the grid size `|fields.Ex|`, at least 3. */
    static predicate Inputs(c: ConstArrays, fields: Fields, fldsPrev: Fields, roBeamFull: Grid, roBeamPrev: Grid,
                            currentsPrev: Currents, currentsFull: Currents)
    {
      && |fields.Ex| >= 3 && c.Fits(|fields.Ex|) && fldsPrev.Fits(|fields.Ex|)
      && TransverseInputs(fields, roBeamFull, roBeamPrev, currentsFull, currentsPrev, |fields.Ex|)
    }

    /** The field state `compute_fields` builds: the transverse solve, extrapolated
        against the previous slice under variant A, and the longitudinal
        components from the current slice's currents alone. */
    function NewFields(lib: Library, c: ConstArrays, fields: Fields, fldsPrev: Fields, roBeamFull: Grid,
                       roBeamPrev: Grid, currentsPrev: Currents, currentsFull: Currents): (r: Fields)
      requires StepsNonZero() && Inputs(c, fields, fldsPrev, roBeamFull, roBeamPrev, currentsPrev, currentsFull)
      ensures r.Fits(|fields.Ex|)
      ensures var n := |fields.Ex|;
              && BorderZero(r.Ez, n, n) && BorderZero(r.Phi, n, n) && Sum(r.Bz) == 0.0
    {
      var n := |fields.Ex|;
      var t := CalculateExEyBxBy(lib, gridStepSize, xiStepSize, trick, variantA, c, fields,
                                 roBeamFull, roBeamPrev, currentsFull, currentsPrev, n);
      var solved := ZeroFields(n).(Ex := t.Ex, Ey := t.Ey, Bx := t.Bx, By := t.By);
      var transverse :=
        if variantA then
          solved.(Ex := Extrapolate(solved.Ex, fldsPrev.Ex, n), Ey := Extrapolate(solved.Ey, fldsPrev.Ey, n),
                  Bx := Extrapolate(solved.Bx, fldsPrev.Bx, n), By := Extrapolate(solved.By, fldsPrev.By, n))
        else solved;
      transverse.(Ez := CalculateEz(lib, gridStepSize, c, currentsFull, n),
                  Bz := CalculateBz(lib, gridStepSize, c, currentsFull, n),
                  Phi := CalculatePhi(lib, c, currentsFull, n))
    }

    /** `compute_fields`: builds the new field state of the slice component
        by component and returns it with its average against the previous
        slice's. `fields` is the current field estimate fed to the trick term. */
    method ComputeFields(lib: Library, fields: Fields, fldsPrev: Fields, c: ConstArrays,
                         roBeamFull: Grid, roBeamPrev: Grid, currentsPrev: Currents, currentsFull: Currents)
      returns (newFlds: Fields, averaged: Fields)
      requires StepsNonZero() && Inputs(c, fields, fldsPrev, roBeamFull, roBeamPrev, currentsPrev, currentsFull)
      ensures newFlds == NewFields(lib, c, fields, fldsPrev, roBeamFull, roBeamPrev, currentsPrev, currentsFull)
      ensures averaged == newFlds.Average(fldsPrev, |fields.Ex|)
    {
      var n := |fields.Ex|;
      newFlds := ZeroFields(n);

      var t := CalculateExEyBxBy(lib, gridStepSize, xiStepSize, trick, variantA, c, fields,
                                 roBeamFull, roBeamPrev, currentsFull, currentsPrev, n);
      newFlds := newFlds.(Ex := t.Ex, Ey := t.Ey, Bx := t.Bx, By := t.By);

      if variantA {
        newFlds := newFlds.(
          Ex := Extrapolate(newFlds.Ex, fldsPrev.Ex, n),
          Ey := Extrapolate(newFlds.Ey, fldsPrev.Ey, n),
          Bx := Extrapolate(newFlds.Bx, fldsPrev.Bx, n),
          By := Extrapolate(newFlds.By, fldsPrev.By, n));
      }

      newFlds := newFlds.(Ez := CalculateEz(lib, gridStepSize, c, currentsFull, n));
      newFlds := newFlds.(Bz := CalculateBz(lib, gridStepSize, c, currentsFull, n));
      newFlds := newFlds.(Phi := CalculatePhi(lib, c, currentsFull, n));
      assert newFlds == NewFields(lib, c, fields, fldsPrev, roBeamFull, roBeamPrev, currentsPrev, currentsFull);

      averaged := newFlds.Average(fldsPrev, n);
    }

    /** Under variant A each transverse component is `2 * solved - prev`, and
        otherwise the solver's output unchanged; Ez, Bz and Phi are the
        longitudinal solves of the current slice, never extrapolated. */
    lemma NewFieldsComponents(lib: Library, c: ConstArrays, fields: Fields, fldsPrev: Fields, roBeamFull: Grid,
                              roBeamPrev: Grid, currentsPrev: Currents, currentsFull: Currents)
      requires StepsNonZero() && Inputs(c, fields, fldsPrev, roBeamFull, roBeamPrev, currentsPrev, currentsFull)
      ensures var r := NewFields(lib, c, fields, fldsPrev, roBeamFull, roBeamPrev, currentsPrev, currentsFull);
              var n := |fields.Ex|;
              var t := CalculateExEyBxBy(lib, gridStepSize, xiStepSize, trick, variantA, c, fields,
                                         roBeamFull, roBeamPrev, currentsFull, currentsPrev, n);
              && (variantA ==> forall i, j :: 0 <= i < n && 0 <= j < n ==>
                    && r.Ex[i][j] == 2.0 * t.Ex[i][j] - fldsPrev.Ex[i][j]
                    && r.Ey[i][j] == 2.0 * t.Ey[i][j] - fldsPrev.Ey[i][j]
                    && r.Bx[i][j] == 2.0 * t.Bx[i][j] - fldsPrev.Bx[i][j]
                    && r.By[i][j] == 2.0 * t.By[i][j] - fldsPrev.By[i][j])
              && (!variantA ==> r.Ex == t.Ex && r.Ey == t.Ey && r.Bx == t.Bx && r.By == t.By)
              && r.Ez == CalculateEz(lib, gridStepSize, c, currentsFull, n)
              && r.Bz == CalculateBz(lib, gridStepSize, c, currentsFull, n)
              && r.Phi == CalculatePhi(lib, c, currentsFull, n)
    {
    }

    /** Ey and Bx keep zero first and last rows, Ex and By zero first and last
        columns; under variant A this needs the previous slice's to have them too. */
    lemma NewFieldsEdges(lib: Library, c: ConstArrays, fields: Fields, fldsPrev: Fields, roBeamFull: Grid,
                         roBeamPrev: Grid, currentsPrev: Currents, currentsFull: Currents)
      requires StepsNonZero() && Inputs(c, fields, fldsPrev, roBeamFull, roBeamPrev, currentsPrev, currentsFull)
      requires var n := |fields.Ex|;
               variantA ==> EdgeColumnsZero(fldsPrev.Ex, n, n) && EdgeRowsZero(fldsPrev.Ey, n, n)
                            && EdgeRowsZero(fldsPrev.Bx, n, n) && EdgeColumnsZero(fldsPrev.By, n, n)
      ensures var r := NewFields(lib, c, fields, fldsPrev, roBeamFull, roBeamPrev, currentsPrev, currentsFull);
              var n := |fields.Ex|;
              && EdgeColumnsZero(r.Ex, n, n) && EdgeRowsZero(r.Ey, n, n)
              && EdgeRowsZero(r.Bx, n, n) && EdgeColumnsZero(r.By, n, n)
    {
      var n := |fields.Ex|;
      var t := CalculateExEyBxBy(lib, gridStepSize, xiStepSize, trick, variantA, c, fields,
                                 roBeamFull, roBeamPrev, currentsFull, currentsPrev, n);
      ExtrapolateEdges(t.Ex, fldsPrev.Ex, n);
      ExtrapolateEdges(t.Ey, fldsPrev.Ey, n);
      ExtrapolateEdges(t.Bx, fldsPrev.Bx, n);
      ExtrapolateEdges(t.By, fldsPrev.By, n);
    }

    /** Ez, Bz and Phi depend on the current slice's currents only: changing the
        field estimate, the previous slice's fields and currents or the beam
        leaves them as they are. */
    lemma NewFieldsLongitudinal(lib: Library, c: ConstArrays, currentsFull: Currents,
                                fields: Fields, fldsPrev: Fields, roBeamFull: Grid, roBeamPrev: Grid, currentsPrev: Currents,
                                fields': Fields, fldsPrev': Fields, roBeamFull': Grid, roBeamPrev': Grid, currentsPrev': Currents)
      requires StepsNonZero()
      requires Inputs(c, fields, fldsPrev, roBeamFull, roBeamPrev, currentsPrev, currentsFull)
      requires Inputs(c, fields', fldsPrev', roBeamFull', roBeamPrev', currentsPrev', currentsFull)
      requires |fields.Ex| == |fields'.Ex|
      ensures var r := NewFields(lib, c, fields, fldsPrev, roBeamFull, roBeamPrev, currentsPrev, currentsFull);
              var r' := NewFields(lib, c, fields', fldsPrev', roBeamFull', roBeamPrev', currentsPrev', currentsFull);
              r.Ez == r'.Ez && r.Bz == r'.Bz && r.Phi == r'.Phi
    {
    }

    /** With no plasma or beam, a zero field estimate and a zero previous
        slice, the new fields and their average are zero. */
    lemma NewFieldsOfZero(lib: Library, c: ConstArrays, fields: Fields, fldsPrev: Fields, roBeamFull: Grid,
                          roBeamPrev: Grid, currentsPrev: Currents, currentsFull: Currents)
      requires StepsNonZero() && Inputs(c, fields, fldsPrev, roBeamFull, roBeamPrev, currentsPrev, currentsFull)
      requires NoSources(roBeamFull, roBeamPrev, currentsFull, currentsPrev) && fields.IsZero() && fldsPrev.IsZero()
      ensures var r := NewFields(lib, c, fields, fldsPrev, roBeamFull, roBeamPrev, currentsPrev, currentsFull);
              r == ZeroFields(|fields.Ex|) && r.Average(fldsPrev, |fields.Ex|) == ZeroFields(|fields.Ex|)
    {
      var n := |fields.Ex|;
      TransverseOfZero(lib, gridStepSize, xiStepSize, trick, variantA, c, fields,
                       roBeamFull, roBeamPrev, currentsFull, currentsPrev, n);
      LongitudinalOfZero(lib, gridStepSize, c, currentsFull, n);
      AllZeroIsZeros(fldsPrev.Ex, n, n);
      AllZeroIsZeros(fldsPrev.Ey, n, n);
      AllZeroIsZeros(fldsPrev.Bx, n, n);
      AllZeroIsZeros(fldsPrev.By, n, n);
      ExtrapolateFixed(Zeros(n, n), n);
      var r := NewFields(lib, c, fields, fldsPrev, roBeamFull, roBeamPrev, currentsPrev, currentsFull);
      assert r == ZeroFields(n);
      AverageZero(r, fldsPrev, n);
    }
  }
}
