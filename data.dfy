/** The per-slice records the field solver reads and produces: the field
    components, the plasma currents and densities, and the precomputed
    spectral scaling arrays. Their defining file, `lcode2dPy/plasma3d/data.py`,
    is not part of this model; they are taken here as plain records, and
    `Fields.average` as the component-wise mean of two field states. */
module Data {
  import opened Grids

  /** The electromagnetic field on the transverse grid at one slice. */
  datatype Fields = Fields(Ex: Grid, Ey: Grid, Ez: Grid, Bx: Grid, By: Grid, Bz: Grid, Phi: Grid)
  {
    /** Every component is an `n` x `n` array. */
    predicate Fits(n: nat) {
      && IsShape(Ex, n, n) && IsShape(Ey, n, n) && IsShape(Ez, n, n)
      && IsShape(Bx, n, n) && IsShape(By, n, n) && IsShape(Bz, n, n)
      && IsShape(Phi, n, n)
    }

    /** Every component is zero everywhere. */
    predicate IsZero() {
      AllZero(Ex) && AllZero(Ey) && AllZero(Ez) && AllZero(Bx) && AllZero(By)
      && AllZero(Bz) && AllZero(Phi)
    }

    /** `fields.average(other)`: the field state whose every component is the
        element-wise mean of the two states' components. */
    function Average(other: Fields, n: nat): (r: Fields)
      requires Fits(n) && other.Fits(n)
      ensures r.Fits(n)
      ensures forall i, j :: 0 <= i < n && 0 <= j < n ==>
        && r.Ex[i][j] == (Ex[i][j] + other.Ex[i][j]) / 2.0
        && r.Ey[i][j] == (Ey[i][j] + other.Ey[i][j]) / 2.0
        && r.Ez[i][j] == (Ez[i][j] + other.Ez[i][j]) / 2.0
        && r.Bx[i][j] == (Bx[i][j] + other.Bx[i][j]) / 2.0
        && r.By[i][j] == (By[i][j] + other.By[i][j]) / 2.0
        && r.Bz[i][j] == (Bz[i][j] + other.Bz[i][j]) / 2.0
        && r.Phi[i][j] == (Phi[i][j] + other.Phi[i][j]) / 2.0
    {
      Fields(
        MeanOf(Ex, other.Ex), MeanOf(Ey, other.Ey), MeanOf(Ez, other.Ez),
        MeanOf(Bx, other.Bx), MeanOf(By, other.By), MeanOf(Bz, other.Bz),
        MeanOf(Phi, other.Phi))
    }
  }

  /** Element-wise `(a + b) / 2`. */
  function MeanOf(a: Grid, b: Grid): (r: Grid)
    requires SameShape(a, b)
    ensures SameShape(r, a)
  {
    Div(Add(a, b), 2.0)
  }

  /** The field state of an `n` x `n` grid with every component zero. */
  function ZeroFields(n: nat): (r: Fields)
    ensures r.Fits(n) && r.IsZero()
  {
    var z := Zeros(n, n);
    Fields(z, z, z, z, z, z, z)
  }

  /** Plasma charge density `ro` and current density `jx`, `jy`, `jz` at one slice. */
  datatype Currents = Currents(ro: Grid, jx: Grid, jy: Grid, jz: Grid)
  {
    /** Every component is an `n` x `n` array. */
    predicate Fits(n: nat) {
      IsShape(ro, n, n) && IsShape(jx, n, n) && IsShape(jy, n, n) && IsShape(jz, n, n)
    }

    /** Every component is zero everywhere. */
    predicate IsZero() {
      AllZero(ro) && AllZero(jx) && AllZero(jy) && AllZero(jz)
    }
  }

  /** The spectral scaling factors, computed once per grid: one per mode of the
      Dirichlet, the Neumann and the mixed-boundary transform. */
  datatype ConstArrays = ConstArrays(dirichletMatrix: Grid, neumannMatrix: Grid, fieldMixedMatrix: Grid)
  {
    /** The shapes the solver multiplies them against on an `n` x `n` grid:
        the Dirichlet factors cover the interior, the Neumann factors the
        whole grid, the mixed factors the inner rows of the whole grid. */
    predicate Fits(n: nat)
      requires n >= 2
    {
      && IsShape(dirichletMatrix, n - 2, n - 2)
      && IsShape(neumannMatrix, n, n)
      && IsShape(fieldMixedMatrix, n - 2, n)
    }
  }

  /** Averaging a field state with itself gives it back. */
  lemma AverageSelf(f: Fields, n: nat)
    requires f.Fits(n)
    ensures f.Average(f, n) == f
  {
    var r := f.Average(f, n);
    Ext(r.Ex, f.Ex); Ext(r.Ey, f.Ey); Ext(r.Ez, f.Ez); Ext(r.Bx, f.Bx);
    Ext(r.By, f.By); Ext(r.Bz, f.Bz); Ext(r.Phi, f.Phi);
  }

  /** The mean of two field states does not depend on their order. */
  lemma AverageSymmetric(f: Fields, g: Fields, n: nat)
    requires f.Fits(n) && g.Fits(n)
    ensures f.Average(g, n) == g.Average(f, n)
  {
    var l, r := f.Average(g, n), g.Average(f, n);
    Ext(l.Ex, r.Ex); Ext(l.Ey, r.Ey); Ext(l.Ez, r.Ez); Ext(l.Bx, r.Bx);
    Ext(l.By, r.By); Ext(l.Bz, r.Bz); Ext(l.Phi, r.Phi);
  }

  /** The mean of two zero field states is zero. */
  lemma AverageZero(f: Fields, g: Fields, n: nat)
    requires f.Fits(n) && g.Fits(n) && f.IsZero() && g.IsZero()
    ensures f.Average(g, n) == ZeroFields(n)
  {
    var r := f.Average(g, n);
    AllZeroIsZeros(r.Ex, n, n); AllZeroIsZeros(r.Ey, n, n); AllZeroIsZeros(r.Ez, n, n);
    AllZeroIsZeros(r.Bx, n, n); AllZeroIsZeros(r.By, n, n); AllZeroIsZeros(r.Bz, n, n);
    AllZeroIsZeros(r.Phi, n, n);
  }
}
