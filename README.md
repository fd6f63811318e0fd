# Per-slice field solver of lcode2dPy's 3-D plasma model

This project models the field solver that `lcode2dPy/plasma3d/fields.py` runs at every
longitudinal slice (`xi` step) of the quasi-static plasma simulation. From the plasma
charge and current densities of the current and previous slices, the beam density, and a
field estimate, it computes the seven field components on an `n` x `n` transverse grid:

- `Ez` and `Phi` come from a Dirichlet problem. The right-hand side is taken on the
  interior cells, put through the type-I sine transform, scaled by `dirichlet_matrix`,
  transformed again, and padded with a zero border.
- `Bz` comes from a Neumann problem. It uses the type-I cosine transform and
  `neumann_matrix`, and the result is re-centred to zero mean.
- `Ex`, `Ey`, `Bx` and `By` come from a mixed problem. It uses the hybrid sine/cosine
  transform `mix2d` and `field_mixed_matrix`. The "subtraction trick" term feeds the
  field estimate back into the right-hand side. Ex and By are solved on the transpose.
- `FieldComputer.compute_fields` assembles the new field state:
  - under "variant A" it extrapolates the transverse components against the previous
    slice;
  - it returns the new state together with its average with the previous slice's state.

Files:

- `grids.dfy` (module `Grids`) has the arrays as `seq<seq<real>>` together with the numpy
  operations the solver uses: element-wise arithmetic, slicing, `np.pad`, transposition,
  sum and mean.
- `fftpack.dfy` (module `Fftpack`) has the `scipy.fftpack` transforms as linear maps whose
  weights are a parameter (a `Library` value). Everything proved therefore holds for the
  real DST-I/DCT-I weights.
- `data.dfy` (module `Data`) has the `Fields`, `Currents` and `Const_Arrays` records.
- `fields.dfy` (module `FieldSolver`) has the solver functions, the `FieldComputer` class
  and the properties.

The records are datatypes in `Data`:

- `Fields` holds the seven components `Ex`, `Ey`, `Ez`, `Bx`, `By`, `Bz` and `Phi`. It is
  created at fields.py:204 and read at fields.py:114-117 and 214-217.
- `Currents` holds `ro`, `jx`, `jy` and `jz`. It is read at fields.py:18, 45, 99-105 and
  149.
- `ConstArrays` holds the three scaling arrays `dirichlet_matrix`, `neumann_matrix` and
  `field_mixed_matrix`. It is read at fields.py:28, 51, 127 and 164.

Their `Fits(n)` predicates give the shapes the solver expects.

Arithmetic is over `real`, so the linear identities hold exactly.

Where a docstring and the code disagree, the model follows the code:

- `calculate_Phi`'s docstring says the right-hand side is `-ro + jz`, but the code uses
  `ro - jz`.
- `calculate_Bz`'s docstring (line 145) names `dirichlet_matrix`, and the step comment at
  line 160 names a sine transform, but the code uses `dctn` and `neumann_matrix`.
- `calculate_Ex_Ey_Bx_By` receives `variant_A` and does not use it. The extrapolation
  happens in `compute_fields`.

## Model

| member | source | states |
|---|---|---|
| Grids.Pad | lcode2dPy/plasma3d/fields.py:37 | `np.pad(a, 1)` of an m x n array is (m+2) x (n+2), has a zero border, and holds `a[i-1][j-1]` inside |
| Grids.PadRows | lcode2dPy/plasma3d/fields.py:70 | padding one zero row above and below an m x n array gives (m+2) x n with zero first and last rows and the original rows in between |
| Grids.InnerRowsOfPadRows | lcode2dPy/plasma3d/fields.py:124 | taking `[1:-1, :]` of a row-padded array gives back the array |
| Grids.Window | lcode2dPy/plasma3d/fields.py:20-21 | the slice `a[r0:r0+m, c0:c0+n]` is m x n with cell (i,j) equal to `a[r0+i][c0+j]` |
| Grids.InnerRows | lcode2dPy/plasma3d/fields.py:124 | the slice `a[1:-1, :]` drops the first and last rows and keeps the others in order |
| Grids.Transpose | lcode2dPy/plasma3d/fields.py:135-136 | `a.T` is n x m with `r[i][j] == a[j][i]` |
| Grids.TransposeTwice | lcode2dPy/plasma3d/fields.py:135-136 | transposing twice gives back the array |
| Grids.Mean | lcode2dPy/plasma3d/fields.py:173 | `a.mean()` of an m x n array times `m*n` is the sum of its entries |
| Grids.SumShift | lcode2dPy/plasma3d/fields.py:173 | subtracting `c` from every cell of an m x n array lowers its sum by `m*n*c` |
| Grids.SumAfterMeanRemoval | lcode2dPy/plasma3d/fields.py:173 | after `a -= a.mean()` the entries sum to exactly zero |
| Fftpack.Dstn | lcode2dPy/plasma3d/fields.py:25 | `dstn(a, type=1)` (also at lines 36, 49 and 53) keeps the shape of `a` |
| Fftpack.Dctn | lcode2dPy/plasma3d/fields.py:161 | `dctn(a, type=1)` (also at line 171) keeps the shape of `a` |
| Fftpack.DstAxis0 | lcode2dPy/plasma3d/fields.py:67 | `dst(a, type=1, axis=0)` keeps the shape of `a` |
| Fftpack.DctAxis1 | lcode2dPy/plasma3d/fields.py:68 | `dct(a, type=1, axis=1)` keeps the shape of `a` |
| Fftpack.DstnDctnScale | lcode2dPy/plasma3d/fields.py:25 | `dstn` and `dctn` commute with scaling by a constant |
| Fftpack.DstnDctnAdd | lcode2dPy/plasma3d/fields.py:25 | `dstn` and `dctn` are additive |
| Fftpack.DstnDctnZero | lcode2dPy/plasma3d/fields.py:25 | `dstn` and `dctn` map the zero array to the zero array |
| Data.Fields.Average | lcode2dPy/plasma3d/fields.py:223 | `average` keeps the shape, and every component cell is the mean of the two states' cells |
| Data.ZeroFields | lcode2dPy/plasma3d/fields.py:204 | the fresh `Fields(n)` record has every component n x n and zero |
| Data.AverageSelf | lcode2dPy/plasma3d/fields.py:223 | averaging a state with itself gives it back |
| Data.AverageSymmetric | lcode2dPy/plasma3d/fields.py:223 | the average does not depend on argument order |
| Data.AverageZero | lcode2dPy/plasma3d/fields.py:223 | the average of two zero states is zero |
| FieldSolver.DiffAxis0 | lcode2dPy/plasma3d/fields.py:20 | `a[2:, 1:-1] - a[:-2, 1:-1]` is (n-2) x (n-2), with cell (i,j) equal to `a[i+2][j+1] - a[i][j+1]` |
| FieldSolver.DiffAxis1 | lcode2dPy/plasma3d/fields.py:21 | `a[1:-1, 2:] - a[1:-1, :-2]` is (n-2) x (n-2), with cell (i,j) equal to `a[i+1][j+2] - a[i+1][j]` |
| FieldSolver.DxDy | lcode2dPy/plasma3d/fields.py:74-83 | both derivatives have the input's shape and a zero border; interior cell (i,j) holds `(a[i+1][j]-a[i-1][j])/(2h)` and `(a[i][j+1]-a[i][j-1])/(2h)` |
| FieldSolver.DxDyZero | lcode2dPy/plasma3d/fields.py:74-83 | `dx_dy` of a zero array is a pair of zero arrays |
| FieldSolver.DirichletSolve | lcode2dPy/plasma3d/fields.py:25-37 | transform, scale, transform, pad: an n x n result with a zero border |
| FieldSolver.DirichletSolveLinear | lcode2dPy/plasma3d/fields.py:25-37 | the Dirichlet solve is homogeneous and additive in its right-hand side |
| FieldSolver.EzRhs | lcode2dPy/plasma3d/fields.py:20-22 | the inline right-hand side of `calculate_Ez` is (n-2) x (n-2) |
| FieldSolver.EzRhsIsDivergence | lcode2dPy/plasma3d/fields.py:20-22 | that right-hand side equals minus the sum of `dx_dy(jx).dx` and `dx_dy(jy).dy`, restricted to interior indices 1..n-2 (the stencil of lines 81-83) |
| FieldSolver.EzRhsZero | lcode2dPy/plasma3d/fields.py:20-22 | zero `jx`, `jy` give a zero right-hand side |
| FieldSolver.CalculateEz | lcode2dPy/plasma3d/fields.py:12-38 | Ez is n x n with every outermost row and column zero |
| FieldSolver.EzOfZero | lcode2dPy/plasma3d/fields.py:12-38 | zero currents give a zero Ez |
| FieldSolver.PhiRhs | lcode2dPy/plasma3d/fields.py:47 | the Phi right-hand side is `ro - jz` on the interior cells only: cell (i,j) is `ro[i+1][j+1] - jz[i+1][j+1]` |
| FieldSolver.PhiRhsZero | lcode2dPy/plasma3d/fields.py:47 | zero `ro`, `jz` give a zero right-hand side |
| FieldSolver.CalculatePhi | lcode2dPy/plasma3d/fields.py:41-56 | Phi is n x n with every outermost row and column zero |
| FieldSolver.PhiOfZero | lcode2dPy/plasma3d/fields.py:41-56 | zero currents give a zero Phi |
| FieldSolver.BzRhs | lcode2dPy/plasma3d/fields.py:151-155 | the Bz right-hand side, built from zero-padded differences, is n x n |
| FieldSolver.BzRhsIsCurl | lcode2dPy/plasma3d/fields.py:151-155 | it equals `-(dx_dy(jx).dy - dx_dy(jy).dx)` over the whole grid, and its border is zero |
| FieldSolver.BzRhsZero | lcode2dPy/plasma3d/fields.py:151-155 | zero `jx`, `jy` give a zero right-hand side |
| FieldSolver.NeumannSolve | lcode2dPy/plasma3d/fields.py:161-171 | `dctn`, scale by `neumann_matrix`, `dctn` keeps the n x n shape |
| FieldSolver.NeumannSolveLinear | lcode2dPy/plasma3d/fields.py:161-171 | the Neumann solve is homogeneous and additive in its right-hand side |
| FieldSolver.MeanRemovalOfZero | lcode2dPy/plasma3d/fields.py:173 | removing the mean of the zero array leaves it zero |
| FieldSolver.CalculateBz | lcode2dPy/plasma3d/fields.py:143-175 | Bz is n x n (no border added) and its entries sum to exactly zero |
| FieldSolver.BzOfZero | lcode2dPy/plasma3d/fields.py:143-175 | zero currents give a zero Bz |
| FieldSolver.Mix2d | lcode2dPy/plasma3d/fields.py:61-71 | `mix2d` maps an m x n array to an (m+2) x n array whose first and last rows are zero |
| FieldSolver.Mix2dLinear | lcode2dPy/plasma3d/fields.py:61-71 | `mix2d` is homogeneous and additive |
| FieldSolver.MixedSolve | lcode2dPy/plasma3d/fields.py:124-134 | the Ey/Bx solve gives an n x n array with zero first and last rows |
| FieldSolver.MixedSolveLinear | lcode2dPy/plasma3d/fields.py:124-134 | that solve is homogeneous and additive |
| FieldSolver.TransposedSolve | lcode2dPy/plasma3d/fields.py:135-136 | the Ex/By solve on the transpose gives an n x n array with zero first and last columns |
| FieldSolver.TransposedSolveLinear | lcode2dPy/plasma3d/fields.py:135-136 | that solve is homogeneous and additive |
| FieldSolver.SolvesOfZero | lcode2dPy/plasma3d/fields.py:25-36 | each of the four solves maps the zero array to the zero array |
| FieldSolver.MidSlice | lcode2dPy/plasma3d/fields.py:102-105 | mid-step source cell (i,j) is `(full + beam_full + prev + beam_prev)/2`; `TransverseRhsFormulas` states that both `ro` and `jz` take the beam's `ro` arrays as the beam terms |
| FieldSolver.XiDerivative | lcode2dPy/plasma3d/fields.py:110-111 | `djx_dxi` cell (i,j) is `(jx_prev - jx)/xi_step_size`, and likewise for jy |
| FieldSolver.MinusRhs | lcode2dPy/plasma3d/fields.py:114-117 | the Ex, Ey and By form (lines 114, 115, 117): cell (i,j) is `-(d - (j_prev - j)/xi) + t*trick`, i.e. `-((d - dj_dxi) - t*trick)` |
| FieldSolver.PlusRhs | lcode2dPy/plasma3d/fields.py:116 | the Bx form: cell (i,j) is `(d - (j_prev - j)/xi) + t*trick`, i.e. `+((d - dj_dxi) + t*trick)` |
| FieldSolver.TransverseRhs | lcode2dPy/plasma3d/fields.py:102-117 | the four transverse right-hand sides are n x n; their cells are stated by `TransverseRhsFormulas` |
| FieldSolver.TransverseRhsFormulas | lcode2dPy/plasma3d/fields.py:102-117 | cell by cell: Ex is `-(dro_dx - (jx_prev - jx)/xi) + avg.Ex*trick`, Ey is `-(dro_dy - (jy_prev - jy)/xi) + avg.Ey*trick`, Bx is `+(djz_dy - (jy_prev - jy)/xi) + avg.Bx*trick` and By is `-(djz_dx - (jx_prev - jx)/xi) + avg.By*trick`; `ro` and `jz` are the mid-slice averages of the plasma terms with the beam's `ro` arrays |
| FieldSolver.TransverseRhsSplit | lcode2dPy/plasma3d/fields.py:114-117 | each right-hand side is its source part plus `trick` times the matching `fields_avg` component; the sign is + for all four |
| FieldSolver.TransverseRhsTrickOff | lcode2dPy/plasma3d/fields.py:114-117 | with `trick = 0` the right-hand sides do not depend on `fields_avg` |
| FieldSolver.SourcePartOfZero | lcode2dPy/plasma3d/fields.py:102-117 | with zero plasma and beam sources and a zero `fields_avg`, all four right-hand sides are zero |
| FieldSolver.CalculateExEyBxBy | lcode2dPy/plasma3d/fields.py:86-138 | all four are n x n; Ey and Bx have zero first and last rows; Ex and By have zero first and last columns |
| FieldSolver.TransverseSuperposition | lcode2dPy/plasma3d/fields.py:114-136 | each transverse field is the field for a zero estimate plus `trick` times the solve of the matching `fields_avg` component |
| FieldSolver.TransverseWithoutSources | lcode2dPy/plasma3d/fields.py:114-136 | without sources, each transverse field is `trick` times the solve of the matching `fields_avg` component |
| FieldSolver.TransverseOfZero | lcode2dPy/plasma3d/fields.py:86-138 | zero sources and a zero `fields_avg` give zero Ex, Ey, Bx, By |
| FieldSolver.LongitudinalOfZero | lcode2dPy/plasma3d/fields.py:219-221 | zero currents give zero Ez, Phi and Bz |
| FieldSolver.Extrapolate | lcode2dPy/plasma3d/fields.py:213-217 | variant A cell (i,j) is `2*solved - prev` |
| FieldSolver.ExtrapolateFixed | lcode2dPy/plasma3d/fields.py:213-217 | a field equal to the previous slice's stays put |
| FieldSolver.ExtrapolateEdges | lcode2dPy/plasma3d/fields.py:213-217 | extrapolation keeps zero edge rows and zero edge columns |
| FieldSolver.FieldComputer.constructor | lcode2dPy/plasma3d/fields.py:192-196 | the four configuration values are stored as given |
| FieldSolver.FieldComputer.NewFields | lcode2dPy/plasma3d/fields.py:204-221 | the new field state fits the grid; Ez and Phi have zero borders, and Bz sums to zero |
| FieldSolver.FieldComputer.ComputeFields | lcode2dPy/plasma3d/fields.py:198-223 | the component-by-component build gives `NewFields`, and the second result is its average with `flds_prev` |
| FieldSolver.FieldComputer.NewFieldsComponents | lcode2dPy/plasma3d/fields.py:206-221 | under variant A each transverse component is `2*solved - flds_prev.X`; otherwise it is the solver output unchanged; Ez, Bz and Phi are the solves of `currents_full`, never extrapolated |
| FieldSolver.FieldComputer.NewFieldsEdges | lcode2dPy/plasma3d/fields.py:206-217 | Ey and Bx keep zero first and last rows, and Ex and By keep zero first and last columns; under variant A this holds when the previous slice's fields have them too |
| FieldSolver.FieldComputer.NewFieldsLongitudinal | lcode2dPy/plasma3d/fields.py:219-221 | Ez, Bz and Phi depend only on `currents_full` and the constants, and on nothing else passed to `compute_fields` |
| FieldSolver.FieldComputer.NewFieldsOfZero | lcode2dPy/plasma3d/fields.py:198-223 | no plasma, no beam, a zero estimate and a zero previous slice give zero new fields and a zero average |

## Left out

- The numerics of `scipy.fftpack.dst/dct/dstn/dctn` type I are not modelled. The
  transforms are linear maps with arbitrary weights, so the model does not capture the
  unnormalised self-inverse property, and it says nothing about what the solves compute
  beyond shape, borders and linearity.
- How `dirichlet_matrix`, `neumann_matrix` and `field_mixed_matrix` are derived is not
  modelled. These are inputs of the stated shapes.
- `lcode2dPy/plasma3d/data.py` is not part of this model. `Fields`, `Currents` and
  `Const_Arrays` are plain records. `Fields(n)` is taken to be zero-initialised, and
  `Fields.average` to be the element-wise mean.
- `Config` parsing in `FieldComputer.__init__` is left out. The four values are
  constructor parameters.
- Floating-point rounding is left out. Arithmetic is over exact reals, so
  `Bz -= Bz.mean()` gives a sum of exactly zero.
- A zero `grid_step_size` or `xi_step_size` is excluded by preconditions. numpy would
  produce infinities or NaN there, and reals have neither.
- Grids smaller than 3 x 3 are excluded by preconditions. There the interior is empty.
- The in-place updates of local buffers (`dx[1:-1, 1:-1] = ...`, `f *= ...`,
  `Bz -= ...`) are modelled as the values they produce. No caller can observe those
  buffers.
- `Ey_f *= mix_mat` multiplies in place, while Bx, By and Ex use `mix_mat * ...`. Over
  the reals the element-wise products agree, so one `MixedSolve` serves all four.
- The cupy/GPU backend mentioned in comments is left out.
- `lcode2dPy/beam3d/beam_generator.py` is not part of this model: it does random sampling
  and file output.
- `lcode2dPy/__init__.py` is not part of this model: it only imports packages.
