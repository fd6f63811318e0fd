/** The `scipy.fftpack` transforms the field solver calls: the type-I discrete
    sine and cosine transforms along one axis (`dst`, `dct`) and over both
    axes (`dstn`, `dctn`).

    Their numerical weights (sines and cosines) are left open: a 1-D
    transform is any linear map, given by its weights, and DST-I and DCT-I
    are two particular choices of weights. Everything proved here and about
    the solver therefore holds for the real transforms: they preserve shape,
    are linear, and so send zero to zero. */
module Fftpack {
  import opened Grids

  /** Weights of a 1-D transform: `w(n, k, j)` is the coefficient of input
      sample `j` in output sample `k` of a transform of length `n`. */
  type Kernel = (nat, nat, nat) -> real

  /** The two transform families, type-I sine and type-I cosine. */
  datatype Library = Library(dst1: Kernel, dct1: Kernel)

  /** Partial sum `w(|v|, k, 0) * v[0] + ... + w(|v|, k, len - 1) * v[len - 1]`. */
  function Weighted(w: Kernel, v: seq<real>, k: nat, len: nat): real
    requires len <= |v|
    decreases len
  {
    if len == 0 then 0.0 else Weighted(w, v, k, len - 1) + w(|v|, k, len - 1) * v[len - 1]
  }

  /** The 1-D transform of `v`: output sample `k` is the weighted sum of all inputs. */
  function Transform(w: Kernel, v: seq<real>): (r: seq<real>)
    ensures |r| == |v|
  {
    seq(|v|, k requires 0 <= k < |v| => Weighted(w, v, k, |v|))
  }

  /** The transform applied to every row (`axis=1`). */
  function AlongRows(w: Kernel, a: Grid): (r: Grid)
    ensures SameShape(r, a)
  {
    seq(|a|, i requires 0 <= i < |a| => Transform(w, a[i]))
  }

  /** The transform applied to every column (`axis=0`) of an array of `n` columns. */
  function AlongColumns(w: Kernel, a: Grid, n: nat): (r: Grid)
    requires IsShape(a, |a|, n)
    ensures IsShape(r, |a|, n)
  {
    Transpose(AlongRows(w, Transpose(a, n)), |a|)
  }

  /** `scipy.fftpack.dst(a, type=1, axis=0)`. */
  function DstAxis0(lib: Library, a: Grid, n: nat): (r: Grid)
    requires IsShape(a, |a|, n)
    ensures IsShape(r, |a|, n)
  {
    AlongColumns(lib.dst1, a, n)
  }

  /** `scipy.fftpack.dct(a, type=1, axis=1)`. */
  function DctAxis1(lib: Library, a: Grid): (r: Grid)
    ensures SameShape(r, a)
  {
    AlongRows(lib.dct1, a)
  }

  /** `scipy.fftpack.dstn(a, type=1)` on an array of `n` columns. */
  function Dstn(lib: Library, a: Grid, n: nat): (r: Grid)
    requires IsShape(a, |a|, n)
    ensures IsShape(r, |a|, n)
  {
    AlongRows(lib.dst1, AlongColumns(lib.dst1, a, n))
  }

  /** `scipy.fftpack.dctn(a, type=1)` on an array of `n` columns. */
  function Dctn(lib: Library, a: Grid, n: nat): (r: Grid)
    requires IsShape(a, |a|, n)
    ensures IsShape(r, |a|, n)
  {
    AlongRows(lib.dct1, AlongColumns(lib.dct1, a, n))
  }

  // ---------------------------------------------------------------------
  // Linearity

  lemma {:induction false} WeightedScale(w: Kernel, v: seq<real>, k: nat, len: nat, c: real)
    requires len <= |v|
    ensures Weighted(w, RowScale(v, c), k, len) == Weighted(w, v, k, len) * c
  {
    if len > 0 {
      WeightedScale(w, v, k, len - 1, c);
      var x, y := w(|v|, k, len - 1), v[len - 1];
      assert x * (y * c) == (x * y) * c;
    }
  }

  lemma {:induction false} WeightedAdd(w: Kernel, u: seq<real>, v: seq<real>, k: nat, len: nat)
    requires |u| == |v| && len <= |u|
    ensures Weighted(w, RowAdd(u, v), k, len) == Weighted(w, u, k, len) + Weighted(w, v, k, len)
  {
    if len > 0 {
      WeightedAdd(w, u, v, k, len - 1);
      var x := w(|u|, k, len - 1);
      assert x * (u[len - 1] + v[len - 1]) == x * u[len - 1] + x * v[len - 1];
    }
  }

  lemma TransformScale(w: Kernel, v: seq<real>, c: real)
    ensures Transform(w, RowScale(v, c)) == RowScale(Transform(w, v), c)
  {
    forall k | 0 <= k < |v|
      ensures Transform(w, RowScale(v, c))[k] == RowScale(Transform(w, v), c)[k]
    {
      WeightedScale(w, v, k, |v|, c);
    }
  }

  lemma TransformAdd(w: Kernel, u: seq<real>, v: seq<real>)
    requires |u| == |v|
    ensures Transform(w, RowAdd(u, v)) == RowAdd(Transform(w, u), Transform(w, v))
  {
    forall k | 0 <= k < |u|
      ensures Transform(w, RowAdd(u, v))[k] == RowAdd(Transform(w, u), Transform(w, v))[k]
    {
      WeightedAdd(w, u, v, k, |u|);
    }
  }

  lemma AlongRowsScale(w: Kernel, a: Grid, c: real)
    ensures AlongRows(w, Scale(a, c)) == Scale(AlongRows(w, a), c)
  {
    forall i | 0 <= i < |a|
      ensures AlongRows(w, Scale(a, c))[i] == Scale(AlongRows(w, a), c)[i]
    {
      TransformScale(w, a[i], c);
    }
  }

  lemma AlongRowsAdd(w: Kernel, a: Grid, b: Grid)
    requires SameShape(a, b)
    ensures AlongRows(w, Add(a, b)) == Add(AlongRows(w, a), AlongRows(w, b))
  {
    forall i | 0 <= i < |a|
      ensures AlongRows(w, Add(a, b))[i] == Add(AlongRows(w, a), AlongRows(w, b))[i]
    {
      TransformAdd(w, a[i], b[i]);
    }
  }

  lemma AlongColumnsScale(w: Kernel, a: Grid, n: nat, c: real)
    requires IsShape(a, |a|, n)
    ensures AlongColumns(w, Scale(a, c), n) == Scale(AlongColumns(w, a, n), c)
  {
    var t := Transpose(a, n);
    TransposeScale(a, n, c);
    AlongRowsScale(w, t, c);
    TransposeScale(AlongRows(w, t), |a|, c);
  }

  lemma AlongColumnsAdd(w: Kernel, a: Grid, b: Grid, n: nat)
    requires IsShape(a, |a|, n) && IsShape(b, |a|, n)
    ensures AlongColumns(w, Add(a, b), n) == Add(AlongColumns(w, a, n), AlongColumns(w, b, n))
  {
    var ta, tb := Transpose(a, n), Transpose(b, n);
    TransposeAdd(a, b, n);
    AlongRowsAdd(w, ta, tb);
    TransposeAdd(AlongRows(w, ta), AlongRows(w, tb), |a|);
  }

  /** Both 2-D transforms commute with scaling. */
  lemma DstnDctnScale(lib: Library, a: Grid, n: nat, c: real)
    requires IsShape(a, |a|, n)
    ensures Dstn(lib, Scale(a, c), n) == Scale(Dstn(lib, a, n), c)
    ensures Dctn(lib, Scale(a, c), n) == Scale(Dctn(lib, a, n), c)
  {
    AlongColumnsScale(lib.dst1, a, n, c);
    AlongRowsScale(lib.dst1, AlongColumns(lib.dst1, a, n), c);
    AlongColumnsScale(lib.dct1, a, n, c);
    AlongRowsScale(lib.dct1, AlongColumns(lib.dct1, a, n), c);
  }

  /** Both 2-D transforms are additive. */
  lemma DstnDctnAdd(lib: Library, a: Grid, b: Grid, n: nat)
    requires IsShape(a, |a|, n) && IsShape(b, |a|, n)
    ensures Dstn(lib, Add(a, b), n) == Add(Dstn(lib, a, n), Dstn(lib, b, n))
    ensures Dctn(lib, Add(a, b), n) == Add(Dctn(lib, a, n), Dctn(lib, b, n))
  {
    AlongColumnsAdd(lib.dst1, a, b, n);
    AlongRowsAdd(lib.dst1, AlongColumns(lib.dst1, a, n), AlongColumns(lib.dst1, b, n));
    AlongColumnsAdd(lib.dct1, a, b, n);
    AlongRowsAdd(lib.dct1, AlongColumns(lib.dct1, a, n), AlongColumns(lib.dct1, b, n));
  }

  /** Zero in, zero out: a consequence of linearity. */
  lemma DstnDctnZero(lib: Library, m: nat, n: nat)
    ensures Dstn(lib, Zeros(m, n), n) == Zeros(m, n)
    ensures Dctn(lib, Zeros(m, n), n) == Zeros(m, n)
  {
    var z := Zeros(m, n);
    ScaleByZero(z, m, n);
    DstnDctnScale(lib, z, n, 0.0);
    ScaleByZero(Dstn(lib, z, n), m, n);
    ScaleByZero(Dctn(lib, z, n), m, n);
  }
}
