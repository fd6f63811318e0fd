/** Two-dimensional arrays of `real` as numpy holds them in the field solver:
    the element-wise arithmetic, the slicing, padding and transposition the
    solver applies to them, and the algebra of those operations (each one is
    linear, so it commutes with `+` and with scaling). */
module Grids {

  /** A 2-D array stored row by row; `a[i][j]` is numpy's `a[i, j]`. */
  type Grid = seq<seq<real>>

  /** `a` has shape `(m, n)`. */
  predicate IsShape(a: Grid, m: nat, n: nat) {
    |a| == m && forall i :: 0 <= i < m ==> |a[i]| == n
  }

  /** `a` and `b` have the same number of rows and row by row the same length. */
  predicate SameShape(a: Grid, b: Grid) {
    |a| == |b| && forall i :: 0 <= i < |a| ==> |a[i]| == |b[i]|
  }

  /** Every cell on the outermost rows and columns of the `m` x `n` array `a` is zero. */
  predicate BorderZero(a: Grid, m: nat, n: nat)
    requires IsShape(a, m, n)
  {
    forall i, j :: 0 <= i < m && 0 <= j < n && (i == 0 || i == m - 1 || j == 0 || j == n - 1) ==>
      a[i][j] == 0.0
  }

  /** The first and the last row of the `m` x `n` array `a` are zero. */
  predicate EdgeRowsZero(a: Grid, m: nat, n: nat)
    requires IsShape(a, m, n) && m > 0
  {
    forall j :: 0 <= j < n ==> a[0][j] == 0.0 && a[m - 1][j] == 0.0
  }

  /** The first and the last column of the `m` x `n` array `a` are zero. */
  predicate EdgeColumnsZero(a: Grid, m: nat, n: nat)
    requires IsShape(a, m, n) && n > 0
  {
    forall i :: 0 <= i < m ==> a[i][0] == 0.0 && a[i][n - 1] == 0.0
  }

  /** Every cell of `a` is zero. */
  predicate AllZero(a: Grid) {
    forall i, j :: 0 <= i < |a| && 0 <= j < |a[i]| ==> a[i][j] == 0.0
  }

  /** Two arrays of the same shape with the same cells are equal. */
  lemma Ext(a: Grid, b: Grid)
    requires SameShape(a, b)
    requires forall i, j :: 0 <= i < |a| && 0 <= j < |a[i]| ==> a[i][j] == b[i][j]
    ensures a == b
  {
    forall i | 0 <= i < |a|
      ensures a[i] == b[i]
    {
      assert forall j :: 0 <= j < |a[i]| ==> a[i][j] == b[i][j];
    }
  }

  // ---------------------------------------------------------------------
  // Construction and element-wise arithmetic

  function ZeroRow(n: nat): (r: seq<real>)
    ensures |r| == n && forall j :: 0 <= j < n ==> r[j] == 0.0
  {
    seq(n, _ => 0.0)
  }

  /** `np.zeros((m, n))`. */
  function Zeros(m: nat, n: nat): (r: Grid)
    ensures IsShape(r, m, n) && AllZero(r)
  {
    seq(m, _ => ZeroRow(n))
  }

  lemma AllZeroIsZeros(a: Grid, m: nat, n: nat)
    requires IsShape(a, m, n) && AllZero(a)
    ensures a == Zeros(m, n)
  {
    Ext(a, Zeros(m, n));
  }

  function RowAdd(u: seq<real>, v: seq<real>): (r: seq<real>)
    requires |u| == |v|
    ensures |r| == |u| && forall j :: 0 <= j < |u| ==> r[j] == u[j] + v[j]
  {
    seq(|u|, j requires 0 <= j < |u| => u[j] + v[j])
  }

  function RowSub(u: seq<real>, v: seq<real>): (r: seq<real>)
    requires |u| == |v|
    ensures |r| == |u| && forall j :: 0 <= j < |u| ==> r[j] == u[j] - v[j]
  {
    seq(|u|, j requires 0 <= j < |u| => u[j] - v[j])
  }

  function RowMul(u: seq<real>, v: seq<real>): (r: seq<real>)
    requires |u| == |v|
    ensures |r| == |u| && forall j :: 0 <= j < |u| ==> r[j] == u[j] * v[j]
  {
    seq(|u|, j requires 0 <= j < |u| => u[j] * v[j])
  }

  function RowScale(u: seq<real>, c: real): (r: seq<real>)
    ensures |r| == |u| && forall j :: 0 <= j < |u| ==> r[j] == u[j] * c
  {
    seq(|u|, j requires 0 <= j < |u| => u[j] * c)
  }

  function RowDiv(u: seq<real>, d: real): (r: seq<real>)
    requires d != 0.0
    ensures |r| == |u| && forall j :: 0 <= j < |u| ==> r[j] == u[j] / d
  {
    seq(|u|, j requires 0 <= j < |u| => u[j] / d)
  }

  function RowNeg(u: seq<real>): (r: seq<real>)
    ensures |r| == |u| && forall j :: 0 <= j < |u| ==> r[j] == -u[j]
  {
    seq(|u|, j requires 0 <= j < |u| => -u[j])
  }

  function RowShift(u: seq<real>, c: real): (r: seq<real>)
    ensures |r| == |u| && forall j :: 0 <= j < |u| ==> r[j] == u[j] - c
  {
    seq(|u|, j requires 0 <= j < |u| => u[j] - c)
  }

  /** numpy `a + b`. */
  function Add(a: Grid, b: Grid): (r: Grid)
    requires SameShape(a, b)
    ensures SameShape(r, a)
    ensures forall i, j :: 0 <= i < |a| && 0 <= j < |a[i]| ==> r[i][j] == a[i][j] + b[i][j]
  {
    seq(|a|, i requires 0 <= i < |a| => RowAdd(a[i], b[i]))
  }

  /** numpy `a - b`. */
  function Sub(a: Grid, b: Grid): (r: Grid)
    requires SameShape(a, b)
    ensures SameShape(r, a)
    ensures forall i, j :: 0 <= i < |a| && 0 <= j < |a[i]| ==> r[i][j] == a[i][j] - b[i][j]
  {
    seq(|a|, i requires 0 <= i < |a| => RowSub(a[i], b[i]))
  }

  /** numpy `a * b` on two arrays of one shape (no broadcasting). */
  function Mul(a: Grid, b: Grid): (r: Grid)
    requires SameShape(a, b)
    ensures SameShape(r, a)
    ensures forall i, j :: 0 <= i < |a| && 0 <= j < |a[i]| ==> r[i][j] == a[i][j] * b[i][j]
  {
    seq(|a|, i requires 0 <= i < |a| => RowMul(a[i], b[i]))
  }

  /** numpy `a * c` for a scalar `c`. */
  function Scale(a: Grid, c: real): (r: Grid)
    ensures SameShape(r, a)
    ensures forall i, j :: 0 <= i < |a| && 0 <= j < |a[i]| ==> r[i][j] == a[i][j] * c
  {
    seq(|a|, i requires 0 <= i < |a| => RowScale(a[i], c))
  }

  /** numpy `a / d` for a non-zero scalar `d`. */
  function Div(a: Grid, d: real): (r: Grid)
    requires d != 0.0
    ensures SameShape(r, a)
    ensures forall i, j :: 0 <= i < |a| && 0 <= j < |a[i]| ==> r[i][j] == a[i][j] / d
  {
    seq(|a|, i requires 0 <= i < |a| => RowDiv(a[i], d))
  }

  /** numpy `-a`. */
  function Neg(a: Grid): (r: Grid)
    ensures SameShape(r, a)
    ensures forall i, j :: 0 <= i < |a| && 0 <= j < |a[i]| ==> r[i][j] == -a[i][j]
  {
    seq(|a|, i requires 0 <= i < |a| => RowNeg(a[i]))
  }

  /** numpy `a - c` for a scalar `c`. */
  function Shift(a: Grid, c: real): (r: Grid)
    ensures SameShape(r, a)
    ensures forall i, j :: 0 <= i < |a| && 0 <= j < |a[i]| ==> r[i][j] == a[i][j] - c
  {
    seq(|a|, i requires 0 <= i < |a| => RowShift(a[i], c))
  }

  // ---------------------------------------------------------------------
  // Slicing, padding, transposition

  /** numpy `a[r0:r0+m, c0:c0+n]`. */
  function Window(a: Grid, r0: nat, c0: nat, m: nat, n: nat): (r: Grid)
    requires r0 + m <= |a|
    requires forall i :: r0 <= i < r0 + m ==> c0 + n <= |a[i]|
    ensures IsShape(r, m, n)
    ensures forall i, j :: 0 <= i < m && 0 <= j < n ==> r[i][j] == a[r0 + i][c0 + j]
  {
    seq(m, i requires 0 <= i < m => a[r0 + i][c0..c0 + n])
  }

  /** numpy `a[1:-1, :]`: every row but the first and the last. */
  function InnerRows(a: Grid): (r: Grid)
    requires |a| >= 2
    ensures |r| == |a| - 2
    ensures forall i :: 0 <= i < |r| ==> r[i] == a[i + 1]
  {
    a[1..|a| - 1]
  }

  /** `np.pad(a, 1, 'constant', constant_values=0)` for an array of `n` columns. */
  function Pad(a: Grid, n: nat): (r: Grid)
    requires IsShape(a, |a|, n)
    ensures IsShape(r, |a| + 2, n + 2)
    ensures BorderZero(r, |a| + 2, n + 2)
    ensures forall i, j :: 1 <= i <= |a| && 1 <= j <= n ==> r[i][j] == a[i - 1][j - 1]
  {
    [ZeroRow(n + 2)]
    + seq(|a|, i requires 0 <= i < |a| => [0.0] + a[i] + [0.0])
    + [ZeroRow(n + 2)]
  }

  /** `np.pad(a, ((1, 1), (0, 0)), 'constant', constant_values=0)`: a zero row
      above and below an array of `n` columns. */
  function PadRows(a: Grid, n: nat): (r: Grid)
    requires IsShape(a, |a|, n)
    ensures IsShape(r, |a| + 2, n)
    ensures EdgeRowsZero(r, |a| + 2, n)
    ensures forall i :: 1 <= i <= |a| ==> r[i] == a[i - 1]
  {
    [ZeroRow(n)] + a + [ZeroRow(n)]
  }

  /** numpy `a.T` for an array of `n` columns. */
  function Transpose(a: Grid, n: nat): (r: Grid)
    requires IsShape(a, |a|, n)
    ensures IsShape(r, n, |a|)
    ensures forall i, j :: 0 <= i < n && 0 <= j < |a| ==> r[i][j] == a[j][i]
  {
    seq(n, j requires 0 <= j < n => seq(|a|, i requires 0 <= i < |a| => a[i][j]))
  }

  lemma {:induction false} TransposeTwice(a: Grid, n: nat)
    requires IsShape(a, |a|, n)
    ensures Transpose(Transpose(a, n), |a|) == a
  {
    Ext(Transpose(Transpose(a, n), |a|), a);
  }

  /** `InnerRows` undoes `PadRows`. */
  lemma {:induction false} InnerRowsOfPadRows(a: Grid, n: nat)
    requires IsShape(a, |a|, n)
    ensures InnerRows(PadRows(a, n)) == a
  {
    var r := InnerRows(PadRows(a, n));
    assert |r| == |a|;
    forall i | 0 <= i < |a|
      ensures r[i] == a[i]
    {
      assert r[i] == PadRows(a, n)[i + 1];
    }
  }

  // ---------------------------------------------------------------------
  // Sums and means

  function RowSum(u: seq<real>): real {
    if u == [] then 0.0 else u[0] + RowSum(u[1..])
  }

  /** numpy `a.sum()`. */
  function Sum(a: Grid): real {
    if a == [] then 0.0 else RowSum(a[0]) + Sum(a[1..])
  }

  /** numpy `a.mean()` for a non-empty array of `n` columns. */
  function Mean(a: Grid, n: nat): (r: real)
    requires IsShape(a, |a|, n) && |a| > 0 && n > 0
    ensures r * ((|a| * n) as real) == Sum(a)
  {
    Sum(a) / ((|a| * n) as real)
  }

  lemma {:induction false} RowSumShift(u: seq<real>, c: real)
    ensures RowSum(RowShift(u, c)) == RowSum(u) - (|u| as real) * c
  {
    if u != [] {
      assert RowShift(u, c)[1..] == RowShift(u[1..], c);
      RowSumShift(u[1..], c);
    }
  }

  /** `(x + y) * c` expanded, stated on atoms so that it stays cheap inside larger proofs. */
  lemma Distrib(x: real, y: real, z: real, c: real)
    requires z == x + y
    ensures z * c == x * c + y * c
  {
  }

  /** Subtracting `c` from every cell of an `m` x `n` array lowers its sum by `m * n * c`. */
  lemma {:induction false} SumShift(a: Grid, n: nat, c: real)
    requires IsShape(a, |a|, n)
    ensures Sum(Shift(a, c)) == Sum(a) - ((|a| * n) as real) * c
  {
    if a != [] {
      var s := Shift(a, c);
      assert s[1..] == Shift(a[1..], c);
      assert s[0] == RowShift(a[0], c);
      assert |a[0]| == n;
      RowSumShift(a[0], c);
      SumShift(a[1..], n, c);
      var k := |a| - 1;
      assert k * n + n == |a| * n;
      Distrib(n as real, (k * n) as real, (|a| * n) as real, c);
    }
  }

  /** `a - a.mean()` sums to exactly zero. */
  lemma SumAfterMeanRemoval(a: Grid, n: nat)
    requires IsShape(a, |a|, n) && |a| > 0 && n > 0
    ensures Sum(Shift(a, Mean(a, n))) == 0.0
  {
    SumShift(a, n, Mean(a, n));
    var d, y := (|a| * n) as real, Sum(a);
    assert y - d * (y / d) == 0.0;
  }

  lemma {:induction false} RowSumZero(u: seq<real>)
    requires forall j :: 0 <= j < |u| ==> u[j] == 0.0
    ensures RowSum(u) == 0.0
  {
    if u != [] {
      RowSumZero(u[1..]);
    }
  }

  lemma {:induction false} SumZero(a: Grid)
    requires AllZero(a)
    ensures Sum(a) == 0.0
  {
    if a != [] {
      RowSumZero(a[0]);
      SumZero(a[1..]);
    }
  }

  // ---------------------------------------------------------------------
  // Linearity of the shape operations

  lemma ScaleByZero(a: Grid, m: nat, n: nat)
    requires IsShape(a, m, n)
    ensures Scale(a, 0.0) == Zeros(m, n)
  {
    Ext(Scale(a, 0.0), Zeros(m, n));
  }

  lemma MulScale(a: Grid, b: Grid, c: real)
    requires SameShape(a, b)
    ensures Mul(Scale(a, c), b) == Scale(Mul(a, b), c)
  {
    Ext(Mul(Scale(a, c), b), Scale(Mul(a, b), c));
  }

  lemma MulAdd(a: Grid, a': Grid, b: Grid)
    requires SameShape(a, b) && SameShape(a', b)
    ensures Mul(Add(a, a'), b) == Add(Mul(a, b), Mul(a', b))
  {
    Ext(Mul(Add(a, a'), b), Add(Mul(a, b), Mul(a', b)));
  }

  lemma InnerRowsScale(a: Grid, c: real)
    requires |a| >= 2
    ensures InnerRows(Scale(a, c)) == Scale(InnerRows(a), c)
  {
    var l, r := InnerRows(Scale(a, c)), Scale(InnerRows(a), c);
    assert |l| == |r|;
    forall i | 0 <= i < |l|
      ensures l[i] == r[i]
    {
      assert l[i] == Scale(a, c)[i + 1];
    }
  }

  lemma InnerRowsAdd(a: Grid, b: Grid)
    requires |a| >= 2 && SameShape(a, b)
    ensures InnerRows(Add(a, b)) == Add(InnerRows(a), InnerRows(b))
  {
    var l, r := InnerRows(Add(a, b)), Add(InnerRows(a), InnerRows(b));
    assert |l| == |r|;
    forall i | 0 <= i < |l|
      ensures l[i] == r[i]
    {
      assert l[i] == Add(a, b)[i + 1];
    }
  }

  lemma PadScale(a: Grid, n: nat, c: real)
    requires IsShape(a, |a|, n)
    ensures Pad(Scale(a, c), n) == Scale(Pad(a, n), c)
  {
    Ext(Pad(Scale(a, c), n), Scale(Pad(a, n), c));
  }

  lemma PadAdd(a: Grid, b: Grid, n: nat)
    requires IsShape(a, |a|, n) && IsShape(b, |a|, n)
    ensures Pad(Add(a, b), n) == Add(Pad(a, n), Pad(b, n))
  {
    Ext(Pad(Add(a, b), n), Add(Pad(a, n), Pad(b, n)));
  }

  lemma PadRowsScale(a: Grid, n: nat, c: real)
    requires IsShape(a, |a|, n)
    ensures PadRows(Scale(a, c), n) == Scale(PadRows(a, n), c)
  {
    var l, r := PadRows(Scale(a, c), n), Scale(PadRows(a, n), c);
    forall i, j | 0 <= i < |l| && 0 <= j < |l[i]|
      ensures l[i][j] == r[i][j]
    {
      if 1 <= i <= |a| {
        assert l[i] == Scale(a, c)[i - 1];
      }
    }
    Ext(l, r);
  }

  lemma PadRowsAdd(a: Grid, b: Grid, n: nat)
    requires IsShape(a, |a|, n) && IsShape(b, |a|, n)
    ensures PadRows(Add(a, b), n) == Add(PadRows(a, n), PadRows(b, n))
  {
    var l, r := PadRows(Add(a, b), n), Add(PadRows(a, n), PadRows(b, n));
    forall i, j | 0 <= i < |l| && 0 <= j < |l[i]|
      ensures l[i][j] == r[i][j]
    {
      if 1 <= i <= |a| {
        assert l[i] == Add(a, b)[i - 1];
      }
    }
    Ext(l, r);
  }

  lemma TransposeScale(a: Grid, n: nat, c: real)
    requires IsShape(a, |a|, n)
    ensures Transpose(Scale(a, c), n) == Scale(Transpose(a, n), c)
  {
    Ext(Transpose(Scale(a, c), n), Scale(Transpose(a, n), c));
  }

  lemma TransposeAdd(a: Grid, b: Grid, n: nat)
    requires IsShape(a, |a|, n) && IsShape(b, |a|, n)
    ensures Transpose(Add(a, b), n) == Add(Transpose(a, n), Transpose(b, n))
  {
    Ext(Transpose(Add(a, b), n), Add(Transpose(a, n), Transpose(b, n)));
  }

  // ---------------------------------------------------------------------
  // Division by a step size distributes over sums and differences

  lemma DivNegAdd(a: Grid, b: Grid, k: real)
    requires SameShape(a, b) && k != 0.0
    ensures Div(Neg(Add(a, b)), k) == Neg(Add(Div(a, k), Div(b, k)))
  {
    var l, r := Div(Neg(Add(a, b)), k), Neg(Add(Div(a, k), Div(b, k)));
    forall i, j | 0 <= i < |a| && 0 <= j < |a[i]|
      ensures l[i][j] == r[i][j]
    {
      var x, y := a[i][j], b[i][j];
      assert -(x + y) / k == -(x / k + y / k);
    }
    Ext(l, r);
  }

  lemma DivNegSub(a: Grid, b: Grid, k: real)
    requires SameShape(a, b) && k != 0.0
    ensures Div(Neg(Sub(a, b)), k) == Neg(Sub(Div(a, k), Div(b, k)))
  {
    var l, r := Div(Neg(Sub(a, b)), k), Neg(Sub(Div(a, k), Div(b, k)));
    forall i, j | 0 <= i < |a| && 0 <= j < |a[i]|
      ensures l[i][j] == r[i][j]
    {
      var x, y := a[i][j], b[i][j];
      assert -(x - y) / k == -(x / k - y / k);
    }
    Ext(l, r);
  }

  /** Sums, differences, negations and scalings of arrays with a zero border have a zero border. */
  lemma BorderZeroOps(a: Grid, b: Grid, m: nat, n: nat, c: real)
    requires IsShape(a, m, n) && IsShape(b, m, n) && BorderZero(a, m, n) && BorderZero(b, m, n)
    ensures BorderZero(Add(a, b), m, n) && BorderZero(Sub(a, b), m, n)
    ensures BorderZero(Neg(a), m, n) && BorderZero(Scale(a, c), m, n)
  {
  }

  // ---------------------------------------------------------------------
  // Zero arrays

  lemma NegSubIsAdd(x: Grid, t: Grid)
    requires SameShape(x, t)
    ensures Neg(Sub(x, t)) == Add(Neg(x), t)
  {
    Ext(Neg(Sub(x, t)), Add(Neg(x), t));
  }

  lemma AddZeros(a: Grid, m: nat, n: nat)
    requires IsShape(a, m, n)
    ensures Add(a, Zeros(m, n)) == a
  {
    Ext(Add(a, Zeros(m, n)), a);
  }

  lemma ZerosAdd(a: Grid, m: nat, n: nat)
    requires IsShape(a, m, n)
    ensures Add(Zeros(m, n), a) == a
  {
    Ext(Add(Zeros(m, n), a), a);
  }

  lemma ScaleZeros(m: nat, n: nat, c: real)
    ensures Scale(Zeros(m, n), c) == Zeros(m, n)
  {
    Ext(Scale(Zeros(m, n), c), Zeros(m, n));
  }

  /** Element-wise operations on zero arrays give zero arrays. */
  lemma AllZeroOps(a: Grid, b: Grid, c: real)
    requires SameShape(a, b) && AllZero(a) && AllZero(b)
    ensures AllZero(Add(a, b)) && AllZero(Sub(a, b)) && AllZero(Neg(a))
    ensures AllZero(Scale(a, c)) && AllZero(Shift(a, 0.0))
  {
  }

  lemma AllZeroDiv(a: Grid, d: real)
    requires AllZero(a) && d != 0.0
    ensures AllZero(Div(a, d))
  {
  }

  lemma AllZeroPad(a: Grid, n: nat)
    requires IsShape(a, |a|, n) && AllZero(a)
    ensures AllZero(Pad(a, n))
  {
    var r := Pad(a, n);
    forall i, j | 0 <= i < |r| && 0 <= j < |r[i]|
      ensures r[i][j] == 0.0
    {
      if 1 <= i <= |a| && 1 <= j <= n {
        assert r[i][j] == a[i - 1][j - 1];
      }
    }
  }

  lemma AllZeroWindow(a: Grid, r0: nat, c0: nat, m: nat, n: nat)
    requires r0 + m <= |a|
    requires forall i :: r0 <= i < r0 + m ==> c0 + n <= |a[i]|
    requires AllZero(a)
    ensures AllZero(Window(a, r0, c0, m, n))
  {
  }
}
