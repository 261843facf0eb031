/**
 * Exact-arithmetic vectors and matrices: the numpy arrays of the engine,
 * with every entry a `real`. A matrix is a sequence of rows.
 */
module Vectors {

  type Vector = seq<real>
  type Matrix = seq<seq<real>>

  /** `m` has `rows` rows of `cols` entries each. */
  ghost predicate IsMatrix(m: Matrix, rows: nat, cols: nat) {
    |m| == rows && forall i :: 0 <= i < rows ==> |m[i]| == cols
  }

  /** Sum of all entries (np.sum). */
  function Sum(v: Vector): real {
    if v == [] then 0.0 else Sum(v[..|v| - 1]) + v[|v| - 1]
  }

  /** A vector of `n` copies of `x` (np.ones(n) * x). */
  function Fill(n: nat, x: real): (r: Vector)
    ensures |r| == n && forall i :: 0 <= i < n ==> r[i] == x
  {
    seq(n, _ => x)
  }

  /** np.ones(n) / n; the empty vector when n is 0. */
  function Uniform(n: nat): (r: Vector)
    ensures |r| == n && forall i :: 0 <= i < n ==> r[i] == 1.0 / n as real
  {
    if n == 0 then [] else Fill(n, 1.0 / n as real)
  }

  function Add(a: Vector, b: Vector): (r: Vector)
    requires |a| == |b|
    ensures |r| == |a| && forall i :: 0 <= i < |a| ==> r[i] == a[i] + b[i]
  {
    seq(|a|, i requires 0 <= i < |a| => a[i] + b[i])
  }

  function Scale(k: real, a: Vector): (r: Vector)
    ensures |r| == |a| && forall i :: 0 <= i < |a| ==> r[i] == k * a[i]
  {
    seq(|a|, i requires 0 <= i < |a| => k * a[i])
  }

  /** Every entry divided by `d` (numpy's `v / d`). */
  function Divide(a: Vector, d: real): (r: Vector)
    requires d != 0.0
    ensures |r| == |a| && forall i :: 0 <= i < |a| ==> r[i] == a[i] / d
  {
    seq(|a|, i requires 0 <= i < |a| => a[i] / d)
  }

  function Abs(x: real): real {
    if x < 0.0 then -x else x
  }

  /** np.linalg.norm(a - b, ord=1). */
  function L1Distance(a: Vector, b: Vector): real
    requires |a| == |b|
  {
    if a == [] then 0.0
    else L1Distance(a[..|a| - 1], b[..|b| - 1]) + Abs(a[|a| - 1] - b[|b| - 1])
  }

  /** Column `j` of a matrix whose rows all have more than `j` entries. */
  function Column(m: Matrix, j: nat): (r: Vector)
    requires forall i :: 0 <= i < |m| ==> j < |m[i]|
    ensures |r| == |m| && forall i :: 0 <= i < |m| ==> r[i] == m[i][j]
  {
    seq(|m|, i requires 0 <= i < |m| => m[i][j])
  }

  /** weighted_adj.sum(axis=0): the sum of every column. */
  function ColumnSums(m: Matrix, cols: nat): (r: Vector)
    requires IsMatrix(m, |m|, cols)
    ensures |r| == cols && forall j :: 0 <= j < cols ==> r[j] == Sum(Column(m, j))
  {
    seq(cols, j requires 0 <= j < cols => Sum(Column(m, j)))
  }

  /** Element-wise product of two matrices of the same shape (a.multiply(b), a * b). */
  function Hadamard(a: Matrix, b: Matrix, rows: nat, cols: nat): (r: Matrix)
    requires IsMatrix(a, rows, cols) && IsMatrix(b, rows, cols)
    ensures IsMatrix(r, rows, cols)
    ensures forall i, j :: 0 <= i < rows && 0 <= j < cols ==> r[i][j] == a[i][j] * b[i][j]
  {
    seq(rows, i requires 0 <= i < rows => seq(cols, j requires 0 <= j < cols => a[i][j] * b[i][j]))
  }

  /** The contents of a two-dimensional array, row by row. */
  function Rows(a: array2<real>): (m: Matrix)
    reads a
    ensures IsMatrix(m, a.Length0, a.Length1)
    ensures forall i, j :: 0 <= i < a.Length0 && 0 <= j < a.Length1 ==> m[i][j] == a[i, j]
  {
    seq(a.Length0, i requires 0 <= i < a.Length0 reads a =>
      seq(a.Length1, j requires 0 <= j < a.Length1 reads a => a[i, j]))
  }

  /** m.copy() into a fresh two-dimensional array. */
  method CopyToArray(m: Matrix, cols: nat) returns (a: array2<real>)
    requires IsMatrix(m, |m|, cols)
    ensures fresh(a) && a.Length0 == |m| && a.Length1 == cols
    ensures forall i, j :: 0 <= i < |m| && 0 <= j < cols ==> a[i, j] == m[i][j]
  {
    a := new real[|m|, cols]((i, j) requires 0 <= i < |m| && 0 <= j < cols => m[i][j]);
  }

  /** a[i, :] = row: overwrites row i and nothing else. */
  method SetRow(a: array2<real>, i: nat, row: Vector)
    requires i < a.Length0 && |row| == a.Length1
    modifies a
    ensures forall x, y :: 0 <= x < a.Length0 && 0 <= y < a.Length1 ==>
      a[x, y] == if x == i then row[y] else old(a[x, y])
  {
    for j := 0 to a.Length1
      invariant forall x, y :: 0 <= x < a.Length0 && 0 <= y < a.Length1 ==>
        a[x, y] == if x == i && y < j then row[y] else old(a[x, y])
    {
      a[i, j] := row[j];
    }
  }

  /** a[:, j] = column: overwrites column j and nothing else. */
  method SetColumn(a: array2<real>, j: nat, column: Vector)
    requires j < a.Length1 && |column| == a.Length0
    modifies a
    ensures forall x, y :: 0 <= x < a.Length0 && 0 <= y < a.Length1 ==>
      a[x, y] == if y == j then column[x] else old(a[x, y])
  {
    for i := 0 to a.Length0
      invariant forall x, y :: 0 <= x < a.Length0 && 0 <= y < a.Length1 ==>
        a[x, y] == if y == j && x < i then column[x] else old(a[x, y])
    {
      a[i, j] := column[i];
    }
  }

  /** v /= d on an array, entry by entry. */
  method DivideInPlace(a: array<real>, d: real)
    requires d != 0.0
    modifies a
    ensures a[..] == Divide(old(a[..]), d)
  {
    for i := 0 to a.Length
      invariant forall k :: 0 <= k < a.Length ==> a[k] == if k < i then old(a[k]) / d else old(a[k])
    {
      a[i] := a[i] / d;
    }
  }

  /** Two matrices of the same shape that agree entry by entry are equal. */
  lemma MatrixEquality(a: Matrix, b: Matrix, rows: nat, cols: nat)
    requires IsMatrix(a, rows, cols) && IsMatrix(b, rows, cols)
    requires forall i, j :: 0 <= i < rows && 0 <= j < cols ==> a[i][j] == b[i][j]
    ensures a == b
  {
    forall i | 0 <= i < rows
      ensures a[i] == b[i]
    {
      assert forall j :: 0 <= j < cols ==> a[i][j] == b[i][j];
    }
  }

  lemma {:induction false} SumAppend(a: Vector, x: real)
    ensures Sum(a + [x]) == Sum(a) + x
  {
    assert (a + [x])[..|a|] == a;
  }

  lemma SumPair(a: real, b: real)
    ensures Sum([a, b]) == a + b
  {
    assert Sum([a]) == a by {
      assert [a][..0] == [];
    }
    assert [a, b][..1] == [a];
  }

  lemma {:induction false} SumConcat(a: Vector, b: Vector)
    ensures Sum(a + b) == Sum(a) + Sum(b)
    decreases |b|
  {
    if b == [] {
      assert a + b == a;
    } else {
      var b' := b[..|b| - 1];
      assert a + b == (a + b') + [b[|b| - 1]];
      SumAppend(a + b', b[|b| - 1]);
      SumConcat(a, b');
      SumAppend(b', b[|b| - 1]);
      assert b' + [b[|b| - 1]] == b;
    }
  }

  /** Summation is linear: the sum of a pointwise sum. */
  lemma {:induction false} SumAdd(a: Vector, b: Vector)
    requires |a| == |b|
    ensures Sum(Add(a, b)) == Sum(a) + Sum(b)
    decreases |a|
  {
    if a != [] {
      var n := |a| - 1;
      assert Add(a, b)[..n] == Add(a[..n], b[..n]);
      SumAdd(a[..n], b[..n]);
    }
  }

  /** Summation is linear: a factor moves out of the sum. */
  lemma {:induction false} SumScale(k: real, a: Vector)
    ensures Sum(Scale(k, a)) == k * Sum(a)
    decreases |a|
  {
    if a != [] {
      var n := |a| - 1;
      forall i | 0 <= i < n ensures Scale(k, a)[..n][i] == Scale(k, a[..n])[i] {
        assert a[..n][i] == a[i];
      }
      assert Scale(k, a)[..n] == Scale(k, a[..n]);
      SumScale(k, a[..n]);
    }
  }

  /** Dividing every entry divides the sum. */
  lemma {:induction false} SumDivide(a: Vector, d: real)
    requires d != 0.0
    ensures Sum(Divide(a, d)) == Sum(a) / d
    decreases |a|
  {
    if a != [] {
      var n := |a| - 1;
      assert Divide(a, d)[..n] == Divide(a[..n], d);
      SumDivide(a[..n], d);
    }
  }

  lemma {:induction false} SumFill(n: nat, x: real)
    ensures Sum(Fill(n, x)) == n as real * x
  {
    if n > 0 {
      assert Fill(n, x)[..n - 1] == Fill(n - 1, x);
      SumFill(n - 1, x);
    }
  }

  /** The uniform vector is a probability distribution. */
  lemma SumUniform(n: nat)
    requires n > 0
    ensures Sum(Uniform(n)) == 1.0
  {
    SumFill(n, 1.0 / n as real);
  }

  lemma {:induction false} SumNonNegative(a: Vector)
    requires forall i :: 0 <= i < |a| ==> a[i] >= 0.0
    ensures Sum(a) >= 0.0
    decreases |a|
  {
    if a != [] {
      SumNonNegative(a[..|a| - 1]);
    }
  }

  /** The sum of a vector that is zero everywhere is zero. */
  lemma {:induction false} SumZeros(a: Vector)
    requires forall i :: 0 <= i < |a| ==> a[i] == 0.0
    ensures Sum(a) == 0.0
    decreases |a|
  {
    if a != [] {
      SumZeros(a[..|a| - 1]);
    }
  }
}
