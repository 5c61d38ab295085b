/** The mathematical meaning of the container operations, over sequences of
    integers (a vector) and sequences of rows (a square matrix), and the
    algebraic facts that relate them. */
module LinAlg {

  /** The element operators the containers lift: `+`, `-` and `*` on T. */
  datatype ArithOp = Plus | Minus | Times

  function Apply(op: ArithOp, x: int, y: int): int
  {
    match op
    case Plus => x + y
    case Minus => x - y
    case Times => x * y
  }

  /** `n` value-initialised elements (T() is 0 for integers). */
  function Zeros(n: nat): seq<int>
  {
    seq(n, _ => 0)
  }

  /** Every element of `a` combined with the scalar `k`. */
  function MapScalar(op: ArithOp, a: seq<int>, k: int): seq<int>
  {
    seq(|a|, i requires 0 <= i < |a| => Apply(op, a[i], k))
  }

  /** Corresponding elements of `a` and `b` combined. */
  function Zip(op: ArithOp, a: seq<int>, b: seq<int>): seq<int>
    requires |a| == |b|
  {
    seq(|a|, i requires 0 <= i < |a| => Apply(op, a[i], b[i]))
  }

  /** The sum of a[i] * b[i] over i < n, accumulated left to right from 0. */
  function PartialDot(a: seq<int>, b: seq<int>, n: nat): int
    requires n <= |a| && n <= |b|
  {
    if n == 0 then 0 else PartialDot(a, b, n - 1) + a[n - 1] * b[n - 1]
  }

  function DotProduct(a: seq<int>, b: seq<int>): int
    requires |a| == |b|
  {
    PartialDot(a, b, |a|)
  }

  /** The unit vector of length n with its 1 at position k. */
  function Unit(n: nat, k: nat): seq<int>
  {
    seq(n, i => if i == k then 1 else 0)
  }

  // ---------------------------------------------------------------- matrices

  /** `A` has as many rows as columns. */
  predicate Square(A: seq<seq<int>>)
  {
    forall i :: 0 <= i < |A| ==> |A[i]| == |A|
  }

  function ZeroMatrix(n: nat): seq<seq<int>>
  {
    seq(n, _ => Zeros(n))
  }

  function Identity(n: nat): seq<seq<int>>
  {
    seq(n, i requires 0 <= i < n => Unit(n, i))
  }

  function Column(B: seq<seq<int>>, j: nat): seq<int>
    requires forall i :: 0 <= i < |B| ==> j < |B[i]|
  {
    seq(|B|, i requires 0 <= i < |B| => B[i][j])
  }

  /** Every row combined with the scalar `k`. */
  function MatScalar(op: ArithOp, A: seq<seq<int>>, k: int): seq<seq<int>>
  {
    seq(|A|, i requires 0 <= i < |A| => MapScalar(op, A[i], k))
  }

  /** Corresponding cells of `A` and `B` combined. */
  function MatZip(op: ArithOp, A: seq<seq<int>>, B: seq<seq<int>>): seq<seq<int>>
    requires |A| == |B| && forall i :: 0 <= i < |A| ==> |A[i]| == |B[i]|
  {
    seq(|A|, i requires 0 <= i < |A| => Zip(op, A[i], B[i]))
  }

  /** Element i is the dot product of row i with `v`. */
  function MatVec(A: seq<seq<int>>, v: seq<int>): seq<int>
    requires forall i :: 0 <= i < |A| ==> |A[i]| == |v|
  {
    seq(|A|, i requires 0 <= i < |A| => DotProduct(A[i], v))
  }

  /** Cell [i][j] is the dot product of row i of `A` with column j of `B`. */
  function MatMul(A: seq<seq<int>>, B: seq<seq<int>>): seq<seq<int>>
    requires Square(A) && Square(B) && |A| == |B|
  {
    seq(|A|, i requires 0 <= i < |A| =>
      seq(|A|, j requires 0 <= j < |A| => DotProduct(A[i], Column(B, j))))
  }

  // ------------------------------------------------------------------ lemmas

  /** Subtracting what was added gives the original vector back. */
  lemma ScalarPlusMinus(a: seq<int>, k: int)
    ensures MapScalar(Minus, MapScalar(Plus, a, k), k) == a
  {
  }

  lemma ZipPlusMinus(a: seq<int>, b: seq<int>)
    requires |a| == |b|
    ensures |Zip(Plus, a, b)| == |b|
    ensures Zip(Minus, Zip(Plus, a, b), b) == a
  {
  }

  /** The dot product does not depend on the order of its operands. */
  lemma {:induction false} PartialDotSymmetric(a: seq<int>, b: seq<int>, n: nat)
    requires n <= |a| && n <= |b|
    ensures PartialDot(a, b, n) == PartialDot(b, a, n)
  {
    if n > 0 {
      PartialDotSymmetric(a, b, n - 1);
    }
  }

  lemma {:induction false} DotSymmetric(a: seq<int>, b: seq<int>)
    requires |a| == |b|
    ensures DotProduct(a, b) == DotProduct(b, a)
  {
    PartialDotSymmetric(a, b, |a|);
  }

  /** The dot product is additive in its left operand (and, for `-`,
      subtractive). */
  lemma {:induction false} PartialDotZip(op: ArithOp, a: seq<int>, b: seq<int>, c: seq<int>, n: nat)
    requires op != Times && |a| == |b| && n <= |a| && n <= |c|
    ensures PartialDot(Zip(op, a, b), c, n) == Apply(op, PartialDot(a, c, n), PartialDot(b, c, n))
  {
    if n > 0 {
      PartialDotZip(op, a, b, c, n - 1);
      var x, y, z := a[n - 1], b[n - 1], c[n - 1];
      assert Apply(op, x, y) * z == Apply(op, x * z, y * z) by {
        if op == Plus { assert (x + y) * z == x * z + y * z; }
        else { assert (x - y) * z == x * z - y * z; }
      }
    }
  }

  lemma {:induction false} DotZip(op: ArithOp, a: seq<int>, b: seq<int>, c: seq<int>)
    requires op != Times && |a| == |b| == |c|
    ensures |Zip(op, a, b)| == |c|
    ensures DotProduct(Zip(op, a, b), c) == Apply(op, DotProduct(a, c), DotProduct(b, c))
  {
    PartialDotZip(op, a, b, c, |a|);
  }

  /** Scaling the left operand scales the dot product. */
  lemma {:induction false} PartialDotScale(a: seq<int>, k: int, b: seq<int>, n: nat)
    requires n <= |a| && n <= |b|
    ensures PartialDot(MapScalar(Times, a, k), b, n) == k * PartialDot(a, b, n)
  {
    if n > 0 {
      PartialDotScale(a, k, b, n - 1);
      var x, y, p := a[n - 1], b[n - 1], PartialDot(a, b, n - 1);
      assert (x * k) * y == k * (x * y);
      assert k * p + k * (x * y) == k * (p + x * y);
    }
  }

  lemma {:induction false} DotScale(a: seq<int>, k: int, b: seq<int>)
    requires |a| == |b|
    ensures |MapScalar(Times, a, k)| == |b|
    ensures DotProduct(MapScalar(Times, a, k), b) == k * DotProduct(a, b)
  {
    PartialDotScale(a, k, b, |a|);
  }

  /** A unit vector picks one element out of the other operand. */
  lemma {:induction false} PartialDotUnit(k: nat, v: seq<int>, n: nat)
    requires n <= |v|
    ensures PartialDot(Unit(|v|, k), v, n) == if k < n then v[k] else 0
  {
    if n > 0 {
      PartialDotUnit(k, v, n - 1);
    }
  }

  lemma {:induction false} DotUnit(k: nat, v: seq<int>)
    requires k < |v|
    ensures DotProduct(Unit(|v|, k), v) == v[k]
  {
    PartialDotUnit(k, v, |v|);
  }

  /** The identity matrix times any vector is that vector. */
  lemma {:induction false} IdentityMatVec(v: seq<int>)
    ensures MatVec(Identity(|v|), v) == v
  {
    var I := Identity(|v|);
    forall i | 0 <= i < |v|
      ensures MatVec(I, v)[i] == v[i]
    {
      DotUnit(i, v);
    }
  }

  lemma {:induction false} IdentityMatMulLeft(B: seq<seq<int>>)
    requires Square(B)
    ensures MatMul(Identity(|B|), B) == B
  {
    var n := |B|;
    var C := MatMul(Identity(n), B);
    forall i | 0 <= i < n
      ensures C[i] == B[i]
    {
      forall j | 0 <= j < n
        ensures C[i][j] == B[i][j]
      {
        DotUnit(i, Column(B, j));
      }
    }
  }

  lemma {:induction false} IdentityMatMulRight(A: seq<seq<int>>)
    requires Square(A)
    ensures MatMul(A, Identity(|A|)) == A
  {
    var n := |A|;
    var I := Identity(n);
    var C := MatMul(A, I);
    forall i | 0 <= i < n
      ensures C[i] == A[i]
    {
      forall j | 0 <= j < n
        ensures C[i][j] == A[i][j]
      {
        assert Column(I, j) == Unit(n, j);
        DotSymmetric(A[i], Unit(n, j));
        DotUnit(j, A[i]);
      }
    }
  }

  /** Matrix×vector distributes over matrix addition and subtraction. */
  lemma {:induction false} MatVecZip(op: ArithOp, A: seq<seq<int>>, B: seq<seq<int>>, v: seq<int>)
    requires op != Times && |A| == |B|
    requires forall i :: 0 <= i < |A| ==> |A[i]| == |v| && |B[i]| == |v|
    ensures MatVec(MatZip(op, A, B), v) == Zip(op, MatVec(A, v), MatVec(B, v))
  {
    forall i | 0 <= i < |A|
      ensures MatVec(MatZip(op, A, B), v)[i] == Zip(op, MatVec(A, v), MatVec(B, v))[i]
    {
      DotZip(op, A[i], B[i], v);
    }
  }

  /** Scaling a matrix scales every product with it. */
  lemma {:induction false} MatVecScale(A: seq<seq<int>>, k: int, v: seq<int>)
    requires forall i :: 0 <= i < |A| ==> |A[i]| == |v|
    ensures MatVec(MatScalar(Times, A, k), v) == MapScalar(Times, MatVec(A, v), k)
  {
    forall i | 0 <= i < |A|
      ensures MatVec(MatScalar(Times, A, k), v)[i] == MapScalar(Times, MatVec(A, v), k)[i]
    {
      DotScale(A[i], k, v);
    }
  }

  lemma MatZipPlusMinus(A: seq<seq<int>>, B: seq<seq<int>>)
    requires |A| == |B| && forall i :: 0 <= i < |A| ==> |A[i]| == |B[i]|
    ensures MatZip(Minus, MatZip(Plus, A, B), B) == A
  {
    forall i | 0 <= i < |A|
      ensures MatZip(Minus, MatZip(Plus, A, B), B)[i] == A[i]
    {
      ZipPlusMinus(A[i], B[i]);
    }
  }

  lemma {:induction false} PartialDotZeros(v: seq<int>, n: nat)
    requires n <= |v|
    ensures PartialDot(Zeros(|v|), v, n) == 0
  {
    if n > 0 {
      PartialDotZeros(v, n - 1);
    }
  }

  /** The rows of `B` weighted by the first n elements of `a` and summed:
      row `a` of a product with `B`, accumulated over n of its terms. */
  function WeightedRows(a: seq<int>, B: seq<seq<int>>, n: nat): seq<int>
    requires Square(B) && |a| == |B| && n <= |B|
  {
    seq(|B|, j requires 0 <= j < |B| => PartialDot(a, Column(B, j), n))
  }

  lemma {:induction false} WeightedRowsDot(a: seq<int>, B: seq<seq<int>>, v: seq<int>, n: nat)
    requires Square(B) && |a| == |B| == |v| && n <= |B|
    ensures DotProduct(WeightedRows(a, B, n), v) == PartialDot(a, MatVec(B, v), n)
  {
    var N := |B|;
    if n == 0 {
      assert WeightedRows(a, B, 0) == Zeros(N);
      PartialDotZeros(v, N);
    } else {
      WeightedRowsDot(a, B, v, n - 1);
      var prev := WeightedRows(a, B, n - 1);
      var row := MapScalar(Times, B[n - 1], a[n - 1]);
      forall j | 0 <= j < N
        ensures WeightedRows(a, B, n)[j] == Zip(Plus, prev, row)[j]
      {
        assert Column(B, j)[n - 1] == B[n - 1][j];
      }
      assert WeightedRows(a, B, n) == Zip(Plus, prev, row);
      DotZip(Plus, prev, row, v);
      DotScale(B[n - 1], a[n - 1], v);
    }
  }

  /** Multiplying by a product is multiplying by its factors in turn. */
  lemma {:induction false} MatMulMatVec(A: seq<seq<int>>, B: seq<seq<int>>, v: seq<int>)
    requires Square(A) && Square(B) && |A| == |B| == |v|
    ensures MatVec(MatMul(A, B), v) == MatVec(A, MatVec(B, v))
  {
    var C := MatMul(A, B);
    forall i | 0 <= i < |A|
      ensures MatVec(C, v)[i] == MatVec(A, MatVec(B, v))[i]
    {
      assert C[i] == WeightedRows(A[i], B, |B|);
      WeightedRowsDot(A[i], B, v, |B|);
    }
  }

  /** [1,2,3] · [4,5,6] == 32 */
  lemma DotExample()
    ensures DotProduct([1, 2, 3], [4, 5, 6]) == 32
  {
  }

  /** [[1,2],[3,4]] × [[5,6],[7,8]] == [[19,22],[43,50]] */
  lemma MatMulExample()
    ensures Square([[1, 2], [3, 4]]) && Square([[5, 6], [7, 8]])
    ensures MatMul([[1, 2], [3, 4]], [[5, 6], [7, 8]]) == [[19, 22], [43, 50]]
  {
    var A, B := [[1, 2], [3, 4]], [[5, 6], [7, 8]];
    assert Column(B, 0) == [5, 7] && Column(B, 1) == [6, 8];
    assert DotProduct(A[0], [5, 7]) == 19 && DotProduct(A[0], [6, 8]) == 22;
    assert DotProduct(A[1], [5, 7]) == 43 && DotProduct(A[1], [6, 8]) == 50;
    var C := MatMul(A, B);
    assert C[0] == [19, 22] && C[1] == [43, 50];
  }
}
