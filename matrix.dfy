/** TDynamicMatrix<T> with T = int: a square matrix stored as a buffer of
    row vectors. */
module DynamicMatrix {
  import opened Outcomes
  import opened LinAlg
  import opened DynamicVector

  const MAX_MATRIX_SIZE: nat := 10000

  const SIZE_ERROR: Error := OutOfRange("Size error")
  const DIMENSION_ERROR: Error := OutOfRange("dif sizes")

  /** The range checks of the matrix constructor: first those of the
      vector-of-rows base, then its own bound. */
  function CheckDimension(s: nat): (o: Outcome)
    ensures o.Pass? <==> 0 < s <= MAX_MATRIX_SIZE
    ensures o.Fail? ==> o.error.OutOfRange?
  {
    var base := CheckSize(s);
    if base.Fail? then base
    else if s > MAX_MATRIX_SIZE then Fail(OutOfRange("Range Error"))
    else Pass
  }

  class Matrix {
    var sz: nat
    var pMem: array<Vector>
    ghost var Repr: set<object>

    /** `sz` rows, each a vector of length `sz`; no two rows share a vector
        object or a buffer. */
    ghost predicate Valid()
      reads this, Repr
    {
      this in Repr && pMem in Repr && pMem.Length == sz && 0 < sz <= MAX_MATRIX_SIZE &&
      (forall i :: 0 <= i < sz ==>
        pMem[i] in Repr && pMem[i].pMem in Repr && pMem[i].Valid() && pMem[i].sz == sz) &&
      (forall i, j :: 0 <= i < j < sz ==> pMem[i] != pMem[j] && pMem[i].pMem != pMem[j].pMem)
    }

    /** The cells, row by row. */
    ghost function Cells(): (c: seq<seq<int>>)
      reads this, Repr
      requires Valid()
      ensures |c| == sz && Square(c)
      ensures forall i :: 0 <= i < sz ==> c[i] == pMem[i].Elements()
    {
      RowsBelow(sz)
    }

    ghost function RowsBelow(n: nat): (c: seq<seq<int>>)
      reads this, Repr
      requires Valid() && n <= sz
      ensures |c| == n
      ensures forall i :: 0 <= i < n ==> c[i] == pMem[i].Elements()
    {
      if n == 0 then [] else RowsBelow(n - 1) + [pMem[n - 1].Elements()]
    }

    /** The cells are whatever the row buffers hold. */
    lemma CellsOfBuffers(C: seq<seq<int>>)
      requires Valid() && |C| == sz
      requires Square(C) && forall p, q :: 0 <= p < sz && 0 <= q < sz ==> pMem[p].pMem[q] == C[p][q]
      ensures Cells() == C
    {
      forall p | 0 <= p < sz
        ensures Cells()[p] == C[p]
      {
        assert pMem[p].pMem[..] == C[p];
      }
    }

    /** The allocation of the constructor: `s` fresh rows of `s` zeros.
        `New` performs the range checks before it. */
    constructor Allocate(s: nat)
      requires 0 < s <= MAX_MATRIX_SIZE
      ensures Valid() && fresh(Repr) && sz == s
      ensures Cells() == ZeroMatrix(s)
    {
      var rows: seq<Vector> := [];
      ghost var objs: set<object> := {};
      for i := 0 to s
        invariant |rows| == i
        invariant forall o :: o in objs ==> fresh(o)
        invariant forall k :: 0 <= k < i ==>
          rows[k] in objs && rows[k].pMem in objs &&
          rows[k].Valid() && rows[k].sz == s && rows[k].Elements() == Zeros(s)
        invariant forall k, l :: 0 <= k < l < i ==> rows[k] != rows[l] && rows[k].pMem != rows[l].pMem
      {
        var row := new Vector.Allocate(s);
        rows := rows + [row];
        objs := objs + {row, row.pMem};
      }
      sz := s;
      pMem := new Vector[s](i requires 0 <= i < s => rows[i]);
      Repr := {this, pMem} + objs;
      new;
      assert Cells() == ZeroMatrix(s);
    }

    /** The constructor: a range error for size 0 or a size above
        MAX_MATRIX_SIZE, otherwise an all-zero matrix of that size. */
    static method New(s: nat) returns (r: Result<Matrix>)
      ensures r.Ok? <==> CheckDimension(s).Pass?
      ensures r.Err? ==> CheckDimension(s) == Fail(r.error)
      ensures r.Ok? ==> fresh(r.value.Repr) && r.value.Valid() && r.value.sz == s
      ensures r.Ok? ==> r.value.Cells() == ZeroMatrix(s)
    {
      var check := CheckDimension(s);
      if check.Fail? {
        return Err(check.error);
      }
      var m := new Matrix.Allocate(s);
      return Ok(m);
    }

    /** Row access, operator[] of the vector-of-rows base: an index error
        unless `ind < sz`, otherwise the row itself. */
    method Row(ind: nat) returns (r: Result<Vector>)
      requires Valid()
      ensures r.Ok? <==> ind < sz
      ensures r.Ok? ==> r.value == pMem[ind] && r.value.Valid() && r.value.Elements() == Cells()[ind]
      ensures r.Err? ==> r.error == INDEX_ERROR
    {
      if ind >= sz {
        return Err(INDEX_ERROR);
      }
      return Ok(pMem[ind]);
    }

    /** Equality of the vector-of-rows base: equal sizes and equal rows. */
    method Equals(m: Matrix) returns (eq: bool)
      requires Valid() && m.Valid()
      ensures eq <==> Cells() == m.Cells()
    {
      if sz != m.sz {
        return false;
      }
      ghost var A, B := Cells(), m.Cells();
      for i := 0 to sz
        invariant forall k :: 0 <= k < i ==> A[k] == B[k]
      {
        var ne := pMem[i].NotEquals(m.pMem[i]);
        if ne {
          return false;
        }
      }
      assert A == B;
      return true;
    }

    method NotEquals(m: Matrix) returns (ne: bool)
      requires Valid() && m.Valid()
      ensures ne <==> Cells() != m.Cells()
    {
      var eq := Equals(m);
      return !eq;
    }

    /** `pMem[i] = row` for a row vector that is not part of the matrix: the
        row's size and buffer move in by move assignment. */
    method MoveIntoRow(i: nat, row: Vector)
      requires Valid() && i < sz && row.Valid() && row.sz == sz
      requires row !in Repr && row.pMem !in Repr
      modifies this, pMem[i], row
      ensures Valid() && Repr == old(Repr) + {old(row.pMem)}
      ensures Cells() == old(Cells())[i := old(row.Elements())]
    {
      ghost var before := Cells();
      pMem[i].MoveAssign(row);
      Repr := Repr + {pMem[i].pMem};
      assert Valid();
      forall k | 0 <= k < sz
        ensures Cells()[k] == before[i := old(row.Elements())][k]
      {
      }
    }

    /** Matrix times scalar: row i of the result is row i times `val`. */
    method MulScalar(val: int) returns (result: Matrix)
      requires Valid()
      ensures fresh(result.Repr) && result.Valid() && result.sz == sz
      ensures result.Cells() == MatScalar(Times, Cells(), val)
    {
      result := new Matrix.Allocate(sz);
      ghost var A := Cells();
      for i := 0 to sz
        invariant result.Valid() && fresh(result.Repr) && result.sz == sz
        invariant forall k :: 0 <= k < i ==> result.Cells()[k] == MapScalar(Times, A[k], val)
      {
        var row := pMem[i].ScalarOp(Times, val);
        result.MoveIntoRow(i, row.value);
      }
    }

    /** Matrix times vector: a size error unless the vector's length is `sz`;
        otherwise element i of the result is row i dotted with `v`. */
    method MulVector(v: Vector) returns (r: Result<Vector>)
      requires Valid() && v.Valid()
      ensures sz != v.sz ==> r == Err(SIZE_ERROR)
      ensures sz == v.sz ==> r.Ok?
      ensures r.Ok? ==> fresh(r.value) && fresh(r.value.pMem) && r.value.Valid()
      ensures r.Ok? ==> sz == v.sz && r.value.Elements() == MatVec(Cells(), v.Elements())
    {
      if sz != v.sz {
        return Err(SIZE_ERROR);
      }
      ghost var A := Cells();
      r := Vector.New(sz);
      var buf := r.value.pMem;
      for i := 0 to sz
        modifies buf
        invariant forall k :: 0 <= k < i ==> buf[k] == DotProduct(A[k], v.Elements())
      {
        var d := pMem[i].Dot(v);
        buf[i] := d.value;
      }
      assert buf[..] == MatVec(A, v.Elements());
    }

    /** Matrix `+` and `-`: a size error unless the sizes agree; otherwise
        row i of the result is row i of each operand combined elementwise. */
    method ElementwiseOp(op: ArithOp, m: Matrix) returns (r: Result<Matrix>)
      requires op != Times
      requires Valid() && m.Valid()
      ensures sz != m.sz ==> r == Err(DIMENSION_ERROR)
      ensures sz == m.sz ==> r.Ok?
      ensures r.Ok? ==> fresh(r.value.Repr) && r.value.Valid() && r.value.sz == sz
      ensures r.Ok? ==> sz == m.sz && r.value.Cells() == MatZip(op, Cells(), m.Cells())
    {
      if sz != m.sz {
        return Err(DIMENSION_ERROR);
      }
      var result := new Matrix.Allocate(sz);
      ghost var A, B := Cells(), m.Cells();
      for i := 0 to sz
        invariant result.Valid() && fresh(result.Repr) && result.sz == sz
        invariant forall k :: 0 <= k < i ==> result.Cells()[k] == Zip(op, A[k], B[k])
      {
        var row := pMem[i].ElementwiseOp(op, m.pMem[i]);
        result.MoveIntoRow(i, row.value);
      }
      return Ok(result);
    }

    /** Cell [i][j] of the product, written into `row`: first T(), then
        row i of the receiver times column j of `m`, added left to right.
        `A` and `B` are the cells of the two operands. */
    method ProductCell(m: Matrix, i: nat, j: nat, row: array<int>, ghost A: seq<seq<int>>, ghost B: seq<seq<int>>)
      requires Valid() && m.Valid() && sz == m.sz && i < sz && j < sz
      requires A == Cells() && B == m.Cells()
      requires row.Length == sz && row !in Repr && row !in m.Repr
      modifies row
      ensures row[j] == MatMul(A, B)[i][j]
      ensures forall q :: 0 <= q < sz && q != j ==> row[q] == old(row[q])
    {
      ghost var a, b := A[i], Column(B, j);
      row[j] := 0;
      for k := 0 to sz
        invariant row[j] == PartialDot(a, b, k)
        invariant forall q :: 0 <= q < sz && q != j ==> row[q] == old(row[q])
      {
        row[j] := row[j] + pMem[i].pMem[k] * m.pMem[k].pMem[j];
      }
    }

    /** Row i of the product, written into `row` one cell at a time. */
    method ProductRow(m: Matrix, i: nat, row: array<int>, ghost A: seq<seq<int>>, ghost B: seq<seq<int>>)
      requires Valid() && m.Valid() && sz == m.sz && i < sz
      requires A == Cells() && B == m.Cells()
      requires row.Length == sz && row !in Repr && row !in m.Repr
      modifies row
      ensures forall q :: 0 <= q < sz ==> row[q] == MatMul(A, B)[i][q]
    {
      for j := 0 to sz
        invariant forall q :: 0 <= q < j ==> row[q] == MatMul(A, B)[i][q]
      {
        ProductCell(m, i, j, row, A, B);
      }
    }

    /** All rows of the product, written into the buffers of `result`. */
    method ProductRows(m: Matrix, result: Matrix)
      requires Valid() && m.Valid() && result.Valid() && sz == m.sz == result.sz
      requires result.Repr !! Repr && result.Repr !! m.Repr
      modifies set p | 0 <= p < result.sz :: result.pMem[p].pMem
      ensures result.Valid() && result.Cells() == MatMul(Cells(), m.Cells())
    {
      ghost var A, B := Cells(), m.Cells();
      ghost var C := MatMul(A, B);
      for i := 0 to sz
        invariant result.Valid()
        invariant Valid() && m.Valid() && Cells() == A && m.Cells() == B
        invariant forall p, q :: 0 <= p < i && 0 <= q < sz ==> result.pMem[p].pMem[q] == C[p][q]
      {
        var row := result.pMem[i].pMem;
        ProductRow(m, i, row, A, B);
        forall p, q | 0 <= p <= i && 0 <= q < sz
          ensures result.pMem[p].pMem[q] == C[p][q]
        {
          if p == i {
            assert result.pMem[p].pMem == row;
          }
        }
      }
      result.CellsOfBuffers(C);
    }

    /** Matrix product: a size error unless the sizes agree; otherwise cell
        [i][j] is row i of the receiver dotted with column j of `m`. */
    method Mul(m: Matrix) returns (r: Result<Matrix>)
      requires Valid() && m.Valid()
      ensures sz != m.sz ==> r == Err(DIMENSION_ERROR)
      ensures sz == m.sz ==> r.Ok?
      ensures r.Ok? ==> fresh(r.value.Repr) && r.value.Valid() && r.value.sz == sz
      ensures r.Ok? ==> sz == m.sz && r.value.Cells() == MatMul(Cells(), m.Cells())
    {
      if sz != m.sz {
        return Err(DIMENSION_ERROR);
      }
      var result := new Matrix.Allocate(sz);
      ProductRows(m, result);
      return Ok(result);
    }
  }
}
