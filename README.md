# tmatrix in Dafny

A model of `include/tmatrix.h`, a header-only C++ library with two class templates:

- `TDynamicVector<T>` is a vector of fixed length on a heap buffer. It offers size-checked construction, deep copy, move and swap, bounds-checked indexing, equality, scalar and elementwise arithmetic, and a dot product.
- `TDynamicMatrix<T>` is a square matrix stored as a vector of row vectors. It offers size-checked construction, row indexing, equality, scalar multiply, matrix×vector, and matrix `+`, `-` and `*`.

The element type `T` is `int`.

## Modules

- `outcomes.dfy`, module `Outcomes`. `Error` is a thrown exception: its standard class (`OutOfRange` or `LengthError`) and its message. `Result<T>` and `Outcome` stand for "returns normally" or "throws".
- `linalg.dfy`, module `LinAlg`. This is what the operations mean, over `seq<int>` (a vector) and `seq<seq<int>>` (a matrix, row by row):
  - `MapScalar` and `Zip` lift `+ - *`.
  - `PartialDot` and `DotProduct` give the left-to-right sum of products starting from 0.
  - `MatVec`, `MatZip`, `MatScalar` and `MatMul` are the matrix operations.
  - The lemmas relating these are proved here: inverses, symmetry, linearity, identities, and that the product composes with matrix×vector.
- `vector.dfy`, module `DynamicVector`. `class Vector` has the fields `sz` and `pMem: array<int>`. `Valid()` says the buffer has `sz` elements, and `Elements()` is its contents. Every method states its result or new state through `Elements()` and the `LinAlg` functions.
- `matrix.dfy`, module `DynamicMatrix`. `class Matrix` has the fields `sz` and `pMem: array<Vector>`, plus a ghost footprint `Repr`. `Valid()` requires:
  - `sz` rows, each of length `sz`;
  - no two rows sharing a vector object or a buffer;
  - `0 < sz <= MAX_MATRIX_SIZE`.

  `Cells()` is the contents, row by row.

Exceptions are results, not preconditions. The checked constructors are the static methods `Vector.New` and `Matrix.New`, which return a range error or a fresh object. The default constructors, with `size = 1` and `s = 1`, are `New(1)`. The constructors named `Allocate` are only the allocation step that follows the checks.

Not every vector has a size in `1..MAX_VECTOR_SIZE`. The buffer constructor does not check the size, and the model gives a move-constructed-from vector size 0. Copies and swaps of such a vector carry its size along. Scalar and elementwise arithmetic allocate their result through `New`, as the C++ code constructs `res(sz)`. So on such a vector they throw a range error, because allocating the result re-checks the size.

The dot product is declared `noexcept(noexcept(T()))`, which is `noexcept(true)` for `int`. So the length error it throws on a size mismatch cannot leave it, and the program terminates. `Vector.Dot` models the intended length error. `DotAsWritten` models the termination, and it is listed under Findings.

Matrix `+`, `-` and `*` use the per-row and per-cell algorithms that are commented out in the source. They report a size mismatch as `out_of_range("dif sizes")`. The live bodies recurse without end and are not modelled (see below).

## Model

| member | source | states |
|---|---|---|
| `DynamicVector.CheckSize` | include/tmatrix.h:26-33 | passes exactly for sizes 1..MAX_VECTOR_SIZE (100000000); otherwise an out_of_range error |
| `DynamicVector.Vector.Allocate` | include/tmatrix.h:34 | a fresh buffer of `size` value-initialised (zero) elements |
| `DynamicVector.Vector.New` | include/tmatrix.h:26-35 | a range error exactly when size is 0 or above MAX_VECTOR_SIZE, with the source's message; otherwise a fresh vector of `size` zeros |
| `DynamicVector.Vector.FromArray` | include/tmatrix.h:36-41 | a fresh buffer holding the first `s` elements of the source buffer; the size is not range-checked |
| `DynamicVector.CopyBuffer` | include/tmatrix.h:39-40 | a fresh buffer equal to the first `n` elements of the source |
| `DynamicVector.Vector.Copy` | include/tmatrix.h:42-50 | same size, equal elements, fresh buffer |
| `DynamicVector.Vector.Move` | include/tmatrix.h:51-56 | takes over the size and buffer of the source; the source is left with size 0 and no elements |
| `DynamicVector.Vector.CopyAssign` | include/tmatrix.h:61-77 | the receiver takes the size and elements of `v` in a fresh buffer, and `v` is unchanged; self-assignment keeps the receiver's buffer |
| `DynamicVector.Vector.MoveAssign` | include/tmatrix.h:78-86 | the receiver and `v` exchange size and buffer (nothing changes on self-assignment) |
| `DynamicVector.Vector.Swap` | include/tmatrix.h:207-211 | the two vectors exchange size and buffer |
| `DynamicVector.Vector.Size` | include/tmatrix.h:88 | the size is the number of elements |
| `DynamicVector.Vector.At` | include/tmatrix.h:91-115 | succeeds exactly when `ind < size`, returning element `ind`; any other index is an index error |
| `DynamicVector.Vector.SetAt` | include/tmatrix.h:91-107 | a write through `at(ind)`: an index error when `ind >= size` (nothing changes), otherwise exactly element `ind` becomes `val` |
| `DynamicVector.Vector.Equals` | include/tmatrix.h:118-132 | true exactly when sizes and all elements are equal |
| `DynamicVector.Vector.NotEquals` | include/tmatrix.h:133-136 | the negation of equality |
| `DynamicVector.Vector.ScalarOp` | include/tmatrix.h:139-165 | `v + k`, `v - k`, `v * k`: a fresh vector with element i equal to `v[i] op k`; a range error exactly when the size is outside the constructor's range |
| `DynamicVector.Vector.ElementwiseOp` | include/tmatrix.h:168-193 | `v + w`, `v - w`: a length error when sizes differ, otherwise a fresh vector with element i equal to `v[i] op w[i]` |
| `DynamicVector.Vector.Dot` | include/tmatrix.h:194-205 | a length error when sizes differ, otherwise the sum of `v[i] * w[i]` accumulated left to right from 0 |
| `DynamicVector.CopyThenWrite` | include/tmatrix.h:42-50 | writing to a copy changes only the copy: the copy holds the source's elements with the one write applied, and the source keeps its own elements |
| `DynamicVector.IndexGuardAsWritten` | include/tmatrix.h:102-110 | the at() guard as written, `ind > sz - 1` in size_t arithmetic: it fires exactly when the vector is non-empty and `ind >= sz` |
| `DynamicVector.DotAsWritten` | include/tmatrix.h:194-205 | the dot product as declared `noexcept`: the program terminates exactly when the sizes differ; otherwise it returns the sum of `v[i] * w[i]` |
| `DynamicVector.DotMismatchExample` | include/tmatrix.h:194-199 | a size-2 and a size-3 vector: as written the program terminates, as intended a length error "dif sizes" |
| `DynamicVector.IndexGuardAsWrittenNonEmpty` | include/tmatrix.h:100-107 | on a non-empty vector the guard as written rejects exactly the indices `>= size` |
| `DynamicVector.IndexGuardAsWrittenEmpty` | include/tmatrix.h:100-115 | on an empty vector the guard as written rejects no index |
| `DynamicMatrix.CheckDimension` | include/tmatrix.h:237-242 | passes exactly for sizes 1..MAX_MATRIX_SIZE (10000); the base vector's errors come first, then "Range Error" |
| `DynamicMatrix.Matrix.Allocate` | include/tmatrix.h:243-244 | `s` fresh, distinct rows, each `s` zeros |
| `DynamicMatrix.Matrix.New` | include/tmatrix.h:237-245 | a range error exactly when the size is 0 or above MAX_MATRIX_SIZE; otherwise a fresh all-zero square matrix |
| `DynamicMatrix.Matrix.Row` | include/tmatrix.h:247 | row access through the base's bounds-checked indexing: an index error unless `ind < size`, otherwise the row vector itself |
| `DynamicMatrix.Matrix.Equals` | include/tmatrix.h:250-264 | true exactly when the two matrices have equal sizes and equal rows |
| `DynamicMatrix.Matrix.NotEquals` | include/tmatrix.h:266-269 | the negation of equality |
| `DynamicMatrix.Matrix.MoveIntoRow` | include/tmatrix.h:277 | `result[i] = temporary`: row i takes over the temporary's elements, every other row is unchanged |
| `DynamicMatrix.Matrix.MulScalar` | include/tmatrix.h:272-280 | a fresh matrix whose row i is row i times the scalar |
| `DynamicMatrix.Matrix.MulVector` | include/tmatrix.h:283-294 | a size error when the vector's length differs from the size, otherwise a fresh vector whose element i is row i dotted with the vector |
| `DynamicMatrix.Matrix.ElementwiseOp` | include/tmatrix.h:297-318 | matrix `+` and `-`: a size error when sizes differ, otherwise a fresh matrix with every cell combined |
| `DynamicMatrix.Matrix.ProductCell` | include/tmatrix.h:331-335 | cell [i][j] becomes row i dotted with column j; the other cells of that row are unchanged |
| `DynamicMatrix.Matrix.ProductRow` | include/tmatrix.h:329-336 | row i of the result becomes row i of the product |
| `DynamicMatrix.Matrix.ProductRows` | include/tmatrix.h:327-336 | every row of the result becomes the matching row of the product |
| `DynamicMatrix.Matrix.Mul` | include/tmatrix.h:321-336 | a size error when sizes differ, otherwise a fresh matrix whose cell [i][j] is row i dotted with column j |
| `LinAlg.ScalarPlusMinus` | include/tmatrix.h:139-156 | subtracting a scalar undoes adding it |
| `LinAlg.ZipPlusMinus` | include/tmatrix.h:168-193 | subtracting a vector undoes adding it |
| `LinAlg.DotSymmetric` | include/tmatrix.h:194-205 | the dot product does not depend on operand order |
| `LinAlg.DotZip` | include/tmatrix.h:194-205 | the dot product distributes over vector `+` and `-` |
| `LinAlg.DotScale` | include/tmatrix.h:194-205 | scaling an operand scales the dot product |
| `LinAlg.DotUnit` | include/tmatrix.h:194-205 | a unit vector dotted with `v` picks out one element of `v` |
| `LinAlg.DotExample` | include/tmatrix.h:194-205 | [1,2,3] · [4,5,6] = 32 |
| `LinAlg.IdentityMatVec` | include/tmatrix.h:283-294 | the identity matrix times any vector is that vector |
| `LinAlg.MatVecScale` | include/tmatrix.h:272-294 | (k·A)·v = k·(A·v) |
| `LinAlg.MatVecZip` | include/tmatrix.h:283-318 | (A ± B)·v = A·v ± B·v |
| `LinAlg.MatZipPlusMinus` | include/tmatrix.h:297-318 | matrix subtraction undoes matrix addition |
| `LinAlg.IdentityMatMulLeft` | include/tmatrix.h:321-336 | I·B = B |
| `LinAlg.IdentityMatMulRight` | include/tmatrix.h:321-336 | A·I = A |
| `LinAlg.MatMulMatVec` | include/tmatrix.h:283-336 | (A·B)·v = A·(B·v) |
| `LinAlg.MatMulExample` | include/tmatrix.h:321-336 | [[1,2],[3,4]]·[[5,6],[7,8]] = [[19,22],[43,50]] |

## Left out

- Stream input and output (include/tmatrix.h:214-225 and 342-353) are text I/O and are not modelled.
- The destructor and the explicit `delete[]` (include/tmatrix.h:57-60 and 69) are not modelled. Memory is reclaimed implicitly.
- The buffer constructor's assertion on a null source is not modelled, because a Dafny array is never null. Its requirement that the source holds at least `s` elements is a precondition of `FromArray`. Reading past the source is undefined behaviour in C++.
- DynamicVector.Vector.Move: the source reads the uninitialised `sz` of the new object and swaps it into the moved-from vector. The model gives the moved-from vector size 0.
- The moved-from vector's null buffer is a zero-length array in the model. It holds no elements either way.
- Matrix copy and move construction and assignment are the compiler-generated ones. The source does not declare them, and they are not modelled.
- The live bodies of matrix `+`, `-` and `*` (include/tmatrix.h:307, 319, 338) are not modelled. They call themselves and never terminate, and a non-terminating function cannot be stated here. The intended algorithms commented out above them are modelled instead.
- The matrix constructor's base first allocates `s` rows of length 1, then replaces each one. The model allocates the final rows directly.
- The matrix operations write result cells straight into the row buffers, not through the checked `operator[]`. Those checks always pass, because every index is below `sz`.
- `T` is only `int`, and elements are unbounded integers. Overflow of a fixed-width element type is not modelled, and neither is floating point.
- The `int` loop counters compared with a `size_t` size are not modelled. They could overflow only for a buffer-constructed vector longer than `INT_MAX`.
- Allocation failure (`std::bad_alloc`) is not modelled.
- A row returned by `Row` is the live row object. A caller that swaps or move-assigns a vector of another length into it breaks `Valid()`, and the model assumes no caller does.

## Findings

| source | as written | input that shows it | evidently intended | confidence | as-written member | corrected member |
|---|---|---|---|---|---|---|
| include/tmatrix.h:100-115 | the index guard `ind > sz - 1` is computed in `size_t`; when `sz` is 0, `sz - 1` wraps to 2^64 - 1 and the guard rejects no index | `TDynamicVector<int>(arr, 0).at(0)` reads past a zero-length buffer instead of throwing "Index error"; the same guard passes on a move-constructed-from vector, which has a null buffer | reject every index `>= sz` | high, not executed | `DynamicVector.IndexGuardAsWrittenEmpty` | `DynamicVector.Vector.At` |
| include/tmatrix.h:194-199 | the operator is `noexcept(noexcept(T()))`, true for `int`, so the `length_error` thrown on a size mismatch calls `std::terminate` | a size-2 vector `v` and a size-3 vector `w`: `v * w` terminates the program | a catchable `length_error("dif sizes")`, as the `throw` intends | high, not executed | `DynamicVector.DotMismatchExample` | `DynamicVector.Vector.Dot` |
