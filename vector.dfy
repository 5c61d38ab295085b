/** TDynamicVector<T> with T = int: a fixed-size vector on a heap buffer. */
module DynamicVector {
  import opened Outcomes
  import opened LinAlg

  const MAX_VECTOR_SIZE: nat := 100000000

  const INDEX_ERROR: Error := OutOfRange("Index error")
  const LENGTH_ERROR: Error := LengthError("dif sizes")

  /** The range checks of the sized constructor. */
  function CheckSize(size: nat): (o: Outcome)
    ensures o.Pass? <==> 0 < size <= MAX_VECTOR_SIZE
    ensures o.Fail? ==> o.error.OutOfRange?
  {
    if size == 0 then Fail(OutOfRange("Vector size should be greater than zero"))
    else if size > MAX_VECTOR_SIZE then Fail(OutOfRange("Vector size is too large"))
    else Pass
  }

  /** A fresh buffer holding the first `n` elements of `src`. */
  method CopyBuffer(src: array<int>, n: nat) returns (buf: array<int>)
    requires n <= src.Length
    ensures fresh(buf) && buf[..] == src[..n]
  {
    buf := new int[n];
    for i := 0 to n
      invariant forall k :: 0 <= k < i ==> buf[k] == src[k]
    {
      buf[i] := src[i];
    }
  }

  class Vector {
    var sz: nat
    var pMem: array<int>

    /** The buffer holds exactly `sz` elements. A moved-from vector has size
        0 and a buffer of length 0. */
    ghost predicate Valid()
      reads this
    {
      pMem.Length == sz
    }

    /** The elements, in index order. */
    ghost function Elements(): (s: seq<int>)
      reads this, pMem
      requires Valid()
      ensures |s| == sz
    {
      pMem[..]
    }

    /** The allocation `new T[sz]()` of the sized constructor: every element
        value-initialised. `New` performs the range checks before it. */
    constructor Allocate(size: nat)
      ensures Valid() && fresh(pMem) && sz == size
      ensures Elements() == Zeros(size)
    {
      sz := size;
      pMem := new int[size](_ => 0);
    }

    /** The sized constructor: a range error for size 0 or a size above
        MAX_VECTOR_SIZE, otherwise a vector of `size` zeros. */
    static method New(size: nat) returns (r: Result<Vector>)
      ensures r.Ok? <==> CheckSize(size).Pass?
      ensures r.Err? ==> CheckSize(size) == Fail(r.error)
      ensures r.Ok? ==> fresh(r.value) && fresh(r.value.pMem) && r.value.Valid()
      ensures r.Ok? ==> r.value.sz == size && r.value.Elements() == Zeros(size)
    {
      var check := CheckSize(size);
      if check.Fail? {
        return Err(check.error);
      }
      var v := new Vector.Allocate(size);
      return Ok(v);
    }

    /** The constructor from a raw buffer of `s` elements: a deep copy, with
        no range check on `s`. */
    constructor FromArray(arr: array<int>, s: nat)
      requires s <= arr.Length
      ensures Valid() && fresh(pMem) && sz == s
      ensures Elements() == arr[..s]
    {
      var buf := CopyBuffer(arr, s);
      sz, pMem := s, buf;
    }

    /** The copy constructor: equal elements in a buffer of its own. */
    constructor Copy(v: Vector)
      requires v.Valid()
      ensures Valid() && fresh(pMem) && sz == v.sz
      ensures Elements() == v.Elements()
    {
      var buf := CopyBuffer(v.pMem, v.sz);
      sz, pMem := v.sz, buf;
    }

    /** The move constructor: takes over the size and buffer of `v`, which is
        left with size 0 and no elements. */
    constructor Move(v: Vector)
      modifies v
      ensures sz == old(v.sz) && pMem == old(v.pMem)
      ensures v.Valid() && v.sz == 0 && fresh(v.pMem)
    {
      sz, pMem := v.sz, v.pMem;
      v.sz := 0;
      v.pMem := new int[0];
    }

    /** Copy assignment: the receiver gets a fresh copy of the elements of
        `v`; assigning a vector to itself changes nothing. */
    method CopyAssign(v: Vector)
      requires Valid() && v.Valid()
      modifies this
      ensures Valid() && v.Valid() && sz == old(v.sz)
      ensures Elements() == old(v.Elements()) && v.Elements() == old(v.Elements())
      ensures this == v ==> pMem == old(pMem)
      ensures this != v ==> fresh(pMem)
    {
      if this == v {
        return;
      }
      var buf := CopyBuffer(v.pMem, v.sz);
      sz, pMem := v.sz, buf;
    }

    /** Exchanges the sizes and buffers of two vectors (the friend swap). */
    static method Swap(lhs: Vector, rhs: Vector)
      modifies lhs, rhs
      ensures lhs.sz == old(rhs.sz) && lhs.pMem == old(rhs.pMem)
      ensures rhs.sz == old(lhs.sz) && rhs.pMem == old(lhs.pMem)
    {
      var s := lhs.sz;
      lhs.sz := rhs.sz;
      rhs.sz := s;
      var p := lhs.pMem;
      lhs.pMem := rhs.pMem;
      rhs.pMem := p;
    }

    /** Move assignment: exchanges size and buffer with `v`, unless `v` is
        the receiver itself. */
    method MoveAssign(v: Vector)
      modifies this, v
      ensures sz == old(v.sz) && pMem == old(v.pMem)
      ensures v.sz == old(sz) && v.pMem == old(pMem)
    {
      if this != v {
        Swap(this, v);
      }
    }

    function Size(): (n: nat)
      reads this, pMem
      requires Valid()
      ensures n == |Elements()|
    {
      sz
    }

    /** Checked read access, at(ind) and operator[] alike. */
    method At(ind: nat) returns (r: Result<int>)
      requires Valid()
      ensures r.Ok? <==> ind < |Elements()|
      ensures r.Ok? ==> r.value == Elements()[ind]
      ensures r.Err? ==> r.error == INDEX_ERROR
    {
      if ind >= sz {
        return Err(INDEX_ERROR);
      }
      return Ok(pMem[ind]);
    }

    /** Checked write access: assignment through the reference at(ind)
        returns. */
    method SetAt(ind: nat, val: int) returns (o: Outcome)
      requires Valid()
      modifies pMem
      ensures Valid()
      ensures o.Pass? <==> ind < sz
      ensures o.Fail? ==> o.error == INDEX_ERROR
      ensures Elements() == if ind < sz then old(Elements())[ind := val] else old(Elements())
    {
      if ind >= sz {
        return Fail(INDEX_ERROR);
      }
      pMem[ind] := val;
      return Pass;
    }

    /** Equal sizes and equal elements, compared in index order. */
    method Equals(v: Vector) returns (eq: bool)
      requires Valid() && v.Valid()
      ensures eq <==> Elements() == v.Elements()
    {
      if sz != v.sz {
        return false;
      }
      for i := 0 to v.sz
        invariant forall k :: 0 <= k < i ==> pMem[k] == v.pMem[k]
      {
        if pMem[i] != v.pMem[i] {
          assert Elements()[i] != v.Elements()[i];
          return false;
        }
      }
      return true;
    }

    method NotEquals(v: Vector) returns (ne: bool)
      requires Valid() && v.Valid()
      ensures ne <==> Elements() != v.Elements()
    {
      var eq := Equals(v);
      return !eq;
    }

    /** Scalar `+`, `-`, `*`: a new vector with every element combined with
        `val`. Allocating the result re-checks the size, so a vector whose
        size is outside the constructor's range makes them throw. */
    method ScalarOp(op: ArithOp, val: int) returns (r: Result<Vector>)
      requires Valid()
      ensures r.Ok? <==> CheckSize(sz).Pass?
      ensures r.Err? ==> CheckSize(sz) == Fail(r.error)
      ensures r.Ok? ==> fresh(r.value) && fresh(r.value.pMem) && r.value.Valid()
      ensures r.Ok? ==> r.value.Elements() == MapScalar(op, Elements(), val)
    {
      r := New(sz);
      if r.Err? {
        return;
      }
      var buf := r.value.pMem;
      for i := 0 to sz
        modifies buf
        invariant forall k :: 0 <= k < i ==> buf[k] == Apply(op, pMem[k], val)
      {
        buf[i] := Apply(op, pMem[i], val);
      }
      assert buf[..] == MapScalar(op, Elements(), val);
    }

    /** Vector `+` and `-`: a length error when the sizes differ, otherwise a
        new vector of the elementwise results. */
    method ElementwiseOp(op: ArithOp, v: Vector) returns (r: Result<Vector>)
      requires op != Times
      requires Valid() && v.Valid()
      ensures sz != v.sz ==> r == Err(LENGTH_ERROR)
      ensures sz == v.sz ==> (r.Ok? <==> CheckSize(sz).Pass?)
      ensures sz == v.sz && r.Err? ==> CheckSize(sz) == Fail(r.error)
      ensures r.Ok? ==> fresh(r.value) && fresh(r.value.pMem) && r.value.Valid()
      ensures r.Ok? ==> sz == v.sz && r.value.Elements() == Zip(op, Elements(), v.Elements())
    {
      if v.sz != sz {
        return Err(LENGTH_ERROR);
      }
      r := New(sz);
      if r.Err? {
        return;
      }
      var buf := r.value.pMem;
      for i := 0 to sz
        modifies buf
        invariant forall k :: 0 <= k < i ==> buf[k] == Apply(op, pMem[k], v.pMem[k])
      {
        buf[i] := Apply(op, pMem[i], v.pMem[i]);
      }
      assert buf[..] == Zip(op, Elements(), v.Elements());
    }

    /** The dot product: a length error when the sizes differ, otherwise the
        sum of the pairwise products, accumulated left to right from 0. */
    method Dot(v: Vector) returns (r: Result<int>)
      requires Valid() && v.Valid()
      ensures r.Ok? <==> sz == v.sz
      ensures r.Err? ==> r.error == LENGTH_ERROR
      ensures r.Ok? ==> r.value == DotProduct(Elements(), v.Elements())
    {
      if v.sz != sz {
        return Err(LENGTH_ERROR);
      }
      var result := 0;
      for i := 0 to sz
        invariant result == PartialDot(Elements(), v.Elements(), i)
      {
        result := result + pMem[i] * v.pMem[i];
      }
      return Ok(result);
    }
  }

  /** The dot product as declared, `noexcept(noexcept(T()))`, which for
      T = int is `noexcept(true)`: the length error thrown on a size
      mismatch cannot leave the operator and the program terminates. */
  method DotAsWritten(a: Vector, b: Vector) returns (c: Completion<int>)
    requires a.Valid() && b.Valid()
    ensures c.Terminates? <==> a.sz != b.sz
    ensures c.Returns? ==> c.value == DotProduct(a.Elements(), b.Elements())
  {
    var r := a.Dot(b);
    c := Noexcept(r);
  }

  /** A size-2 and a size-3 vector: as written their dot product
      terminates the program; the intended operator throws a length error. */
  method DotMismatchExample() returns (asWritten: Completion<int>, intended: Result<int>)
    ensures asWritten == Terminates
    ensures intended == Err(LengthError("dif sizes"))
  {
    var v := new Vector.Allocate(2);
    var w := new Vector.Allocate(3);
    asWritten := DotAsWritten(v, w);
    intended := v.Dot(w);
  }

  /** Copying `a` and then writing to the copy leaves `a` as it was. */
  method CopyThenWrite(a: Vector, ind: nat, val: int) returns (b: Vector)
    requires a.Valid() && ind < a.sz
    ensures a.Valid() && b.Valid() && b.sz == a.sz
    ensures b.Elements() == a.Elements()[ind := val]
  {
    b := new Vector.Copy(a);
    var eq := b.Equals(a);
    assert eq;
    var o := b.SetAt(ind, val);
  }

  // ------------------------------------------- the index guard as written

  /** size_t arithmetic wraps modulo 2^64. */
  const SIZE_T_MODULUS: nat := 0x1_0000_0000_0000_0000

  /** The guard of at() as written, `ind > sz - 1` in size_t arithmetic
      (the `ind < 0` half is always false for an unsigned index). */
  function IndexGuardAsWritten(sz: nat, ind: nat): (r: bool)
    requires sz < SIZE_T_MODULUS && ind < SIZE_T_MODULUS
    ensures r <==> 0 < sz <= ind
  {
    ind > (sz - 1) % SIZE_T_MODULUS
  }

  /** On a non-empty vector the guard rejects exactly the indices >= sz. */
  lemma IndexGuardAsWrittenNonEmpty(sz: nat, ind: nat)
    requires 0 < sz < SIZE_T_MODULUS && ind < SIZE_T_MODULUS
    ensures IndexGuardAsWritten(sz, ind) <==> ind >= sz
  {
  }

  /** On an empty vector `sz - 1` wraps to 2^64 - 1 and the guard rejects no
      index, although every index is out of range. */
  lemma IndexGuardAsWrittenEmpty(ind: nat)
    requires ind < SIZE_T_MODULUS
    ensures !IndexGuardAsWritten(0, ind)
  {
  }
}
