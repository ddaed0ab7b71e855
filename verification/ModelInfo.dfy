/** Tensor declarations of a model-info file: scalar sizes, axis checks, exact byte sizes and image layouts. */
module ModelInfo {
  import opened Common

  datatype ScalarType =
    | Float16 | Float64 | Float32 | Int8 | Int16 | Int32 | Int64 | Uint8 | Uint16 | Uint32 | Uint64
  {
    /** Bytes per element. */
    function Size(): (n: nat)
      ensures 1 <= n <= 8
    {
      match this
      case Int8 | Uint8 => 1
      case Float16 | Int16 | Uint16 => 2
      case Float32 | Int32 | Uint32 => 4
      case Float64 | Int64 | Uint64 => 8
    }
  }

  /** Declared axes are positive sizes or the wildcard -1. */
  datatype TensorDescription = TensorDescription(dataType: ScalarType, dims: seq<int>, ranges: seq<(real, real)>)

  datatype ShapeError = AxesMismatch | BadAxis | TooLarge

  // ---------------------------------------------------------------- exact sizes

  predicate ValidAxis(dim: nat) { 1 <= dim <= I32_MAX }

  predicate ValidAxes(dims: seq<nat>) {
    dims != [] && forall i :: 0 <= i < |dims| ==> ValidAxis(dims[i])
  }

  /** The left fold of checked multiplications; it stops at the first product beyond `usize`. */
  function CheckedProduct(size: nat, dims: seq<nat>): Option<nat>
    decreases |dims|
  {
    if dims == [] then Some(size)
    else if size * dims[0] > USIZE_MAX then None
    else CheckedProduct(size * dims[0], dims[1..])
  }

  function TensorByteSize(dims: seq<nat>, dataType: ScalarType): Result<nat, ShapeError> {
    if !ValidAxes(dims) then Err(BadAxis)
    else
      var size := CheckedProduct(dataType.Size(), dims);
      if size.Some? && size.value <= ISIZE_MAX then Ok(size.value) else Err(TooLarge)
  }

  predicate AxisMatches(declared: int, actual: nat) {
    declared == -1 || declared == actual
  }

  predicate AxesMatch(declared: seq<int>, dims: seq<nat>) {
    |dims| == |declared| && forall i :: 0 <= i < |dims| ==> AxisMatches(declared[i], dims[i])
  }

  function ValidateDims(declared: TensorDescription, dims: seq<nat>): Result<nat, ShapeError> {
    if !AxesMatch(declared.dims, dims) then Err(AxesMismatch) else TensorByteSize(dims, declared.dataType)
  }

  /** The unbounded product. */
  function Product(dims: seq<nat>): nat {
    if dims == [] then 1 else dims[0] * Product(dims[1..])
  }

  lemma {:induction false} ProductPositive(dims: seq<nat>)
    requires forall i :: 0 <= i < |dims| ==> dims[i] >= 1
    ensures Product(dims) >= 1
  {
    if dims != [] {
      ProductPositive(dims[1..]);
      Grows(Product(dims[1..]), dims[0]);
    }
  }

  lemma Grows(a: nat, b: nat)
    requires b >= 1
    ensures b * a >= a && a * b == b * a
  {
  }

  lemma Associate(a: nat, b: nat, c: nat)
    ensures a * b * c == a * (b * c)
  {
  }

  /** No intermediate overflow hides a product that would have fitted. */
  lemma {:induction false} CheckedProductIsExact(size: nat, dims: seq<nat>)
    requires forall i :: 0 <= i < |dims| ==> dims[i] >= 1
    requires size <= USIZE_MAX
    ensures CheckedProduct(size, dims) ==
            if size * Product(dims) <= USIZE_MAX then Some(size * Product(dims)) else None
    decreases |dims|
  {
    if dims != [] {
      var next, rest := size * dims[0], Product(dims[1..]);
      Associate(size, dims[0], rest);
      ProductPositive(dims[1..]);
      Grows(next, rest);
      if next <= USIZE_MAX {
        CheckedProductIsExact(next, dims[1..]);
      }
    }
  }

  /** Validation succeeds exactly when the axes match, each is a positive 32-bit size, and the true byte product
      fits an allocation; it then returns that product. */
  lemma ValidateDimsIff(declared: TensorDescription, dims: seq<nat>)
    ensures var bytes := declared.dataType.Size() * Product(dims);
            var matching := |dims| == |declared.dims|
                            && forall i :: 0 <= i < |dims| ==> declared.dims[i] == -1 || declared.dims[i] == dims[i];
            var positive := dims != [] && forall i :: 0 <= i < |dims| ==> 1 <= dims[i] <= I32_MAX;
            ValidateDims(declared, dims) ==
              if !matching then Err(AxesMismatch)
              else if !positive then Err(BadAxis)
              else if bytes <= ISIZE_MAX then Ok(bytes)
              else Err(TooLarge)
  {
    if ValidAxes(dims) {
      CheckedProductIsExact(declared.dataType.Size(), dims);
    }
  }

  // ---------------------------------------------------------------- the declaration-time check

  /** What dimension parsing lets through. */
  predicate ParsedDims(dims: seq<int>) {
    dims != [] && forall i :: 0 <= i < |dims| ==> dims[i] == -1 || 1 <= dims[i] <= I32_MAX
  }

  function Minimum(dims: seq<int>): (m: seq<nat>)
    ensures |m| == |dims|
  {
    seq(|dims|, i requires 0 <= i < |dims| => if dims[i] >= 0 then dims[i] else 1)
  }

  /** Unknown axes are at least one: the declaration is rejected when even its smallest shape has no size. */
  function CheckDeclaration(t: TensorDescription): Result<nat, ShapeError> {
    TensorByteSize(Minimum(t.dims), t.dataType)
  }

  predicate Below(a: seq<nat>, b: seq<nat>) {
    |a| == |b| && forall i :: 0 <= i < |a| ==> a[i] <= b[i]
  }

  lemma {:induction false} ProductMonotone(a: seq<nat>, b: seq<nat>)
    requires Below(a, b)
    ensures Product(a) <= Product(b)
  {
    if a != [] {
      ProductMonotone(a[1..], b[1..]);
      ScaleBoth(a[0], b[0], Product(a[1..]), Product(b[1..]));
    }
  }

  lemma ScaleBoth(a: nat, b: nat, c: nat, d: nat)
    requires a <= b && c <= d
    ensures a * c <= b * d
  {
    assert a * c <= b * c && b * c <= b * d;
  }

  lemma SmallestShapeValidates(t: TensorDescription)
    requires ParsedDims(t.dims) && CheckDeclaration(t).Ok?
    ensures ValidateDims(t, Minimum(t.dims)) == CheckDeclaration(t)
  {
  }

  lemma ShapeImpliesDeclaration(t: TensorDescription, dims: seq<nat>)
    requires ParsedDims(t.dims) && ValidateDims(t, dims).Ok?
    ensures CheckDeclaration(t).Ok? && CheckDeclaration(t).value <= ValidateDims(t, dims).value
  {
    var least := Minimum(t.dims);
    forall i | 0 <= i < |least| ensures least[i] <= dims[i] && ValidAxis(least[i]) {
      assert AxisMatches(t.dims[i], dims[i]) && ValidAxis(dims[i]);
    }
    ProductMonotone(least, dims);
    ScaleBoth(t.dataType.Size(), t.dataType.Size(), Product(least), Product(dims));
    ValidateDimsIff(t, dims);
    CheckedProductIsExact(t.dataType.Size(), least);
  }

  /** A declaration passes exactly when some concrete shape validates against it. */
  lemma DeclarationIff(t: TensorDescription)
    requires ParsedDims(t.dims)
    ensures CheckDeclaration(t).Ok? <==> exists dims :: ValidateDims(t, dims).Ok?
  {
    if CheckDeclaration(t).Ok? {
      SmallestShapeValidates(t);
      assert ValidateDims(t, Minimum(t.dims)).Ok?;
    }
    forall dims | ValidateDims(t, dims).Ok? ensures CheckDeclaration(t).Ok? {
      ShapeImpliesDeclaration(t, dims);
    }
  }

  // ---------------------------------------------------------------- image layouts

  datatype ImageLayout = ImageLayout(channelsFirst: bool, height: nat, width: nat)

  /** Unit leading dimensions followed by 3,H,W or H,W,3. */
  function LayoutOf(dims: seq<int>): Option<ImageLayout> {
    if |dims| < 4 then None
    else
      var split := |dims| - 3;
      var (a, b, c) := (dims[split], dims[split + 1], dims[split + 2]);
      if exists i :: 0 <= i < split && dims[i] != 1 then None
      else if a == 3 && c != 3 then (if b >= 0 && c >= 0 then Some(ImageLayout(true, b, c)) else None)
      else if c == 3 && a != 3 then (if a >= 0 && b >= 0 then Some(ImageLayout(false, a, b)) else None)
      else None
  }

  predicate OnesThen(dims: seq<int>, ones: nat, rest: seq<int>) {
    |dims| == ones + |rest| && dims[ones..] == rest && forall i :: 0 <= i < ones ==> dims[i] == 1
  }

  /** A layout is found exactly for one or more unit axes followed by 3, height, width, or by height, width, 3; when
      both could be meant there is none. */
  lemma LayoutIff(dims: seq<int>, height: nat, width: nat)
    ensures LayoutOf(dims) == Some(ImageLayout(true, height, width)) <==>
              width != 3 && exists ones: nat :: ones >= 1 && OnesThen(dims, ones, [3, height, width])
    ensures LayoutOf(dims) == Some(ImageLayout(false, height, width)) <==>
              height != 3 && exists ones: nat :: ones >= 1 && OnesThen(dims, ones, [height, width, 3])
  {
    if |dims| >= 4 {
      var split := |dims| - 3;
      assert dims[split..] == [dims[split], dims[split + 1], dims[split + 2]];
      if forall i :: 0 <= i < split ==> dims[i] == 1 {
        assert OnesThen(dims, split, dims[split..]);
      }
    }
  }

  /** A layout accounts for every value of the tensor. */
  lemma LayoutCoversTensor(dims: seq<int>)
    requires LayoutOf(dims).Some?
    ensures forall i :: 0 <= i < |dims| ==> dims[i] >= 0
    ensures var l := LayoutOf(dims).value; Product(Minimum(dims)) == 3 * (l.width * l.height)
  {
    var split := |dims| - 3;
    var m := Minimum(dims);
    DropUnits(m, split);
    ProductOfThree(m[split..]);
    var (a, b, c) := (m[split], m[split + 1], m[split + 2]);
    if a == 3 {
      assert Product(m) == 3 * (b * c);
    } else {
      RotateThree(a, b);
    }
  }

  lemma RotateThree(a: nat, b: nat)
    ensures a * (b * 3) == 3 * (b * a)
  {
  }

  lemma ProductOfThree(d: seq<nat>)
    requires |d| == 3
    ensures Product(d) == d[0] * (d[1] * d[2])
  {
    assert d[1..][1..] == [d[2]];
    assert Product([d[2]]) == d[2] * Product([d[2]][1..]) == d[2];
  }

  lemma {:induction false} DropUnits(m: seq<nat>, n: nat)
    requires n <= |m| && forall i :: 0 <= i < n ==> m[i] == 1
    ensures Product(m) == Product(m[n..])
    decreases n
  {
    if n == 0 {
      assert m[0..] == m;
    } else {
      DropUnits(m[1..], n - 1);
      assert m[1..][n - 1..] == m[n..];
    }
  }
}
