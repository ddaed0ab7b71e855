/** Decoding a tensor's little-endian bytes into typed values, and back. Floating-point values are their bit
    patterns. */
module TensorValues {
  import opened Common
  import opened ModelInfo

  // ---------------------------------------------------------------- little-endian words

  function Pow256(k: nat): (p: nat)
    ensures p >= 1
  {
    if k == 0 then 1 else 256 * Pow256(k - 1)
  }

  function FromLe(b: Bytes): nat {
    if b == [] then 0 else b[0] as nat + 256 * FromLe(b[1..])
  }

  function ToLe(k: nat, n: nat): (b: Bytes)
    ensures |b| == k
  {
    if k == 0 then [] else [(n % 256) as byte] + ToLe(k - 1, n / 256)
  }

  /** Reading k bytes gives a number below 256^k whose writing is those bytes. */
  lemma {:induction false} LeRoundTrip(b: Bytes)
    ensures FromLe(b) < Pow256(|b|) && ToLe(|b|, FromLe(b)) == b
  {
    if b != [] {
      LeRoundTrip(b[1..]);
      var rest := FromLe(b[1..]);
      assert FromLe(b) % 256 == b[0] as nat && FromLe(b) / 256 == rest;
      assert b == [b[0]] + b[1..];
    }
  }

  /** Writing a number below 256^k and reading it gives it back. */
  lemma {:induction false} LeInverse(k: nat, n: nat)
    requires n < Pow256(k)
    ensures FromLe(ToLe(k, n)) == n
  {
    if k > 0 {
      LeInverse(k - 1, n / 256);
      var b := ToLe(k, n);
      assert b[1..] == ToLe(k - 1, n / 256);
    }
  }

  /** Each further byte weighs 256 times as much as the one before it. */
  lemma {:induction false} LeAppend(b: Bytes, high: byte)
    ensures FromLe(b + [high]) == FromLe(b) + high as nat * Pow256(|b|)
  {
    if b == [] {
      assert b + [high] == [high] && [high][1..] == [];
    } else {
      LeAppend(b[1..], high);
      assert (b + [high])[1..] == b[1..] + [high];
      assert 256 * (high as nat * Pow256(|b| - 1)) == high as nat * Pow256(|b|);
    }
  }

  // ---------------------------------------------------------------- one value

  predicate Signed(t: ScalarType) { t.Int8? || t.Int16? || t.Int32? || t.Int64? }

  predicate InRange(t: ScalarType, v: int) {
    var full: int := Pow256(t.Size());
    if Signed(t) then -full <= 2 * v < full else 0 <= v < full
  }

  /** Two's complement for the signed types. */
  function FromBits(t: ScalarType, bits: nat): int {
    var full: int := Pow256(t.Size());
    if Signed(t) && 2 * bits >= full then bits - full else bits
  }

  function ToBits(t: ScalarType, v: int): nat
    requires InRange(t, v)
  {
    if v < 0 then v + Pow256(t.Size()) else v
  }

  /** The range of each type by its name; floating-point types hold their bit patterns. */
  lemma RangesByName(t: ScalarType, v: int)
    ensures InRange(t, v) <==>
              match t
              case Int8 => -0x80 <= v <= 0x7F
              case Uint8 => 0 <= v <= 0xFF
              case Int16 => -0x8000 <= v <= 0x7FFF
              case Uint16 | Float16 => 0 <= v <= 0xFFFF
              case Int32 => -0x8000_0000 <= v <= 0x7FFF_FFFF
              case Uint32 | Float32 => 0 <= v <= 0xFFFF_FFFF
              case Int64 => -0x8000_0000_0000_0000 <= v <= 0x7FFF_FFFF_FFFF_FFFF
              case Uint64 | Float64 => 0 <= v <= 0xFFFF_FFFF_FFFF_FFFF
  {
    assert Pow256(1) == 0x100 && Pow256(2) == 0x1_0000 && Pow256(3) == 0x100_0000 && Pow256(4) == 0x1_0000_0000;
    assert Pow256(5) == 0x100_0000_0000 && Pow256(6) == 0x1_0000_0000_0000 && Pow256(7) == 0x100_0000_0000_0000;
    assert Pow256(8) == 0x1_0000_0000_0000_0000;
  }

  /** A value is the one in range that differs from its bits by nothing or by the whole width. */
  lemma BitsRoundTrip(t: ScalarType, bits: nat)
    requires bits < Pow256(t.Size())
    ensures InRange(t, FromBits(t, bits)) && ToBits(t, FromBits(t, bits)) == bits
    ensures FromBits(t, bits) == bits || FromBits(t, bits) == bits - Pow256(t.Size())
  {
  }

  lemma BitsInverse(t: ScalarType, v: int)
    requires InRange(t, v)
    ensures ToBits(t, v) < Pow256(t.Size()) && FromBits(t, ToBits(t, v)) == v
  {
  }

  // ---------------------------------------------------------------- whole tensors

  datatype OwnedTensor = OwnedTensor(description: TensorDescription, dims: seq<nat>, bytes: Bytes)

  datatype Values = Values(dataType: ScalarType, items: seq<int>)

  datatype DecodeError = Shape(error: ShapeError) | ByteCount | PartialElement

  /** The complete elements at the front of the bytes. */
  function Chunks(t: ScalarType, bytes: Bytes): seq<int>
    decreases |bytes|
  {
    if |bytes| < t.Size() then []
    else [FromBits(t, FromLe(bytes[..t.Size()]))] + Chunks(t, bytes[t.Size()..])
  }

  function Decode(tensor: OwnedTensor): Result<Values, DecodeError> {
    var t := tensor.description.dataType;
    var size := ValidateDims(tensor.description, tensor.dims);
    if size.Err? then Err(Shape(size.error))
    else if |tensor.bytes| != size.value then Err(ByteCount)
    else if |tensor.bytes| % t.Size() != 0 then Err(PartialElement)
    else Ok(Values(t, Chunks(t, tensor.bytes)))
  }

  predicate AllInRange(v: Values) {
    forall i :: 0 <= i < |v.items| ==> InRange(v.dataType, v.items[i])
  }

  /** The serialisation used for output tensors: each value's bytes, in order. */
  function Encode(v: Values): Bytes
    requires AllInRange(v)
    decreases |v.items|
  {
    if v.items == [] then []
    else ToLe(v.dataType.Size(), ToBits(v.dataType, v.items[0])) + Encode(Values(v.dataType, v.items[1..]))
  }

  lemma {:induction false} ChunksEncode(t: ScalarType, bytes: Bytes, n: nat)
    requires |bytes| == t.Size() * n
    ensures |Chunks(t, bytes)| == n
    ensures AllInRange(Values(t, Chunks(t, bytes))) && Encode(Values(t, Chunks(t, bytes))) == bytes
    decreases n
  {
    if n > 0 {
      var k := t.Size();
      PeelOne(k, n);
      var head, tail := bytes[..k], bytes[k..];
      ChunksEncode(t, tail, n - 1);
      LeRoundTrip(head);
      BitsRoundTrip(t, FromLe(head));
      var all := Chunks(t, bytes);
      assert all[0] == FromBits(t, FromLe(head)) && all[1..] == Chunks(t, tail);
      forall i | 0 <= i < |all| ensures InRange(t, all[i]) {
        assert i > 0 ==> all[i] == Chunks(t, tail)[i - 1];
      }
      assert bytes == head + tail;
    }
  }

  lemma ItemInside(k: nat, n: nat, i: nat)
    requires i < n
    ensures 0 <= i * k <= i * k + k <= k * n && (i > 0 ==> i * k == (i - 1) * k + k)
  {
    Scaled(i + 1, n, k);
  }

  lemma NextChunks(t: ScalarType, bytes: Bytes, i: nat)
    requires |bytes| >= t.Size() && i < |Chunks(t, bytes[t.Size()..])|
    ensures i + 1 < |Chunks(t, bytes)| && Chunks(t, bytes)[i + 1] == Chunks(t, bytes[t.Size()..])[i]
  {
  }

  lemma ShiftedSlice(bytes: Bytes, k: nat, from: nat)
    requires k + from + k <= |bytes|
    ensures bytes[k..][from..from + k] == bytes[from + k..from + k + k]
  {
  }

  lemma FirstChunk(t: ScalarType, bytes: Bytes)
    requires |bytes| >= t.Size()
    ensures Chunks(t, bytes) != [] && Chunks(t, bytes)[0] == FromBits(t, FromLe(bytes[0..t.Size()]))
  {
    assert bytes[0..t.Size()] == bytes[..t.Size()];
  }

  /** Value by value, in order, each from its own bytes. */
  lemma {:induction false} ChunkAt(t: ScalarType, k: nat, bytes: Bytes, n: nat, i: nat)
    requires k == t.Size() && |bytes| == k * n && i < n
    ensures 0 <= i * k <= i * k + k <= |bytes| && i < |Chunks(t, bytes)|
    ensures Chunks(t, bytes)[i] == FromBits(t, FromLe(bytes[i * k..i * k + k]))
    decreases i
  {
    ItemInside(k, n, i);
    if i == 0 {
      FirstChunk(t, bytes);
    } else {
      PeelOne(k, n);
      ChunkAt(t, k, bytes[k..], n - 1, i - 1);
      NextChunks(t, bytes, i - 1);
      ShiftedSlice(bytes, k, (i - 1) * k);
    }
  }

  lemma PeelOne(k: nat, n: nat)
    requires k >= 1 && n >= 1
    ensures k * n >= k && k * n - k == k * (n - 1)
  {
  }

  /** Decoding succeeds exactly when the shape validates and the bytes have its size, which rules out a partial
      element; it then yields one value for each element of the shape, and encoding them gives the bytes back. */
  lemma DecodeRoundTrip(tensor: OwnedTensor)
    ensures var size := ValidateDims(tensor.description, tensor.dims);
            && (Decode(tensor).Ok? <==> size.Ok? && |tensor.bytes| == size.value)
            && Decode(tensor) != Err(PartialElement)
            && (forall e :: Decode(tensor) == Err(Shape(e)) <==> size == Err(e))
            && (Decode(tensor) == Err(ByteCount) <==> size.Ok? && |tensor.bytes| != size.value)
    ensures Decode(tensor).Ok? ==>
              var v := Decode(tensor).value;
              && v.dataType == tensor.description.dataType
              && |v.items| == Product(tensor.dims)
              && AllInRange(v) && Encode(v) == tensor.bytes
  {
    var t := tensor.description.dataType;
    ValidateDimsIff(tensor.description, tensor.dims);
    if ValidateDims(tensor.description, tensor.dims) == Ok(|tensor.bytes|) {
      WholeElements(t.Size(), Product(tensor.dims));
      ChunksEncode(t, tensor.bytes, Product(tensor.dims));
    }
  }

  lemma DecodedChunks(tensor: OwnedTensor)
    requires Decode(tensor).Ok?
    ensures |tensor.bytes| == tensor.description.dataType.Size() * Product(tensor.dims)
    ensures Decode(tensor).value.items == Chunks(tensor.description.dataType, tensor.bytes)
    ensures |Decode(tensor).value.items| == Product(tensor.dims)
  {
    DecodeRoundTrip(tensor);
    ValidateDimsIff(tensor.description, tensor.dims);
  }

  /** Each decoded value is that of its own bytes, read as a little-endian word. */
  lemma DecodedItems(tensor: OwnedTensor, i: nat)
    requires Decode(tensor).Ok? && i < |Decode(tensor).value.items|
    ensures var (t, k) := (tensor.description.dataType, tensor.description.dataType.Size());
            && 0 <= i * k <= i * k + k <= |tensor.bytes|
            && Decode(tensor).value.items[i] == FromBits(t, FromLe(tensor.bytes[i * k..i * k + k]))
  {
    DecodedChunks(tensor);
    ChunkAt(tensor.description.dataType, tensor.description.dataType.Size(), tensor.bytes,
            Product(tensor.dims), i);
  }

  lemma WholeElements(k: nat, n: nat)
    requires 1 <= k <= 8
    ensures (k * n) % k == 0
  {
  }

  lemma {:induction false} EncodeChunks(v: Values)
    requires AllInRange(v)
    ensures |Encode(v)| == v.dataType.Size() * |v.items| && Chunks(v.dataType, Encode(v)) == v.items
    decreases |v.items|
  {
    if v.items != [] {
      var rest := Values(v.dataType, v.items[1..]);
      var k := v.dataType.Size();
      EncodeChunks(rest);
      PeelOne(k, |v.items|);
      BitsInverse(v.dataType, v.items[0]);
      var word := ToLe(k, ToBits(v.dataType, v.items[0]));
      LeInverse(k, ToBits(v.dataType, v.items[0]));
      assert Encode(v) == word + Encode(rest);
      assert Encode(v)[..k] == word && Encode(v)[k..] == Encode(rest);
      assert v.items == [v.items[0]] + v.items[1..];
    }
  }

  /** Conversely, encoding values that fill a valid shape and decoding the bytes gives the values back. */
  lemma EncodeRoundTrip(v: Values, description: TensorDescription, dims: seq<nat>)
    requires AllInRange(v) && description.dataType == v.dataType
    requires |v.items| == Product(dims) && ValidateDims(description, dims).Ok?
    ensures Decode(OwnedTensor(description, dims, Encode(v))) == Ok(v)
  {
    EncodeChunks(v);
    ValidateDimsIff(description, dims);
    WholeElements(v.dataType.Size(), Product(dims));
  }
}
