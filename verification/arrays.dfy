/** The array reader as the tools see it: a stored variable is a dense array
    of decoded elements in row-major order, and a read selects one half-open
    range per dimension. Chunk decoding, codecs and de-quantisation happen
    inside the file library and are not part of this model. */
module Arrays {
  import opened Wrappers
  import Arith

  /** Exclusive upper bound of an unsigned 64-bit extent. */
  const U64_BOUND: nat := 0x1_0000_0000_0000_0000

  /** The `{:?}` rendering of the library's compression kind. */
  datatype Compression = Compression(name: string)

  /** The `{:?}` rendering of the library's element data type. */
  datatype DataType = DataType(name: string)

  /** A half-open interval [start, end) along one dimension. */
  datatype Range = Range(start: nat, end: nat)

  predicate RangeFits(r: Range, extent: nat) {
    r.start < r.end <= extent
  }

  /** One non-empty in-bounds range per dimension, in the array's axis order. */
  predicate RangesFit(ranges: seq<Range>, dims: seq<nat>) {
    |ranges| == |dims| && forall i :: 0 <= i < |dims| ==> RangeFits(ranges[i], dims[i])
  }

  predicate Ordered(ranges: seq<Range>) {
    forall i :: 0 <= i < |ranges| ==> ranges[i].start <= ranges[i].end
  }

  /** Number of elements of an array of the given shape. */
  function Product(shape: seq<nat>): nat {
    if |shape| == 0 then 1 else shape[0] * Product(shape[1..])
  }

  /** The shape of the block a list of ranges selects. */
  function Extents(ranges: seq<Range>): seq<nat>
    requires Ordered(ranges)
  {
    seq(|ranges|, i requires 0 <= i < |ranges| => ranges[i].end - ranges[i].start)
  }

  /** Position of coordinate `c` in the row-major layout of `shape`. */
  function Offset(shape: seq<nat>, c: seq<nat>): nat
    requires |c| == |shape|
  {
    if |shape| == 0 then 0 else c[0] * Product(shape[1..]) + Offset(shape[1..], c[1..])
  }

  predicate InShape(c: seq<nat>, shape: seq<nat>) {
    |c| == |shape| && forall i :: 0 <= i < |shape| ==> c[i] < shape[i]
  }

  /** Every coordinate inside a shape has an offset inside the array. */
  lemma {:induction false} OffsetInBounds(shape: seq<nat>, c: seq<nat>)
    requires InShape(c, shape)
    ensures Offset(shape, c) < Product(shape)
  {
    if |shape| > 0 {
      var inner := Product(shape[1..]);
      OffsetInBounds(shape[1..], c[1..]);
      Arith.FlatBound(c[0], shape[0], Offset(shape[1..], c[1..]), inner);
    }
  }

  lemma Product3(a: nat, b: nat, c: nat)
    ensures Product([a, b, c]) == a * b * c
  {
    assert [a, b, c][1..] == [b, c];
    assert [b, c][1..] == [c];
    assert Product([c]) == c;
    assert a * (b * c) == a * b * c;
  }

  /** Row-major index of cell (x, y, z) of an array whose two inner extents are b and c. */
  function Flat3(b: nat, c: nat, x: nat, y: nat, z: nat): nat {
    (x * b + y) * c + z
  }

  lemma Flat3Bound(a: nat, b: nat, c: nat, x: nat, y: nat, z: nat)
    requires x < a && y < b && z < c
    ensures Flat3(b, c, x, y, z) < a * b * c
  {
    Arith.FlatBound(x, a, y, b);
    Arith.FlatBound(x * b + y, a * b, z, c);
  }

  lemma Flat3Outer(b: nat, c: nat, x: nat, y: nat, z: nat)
    ensures Flat3(b, c, x, y, z) == x * (b * c) + (y * c + z)
  {
  }

  /** For three dimensions the general offset is Flat3. */
  lemma Offset3(a: nat, b: nat, c: nat, x: nat, y: nat, z: nat)
    ensures Offset([a, b, c], [x, y, z]) == Flat3(b, c, x, y, z)
  {
    assert [a, b, c][1..] == [b, c];
    assert [b, c][1..] == [c];
    assert [x, y, z][1..] == [y, z];
    assert [y, z][1..] == [z];
    assert Product([c]) == c;
    assert Product([b, c]) == b * c;
    assert Offset([c], [z]) == z;
    assert Offset([b, c], [y, z]) == y * c + z;
    assert x * (b * c) + (y * c + z) == (x * b + y) * c + z;
  }

  lemma SlabFits(shape: seq<nat>, x: nat)
    requires |shape| > 0 && x < shape[0]
    ensures (x + 1) * Product(shape[1..]) <= Product(shape)
  {
    Arith.MulLe(x + 1, shape[0], Product(shape[1..]));
  }

  /** The x-th of the equal-sized slabs of `data` along its outermost axis. */
  function Slab<T>(data: seq<T>, size: nat, x: nat): (s: seq<T>)
    requires (x + 1) * size <= |data|
    ensures |s| == size
  {
    assert (x + 1) * size == x * size + size;
    data[x * size .. (x + 1) * size]
  }

  lemma SlabElement<T>(data: seq<T>, size: nat, x: nat, n: nat)
    requires (x + 1) * size <= |data| && n < size
    ensures x * size + n < |data| && Slab(data, size, x)[n] == data[x * size + n]
  {
    assert (x + 1) * size == x * size + size;
  }

  lemma RangesFitTail(ranges: seq<Range>, shape: seq<nat>)
    requires |shape| > 0 && RangesFit(ranges, shape)
    ensures RangesFit(ranges[1..], shape[1..])
  {
  }

  /** The block of `data` (laid out row-major as `shape`) that `ranges` select,
      itself laid out row-major: the selected parts of the outermost slabs
      start .. end-1, one after another. */
  function Extract<T>(shape: seq<nat>, data: seq<T>, ranges: seq<Range>): (block: seq<T>)
    requires |data| == Product(shape) && RangesFit(ranges, shape)
    ensures |block| == Product(Extents(ranges))
    decreases |shape|, 2
  {
    if |shape| == 0 then data
    else
      var parts := SlabBlocks(shape, data, ranges);
      FlattenLength(parts, Product(Extents(ranges[1..])));
      assert Extents(ranges)[1..] == Extents(ranges[1..]);
      Flatten(parts)
  }

  /** The selected parts of the outermost slabs, in order. */
  function SlabBlocks<T>(shape: seq<nat>, data: seq<T>, ranges: seq<Range>): (parts: seq<seq<T>>)
    requires |shape| > 0 && |data| == Product(shape) && RangesFit(ranges, shape)
    ensures |parts| == ranges[0].end - ranges[0].start
    ensures forall k :: 0 <= k < |parts| ==> |parts[k]| == Product(Extents(ranges[1..]))
    decreases |shape|, 1
  {
    var parts := seq(ranges[0].end - ranges[0].start, k requires 0 <= k < ranges[0].end - ranges[0].start =>
      SlabBlock(shape, data, ranges, ranges[0].start + k));
    assert forall k :: 0 <= k < |parts| ==> parts[k] == SlabBlock(shape, data, ranges, ranges[0].start + k);
    parts
  }

  /** The part of the selected block that lies in outermost slab x. */
  function SlabBlock<T>(shape: seq<nat>, data: seq<T>, ranges: seq<Range>, x: nat): (block: seq<T>)
    requires |shape| > 0 && |data| == Product(shape) && RangesFit(ranges, shape)
    requires x < ranges[0].end
    ensures |block| == Product(Extents(ranges[1..]))
    decreases |shape|, 0
  {
    SlabFits(shape, x);
    RangesFitTail(ranges, shape);
    Extract(shape[1..], Slab(data, Product(shape[1..]), x), ranges[1..])
  }

  /** The coordinate in the stored array of coordinate `c` of a selected block. */
  function Shift(ranges: seq<Range>, c: seq<nat>): seq<nat>
    requires |c| == |ranges|
  {
    seq(|c|, i requires 0 <= i < |c| => ranges[i].start + c[i])
  }

  /** Element `c` of the block a read returns is element `start + c` of the
      stored array: the read is an exact, row-major window onto the data. */
  lemma {:induction false} ExtractAt<T>(shape: seq<nat>, data: seq<T>, ranges: seq<Range>, c: seq<nat>)
    requires |data| == Product(shape) && RangesFit(ranges, shape)
    requires InShape(c, Extents(ranges))
    ensures InShape(Shift(ranges, c), shape)
    ensures Offset(Extents(ranges), c) < |Extract(shape, data, ranges)|
    ensures Offset(shape, Shift(ranges, c)) < |data|
    ensures Extract(shape, data, ranges)[Offset(Extents(ranges), c)] == data[Offset(shape, Shift(ranges, c))]
    decreases |shape|, 1
  {
    OffsetInBounds(Extents(ranges), c);
    OffsetInBounds(shape, Shift(ranges, c));
    if |shape| > 0 {
      var m := Offset(Extents(ranges[1..]), c[1..]);
      OuterOffset(ranges, c);
      ExtractOuter(shape, data, ranges, c[0], m);
      SlabAt(shape, data, ranges, c);
    }
  }

  /** A block coordinate splits into its outermost index and the offset of
      the rest inside one slab's part. */
  lemma OuterOffset(ranges: seq<Range>, c: seq<nat>)
    requires |ranges| > 0 && Ordered(ranges) && InShape(c, Extents(ranges))
    ensures c[0] < ranges[0].end - ranges[0].start
    ensures InShape(c[1..], Extents(ranges[1..]))
    ensures Offset(Extents(ranges[1..]), c[1..]) < Product(Extents(ranges[1..]))
    ensures Offset(Extents(ranges), c) == c[0] * Product(Extents(ranges[1..])) + Offset(Extents(ranges[1..]), c[1..])
  {
    assert Extents(ranges)[1..] == Extents(ranges[1..]);
    assert InShape(c[1..], Extents(ranges[1..]));
    OffsetInBounds(Extents(ranges[1..]), c[1..]);
  }

  /** Inside one slab the read is again an exact window, one dimension down. */
  lemma {:induction false} SlabAt<T>(shape: seq<nat>, data: seq<T>, ranges: seq<Range>, c: seq<nat>)
    requires |shape| > 0 && |data| == Product(shape) && RangesFit(ranges, shape)
    requires InShape(c, Extents(ranges))
    ensures ranges[0].start + c[0] < ranges[0].end
    ensures Offset(Extents(ranges[1..]), c[1..]) < Product(Extents(ranges[1..]))
    ensures Offset(shape, Shift(ranges, c)) < |data|
    ensures SlabBlock(shape, data, ranges, ranges[0].start + c[0])[Offset(Extents(ranges[1..]), c[1..])]
         == data[Offset(shape, Shift(ranges, c))]
    decreases |shape|, 0
  {
    OuterOffset(ranges, c);
    var row := ranges[0].start + c[0];
    var inner := Product(shape[1..]);
    SlabFits(shape, row);
    RangesFitTail(ranges, shape);
    var slab := Slab(data, inner, row);
    ExtractAt(shape[1..], slab, ranges[1..], c[1..]);
    var n := Offset(shape[1..], Shift(ranges[1..], c[1..]));
    SlabElement(data, inner, row, n);
    ShiftOuter(shape, ranges, c);
  }

  /** The offset of a shifted coordinate, split at the outermost axis. */
  lemma ShiftOuter(shape: seq<nat>, ranges: seq<Range>, c: seq<nat>)
    requires |shape| > 0 && |ranges| == |shape| && |c| == |ranges|
    ensures Offset(shape, Shift(ranges, c))
         == (ranges[0].start + c[0]) * Product(shape[1..]) + Offset(shape[1..], Shift(ranges[1..], c[1..]))
  {
    assert Shift(ranges, c)[1..] == Shift(ranges[1..], c[1..]);
  }

  /** Element m of the part selected from slab start + k sits at
      k * (part size) + m of the whole block. */
  lemma ExtractOuter<T>(shape: seq<nat>, data: seq<T>, ranges: seq<Range>, k: nat, m: nat)
    requires |shape| > 0 && |data| == Product(shape) && RangesFit(ranges, shape)
    requires k < ranges[0].end - ranges[0].start && m < Product(Extents(ranges[1..]))
    ensures k * Product(Extents(ranges[1..])) + m < |Extract(shape, data, ranges)|
    ensures Extract(shape, data, ranges)[k * Product(Extents(ranges[1..])) + m]
         == SlabBlock(shape, data, ranges, ranges[0].start + k)[m]
  {
    var parts := SlabBlocks(shape, data, ranges);
    assert Extract(shape, data, ranges) == Flatten(parts);
    FlattenAt(parts, Product(Extents(ranges[1..])), k, m);
  }

  /** What a reader reports about one stored variable: its layout, codec
      settings, and decoded contents in row-major order. */
  datatype Source<T> = Source(
    dims: seq<nat>,
    chunks: seq<nat>,
    compression: Compression,
    scaleFactor: real,
    addOffset: real,
    data: seq<T>)
  {
    predicate Valid() {
      |data| == Product(dims) && forall i :: 0 <= i < |dims| ==> dims[i] < U64_BOUND
    }
  }

  datatype ReadError = ShapeMismatch | OutOfBounds

  /** A range-bounded read: one range per dimension, each non-empty and inside
      its extent, or the read fails before any data is touched. */
  function Read<T>(src: Source<T>, ranges: seq<Range>): (r: Result<seq<T>, ReadError>)
    requires src.Valid()
    ensures r.Ok? <==> RangesFit(ranges, src.dims)
    ensures r == Err(ShapeMismatch) <==> |ranges| != |src.dims|
    ensures r.Ok? ==> |r.value| == Product(Extents(ranges))
  {
    if |ranges| != |src.dims| then Err(ShapeMismatch)
    else if !RangesFit(ranges, src.dims) then Err(OutOfBounds)
    else Ok(Extract(src.dims, src.data, ranges))
  }

  /** The chunks of a write session, concatenated in append order. */
  function Flatten<T>(parts: seq<seq<T>>): seq<T> {
    if |parts| == 0 then [] else parts[0] + Flatten(parts[1..])
  }

  /** Concatenating equal-sized parts: element m of part k sits at k * size + m. */
  lemma {:induction false} FlattenAt<T>(parts: seq<seq<T>>, size: nat, k: nat, m: nat)
    requires forall p :: 0 <= p < |parts| ==> |parts[p]| == size
    requires k < |parts| && m < size
    ensures |Flatten(parts)| == |parts| * size
    ensures k * size + m < |Flatten(parts)|
    ensures Flatten(parts)[k * size + m] == parts[k][m]
    decreases k
  {
    FlattenLength(parts, size);
    Arith.FlatBound(k, |parts|, m, size);
    if k > 0 {
      FlattenAt(parts[1..], size, k - 1, m);
      assert k * size + m == |parts[0]| + ((k - 1) * size + m);
    }
  }

  lemma {:induction false} FlattenLength<T>(parts: seq<seq<T>>, size: nat)
    requires forall p :: 0 <= p < |parts| ==> |parts[p]| == size
    ensures |Flatten(parts)| == |parts| * size
    decreases |parts|
  {
    if |parts| > 0 {
      FlattenLength(parts[1..], size);
      assert |parts| * size == size + (|parts| - 1) * size;
    }
  }
}
