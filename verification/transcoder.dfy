/** The temporal-to-spatial converter (src/bin/om_temporal_to_spatial.rs):
    a [lat, lon, time] variable is rewritten as [time, lat, lon] with one whole
    time frame per chunk, streaming one time slice at a time through a
    two-phase writer (data chunks first, then the array record and trailer). */
module Transcoder {
  import opened Wrappers
  import opened Arrays
  import Arith

  // ---------------------------------------------------------------------
  // In-memory reshaping of one slice
  // ---------------------------------------------------------------------

  /** Index in an a-by-b-by-c array of the element that the axis permutation
      [2, 0, 1] moves to position n of the resulting c-by-a-by-b array. */
  function Source201(a: nat, b: nat, c: nat, n: nat): (p: nat)
    requires n < a * b * c
    ensures p < a * b * c
  {
    Arith.DivBound(n, a * b, c);
    var k, i, j := n / (a * b), (n / b) % a, n % b;
    Flat3Bound(a, b, c, i, j, k);
    Flat3(b, c, i, j, k)
  }

  /** `permuted_axes([2, 0, 1])` of an a-by-b-by-c array, read back row-major:
      the result has shape [c, a, b]. */
  function PermuteAxes201<T>(a: nat, b: nat, c: nat, data: seq<T>): (r: seq<T>)
    requires |data| == a * b * c
    ensures |r| == |data|
  {
    seq(|data|, n requires 0 <= n < |data| => data[Source201(a, b, c, n)])
  }

  /** Element (k, i, j) of the permuted array is element (i, j, k) of the input. */
  lemma PermuteAxes201At<T>(a: nat, b: nat, c: nat, data: seq<T>, i: nat, j: nat, k: nat)
    requires |data| == a * b * c
    requires i < a && j < b && k < c
    ensures Flat3(a, b, k, i, j) < |data| && Flat3(b, c, i, j, k) < |data|
    ensures PermuteAxes201(a, b, c, data)[Flat3(a, b, k, i, j)] == data[Flat3(b, c, i, j, k)]
  {
    var n := Flat3(a, b, k, i, j);
    assert n < a * b * c by {
      Flat3Bound(c, a, b, k, i, j);
      Arith.MulRotate(a, b, c);
    }
    Flat3Bound(a, b, c, i, j, k);
    Source201At(a, b, c, k, i, j);
  }

  lemma Source201At(a: nat, b: nat, c: nat, k: nat, i: nat, j: nat)
    requires i < a && j < b && k < c
    requires Flat3(a, b, k, i, j) < a * b * c
    ensures Source201(a, b, c, Flat3(a, b, k, i, j)) == Flat3(b, c, i, j, k)
  {
    var n := Flat3(a, b, k, i, j);
    assert n / (a * b) == k by {
      Flat3Outer(a, b, k, i, j);
      Arith.FlatBound(i, a, j, b);
      Arith.FlatSplit(k, i * b + j, a * b);
    }
    assert n / b == k * a + i && n % b == j by {
      Arith.FlatSplit(k * a + i, j, b);
    }
    assert (k * a + i) % a == i by {
      Arith.FlatSplit(k, i, a);
    }
  }

  /** When the axis moved to the front has extent 1 the permutation leaves the
      row-major order untouched. */
  lemma PermuteUnitAxis<T>(a: nat, b: nat, data: seq<T>)
    requires |data| == a * b * 1
    ensures PermuteAxes201(a, b, 1, data) == data
  {
    forall n | 0 <= n < |data|
      ensures PermuteAxes201(a, b, 1, data)[n] == data[n]
    {
      Source201Unit(a, b, n);
    }
  }

  lemma Source201Unit(a: nat, b: nat, n: nat)
    requires n < a * b * 1
    ensures Source201(a, b, 1, n) == n
  {
    var q, j := n / b, n % b;
    assert n == q * b + j;
    Arith.DivBound(n, b, a);
    Arith.FlatSplit(0, n, a * b);
    Arith.FlatSplit(0, q, a);
    assert n / (a * b) == 0 && (n / b) % a == q;
  }

  datatype ShapeError = ShapeError

  /** `into_shape_clone(Ix3(a, b, c))`: succeeds exactly when the element
      count matches. */
  function IntoShape3<T>(data: seq<T>, a: nat, b: nat, c: nat): (r: Result<seq<T>, ShapeError>)
    ensures r.Ok? <==> |data| == a * b * c
    ensures r.Ok? ==> r.value == data
  {
    if |data| == a * b * c then Ok(data) else Err(ShapeError)
  }

  // ---------------------------------------------------------------------
  // The two-phase writer
  // ---------------------------------------------------------------------

  /** Ceiling of a / b. */
  function CeilDiv(a: nat, b: nat): nat
    requires b > 0
  {
    (a + b - 1) / b
  }

  /** An array layout the writer accepts: one chunk extent per dimension, each
      at least 1 and at most the dimension's extent. */
  predicate ValidLayout(dims: seq<nat>, chunks: seq<nat>) {
    |dims| == |chunks| && forall i :: 0 <= i < |dims| ==> 0 < chunks[i] <= dims[i]
  }

  /** Number of chunks that tile an array of the given layout. */
  function ChunkCount(dims: seq<nat>, chunks: seq<nat>): nat
    requires ValidLayout(dims, chunks)
  {
    Product(seq(|dims|, i requires 0 <= i < |dims| => CeilDiv(dims[i], chunks[i])))
  }

  /** The declaration `prepare_array` receives. */
  datatype ArrayLayout = ArrayLayout(
    dims: seq<nat>,
    chunks: seq<nat>,
    compression: Compression,
    scaleFactor: real,
    addOffset: real)

  /** What `finalize` hands back: the layout and how many chunks were written. */
  datatype ArrayMeta = ArrayMeta(layout: ArrayLayout, chunkCount: nat)

  /** The metadata record `write_array` stores for a variable. */
  datatype VariableRecord = VariableRecord(name: string, meta: ArrayMeta, children: seq<VariableRecord>)

  datatype WriterState = Open | Appending | Finalized | MetaWritten | Trailered

  datatype WriterEvent = Prepared | Appended | Finished | ArrayWritten | TrailerWritten

  /** The two-phase protocol as a transition relation between successive calls. */
  predicate MayFollow(prev: WriterEvent, next: WriterEvent) {
    match prev
    case Prepared => next == Appended || next == Finished
    case Appended => next == Appended || next == Finished
    case Finished => next == ArrayWritten
    case ArrayWritten => next == TrailerWritten
    case TrailerWritten => false
  }

  predicate Protocol(log: seq<WriterEvent>) {
    && (|log| > 0 ==> log[0] == Prepared)
    && forall i :: 0 < i < |log| ==> MayFollow(log[i - 1], log[i])
  }

  function Appends(n: nat): (log: seq<WriterEvent>)
    ensures |log| == n && forall i :: 0 <= i < n ==> log[i] == Appended
  {
    if n == 0 then [] else Appends(n - 1) + [Appended]
  }

  /** The calls a session in `state` has made, after appending n chunks. */
  function SessionLog(n: nat, state: WriterState): seq<WriterEvent> {
    match state
    case Open => []
    case Appending => [Prepared] + Appends(n)
    case Finalized => [Prepared] + Appends(n) + [Finished]
    case MetaWritten => [Prepared] + Appends(n) + [Finished, ArrayWritten]
    case Trailered => [Prepared] + Appends(n) + [Finished, ArrayWritten, TrailerWritten]
  }

  /** Every log the writer can produce obeys the protocol. */
  lemma SessionLogObeysProtocol(n: nat, state: WriterState)
    ensures Protocol(SessionLog(n, state))
  {
    var log := SessionLog(n, state);
    forall i | 0 < i < |log| ensures MayFollow(log[i - 1], log[i]) {
      if i <= n {
        assert log[i] == Appended;
      }
    }
  }

  /** Every log that obeys the protocol is a session log: prepare, appends,
      then the finishing calls in their fixed order. */
  lemma {:induction false} ProtocolIsSessionLog(log: seq<WriterEvent>)
    requires Protocol(log)
    ensures exists n: nat, state :: log == SessionLog(n, state)
    decreases |log|
  {
    if |log| == 0 {
      assert log == SessionLog(0, Open);
    } else if |log| == 1 {
      assert log == SessionLog(0, Appending);
    } else {
      var front := log[..|log| - 1];
      assert Protocol(front) by {
        forall i | 0 < i < |front| ensures MayFollow(front[i - 1], front[i]) {
          assert front[i - 1] == log[i - 1] && front[i] == log[i];
        }
      }
      ProtocolIsSessionLog(front);
      var n: nat, state :| front == SessionLog(n, state);
      var last := log[|log| - 1];
      assert MayFollow(front[|front| - 1], last);
      assert log == front + [last];
      match state
      case Open =>
        assert false;
      case Appending =>
        if last == Appended {
          assert log == SessionLog(n + 1, Appending);
        } else {
          assert log == SessionLog(n, Finalized);
        }
      case Finalized =>
        assert log == SessionLog(n, MetaWritten);
      case MetaWritten =>
        assert log == SessionLog(n, Trailered);
      case Trailered =>
        assert false;
    }
  }

  /** Once `finalize` has run no data chunk is appended any more, and the
      trailer is only ever written directly after the array record. */
  lemma {:induction false} NothingAppendedAfterFinish(log: seq<WriterEvent>, i: nat, j: nat)
    requires Protocol(log) && i < j < |log| && log[i] == Finished
    ensures log[j] != Appended && log[j] != Prepared
    ensures log[j] == TrailerWritten ==> log[j - 1] == ArrayWritten
    decreases j - i
  {
    if j > i + 1 {
      NothingAppendedAfterFinish(log, i, j - 1);
    }
  }

  /** The output file as the writer library builds it: an append-only log of
      data chunks and a state that only moves forward. */
  class FileWriter<T> {
    var state: WriterState
    var layout: ArrayLayout
    var chunks: seq<seq<T>>
    var record: Option<VariableRecord>
    var root: Option<VariableRecord>
    ghost var events: seq<WriterEvent>

    ghost predicate Valid()
      reads this
    {
      && events == SessionLog(|chunks|, state)
      && (state == Open ==> chunks == [])
      && (state != Open ==>
            && ValidLayout(layout.dims, layout.chunks)
            && |chunks| <= ChunkCount(layout.dims, layout.chunks)
            && forall k :: 0 <= k < |chunks| ==> |chunks[k]| == Product(layout.chunks))
      && (record.Some? <==> state == MetaWritten || state == Trailered)
      && (root.Some? <==> state == Trailered)
    }

    /** `OmFileWriter::new`; the capacity hint only sizes the output buffer. */
    constructor (capacity: nat)
      ensures Valid() && state == Open && chunks == [] && record == None && root == None
    {
      state := Open;
      layout := ArrayLayout([], [], Compression(""), 1.0, 0.0);
      chunks := [];
      record := None;
      root := None;
      events := [];
    }

    /** `prepare_array`: declares the output's layout and codec settings. */
    method PrepareArray(dims: seq<nat>, chunkDims: seq<nat>, compression: Compression, scaleFactor: real, addOffset: real)
      returns (ok: bool)
      requires Valid() && state == Open
      modifies this
      ensures Valid()
      ensures ok <==> ValidLayout(dims, chunkDims)
      ensures ok ==> state == Appending && chunks == [] && record == None && root == None
      ensures ok ==> layout == ArrayLayout(dims, chunkDims, compression, scaleFactor, addOffset)
      ensures !ok ==> state == Open && chunks == old(chunks) && layout == old(layout)
    {
      ok := ValidLayout(dims, chunkDims);
      if ok {
        state := Appending;
        layout := ArrayLayout(dims, chunkDims, compression, scaleFactor, addOffset);
        events := SessionLog(0, Appending);
      }
    }

    /** `write_data` with one whole chunk: appended after those already written. */
    method WriteData(data: seq<T>)
      requires Valid() && state == Appending
      requires |data| == Product(layout.chunks)
      requires |chunks| < ChunkCount(layout.dims, layout.chunks)
      modifies this
      ensures Valid() && state == Appending && layout == old(layout)
      ensures chunks == old(chunks) + [data]
      ensures record == old(record) && root == old(root)
    {
      chunks := chunks + [data];
      events := SessionLog(|chunks|, Appending);
    }

    /** `finalize`: closes the data phase; no chunk can be appended afterwards. */
    method Finalize() returns (meta: ArrayMeta)
      requires Valid() && state == Appending
      modifies this
      ensures Valid() && state == Finalized
      ensures layout == old(layout) && chunks == old(chunks) && record == old(record) && root == old(root)
      ensures meta == ArrayMeta(layout, |chunks|)
    {
      state := Finalized;
      events := SessionLog(|chunks|, Finalized);
      meta := ArrayMeta(layout, |chunks|);
    }

    /** `write_array`: stores the variable's metadata record after all data. */
    method WriteArray(meta: ArrayMeta, name: string, children: seq<VariableRecord>) returns (v: VariableRecord)
      requires Valid() && state == Finalized
      modifies this
      ensures Valid() && state == MetaWritten
      ensures layout == old(layout) && chunks == old(chunks)
      ensures v == VariableRecord(name, meta, children) && record == Some(v)
    {
      v := VariableRecord(name, meta, children);
      record := Some(v);
      state := MetaWritten;
      events := SessionLog(|chunks|, MetaWritten);
    }

    /** `write_trailer`: anchors the given record as the file's root; last call. */
    method WriteTrailer(v: VariableRecord)
      requires Valid() && state == MetaWritten
      modifies this
      ensures Valid() && state == Trailered
      ensures layout == old(layout) && chunks == old(chunks) && record == old(record)
      ensures root == Some(v)
    {
      root := Some(v);
      state := Trailered;
      events := SessionLog(|chunks|, Trailered);
    }
  }

  // ---------------------------------------------------------------------
  // The conversion
  // ---------------------------------------------------------------------

  /** Input layouts the conversion completes on: three dimensions
      [lat, lon, time], none of them empty. */
  predicate Convertible(dims: seq<nat>) {
    |dims| == 3 && dims[0] > 0 && dims[1] > 0 && dims[2] > 0
  }

  /** The read request for time step t: all of lat and lon, one step of time. */
  function TimeSliceRanges(lat: nat, lon: nat, t: nat): seq<Range> {
    [Range(0, lat), Range(0, lon), Range(t, t + 1)]
  }

  /** The time-slice request is valid for the input exactly when t is a time
      step and the spatial extents are non-empty; t + 1 never leaves u64. */
  lemma TimeSliceRangesFit(dims: seq<nat>, t: nat)
    requires |dims| == 3 && dims[2] < U64_BOUND
    ensures RangesFit(TimeSliceRanges(dims[0], dims[1], t), dims) <==> dims[0] > 0 && dims[1] > 0 && t < dims[2]
    ensures t < dims[2] ==> t + 1 < U64_BOUND
    ensures Extents(TimeSliceRanges(dims[0], dims[1], t)) == [dims[0], dims[1], 1]
  {
  }

  /** The chunk the converter writes for time step t. */
  function TimeFrame<T>(src: Source<T>, t: nat): (frame: seq<T>)
    requires src.Valid() && Convertible(src.dims) && t < src.dims[2]
  {
    var lat, lon := src.dims[0], src.dims[1];
    var ranges := TimeSliceRanges(lat, lon, t);
    TimeSliceRangesFit(src.dims, t);
    Product3(lat, lon, 1);
    PermuteAxes201(lat, lon, 1, Extract(src.dims, src.data, ranges))
  }

  /** Frame t holds, at (i, j), the input's element (i, j, t). */
  lemma TimeFrameAt<T>(src: Source<T>, t: nat, i: nat, j: nat)
    requires src.Valid() && Convertible(src.dims) && t < src.dims[2]
    requires i < src.dims[0] && j < src.dims[1]
    ensures |TimeFrame(src, t)| == src.dims[0] * src.dims[1]
    ensures i * src.dims[1] + j < |TimeFrame(src, t)|
    ensures Flat3(src.dims[1], src.dims[2], i, j, t) < |src.data|
    ensures TimeFrame(src, t)[i * src.dims[1] + j] == src.data[Flat3(src.dims[1], src.dims[2], i, j, t)]
  {
    var lat, lon := src.dims[0], src.dims[1];
    TimeSliceRangesFit(src.dims, t);
    Product3(lat, lon, 1);
    PermuteUnitAxis(lat, lon, Extract(src.dims, src.data, TimeSliceRanges(lat, lon, t)));
    TimeSliceAt(src, t, i, j);
  }

  /** The time slice read for step t holds, at (i, j), the input's element (i, j, t). */
  lemma TimeSliceAt<T>(src: Source<T>, t: nat, i: nat, j: nat)
    requires src.Valid() && Convertible(src.dims) && t < src.dims[2]
    requires i < src.dims[0] && j < src.dims[1]
    ensures RangesFit(TimeSliceRanges(src.dims[0], src.dims[1], t), src.dims)
    ensures i * src.dims[1] + j < |Extract(src.dims, src.data, TimeSliceRanges(src.dims[0], src.dims[1], t))|
    ensures Flat3(src.dims[1], src.dims[2], i, j, t) < |src.data|
    ensures Extract(src.dims, src.data, TimeSliceRanges(src.dims[0], src.dims[1], t))[i * src.dims[1] + j]
         == src.data[Flat3(src.dims[1], src.dims[2], i, j, t)]
  {
    var lat, lon, time := src.dims[0], src.dims[1], src.dims[2];
    var ranges := TimeSliceRanges(lat, lon, t);
    TimeSliceRangesFit(src.dims, t);
    var c := [i, j, 0];
    assert InShape(c, Extents(ranges)) by {
      assert Extents(ranges) == [lat, lon, 1];
    }
    ExtractAt(src.dims, src.data, ranges, c);
    assert Shift(ranges, c) == [i, j, t];
    Offset3(lat, lon, 1, i, j, 0);
    Offset3(lat, lon, time, i, j, t);
    assert src.dims == [lat, lon, time];
  }

  /** The frames written for time steps 0 .. n-1, in that order. */
  function Frames<T>(src: Source<T>, n: nat): (frames: seq<seq<T>>)
    requires src.Valid() && Convertible(src.dims) && n <= src.dims[2]
    ensures |frames| == n
  {
    seq(n, t requires 0 <= t < n => TimeFrame(src, t))
  }

  /** One pass of the conversion loop at time step t: the read succeeds, the
      reshape accepts it, the permuted block is frame t, and appending it
      extends the frames written so far by one. */
  lemma FrameStep<T>(src: Source<T>, t: nat)
    requires src.Valid() && Convertible(src.dims) && t < src.dims[2]
    ensures Read(src, TimeSliceRanges(src.dims[0], src.dims[1], t)).Ok?
    ensures |Read(src, TimeSliceRanges(src.dims[0], src.dims[1], t)).value| == src.dims[0] * src.dims[1] * 1
    ensures IntoShape3(Read(src, TimeSliceRanges(src.dims[0], src.dims[1], t)).value, src.dims[0], src.dims[1], 1)
         == Ok(Read(src, TimeSliceRanges(src.dims[0], src.dims[1], t)).value)
    ensures PermuteAxes201(src.dims[0], src.dims[1], 1, Read(src, TimeSliceRanges(src.dims[0], src.dims[1], t)).value)
         == TimeFrame(src, t)
    ensures Frames(src, t) + [TimeFrame(src, t)] == Frames(src, t + 1)
  {
    TimeSliceRangesFit(src.dims, t);
    Product3(src.dims[0], src.dims[1], 1);
    assert Frames(src, t) + [TimeFrame(src, t)] == Frames(src, t + 1);
  }

  /** The output holds as many elements as the input. */
  lemma OutputLength<T>(src: Source<T>)
    requires src.Valid() && Convertible(src.dims)
    ensures |Flatten(Frames(src, src.dims[2]))| == |src.data|
  {
    var lat, lon, time := src.dims[0], src.dims[1], src.dims[2];
    var frames := Frames(src, time);
    forall p | 0 <= p < |frames| ensures |frames[p]| == lat * lon {
      TimeFrameAt(src, p, 0, 0);
    }
    FlattenLength(frames, lat * lon);
    assert src.dims == [lat, lon, time];
    Product3(lat, lon, time);
    assert |frames| * (lat * lon) == |src.data|;
  }

  /** Element (t, i, j) of the concatenated chunks is element (i, j, t) of the input. */
  lemma OutputAt<T>(src: Source<T>, t: nat, i: nat, j: nat)
    requires src.Valid() && Convertible(src.dims)
    requires t < src.dims[2] && i < src.dims[0] && j < src.dims[1]
    ensures |Flatten(Frames(src, src.dims[2]))| == |src.data|
    ensures Flat3(src.dims[0], src.dims[1], t, i, j) < |src.data|
    ensures Flat3(src.dims[1], src.dims[2], i, j, t) < |src.data|
    ensures Flatten(Frames(src, src.dims[2]))[Flat3(src.dims[0], src.dims[1], t, i, j)]
         == src.data[Flat3(src.dims[1], src.dims[2], i, j, t)]
  {
    var lat, lon, time := src.dims[0], src.dims[1], src.dims[2];
    var frames := Frames(src, time);
    OutputLength(src);
    forall p | 0 <= p < |frames| ensures |frames[p]| == lat * lon {
      TimeFrameAt(src, p, 0, 0);
    }
    TimeFrameAt(src, t, i, j);
    Arith.FlatBound(i, lat, j, lon);
    FlattenAt(frames, lat * lon, t, i * lon + j);
    Flat3Outer(lat, lon, t, i, j);
  }

  /** The output is the input transposed: read row-major as [time, lat, lon],
      element (t, i, j) of the concatenated chunks is element (i, j, t) of the
      [lat, lon, time] input, and nothing else is there. */
  lemma OutputIsTranspose<T>(src: Source<T>)
    requires src.Valid() && Convertible(src.dims)
    ensures |Flatten(Frames(src, src.dims[2]))| == |src.data|
    ensures forall t, i, j :: t < src.dims[2] && i < src.dims[0] && j < src.dims[1] ==>
      && Flat3(src.dims[0], src.dims[1], t, i, j) < |src.data|
      && Flat3(src.dims[1], src.dims[2], i, j, t) < |src.data|
      && Flatten(Frames(src, src.dims[2]))[Flat3(src.dims[0], src.dims[1], t, i, j)]
         == src.data[Flat3(src.dims[1], src.dims[2], i, j, t)]
  {
    OutputLength(src);
    forall t: nat, i: nat, j: nat | t < src.dims[2] && i < src.dims[0] && j < src.dims[1]
      ensures Flat3(src.dims[0], src.dims[1], t, i, j) < |src.data|
      ensures Flat3(src.dims[1], src.dims[2], i, j, t) < |src.data|
      ensures Flatten(Frames(src, src.dims[2]))[Flat3(src.dims[0], src.dims[1], t, i, j)]
           == src.data[Flat3(src.dims[1], src.dims[2], i, j, t)]
    {
      OutputAt(src, t, i, j);
    }
  }

  /** One-chunk-per-frame layout: [time, lat, lon] is tiled by exactly `time` chunks. */
  lemma FrameLayout(lat: nat, lon: nat, time: nat)
    requires lat > 0 && lon > 0 && time > 0
    ensures ValidLayout([time, lat, lon], [1, lat, lon])
    ensures ChunkCount([time, lat, lon], [1, lat, lon]) == time
    ensures Product([1, lat, lon]) == lat * lon
  {
    Arith.FlatSplit(1, lat - 1, lat);
    Arith.FlatSplit(1, lon - 1, lon);
    var grid := seq(3, i requires 0 <= i < 3 => CeilDiv([time, lat, lon][i], [1, lat, lon][i]));
    assert grid == [time, 1, 1];
    Product3(time, 1, 1);
    Product3(1, lat, lon);
  }

  datatype Status = Completed | UsageError | Panicked(reason: string)

  /** The converter's `main`, given its arguments and the input variable the
      reader opened. The output file is the returned writer. */
  method TemporalToSpatial<T>(args: seq<string>, input: Source<T>) returns (status: Status, out: FileWriter?<T>)
    requires input.Valid()
    ensures status == UsageError <==> |args| != 3 && |args| > 0
    ensures |args| == 0 ==> status == Panicked("index out of bounds")
    ensures status == Completed <==> |args| == 3 && Convertible(input.dims)
    ensures |args| != 3 || |input.dims| < 3 ==> out == null
    ensures status.Panicked? && out != null ==> out.state != Trailered
    ensures status == Completed ==>
      && out != null && fresh(out) && out.Valid() && out.state == Trailered
      && out.layout == ArrayLayout([input.dims[2], input.dims[0], input.dims[1]], [1, input.dims[0], input.dims[1]],
                                   input.compression, input.scaleFactor, input.addOffset)
      && out.chunks == Frames(input, input.dims[2])
      && out.record == Some(VariableRecord("data", ArrayMeta(out.layout, input.dims[2]), []))
      && out.root == out.record
  {
    out := null;
    if |args| != 3 {
      // the usage message names the program, args[0]
      status := if |args| == 0 then Panicked("index out of bounds") else UsageError;
      return;
    }
    if |input.dims| < 3 {
      status := Panicked("index out of bounds");
      return;
    }
    var lat, lon, time := input.dims[0], input.dims[1], input.dims[2];
    if lat > 0 && lon > 0 && time > 0 {
      FrameLayout(lat, lon, time);
    }
    out := new FileWriter(1024 * 1024 * 1024);
    var ok := out.PrepareArray([time, lat, lon], [1, lat, lon], input.compression, input.scaleFactor, input.addOffset);
    if !ok {
      status := Panicked("Failed to prepare array");
      return;
    }
    assert time > 0 && lat > 0 && lon > 0 by {
      assert 0 < [1, lat, lon][0] <= [time, lat, lon][0];
      assert 0 < [1, lat, lon][1] <= [time, lat, lon][1];
      assert 0 < [1, lat, lon][2] <= [time, lat, lon][2];
    }
    var t := 0;
    while t < time
      invariant 0 <= t <= time
      invariant out.Valid() && out.state == Appending
      invariant out.layout == ArrayLayout([time, lat, lon], [1, lat, lon], input.compression, input.scaleFactor, input.addOffset)
      invariant time > 0 && lat > 0 && lon > 0
      invariant |input.dims| > 3 ==> t == 0
      invariant Convertible(input.dims) ==> out.chunks == Frames(input, t)
      invariant out.record == None && out.root == None
    {
      if |input.dims| == 3 {
        TimeSliceRangesFit(input.dims, t);
      }
      var read := Read(input, TimeSliceRanges(lat, lon, t));
      if read.Err? {
        status := Panicked("Failed to read data");
        return;
      }
      FrameStep(input, t);
      var shaped := IntoShape3(read.value, lat, lon, 1);
      if shaped.Err? {
        assert false;
      }
      var frame := PermuteAxes201(lat, lon, 1, shaped.value);
      out.WriteData(frame);
      t := t + 1;
    }
    var meta := out.Finalize();
    var variable := out.WriteArray(meta, "data", []);
    out.WriteTrailer(variable);
    status := Completed;
  }
}
