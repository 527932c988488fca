/** The heatmap viewer's non-graphical logic (src/bin/omview.rs): parsing the
    chunking mode and the command line, choosing the read ranges for one
    timestamp and reshaping the result to a 2-D frame, and the arrow buttons
    that move the current timestamp. */
module Viewer {
  import opened Wrappers
  import opened Text
  import opened Arrays
  import Arith
  import Transcoder

  datatype ChunkingMode = Spatial | Temporal

  /** `ChunkingMode::from_str`: the lower-cased text must be exactly one of the
      two mode names. */
  function ParseChunkingMode(s: string): Option<ChunkingMode> {
    var lower := ToLower(s);
    if lower == "spatial" then Some(Spatial)
    else if lower == "temporal" then Some(Temporal)
    else None
  }

  lemma LowerMatchesWord(s: string, word: string)
    requires forall i :: 0 <= i < |word| ==> LowerAscii(word[i]) == word[i]
    ensures ToLower(s) == word <==> SameIgnoringCase(s, word)
  {
    if SameIgnoringCase(s, word) {
      assert forall i :: 0 <= i < |s| ==> ToLower(s)[i] == word[i];
    }
  }

  /** The parser accepts exactly the two mode names, in any mix of upper and
      lower case, and rejects every other string. */
  lemma ParseChunkingModeCases(s: string)
    ensures ParseChunkingMode(s) == Some(Spatial) <==> SameIgnoringCase(s, "spatial")
    ensures ParseChunkingMode(s) == Some(Temporal) <==> SameIgnoringCase(s, "temporal")
    ensures ParseChunkingMode(s) == None <==> !SameIgnoringCase(s, "spatial") && !SameIgnoringCase(s, "temporal")
  {
    LowerMatchesWord(s, "spatial");
    LowerMatchesWord(s, "temporal");
  }

  /** Changing the case of letters never changes the parsed mode. */
  lemma ParseChunkingModeIgnoresCase(a: string, b: string)
    requires SameIgnoringCase(a, b)
    ensures ParseChunkingMode(a) == ParseChunkingMode(b)
  {
    assert ToLower(a) == ToLower(b);
  }

  // ---------------------------------------------------------------------
  // Command line
  // ---------------------------------------------------------------------

  datatype ViewerArgs = ViewerArgs(path: string, chunking: ChunkingMode)

  datatype ExitError = Usage

  /** The argument scan from the current token on, given the mode and file
      chosen so far. */
  function ScanArgs(tokens: seq<string>, chunking: ChunkingMode, file: Option<string>): Result<ViewerArgs, ExitError>
    decreases |tokens|
  {
    if |tokens| == 0 then
      match file
      case None => Err(Usage)
      case Some(f) => Ok(ViewerArgs(f, chunking))
    else if tokens[0] == "--chunking" then
      if |tokens| < 2 then Err(Usage)
      else
        match ParseChunkingMode(tokens[1])
        case None => Err(Usage)
        case Some(m) => ScanArgs(tokens[2..], m, file)
    else if file.None? then ScanArgs(tokens[1..], chunking, Some(tokens[0]))
    else Err(Usage)
  }

  /** What `main` makes of its arguments: Temporal unless `--chunking` says
      otherwise, the first other token is the file. */
  function ViewerArgsOf(args: seq<string>): Result<ViewerArgs, ExitError> {
    if |args| < 2 then Err(Usage) else ScanArgs(args[1..], Temporal, None)
  }

  /** `main`'s argument loop. */
  method ParseViewerArgs(args: seq<string>) returns (r: Result<ViewerArgs, ExitError>)
    ensures r == ViewerArgsOf(args)
  {
    if |args| < 2 {
      return Err(Usage);
    }
    var chunking := Temporal;
    var omfile: Option<string> := None;
    var i := 1;
    while i < |args|
      invariant 1 <= i <= |args|
      invariant ScanArgs(args[i..], chunking, omfile) == ViewerArgsOf(args)
    {
      if args[i] == "--chunking" {
        i := i + 1;
        if i >= |args| {
          return Err(Usage);
        }
        var mode := ParseChunkingMode(args[i]);
        if mode.None? {
          return Err(Usage);
        }
        assert args[i - 1..][2..] == args[i + 1..];
        chunking := mode.value;
      } else if omfile.None? {
        omfile := Some(args[i]);
      } else {
        return Err(Usage);
      }
      i := i + 1;
    }
    match omfile
    case None => return Err(Usage);
    case Some(f) => return Ok(ViewerArgs(f, chunking));
  }

  /** Without `--chunking`, the command line must be exactly one file path and
      the mode is Temporal. */
  lemma {:induction false} DefaultChunkingIsTemporal(tokens: seq<string>, file: Option<string>)
    requires forall k :: 0 <= k < |tokens| ==> tokens[k] != "--chunking"
    ensures ScanArgs(tokens, Temporal, file) ==
      if file.None? && |tokens| == 1 then Ok(ViewerArgs(tokens[0], Temporal))
      else if file.Some? && |tokens| == 0 then Ok(ViewerArgs(file.value, Temporal))
      else Err(Usage)
    decreases |tokens|
  {
    if |tokens| > 0 && file.None? {
      DefaultChunkingIsTemporal(tokens[1..], Some(tokens[0]));
    }
  }

  /** An accepted path is one of the tokens, and never the option name. */
  lemma {:induction false} PathIsAnArgument(tokens: seq<string>, chunking: ChunkingMode, file: Option<string>)
    requires file.Some? ==> file.value != "--chunking"
    requires ScanArgs(tokens, chunking, file).Ok?
    ensures ScanArgs(tokens, chunking, file).value.path != "--chunking"
    ensures file.None? ==> ScanArgs(tokens, chunking, file).value.path in tokens
    ensures file.Some? ==> ScanArgs(tokens, chunking, file).value.path == file.value
    decreases |tokens|
  {
    if |tokens| > 0 {
      if tokens[0] == "--chunking" {
        var m := ParseChunkingMode(tokens[1]).value;
        PathIsAnArgument(tokens[2..], m, file);
        if file.None? {
          assert ScanArgs(tokens[2..], m, file).value.path in tokens[2..];
        }
      } else if file.None? {
        PathIsAnArgument(tokens[1..], chunking, Some(tokens[0]));
      }
    }
  }

  /** The tokens that are not `--chunking` or its mode argument. */
  function Positionals(tokens: seq<string>): seq<string>
    decreases |tokens|
  {
    if |tokens| == 0 then []
    else if tokens[0] == "--chunking" then (if |tokens| < 2 then [] else Positionals(tokens[2..]))
    else [tokens[0]] + Positionals(tokens[1..])
  }

  /** Every `--chunking` is followed by a word naming a mode. */
  predicate OptionsNameModes(tokens: seq<string>)
    decreases |tokens|
  {
    if |tokens| == 0 then true
    else if tokens[0] == "--chunking" then
      |tokens| >= 2 && ParseChunkingMode(tokens[1]).Some? && OptionsNameModes(tokens[2..])
    else OptionsNameModes(tokens[1..])
  }

  /** The scan accepts exactly when every `--chunking` names a valid mode and
      there is exactly one file token in all, counting one already chosen;
      that token is the path. A second file token is a usage error whether or
      not `--chunking` appears. */
  lemma {:induction false} ScanAcceptsOneFile(tokens: seq<string>, chunking: ChunkingMode, file: Option<string>)
    ensures ScanArgs(tokens, chunking, file).Ok? <==>
      OptionsNameModes(tokens) && |Positionals(tokens)| + (if file.Some? then 1 else 0) == 1
    ensures ScanArgs(tokens, chunking, file).Ok? ==>
      ScanArgs(tokens, chunking, file).value.path ==
        if file.Some? then file.value else Positionals(tokens)[0]
    decreases |tokens|
  {
    if |tokens| > 0 {
      if tokens[0] == "--chunking" {
        if |tokens| >= 2 && ParseChunkingMode(tokens[1]).Some? {
          ScanAcceptsOneFile(tokens[2..], ParseChunkingMode(tokens[1]).value, file);
        }
      } else if file.None? {
        ScanAcceptsOneFile(tokens[1..], chunking, Some(tokens[0]));
      }
    }
  }

  /** `main` accepts its arguments exactly when every `--chunking` names a
      valid mode and exactly one other token is given, which becomes the path. */
  lemma ViewerArgsAccepted(args: seq<string>)
    ensures ViewerArgsOf(args).Ok? <==>
      |args| >= 2 && OptionsNameModes(args[1..]) && |Positionals(args[1..])| == 1
    ensures ViewerArgsOf(args).Ok? ==> ViewerArgsOf(args).value.path == Positionals(args[1..])[0]
  {
    if |args| >= 2 {
      ScanAcceptsOneFile(args[1..], Temporal, None);
    }
  }

  // ---------------------------------------------------------------------
  // The data loader
  // ---------------------------------------------------------------------

  datatype DataLoader<T> = DataLoader(source: Source<T>, nTimestamps: nat, chunking: ChunkingMode)

  datatype ViewError = NoDimensions | IndexPanic | ReadFailed(error: ReadError) | ReshapeFailed

  /** `DataLoader::new`: the number of timestamps is the extent of the last
      dimension, whatever the chunking mode; a file without dimensions fails. */
  function NewDataLoader<T>(src: Source<T>, chunking: ChunkingMode): (r: Result<DataLoader<T>, ViewError>)
    ensures r.Err? <==> |src.dims| == 0
    ensures r.Ok? ==> r.value.source == src && r.value.chunking == chunking
    ensures r.Ok? ==> r.value.nTimestamps == src.dims[|src.dims| - 1]
    ensures r.Ok? && src.Valid() && TimestampData(r.value, 0).Ok? ==> r.value.nTimestamps >= 1
  {
    if |src.dims| == 0 then Err(NoDimensions)
    else
      var loader := DataLoader(src, src.dims[|src.dims| - 1], chunking);
      FirstFrameNeedsATimestamp(loader);
      Ok(loader)
  }

  /** The axis a timestamp selects from: the last in Temporal mode
      ([lat, lon, time]), the first in Spatial mode ([time, lat, lon]). */
  predicate IsPinned(mode: ChunkingMode, rank: nat, i: nat) {
    if mode == Temporal then i + 1 == rank else i == 0
  }

  /** The read request for one timestamp: the pinned axis restricted to
      [timestamp, timestamp + 1), every other axis read whole. */
  function TimestampRanges(mode: ChunkingMode, dims: seq<nat>, ts: nat): seq<Range> {
    seq(|dims|, i requires 0 <= i < |dims| =>
      if IsPinned(mode, |dims|, i) then Range(ts, ts + 1) else Range(0, dims[i]))
  }

  /** The loop of `get_timestamp_data` that pushes one range per dimension. */
  method BuildRanges(mode: ChunkingMode, dims: seq<nat>, ts: nat) returns (ranges: seq<Range>)
    ensures ranges == TimestampRanges(mode, dims, ts)
    ensures |ranges| == |dims|
    ensures mode == Temporal && |dims| > 0 ==>
      ranges[|dims| - 1] == Range(ts, ts + 1) && forall i :: 0 <= i < |dims| - 1 ==> ranges[i] == Range(0, dims[i])
    ensures mode == Spatial && |dims| > 0 ==>
      ranges[0] == Range(ts, ts + 1) && forall i :: 1 <= i < |dims| ==> ranges[i] == Range(0, dims[i])
  {
    ranges := [];
    for i := 0 to |dims|
      invariant |ranges| == i
      invariant forall k :: 0 <= k < i ==> ranges[k] == TimestampRanges(mode, dims, ts)[k]
    {
      var pinned := if mode == Temporal then i == |dims| - 1 else i == 0;
      if pinned {
        ranges := ranges + [Range(ts, ts + 1)];
      } else {
        ranges := ranges + [Range(0, dims[i])];
      }
    }
  }

  /** The pinned axis's index. */
  function PinnedAxis(mode: ChunkingMode, rank: nat): nat
    requires rank > 0
  {
    if mode == Temporal then rank - 1 else 0
  }

  /** The request is valid exactly when the timestamp lies inside the pinned
      axis and no other axis is empty. */
  lemma TimestampRangesFit(mode: ChunkingMode, dims: seq<nat>, ts: nat)
    requires |dims| > 0
    ensures RangesFit(TimestampRanges(mode, dims, ts), dims) <==>
      ts < dims[PinnedAxis(mode, |dims|)] &&
      forall i :: 0 <= i < |dims| && i != PinnedAxis(mode, |dims|) ==> dims[i] > 0
  {
    var ranges := TimestampRanges(mode, dims, ts);
    var p := PinnedAxis(mode, |dims|);
    if ts < dims[p] && forall i :: 0 <= i < |dims| && i != p ==> dims[i] > 0 {
      forall i | 0 <= i < |dims| ensures RangeFits(ranges[i], dims[i]) {
        if i != p {
          assert dims[i] > 0;
        }
      }
    }
    if RangesFit(ranges, dims) {
      assert RangeFits(ranges[p], dims[p]);
      forall i | 0 <= i < |dims| && i != p ensures dims[i] > 0 {
        assert RangeFits(ranges[i], dims[i]);
      }
    }
  }

  /** A decoded 2-D frame, rows * cols cells in row-major order. */
  datatype Frame<T> = Frame(rows: nat, cols: nat, cells: seq<T>)

  /** The frame size `get_timestamp_data` reshapes to, read from dims[0], dims[1]
      in Temporal mode and dims[1], dims[2] in Spatial mode; None where that
      indexing would panic. */
  function FrameShape(mode: ChunkingMode, dims: seq<nat>): Option<(nat, nat)> {
    if mode == Temporal then (if |dims| < 2 then None else Some((dims[0], dims[1])))
    else (if |dims| < 3 then None else Some((dims[1], dims[2])))
  }

  /** The number of cells of a rows x cols frame. */
  function Area(rows: nat, cols: nat): nat {
    rows * cols
  }

  /** `get_timestamp_data`: read the timestamp's slice, squeeze away unit axes
      and reshape to rows x cols (which needs the element counts to agree). */
  function TimestampData<T>(loader: DataLoader<T>, ts: nat): Result<Frame<T>, ViewError>
    requires loader.source.Valid()
  {
    var dims := loader.source.dims;
    var shape := FrameShape(loader.chunking, dims);
    if shape.None? then Err(IndexPanic)
    else
      var read := Read(loader.source, TimestampRanges(loader.chunking, dims, ts));
      if read.Err? then Err(ReadFailed(read.error))
      else if |read.value| != Area(shape.value.0, shape.value.1) then Err(ReshapeFailed)
      else Ok(Frame(shape.value.0, shape.value.1, read.value))
  }

  method GetTimestampData<T>(loader: DataLoader<T>, ts: nat) returns (r: Result<Frame<T>, ViewError>)
    requires loader.source.Valid()
    ensures r == TimestampData(loader, ts)
  {
    var dims := loader.source.dims;
    var ranges := BuildRanges(loader.chunking, dims, ts);
    var shape := FrameShape(loader.chunking, dims);
    if shape.None? {
      return Err(IndexPanic);
    }
    var read := Read(loader.source, ranges);
    if read.Err? {
      return Err(ReadFailed(read.error));
    }
    var (rows, cols) := shape.value;
    if |read.value| != Area(rows, cols) {
      return Err(ReshapeFailed);
    }
    return Ok(Frame(rows, cols, read.value));
  }

  /** For a three-dimensional variable the slice always has rows * cols
      elements, so the frame is produced exactly when the request is valid. */
  lemma ThreeDimensionalFrame<T>(loader: DataLoader<T>, ts: nat)
    requires loader.source.Valid() && |loader.source.dims| == 3
    ensures TimestampData(loader, ts).Ok? <==> RangesFit(TimestampRanges(loader.chunking, loader.source.dims, ts), loader.source.dims)
    ensures TimestampData(loader, ts).Ok? ==>
      var f := TimestampData(loader, ts).value;
      var d := loader.source.dims;
      |f.cells| == f.rows * f.cols &&
      (loader.chunking == Temporal ==> f.rows == d[0] && f.cols == d[1]) &&
      (loader.chunking == Spatial ==> f.rows == d[1] && f.cols == d[2])
  {
    var d := loader.source.dims;
    var ranges := TimestampRanges(loader.chunking, d, ts);
    if RangesFit(ranges, d) {
      if loader.chunking == Temporal {
        assert Extents(ranges) == [d[0], d[1], 1];
        Product3(d[0], d[1], 1);
      } else {
        assert Extents(ranges) == [1, d[1], d[2]];
        Product3(1, d[1], d[2]);
      }
    }
  }

  /** A frame that was read is the extracted block, with the shape of its mode. */
  lemma FrameOf<T>(loader: DataLoader<T>, ts: nat, f: Frame<T>)
    requires loader.source.Valid() && |loader.source.dims| == 3
    requires TimestampData(loader, ts) == Ok(f)
    ensures RangesFit(TimestampRanges(loader.chunking, loader.source.dims, ts), loader.source.dims)
    ensures f.cells == Extract(loader.source.dims, loader.source.data, TimestampRanges(loader.chunking, loader.source.dims, ts))
    ensures loader.chunking == Temporal ==> f.rows == loader.source.dims[0] && f.cols == loader.source.dims[1]
    ensures loader.chunking == Spatial ==> f.rows == loader.source.dims[1] && f.cols == loader.source.dims[2]
  {
    ThreeDimensionalFrame(loader, ts);
  }

  /** A Temporal-mode read of a [a, b, c] array at ts: cell (r, c) of the
      block is element (r, c, ts). */
  lemma TemporalSliceAt<T>(d: seq<nat>, data: seq<T>, ts: nat, r: nat, c: nat)
    requires |d| == 3 && |data| == Product(d) && RangesFit(TimestampRanges(Temporal, d, ts), d)
    requires r < d[0] && c < d[1]
    ensures Cell(d[1], r, c) < |Extract(d, data, TimestampRanges(Temporal, d, ts))|
    ensures Flat3(d[1], d[2], r, c, ts) < |data|
    ensures Extract(d, data, TimestampRanges(Temporal, d, ts))[Cell(d[1], r, c)] == data[Flat3(d[1], d[2], r, c, ts)]
  {
    var ranges := TimestampRanges(Temporal, d, ts);
    assert Extents(ranges) == [d[0], d[1], 1];
    assert InShape([r, c, 0], Extents(ranges));
    ExtractAt(d, data, ranges, [r, c, 0]);
    assert Shift(ranges, [r, c, 0]) == [r, c, ts];
    Offset3(d[0], d[1], 1, r, c, 0);
    assert d == [d[0], d[1], d[2]];
    Offset3(d[0], d[1], d[2], r, c, ts);
  }

  /** A Spatial-mode read of a [a, b, c] array at ts: cell (r, c) of the
      block is element (ts, r, c). */
  lemma SpatialSliceAt<T>(d: seq<nat>, data: seq<T>, ts: nat, r: nat, c: nat)
    requires |d| == 3 && |data| == Product(d) && RangesFit(TimestampRanges(Spatial, d, ts), d)
    requires r < d[1] && c < d[2]
    ensures Cell(d[2], r, c) < |Extract(d, data, TimestampRanges(Spatial, d, ts))|
    ensures Flat3(d[1], d[2], ts, r, c) < |data|
    ensures Extract(d, data, TimestampRanges(Spatial, d, ts))[Cell(d[2], r, c)] == data[Flat3(d[1], d[2], ts, r, c)]
  {
    var ranges := TimestampRanges(Spatial, d, ts);
    assert Extents(ranges) == [1, d[1], d[2]];
    assert InShape([0, r, c], Extents(ranges));
    ExtractAt(d, data, ranges, [0, r, c]);
    assert Shift(ranges, [0, r, c]) == [ts, r, c];
    Offset3(1, d[1], d[2], 0, r, c);
    assert d == [d[0], d[1], d[2]];
    Offset3(d[0], d[1], d[2], ts, r, c);
  }

  /** Cell i of a frame holds element j of the variable's data. */
  ghost predicate ShowsElement<T>(cells: seq<T>, i: nat, data: seq<T>, j: nat) {
    i < |cells| && j < |data| && cells[i] == data[j]
  }

  /** The row-major position of cell (r, c) in a frame with `cols` columns. */
  function Cell(cols: nat, r: nat, c: nat): nat {
    r * cols + c
  }

  /** What a frame shows: in Temporal mode cell (r, c) is element (r, c, ts) of
      the [lat, lon, time] variable, in Spatial mode element (ts, r, c) of the
      [time, lat, lon] variable. */
  lemma FrameCell<T>(loader: DataLoader<T>, ts: nat, f: Frame<T>, r: nat, c: nat)
    requires loader.source.Valid() && |loader.source.dims| == 3
    requires TimestampData(loader, ts) == Ok(f)
    requires r < f.rows && c < f.cols
    ensures var d := loader.source.dims;
      && (loader.chunking == Temporal ==>
            ShowsElement(f.cells, Cell(f.cols, r, c), loader.source.data, Flat3(d[1], d[2], r, c, ts)))
      && (loader.chunking == Spatial ==>
            ShowsElement(f.cells, Cell(f.cols, r, c), loader.source.data, Flat3(d[1], d[2], ts, r, c)))
  {
    var d := loader.source.dims;
    FrameOf(loader, ts, f);
    if loader.chunking == Temporal {
      TemporalSliceAt(d, loader.source.data, ts, r, c);
    } else {
      SpatialSliceAt(d, loader.source.data, ts, r, c);
    }
  }

  /** The converter's output fills the transposed [time, lat, lon] shape. */
  lemma ConvertedLength<T>(input: Source<T>)
    requires input.Valid() && Transcoder.Convertible(input.dims)
    ensures |Flatten(Transcoder.Frames(input, input.dims[2]))| == Product([input.dims[2], input.dims[0], input.dims[1]])
  {
    var lat, lon, time := input.dims[0], input.dims[1], input.dims[2];
    Transcoder.OutputLength(input);
    Product3(time, lat, lon);
    Product3(lat, lon, time);
    assert input.dims == [lat, lon, time];
    Arith.MulRotate(lat, lon, time);
  }

  /** The variable the converter writes, as a reader sees it afterwards. */
  function ConvertedSource<T>(input: Source<T>): (out: Source<T>)
    requires input.Valid() && Transcoder.Convertible(input.dims)
    ensures out.Valid()
  {
    var lat, lon, time := input.dims[0], input.dims[1], input.dims[2];
    ConvertedLength(input);
    Source([time, lat, lon], [1, lat, lon], input.compression, input.scaleFactor, input.addOffset,
           Flatten(Transcoder.Frames(input, time)))
  }

  /** The converter preserves what the viewer shows: timestamp ts of the
      converted file in Spatial mode is the same frame as timestamp ts of the
      original file in Temporal mode. */
  lemma ConvertedFileShowsSameFrames<T>(input: Source<T>, ts: nat)
    requires input.Valid() && Transcoder.Convertible(input.dims) && ts < input.dims[2]
    ensures TimestampData(DataLoader(input, input.dims[2], Temporal), ts).Ok?
    ensures TimestampData(DataLoader(input, input.dims[2], Temporal), ts)
         == TimestampData(DataLoader(ConvertedSource(input), input.dims[1], Spatial), ts)
  {
    var lat, lon, time := input.dims[0], input.dims[1], input.dims[2];
    var before := DataLoader(input, time, Temporal);
    var after := DataLoader(ConvertedSource(input), lon, Spatial);
    ConvertedBlock(input, ts);
    ThreeDimensionalFrame(before, ts);
    ThreeDimensionalFrame(after, ts);
    var f := TimestampData(before, ts).value;
    var g := TimestampData(after, ts).value;
    FrameOf(before, ts, f);
    FrameOf(after, ts, g);
    assert ConvertedSource(input).dims == [time, lat, lon];
    assert f.cells == g.cells;
  }

  /** The Temporal-mode block of the original and the Spatial-mode block of
      the converted file at ts are the same sequence. */
  lemma ConvertedBlock<T>(input: Source<T>, ts: nat)
    requires input.Valid() && Transcoder.Convertible(input.dims) && ts < input.dims[2]
    ensures RangesFit(TimestampRanges(Temporal, input.dims, ts), input.dims)
    ensures RangesFit(TimestampRanges(Spatial, ConvertedSource(input).dims, ts), ConvertedSource(input).dims)
    ensures Extract(input.dims, input.data, TimestampRanges(Temporal, input.dims, ts))
         == SpatialBlock(ConvertedSource(input), ts)
  {
    var lat, lon := input.dims[0], input.dims[1];
    var before := Extract(input.dims, input.data, TimestampRanges(Temporal, input.dims, ts));
    var after := SpatialBlock(ConvertedSource(input), ts);
    ConvertedBlockSizes(input, ts);
    forall n | 0 <= n < |before| ensures before[n] == after[n] {
      var r, c := Arith.Unflatten(n, lat, lon);
      TemporalSliceAt(input.dims, input.data, ts, r, c);
      ConvertedCell(input, ts, r, c);
    }
  }

  /** Both reads at ts are valid and return lat * lon elements. */
  lemma ConvertedBlockSizes<T>(input: Source<T>, ts: nat)
    requires input.Valid() && Transcoder.Convertible(input.dims) && ts < input.dims[2]
    ensures RangesFit(TimestampRanges(Temporal, input.dims, ts), input.dims)
    ensures RangesFit(TimestampRanges(Spatial, ConvertedSource(input).dims, ts), ConvertedSource(input).dims)
    ensures |Extract(input.dims, input.data, TimestampRanges(Temporal, input.dims, ts))| == input.dims[0] * input.dims[1]
    ensures |SpatialBlock(ConvertedSource(input), ts)| == input.dims[0] * input.dims[1]
  {
    var lat, lon, time := input.dims[0], input.dims[1], input.dims[2];
    var out := ConvertedSource(input);
    assert out.dims == [time, lat, lon];
    TimestampRangesFit(Temporal, input.dims, ts);
    TimestampRangesFit(Spatial, out.dims, ts);
    assert Extents(TimestampRanges(Temporal, input.dims, ts)) == [lat, lon, 1];
    assert Extents(TimestampRanges(Spatial, out.dims, ts)) == [1, lat, lon];
    Product3(lat, lon, 1);
    Product3(1, lat, lon);
  }

  /** The block a Spatial-mode read at ts returns. */
  function SpatialBlock<T>(src: Source<T>, ts: nat): seq<T>
    requires src.Valid() && RangesFit(TimestampRanges(Spatial, src.dims, ts), src.dims)
  {
    Extract(src.dims, src.data, TimestampRanges(Spatial, src.dims, ts))
  }

  /** Cell (r, c) of the converted file's frame at ts is element (r, c, ts) of
      the original [lat, lon, time] variable. */
  lemma ConvertedCell<T>(input: Source<T>, ts: nat, r: nat, c: nat)
    requires input.Valid() && Transcoder.Convertible(input.dims) && ts < input.dims[2]
    requires r < input.dims[0] && c < input.dims[1]
    ensures RangesFit(TimestampRanges(Spatial, ConvertedSource(input).dims, ts), ConvertedSource(input).dims)
    ensures Cell(input.dims[1], r, c) < |SpatialBlock(ConvertedSource(input), ts)|
    ensures Flat3(input.dims[1], input.dims[2], r, c, ts) < |input.data|
    ensures SpatialBlock(ConvertedSource(input), ts)[Cell(input.dims[1], r, c)]
         == input.data[Flat3(input.dims[1], input.dims[2], r, c, ts)]
  {
    var lat, lon, time := input.dims[0], input.dims[1], input.dims[2];
    var out := ConvertedSource(input);
    assert out.dims == [time, lat, lon];
    TimestampRangesFit(Spatial, out.dims, ts);
    SpatialSliceAt(out.dims, out.data, ts, r, c);
    assert out.data == Flatten(Transcoder.Frames(input, time));
    Transcoder.OutputAt(input, ts, r, c);
  }

  // ---------------------------------------------------------------------
  // Timestamp navigation
  // ---------------------------------------------------------------------

  datatype Button = Back | Forward

  /** One arrow click: `<-` steps back unless at 0, `->` steps forward unless
      at the last timestamp n - 1. */
  function Press(n: nat, ts: nat, b: Button): nat
    requires n >= 1
  {
    match b
    case Back => if ts > 0 then ts - 1 else ts
    case Forward => if ts < n - 1 then ts + 1 else ts
  }

  /** The timestamp after a sequence of clicks. */
  function AfterPresses(n: nat, ts: nat, presses: seq<Button>): nat
    requires n >= 1
    decreases |presses|
  {
    if |presses| == 0 then ts else AfterPresses(n, Press(n, ts, presses[0]), presses[1..])
  }

  /** Whatever is clicked, the timestamp stays within [0, n - 1]. */
  lemma {:induction false} PressesStayInRange(n: nat, ts: nat, presses: seq<Button>)
    requires n >= 1 && ts <= n - 1
    ensures AfterPresses(n, ts, presses) <= n - 1
    decreases |presses|
  {
    if |presses| > 0 {
      PressesStayInRange(n, Press(n, ts, presses[0]), presses[1..]);
    }
  }

  function Forwards(k: nat): (presses: seq<Button>)
    ensures |presses| == k
  {
    if k == 0 then [] else [Forward] + Forwards(k - 1)
  }

  /** Every timestamp can be reached: k clicks on `->` from ts land on
      min(ts + k, n - 1). */
  lemma {:induction false} ForwardReaches(n: nat, ts: nat, k: nat)
    requires n >= 1 && ts <= n - 1
    ensures AfterPresses(n, ts, Forwards(k)) == if ts + k <= n - 1 then ts + k else n - 1
    decreases k
  {
    if k > 0 {
      assert Forwards(k)[1..] == Forwards(k - 1);
      ForwardReaches(n, Press(n, ts, Forward), k - 1);
    }
  }

  /** The frame on screen once the timestamp has moved to ts: the frame read
      for ts, or the previous one when the read fails. */
  function Shown<T>(loader: DataLoader<T>, ts: nat, previous: Frame<T>): Frame<T>
    requires loader.source.Valid()
  {
    match TimestampData(loader, ts)
    case Ok(f) => f
    case Err(_) => previous
  }

  /** The screen (timestamp, frame) after one click: the frame is read again
      only when the click moved the timestamp. */
  function Click<T>(loader: DataLoader<T>, ts: nat, plot: Frame<T>, b: Button): (nat, Frame<T>)
    requires loader.source.Valid() && loader.nTimestamps >= 1
  {
    var next := Press(loader.nTimestamps, ts, b);
    if next == ts then (ts, plot) else (next, Shown(loader, next, plot))
  }

  /** The screen after a sequence of clicks. */
  function Clicks<T>(loader: DataLoader<T>, ts: nat, plot: Frame<T>, presses: seq<Button>): (nat, Frame<T>)
    requires loader.source.Valid() && loader.nTimestamps >= 1
    decreases |presses|
  {
    if |presses| == 0 then (ts, plot)
    else
      var screen := Click(loader, ts, plot, presses[0]);
      Clicks(loader, screen.0, screen.1, presses[1..])
  }

  /** Re-reading frames does not affect navigation: the timestamp after the
      clicks is the one the buttons alone determine. */
  lemma {:induction false} ClicksMoveLikePresses<T>(loader: DataLoader<T>, ts: nat, plot: Frame<T>, presses: seq<Button>)
    requires loader.source.Valid() && loader.nTimestamps >= 1
    ensures Clicks(loader, ts, plot, presses).0 == AfterPresses(loader.nTimestamps, ts, presses)
    decreases |presses|
  {
    if |presses| > 0 {
      var screen := Click(loader, ts, plot, presses[0]);
      ClicksMoveLikePresses(loader, screen.0, screen.1, presses[1..]);
    }
  }

  /** The screen is current: whenever the timestamp's frame can be read, it
      is the frame on screen. */
  ghost predicate ShowsCurrent<T>(loader: DataLoader<T>, ts: nat, plot: Frame<T>)
    requires loader.source.Valid()
  {
    TimestampData(loader, ts).Ok? ==> plot == TimestampData(loader, ts).value
  }

  /** Clicking never leaves a stale frame on screen for a readable timestamp. */
  lemma {:induction false} ClicksKeepScreenCurrent<T>(loader: DataLoader<T>, ts: nat, plot: Frame<T>, presses: seq<Button>)
    requires loader.source.Valid() && loader.nTimestamps >= 1
    requires ShowsCurrent(loader, ts, plot)
    ensures ShowsCurrent(loader, Clicks(loader, ts, plot, presses).0, Clicks(loader, ts, plot, presses).1)
    decreases |presses|
  {
    if |presses| > 0 {
      var screen := Click(loader, ts, plot, presses[0]);
      assert ShowsCurrent(loader, screen.0, screen.1);
      ClicksKeepScreenCurrent(loader, screen.0, screen.1, presses[1..]);
    }
  }

  /** The viewer's state outside the GUI: the loader, the timestamp shown and
      the frame on screen. */
  class App<T> {
    const loader: DataLoader<T>
    var currentTimestamp: nat
    var plot: Frame<T>

    /** The timestamp lies in [0, n_timestamps - 1], and the variable has the
        dimensions a frame needs. */
    ghost predicate InRange()
      reads this
    {
      && loader.source.Valid() && FrameShape(loader.chunking, loader.source.dims).Some?
      && 1 <= loader.nTimestamps && currentTimestamp <= loader.nTimestamps - 1
    }

    /** In range, and the screen shows the current timestamp's frame whenever
        that frame can be read. */
    ghost predicate Valid()
      reads this
    {
      InRange() && ShowsCurrent(loader, currentTimestamp, plot)
    }

    constructor Init(loader: DataLoader<T>, initial: Frame<T>)
      requires loader.source.Valid() && loader.nTimestamps >= 1
      requires TimestampData(loader, 0) == Ok(initial)
      ensures Valid() && this.loader == loader && currentTimestamp == 0 && plot == initial
    {
      this.loader := loader;
      currentTimestamp := 0;
      plot := initial;
    }

    /** `update_plot_data`: a failed read leaves the previous frame on screen. */
    method UpdatePlotData()
      requires InRange()
      modifies this
      ensures Valid() && currentTimestamp == old(currentTimestamp)
      ensures plot == Shown(loader, currentTimestamp, old(plot))
    {
      var r := GetTimestampData(loader, currentTimestamp);
      if r.Ok? {
        plot := r.value;
      }
    }

    /** The handler of the `<-` button. */
    method PressBack()
      requires Valid()
      modifies this
      ensures Valid() && currentTimestamp == Press(loader.nTimestamps, old(currentTimestamp), Back)
      ensures (currentTimestamp, plot) == Click(loader, old(currentTimestamp), old(plot), Back)
    {
      if currentTimestamp > 0 {
        currentTimestamp := currentTimestamp - 1;
        UpdatePlotData();
      }
    }

    /** The handler of the `->` button. */
    method PressForward()
      requires Valid()
      modifies this
      ensures Valid() && currentTimestamp == Press(loader.nTimestamps, old(currentTimestamp), Forward)
      ensures (currentTimestamp, plot) == Click(loader, old(currentTimestamp), old(plot), Forward)
    {
      if currentTimestamp < loader.nTimestamps - 1 {
        currentTimestamp := currentTimestamp + 1;
        UpdatePlotData();
      }
    }

    /** One frame of `App::update`: the `<-` click is handled before the `->` click. */
    method Update(backClicked: bool, forwardClicked: bool)
      requires Valid()
      modifies this
      ensures Valid()
      ensures currentTimestamp == AfterPresses(loader.nTimestamps, old(currentTimestamp),
        (if backClicked then [Back] else []) + (if forwardClicked then [Forward] else []))
      ensures (currentTimestamp, plot) == Clicks(loader, old(currentTimestamp), old(plot),
        (if backClicked then [Back] else []) + (if forwardClicked then [Forward] else []))
    {
      ghost var start, shown := currentTimestamp, plot;
      if backClicked {
        PressBack();
      }
      ghost var mid, midShown := currentTimestamp, plot;
      if forwardClicked {
        PressForward();
      }
      ghost var presses := (if backClicked then [Back] else []) + (if forwardClicked then [Forward] else []);
      if backClicked && forwardClicked {
        assert presses == [Back, Forward] && presses[1..] == [Forward] && presses[1..][1..] == [];
        assert Clicks(loader, start, shown, presses) == Clicks(loader, mid, midShown, [Forward]);
      } else if backClicked || forwardClicked {
        assert |presses| == 1 && presses[1..] == [];
      }
      ClicksMoveLikePresses(loader, start, shown, presses);
    }
  }

  /** Opening the first frame succeeds only when the file has at least one
      timestamp, so a running viewer always has n_timestamps >= 1. */
  lemma FirstFrameNeedsATimestamp<T>(loader: DataLoader<T>)
    requires |loader.source.dims| > 0
    requires loader.nTimestamps == loader.source.dims[|loader.source.dims| - 1]
    ensures loader.source.Valid() && TimestampData(loader, 0).Ok? ==> loader.nTimestamps >= 1
  {
    if loader.source.Valid() && TimestampData(loader, 0).Ok? {
      var d := loader.source.dims;
      var ranges := TimestampRanges(loader.chunking, d, 0);
      assert RangesFit(ranges, d);
      assert RangeFits(ranges[|d| - 1], d[|d| - 1]);
    }
  }

  /** `App::new`: shows timestamp 0, or fails when its frame cannot be read. */
  method NewApp<T>(loader: DataLoader<T>) returns (app: App?<T>)
    requires loader.source.Valid() && |loader.source.dims| > 0
    requires loader.nTimestamps == loader.source.dims[|loader.source.dims| - 1]
    ensures app == null <==> TimestampData(loader, 0).Err?
    ensures app != null ==>
      && fresh(app) && app.Valid() && app.loader == loader && app.currentTimestamp == 0
      && app.plot == TimestampData(loader, 0).value
  {
    var initial := GetTimestampData(loader, 0);
    if initial.Err? {
      return null;
    }
    FirstFrameNeedsATimestamp(loader);
    app := new App.Init(loader, initial.value);
  }

  // ---------------------------------------------------------------------
  // Timestamp count in Spatial mode
  // ---------------------------------------------------------------------

  /** In Spatial mode the loader counts timestamps along the last axis while
      frames are read along the first: on a [2, 1, 3] file, timestamp 2 is
      reachable with two `->` clicks but its read is out of bounds. */
  lemma SpatialCountUsesWrongAxis()
    ensures var src := Source([2, 1, 3], [1, 1, 3], Compression("None"), 1.0, 0.0, [0, 1, 2, 3, 4, 5]);
      && NewDataLoader(src, Spatial).Ok?
      && NewDataLoader(src, Spatial).value.nTimestamps == 3
      && AfterPresses(3, 0, [Forward, Forward]) == 2
      && TimestampData(NewDataLoader(src, Spatial).value, 2) == Err(ReadFailed(OutOfBounds))
  {
    var src := Source([2, 1, 3], [1, 1, 3], Compression("None"), 1.0, 0.0, [0, 1, 2, 3, 4, 5]);
    Product3(2, 1, 3);
    assert src.Valid();
    var ranges := TimestampRanges(Spatial, src.dims, 2);
    assert !RangeFits(ranges[0], 2);
  }

  /** The timestamp count the viewer evidently intends: the extent of the axis
      a timestamp selects from. */
  function TimeAxisLoader<T>(src: Source<T>, chunking: ChunkingMode): (r: Result<DataLoader<T>, ViewError>)
    ensures r.Err? <==> |src.dims| == 0
    ensures r.Ok? ==> r.value.source == src && r.value.chunking == chunking
    ensures r.Ok? ==> r.value.nTimestamps == src.dims[PinnedAxis(chunking, |src.dims|)]
    ensures chunking == Temporal ==> r == NewDataLoader(src, Temporal)
  {
    if |src.dims| == 0 then Err(NoDimensions)
    else Ok(DataLoader(src, src.dims[PinnedAxis(chunking, |src.dims|)], chunking))
  }

  /** With the corrected count, on any three-dimensional file without empty
      axes and in both modes, a timestamp has a frame exactly when it is below
      the count: every timestamp the buttons can reach is readable, and every
      readable timestamp is reachable. */
  lemma CorrectedLoaderReadsEveryTimestamp<T>(src: Source<T>, chunking: ChunkingMode, ts: nat)
    requires src.Valid() && |src.dims| == 3 && src.dims[0] > 0 && src.dims[1] > 0 && src.dims[2] > 0
    ensures TimestampData(TimeAxisLoader(src, chunking).value, ts).Ok? <==> ts < TimeAxisLoader(src, chunking).value.nTimestamps
  {
    var loader := TimeAxisLoader(src, chunking).value;
    TimestampRangesFit(chunking, src.dims, ts);
    ThreeDimensionalFrame(loader, ts);
  }
}
