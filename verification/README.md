# OM file tools: a verified model

This project models the three command-line tools of the OM file tools
repository, which work on OM array files through the `omfiles_rs` library:

- **om_temporal_to_spatial** rewrites a `[lat, lon, time]` variable as
  `[time, lat, lon]`, using one whole time frame per chunk. It reads one time
  slice at a time, moves the unit time axis to the front, and appends the
  slice to a writer. It then finalizes the array, writes its metadata record
  (`"data"`, no children) and writes the trailer.
- **omview** shows one time step of a variable as a heatmap. Its logic
  outside the GUI is modelled:
  - the `--chunking spatial|temporal` option and the command line;
  - the loader's timestamp count;
  - the read request for one timestamp and the reshape to a 2-D frame;
  - the `<-` / `->` buttons that move the current timestamp.
- **omdump** prints the variable tree. Every variable gets a six-line
  block, in pre-order, indented two spaces per level, with paths built
  from the names (or `child_<i>`).

The library is not part of this model, so it is treated abstractly:

- **Reader.** A variable is its dimensions, chunk dimensions, codec
  settings and decoded contents in row-major order (`Arrays.Source`). A
  range-bounded read is an exact row-major window onto those contents
  (`Arrays.Extract`).
- **Reader validation.** The model assumes these rules for what the
  library accepts:
  - a read needs one range per dimension, each with
    `start < end <= extent`;
  - an array layout needs one chunk extent per dimension, each in
    `1 ..= extent`.
- **Writer.** The output file is the class `Transcoder.FileWriter`. It
  holds a state that only moves forward and an append-only sequence of data
  chunks. A ghost event log is checked against the two-phase protocol
  (prepare, appends, finalize, array record, trailer).

Modules:

| file | module | contents |
|---|---|---|
| wrappers.dfy | Wrappers | `Option`, `Result` |
| arith.dfy | Arith | small non-linear arithmetic facts |
| arrays.dfy | Arrays | shapes, row-major offsets, the abstract reader |
| transcoder.dfy | Transcoder | axis permutation, the writer class, the conversion loop |
| text.dfy | Text | decimal rendering, joining, ASCII lower-casing |
| dump.dfy | Dump | the variable tree and the dump's lines |
| viewer.dfy | Viewer | chunking mode, arguments, slice selection, navigation |

## Model

| member | source | states |
|---|---|---|
| Arrays.Read | src/bin/om_temporal_to_spatial.rs:65-67 | A read succeeds exactly when there is one non-empty, in-bounds range per dimension. The error is ShapeMismatch exactly when the count of ranges is wrong. The block holds the product of the range lengths. |
| Arrays.ExtractAt | src/bin/omview.rs:74 | Element `c` of a read block is element `start + c` of the stored array, at the row-major offsets of both shapes. |
| Transcoder.PermuteAxes201At | src/bin/om_temporal_to_spatial.rs:72 | After `permuted_axes([2,0,1])` of an `a × b × c` array, element `(k,i,j)` is input element `(i,j,k)`. |
| Transcoder.PermuteUnitAxis | src/bin/om_temporal_to_spatial.rs:71-72 | When the moved axis has extent 1, the permutation leaves the row-major sequence unchanged. |
| Transcoder.TimeSliceRangesFit | src/bin/om_temporal_to_spatial.rs:63-66 | The request `[0,lat) × [0,lon) × [t,t+1)` is valid exactly when lat and lon are non-zero and `t < time`. Then `t+1` stays below 2^64, and the slice is `[lat, lon, 1]`. |
| Transcoder.TimeFrameAt | src/bin/om_temporal_to_spatial.rs:65-72 | The frame for step t has `lat*lon` elements, and its element `(i,j)` is input element `(i,j,t)`. |
| Transcoder.FrameStep | src/bin/om_temporal_to_spatial.rs:63-77 | One pass of the time loop on a convertible input: the read succeeds, the reshape to `lat × lon × 1` accepts every slice unchanged, the permuted block is frame t, and writing it extends the frames so far by frame t. |
| Transcoder.OutputIsTranspose | src/bin/om_temporal_to_spatial.rs:63-77 | Read as `[time, lat, lon]`, the concatenated chunks have exactly the input's length. Their element `(t,i,j)` is input element `(i,j,t)`. |
| Transcoder.FrameLayout | src/bin/om_temporal_to_spatial.rs:45-47 | Dimensions `[time, lat, lon]` with chunks `[1, lat, lon]` form a valid layout. It is tiled by exactly `time` chunks of `lat*lon` elements each. |
| Transcoder.SessionLogObeysProtocol | src/bin/om_temporal_to_spatial.rs:49-92 | Every call sequence the writer can be in obeys the protocol: prepare, appends, finalize, array record, trailer. |
| Transcoder.ProtocolIsSessionLog | src/bin/om_temporal_to_spatial.rs:49-92 | Conversely, every call sequence obeying the protocol is one of those sessions. |
| Transcoder.NothingAppendedAfterFinish | src/bin/om_temporal_to_spatial.rs:84-92 | After `finalize` no data chunk is appended and nothing is prepared again. The trailer directly follows the array record. |
| Transcoder.FileWriter.constructor | src/bin/om_temporal_to_spatial.rs:39-42 | A new writer is open, holds no chunks and no records, and its event log is empty. |
| Transcoder.FileWriter.PrepareArray | src/bin/om_temporal_to_spatial.rs:49-57 | Succeeds exactly on a valid layout. It then records dimensions, chunks, compression, scale factor and offset as given, and the writer starts appending. Otherwise nothing changes. |
| Transcoder.FileWriter.WriteData | src/bin/om_temporal_to_spatial.rs:75-77 | Appends one whole chunk after those already written. Layout and records are unchanged and the protocol invariant is kept. |
| Transcoder.FileWriter.Finalize | src/bin/om_temporal_to_spatial.rs:84 | Closes the data phase and returns the layout with the chunk count. The chunks are unchanged. |
| Transcoder.FileWriter.WriteArray | src/bin/om_temporal_to_spatial.rs:87-89 | Stores the record (name, meta, children) after all data and returns it. |
| Transcoder.FileWriter.WriteTrailer | src/bin/om_temporal_to_spatial.rs:90-92 | Makes the given record the file's root; this is the last call. |
| Transcoder.TemporalToSpatial | src/bin/om_temporal_to_spatial.rs:7-97 | Returns a usage error exactly when there are 1, 2 or more than 3 arguments, before any writer exists; an empty argument vector panics on the program name. Completes exactly when the input is 3-D with non-empty axes, given that writes and decodes do not fail (see "Left out"). On completion the output is trailered and has layout `[time,lat,lon]` / `[1,lat,lon]` with the input's compression, scale factor and offset. Its chunks are the time frames in increasing t, and its root record is `"data"` with `time` chunks and no children. A run that fails midway never writes the trailer. |
| Text.DecimalRoundTrip | src/bin/omdump.rs:16-19 | Reading back the decimal text of an extent gives the extent. |
| Dump.Header | src/bin/omdump.rs:8-40 | One variable's block is six lines, each starting with the indentation. |
| Dump.NamelessSegmentsDistinct | src/bin/omdump.rs:46 | Nameless siblings at different indices get different `child_<i>` path segments. |
| Dump.Lines | src/bin/omdump.rs:7-55 | A variable's output is six lines per variable reached, and it starts with that variable's own block. |
| Dump.DumpIsPreorder | src/bin/omdump.rs:43-54 | The output is the blocks of a pre-order walk in child-index order, skipping children that cannot be loaded. A child's path is its segment alone under the empty path, and `parent/segment` otherwise; each block is indented two spaces per depth level. |
| Dump.PreorderDepths | src/bin/omdump.rs:52 | Every variable after the first in a walk lies strictly deeper than the start. |
| Dump.DimsTextRoundTrip | src/bin/omdump.rs:15-20 | The Dimensions text, extents joined by `" × "`, reads back as exactly the extents, including the empty list. |
| Dump.ChunksTextRoundTrip | src/bin/omdump.rs:23-32 | The Chunks text reads back as exactly the chunk list; `"none"` stands for the empty list. |
| Dump.DumpMain | src/bin/omdump.rs:57-77 | An error exactly when there is not exactly one argument: a panic for an empty argument vector, the usage error otherwise. Otherwise the output is the `OM File:` line, the banner, then `Lines(root, 0, "")`, the pre-order dump of `Dump.DumpIsPreorder` starting at the root with the empty path: `2 + 6·Count(root)` lines in all. |
| Viewer.ParseChunkingModeCases | src/bin/omview.rs:13-19 | `Spatial` exactly for "spatial" in any letter case, `Temporal` exactly for "temporal" in any letter case, and `None` for every other string. |
| Viewer.ParseChunkingModeIgnoresCase | src/bin/omview.rs:14 | Strings that differ only in letter case parse to the same result. |
| Viewer.ParseViewerArgs | src/bin/omview.rs:240-273 | The argument loop computes exactly the token scan `ViewerArgsOf`, which starts from Temporal with no file. |
| Viewer.DefaultChunkingIsTemporal | src/bin/omview.rs:245-273 | Without `--chunking`, the command line is accepted exactly when it holds one token. That token is the path and the mode is Temporal. |
| Viewer.ScanAcceptsOneFile | src/bin/omview.rs:250-273 | The scan accepts exactly when every `--chunking` is followed by a valid mode word and there is exactly one file token in all (counting one already chosen); that token is the path. A second file token is a usage error whether or not `--chunking` appears. |
| Viewer.ViewerArgsAccepted | src/bin/omview.rs:240-273 | `main` accepts its arguments exactly when there is at least one, every `--chunking` names a valid mode and exactly one other token is given; that token is the path. |
| Viewer.PathIsAnArgument | src/bin/omview.rs:250-266 | An accepted path is one of the tokens, never the option name, and the first positional token wins. |
| Viewer.NewDataLoader | src/bin/omview.rs:29-39 | Fails exactly on a variable without dimensions. Otherwise the timestamp count is the last extent, whatever the mode, and whenever timestamp 0 can be read that count is at least 1. |
| Viewer.BuildRanges | src/bin/omview.rs:47-70 | One range per dimension. The pinned axis (the last in Temporal mode, the first in Spatial mode) gets `[ts, ts+1)` and every other axis `i` gets `[0, dims[i])`. |
| Viewer.TimestampRangesFit | src/bin/omview.rs:47-74 | The request is valid exactly when ts lies inside the pinned axis and every other axis is non-empty. |
| Viewer.GetTimestampData | src/bin/omview.rs:41-79 | The method computes `TimestampData`. Its cases: an index panic for too few dimensions, the read's error, a reshape error when the count is not `rows*cols`, or the `rows × cols` frame. |
| Viewer.ThreeDimensionalFrame | src/bin/omview.rs:58-77 | For 3-D variables the slice always has `rows*cols` elements: `(dims[0], dims[1])` in Temporal mode, `(dims[1], dims[2])` in Spatial mode. A frame is produced exactly when the request is valid. |
| Viewer.FrameCell | src/bin/omview.rs:41-79 | Frame cell `(r,c)` is element `(r,c,ts)` of a Temporal file and element `(ts,r,c)` of a Spatial file. |
| Viewer.ConvertedFileShowsSameFrames | src/bin/omview.rs:41-79 | Timestamp ts of a converted file in Spatial mode is the same frame as timestamp ts of the original in Temporal mode, for every ts. |
| Viewer.PressesStayInRange | src/bin/omview.rs:113-129 | Whatever buttons are pressed, the timestamp stays within `[0, n_timestamps-1]`. |
| Viewer.ForwardReaches | src/bin/omview.rs:122-129 | k presses of `->` from ts land on `min(ts+k, n_timestamps-1)`, so every timestamp is reachable. |
| Viewer.ClicksMoveLikePresses | src/bin/omview.rs:110-131 | Re-reading frames does not affect navigation: the timestamp after any clicks is `AfterPresses` of them. |
| Viewer.ClicksKeepScreenCurrent | src/bin/omview.rs:101-131 | If the screen shows the current timestamp's frame whenever it can be read, it still does after any sequence of clicks. |
| Viewer.App.Init | src/bin/omview.rs:89-99 | The app starts at timestamp 0 showing frame 0, which the caller has read; the screen is then current. |
| Viewer.App.UpdatePlotData | src/bin/omview.rs:101-106 | Shows the current timestamp's frame. A failed read leaves the previous frame on screen. Afterwards the screen is current. |
| Viewer.App.PressBack | src/bin/omview.rs:113-118 | The new timestamp and frame are `Click(…, Back)`: `<-` steps back unless at 0; after a move the frame is the new timestamp's when it can be read and the previous one otherwise; without a move nothing changes. The screen stays current. |
| Viewer.App.PressForward | src/bin/omview.rs:122-129 | The new timestamp and frame are `Click(…, Forward)`: `->` steps forward unless at `n_timestamps-1`; after a move the frame is the new timestamp's when it can be read and the previous one otherwise; without a move nothing changes. The screen stays current. |
| Viewer.App.Update | src/bin/omview.rs:110-131 | `<-` is handled before `->` in one frame. The new timestamp and frame are `Clicks` of that press sequence, the timestamp is `AfterPresses` of it, and the screen stays current. |
| Viewer.FirstFrameNeedsATimestamp | src/bin/omview.rs:89-99 | If the first frame can be read, the timestamp count is at least 1, so `n_timestamps - 1` never underflows. |
| Viewer.NewApp | src/bin/omview.rs:89-99 | Fails exactly when timestamp 0 cannot be read. Otherwise it starts at timestamp 0 showing that frame. |
| Viewer.SpatialCountUsesWrongAxis | src/bin/omview.rs:31-32 | On a Spatial `[2, 1, 3]` file the loader counts 3 timestamps. Timestamp 2 is reachable, but its read is out of bounds. |
| Viewer.TimeAxisLoader | src/bin/omview.rs:29-39 | The corrected loader counts along the pinned axis; in Temporal mode it is exactly the original loader, so the correction changes only Spatial mode. |
| Viewer.CorrectedLoaderReadsEveryTimestamp | src/bin/omview.rs:113-129 | With the corrected count, on any 3-D file without empty axes and in both modes, timestamp ts has a frame exactly when `ts < n_timestamps`: every timestamp the buttons reach is readable and every readable one is reachable. |

## Left out

- The GUI (panels, button widgets, textures, hover tooltips), the heatmap colouring (`viridis_color`) and min/max normalisation: presentation code and `f32` arithmetic.
- Opening, memory-mapping and creating files, and all `println!`/`eprintln!` output: I/O. The converter's input is given as an already-opened variable, and a file that cannot be opened is not a modelled outcome.
- Internals of `omfiles_rs`: chunk encoding, compression codecs, the trailer's byte layout and scale/offset de-quantisation. The reader returns the decoded values directly.
- Arrays.Read: its validation (one range per dimension, `start < end <= extent`) is the model's assumption about the reader, because the library's own checks are not part of this model.
- Transcoder.FileWriter.PrepareArray: accepts a layout under the model's assumption about the writer (one chunk extent per dimension, each in `1 ..= extent`); other library checks are not modelled.
- Transcoder.FileWriter.WriteData: models only whole-chunk appends of exactly one chunk, the only kind the converter makes; partial or offset writes are not modelled.
- Transcoder.TemporalToSpatial: a panic (`expect`, out-of-range index) is a `Panicked` status and the writer's contents at that point; process exit codes are not modelled.
- Transcoder.TemporalToSpatial: I/O failures of `write_data`, `write_array` and `write_trailer`, and decode failures of the slice read, are not modelled: the `FileWriter` methods always succeed and `Arrays.Read` succeeds on every valid request. The source panics on each through `expect` (src/bin/om_temporal_to_spatial.rs:67, 75-77, 87-92), so `Completed <==> |args| == 3 && Convertible(dims)` holds for the model only under that assumption.
- Transcoder.TemporalToSpatial: the element type is a type parameter. The converter fixes it to `f32` for the read and the output array; an input stored with another element type, which the library would reject, is not a modelled outcome.
- Viewer.GetTimestampData: reads with whatever element type the variable holds; the `f32`-only read of the source, and its failure on other stored types, are not modelled.
- Viewer.NewDataLoader: on a variable without dimensions, `dims.last().unwrap()` panics in the source (src/bin/omview.rs:32); the model returns `Err(NoDimensions)` instead. `main`'s `expect` panics on any loader error, so the process ends either way.
- Viewer.TimestampData: a variable with too few dimensions for the mode's rows and columns gives `Err(IndexPanic)`, where the source panics on `dims[1]` or `dims[2]`. The running app never meets it, because `Viewer.App.InRange` requires the frame shape to exist, as the source's first read does.
- Viewer.ParseChunkingMode: lower-cases ASCII letters only, while Rust's `to_lowercase` is full Unicode. No other character lower-cases to a single letter of "spatial" or "temporal", so the accepted strings are the same.
- Viewer.ParseViewerArgs: an empty argument vector, where the source would panic reading the program name, is reported as a usage error like the other usage failures.
- Viewer.GetTimestampData: the `usize` casts of the extents are not modelled, because on 64-bit targets they are exact.
- `Arc` sharing of the loader and the multi-threading of the GUI runtime are not modelled.

## Findings

| source | as written | input that shows it | evidently intended | confidence | as-written member | corrected member |
|---|---|---|---|---|---|---|
| src/bin/omview.rs:31-32 | `n_timestamps` is the last extent in both modes. In Spatial mode that is the lon axis of a `[time, lat, lon]` file, while frames are read along the first axis. | Spatial file `[2, 1, 3]`: two `->` clicks reach timestamp 2, whose read `[2,3) × [0,1) × [0,3)` is out of bounds. | In Spatial mode the count is the extent of the first (time) axis, so every reachable timestamp can be read and every time step is reachable. | high; not executed | Viewer.SpatialCountUsesWrongAxis | Viewer.CorrectedLoaderReadsEveryTimestamp |
