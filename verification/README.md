# Verified model of rfobserver's sample-exact core

rfobserver records, schedules and analyses a radio sample stream that loses samples. One
question runs through its hardest code: which sample, at which time, ended up where? This
project models that code in Dafny and proves what it promises. A receive gap `(off, lost)`
means that `lost` samples are missing right before `chunk[off]`; the time of a stream position
is the position plus everything lost at or before it.

`dafny verify dfyconfig.toml` checks the whole project.

| file | models |
|---|---|
| `Timeline.dfy` | a lossy stream laid out on its time axis, shared by all consumers |
| `CutFile.dfy`, `Cutter.dfy` | the scheduled-run cutter: cutting to the sample, zero fill, reading back, the stream-to-file map |
| `PsdPlan.dfy`, `PsdRows.dfy` | a run's PSD rows: trimming, row numbers and when two collide; the reorder buffer, holes, the close |
| `RunRows.dfy` | the cutter and the rows of one run together, as chunks are fed and grids come back |
| `Runs.dfy` | the runs of a schedule and which are missed or started |
| `GapBook.dfy`, `Recorder.dfy` | the recorder's gap accounting, with a start racing the receiver |
| `Lead.dfy`, `LeadBursts.dfy` | the lossless lead protocol between the receiver and the burst thread, and with it the detector: where the bursts handed over can start |
| `Ring.dfy` | the circular sample buffer |
| `UsbQueue.dfy` | the RTL-SDR receiver's lossy queue between two threads |
| `FmStages.dfy` | the chunked box-car, filter and resampler of the FM demodulator |
| `RowWindow.dfy`, `BurstTracker.dfy`, `RollingBurst.dfy` | the rolling burst detector: window, tracks, frequency index |
| `Measure.dfy`, `Merging.dfy` | measuring all burst regions at once, and merging bursts |
| `Isolation.dfy`, `Gate.dfy` | the isolation stage's submit, worker and stop protocol, and its gate |
| `Clock.dfy` | the sliding-minimum capture clock |
| `Fleet.dfy`, `Cursor.dfy`, `Paging.dfy` | fleet paging: the merge, the cursor text, and successive requests |
| `Fold.dfy` | folding windows and tier rows into time buckets |
| `Arith.dfy`, `Rounding.dfy`, `Wrappers.dfy` | small shared facts and types |

Objects that the program updates in place are classes with the same fields, and their methods
are proved against plain histories kept in ghost fields. Threads are modelled by one method per
atomic step, enabled by its `requires`; an invariant kept by every step holds over every
interleaving. Times, rates and powers are exact reals; sample values are opaque or integers.

## Where the code does not do what it says

Each of these is kept as the code has it, with a concrete case and the exact condition.

- A run that is read back from the ring over a receive gap is misplaced in time: the cutter
  does not know gaps inside the stretch (`Cutter.LateStartOverGap`). The time law holds exactly
  when no loss was hidden (`Cutter.RunCutter.TimeLaw`).
- A recording's noted start sample is not in the file when the first chunk did not fit: it is
  longer than the RAM buffer, and a shorter one follows (`Recorder.DroppedFirstChunk`), or 64
  empty chunks filled the disk queue before it (`Recorder.EmptyChunksFillTheQueue`). It is right
  exactly when a pre-roll was written or the first non-empty chunk fitted
  (`Recorder.StreamRecorder.StartSampleLaw`), on disk always with fewer empty chunks
  (`Recorder.StreamRecorder.DiskStartLaw`).
- PSD row numbers are rounded to even. When zero fill ends exactly midway in a row, every second
  row behind it takes the number of the one before, one of the two is not in the file, and a hole
  is left (`RunRows.HalfRowOfZeros`, `PsdPlan.TieCollides`). Two rows share a number exactly when the
  zeros counted since the noted index are half a row, up to whole rows, with an odd number of
  rows so far and no zero fill between the two (`PsdPlan.SameNumberIff`, `PsdPlan.CollidesIff`);
  no row of the run is lost exactly when rows that share a number do not differ
  (`PsdRows.RowBuffer.AllInPlaceIff`, `PsdPlan.InjectiveIff`).
- The file index of the first PSD row is noted with the first grid that comes back. When that is
  before the boundary's chunk was fed, zeros right before the boundary are missed, and rows
  collide that otherwise would not (`RunRows.OffsetNotedEarly`). It is the index in the finished
  file exactly when no such zeros became known later (`PsdRows.RowBuffer.OffsetLaw`). The
  condition for collisions is stated for the index as noted, so it covers this case.
  One more consequence: when more than half a row of zeros before row 0 is missing in the noted
  index, row 0 gets a larger number than 0, and of rows that are to be handed on as they come none
  is before the close (`PsdRows.NothingBeforeClose`). Otherwise everything up to the last row that
  arrived without one missing before it is handed on: exactly then (`PsdRows.RowBuffer.KeepsUpIff`).
- The isolation stage's last drain is described as a precaution against batches that slipped in;
  none can (`Isolation.IsolationStage.LastDrainFindsNoBatch`), but it is what removes a sentinel
  that the worker left behind (`Isolation.SentinelLeftBehind`).
- The gate's budget per second holds per window; a second across two windows can see twice as
  much, and never more (`Gate.TwoWindowsMeet`, `Gate.AnySecond`). For calls within less than a
  second it holds exactly when they do not run from a window with room left into the next
  (`Gate.BudgetHoldsIff`).
- The lead limit's description says that a burst handed over with the grid ending at `done_end`
  starts at the earliest an evaluation interval, three rows and the longest burst before that.
  Evaluations happen at the ends of grids only, so a burst still at the edge at one evaluation can
  start earlier (`LeadBursts.EarlierThanDocumented`); the claim holds for those bursts exactly when
  the interval is a whole number of grids (`LeadBursts.DocumentedReachIff`). The reserve is right
  all the same: counted from the published position, one grid back, such bursts are in reach, with
  a guard and a row to spare for samples lost with grids (`LeadBursts.BurstThread.HandedIsHeld`,
  `LeadBursts.LossesIff`).
- The lossless lead makes progress only as long as grids arrive: failing workers can hold the
  receiver for good (`Lead.HeldForGood`, and for all sizes `Lead.FailInARow`), with nothing
  pending exactly when what was lost since the last finished grid exceeds what the limit leaves
  beside a chunk (`Lead.LeadProtocol.HeldForGoodIff`, in chunks `Lead.LeadProtocol.FailuresHoldIff`).
- A batch whose processing raises is never settled, so the replay's settled test then never
  passes (`Isolation.IsolationStage.SettledIff`).

## Model

| member | source | states |
|---|---|---|
| Cutter.RunCutter.Feed | src/rfobserver/schedules/cutter.py:152-177 | For any chunk with any receive gaps, pending, running or done: what the run file becomes is a window of the stream's time axis from the requested sample, cut at the run's length; the ops returned are exactly the file's new cells; a done or retuned run changes nothing; a run begins in this chunk if and only if the requested instant lies before the chunk's end in time. |
| Cutter.RunCutter.Begin | src/rfobserver/schedules/cutter.py:179-233 | The three ways to start (in the chunk, inside a loss, read back from the ring) each give the window of the time axis from the requested sample, with the stream position the file starts at, the lateness when the ring no longer held the start, and a placed time at most half a sample off. |
| Cutter.Place | src/rfobserver/schedules/cutter.py:69-80 | The offset and head zeros found are those that make zeros, then the chunk laid out from the offset, equal to the chunk laid out in time from the target sample on. |
| Cutter.HalfSample | src/rfobserver/schedules/cutter.py:179-197 | The start placed on the sample grid is at most half a sample from the requested instant. |
| Cutter.InnerIs | src/rfobserver/schedules/cutter.py:58-66 | Splitting a chunk's gaps keeps exactly those behind the first sample, in order, and with what was lost before it loses nothing. |
| Cutter.RunCutter.WriteNext | src/rfobserver/schedules/cutter.py:235-252 | A later chunk adds zeros for positions that never reached the run, zeros for losses before the chunk, and the chunk with its inner losses, in that order. |
| Cutter.RunCutter.WriteIq | src/rfobserver/schedules/cutter.py:257-262 | Samples are written up to the run's end and no further, each under its own stream position. |
| Cutter.RunCutter.WriteZeros | src/rfobserver/schedules/cutter.py:264-280 | Zero fill up to the run's end keeps the books: the gap list stays the file's maximal zero runs, and a break is noted when the fill shifts later stream positions. |
| CutFile.FillRunsAreMaximal | src/rfobserver/schedules/cutter.py:264-285 | Gaps booked by extending or appending are exactly the maximal runs of filled cells of the file: disjoint, not adjacent, covering every filled cell, and they sum to the number of filled cells. |
| CutFile.SamplesKeepBook | src/rfobserver/schedules/cutter.py:257-262 | Appending samples, in full or cut short at the end, keeps the books equal to those recomputed from the file. |
| CutFile.SkipsKeepBook | src/rfobserver/schedules/cutter.py:240-246 | So does zero fill for stream positions that never came, without shifting later positions. |
| CutFile.LossesKeepBook | src/rfobserver/schedules/cutter.py:264-285 | So does zero fill for lost samples, with several breaks at one position and when the run ends inside the fill. |
| CutFile.ZerosMonotone | src/rfobserver/schedules/cutter.py:128-135 | The zero fill found by bisection never decreases with the position, and past the last break it is all of it. |
| Cutter.RunCutter.FileIndexLaw | src/rfobserver/schedules/cutter.py:128-141 | For every stream position from the start up to `stream_end`, the file's cell at `file_index` is that stream sample, or its zero when it never reached the run; also when zero fill was cut by the run's end. |
| Cutter.RunCutter.FileIndexIncreases | src/rfobserver/schedules/cutter.py:128-135 | `file_index` increases strictly over the positions in the file. |
| Cutter.RunCutter.FileIndexCovers | src/rfobserver/schedules/cutter.py:128-135 | Every file cell that is not zero fill is the image of its own stream position. |
| Cutter.RunCutter.RecordedIsContiguous | src/rfobserver/schedules/cutter.py:104-112 | Status "recorded" means: full length, no gap, and file cell `i` is the `i`-th stream sample from the start, for all `i`. |
| Cutter.RunCutter.StatusIff | src/rfobserver/schedules/cutter.py:104-112 | What a run is reported as, in both directions: recorded if and only if it ended by itself at its full length and every file cell is a stream sample; pending and missed exactly before a start, recording exactly between start and end. The lost count is the number of cells that are no samples. |
| Cutter.RunCutter.FileIsBehind | src/rfobserver/schedules/cutter.py:137-143 | The file's stream end never passes the position fed last, and the noted zero fill grows in position and in zeros. |
| Cutter.RunCutter.TimeLaw | src/rfobserver/schedules/cutter.py:152-285 | File index equals time from the requested start for every sample in the file, if and only if no loss was hidden from the cutter (in a stretch read back from the ring, or in one that never reached it) or no sample was written. |
| Cutter.HiddenFlat | src/rfobserver/schedules/cutter.py:213-214 | Hidden losses only grow along the stream, and stay the same over a stretch exactly when none is hidden there. |
| Cutter.LateStartOverGap | src/rfobserver/schedules/cutter.py:210-226 | A run read back over a ring stretch with a receive gap in it: the documented time law fails for it. |
| Timeline.AxisAtTime | src/rfobserver/schedules/cutter.py:3-25 | The time axis holds each stream position's sample at its position plus everything lost at or before it. |
| Timeline.AxisOnlyAtTime | src/rfobserver/schedules/cutter.py:3-25 | The time axis holds nothing else but losses. |
| Timeline.LaidWholeChunk | src/rfobserver/schedules/cutter.py:235-252 | Laying a chunk out gap by gap gives its part of the time axis. |
| Ring.CircularBuffer.Write | src/rfobserver/capture/buffer.py:239-260 | After any write, wrapped or larger than the buffer, the ring refines the history with the new samples appended. |
| Ring.CircularBuffer.ReadRange | src/rfobserver/capture/buffer.py:304-323 | Returns the history's slice exactly when the range is non-empty and still held, else nothing. |
| Ring.CircularBuffer.ReadWithPosition | src/rfobserver/capture/buffer.py:266-281 | Returns everything held, which is the history's tail, and the stream position behind it. |
| Ring.CircularBuffer.ReadTailWithPosition | src/rfobserver/capture/buffer.py:325-333 | Returns the last samples of the history, as many as asked for and held. |
| Ring.CircularBuffer.Bounds | src/rfobserver/capture/buffer.py:296-302 | The oldest position held and the number written, in terms of the history. |
| Recorder.StreamRecorder.TimeLaw | src/rfobserver/pipeline/streaming.py:1890-2037 | Over every interleaving of a start, a stop and the receiver's log-gaps, ring-write, record-chunk steps: the file's samples are distinct stream samples in order, and file index plus the gaps listed at or before it is the sample's time after the first sample; the lost count is everything missing. |
| Recorder.StreamRecorder.GapListLaw | src/rfobserver/pipeline/streaming.py:2007-2025 | The gap list is in strictly increasing order, inside the file or at its end, and sums to the lost count unless truncated, which happens only at the maximum length. |
| Recorder.StreamRecorder.OverflowLaw | src/rfobserver/pipeline/streaming.py:1982-2025 | In every state of a recording the overflow count is exactly the number of receive gaps logged behind the file's first sample, in written chunks, dropped chunks and missed stretches alike, when every reported gap lost something. |
| Recorder.StreamRecorder.StartSampleLaw | src/rfobserver/pipeline/streaming.py:2229-2248 | The noted start sample is the file's first sample if and only if a pre-roll was written or the first non-empty chunk that came to an empty file fitted: the RAM buffer was as long as it, or the disk queue had a slot. |
| Recorder.DroppedFirstChunk | src/rfobserver/pipeline/streaming.py:1996-2005 | A RAM buffer shorter than the first chunk and a shorter second chunk: the noted start sample is not in the file. |
| Recorder.StreamRecorder.DiskStartLaw | src/rfobserver/pipeline/streaming.py:2156-2179 | On disk the noted start sample is always the file's first, unless as many empty chunks as the queue has slots came before the first sample. |
| Recorder.EmptyChunksFillTheQueue | src/rfobserver/pipeline/streaming.py:1962-1972 | A disk recording whose queue, with the writer stalled, is filled by 64 empty chunks: the noted start sample is not in the file. |
| Recorder.LoggingKeepsPlaced | src/rfobserver/pipeline/streaming.py:1700-1712 | Logging a chunk's gaps does not disturb what a recording has already accounted for. |
| Recorder.WriteKeepsPlaced | src/rfobserver/pipeline/streaming.py:1908-1980 | Writing samples with their trimmed gaps keeps every file sample at its time. |
| Recorder.LoseKeepsPlaced | src/rfobserver/pipeline/streaming.py:1982-2005 | Losing a stretch or a chunk, with the receive losses in it, keeps the account exact. |
| Recorder.PrerollPlaced | src/rfobserver/pipeline/streaming.py:194-204 | The gaps mapped onto a pre-roll put every pre-roll sample at its time, whatever part of it was accepted. |
| Recorder.ChunkMatches | src/rfobserver/pipeline/streaming.py:1938-1960 | A chunk's own gaps, trimmed when its head was already recorded, match the log from the first new sample on. |
| Recorder.StreamRecorder.RecordChunk | src/rfobserver/pipeline/streaming.py:1908-1980 | The recording step after the ring write: overlaps are trimmed, missing stretches are booked, a chunk is written if and only if the RAM buffer or the disk queue has room for it and booked as dropped otherwise, and the account stays exact. |
| Recorder.StreamRecorder.StartMap | src/rfobserver/pipeline/streaming.py:2052-2227 | The file becomes the pre-roll's first samples: all of it on disk or when the RAM buffer is long enough, else as many as the buffer holds; a disk recording's queue then holds the pre-roll and the grids with rows in it, as many as fit. Gaps are placed against the log as it is then, while the receiver may be between any two steps. |
| Recorder.StreamRecorder.StartRead | src/rfobserver/pipeline/streaming.py:2108-2113 | The pre-roll is the stream's newest samples, as many as asked for and held, on either thread and between any two steps of the receiver. |
| GapBook.AddedOk | src/rfobserver/pipeline/streaming.py:2007-2025 | Adding a gap, merged or not, truncated or not, keeps the list ordered and the lost count equal to its sum. |
| GapBook.LoggedSum | src/rfobserver/pipeline/streaming.py:1700-1712 | A chunk's logged gaps hold, between any two positions, exactly the chunk's losses there. |
| FmStages.BoxStage.Process | src/rfobserver/modules/fm_demod.py:258-264 | For any way of cutting the input, the outputs so far are the box-car of everything fed so far, and the tail is what it left over. |
| FmStages.FirStage.Process | src/rfobserver/modules/fm_demod.py:296-315 | For any way of cutting the input, the outputs so far are the one-shot filtering and decimation of everything fed so far; the phase stays within one decimation step. |
| FmStages.FirStage.OverlapSave | src/rfobserver/modules/fm_demod.py:302-310 | The kept outputs of the circular convolution are the linear convolution's. |
| FmStages.KeptIndicesDoNotWrap | src/rfobserver/modules/fm_demod.py:302-310 | No index used by a kept output wraps around the transform length. |
| FmStages.FftFits | src/rfobserver/modules/fm_demod.py:303 | The transform length by bit length covers the input. |
| FmStages.PhaseFormula | src/rfobserver/modules/fm_demod.py:313-314 | The carried phase formula is where the next kept output falls in the next piece. |
| FmStages.EveryCut | src/rfobserver/modules/fm_demod.py:312-314 | Taking every `d`-th element piece by piece with the carried phase is taking every `d`-th element of the whole. |
| FmStages.ResampleStage.Process | src/rfobserver/modules/fm_demod.py:317-334 | For any way of cutting the input into non-empty pieces, the outputs so far are the linear interpolation of everything fed so far at multiples of the step, and all that fit. |
| FmStages.ResampleStage.PositionLaw | src/rfobserver/modules/fm_demod.py:317-334 | The next position never falls before the one sample kept. |
| FmStages.BoxAt | src/rfobserver/modules/fm_demod.py:395-410 | Output `i` of the one-shot box-car is the mean of its own `d` samples. |
| FmStages.SumAdds | src/rfobserver/modules/fm_demod.py:395-410 | A run's sum is that of its parts, and the sum of one sample is the sample. |
| FmStages.FilterAllAt | src/rfobserver/modules/fm_demod.py:296-315 | Output `k` of the one-shot filter is the tap sum at input `k * d`. |
| FmStages.FirOfOne | src/rfobserver/modules/fm_demod.py:302-310 | A single sample comes out weighed by the tap as many samples back, and by none when there is no such tap. |
| FmStages.FirAdds | src/rfobserver/modules/fm_demod.py:302-310 | What comes out of a sum is the sum of what comes out. |
| FmStages.InterpMeans | src/rfobserver/modules/fm_demod.py:327-331 | The resampled value at an integer position is the sample there, and between two samples it moves by the same share of their difference as the position does of one. |
| FmStages.MaxDecimationIs | src/rfobserver/modules/fm_demod.py:421-423 | The decimation is the largest that keeps the rate at 250 kHz and at five quarters of the channel's bandwidth, or 1 when there is none. |
| FmStages.PlanDecimation | src/rfobserver/modules/fm_demod.py:413-431 | The plan maximises the filter's factor and then the total over the upper fifth of the allowed decimations, or leaves all of it to the filter when it fits. |
| FmStages.LargePlansUseWholeFir | src/rfobserver/modules/fm_demod.py:413-431 | From 75 on the plan always uses the largest filter factor. |
| BurstTracker.Tracker.Absorb | src/rfobserver/processing/rolling_burst.py:210-271 | The tracks after a detection are exactly those that a scan of all tracks in insertion order gives. The detection goes to the first track whose frequencies it overlaps within the tolerance and that is at most three rows away, or starts a new track; and after any run of detections every track shows exactly its own: the smallest row and frequency intervals that hold them, the first of the strongest peaks, the newest one's state. The index and order stay valid. |
| BurstTracker.AbsorbMeans | src/rfobserver/processing/rolling_burst.py:234-256 | One detection on the first track it continues: rows and frequencies become the smallest intervals that hold both, the peak is the larger one and the older on a tie, the evaluation and the growing state are the detection's, number and emitted mark stay, and no other track changes. |
| BurstTracker.AbsorbAdds | src/rfobserver/processing/rolling_burst.py:258-271 | A detection that continues no track becomes the last track, with its rows, frequencies and peak, not emitted. |
| BurstTracker.MatchesIff | src/rfobserver/processing/rolling_burst.py:235-239 | A detection matches a track if and only if its frequencies overlap the track's, widened by the tolerance, and at most three rows lie between the two. |
| BurstTracker.FingerprintReports | src/rfobserver/processing/rolling_burst.py:331-366 | An emitted burst reports exactly the detections of its track: their first and last row, the whole of their frequencies, the first of their strongest peaks, and as samples the recorded ones from its first row to the end of its last, whenever both are kept. |
| BurstTracker.FinishedAre | src/rfobserver/processing/rolling_burst.py:314-325 | Emitted are exactly the tracks not emitted before that end before the window, or that this evaluation saw and found no longer growing. |
| BurstTracker.KeptExactly | src/rfobserver/processing/rolling_burst.py:314-328 | Kept are exactly the tracks that end in the window, marked when they are emitted. |
| BurstTracker.Tracker.Candidates | src/rfobserver/processing/rolling_burst.py:289-296 | The candidates are tracks, in insertion order and without repeats, and every matching track is among them. |
| BurstTracker.Tracker.FindMatch | src/rfobserver/processing/rolling_burst.py:235-241 | The first matching candidate is the first match of the full scan, and there is none exactly when the scan finds none. |
| BurstTracker.ClosenessIsOverlap | src/rfobserver/processing/rolling_burst.py:224-238 | The test on centres and bandwidths holds if and only if the burst overlaps the track's interval widened by the tolerance. |
| BurstTracker.MatchSharesBucket | src/rfobserver/processing/rolling_burst.py:273-287 | A burst shares a bucket with every track that it matches. |
| BurstTracker.OverlapSharesBucket | src/rfobserver/processing/rolling_burst.py:273-277 | Two overlapping intervals touch a common bucket. |
| BurstTracker.Tracker.IndexTrack | src/rfobserver/processing/rolling_burst.py:279-287 | A track ends up under every bucket that its widened interval touches, and nothing else changes. |
| BurstTracker.Tracker.RebuildIndex | src/rfobserver/processing/rolling_burst.py:298-304 | After tracks were dropped the index again holds every track under all its buckets and only tracks. |
| BurstTracker.Tracker.CollectFinished | src/rfobserver/processing/rolling_burst.py:306-329 | Each due track is emitted with the fingerprint that reports its detections, in order, and those not scrolled out are kept. |
| BurstTracker.CollectKeepsLedger | src/rfobserver/processing/rolling_burst.py:306-329 | Over any run no track is emitted twice, a kept track is marked exactly when it was emitted, and a dropped track was emitted. |
| BurstTracker.AbsorbKeepsLedger | src/rfobserver/processing/rolling_burst.py:210-271 | Matching a detection emits nothing and loses no track. |
| BurstTracker.Tracker.ToFingerprint | src/rfobserver/processing/rolling_burst.py:331-366 | A fingerprint's samples are the recorded position of the first row and of the last row plus one slice, or none. |
| RowWindow.RollingWindow.Feed | src/rfobserver/processing/rolling_burst.py:120-142 | After wrapped writes the window and the twice as long position buffer refine the history of all rows and recorded positions. |
| RowWindow.RollingWindow.Grid | src/rfobserver/processing/rolling_burst.py:158-168 | The evaluated grid is the last rows of the history, at most a window, in order of arrival. |
| RowWindow.RollingWindow.Span | src/rfobserver/processing/rolling_burst.py:342-353 | Positions are given exactly when both rows are still recorded and in order. |
| RowWindow.PositionsAre | src/rfobserver/processing/rolling_burst.py:134-140 | Recorded row positions are a slice apart from the grid's first sample on, and negative when they are unknown. |
| RollingBurst.RollingBurstDetector.Feed | src/rfobserver/processing/rolling_burst.py:108-208 | An evaluation happens exactly when enough rows came since the last one and the window holds as many; its tracks and fingerprints are a plain function of the tracks before and the last rows fed, and each fingerprint reports its track's detections. Without an evaluation nothing is emitted or matched. |
| RollingBurst.RollingBurstDetector.Evaluate | src/rfobserver/processing/rolling_burst.py:156-208 | The detections behind the tracks are afterwards those of before and this evaluation's, each on its absolute rows and growing exactly when it ends at most three rows before the window's edge, and no others; all are absorbed by plain scans, then the due tracks collected. |
| Measure.MeasureRegions | src/rfobserver/processing/burst.py:85-87 | For any labelling: one record per label with a high cell, in label order. Over the grid's rows and columns it holds exactly its region's smallest box, its largest power, and the column of the first cell with that power, row by row. |
| Measure.RowAndColumn | src/rfobserver/processing/burst.py:155-157 | A cell's row and column are the only ones that give the cell's place in the flat grid. |
| Measure.PeaksFound | src/rfobserver/processing/burst.py:162-166 | The vectorised search gives, for each segment and in order, the first place of its peak. |
| Measure.SegmentIsRun | src/rfobserver/processing/burst.py:152-153 | The segments found by comparing neighbours are exactly the runs of equal labels. |
| Measure.SortIsStable | src/rfobserver/processing/burst.py:148-152 | The stable sort orders the kept cells by label and then by position, and keeps all of them. |
| Measure.GroupedExact | src/rfobserver/processing/burst.py:142-151 | The lookup table keeps exactly the cells of valid labels. |
| Measure.SegmentsAreValid | src/rfobserver/processing/burst.py:152-153 | The segments are the valid labels, each once and in order. |
| Measure.ValidExact | src/rfobserver/processing/burst.py:86-87 | The valid labels are the positive ones with a high cell, sorted and distinct. |
| Merging.MergeBursts | src/rfobserver/processing/burst.py:211-266 | The bursts are cut into consecutive stretches: a burst is joined exactly when it is close to the hull of what was joined so far; each merged burst is the hull of one stretch, with the peak of its first strongest member. |
| Merging.CloseIff | src/rfobserver/processing/burst.py:224-235 | Two bursts are close if and only if their centres are no further apart than half of both bandwidths and the tolerance, and the later starts at most the gap after the earlier has stopped. |
| Merging.MergeIsUnique | src/rfobserver/processing/burst.py:211-266 | There is exactly one way to cut the bursts so, and so one result. |
| Merging.HullGrows | src/rfobserver/processing/burst.py:235-260 | Joining a burst to a hull gives the hull of both. |
| UsbQueue.Receiver.RecvChunk | src/rfobserver/capture/rtlsdr_receiver.py:258-296 | Over every interleaving with the USB thread: sample `k` of a chunk is made of the two bytes of the device's sample with index (handed out before) + `k` + (losses reported up to it), I from the first and Q from the second, each as twice the byte less 255, times 128; gaps are in order inside the chunk; a short chunk means nothing was left; the reported time is the first sample's, reckoned back from its block's arrival. |
| UsbQueue.Receiver.OnBlock | src/rfobserver/capture/rtlsdr_receiver.py:211-220 | A block is queued with the bytes dropped before it, or dropped and counted, and the queue keeps standing for the delivered stream. |
| UsbQueue.Conservation | src/rfobserver/capture/rtlsdr_receiver.py:211-220 | Everything delivered is handed out or reported lost, waiting, carried as dropped before a queued block, or pending as dropped. |
| UsbQueue.TimeAxis | src/rfobserver/capture/rtlsdr_receiver.py:281-285 | A chunk's reported gaps put its samples on the device's own time axis, the one the cutter and the recorder use. |
| UsbQueue.TimeMovesOn | src/rfobserver/capture/rtlsdr_receiver.py:270-294 | Handing out samples moves the reported time on by their duration, and behind a block's last sample it is when the block arrived. |
| UsbQueue.ConversionIsExact | src/rfobserver/capture/rtlsdr_receiver.py:60-63 | With every step in 16 bits the conversion does not wrap, is symmetric, strictly increasing and within 32640. |
| Isolation.IsolationStage.SubmitPut | src/rfobserver/pipeline/isolation.py:182-200 | A batch is accepted exactly when the stage is not stopping, the queue has room and a slot is free; otherwise its candidates are counted; conservation and the slot bound are kept. |
| Isolation.IsolationStage.SettleOne | src/rfobserver/pipeline/isolation.py:331-340 | Each picked burst adds one to the counter of the one state it ended in, and to no other. |
| Isolation.IsolationStage.Raise | src/rfobserver/pipeline/isolation.py:276-282 | A batch given up by an exception leaves exactly its unsettled candidates uncounted. |
| Isolation.IsolationStage.Release | src/rfobserver/pipeline/isolation.py:202-206 | The slot count goes down by the batch's slot and keeps equal to the whole captures held. |
| Isolation.IsolationStage.WorkerDrainCount | src/rfobserver/pipeline/isolation.py:288-298 | A drained batch is counted once, also while the stopper drains too. |
| Isolation.IsolationStage.StopPost | src/rfobserver/pipeline/isolation.py:234-236 | The sentinel is never refused: the queue is empty when it is put. |
| Isolation.IsolationStage.StopReturn | src/rfobserver/pipeline/isolation.py:218-250 | After a stop whose join succeeded nothing is queued, no slot is held, and everything received is settled or was abandoned. |
| Isolation.SentinelLeftBehind | src/rfobserver/pipeline/isolation.py:242-250 | The final drain is needed: there is a run in which the sentinel is still queued after the join. |
| Isolation.IsolationStage.LastDrainFindsNoBatch | src/rfobserver/pipeline/isolation.py:242-250 | From the sentinel's posting to the end of the last drain, whatever submitters and the worker do, the queue is empty or holds the sentinel alone: no batch slips in. |
| Isolation.IsolationStage.SettledIff | src/rfobserver/pipeline/replay.py:170-187 | In every reachable state the first condition of the settled test holds, that every received candidate is settled, if and only if no candidate is queued or in any thread's hands and none was abandoned. |
| Isolation.IsolationStage.SettledMeansIdle | src/rfobserver/pipeline/replay.py:170-187 | Once that condition holds, no batch with a candidate is queued or under way. |
| Isolation.IsolationStage.SlotsBounded | src/rfobserver/pipeline/isolation.py:189-206 | The slot count is at most two and, outside a submit, the number of whole captures held. |
| Isolation.IsolationStage.UnfinishedIff | src/rfobserver/pipeline/isolation.py:252-285 | In every state nothing is unfinished in the queue if and only if it is empty and the worker has no batch; then everything received is settled or was abandoned and no slot is held, unless a thread is in the middle of a submit or a drain. |
| Isolation.IsolationStage.TestIdle | src/rfobserver/pipeline/isolation.py:252-268 | A replay that waits goes on exactly when the queue is empty and no batch is under way, or when the stage stops. |
| Isolation.PutCounts | src/rfobserver/pipeline/isolation.py:193-199 | Queueing an item adds exactly its candidates and its slot. |
| Gate.BurstGate.Pick | src/rfobserver/pipeline/isolation.py:300-329 | Picks from the passing candidates as many as the window has room for, in descending order, none weaker than one left out, those of equal SNR in their order and the first of them; one is left out only when the window's budget is used up; picked and gated-out counts add up to the candidates. |
| Gate.PassingOfSnr | src/rfobserver/pipeline/isolation.py:312-316 | Passing are exactly the candidates of at least the SNR, as often and in the order in which they came. |
| Gate.NowIs | src/rfobserver/pipeline/isolation.py:317-318 | The gate's time is the stream time of the last stop sample of all candidates, and the host's clock only when none has one or the rate is not positive. |
| Gate.AnySecond | src/rfobserver/pipeline/isolation.py:303-310 | Over any run of calls in time order, any stretch shorter than a second sees at most twice the budget. |
| Gate.BudgetHoldsIff | src/rfobserver/pipeline/isolation.py:303-325 | For any call times in order within less than a second: the calls pick at most the budget, however many candidates come, if and only if it is not so that the first call finds the window with room left and the last finds it over. |
| Gate.WindowBudget | src/rfobserver/pipeline/isolation.py:319-323 | Calls within one window share its budget. |
| Gate.TwoWindowsMeet | src/rfobserver/pipeline/isolation.py:319-323 | Twice the budget is reached within a tenth of a second, for every budget. |
| Gate.StrongestSorts | src/rfobserver/pipeline/isolation.py:312-316 | The sort is a descending permutation. |
| Gate.StrongestIsStable | src/rfobserver/pipeline/isolation.py:312-316 | Candidates of equal SNR keep their order. |
| PsdPlan.TrimExact | src/rfobserver/capture/buffer.py:23-51 | Trimming keeps a row if and only if it lies wholly inside the bounds. |
| PsdPlan.BaseIsFirst | src/rfobserver/schedules/engine.py:309-311 | Row 0 is the first row boundary at or after the run's start. |
| PsdPlan.SameNumberIff | src/rfobserver/schedules/engine.py:324 | Row numbers never go back; row `j` and the next get the same number if and only if row `j` starts midway after an odd number and no zero fill lies between the two. |
| PsdPlan.InjectiveIff | src/rfobserver/schedules/engine.py:319-334 | Of the rows that begin before a position, no two have the same number, however far apart, if and only if no two successive ones collide. |
| PsdPlan.CollidesIff | src/rfobserver/schedules/engine.py:324 | In samples: a row starts midway if and only if the zeros counted since the noted index are half a row, up to whole rows; it collides with the next if and only if, besides, the whole rows counted so far are odd in number and no zero fill lies between. |
| PsdPlan.TieCollides | src/rfobserver/schedules/engine.py:324 | Of three successive rows without zero fill between them, the first starting midway, exactly one successive pair shares a number. |
| PsdPlan.NumStepIff | src/rfobserver/schedules/engine.py:324 | Where no zero fill lies between two rows, their numbers differ by one if and only if the first does not start midway. |
| PsdPlan.WithinHalfARow | src/rfobserver/schedules/engine.py:320-324 | The file sample where a row is put is within half a row of the file sample of its first sample, collision or not. |
| PsdPlan.RowsSettle | src/rfobserver/schedules/cutter.py:128-135 | Zero fill that becomes known later, at or after the position reached, changes neither place nor number of a row that begins before it, nor whether it collides. |
| PsdPlan.FitsIff | src/rfobserver/schedules/engine.py:317 | Without losses a row number fits exactly when the row lies inside the run. |
| PsdRows.RowBuffer.Learn | src/rfobserver/schedules/engine.py:119-123 | What is placed, waiting or handed on stays right while later chunks are fed and their zero fill becomes known. |
| PsdRows.RowBuffer.OffsetLaw | src/rfobserver/schedules/engine.py:309-311 | The index noted with the first grid is the first row boundary's index in the finished file if and only if no zeros at or before that boundary became known later; so it is whenever the boundary's chunk had been fed by then. |
| PsdRows.RowBuffer.PlaceRows | src/rfobserver/schedules/engine.py:295-334 | For any grid, also behind a short chunk, waiting numbers are neither handed out nor past the file's end. As long as all grids share the run's row boundaries, in any order of arrival, the rows of the stream that the grid brings wholly inside the run become exactly those that have arrived, and under a waiting number stands a row that arrived with that number, or filler in a hole that no row of the stream has; every hole before a row that arrived is filled, with the smallest value of that grid's rows, and the value for rows that never come is the smallest of all grids so far. |
| PsdRows.RowBuffer.FlushRows | src/rfobserver/schedules/engine.py:349-351 | The rows handed on are those waiting under the next numbers, one by one up to the first number missing; the others wait on unchanged. Where it stops no row that arrived belongs, nor zero fill before one: every such hole was filled when its row came. |
| PsdRows.RowBuffer.KeepsUpIff | src/rfobserver/schedules/engine.py:309-351 | Once the run's first rows have arrived, everything up to the last of them was handed on, holes included, or the file is full, if and only if the noted index leaves out at most half a row of the zeros before row 0; if it leaves out more, nothing is handed on before the close. |
| PsdRows.NothingBeforeClose | src/rfobserver/schedules/engine.py:309-351 | A run whose index was noted before two samples were lost at the first row boundary, with rows of two samples: three rows arrive and none is handed on. |
| PsdPlan.FirstNumIff | src/rfobserver/schedules/engine.py:309-324 | Row 0 has the number 0 if and only if at most half a row of zeros before it is not counted by the noted index. |
| PsdRows.RowBuffer.HandedLaw | src/rfobserver/schedules/engine.py:319-334 | At every moment of every run whose grids share its row boundaries, what was handed on under a stream row's number is that row or one that arrived with the same number; it is that row if no two rows collide. |
| PsdRows.RowBuffer.Close | src/rfobserver/schedules/engine.py:341-348 | At the end nothing waits, every row that waited stands under its number, the last row handed on is one that waited, and no row lies past the rows that fit; with shared row boundaries, under the number of every row that arrived and fits stands that row or one with the same number; rows that never came hold the smallest value of all grids. |
| PsdRows.RowBuffer.AllInPlaceIff | src/rfobserver/schedules/engine.py:295-351 | After the close every row that arrived and fits is in the file under its number if and only if rows that share a number do not differ. |
| PsdRows.RowBuffer.DistinctInPlace | src/rfobserver/schedules/engine.py:295-351 | After the close every row that arrived and fits is in the file under its number if no two successive rows collide. |
| PsdRows.ChunkOf | src/rfobserver/schedules/engine.py:265-293 | Of successive chunks that reach over a row, one brings it whole. |
| PsdRows.RowsOfRun | src/rfobserver/schedules/engine.py:265-367 | A run without losses: for its chunks' grids in any order, repeats allowed, the rows handed on up to the close are exactly the stream's rows wholly inside the run, in order. |
| RunRows.FeedChunk | src/rfobserver/schedules/engine.py:118-123 | Feeding a chunk to the cutter and then placing rows by what it knows keeps cutter and rows in step; its new zero fill lies at or after the position reached. |
| RunRows.PlaceGrid | src/rfobserver/schedules/engine.py:265-311 | A grid of a fed chunk, or any grid once the cutter is done, is placed by the cutter's own map, up to where the run's stream ends. |
| RunRows.RowsNearTheirSamples | src/rfobserver/schedules/engine.py:295-324 | The file sample where a row is put is within half a row of the file sample that holds the row's first stream sample (or its skipped zero). |
| RunRows.HalfRowOfZeros | src/rfobserver/schedules/engine.py:324 | A concrete run of the cutter and the rows with one lost sample: two rows share a number and one is not in the file, although the noted index is that of the finished file. |
| RunRows.OffsetNotedEarly | src/rfobserver/schedules/engine.py:309-311 | A concrete run of the cutter and the rows: a grid that comes before the chunk of the first row boundary is fed, and a sample lost right before that chunk, make two rows share a number that would not with the boundary's index in the finished file. |
| Runs.StartsBeforeIff | src/rfobserver/schedules/model.py:176-184 | A run starts before `t` if and only if it is below the first run from `t`. |
| Runs.TotalIs | src/rfobserver/schedules/model.py:166-173 | A schedule with an end has exactly the runs that start before it. |
| Runs.CountedRuns | src/rfobserver/schedules/model.py:162-170 | Any other schedule has the runs it counts, or one; the first is at its start and each an interval after the one before. |
| Runs.RunsBetweenExact | src/rfobserver/schedules/model.py:187-196 | The runs listed are those that start in the interval, of those the newest `limit`. |
| Runs.NextRun | src/rfobserver/schedules/engine.py:162-164 | Planning from just after a run's start gives the next run or none. |
| Runs.RunPlan.MarkMissed | src/rfobserver/schedules/engine.py:243-261 | Every run without an outcome that started before the grace time is reported missed, but for those older than the newest 500, and nothing else. |
| Runs.RunPlan.Refresh | src/rfobserver/schedules/engine.py:138-156 | The planned run is the first that starts within the grace time and has no outcome; every due run below it has been handled: no hole and no overlap with the missed runs. |
| Runs.RunPlan.StartDue | src/rfobserver/schedules/engine.py:158-165 | Starts exactly the planned run and all after it that begin before the chunk's end, each once and in order, and ends. |
| Runs.RunPlan.FirstChunk | src/rfobserver/schedules/engine.py:103-115 | The first chunk's three steps together keep the partition. |
| Lead.LeadProtocol.BurstIsHeld | src/rfobserver/pipeline/streaming.py:3491-3499 | In every reachable state with an unclamped limit, however far the receiver has come, a burst that starts no further than its reach before the published position, or even a guard earlier, still has its guarded start in the ring. |
| Lead.LeadProtocol.Receive | src/rfobserver/pipeline/streaming.py:1239-1262 | A chunk is written exactly when it keeps within the limit, so the lead never exceeds it. |
| Lead.LeadProtocol.FinishGrid | src/rfobserver/pipeline/streaming.py:1232-1237 | Finishing the oldest grid publishes the end of its whole rows and never moves the done position back. |
| Lead.AlwaysHeldIff | src/rfobserver/pipeline/streaming.py:1214-1230 | For any distance: no burst that starts at most that far before the published position can be overwritten, if and only if the ring has room for the limit, that distance and a guard. |
| Lead.LimitIs | src/rfobserver/pipeline/streaming.py:1214-1230 | The lead limit is two chunks or what the reserve leaves of the ring, whichever is more. |
| Lead.LeadProtocol.NotHeldWhenCaughtUp | src/rfobserver/pipeline/streaming.py:1220-1229 | Once the last written chunk's grid is done the receiver is never held; the floor of two chunks is what this takes. |
| Lead.LeadProtocol.CanGoOnIff | src/rfobserver/pipeline/streaming.py:1239-1262 | In every state, some outcome of the pending grids lets the receiver write its chunk if and only if finishing the newest of them would. |
| Lead.LeadProtocol.HeldForGoodIff | src/rfobserver/pipeline/streaming.py:1239-1262 | With nothing pending, nothing can release the receiver if and only if the samples lost since the last finished grid, with that grid's partial row, exceed the limit less the chunk. |
| Lead.LeadProtocol.FailuresHoldIff | src/rfobserver/pipeline/streaming.py:3163-3168 | In whole chunks: `k` failures in a row hold the next chunk for good if and only if `k` is at least the limit over the chunk size. |
| Lead.FailInARow | src/rfobserver/pipeline/streaming.py:3163-3168 | For all sizes there is such a run: as many failing chunks as the limit has room for hold the receiver for good. |
| Lead.HeldForGood | src/rfobserver/pipeline/streaming.py:3163-3168 | A concrete run with a ring of 1000 samples that leaves the full lead: six failing chunks in a row hold the receiver for good. |
| Lead.ReadIsBounded | src/rfobserver/processing/isolate.py:58-73 | A burst's read takes the whole burst, or its head up to the longest length, with a guard on both sides except for what would lie before the stream; so it is never longer than the longest burst and two guards. |
| LeadBursts.BurstThread.FeedGrid | src/rfobserver/pipeline/streaming.py:3479-3495 | Feeding the oldest grid keeps, for every burst handed over that was not over at the last evaluation and is at most of the longest length, that it starts within a stretch behind the published position; a burst whose track was growing at the last evaluation is one of them. |
| LeadBursts.BurstThread.Publish | src/rfobserver/pipeline/streaming.py:3499 | Publishing the grid's end; the samples that no row covers grow by exactly what was lost with grids and what lay behind the last chunk's whole rows. |
| LeadBursts.BurstThread.HandedIsHeld | src/rfobserver/pipeline/streaming.py:1196-1205 | Over every interleaving of receiver, lost grids, feeding and publishing: while the stage reads, every such burst has its guarded start in the ring, as long as at most a guard and a row of samples since the last evaluation's edge have no row. |
| LeadBursts.BurstThread.MissingIsUncovered | src/rfobserver/pipeline/streaming.py:3163-3168 | The samples without rows that count are among those lost with grids or behind whole rows; without such losses there are none. |
| LeadBursts.LossesIff | src/rfobserver/pipeline/streaming.py:1214-1230 | With an unclamped limit such bursts can never be overwritten, if and only if the samples without rows are at most a guard and a row. |
| LeadBursts.GrowingWasNotOver | src/rfobserver/processing/rolling_burst.py:192-205 | A track seen growing by one evaluation ends at or behind that window's last three rows when it is handed over, however it was extended since. |
| LeadBursts.FingerprintInStretch | src/rfobserver/processing/rolling_burst.py:341-353 | A burst of at most the longest length that ends behind the edge starts fewer rows than the interval and the margin, the longest burst and the missing samples before the published position. |
| LeadBursts.FeedUntilEvaluation | src/rfobserver/processing/rolling_burst.py:146-154 | From one evaluation on, grids of equal size bring the next after exactly the interval rounded up to whole grids. |
| LeadBursts.DocumentedReachIff | src/rfobserver/pipeline/streaming.py:1199-1202 | The documented earliest start, counted from the end of the grid being finished, holds for every burst at the edge of the last evaluation if and only if the interval is a whole number of grids. |
| LeadBursts.EarlierThanDocumented | src/rfobserver/pipeline/streaming.py:1199-1202 | A concrete run of the detector and the protocol, without losses, that hands over a burst of the longest length starting before the documented reach, and within reach of the published position. |
| Clock.CaptureClock.ChunkStart | src/rfobserver/capture/clock.py:49-74 | The estimate is the smallest offset measured within the window since it last started over; it starts over exactly when chunks have been late for at least the hold time, and then every chunk since was late. |
| Clock.PushKeeps | src/rfobserver/capture/clock.py:69-71 | Dropping larger offsets at the back keeps the deque rising and every measurement beaten by a more recent or equal one. |
| Clock.ExpireKeeps | src/rfobserver/capture/clock.py:72-73 | Dropping expired offsets at the front keeps exactly what still counts. |
| Clock.FrontIsLeast | src/rfobserver/capture/clock.py:40-43 | The front of the deque is the minimum over the window. |
| Clock.NeverBelow | src/rfobserver/capture/clock.py:10-15 | With delays that are never negative the estimate is never below the true offset. |
| Fold.TimeFold.AddRows | src/rfobserver/storage/avg_fold.py:141-168 | The indexed update of one chunk adds to every bucket the plain sum of its rows, because in time order each bucket is a single run. |
| Fold.ChunksAdd | src/rfobserver/storage/avg_fold.py:141-201 | Cutting the rows into chunks anywhere changes no bucket's counts, sums or maximum. |
| Fold.LargerIs | src/rfobserver/storage/avg_fold.py:141-168 | The maximum of two rows is at least both, one of them, and missing exactly when both are. |
| Fold.RunIsBucket | src/rfobserver/storage/avg_fold.py:71-75 | A run's sum is its bucket's sum. |
| Fold.TierIsItsWindows | src/rfobserver/storage/avg_fold.py:170-201 | A tier row counts exactly like the windows it was summed from: counts, sums, maximum and every bin's sum and count. |
| Fold.TierReplacesWindows | src/rfobserver/storage/avg_fold.py:170-201 | Replacing a period's windows by its tier row anywhere in the rows changes no bucket. |
| Fold.BinAdds | src/rfobserver/storage/avg_fold.py:57-66 | Averaging groups of bins commutes with adding rows. |
| Fold.BinScales | src/rfobserver/storage/avg_fold.py:57-66 | Averaging groups of bins commutes with scaling a row. |
| Fold.BinOfOne | src/rfobserver/storage/avg_fold.py:57-68 | A row's value goes to the one group of adjacent bins that holds it, divided by the group's width, and to no other; a row of no more bins than the limit keeps it in place. |
| Fold.WindowCounts | src/rfobserver/storage/avg_fold.py:78-81 | A window counts once, with its own values, and what it does not have adds nothing. |
| Fold.BucketsInOrder | src/rfobserver/storage/avg_fold.py:96-97 | Rows in time order have bucket numbers in order. |
| Fold.BucketIs | src/rfobserver/storage/avg_fold.py:96-97 | A row is in a bucket if and only if its time is in the bucket's stretch, where the first bucket also takes everything before and the last everything behind. |
| Fold.PeriodInOneBucket | src/rfobserver/storage/avg_fold.py:170-177 | When a bucket is a whole number of tier periods, every window of a period lies in the tier row's bucket, also when clipped. |
| Fleet.MergePage | src/rfobserver/fleet/captures.py:31-52 | The loop gives the page of the recursive merge, and moves each sensor's offset on by exactly what was shown of it. |
| Fleet.ConsumesPrefix | src/rfobserver/fleet/captures.py:3-7 | Of each sensor a page shows exactly the next stretch of its list, in order. |
| Fleet.PagesConcatenate | src/rfobserver/fleet/captures.py:31-52 | Two pages after each other show what one page of both sizes shows: nothing skipped or repeated. |
| Fleet.FetchingAPageIsEnough | src/rfobserver/fleet/app.py:486-516 | Merging only `limit` captures per sensor gives the same page and offsets as merging the full lists. |
| Fleet.PageIsNewestFirst | src/rfobserver/fleet/captures.py:31-52 | When each list is newest first, so is the page, and nothing left over is newer than a capture shown. |
| Fleet.BestIsFirst | src/rfobserver/fleet/captures.py:38-47 | The next capture shown is the newest of the lists' first ones, those of unknown time last, and on a tie the first sensor's; there is none exactly when every list is used up. |
| Fleet.PageIsFull | src/rfobserver/fleet/captures.py:38-47 | A page is full unless every list is used up. |
| Paging.Request | src/rfobserver/fleet/app.py:476-516 | A request with a cursor text shows the page of the full lists from the offsets that the text names, and its reply names where that page ended. |
| Paging.Browse | src/rfobserver/fleet/app.py:476-516 | Successive requests of any page sizes, each with the text of the reply before, show exactly one merge of the full lists: nothing skipped, nothing shown twice. |
| Paging.CursorCarries | src/rfobserver/fleet/captures.py:55-66 | The offsets that the next request parses are those the reply formatted, for every sensor. |
| Paging.ShortPageIsTheEnd | src/rfobserver/fleet/captures.py:38-47 | Once fewer captures were shown than asked for, each sensor's whole list has been shown in its order. |
| Cursor.CursorRoundTrip | src/rfobserver/fleet/captures.py:55-66 | Parsing a formatted cursor gives its offsets back, for non-empty ids without commas, with colons allowed. |
| Cursor.MalformedPart | src/rfobserver/fleet/captures.py:56-61 | A part without a colon, without an id before the last one, or with anything but digits or nothing behind it changes nothing. |
| Cursor.ZerosInFront | src/rfobserver/fleet/captures.py:60-61 | Digits count by their value, also with zeros in front. |
| Cursor.DigitBehind | src/rfobserver/fleet/captures.py:60-66 | Numbers are decimal: a digit behind a number counts one and what is in front of it ten times as much. |
| Cursor.LastColonOf | src/rfobserver/fleet/captures.py:59 | The last colon separates the id from the number. |
| Cursor.SplitJoin | src/rfobserver/fleet/captures.py:58 | Splitting undoes joining. |

## Left out

- Cutter.RunCutter.Feed: chunk gaps come in increasing order inside the chunk, as the receivers report them; float rounding of the start is exact real rounding to even.
- Recorder.StreamRecorder.TimeLaw: one ring generation, and a gap log that has not overflowed; a reconfiguration during a recording is not modelled.
- Recorder.StreamRecorder.OverflowLaw: a gap that lost nothing, which no receiver reports, is counted with a dropped chunk and not with a written one.
- Recorder.StreamRecorder.RecordChunk: the writer thread is a step that takes an entry off the queue; a write error or a full disk, which end a recording, and the metadata are not modelled.
- FmStages.FirStage.Process: the transform is taken as circular convolution; complex samples are reals.
- FmStages.ResampleStage.Process: exact positions, without the drift of accumulated float steps.
- BurstTracker.Tracker.Absorb: frequencies are exact reals, so the bucket margin that absorbs float rounding is not needed in the proof.
- RollingBurst.RollingBurstDetector.Evaluate: detection is an arbitrary function of the grid whose detections lie inside it; wall-clock times are rows before the newest row.
- RowWindow.RollingWindow.Feed: a grid that does not fit behind the write position and once around raises in the source and is excluded.
- Measure.MeasureRegions: component labelling is any labelling that is zero exactly off the low mask, so the claim is per label; record times, the minimum duration and the final sort by start are not modelled.
- UsbQueue.Receiver.OnBlock: blocks are non-empty and hold whole samples, as the device delivers them; start, stop and clearing of the stream are not modelled.
- Isolation.IsolationStage.TestIdle: the waiting itself and its timeout; taking a sentinel, or an item that is drained, and reporting it done are one step.
- Isolation.IsolationStage.Gate: how many candidates are picked is free there; `Gate.BurstGate.Pick` says which.
- Isolation.IsolationStage.StopSignal: one control thread starts and stops the stage.
- Gate.BudgetHoldsIff: the budget is not negative; a negative one picks nothing.
- PsdRows.RowBuffer.PlaceRows: where rows land after a short chunk, whose grid does not share the run's row boundaries, is not stated; a real quotient is rounded, not a float.
- RunRows.PlaceGrid: a grid is placed between two feeds, not in the middle of one; that its chunk was fed before, as the receiver queues a chunk for the workers after feeding it (pipeline/streaming.py:1715-1757), is a premise.
- PsdRows.RowsOfRun: every chunk's grid comes before the close; rows missing when the wait is given up are what `PsdRows.RowBuffer.Close` covers.
- Isolation.IsolationStage.SettledIff: the second condition, attribution outcomes against handed-over bursts (pipeline/replay.py:182-187), is not modelled; the attribution stage is outside the model.
- Runs.RunPlan.FirstChunk: one schedule that exists when the engine comes up; schedules added later are planned by the same `Refresh` without a report of missed runs; busy, storage and too-late refusals of a started run are outcomes outside the model.
- LeadBursts.BurstThread.HandedIsHeld: a burst that was over at the last evaluation and only found or scrolled out later, and one longer than the longest burst, can start further back; the detector's reset on a retune is not modelled.
- Lead.LeadProtocol.Receive: a dead burst thread, shutdown and reconfiguration end the waiting in the source.
- Fold.TimeFold.AddRows: the several arrays of the source are one array of records; the display range, the axis and the statistics fold are left out.
- Fold.TierIsItsWindows: PSDs of one period have one width and no missing values.
- Cursor.CursorRoundTrip: digits are the ten ASCII digits.
- Paging.Browse: the sensors and their lists stay the same from request to request; a sensor that cannot be reached, which shows nothing and keeps its offset, and the origin filter are not modelled.
- The pre-trigger PSD buffer, the recording-time pipeline supervisor and the attribution queue: easy members beside the ones modelled, or mostly timing.
- Signal processing in floating point: transforms, windows, discriminator, noise floors, statistics.
- Hardware and foreign calls, files, the database, the web interface, configuration and metrics.
