# HCI interaction logger — a verified model of its core

The system records how a participant uses a computer during an experiment. Its core parts are:

- **Pointer tracker.** Reports moves, clicks and scrolls. Moves are throttled by a distance threshold.
- **Event-triggered screenshot tracker.** Takes a screenshot on every pressed click, subject to a cooldown. It also takes one whenever the accumulated scroll distance reaches a threshold.
- **Audio recorder.** Cuts the input stream into fixed-length segments. A writer thread saves each segment to disk.
- **Emotion sampler.** Analyses camera frames at a fixed rate.
- **Eye tracker.** Has a calibration procedure and a mapping from gaze to the screen.
- **Session store.** Holds sessions and pointer events.
- **Main window.** Buffers pointer events and writes them to the store in batches of 50.
- **Heatmap generators.** Count event positions on a screen-sized grid, blur the grid and normalise it. One variant draws overlays on screenshots and a comparison grid of screenshots and overlays.
- **End-of-session report.** Shows click and move totals, the dominant emotion per task, and an overlay pixmap.

Each Python module becomes one Dafny module:

| Dafny module | file | what it models |
|---|---|---|
| `Mouse` | `mouse_tracker.dfy` | the pointer tracker |
| `MouseEvents` | `mouse_events.dfy` | the pointer-event record shared by the other modules |
| `ScreenshotTrigger` | `event_screenshot_tracker.dfy` | the screenshot tracker |
| `Audio` | `audio_tracker.dfy` | the audio recorder |
| `EmotionTracker` | `emotion_tracker.dfy` | the emotion sampler |
| `EmotionNormalization` | `emotion_normalization.dfy` | the normalisation of emotion scores |
| `EyeTracker` | `eye_tracker.dfy` | the eye tracker |
| `SessionStore` | `session_store.dfy` | the session store |
| `EventBuffer` | `event_buffer.dfy` | the main window's event buffer |
| `Report` | `report.dfy` | the end-of-session report |
| `ActivityGrid` | `activity_grid.dfy` | the grid shared by the heatmap generators |
| `Heatmap` | `heatmap.dfy` | the heatmap generator |
| `HeatmapOverlay` | `heatmap_overlay.dfy` | the overlay generator and the comparison grid |

Shared helpers:
- `Text` holds Python's `str()` of integers and `int()` of floats.
- `Wrappers` holds `Option`.

Objects whose fields the Python code updates in place are Dafny classes. Examples are `MouseTracker`, `EventScreenshotTracker`, `AudioTracker`, `EmotionSampler`, `Calibration`, `Database` and the window's `LoggerWindow`. Their methods state each change of state.

Pure computations are functions, with lemmas about them. Examples are filters, file names, the throttle, the grid and normalisation.

Inputs the model cannot compute are parameters:
- the clock (`now`);
- whether a camera frame, a screen capture, a file write or a model fit succeeded;
- the classifier's output;
- the Gaussian blur (`blur: Grid -> Grid`).

## Model

| member | source | states |
|---|---|---|
| `Mouse.ThrottleSpaced` | hci_logger/trackers/mouse_tracker.py:43-63 | the emitted moves are a selection of the reported moves; the first lies more than the threshold from the start point on some axis, and each later one more than the threshold from the previously emitted one |
| `Mouse.ThrottleSnoc` | hci_logger/trackers/mouse_tracker.py:46-62 | one more move is emitted exactly when it is far enough from the last emitted position (or the start point if none) |
| `Mouse.RepeatSuppressed` | hci_logger/trackers/mouse_tracker.py:46-49 | with a non-negative threshold two consecutive emitted moves are never at the same position |
| `Mouse.DuplicateMoveExample` | hci_logger/trackers/mouse_tracker.py:46-49 | a repeated position is dropped and a distant one kept |
| `Mouse.ScrollDelta` | hci_logger/trackers/mouse_tracker.py:95-96 | a scroll delta is recorded as None exactly when it is zero, otherwise as its value |
| `Mouse.MouseTracker.constructor` | hci_logger/trackers/mouse_tracker.py:17-23 | a new tracker starts at (0, 0) with no events counted |
| `Mouse.MouseTracker.OnMove` | hci_logger/trackers/mouse_tracker.py:43-63 | a move is reported, with truncated coordinates, and becomes the last position only when it passes the threshold; the count equals the events reported and the emitted positions are the reference throttle of all moves received |
| `Mouse.MouseTracker.OnClick` | hci_logger/trackers/mouse_tracker.py:65-79 | every click, pressed or released, is reported with its button and counted |
| `Mouse.MouseTracker.OnScroll` | hci_logger/trackers/mouse_tracker.py:85-99 | every scroll is reported with its deltas and counted; the last position does not change |
| `Mouse.DuplicateMoveScenario` | hci_logger/trackers/mouse_tracker.py:43-63 | three moves, the second repeating the first, produce exactly two move events at the two distinct positions |
| `MouseEvents.Coords` | hci_logger/processing/heatmap.py:49 | one coordinate pair per event, the i-th being the i-th event's position |
| `Text.Trunc` | hci_logger/trackers/mouse_tracker.py:54-55 | `int()` of a float truncates toward zero |
| `Text.IntToStringInjective` | hci_logger/trackers/event_screenshot_tracker.py:216 | distinct integers print as distinct decimal strings |
| `Text.NatToStringInjective` | hci_logger/processing/heatmap.py:56 | distinct counts print as distinct decimal strings |
| `ScreenshotTrigger.Lower` | hci_logger/trackers/event_screenshot_tracker.py:51 | the format is lower-cased letter by letter: same length, every ASCII capital becomes its lower-case letter (code + 32), every other character is kept |
| `ScreenshotTrigger.FilenameSameSecond` | hci_logger/trackers/event_screenshot_tracker.py:216 | two captures of one session, trigger and format get the same file name if and only if their timestamps fall in the same whole second |
| `ScreenshotTrigger.SameSecondCollision` | hci_logger/trackers/event_screenshot_tracker.py:163-216 | two clicks 0.5 s apart pass the 0.5 s cooldown yet write to the same file name |
| `ScreenshotTrigger.ScrollDeadlocksAsWritten` | hci_logger/trackers/event_screenshot_tracker.py:129-162 | as written, every scroll that reaches the threshold acquires the non-reentrant lock while holding it |
| `ScreenshotTrigger.ScrollDeadlockWitness` | hci_logger/trackers/event_screenshot_tracker.py:129-162 | a single scroll of 100 against the default threshold of 100 deadlocks as written |
| `ScreenshotTrigger.ScrollNeverDeadlocksCorrected` | hci_logger/trackers/event_screenshot_tracker.py:119-147 | with the lock released before the capture, no scroll re-acquires a held lock |
| `ScreenshotTrigger.EventScreenshotTracker.constructor` | hci_logger/trackers/event_screenshot_tracker.py:46-63 | a new tracker is stopped, has no accumulated scroll, no captures, last capture time 0 and a lower-cased format |
| `ScreenshotTrigger.EventScreenshotTracker.Start` | hci_logger/trackers/event_screenshot_tracker.py:71-86 | starting sets the tracker running |
| `ScreenshotTrigger.EventScreenshotTracker.Stop` | hci_logger/trackers/event_screenshot_tracker.py:253-255 | stopping clears the running flag |
| `ScreenshotTrigger.EventScreenshotTracker.CaptureOnEvent` | hci_logger/trackers/event_screenshot_tracker.py:149-180 | a capture request inside the cooldown is rejected and changes nothing; otherwise the last capture time becomes now and, if the capture succeeds, exactly one artifact with the derived file name is delivered |
| `ScreenshotTrigger.EventScreenshotTracker.CaptureScreenshot` | hci_logger/trackers/event_screenshot_tracker.py:182-251 | a successful capture delivers one artifact carrying session, time, file name, format, trigger, position and reason and is counted; a failed one delivers nothing |
| `ScreenshotTrigger.EventScreenshotTracker.AccumulateScroll` | hci_logger/trackers/event_screenshot_tracker.py:119-147 | in the corrected lock order (the lock is released before capturing; as written the firing scroll deadlocks at line 162 and nothing is captured, see Findings): absolute deltas accumulate; when the sum reaches the threshold both accumulators reset and one cooldown-gated capture is attempted, which on success appends exactly one artifact with trigger "scroll" at the pointer position, the scroll file name and reason `scroll_<whole pixels reached>px`, keeping earlier artifacts; otherwise nothing is captured |
| `ScreenshotTrigger.EventScreenshotTracker.OnMouseEvent` | hci_logger/trackers/event_screenshot_tracker.py:88-117 | in the corrected lock order for scrolls (see Findings): a stopped tracker, a move or a released click changes nothing; a pressed click attempts a "click" capture named after its button; a scroll accumulates (missing deltas count as 0) and, on reaching the threshold, appends exactly the "scroll" artifact at the event's position with reason `scroll_<whole pixels reached>px`, keeping earlier artifacts |
| `ScreenshotTrigger.ClickBurstScenario` | hci_logger/trackers/event_screenshot_tracker.py:149-180 | two pressed clicks closer than the 0.5 s cooldown give one capture, otherwise two |
| `ScreenshotTrigger.ScrollThresholdScenario` | hci_logger/trackers/event_screenshot_tracker.py:119-147 | in the corrected lock order (see Findings): scrolls of 60 then 40 reach the threshold of 100 and capture once; 60 then 39 capture nothing and leave 99 accumulated |
| `Audio.ChunkKept` | hci_logger/trackers/audio_tracker.py:117-118 | appending a chunk to the open segment appends exactly its frames to what has been heard |
| `Audio.SegmentQueued` | hci_logger/trackers/audio_tracker.py:121-133 | closing the open segment into the queue loses and duplicates no frame |
| `Audio.SegmentTaken` | hci_logger/trackers/audio_tracker.py:137-150 | the writer taking the front segment off the queue loses and duplicates no frame |
| `Audio.DrainKeepsHeard` | hci_logger/trackers/audio_tracker.py:137-150 | draining the whole queue keeps every frame, in order |
| `Audio.AllWritesSucceed` | hci_logger/trackers/audio_tracker.py:156-196 | when every write succeeds, every dequeued segment is saved |
| `Audio.SegmentFileNameSameSecond` | hci_logger/trackers/audio_tracker.py:162-163 | two segments of one session share a file name if and only if they start in the same whole second |
| `Audio.SegmentsSecondApartNamedApart` | hci_logger/trackers/audio_tracker.py:162-163 | segments starting at least one second apart get different files |
| `Audio.InfoOf` | hci_logger/trackers/audio_tracker.py:177-186 | the record passed to the callback has duration end minus start, the segment's start and end, and the file path in the output directory |
| `Audio.AudioTracker.constructor` | hci_logger/trackers/audio_tracker.py:39-54 | a new recorder is stopped, has nothing queued, open or saved, and no segment start time |
| `Audio.AudioTracker.Start` | hci_logger/trackers/audio_tracker.py:63-109 | the running flag and the open stream both equal whether opening the stream succeeded; the segment start time is now even when opening fails; chunks left from an earlier run are kept in the open segment |
| `Audio.AudioTracker.AudioCallback` | hci_logger/trackers/audio_tracker.py:111-133 | every chunk is heard; once the segment has lasted the segment duration it is queued with its start and now as end, and a new segment starts now; otherwise the chunk joins the open segment |
| `Audio.AudioTracker.SaveSegment` | hci_logger/trackers/audio_tracker.py:156-196 | a successful write saves the segment, counts it and notifies the callback with its record; a failed write does none of these |
| `Audio.AudioTracker.WriterStep` | hci_logger/trackers/audio_tracker.py:137-150 | the writer takes the front segment, if any, and saves it when its write succeeds; no frame is lost from what has been heard |
| `Audio.AudioTracker.WriterLoop` | hci_logger/trackers/audio_tracker.py:135-150 | once recording has stopped the writer empties the queue in order, saving exactly the segments whose writes succeed |
| `Audio.AudioTracker.Stop` | hci_logger/trackers/audio_tracker.py:198-217 | a non-empty open segment is queued with end time now; the stream closes and running becomes false; no heard frame is lost |
| `Audio.Listen` | hci_logger/trackers/audio_tracker.py:111-133 | after starting and delivering a series of chunks, what has been heard is exactly those chunks in order |
| `Audio.StopAndDrain` | hci_logger/trackers/audio_tracker.py:198-217 | stopping and draining with all writes successful saves exactly the frames heard, in order |
| `Audio.RecordAll` | hci_logger/trackers/audio_tracker.py:83-217 | a whole recording with successful writes saves every delivered frame once, in order |
| `EmotionNormalization.Clamp01` | test_emotion_normalization.py:13 | the result lies in [0, 1], is the input inside that range and the nearer bound outside it |
| `EmotionNormalization.NormalizeEmotion` | test_emotion_normalization.py:5-14 | the result is always in [0, 1]; None and unparsable strings give 0 |
| `EmotionNormalization.InRangeIsFraction` | test_emotion_normalization.py:5-14 | a score between 0 and 100 becomes exactly score / 100 |
| `EmotionNormalization.OutOfRangeSaturates` | test_emotion_normalization.py:5-14 | scores of at least 100 give 1 and scores of at most 0 give 0 |
| `EmotionNormalization.Monotone` | test_emotion_normalization.py:5-14 | normalisation never reverses the order of two scores |
| `EmotionNormalization.StringAsNumber` | test_emotion_normalization.py:8-12 | a string is normalised as the number it parses to |
| `EmotionNormalization.TestTable` | test_emotion_normalization.py:21-33 | every expected value of the test table holds exactly over reals (float rounding is not modelled) |
| `EmotionTracker.AnalyzeFrame` | hci_logger/trackers/emotion_tracker.py:147-206 | a record exists exactly when a first face with a non-empty score map is found; each of the seven scores is the raw score divided by 100 (0 if missing); the dominant emotion defaults to "unknown"; confidence, age and gender are present only when attributes are analysed, gender preferring the dominant one |
| `EmotionTracker.ShapingDoesNotClamp` | hci_logger/trackers/emotion_tracker.py:181-188 | a raw score of 150 is stored as 1.5, unlike the normalisation tested elsewhere |
| `EmotionTracker.ShapingAgreesWithNormalizeInRange` | hci_logger/trackers/emotion_tracker.py:181-188 | for a score between 0 and 100 the stored value equals the tested normalisation |
| `EmotionTracker.NoFaceNoRecord` | hci_logger/trackers/emotion_tracker.py:167-175 | no face, or a face without scores, yields no record |
| `EmotionTracker.Pass` | hci_logger/trackers/emotion_tracker.py:112-145 | a pass inside the frame interval or without a frame changes nothing; a pass whose callback raises (caught at lines 143-145) counts nothing and keeps the last detection time; otherwise the last detection time becomes the end of the pass; exactly the analysed record is counted, exactly when the analysis finds one and the callback returns normally |
| `EmotionTracker.Run` | hci_logger/trackers/emotion_tracker.py:110-145 | no more records are delivered than passes made |
| `EmotionTracker.WithinIntervalNothingDelivered` | hci_logger/trackers/emotion_tracker.py:115-120 | passes that all fall within the frame interval of the last detection deliver nothing and keep the last detection time |
| `EmotionTracker.NoFrameNothingDelivered` | hci_logger/trackers/emotion_tracker.py:123-127 | passes without a camera frame deliver nothing and keep the last detection time |
| `EmotionTracker.GateSpacing` | hci_logger/trackers/emotion_tracker.py:115-145 | two consecutive analyses are at least one frame interval apart, counted from the end of the first, or, when the first's callback raised, from the detection time the first was gated against |
| `EmotionTracker.EmotionSampler.constructor` | hci_logger/trackers/emotion_tracker.py:38-56 | a new sampler is stopped, its frame interval is 1 / sample rate and its last detection time is 0 |
| `EmotionTracker.EmotionSampler.Start` | hci_logger/trackers/emotion_tracker.py:58-108 | the camera opens and the sampler runs exactly when the camera could be opened; a failure leaves the running flag as it was |
| `EmotionTracker.EmotionSampler.CaptureStep` | hci_logger/trackers/emotion_tracker.py:112-145 | one pass of the loop counts what the reference pass counts (nothing when the callback raises) and sets the last detection time to the reference pass's, keeping the counter equal to the number of records taken |
| `EmotionTracker.EmotionSampler.CaptureLoop` | hci_logger/trackers/emotion_tracker.py:110-145 | a loop that is not running does nothing; otherwise it counts exactly the records of the reference run, in order, raising callbacks included |
| `EmotionTracker.EmotionSampler.Stop` | hci_logger/trackers/emotion_tracker.py:208-220 | stopping clears the running flag, signals the loop and releases the camera |
| `EyeTracker.DefaultGrid` | hci_logger/trackers/eye_tracker.py:316-329 | the default calibration grid is 9 points in row order: margin, half-screen and screen-minus-margin on each axis |
| `EyeTracker.DefaultGridOnScreen` | hci_logger/trackers/eye_tracker.py:316-329 | on a screen at least twice the margin in each dimension every default point is on screen |
| `EyeTracker.DefaultGridDistinct` | hci_logger/trackers/eye_tracker.py:316-329 | on a large enough screen the nine default points are pairwise distinct |
| `EyeTracker.PointSamples` | hci_logger/trackers/eye_tracker.py:348-372 | each sample of a point carries that point as its target, and there are no more samples than capture attempts |
| `EyeTracker.CollectedBound` | hci_logger/trackers/eye_tracker.py:340-376 | calibration collects at most points times samples-per-point samples |
| `EyeTracker.TrainingFailureReportedCalibrated` | hci_logger/trackers/eye_tracker.py:379-415 | as written, 11 samples with a failing model fit leave the tracker reported as calibrated |
| `EyeTracker.CalibratedAfter` | hci_logger/trackers/eye_tracker.py:379-385 | with more than 10 samples the flag equals whether training succeeded; with 10 or fewer it is unchanged |
| `EyeTracker.CalibratedOnlyWithTrainedModel` | hci_logger/trackers/eye_tracker.py:379-415 | starting uncalibrated, the tracker ends calibrated if and only if it had more than 10 samples and training succeeded |
| `EyeTracker.Clip` | hci_logger/trackers/eye_tracker.py:191-193 | a value is clipped into [lo, hi]: kept inside, the nearer bound outside |
| `EyeTracker.CalibratedGaze` | hci_logger/trackers/eye_tracker.py:185-193 | the calibrated gaze always lies on the screen and an on-screen prediction is kept unchanged |
| `EyeTracker.EyeOpenness` | hci_logger/trackers/eye_tracker.py:247-268 | the openness ratio is never negative; only landmarks 0, 1, 2, 4, 5 and 6 are read |
| `EyeTracker.ZeroSpanIsClosed` | hci_logger/trackers/eye_tracker.py:262-264 | an eye whose corners have equal x has openness 0 and counts as closed |
| `EyeTracker.ShutLidIsClosed` | hci_logger/trackers/eye_tracker.py:220-221 | an eye whose upper and lower lids meet counts as closed |
| `EyeTracker.Calibration.constructor` | hci_logger/trackers/eye_tracker.py:55-63 | a new tracker is uncalibrated, has no trained model and no calibration data |
| `EyeTracker.Calibration.Calibrate` | hci_logger/trackers/eye_tracker.py:307-385 | the data is reset and becomes the samples of every point in order, using the default grid when no points are given; the flag follows the corrected rule and the models are replaced only when more than 10 samples were collected |
| `EyeTracker.CollectPoint` | hci_logger/trackers/eye_tracker.py:348-372 | the samples collected at one point are exactly the successful captures, tagged with that point |
| `SessionStore.OfSession` | hci_logger/storage/database.py:126-134 | the filter keeps every row of the session and only those |
| `SessionStore.InsertKeepsSorted` | hci_logger/storage/database.py:126-134 | inserting a row by timestamp into sorted rows keeps them sorted |
| `SessionStore.SortByTime` | hci_logger/storage/database.py:126-134 | the result is sorted by timestamp and is a permutation of the input |
| `SessionStore.Database.constructor` | hci_logger/storage/database.py:11-18 | a new store has no connection and empty tables |
| `SessionStore.Database.Initialize` | hci_logger/storage/database.py:31-42 | initialising connects only if needed and commits; the visible rows do not change |
| `SessionStore.Database.CreateSession` | hci_logger/storage/database.py:56-67 | a new active session with the next id, stamped now, is appended and committed, and its id returned |
| `SessionStore.Database.EndSession` | hci_logger/storage/database.py:70-79 | only the session with that id becomes completed with end and update time now; an unknown id changes no session; pending rows are committed |
| `SessionStore.Database.InsertMouseEvent` | hci_logger/storage/database.py:94-101 | the row becomes visible on the connection but is not committed |
| `SessionStore.Database.InsertMouseEventsBatch` | hci_logger/storage/database.py:105-113 | all rows are appended in order and committed together with earlier pending rows |
| `SessionStore.Database.GetSession` | hci_logger/storage/database.py:117-122 | a session is returned exactly when the id exists, and it is the session with that id |
| `SessionStore.Database.GetMouseEvents` | hci_logger/storage/database.py:126-134 | the result is sorted by timestamp and holds exactly the rows of the session, each as often as stored |
| `SessionStore.Database.GetEventCount` | hci_logger/storage/database.py:137-142 | the count equals the number of rows returned for the session, and is 0 for a session without rows |
| `SessionStore.Database.Close` | hci_logger/storage/database.py:146-148 | closing drops the connection and its uncommitted rows; closing a closed store changes nothing |
| `EventBuffer.RowOf` | main.py:937-948 | a buffered row copies every field of the event (session, time, type, position, button, pressed, scroll deltas) and carries the current task id |
| `EventBuffer.NothingDiscardedNothingLost` | main.py:949-955 | when no batch was dropped, the written rows are exactly the rows that left the buffer, once each and in order |
| `EventBuffer.DiscardedBatchesAreNotWritten` | main.py:954-955 | the number of writes is the number of batches minus those dropped for want of a session |
| `EventBuffer.SwapKeepsConsistent` | main.py:949-955 | swapping out a full buffer moves its rows, in order, into the batch history and keeps the write log in step |
| `EventBuffer.FlushKeepsConsistent` | main.py:1196-1201 | flushing a non-empty buffer moves its rows, in order, into the write log |
| `EventBuffer.LoggerWindow.constructor` | main.py:535-550 | a new window has no session, task 1, no clicks and an empty buffer and write log |
| `EventBuffer.LoggerWindow.BeginSession` | main.py:808-829 | starting a session stores its id and resets the click count |
| `EventBuffer.LoggerWindow.OnTaskChanged` | main.py:1192-1193 | the current task becomes the given one |
| `EventBuffer.LoggerWindow.OnMouseEvent` | main.py:932-964 | the event is buffered with the current task; at 50 rows the buffer is swapped out and written without the lock when a session exists, dropped otherwise; pressed clicks are counted; no row is lost from the received history |
| `EventBuffer.LoggerWindow.Enqueue` | main.py:937-955 | below 50 rows the row is appended; the 50th row empties the buffer into one batch, written only with a session |
| `EventBuffer.LoggerWindow.FlushBufferSafe` | main.py:1196-1201 | a non-empty buffer with a session is written under the lock and emptied; otherwise nothing changes |
| `Report.CountWhere` | main.py:182-187 | a count of rows never exceeds the number of rows |
| `Report.TallyBounds` | main.py:182-187 | the pressed clicks of tasks 1 and 2 never exceed all pressed clicks, and clicks, moves and scrolls together never exceed the events |
| `Report.ReleasedClicksUncounted` | main.py:182-187 | released clicks count as neither clicks, moves nor scrolls |
| `Report.TaskLabels` | main.py:401 | a label is listed exactly when some emotion row of that task has it as its dominant emotion |
| `Report.FirstMaxIndex` | main.py:408 | the chosen key has the largest count and no earlier key has as large a count |
| `Report.TallyNewLabel` | main.py:404-407 | a label seen for the first time becomes the last key with count 1 and keeps the tally exact |
| `Report.TallySeenLabel` | main.py:404-407 | a label seen before has its count raised by one and keeps the tally exact |
| `Report.Tally` | main.py:403-407 | the keys are the distinct labels in first-seen order and each count is the number of occurrences; the counts add up to the number of labels |
| `Report.TallyTaskEmotions` | main.py:403-408 | for a non-empty task, the counts are the label multiplicities and the top label has the largest count, the first such in first-seen order |
| `Report.HeatCoords` | main.py:447-451 | only moves and clicks heat the grid, at most one coordinate per event |
| `Report.ClickMarkers` | main.py:452-453 | markers come only from pressed clicks |
| `Report.MarkersAmongHeat` | main.py:447-453 | every click marker is also a heated coordinate, and the heat grid's total equals the number of heated coordinates |
| `Report.OverlayPixmapGrid` | main.py:444-453 | each cell of the pixmap grid holds the number of moves and clicks clamped into it, and the markers are exactly the pressed clicks in order |
| `ActivityGrid.Clamp` | hci_logger/processing/heatmap.py:235-236 | the clamped value lies in range, equals the input inside it and the nearer bound outside it |
| `ActivityGrid.CellOf` | hci_logger/processing/heatmap.py:235-236 | every coordinate lands in a cell of the grid, and an on-screen coordinate lands in its own cell |
| `ActivityGrid.MassIsCount` | hci_logger/processing/heatmap.py:234-237 | the cells of the count grid add up to the number of coordinates: no event is dropped off the screen |
| `ActivityGrid.Accumulate` | hci_logger/processing/heatmap.py:232-237 | each cell of the grid counts the coordinates clamped into it |
| `ActivityGrid.MaxOf` | hci_logger/processing/heatmap.py:241 | the maximum is one of the values and none exceeds it |
| `ActivityGrid.NormalizeScalesToPeak` | hci_logger/processing/heatmap.py:241-242 | a grid with a positive maximum is divided by that maximum: same shape, every cell at most 1 and the maximum exactly 1 |
| `ActivityGrid.Normalize` | hci_logger/processing/heatmap.py:241-242 | normalisation keeps the grid's shape |
| `ActivityGrid.EmptyInputZeroGrid` | hci_logger/processing/heatmap.py:232-242 | no coordinates give the all-zero grid, and normalisation leaves an all-zero grid unchanged |
| `ActivityGrid.CreateHeatmapArray` | hci_logger/processing/heatmap.py:226-244 | the result is the counted grid, blurred and then normalised |
| `Heatmap.OfTypes` | hci_logger/processing/heatmap.py:39-42 | the filter keeps exactly the events whose type is listed |
| `Heatmap.Moves` | hci_logger/processing/heatmap.py:157 | exactly the move events are kept |
| `Heatmap.PressedClicks` | hci_logger/processing/heatmap.py:68-71 | exactly the clicks whose pressed flag is True are kept |
| `Heatmap.MovesAndClicksPartition` | hci_logger/processing/heatmap.py:157-161 | moves and pressed clicks together are never more than the events: no event is in both |
| `Heatmap.DefaultKeepsMovesAndClicks` | hci_logger/processing/heatmap.py:35-42 | the default types keep every event except scrolls |
| `Heatmap.HeatmapGenerator.constructor` | hci_logger/processing/heatmap.py:15-17 | the generator keeps the screen size |
| `Heatmap.HeatmapGenerator.GenerateFromEvents` | hci_logger/processing/heatmap.py:35-57 | nothing is drawn exactly when no event has a selected type; otherwise the heatmap of the kept events is drawn under a title with their count |
| `Heatmap.HeatmapGenerator.GenerateClickHeatmap` | hci_logger/processing/heatmap.py:68-84 | nothing is drawn exactly when there are no pressed clicks; otherwise their heatmap is drawn under a title with their count |
| `Heatmap.HeatmapGenerator.GenerateComparison` | hci_logger/processing/heatmap.py:157-208 | nothing is drawn exactly when there are neither moves nor pressed clicks; each side is drawn exactly when its events exist, under a title with its count |
| `HeatmapOverlay.EventsInWindow` | hci_logger/processing/heatmap_overlay.py:195-198 | exactly the events within the window before the screenshot, both ends included, are kept |
| `HeatmapOverlay.MarkersWithinActivity` | hci_logger/processing/heatmap_overlay.py:64-75 | every click marker is also an activity coordinate, and the activity is empty exactly when no event is a move or a pressed click |
| `HeatmapOverlay.PartitionCoords` | hci_logger/processing/heatmap_overlay.py:64-75 | the loop yields moves and pressed clicks as activity and pressed clicks as markers, in event order |
| `HeatmapOverlay.OverlayPathInjective` | hci_logger/processing/heatmap_overlay.py:201-203 | two overlays in one directory share a path exactly when their screenshots share a stem |
| `HeatmapOverlay.StemOfSimpleName` | hci_logger/processing/heatmap_overlay.py:201 | the stem of a plain name with one extension drops the extension |
| `HeatmapOverlay.GeneratedAreOverlayPaths` | hci_logger/processing/heatmap_overlay.py:185-223 | every returned path is the overlay path of some screenshot, with no more paths than screenshots |
| `HeatmapOverlay.AllSucceedAligned` | hci_logger/processing/heatmap_overlay.py:185-223 | when every overlay succeeds the i-th returned path belongs to the i-th screenshot |
| `HeatmapOverlay.PairsAsWritten` | hci_logger/processing/heatmap_overlay.py:286 | zip pairs as many items as the shorter list holds |
| `HeatmapOverlay.PairFor` | hci_logger/processing/heatmap_overlay.py:286-301 | a screenshot is paired with an overlay exactly when its own overlay path was generated, and then with that path |
| `HeatmapOverlay.PairByName` | hci_logger/processing/heatmap_overlay.py:286-301 | one pairing per screenshot |
| `HeatmapOverlay.PairingsAgreeWhenNoneSkipped` | hci_logger/processing/heatmap_overlay.py:286 | when no overlay was skipped, zip and pairing by name give every screenshot its own overlay |
| `HeatmapOverlay.SkippedOverlayMisaligns` | hci_logger/processing/heatmap_overlay.py:286 | when the first of two screenshots has no events, zip shows it beside the second screenshot's overlay, whereas pairing by name shows it alone |
| `HeatmapOverlay.NRowsIsCeiling` | hci_logger/processing/heatmap_overlay.py:274 | the row count is the ceiling of screenshots per row: enough rows and no empty last row |
| `HeatmapOverlay.LayoutInRange` | hci_logger/processing/heatmap_overlay.py:287-288 | every item index below rows times per-row lands in a row and column pair of the grid |
| `HeatmapOverlay.LayoutCellsDistinct` | hci_logger/processing/heatmap_overlay.py:287-288 | different items land in different cells |
| `HeatmapOverlay.HeatmapOverlayGenerator.constructor` | hci_logger/processing/heatmap_overlay.py:22-24 | the generator keeps the screen size |
| `HeatmapOverlay.HeatmapOverlayGenerator.GenerateOverlayForScreenshot` | hci_logger/processing/heatmap_overlay.py:50-159 | an overlay is produced exactly when the screenshot exists, there are events and rendering succeeds; it holds the activity heatmap (zeros without activity), the markers when shown, and the title with both counts |
| `HeatmapOverlay.HeatmapOverlayGenerator.GenerateAllOverlays` | hci_logger/processing/heatmap_overlay.py:185-223 | the returned paths are the overlay paths of the screenshots whose overlay succeeded, in screenshot order |
| `HeatmapOverlay.HeatmapOverlayGenerator.CreateComparisonGrid` | hci_logger/processing/heatmap_overlay.py:273-309 | as the corrected half of finding 3, pairing by file name rather than zipping as line 286 does: the grid has ceiling(n / per-row) rows and two columns per item; each screenshot appears with its title beside its own overlay (or an empty pane), and the cells after the last screenshot are switched off |
| `HeatmapOverlay.FillGridRow` | hci_logger/processing/heatmap_overlay.py:287-309 | one row of the grid is filled with the expected panes and no other row changes |

## Left out

- The Qt user interface is not modelled: windows, tabs, widgets, timers and signals. Only the state those handlers update is modelled.
- Drawing is not modelled: matplotlib, PIL, colour maps, alpha blending and image files. An overlay is modelled as the grid, markers and title it is drawn from.
- The Gaussian blur is a parameter `blur: Grid -> Grid`. Its numerics are not modelled.
- Floating point is modelled as exact reals. Rounding and NaN are not modelled, and neither is numpy's `float32` in the pixmap grid.
- Devices and libraries are outside the model: pynput listeners, `mss` screen capture, sounddevice and soundfile, OpenCV capture, MediaPipe, DeepFace and scikit-learn. Each outcome becomes a parameter (a success flag, a classifier result or a sample).
- Threads, locks, `sleep`, joins and timeouts are not modelled. Each callback is one atomic method call. The only lock modelled is the scroll path's, as a trace of acquire and release operations.
- Every `time.time()` is a `now` parameter.
- SQLite is modelled as in-memory tables. `schema.sql`, the WAL pragmas, `lastrowid` beyond "next id", and the `dict(row)` conversion are not modelled.
- `EventBuffer.LoggerWindow` models the database writes as a write log, not as calls into `SessionStore.Database`. The window writes 10-column rows (with `task_id`) through the 9-column batch insert, which the model does not check.
- The demos, the periodic `screenshot_tracker.py` and the `get_stats` methods are not part of this model.
- Eye landmark geometry, iris centres, head pose, feature extraction, ridge regression and the uncalibrated camera-to-screen scaling are not modelled. The model covers clipping, eye openness, the calibration grid, sample collection and the calibration flag.
- `EyeTracker.Calibration.Calibrate`: the models are modelled as fitted or not. A failed retrain that replaced one model before failing is not modelled.
- `EyeTracker.CalibratedAsWritten` has no contract. It is the as-written flag rule used by the finding below.
- `ScreenshotTrigger.EventScreenshotTracker.CaptureScreenshot`: the artifact's file path omits the output directory prefix. `file_size` and the monitor query are not modelled.
- `Audio.AudioTracker.SaveSegment`: a callback that raises is treated as a successful write. The stored file size is not modelled.
- `Audio.AudioTracker.WriterLoop` models the writer only after `running` is false, as the drain at stop. While recording, its interleaving with the callback is modelled by `WriterStep`.
- `Audio.AudioTracker.Stop` queues the open segment but does not clear it, as in the source. After a restart those chunks are queued a second time; the `Start` and `Stop` contracts show this.
- `EmotionTracker.EmotionSampler.CaptureStep` does not keep a record whose callback raised, whatever the callback did before raising. The one-second backoff after the error is not modelled.
- `EmotionTracker.EmotionSampler.CaptureLoop` processes a finite list of passes. Termination by the stop event between passes is not modelled.
- `EmotionTracker.AnalyzeFrame` does not model DeepFace's gender given as a dict, or keys present with value None.
- `EmotionNormalization.NormalizeEmotion` treats Python `bool` input as not a number.
- `HeatmapOverlay.OverlayPath` joins the directory and the file name with a literal "/". `pathlib`'s dropping of a trailing separator on the directory is not modelled.
- `HeatmapOverlay.StemOfSimpleName` covers plain names only. Stems of paths with several dots or hidden files follow `Stem`'s definition, which is only checked for injectivity.
- `HeatmapOverlay.HeatmapOverlayGenerator.CreateComparisonGrid` requires at least one screenshot and a positive `max_per_row`. The source fails in matplotlib otherwise.
- `ScreenshotTrigger.Lower`: ASCII only. Python's `str.lower()` also folds non-ASCII letters.
- `ScreenshotTrigger.EventScreenshotTracker.AccumulateScroll` and `ScreenshotTrigger.EventScreenshotTracker.OnMouseEvent` model the corrected lock order, in which a firing scroll captures. As written the capture re-acquires the held lock and blocks forever; `ScreenshotTrigger.ScrollDeadlocksAsWritten` states that behaviour.
- `ScreenshotTrigger.ScrollThresholdScenario` is stated about the corrected lock order, as above.
- `ScreenshotTrigger.Artifact` omits `trigger_metadata` (the click's button or the scroll amount). Both also appear in the reason (`click_<button>`, `scroll_<amount>px`).
- `EventBuffer.LoggerWindow.OnMouseEvent` does not forward the event to the screenshot tracker, as main.py:957-959 does. With the scroll deadlock above, the source's handler would block on a firing scroll.
- `Audio.AudioTracker.Start` requires `!streamOpen`. The source has no such guard: a second start opens a second stream, which the model does not capture.
- `EmotionTracker.EmotionSampler.constructor` requires `sampleRate != 0.0`. The source raises `ZeroDivisionError` for a rate of 0.
- `SessionStore.Database.EndSession` and the other store methods require a connection. A call on a closed store raises in the source.
- `Heatmap.HeatmapGenerator.constructor` and `HeatmapOverlay.HeatmapOverlayGenerator.constructor` require a positive screen size. numpy cannot allocate a grid for any other size.

## Findings

| source | as written | input that shows it | evidently intended | confidence | as-written member | corrected member |
|---|---|---|---|---|---|---|
| hci_logger/trackers/event_screenshot_tracker.py:129-162 | `_accumulate_scroll` calls `_capture_on_event` while holding `self.lock`, and that method acquires the same non-reentrant lock | one scroll with dy = 100 against the default threshold of 100 | release the lock before capturing, so the listener thread does not block forever | not executed | `ScreenshotTrigger.ScrollDeadlocksAsWritten` | `ScreenshotTrigger.ScrollNeverDeadlocksCorrected` |
| hci_logger/trackers/eye_tracker.py:379-415 | `_train_gaze_model` sets `is_calibrated = False` on failure, but `calibrate` sets it to True right after the call | 11 collected samples with a model fit that raises | the tracker is calibrated only when training succeeded | not executed | `EyeTracker.TrainingFailureReportedCalibrated` | `EyeTracker.CalibratedAfter` |
| hci_logger/processing/heatmap_overlay.py:286 | `create_comparison_grid` zips all screenshots with the generated overlays, but `generate_all_overlays` skips screenshots whose overlay failed | two screenshots whose first has no events in its time window | show each screenshot beside its own overlay, paired by file name | not executed | `HeatmapOverlay.SkippedOverlayMisaligns` | `HeatmapOverlay.HeatmapOverlayGenerator.CreateComparisonGrid` |
