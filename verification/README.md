# PPE detection core in Dafny

This project models the decision-making core of a hard-hat (PPE) violation
detector. The detector reads a video stream, runs an object detector on
each frame, tracks people across frames with a greedy IoU tracker, and
raises a rate-limited alert whenever a frame shows someone without a hard
hat. Everything outside that core is abstracted away: the object detector,
OpenCV capture and encoding, and the Flask application.

The model has five modules:

- `Options` (options.dfy) holds `Option` and `Somes`. `Somes` is the
  order-preserving "keep what survived" filter that the tracker uses to
  build its new table and its returned mapping.
- `Geometry` (geometry.dfy) holds integer boxes, `IOUTracker._iou` as an
  exact rational, and Python's `int()` truncation of detector coordinates.
- `IouTracking` (tracker.dfy) models `IOUTracker.update` as a pure function
  on a `Tracker` value.
  - The source keeps its tracks in a dict. Ids come only from a counter that
    never decreases, so the dict's iteration order is ascending id order.
    The track table is therefore a sequence sorted strictly by id.
  - The returned dict is the sequence of its `(id, box)` items in insertion
    order.
  - All three paths of `update` are modelled. The general path builds one IoU
    row per track and takes numpy's first-index argmax. It matches the track
    if that row value reaches the threshold. Then it spawns a track for every
    detection no track took, and ages every track that did not match,
    including the newborns.
- `Policy` (policy.dfy) holds label classification by substring, the
  per-frame helmet and no-helmet counts, and the alert-cooldown decision,
  with `ALERT_COOLDOWN` = 10 seconds.
- `Stream` (stream.dfy) models `video_generator` as a step function over
  the events the loop observes.
  - The events are: the stop flag found set, a frame read and encoded, a
    frame read whose encoding failed, a failed read, the outcome of a reopen,
    and an exception escaping the loop body.
  - The loop checks the stop flag only at the top of an iteration. Between a
    failed read and the reopen it looks at nothing but the reopen outcome. An
    event that the current phase cannot observe is therefore skipped.
  - The session records what the loop did to the outside world: the chunks
    it yielded, the alerts it logged, and the sequence of capture opens,
    failed opens and releases.
  - `Generate` wraps one call of the generator. It takes the model-present
    check and the first open as inputs, and it publishes the tracker, the
    person count and the stop flag as globals.

Three ways the code behaves that a reader might not expect are modelled as
written:

- The greedy pass does not check whether a detection was already taken by
  an earlier track (detector.py:55-56). `matched_det` only decides which
  detections spawn new tracks. Two tracks can therefore take the same
  detection, and both are returned (`IouTracking.SharedDetectionExample`).
  The person count then counts that detection twice.
- A track spawned on the general path is not in `matched_tid`, so the aging
  loop immediately raises its `lost` to 1 (detector.py:65-72). Tracks
  created when the table was empty keep `lost` 0.
- `last_alert_time` starts at 0 and the cooldown test is strict
  (detector.py:145, 191). A violation at clock time 0 in a fresh session
  therefore does not alert, and neither does one at time 10; the first
  violation that can alert is one more than 10 seconds after time 0
  (`Policy.CooldownExamples`).

## Model

| member | source | states |
|---|---|---|
| Geometry.Trunc | detector.py:176 | `int()` on a coordinate truncates toward zero: the result is within one of the input, on the side of zero |
| Geometry.TruncBox | detector.py:176 | for non-negative coordinates each corner is the floor of the reported coordinate |
| Geometry.Area | detector.py:25-26 | a box's area is at least 1, and is width times height for a box with positive sides |
| Geometry.Inter | detector.py:21-24 | the overlap area never exceeds the (floored) area of either box |
| Geometry.Union | detector.py:27 | the union is at least 1, so the `else 0` branch of the ratio is unreachable, and it is at least the overlap |
| Geometry.Iou | detector.py:18-28 | IoU always lies in [0, 1] |
| Geometry.IouSymmetric | detector.py:18-28 | IoU does not depend on the order of its arguments |
| Geometry.IouSelf | detector.py:18-28 | a box with positive width and height has IoU exactly 1 with itself |
| Geometry.IouDegenerate | detector.py:21-28 | a box without positive extent overlaps nothing, itself included |
| IouTracking.New | detector.py:12-16 | a new tracker has an empty table, counter 0, the given settings, and satisfies the table invariant |
| IouTracking.Row | detector.py:47-50 | one IoU-matrix row has one entry per detection, each in [0, 1] |
| IouTracking.FirstArgMax | detector.py:55 | `argmax` returns an index of the maximum that no earlier index ties |
| IouTracking.FirstArgMaxUnique | detector.py:55 | that index is the only one with the property |
| IouTracking.Choice | detector.py:55-56 | a track takes the first argmax when its IoU reaches the threshold; otherwise every IoU in its row is below the threshold |
| IouTracking.Consumed | detector.py:51-61 | `matched_det` contains exactly the detections some track chose, and has at most as many elements as there are matched tracks |
| IouTracking.Unconsumed | detector.py:63-64 | the spawning loop visits exactly the indices below the number of detections that are not in `matched_det`, in ascending order |
| IouTracking.UnconsumedCount | detector.py:63-67 | the spawned count plus the used count below `n` is exactly `n` |
| IouTracking.Fresh | detector.py:63-64 | the untaken detection indices are strictly ascending, valid, and no more than the detections |
| IouTracking.FreshUntaken | detector.py:53-64 | an index is listed as untaken iff it is a valid detection index that no track chose |
| IouTracking.TakenIffChosen | detector.py:53-61 | a detection is taken by some track iff its index appears among the per-track choices |
| IouTracking.Update | detector.py:30-73 | `update` keeps the settings, and the counter rises by at most the number of detections |
| IouTracking.KeptOrigin | detector.py:53-72 | on the general path every surviving track is an existing track's revision (same id) or an aged newborn numbered from the old counter |
| IouTracking.MappingOrigin | detector.py:53-67 | on the general path every returned item is a matched existing track (same id) or a newborn numbered from the old counter |
| IouTracking.UpdateEmptyTracker | detector.py:33-38 | with an empty table every detection becomes a track with `lost` 0, numbered in detection order from the counter, and all are returned; with no detections nothing changes |
| IouTracking.UpdateNoDetections | detector.py:41-46 | with no detections the counter stays, nothing is returned, and a track survives (aged by one) iff its new `lost` is within `max_lost`; order is kept |
| IouTracking.UpdateTrackMatched | detector.py:55-62 | a track whose best IoU reaches the threshold is returned with the detection's box and stays in the table with that box and `lost` 0 |
| IouTracking.UpdateTrackUnmatched | detector.py:53-72 | a track whose best IoU is below the threshold is not returned, and stays with `lost + 1` iff that is within `max_lost` |
| IouTracking.UpdateTrackUnique | detector.py:53-72 | no other table entry carries an existing track's id after the update |
| IouTracking.UpdateSpareDetections | detector.py:63-67 | the spawned detections are exactly the untaken ones, ascending, and the counter advances by their number |
| IouTracking.UpdateSpawned | detector.py:63-72 | each untaken detection yields a returned item with a new id; the new track stays in the table with `lost` 1 iff `max_lost` is at least 1 |
| IouTracking.SpawnedEntry | detector.py:63-72 | the same, for one spawned detection |
| IouTracking.UpdateNewIdsSpawned | detector.py:63-67 | every returned id at or above the old counter belongs to a spawned detection |
| IouTracking.UpdateSizeBounds | detector.py:53-67 | the mapping has between the number of detections and that number plus the number of old tracks |
| IouTracking.RevisedPart | detector.py:55-62 | surviving old tracks keep their ids and their ascending order |
| IouTracking.MatchedPart | detector.py:55-62 | the matched items have old ids, in ascending order |
| IouTracking.BornPart | detector.py:63-72 | newborn ids are consecutive from the old counter, ascending |
| IouTracking.GeneralKeepsValid | detector.py:47-73 | on the general path the table stays sorted and under the counter, and ids are never reused |
| IouTracking.GeneralTableValid | detector.py:53-72 | the table half of the above |
| IouTracking.GeneralMappingValid | detector.py:53-67 | the mapping half of the above |
| IouTracking.UpdateKeepsValid | detector.py:30-73 | every path keeps the table sorted and under the counter; the mapping has distinct ascending ids under the counter; each id is an old table id or at least the old counter |
| IouTracking.UpdateAging | detector.py:41-72 | after `update` every track's `lost` is within `max_lost` |
| IouTracking.UpdateMappingInTable | detector.py:63-72 | with `max_lost` at least 1, every returned item is a track of the new table with the same box |
| IouTracking.UpdateIdenticalMatch | detector.py:53-62 | a track facing a detection equal to its own proper box is matched to a detection it overlaps with IoU 1 |
| IouTracking.Replay | detector.py:184 | repeated updates keep the settings and never lower the counter |
| IouTracking.IdsNeverReused | detector.py:30-73 | an id that has left the table never reappears in a later table or a later mapping |
| IouTracking.IdleFramesAge | detector.py:41-46 | after `n` empty frames every remaining track has `lost` raised by at least `n`, the counter is unchanged, and the table is empty once that exceeds `max_lost` |
| IouTracking.UnmatchedStep | detector.py:41-72 | in an update where no detection reaches the threshold against a track's box, that track's entry, if it survives, keeps its box, has been missed once more and is within `max_lost` |
| IouTracking.UnmatchedFramesAge | detector.py:41-72 | over frames that never match a track's box, its entry keeps its box and its miss count rises by at least one per frame |
| IouTracking.UnmatchedTrackExpires | detector.py:41-72 | a track that no detection matches for more frames than its remaining allowance of misses has left the table, and its id never appears in a later table |
| IouTracking.SharedDetectionExample | detector.py:53-62 | two tracks on one box both take the single detection, both are returned, and nothing is spawned |
| IouTracking.OverlapKeepsIdentityExample | detector.py:30-73 | a box seen again with IoU 0.9 keeps id 0 |
| Policy.Lower | detector.py:174 | lower-casing keeps the length, maps each ASCII capital to the letter 32 code points above it, and leaves every other character unchanged |
| Policy.LowerIdempotent | detector.py:174 | lower-casing an already lower-cased label changes nothing |
| Policy.LowerIgnoresCase | detector.py:174 | labels that differ only in letter case lower-case to the same string |
| Policy.ContainsIffOccurs | detector.py:179-181 | the substring scan holds iff the pattern occurs at some offset |
| Policy.NoHardhatContainsHardhat | detector.py:179-182 | every label containing "no-hardhat" contains "hardhat", so the no-helmet test must come first |
| Policy.ClassifyBySubstring | detector.py:174-182 | a label is no-helmet iff its lower-case form contains "no-hardhat", and helmet iff it contains "hardhat" but not "no-hardhat" |
| Policy.ClassifyExamples | detector.py:174-182 | "NO-Hardhat" is no-helmet, "Hardhat" is helmet, "Person" is neither |
| Policy.Tally | detector.py:168-182 | the two counters equal the number of labels classified each way, and their sum is at most the number of boxes |
| Policy.Decide | detector.py:187-194 | an alert fires iff the no-helmet count is positive and strictly more than the cooldown has passed; only a fired alert moves the last-alert time |
| Policy.CooldownExamples | config.py:7 | with cooldown 10 and last alert at 0: 0, 5 and 10 are suppressed and 11 fires; helmet-only frames never fire |
| Stream.FiniteSourceByLastFour | detector.py:157 | a source counts as a file iff its last four characters are one of the five suffixes |
| Stream.FiniteSourceExamples | detector.py:157 | the suffix test is case-sensitive, and the camera URL is not a file |
| Stream.BoxesOf | detector.py:176-177 | every detection contributes one box |
| Stream.LabelsOf | detector.py:174 | every detection contributes one label |
| Stream.Process | detector.py:168-206 | one frame keeps the phase and capture; the tracker becomes the update of the old tracker with all the frame's boxes and the person count is the number of items that update returns, which lies between the detections and the detections plus the old tracks; the frame is yielded iff it was encoded; an alert is appended iff the policy fires, it records the frame's time, the person count and the helmet-plus-no-helmet count, and the last-alert time becomes the frame's time then and only then |
| Stream.OverlapCountsOnePerson | detector.py:184-185 | one person seen in two frames whose boxes overlap with IoU 0.9 is published as a person count of 1 |
| Stream.LabelsDoNotAffectTracking | detector.py:172-185 | frames with the same boxes drive the tracker and the person count identically, whatever their labels |
| Stream.Step | detector.py:149-210 | a finished loop does nothing; output, alerts and capture log only grow, by at most one chunk and one alert |
| Stream.Run | detector.py:149-210 | a run only extends the output, alerts and capture log, by at most one chunk per event |
| Stream.Start | detector.py:138-145 | a session starts streaming with one open capture, a tracker with the default settings and no tracks, count 0, last-alert time 0, and no output or alerts |
| Stream.Generate | detector.py:127-145 | without a model the globals stay unchanged, nothing is captured, and at most one placeholder chunk is yielded; if the first open fails only that failed open happens; the call ends iff one of those holds or the loop ends |
| Stream.RunEnded | detector.py:149-214 | once the loop has left, later events change nothing |
| Stream.StopEndsSession | detector.py:150-152 | a set stop flag ends the session before any read: it only releases the capture |
| Stream.FiniteReadFailEnds | detector.py:155-158 | a failed read on a file source ends the session with one release and no reopen |
| Stream.LiveReadFail | detector.py:155-161 | a failed read on a live source releases the capture and waits for the reopen, changing nothing else |
| Stream.LiveReadFailReopens | detector.py:155-163 | a successful reopen after a failed live read resumes streaming after exactly one release and one open |
| Stream.LiveReadFailGivesUp | detector.py:155-162 | a failed reopen ends the session after one release and one failed open, with nothing left to release |
| Stream.ReconnectingWaits | detector.py:159-163 | while reconnecting, only the reopen outcome is observed |
| Stream.ExceptionEnds | detector.py:208-213 | an exception ends the session and the capture is released |
| Stream.EncodeFailSkipsOnlyEmission | detector.py:202-206 | an encode failure leaves the session exactly as a good frame would, minus that frame's chunk |
| Stream.StepKeepsBalanced | detector.py:138-213 | every step keeps the opens equal to the releases, plus one while streaming |
| Stream.RunKeepsBalanced | detector.py:138-213 | the same over any run |
| Stream.GenerateReleasesOnExit | detector.py:138-213 | whenever a generator call has ended, every capture it opened has been released; while streaming exactly one is open |
| Stream.ProcessKeepsSpaced | detector.py:187-194 | a processed frame keeps alerts more than the cooldown apart, each from a frame with detections, with the last-alert time equal to the latest alert |
| Stream.StepKeepsSpaced | detector.py:145-194 | every step keeps the same property |
| Stream.RunKeepsSpaced | detector.py:145-194 | the same over any run |
| Stream.GenerateAlertsSpaced | detector.py:145-194 | over a whole call, the first alert comes after time 10 and consecutive alerts are more than 10 seconds apart |
| Stream.StepKeepsHealthy | detector.py:142-184 | every step keeps the tracker's settings, its table invariant, and every `lost` within `max_lost` |
| Stream.RunKeepsHealthy | detector.py:142-184 | the same over any run |
| Stream.GenerateTrackerHealthy | detector.py:142-184 | the global tracker a session leaves behind is well formed |
| Stream.StepGoodFrame | detector.py:165-206 | a good frame keeps streaming, updates the tracker with the frame's boxes, and yields the frame |
| Stream.RunFramesReplays | detector.py:149-206 | a run of good frames keeps streaming, gives the tracker obtained by updating it with each frame's boxes in order, and yields each frame once, in order |
| Stream.GenerateFreshSession | detector.py:142-206 | a call starts from a fresh tracker and a clear stop flag, whatever the globals held before |

## Left out

- Model download, loading and inference (detector.py:87-97, 165-166) are not modelled. A frame's detections are an input: real corners plus a class name.
- OpenCV is not modelled: opening, reading, encoding and writing images. Opening a capture (detector.py:99-110) is one success-or-failure outcome. The source tries two backends before giving up; the model does not distinguish them.
- `time.sleep(2)` before a reopen is not modelled.
- Logging, `os.makedirs` and the snapshot file (detector.py:79-85, 112-120) are I/O. An alert is recorded as a value carrying its time, person count and detection count.
- FPS accounting (detector.py:196-200) is left out. It only writes to the log.
- Clock readings are inputs. Each frame carries the time the loop would read while processing it.
- Cross-request global state (detector.py:75-77, 122-125) is passed explicitly: `Generate` takes and returns the globals. Another request setting the stop flag appears as a `Stop` event where the loop next checks the flag.
- Stream.Generate: publishes the stop flag as set exactly when the session ended by seeing it. A stop request that arrives after the last check of the flag, in a session that then ends another way, leaves the source's global flag set; the model cannot represent that request.
- app.py is outside the model: Flask routing, JSON output and directory listing.
- config.py values other than `ALERT_COOLDOWN` are left out. They are a camera URL, file names and paths.
- Geometry.Iou: computes the ratio exactly over the rationals, where the source divides in double precision. A ratio within rounding distance of 0.35 could compare differently against the threshold.
- Policy.Lower: lower-cases ASCII letters only. Python's `str.lower` also folds non-ASCII letters, but the detector's class names are ASCII.
- Stream.Step: an exception is modelled as raised before the iteration changes any state, and only while streaming. The source can also raise after the tracker was updated (for example in `imencode`), or during `release` or a reopen. The first case would end the session with the update kept and no chunk for that frame.
- Stream.Run: a consumer that stops pulling frames leaves the session where it is, still streaming. The source's generator would then be closed without reaching the final `release`; that case is not modelled.
