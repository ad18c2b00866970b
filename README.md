# Proctoring session core

A model of the interpretation layer of a browser-based video-proctoring
screen (`frontend/src/App.js`). The face-landmark and object detectors run
elsewhere; what is modelled here is how the screen turns their per-frame
results and the browser's focus signals into a log of proctoring events,
three counters and an integrity score, and how a 90-second exam session
starts, runs, ends and produces its report.

The parts:

- `Scoring` — `updateMetrics`. Each event type falls into one of three
  categories: focus lost (2 points), suspicious item (5 points) or drowsiness
  (3 points). An event bumps its category's counter and lowers the score,
  which never goes below 0. `Replay` folds a sequence of event types.
- `Timers` — the delayed-confirmation debouncer behind `no_face` (10 s),
  `looking_away` (5 s) and `drowsiness` (3 s). A timer is `None` or the time
  it was armed.
- `Gates` — the per-key state map (`objectStateRef`) holds three kinds of
  logic:
  - the 5-second cooldown gate of `multiple_faces`, `tab_change` and
    `window_blur`;
  - the object-presence gate of `cell phone`, `book` and `laptop`;
  - the sweep that clears `detected` on entries not seen for 2 s.
  JavaScript truthiness is modelled exactly: an absent `lastLogged` or
  `lastSeen` and one equal to 0 both mean "never".
- `Landmarks` — the face tests: a nose tip outside the band [0.3, 0.7], and
  eyes whose y coordinates are within 0.008 of each other.
- `Events` — the append-only log (`pushEvent`) and the newest-first live
  panel.
- `Text` — decimal rendering, `padStart(2, "0")`, and `String.prototype.trim`
  with JavaScript's whitespace set.
- `Reports` — `formatElapsed`, the report's `Xm Ys` duration, and the report
  record. Floor division and JavaScript's sign-of-dividend `%` are written
  out.
- `Session` — the screen as a `Proctor` object:
  - the phase (start, exam or report), the name, the running flag, the clock
    fields, the counters, the log, the state map, the three timers and the
    report;
  - one method per callback that changes them;
  - its invariant: the counters and score are always the tally of the log,
    each event charged in turn from the reset values;
  - the name, counters, score and log as the Start click found them, which is
    what the 90-second deadline callback reads.
- `Scenarios` — concrete sessions driven through `Proctor`'s methods.

Time is a parameter in milliseconds; every callback receives the current
clock reading. A pending timer's callback is modelled by `Proctor.Tick(now)`:
it runs every timer whose delay has elapsed.

## Model

| member | source | states |
|---|---|---|
| Scoring.UpdateMetrics | frontend/src/App.js:109-120 | focus-lost, suspicious and drowsiness types each bump exactly their own counter and lower the score by 2, 5 or 3, clamped at 0; any other type changes nothing; a score in 0..100 stays in 0..100 and never rises |
| Scoring.ReplayScore | frontend/src/App.js:109-120 | after any run of events the score is the start score minus the summed penalties, floored at 0 |
| Scoring.ReplayCounters | frontend/src/App.js:109-120 | after any run of events each counter has grown by exactly the number of events of its category |
| Scoring.ReplayInRange | frontend/src/App.js:109-120 | no run of events moves the score out of 0..100 or above where it started |
| Scoring.ReplayExamples | frontend/src/App.js:109-120 | one `no_face` gives 1 focus loss and 98; two `cell phone`s give 2 suspicious items and 90 |
| Events.Kinds | frontend/src/App.js:90-93 | the event types of a log, one per record, in log order |
| Events.NewestFirst | frontend/src/App.js:524-527 | the live panel is the log reversed: record k of the panel is record n-1-k of the log |
| Events.NewestFirstAfterPush | frontend/src/App.js:90-93 | after an append the live panel shows the new record on top, followed by what it showed before |
| Session.Proctor.PushEvent | frontend/src/App.js:90-93 | exactly one record is appended; the earlier records are unchanged |
| Timers.Observe | frontend/src/App.js:160-173 | a frame where the condition holds arms the timer if none is pending and never re-arms a pending one; a frame where it does not hold cancels it |
| Timers.PendingWitness | frontend/src/App.js:189-201 | a pending timer was armed by a frame where the condition held, with no timer pending before it, and every later frame saw the condition hold |
| Timers.ConfirmedOnlyAfterSustained | frontend/src/App.js:160-222 | a confirmation at time t implies a frame at least the delay before t where the condition held, and every frame since then saw it hold: shorter or interrupted spells are never confirmed |
| Timers.FiringClears | frontend/src/App.js:209-215 | after its callback runs, the timer is clear, so a second confirmation needs a new arming |
| Gates.ObjectKeyOf | frontend/src/App.js:264 | a class has a state-map key exactly when it is `cell phone`, `book` or `laptop` |
| Gates.AllKeysListsEveryKey | frontend/src/App.js:289 | the sweep's key list covers every key the state map can hold |
| Gates.Gate | frontend/src/App.js:175-184 | fires exactly when the key has no truthy `lastLogged` or it is more than 5000 ms old; firing replaces the key's record by `{ lastLogged: now }` and leaves the other keys alone; otherwise the map is unchanged |
| Gates.GateRunSpaced | frontend/src/App.js:305-331 | however often a gated signal repeats, successive logged occurrences are more than 5000 ms apart, the key records the last one, and each is one of the trigger times |
| Gates.See | frontend/src/App.js:261-287 | an unlisted class or a score below 0.5 changes nothing; a considered detection marks its key detected and seen now; it is logged and charged with its score exactly when the key was not marked detected (or never logged) and the cooldown is open, and otherwise `lastLogged` is kept |
| Gates.SeeAllLog | frontend/src/App.js:260-287 | over one frame the log only grows, and every new record is a listed object class stamped now |
| Gates.SeeAllMetrics | frontend/src/App.js:276-277 | over one frame the metrics are the old ones with exactly the newly logged records charged |
| Gates.SeeAllMarks | frontend/src/App.js:267-286 | after the prediction loop every considered class of the frame is marked detected and seen now |
| Gates.SeeAllKeepsGateKeys | frontend/src/App.js:268-286 | the prediction loop never touches the `multiple_faces`, `tab_change` or `window_blur` records |
| Gates.OncePerFrame | frontend/src/App.js:261-287 | within one frame an object class is logged at most once, however many times the detector reports it |
| Gates.OncePerFrameInv | frontend/src/App.js:261-287 | each record logged in a frame has its key marked detected with `lastLogged` now, and no two such records share a class |
| Gates.Sweep | frontend/src/App.js:289-295 | the sweep keeps every key, `lastSeen` and `lastLogged`, and clears `detected` on exactly the entries last seen more than 2000 ms ago |
| Gates.SweepClearsStale | frontend/src/App.js:289-295 | after the sweep no entry marked detected was last seen more than 2000 ms ago, and the cooldown keys are untouched |
| Gates.SeeSpaced | frontend/src/App.js:262-286 | one prediction keeps every pair of same-class records more than 5000 ms apart, and keeps each logged class's `lastLogged` truthy and no earlier than its records |
| Gates.SeeAllSpaced | frontend/src/App.js:260-287 | the whole prediction loop of a frame keeps the same spacing and the same invariant |
| Gates.ObjectRunSpaced | frontend/src/App.js:249-300 | across any run of object passes with non-zero clock readings, two records of the same object class are more than 5000 ms apart; the sweep keeps `lastLogged`, so the invariant survives it |
| Gates.ObjectRunSpacedFromStart | frontend/src/App.js:249-300 | from the empty state map and an empty log, every run of object passes logs each class at most once per 5000 ms |
| Landmarks.Landmark | frontend/src/App.js:187 | a landmark is present exactly when its index is in the face's landmark list |
| Landmarks.Abs | frontend/src/App.js:207 | the eye gap is the absolute difference of the two y coordinates |
| Landmarks.LooksAway | frontend/src/App.js:187-188 | a face looks away exactly when its nose-tip landmark exists and its x lies outside [0.3, 0.7] |
| Landmarks.LooksDrowsy | frontend/src/App.js:204-208 | with both eye landmarks present, a face looks drowsy exactly when their y coordinates differ by less than 0.008 either way |
| Text.Decimal | frontend/src/App.js:433 | a non-negative number renders as at least one digit, a single digit exactly below 10, with no leading zero |
| Text.IntDecimal | frontend/src/App.js:397 | a non-negative number renders as its decimal digits; the text starts with a minus sign exactly when the number is negative, followed by the digits of its magnitude |
| Text.ParseDecimalOfDecimal | frontend/src/App.js:433 | the decimal rendering reads back as the number |
| Text.ParseDecimalLeadingZero | frontend/src/App.js:433-434 | a leading zero does not change the value read back |
| Text.DecimalOfParse | frontend/src/App.js:397 | a digit run without leading zeros is the `toString` rendering of the number it reads as, so each number has exactly one such text |
| Text.PadTwo | frontend/src/App.js:433-434 | `padStart(2, "0")` returns strings of two or more characters unchanged; a shorter string becomes exactly two characters: '0's in front, then the string; digits stay digits |
| Text.PadTwoDecimal | frontend/src/App.js:433-434 | a padded number is all digits and reads back as the number |
| Text.TrimStart | frontend/src/App.js:353 | `trim` removes a prefix |
| Text.TrimEnd | frontend/src/App.js:353 | `trim` removes a suffix |
| Text.TrimStartRemovesLeading | frontend/src/App.js:353 | the dropped prefix is all whitespace and what remains does not start with whitespace |
| Text.TrimEndRemovesTrailing | frontend/src/App.js:353 | the dropped suffix is all whitespace and what remains does not end with whitespace |
| Text.BlankIffAllWhitespace | frontend/src/App.js:353-356 | a name is refused exactly when every character of it is JavaScript whitespace, including the empty name |
| Reports.ElapsedSeconds | frontend/src/App.js:370-372 | whole seconds elapsed, rounded down: `r*1000 <= now-start < r*1000+1000` |
| Reports.JsRem | frontend/src/App.js:396 | the remainder takes the dividend's sign: mathematical modulo for a non-negative dividend; for a negative one it lies in (-b, 0] and is what remains after the quotient truncated toward zero |
| Reports.SplitDuration | frontend/src/App.js:394-396 | for a non-negative duration, minutes times 60 plus seconds gives it back, with the seconds in 0..59 |
| Reports.DurationText | frontend/src/App.js:395-397 | the `${minutes}m ${rem}s` text; its meaning is stated by Reports.DurationTextRoundTrip: it reads back as the duration, through a seconds field below 60 |
| Reports.DurationTextRoundTrip | frontend/src/App.js:394-397 | the `Xm Ys` text of a non-negative duration reads back as that duration; the reading refuses a seconds field of 60 or more and a field with a leading zero |
| Reports.DurationTextOf | frontend/src/App.js:395-397 | a total of m minutes and q < 60 seconds is shown as m's digits, "m ", q's digits and "s" |
| Reports.DurationTextOnly | frontend/src/App.js:394-397 | conversely, every text the reading accepts is the duration text of what it reads as: the report's duration string is exactly `${Math.floor(t / 60)}m ${t % 60}s` and nothing else |
| Reports.FormatElapsed | frontend/src/App.js:432-436 | `formatElapsed`: padded minutes, a colon, padded seconds; its meaning is stated by Reports.FormatElapsedRoundTrip: it reads back as the count, through a seconds field below 60 |
| Reports.FormatElapsedRoundTrip | frontend/src/App.js:432-436 | `formatElapsed` of a non-negative count is `mm:ss` with a two-digit seconds field (exactly 5 characters below 100 minutes) and reads back as the count; the reading refuses seconds of 60 or more, so the fields are the minutes/seconds split |
| Reports.OverflowSecondsRefused | frontend/src/App.js:394-436 | "0m 90s" and "00:75" do not read back at all: a seconds field of 60 or more is not a rendering of either format |
| Reports.BuildReport | frontend/src/App.js:394-408 | the report carries the name, the three counters, the score and the full log unchanged, with the duration in seconds and as text that reads back to it |
| Session.Proctor.constructor | frontend/src/App.js:21-47 | the screen starts on the name form with an empty name, zero counters, score 100, an empty log and state map, and no timers |
| Session.Proctor.SetCandidateName | frontend/src/App.js:447-449 | typing sets the name and nothing else |
| Session.Proctor.Cooldown | frontend/src/App.js:175-184 | a gated signal changes the state map, log and metrics exactly as the cooldown gate, the append and the charge prescribe |
| Session.Proctor.Record | frontend/src/App.js:90-120 | a logged event is appended and charged, and the metrics stay the tally of the log |
| Session.Proctor.StartExam | frontend/src/App.js:352-377 | a blank name changes nothing; otherwise the log, counters, score, state map, clock and timers are reset, the exam is running, and the name, counters, score and log as the click found them are kept for the deadline callback |
| Session.Proctor.ResetRecord | frontend/src/App.js:357-362 | the log, counters, score and state map are cleared, leaving the metrics the tally of the empty log, and the name, counters, score and log the click found are kept for the deadline |
| Session.Proctor.ResetClock | frontend/src/App.js:363-368 | the elapsed field is zero, the start is now, the exam is running and no timer is pending |
| Session.Proctor.OnFaceResults | frontend/src/App.js:155-232 | no face arms the no-face timer and a face cancels it; several faces go through the `multiple_faces` gate; exactly one face arms or cancels the looking-away timer and, when both eyes are present, the drowsiness timer; nothing changes once stopped |
| Session.Proctor.OnOneFace | frontend/src/App.js:185-223 | with exactly one face, the looking-away timer follows the nose-tip test and the drowsiness timer follows the eye test, the latter untouched when an eye is missing |
| Session.Proctor.Tick | frontend/src/App.js:162-215 | every due timer logs and charges its type once, in the order no-face, looking-away, drowsiness, and clears itself; the others are left pending |
| Session.Proctor.Expire | frontend/src/App.js:162-167 | one timer that is due logs and charges its type and clears itself; one that is not due changes nothing; the other timers are untouched |
| Session.Proctor.Fire | frontend/src/App.js:210-214 | one timer callback appends its event and charges it, keeping the score in range |
| Session.Proctor.OnObjectFrame | frontend/src/App.js:249-300 | a running session's state after an object frame is the prediction loop followed by the sweep; a stopped one is unchanged |
| Session.Proctor.SeeOne | frontend/src/App.js:262-286 | one prediction changes the state exactly as the object-presence gate prescribes |
| Session.Proctor.SeePredictions | frontend/src/App.js:260-287 | the loop over predictions leaves the state the frame function prescribes |
| Session.Proctor.SweepStale | frontend/src/App.js:289-295 | the loop over keys leaves exactly the swept state map |
| Session.Proctor.OnVisibility | frontend/src/App.js:305-319 | a hidden page in a running exam goes through the `tab_change` gate; anything else changes nothing |
| Session.Proctor.OnBlur | frontend/src/App.js:321-331 | a blur in a running exam goes through the `window_blur` gate and is charged as a `tab_change` |
| Session.Proctor.ClockTick | frontend/src/App.js:370-372 | during the exam the elapsed field is the whole seconds since the start |
| Session.Proctor.EndExam | frontend/src/App.js:379-411 | proctoring stops, the phase becomes the report, and the report is built from the current name, counters, score and log, with the whole seconds since the start |
| Session.Proctor.EndWith | frontend/src/App.js:389-410 | proctoring stops, the report shows and holds exactly the given report, and the session stays valid |
| Session.Proctor.ExamTimeout | frontend/src/App.js:374-376 | 90 s after the start a still-running exam ends with a report of its current state; otherwise nothing changes |
| Session.Proctor.ExamTimeoutAsWritten | frontend/src/App.js:374-376 | 90 s after the start a still-running exam ends with a report of the name, counters, score and log as the Start click found them |
| Session.Proctor.RunAnother | frontend/src/App.js:579-583 | back to the name form with an empty name and no report |
| Session.ChargedAs | frontend/src/App.js:327-328 | a `window_blur` is charged as a focus loss (`tab_change`); every other type is charged as itself |
| Session.Charges | frontend/src/App.js:90-120 | the charges of a log, one per record, in log order |
| Session.ChargeAppended | frontend/src/App.js:90-120 | appending and charging one record keeps the metrics equal to the tally of the log |
| Session.TallyIsReplay | frontend/src/App.js:109-120 | the tally of a log is the replay of its charges from the reset values |
| Session.CountersMatchLog | frontend/src/App.js:109-120 | in every valid session state each counter is the number of logged events of its category (`window_blur` counting as a focus loss), and the score is 100 minus their summed penalties, floored at 0 |
| Scenarios.Begin | frontend/src/App.js:352-368 | a session started under the name "Ada" is running with a fresh state |
| Scenarios.BlankNameRefused | frontend/src/App.js:353-356 | a whitespace-only name leaves the screen on the name form, not running |
| Scenarios.NoFaceForTenSeconds | frontend/src/App.js:160-168 | ten seconds without a face log one `no_face`: one focus loss, score 98 |
| Scenarios.ShortAbsenceIgnored | frontend/src/App.js:169-173 | a face seen after 9 s without one cancels the timer: nothing is logged |
| Scenarios.PhoneFirstTwoFrames | frontend/src/App.js:261-287 | a phone at 0 s is logged; at 1 s it is only marked seen |
| Scenarios.PhoneStillDetected | frontend/src/App.js:269 | a phone still marked detected at 6 s is not logged again |
| Scenarios.PhoneBackAfterGap | frontend/src/App.js:289-295 | a frame without the phone at 3.5 s lets the sweep clear the mark, so at 6 s it is logged again: 2 suspicious items, score 90 |
| Scenarios.PhoneSeenThreeTimes | frontend/src/App.js:249-300 | a phone at 0, 1 and 6 s is logged once (95) with no frame in between, and twice (90) when a frame without it comes between |
| Scenarios.TabSwitchCountsTwice | frontend/src/App.js:305-331 | leaving the tab logs `window_blur` and `tab_change`, two focus losses, 96; a second switch 3 s later is suppressed |
| Scenarios.TabChangeThenDeadline | frontend/src/App.js:374-408 | the corrected deadline, not the code as written: after one tab change the report shows 1 focus loss, 98, one event, 90 s, `1m 30s` |
| Scenarios.DeadlineReportIsStale | frontend/src/App.js:374-408 | the deadline as written: after one tab change the report shows no focus loss, 100 and no events, while the session holds 1, 98 and one event |
| Scenarios.SecondSessionReportsFirst | frontend/src/App.js:579-583 | after "Run Another", which resets nothing, the deadline as written reports the first exam's focus loss, score and event under the second candidate's name, while the second exam has logged nothing |
| Scenarios.TimerFiresAfterEnd | frontend/src/App.js:379-389 | a no-face timer armed before the end still fires after it: the report has no events, but the log gains one |

## Left out

- The detectors are not modelled: MediaPipe FaceMesh, coco-ssd and TensorFlow. Their per-frame outputs are the inputs to `OnFaceResults` and `OnObjectFrame`.
- The camera, the animation-frame scheduling, and skipped frames when the video has no size are left out. Each call is one processed frame.
- Video recording and upload (`startRecording`, `stopRecordingAndUpload`) are external storage I/O. `EndExam` reads the clock where the source does after the upload, and the upload's duration is not modelled.
- The Firestore writes of `pushEvent` and of the report are external I/O. Their failures are only logged to the console.
- The status line (`setStatus`) is not modelled. It is display text that no decision reads.
- Event timestamps are the millisecond clock reading, not an ISO-8601 string.
- Gates.See: keeps the detector score unrounded. The source stores `score.toFixed(2)`, and decimal rounding of floating point is not modelled.
- A prediction without a score (`pred.score || 0`) is not modelled. Scores are always present reals.
- Landmark coordinates are reals, not IEEE doubles.
- `backend/server.js` and `frontend/src/components/VideoFeed.jsx` are not part of this model.
- Timers armed by an earlier session's callback are not modelled. They can still fire after a new session starts. `StartExam` gives the new session fresh timers, and the old ones are dropped.
- Session.Proctor.OnObjectFrame: ignores a detection that resolves after the session has stopped. In the source, the object loop checks `runningRef` only before `await model.detect(video)` (App.js:250-257). A detection that resolves after `endExam` still updates `objectStateRef`, logs its events and charges the metrics. The model checks `running` once per frame and so does not capture these late writes.
- Session.Proctor.OnVisibility and Session.Proctor.OnBlur: check `running`, and act from the Start click on. The source's handlers do not check it. They are attached only at App.js:335-336, after `await cocoSsd.load()` (247), and detached by `stopProctoring` (346-349). The model does not capture two consequences:
  - while the object model loads, a tab change or blur in a running exam is not logged, because no handler is attached yet; the model logs it;
  - Stop pressed during that load runs `stopProctoring` first, with nothing to detach, and the handlers attached afterwards are never removed, so hiding the tab on the report screen still appends a `tab_change` and charges a focus loss; the model changes nothing once `running` is false.
- Session.Proctor.EndExam: always reaches the report. In the source, a failed video upload rejects the promise awaited at App.js:392 (rejection at 79-82), so lines 394-411 never run. The screen stays on the exam with no report, although proctoring has already stopped (389) and the clock and deadline are cleared. `Valid()` rules that state out, and the model does not capture it.
- Session.Proctor.Tick: when several timers are due at one instant, it fires them in a fixed order (no-face, looking-away, drowsiness). In the browser the order is by deadline.
- Event timestamps are not proved to increase along the log. The clock is a free parameter of every call.
- Two behaviours of the code worth stating:
  - a phone seen at 0, 1 and 6 s with no frame in between is logged only once, because it is still marked detected at 6 s (`Scenarios.PhoneSeenThreeTimes`);
  - delayed timers are not cleared when the session ends, and their callbacks still log and charge afterwards (`Scenarios.TimerFiresAfterEnd`).

## Findings

| source | as written | input that shows it | evidently intended | confidence | as-written member | corrected member |
|---|---|---|---|---|---|---|
| frontend/src/App.js:374-376 | the 90-second deadline calls the `endExam` closure made by the Start click, which reads the counters, score and log as that click saw them | one tab change during the first exam, then the deadline: the report shows 0 focus losses, score 100 and no events | the report reflects the session at the deadline: 1 focus loss, 98, one event | high (not executed) | Session.Proctor.ExamTimeoutAsWritten, Scenarios.DeadlineReportIsStale, Scenarios.SecondSessionReportsFirst | Session.Proctor.ExamTimeout, Scenarios.TabChangeThenDeadline |
