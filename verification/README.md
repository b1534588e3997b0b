# VN Save Manager — a Dafny model of the snapshot pipeline and manual capture

VN Save Manager is a Tauri desktop application for visual-novel players. It watches
each registered game's save folder. When a `.dat` save file changes, it backs the
file up together with a screenshot of the game window, taken from a rolling cache of
recent full-screen frames. It stores the resulting snapshot record. A second path,
the F11 hotkey, takes a manual screenshot of the running game. This project models
the decision logic of both paths as pure Dafny functions over explicit inputs and
proves their properties:

- the two debounce gates in front of the pipeline (`save_gates.dfy`);
- matching a changed file to a registered game (`game_matcher.dfy`);
- the rolling frame cache: sampling, FIFO eviction and selection of the freshest
  usable frame (`frame_cache.dfy`);
- the crop-rectangle arithmetic, written twice in the source (`crop.dfy`);
- the screenshot fallback chain (`fallback.dfy`);
- the Win32 window search, also written twice and slightly differently
  (`window_locator.dfy`);
- `process_save_event` as an ordered trace of effects (`snapshot_pipeline.dfy`);
- `capture_screenshot` and `capture_screenshot_for_running_game`
  (`manual_capture.dfy`);
- the hotkey thread's check/claim/drain/reset guard (`hotkey_guard.dfy`);
- `add_game` validation (`registration.dfy`);
- export naming and the collision loop of `batch_export_screenshots` (`export.dfy`);
- the error aggregation of the two batch deletes (`batch_delete.dfy`).

## Modelling choices

- **Outside world.** The filesystem, screen capture, clipboard, store, UUIDs, clocks
  and the notifier become inputs. `SaveEnv`, `CaptureEnv` and `RegEnv` hold the
  outcome each call would have. Whatever a run does to the world is returned as an
  ordered trace of effects, so "the store write comes before the stamp, which comes
  before the notification" is a statement about indices in that trace.
- **Time.** Time is an integer number of milliseconds. `Instant::elapsed` saturates
  at zero.
- **Loops.** The threads' loops are sequential functions over the events in arrival
  order. Each event carries the outcome its processing would have and the instant the
  processing finishes.
- **Paths.** A path is a root string (a drive prefix such as `C:`, a separator, both,
  or nothing) plus its normal components. `Path::starts_with` compares component by
  component, so the prefix and the root separator are components of their own and
  `C:` does not prefix `D:\` nor `C:\` prefix `C:`. As in `Prefix::Disk`, a drive
  letter is kept upper-cased, so `c:\Games` and `C:\Games` are the same folder, while
  normal components compare exactly. Extensions follow
  `rsplit_file_at_dot`: `.dat` and `..` have none.
- **Probes.** `capture_screenshot_for_running_game` reads the store and enumerates the
  windows once to pick a game, and `capture_screenshot` then does both again.
  `CaptureEnv` carries both readings (`probeGames`/`probeWindows` and
  `games`/`windows`), so a game whose window closes in between is modelled. The
  snapshot environment carries the size of the cached frame the crop is computed
  against.
- **Crop arithmetic.** The `i32` arithmetic wraps around explicitly (release-build
  semantics), so the crop functions need no precondition.

Three behaviours of the source are easy to misread. The model follows the code:

- **Clipboard.** A failure of `Clipboard::new()` aborts the snapshot after the
  metadata file is written (`src-tauri/src/snapshot.rs:216`).
- **Game matching.** The save folder is preferred over the game folder only within
  one game. Across games, store order wins (`StoreOrderBeatsSaveFolder`).
- **Hotkey bursts.** The hotkey drain discards only the presses already queued when a
  capture is claimed. A press that arrives during a slow capture is handled afterwards
  and triggers a second capture once two seconds have passed since the first claim
  (`SlowCaptureLetsQueuedPressThrough`). So "a burst yields one capture" holds only
  for presses queued before the claim (`BurstYieldsOneCapture`).

The source's own inconsistencies are modelled as written:

- The snapshot pipeline uses a `visual-log` folder. Everything else uses
  `visual-logger`.
- The snapshot record carries an image path and clipboard text, which the store's
  record type lacks.
- The snapshot record's image path is the UI copy's path even when that copy failed.
- The export and delete messages read a screenshot `name` that the store's record does
  not have; the model carries it in `ShotInfo`.
- `add_game` reports a watch failure after the game has already been stored.
- A successful hotkey capture announces the same screenshot twice: once from
  `capture_screenshot` and again from the hotkey thread (`HotkeyAnnouncesTwice`).

## Model

| member | source | states |
|---|---|---|
| Paths.StartsWithMeansPrefix | src-tauri/src/snapshot.rs:93-103 | `starts_with` holds exactly when the base's components, prefix (drive letter upper-cased) and root included, are a leading run of the path's components |
| Paths.EmptyBasePrefixesEverything | src-tauri/src/snapshot.rs:100-103 | the empty path is a prefix of every path |
| Paths.DriveLetterCaseIgnored | src-tauri/src/snapshot.rs:93-103 | a drive root spelled with a lower-case letter, with or without the separator, has the same components as with the upper-case letter |
| Paths.MixedCaseDriveExamples | src-tauri/src/snapshot.rs:93-103 | `c:\Games\x.dat` starts with `C:\Games`, but `C:\games\x.dat` does not |
| Paths.DrivePrefixExamples | src-tauri/src/snapshot.rs:93-103 | `C:` prefixes `C:\Games`; `C:\` does not prefix `C:Games`; `D:\` does not prefix `C:\Games` |
| Paths.SplitExtension | src-tauri/src/snapshot.rs:79 | a name has an extension exactly when a dot other than a leading one occurs in it and the name is not `..`; the stem is non-empty, stem, dot and extension rebuild the name, and the extension holds no dot |
| Paths.SplitJoined | src-tauri/src/lib.rs:416-424 | a non-empty stem joined by a dot to a dot-free extension splits back into that stem and extension, unless the whole is `..` |
| Text.TrimProperties | src-tauri/src/lib.rs:405-408 | `trim` yields empty exactly when the name is all Unicode white space; otherwise it neither starts nor ends with white space |
| Text.TrimIsSlice | src-tauri/src/lib.rs:405-408 | the trimmed name is a contiguous slice of the name, starting after the leading white space |
| Text.NatToStringInjective | src-tauri/src/lib.rs:425 | different counters are printed as different decimal strings |
| FrameCache.Scan | src-tauri/src/snapshot.rs:151-167 | the selection loop ends with the usable frame of least age, the earliest one on ties because the comparison is strict, or with nothing when no frame is at most 10 s old |
| FrameCache.BestIsUnique | src-tauri/src/snapshot.rs:148-170 | at most one cache position is the youngest usable frame with ties broken by position, so the selection is determined |
| FrameCache.SelectCached | src-tauri/src/snapshot.rs:148-170 | a frame is returned exactly when some frame is at most 10 s old, and it is the youngest such frame, the earliest on ties |
| FrameCache.SelectExamples | src-tauri/src/snapshot.rs:148-170 | frames aged 1 s, 5 s and 12 s give the 1 s frame; a lone 12 s frame gives nothing |
| FrameCache.Evict | src-tauri/src/snapshot.rs:281-285 | popping from the front while over capacity splits the queue into an evicted prefix and a kept suffix of length min(len, max) |
| FrameCache.CaptureAndStore | src-tauri/src/snapshot.rs:251-288 | no screen leaves the cache alone with success; a listing, capture or save failure leaves it alone with failure; otherwise the new frame is pushed last, the length stays within capacity, and exactly the oldest frames are evicted with their files deleted, one path per evicted frame in eviction order |
| FrameCache.SamplerStaysBounded | src-tauri/src/snapshot.rs:58-68 | however many sampler ticks run, the cache never exceeds its capacity |
| FrameCache.TickKeepsFifoOrder | src-tauri/src/snapshot.rs:273-285 | a tick keeps the cache in capture-time order, and every evicted frame is no younger than every kept one |
| FrameCache.TickStaysNotAfter | src-tauri/src/snapshot.rs:267-285 | a tick at or before a given instant leaves every cached frame captured at or before that instant |
| FrameCache.SamplerKeepsOrder | src-tauri/src/snapshot.rs:58-68 | a run of in-order ticks keeps the whole cache in capture-time order |
| Crop.Wrap32 | src-tauri/src/snapshot.rs:301-306 | `i32` wrap-around lands in the `i32` range and leaves in-range values unchanged |
| Crop.CropCached | src-tauri/src/snapshot.rs:299-324 | the crop box starts at a non-negative corner and is at least 1x1; without overflow it ends inside the image whenever it starts inside it, and it equals the translated rectangle when that lies inside the image |
| Crop.CropLive | src-tauri/src/screenshot.rs:78-92 | the manual-capture box starts at a non-negative corner and is at least 1x1 |
| Crop.CropCopiesAgree | src-tauri/src/screenshot.rs:78-92 | the `max`/`min` copy and the `if` copy of the arithmetic give the same box for every input |
| Crop.OffscreenWindowBoxStartsOutside | src-tauri/src/snapshot.rs:308-322 | a window to the right of a 1920x1080 image gives a 1-pixel-wide box starting at x = 3000, outside the image |
| WindowLocator.SearchReadable | src-tauri/src/snapshot.rs:346-387 | the snapshot search returns the rectangle of the first visible window of a real process whose normalised executable matches and whose rectangle was read, and nothing when there is none |
| WindowLocator.SearchFirstOwned | src-tauri/src/screenshot.rs:136-176 | the manual-capture search stops at the first visible matching window and returns whatever rectangle is in hand, read or not |
| WindowLocator.FindForSnapshot | src-tauri/src/snapshot.rs:330-403 | the lookup finds nothing exactly when it runs off Windows or no visible window of a real process runs the normalised executable with a readable rectangle |
| WindowLocator.SnapshotLookupFindsFirst | src-tauri/src/snapshot.rs:346-387 | a rectangle the snapshot lookup finds belongs to a readable matching window with no readable matching window before it in enumeration order |
| WindowLocator.FindForCapture | src-tauri/src/screenshot.rs:120-196 | the lookup finds nothing exactly when it runs off Windows or no visible window of a real process runs the normalised executable |
| WindowLocator.CaptureLookupFindsFirst | src-tauri/src/screenshot.rs:136-176 | a rectangle the manual-capture lookup finds is the one in hand for the first matching window in enumeration order |
| WindowLocator.NormalizePathShape | src-tauri/src/snapshot.rs:332-337 | normalising keeps the length, turns each backslash into `/` and lower-cases each ASCII letter, leaving no backslash and no ASCII capital |
| WindowLocator.NormalizeIdempotent | src-tauri/src/snapshot.rs:332-337 | a normalised path normalises to itself, so comparing normalised forms is comparing up to case and separator style |
| WindowLocator.NormalizeIgnoresCaseAndSeparators | src-tauri/src/snapshot.rs:332-337 | `C:\Games\VN.EXE` and `c:/games/vn.exe` normalise alike |
| WindowLocator.SearchesAgreeWhenRectReadable | src-tauri/src/screenshot.rs:166-173 | when the first matching window's rectangle can be read, the two searches return the same result |
| WindowLocator.SearchesDifferOnRectFailure | src-tauri/src/snapshot.rs:377-384 | when the first matching window's rectangle cannot be read, the snapshot search moves on to the next match, while the capture search returns the zero rectangle |
| GameMatcher.MatchGame | src-tauri/src/snapshot.rs:87-119 | the matched game is the first in store order whose save folder or game folder is a component-wise prefix of the path; there is none exactly when no game claims it |
| GameMatcher.StoreOrderBeatsSaveFolder | src-tauri/src/snapshot.rs:90-111 | an earlier game claiming by game folder wins over a later game claiming by save folder |
| GameMatcher.EmptyFolderClaimsEverything | src-tauri/src/snapshot.rs:100-111 | a game stored first with an empty game folder claims every changed file |
| GameMatcher.MixedCaseDriveMatch | src-tauri/src/snapshot.rs:90-111 | an earlier game with game folder `c:\Games` claims `C:\Games\B\save\x.dat` and wins over a later game whose save folder is `C:\Games\B\save` |
| GameMatcher.PrefixIsComponentWise | src-tauri/src/snapshot.rs:95-103 | `C:\Game` does not claim `C:\GameSaves\x.dat` |
| ScreenshotFallback.Choose | src-tauri/src/snapshot.rs:172-189 | the cached frame is cropped exactly when a frame and a rectangle exist and cropping works; without a frame only live capture is tried; an error means live capture failed |
| ScreenshotFallback.Plan | src-tauri/src/snapshot.rs:172-189 | every plan of steps ends with live capture |
| ScreenshotFallback.FirstSuccess | src-tauri/src/snapshot.rs:172-189 | trying steps in order yields a step that succeeds, and fails exactly when none does |
| ScreenshotFallback.ChooseFollowsPlan | src-tauri/src/snapshot.rs:172-189 | the nested conditionals are exactly "crop, else copy, else live capture" with the steps that apply, tried in order |
| ScreenshotFallback.OnlyLiveCaptureErrorsPropagate | src-tauri/src/snapshot.rs:172-189 | the chain fails exactly when live capture is reached and fails; crop and copy failures never surface |
| SnapshotPipeline.SaveFileByName | src-tauri/src/snapshot.rs:79-85 | a file is a save file exactly when its name has at least five characters, a dot fourth from the end, and three last characters that lower-case to `dat` |
| SnapshotPipeline.IgnoresNonSaveFiles | src-tauri/src/snapshot.rs:79-85 | a file whose extension is missing or does not lower-case to exactly `dat` is ignored: success with no effect |
| SnapshotPipeline.SaveFileExamples | src-tauri/src/snapshot.rs:79-85 | `DATA01.DAT` is a save file; `data01.dat.bak`, a bare `.dat` and an extension-less name are not |
| SnapshotPipeline.IgnoresUnclaimedFiles | src-tauri/src/snapshot.rs:113-119 | a save file no game claims is ignored: success with no effect |
| SnapshotPipeline.ProcessFollowsFirstClaimant | src-tauri/src/snapshot.rs:87-121 | when game `i` claims a save file and no game before it does, processing the event is exactly the snapshot of game `i`, whatever later games claim |
| SnapshotPipeline.SideFiles | src-tauri/src/snapshot.rs:191-203 | the UI copy and the empty context and note files never store, stamp or notify |
| SnapshotPipeline.CopyFailureStoresNothing | src-tauri/src/snapshot.rs:134-139 | a failed save-file copy fails the run after only the two folder creations, before any screenshot, store write, stamp or notification |
| SnapshotPipeline.GameRunUnstored | src-tauri/src/snapshot.rs:121-228 | once the game is known, a run that does not reach the store write fails and neither stores, stamps nor notifies |
| SnapshotPipeline.UnstoredRunHasNoBookkeeping | src-tauri/src/snapshot.rs:87-230 | a run that does not reach the store write neither stores, stamps nor notifies, and it fails or does nothing at all |
| SnapshotPipeline.SnapshotGameRecords | src-tauri/src/snapshot.rs:121-189 | once the screenshot source is found, the run begins with the two folder creations, the save copy and the screenshot, in that order |
| SnapshotPipeline.SnapshotCropsToWindow | src-tauri/src/snapshot.rs:172-189 | the fourth effect writes the snapshot screenshot: the selected frame cropped to the game's window by the frame's screen origin and the frame's size, or the whole frame, or a live capture |
| SnapshotPipeline.RecordedOrder | src-tauri/src/snapshot.rs:191-239 | after the screenshot, a run whose clipboard and store write succeed keeps its earlier effects first, then only side files and metadata, then store, stamp and the notification; it succeeds exactly when the notification goes out |
| SnapshotPipeline.GameStoredRunOrder | src-tauri/src/snapshot.rs:121-239 | once the game is known, a run that stores has folders, copy and screenshot first, no bookkeeping before the store write, then the stamp, then the notification when it goes out |
| SnapshotPipeline.StoredRunOrder | src-tauri/src/snapshot.rs:121-239 | a run that stores has the two folders, the save copy and the screenshot first, no bookkeeping before the store write, then the stamp, and the notification last when it goes out; it succeeds exactly when the notification goes out; the record belongs to the matched game, points at the changed file and the snapshot folder, and has no note |
| SnapshotPipeline.StampedIffStored | src-tauri/src/snapshot.rs:230-235 | the debounce timestamp moves exactly when the record was stored, whatever happens to the notification |
| SaveGates.WatcherStep | src-tauri/src/watcher.rs:39-58 | an event is passed on exactly when it is a create or modify event 2 s or more after the stamp; it is then passed on with all its paths and the stamp moves to its arrival, and otherwise the stamp stays |
| SaveGates.WatcherAcceptedSpaced | src-tauri/src/watcher.rs:36-52 | the watcher gate accepts no event within 2 s of its start and no two events less than 2 s apart, since it stamps on acceptance |
| SaveGates.LibStep | src-tauri/src/lib.rs:494-519 | the pipeline runs exactly for a create or modify event with at least one path, 2 s or more after the stamp; when it does not run the stamp stays |
| SaveGates.LibStepMovesStamp | src-tauri/src/lib.rs:499-513 | a turn of the wired-up gate moves the stamp to the turn's end only when a record was stored, and only for an event 2 s after the old stamp; otherwise the stamp stays |
| SaveGates.LibStoredSpaced | src-tauri/src/lib.rs:488-519 | the wired-up gate stores snapshots for events at least 2 s apart and none within 2 s of the previous stamp, startup included |
| SaveGates.GatesIgnoreOtherEvents | src-tauri/src/watcher.rs:39-58 | both gates ignore every event kind other than Create and Modify, and every notifier error, without moving their stamp |
| SaveGates.GatesDifferAfterIgnoredChange | src-tauri/src/watcher.rs:44-47 | a change to a non-save file is accepted by the watcher gate and moves its stamp, so a save change 1 ms later is dropped there; the wired-up gate runs the pipeline on that non-save change without moving its stamp and lets the save change through |
| ManualCapture.FindGame | src-tauri/src/screenshot.rs:52-55 | the game found is the first with the requested id, and there is none exactly when no game has it |
| ManualCapture.CaptureScreenshot | src-tauri/src/screenshot.rs:51-118 | a captured screenshot belongs to the requested game and has no note; a capture by id never reports "No running game found" |
| ManualCapture.LookupErrorsComeFirst | src-tauri/src/screenshot.rs:51-63 | "Game not found", "Game exe_path not set" and "Game window not found" are reported exactly in that order of precedence, each before any capture, file write or store write |
| ManualCapture.CaptureRecordAndOrder | src-tauri/src/screenshot.rs:94-116 | a successful capture stores a record for the requested game with no note and path `<game folder>/visual-logger/screenshots/screenshot_<stamp>.png`; the cropped image is saved to that path before the store write, which precedes the notification, which comes last |
| ManualCapture.SuccessAnnouncesLast | src-tauri/src/screenshot.rs:113-116 | a successful capture announces its record exactly once, as its last effect |
| ManualCapture.CaptureCropsToWindow | src-tauri/src/screenshot.rs:65-92 | the box saved is the manual-capture crop of the window rectangle found, by the primary screen's origin and the captured image's size |
| ManualCapture.FailedCaptureStoresNothing | src-tauri/src/screenshot.rs:65-114 | a failed capture neither stores nor announces a record, except that an announce failure comes after the store write |
| ManualCapture.FirstRunning | src-tauri/src/screenshot.rs:38-46 | the running game is the first in store order with an executable whose window the probe's enumeration finds, and there is none exactly when no game qualifies |
| ManualCapture.CaptureForRunningGame | src-tauri/src/screenshot.rs:36-49 | "No running game found" is reported exactly when the probe's store read succeeds and finds no running game, and then nothing happens |
| ManualCapture.NoneRunningFails | src-tauri/src/screenshot.rs:36-49 | when no game of the probe's store read has a window, the hotkey capture fails with "No running game found" and does nothing |
| ManualCapture.RunningGameChoice | src-tauri/src/screenshot.rs:36-49 | when game `i` of the probe's store read has a window and no game before it does, the hotkey capture is the capture by game `i`'s id, which reads the store and enumerates the windows again |
| ManualCapture.ProbedGameFoundAgain | src-tauri/src/screenshot.rs:36-55 | when ids are unique and the store has not changed, the second lookup finds the probed game itself |
| ManualCapture.StableLookupFindsProbedGame | src-tauri/src/screenshot.rs:36-63 | when ids are unique and neither the store nor the windows change between probe and capture, the capture fails neither at the store read nor at any lookup |
| ManualCapture.WindowClosedInBetween | src-tauri/src/screenshot.rs:36-63 | when the probed game's window is gone by the time of the capture (other windows may remain), the hotkey capture fails with "Game window not found" |
| HotkeyGuard.Claim | src-tauri/src/lib.rs:576-589 | the claim succeeds exactly when no capture is in progress; it then stamps the time and turns every later press away until the capture ends, and otherwise changes nothing |
| HotkeyGuard.ClaimThenFinish | src-tauri/src/lib.rs:576-619 | after a claim and a capture success, a capture error or a lock failure, the flag is down, the stamp is the claim time, and a press passes again exactly from 2 s after the claim |
| HotkeyGuard.Announcements | src-tauri/src/screenshot.rs:114 | the screenshots a trace announces are exactly those of its announce effects |
| HotkeyGuard.Queued | src-tauri/src/lib.rs:592-596 | the drain discards exactly the leading presses that arrived by the claim, and the next one left arrived later |
| HotkeyGuard.Loop | src-tauri/src/lib.rs:545-619 | each press yields at most one claim, each claim has its outcome, and a guard already capturing claims nothing and stays as it is |
| HotkeyGuard.FlagNeverBlocks | src-tauri/src/lib.rs:555-589 | on the single hotkey thread the capturing flag never turns a press away: the loop claims exactly what the debounce alone would, and ends with the flag down |
| HotkeyGuard.ClaimsSpaced | src-tauri/src/lib.rs:555-573 | claims come at least 2 s after the previous stamp and at least 2 s apart from each other |
| HotkeyGuard.HotkeyCapturesSpaced | src-tauri/src/lib.rs:539-619 | from startup, the hotkey thread never claims twice within 2 s nor within 2 s of starting, whatever the presses and however long captures take |
| HotkeyGuard.OtherHotkeysNeverCapture | src-tauri/src/lib.rs:552 | presses of other hotkeys never claim a capture and leave the guard unchanged |
| HotkeyGuard.BurstYieldsOneCapture | src-tauri/src/lib.rs:591-596 | presses all queued by the time the first one is claimed yield exactly one capture |
| HotkeyGuard.SlowCaptureLetsQueuedPressThrough | src-tauri/src/lib.rs:591-600 | a press arriving during a 4 s capture is not drained and triggers a second capture when the first ends |
| HotkeyGuard.HotkeyAnnouncesTwice | src-tauri/src/lib.rs:600-602 | a successful hotkey capture announces the same record twice |
| Registration.FirstHolder | src-tauri/src/lib.rs:73-83 | the conflicting game is the first in store order whose path canonicalises to the new one; games without the path or whose path cannot be canonicalised never conflict |
| Registration.AddGame | src-tauri/src/lib.rs:38-127 | any effect at all requires every validation to pass first (parent folder, both paths exist, store read, free name, both paths canonicalise, neither held by a registered game) and the screenshots folder to be created; a successful registration ends with the watch of the save folder |
| Registration.ValidationOrder | src-tauri/src/lib.rs:47-61 | no parent folder, missing save folder, missing executable and a failed store read are reported in that order, each exactly when the earlier checks pass |
| Registration.DuplicateOrder | src-tauri/src/lib.rs:63-104 | after a successful store read the errors come in order, each exactly when the checks before it pass and its own fails: taken name, executable not canonicalisable, executable held (naming the first holder), save folder not canonicalisable, save folder held (naming the first holder) |
| Registration.RejectionHasNoEffect | src-tauri/src/lib.rs:47-104 | every validation failure happens before any folder, store or watcher effect |
| Registration.StoredGameShape | src-tauri/src/lib.rs:106-126 | a stored game has the executable's parent as its folder and the save folder and executable as given, not canonicalised; the store write is the third effect; the result is Ok with the new id, ending with the watch of the save folder, exactly when watching succeeds, and otherwise a watch failure reported after the store write |
| Registration.RegistrationKeepsGamesDistinct | src-tauri/src/lib.rs:63-117 | if no two registered games share a name, canonical executable or canonical save folder, the same holds after a registration |
| Export.Sanitize | src-tauri/src/lib.rs:395-398 | each of `:<>"\|?*\/` becomes `_`, and every other character is kept |
| Export.SanitizedNameIsSafe | src-tauri/src/lib.rs:395-408 | the trimmed sanitised name is empty exactly when the name is all white space; otherwise it holds no forbidden character and neither starts nor ends with white space |
| Export.ExportFilename | src-tauri/src/lib.rs:389-409 | a blank name gives the source's file name (`screenshot.png` when it has none); otherwise a stem free of forbidden characters and of white space at either end, a dot, then the source's extension (`png` when it has none) |
| Export.ExportNameSplitsBack | src-tauri/src/lib.rs:405-424 | the collision loop's stem and extension of a named export are the trimmed sanitised name and the extension the export gave it, unless the name is `..` |
| Export.DotDotExportName | src-tauri/src/lib.rs:405-425 | the name `.` on a file `a.` gives the export name `..`, which always exists, so even into an empty folder the file is written as `screenshot (1).png` |
| Export.ExportNameStaysInFolder | src-tauri/src/lib.rs:389-411 | an export name holds no path separator, so the copy lands directly in the export folder |
| Export.CandidateInjective | src-tauri/src/lib.rs:425 | different counters give different `stem (n).ext` names |
| Export.FirstFreeFrom | src-tauri/src/lib.rs:413-427 | the collision loop stops at the first counter whose name is free, and terminates because the folder holds finitely many names |
| Export.FreeName | src-tauri/src/lib.rs:411-427 | the name chosen never exists in the folder and is never the folder itself or its parent (the empty name, `.` or `..`): it is the export name if that is free, otherwise the first free `stem (n).ext` with every earlier one taken |
| Export.ExportLoop | src-tauri/src/lib.rs:380-442 | every item is either exported or reports one error; the names written are pairwise different, none existed before and none is the folder itself or its parent, so nothing is overwritten |
| Export.BatchExport | src-tauri/src/lib.rs:365-458 | a missing export folder and a non-folder are reported first; the batch is Ok exactly when the folder is usable and every item was exported, and then with the item count |
| Export.BatchExportResult | src-tauri/src/lib.rs:444-456 | the batch is Ok with the item count exactly when every item was exported; a failure says whether nothing or some items went through and, when some did, how many |
| Export.SanitizeExample | src-tauri/src/lib.rs:395-398 | `a:b` is sanitised to `a_b` |
| Export.BlankNameExample | src-tauri/src/lib.rs:405-406 | a white-space name exports under the source's own file name |
| Export.CollisionExample | src-tauri/src/lib.rs:413-427 | `x.png` taken gives `x (1).png` |
| Export.CollisionAddsPng | src-tauri/src/lib.rs:417-425 | a file without an extension is exported without one, but its collision names gain `.png` |
| BatchDelete.DeleteOne | src-tauri/src/lib.rs:333-355 | an item reports an error exactly when it does not go through cleanly, and at most one |
| BatchDelete.DeleteOneEffects | src-tauri/src/lib.rs:333-355 | the record goes exactly when it is found and the store delete succeeds; the file goes exactly when, in addition, it exists and its removal succeeds, and then only after the record |
| BatchDelete.DeleteLoop | src-tauri/src/lib.rs:329-355 | one error per item that does not go through cleanly |
| BatchDelete.RemovalsFollowRecordDeletion | src-tauri/src/lib.rs:333-349 | a file is removed only for an item that was found, deleted from the store and had its file present |
| BatchDelete.DeleteLoopSplits | src-tauri/src/lib.rs:333-357 | the batch over two runs of ids logs the first run's errors and effects, then the second's |
| BatchDelete.DeleteLoopItem | src-tauri/src/lib.rs:333-357 | each id's effects and error sit in the log between those of the ids before it and those after it |
| BatchDelete.DeleteLoopPerItem | src-tauri/src/lib.rs:333-357 | a clean id has its record deleted and its file removed if it had one; a missing id, a failed store delete and a failed file removal each report their error, the last after the record was deleted |
| BatchDelete.BatchDelete | src-tauri/src/lib.rs:329-362 | the batch succeeds exactly when no item fails, and otherwise reports one error per failed item |
| BatchDelete.BatchDeleteResult | src-tauri/src/lib.rs:288-326 | a batch delete succeeds exactly when every item is found, deleted from the store and has its file removed or had none; otherwise every failed item is reported once |

## Left out

- Win32 FFI, screen capture, PNG encoding and decoding, the clipboard, the SQLite
  store, UUID and time-stamp generation and the `notify` watcher set-up are outside
  the model. Their results are inputs.
- Threads, `Arc<Mutex>`, lock poisoning and channels are left out. The loops are
  sequential, and the branches taken only on a poisoned lock are not modelled.
  Examples are the `continue` in the save-event gate and the `false` results of both
  hotkey checks.
- The 200 ms settle sleep and the 800 ms sampler interval are constants only. Time
  passing is expressed through the event and tick times given.
- The `image` crate's own clamping inside `crop_imm` is left out. The model stops at
  the box handed to it.
- The start-up watch of every registered game's save folder is left out
  (`src-tauri/src/lib.rs:473-483`), and so is the F11 registration itself
  (`src-tauri/src/lib.rs:531-536`).
- The UI (`src/`) and `src-tauri/src/db.rs` are not part of this model. The store
  appears only as a sequence of games in the order `get_games` returns them.
- Text is modelled only as far as the core needs. Strings are parsed into
  component-form paths beforehand. Non-UTF-8 names (`to_str` failing,
  `to_string_lossy`) are not modelled.
- Paths.RootComponents: only a plain drive prefix (`C:`) is parsed and its letter
  upper-cased. A verbatim (`\\?\`) or UNC prefix is kept as written text, where Rust
  parses it and upper-cases the letter of a verbatim drive.
- WindowLocator.NormalizePath: lower-cases ASCII letters only, where Rust's
  `to_lowercase` is Unicode-aware.
- SnapshotPipeline.IsSaveFile: lower-cases ASCII letters only. A non-ASCII extension
  never lower-cases to `dat`, so the difference cannot change the result.
- Crop.CropCached: its upper-bound and exactness clauses are stated only when no
  `i32` operation wraps around. With wrap-around, only the lower bounds hold.
- BatchDelete.RemovalsFollowRecordDeletion: says a removed file belongs to some item
  that was found and deleted from the store, not necessarily the same item when two
  items share a file. `DeleteLoopPerItem` gives the per-item statement.
- The snapshot and screenshot batch deletes are one model. The snapshot's
  `remove_dir_all` versus `remove_file` choice is a single outcome.
- Export.FirstFreeFrom: the counter is unbounded. The source's `i32` counter would
  overflow only after 2^31 taken names.
- Export.FreeName: the folder's names are compared exactly. A case-insensitive
  filesystem, where `X.png` is taken by `x.png`, is not modelled.
- HotkeyGuard.HotkeyCapturesSpaced: each press carries the duration and outcome of the
  capture it would trigger. The outcome is linked to the manual capture through
  `Capture`, not computed inside the loop.
- SnapshotPipeline.GameWindow and ManualCapture.WindowOf: the executable path is held
  in parsed form and rendered back for the window lookup. A stored path spelled with
  doubled separators, `.` components or a trailing separator is therefore normalised
  from its rendered form rather than from the raw string. The source compares the raw
  string, so such a path could match a window here that it would miss in the source.
- ManualCapture.CaptureScreenshot: the file-name stamp and the record's `createdAt` are
  independent inputs. The source derives both from the same `Utc::now()` reading, and
  that link is not stated.
- Batch-delete errors carry the item's id rather than the message text of the store
  or the filesystem.
