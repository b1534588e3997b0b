/** `process_save_event`: one accepted change event turned into a backed-up save file,
    a correlated screenshot and a stored snapshot record. File-system, screen, clipboard,
    store and notification calls are replaced by their outcomes (`SaveEnv`); what the
    pipeline does to the world is returned as an ordered trace of effects. */
module SnapshotPipeline {
  import opened Wrappers
  import opened Text
  import opened Paths
  import opened Records
  import opened FrameCache
  import opened WindowLocator
  import opened GameMatcher
  import opened ScreenshotFallback
  import opened Crop

  /** The wait before copying the save file; time passing is not modelled. */
  const SettleDelayMs: nat := 200

  /** Only files whose extension lower-cases to exactly `dat` are save files. */
  predicate IsSaveFile(p: Path) {
    Extension(p).Some? && Lower(Extension(p).value) == "dat"
  }

  /** In terms of the file name: at least one character, a dot, then three characters
      that lower-case to `dat` — so a bare `.dat`, whose only dot leads, is no save file. */
  lemma SaveFileByName(p: Path)
    ensures IsSaveFile(p) <==> FileName(p).Some? && var n := FileName(p).value;
                               |n| >= 5 && n[|n| - 4] == '.' && Lower(n[|n| - 3..]) == "dat"
  {
    if FileName(p).Some? {
      var n := FileName(p).value;
      if IsSaveFile(p) {
        var (stem, e) := SplitExtension(n);
        assert |Lower(e.value)| == |e.value| == 3;
        assert n == stem + "." + e.value;
        assert n[|n| - 3..] == e.value;
      }
      if |n| >= 5 && n[|n| - 4] == '.' && Lower(n[|n| - 3..]) == "dat" {
        var e := n[|n| - 3..];
        forall k | |n| - 4 < k < |n| ensures n[k] != '.' {
          assert Lower(e)[k - |n| + 3] == LowerChar(n[k]);
        }
        LastDotAt(n, |n| - 4);
        assert SplitExtension(n) == (n[..|n| - 4], Some(e));
      }
    }
  }

  /** `Clipboard::new()` failing, or succeeding with or without text to read. */
  datatype ClipboardState = ClipboardUnavailable | ClipboardNoText | ClipboardText(text: string)

  /** The outcomes of everything the pipeline asks of the outside world. `frameSize` is
      the size of the selected cached frame's image as `image::open` reads it. */
  datatype SaveEnv = SaveEnv(
    games: Result<seq<Game>, string>,
    visualDirOk: bool,
    snapshotDirOk: bool,
    copyOk: bool,
    platform: Platform,
    windows: seq<WindowRec>,
    cache: seq<Frame>,
    now: int,
    frameSize: (nat, nat),
    shots: StepOutcomes,
    appData: Option<Path>,
    uiDirOk: bool,
    uiCopyOk: bool,
    contextOk: bool,
    noteOk: bool,
    metadataOk: bool,
    clipboard: ClipboardState,
    storeOk: bool,
    emitOk: bool,
    uuid: string,
    stamp: string,
    createdAt: string)

  datatype PipelineError =
    | StoreReadFailed
    | DirectoryFailed
    | InvalidFileName
    | CopyFailed
    | CaptureFailed
    | AppDataUnavailable
    | MetadataFailed
    | ClipboardFailed
    | StoreWriteFailed
    | EmitFailed

  /** What a run did, in order. */
  datatype Effect =
    | MakeDir(dir: Path)
    | CopySave(dest: Path)
    | WriteScreenshot(source: Source, dest: Path, frame: Option<Path>, box: Option<CropBox>)
    | CopyForUi(dest: Path)
    | WritePlaceholder(dest: Path)
    | WriteMetadata(dest: Path)
    | StoreSnapshot(snapshot: Snapshot)
    | SetLastSnapshotTime
    | EmitSnapshotCreated(snapshot: Snapshot)

  datatype Run = Run(result: Result<(), PipelineError>, trace: seq<Effect>)

  /** This directory name differs from the `visual-logger` used everywhere else. */
  function VisualLogDir(g: Game): Path {
    Join(g.gameFolder, "visual-log")
  }

  function SnapshotFolder(g: Game, stamp: string): Path {
    Join(VisualLogDir(g), g.name + "_" + stamp)
  }

  function UiScreenshotsDir(appData: Path, g: Game): Path {
    Join(Join(appData, "screenshots"), g.id)
  }

  function UiScreenshotPath(appData: Path, g: Game, uuid: string): Path {
    Join(UiScreenshotsDir(appData, g), uuid + ".png")
  }

  /** The window rectangle looked up for the game's executable, if it has one. */
  function GameWindow(g: Game, env: SaveEnv): Option<Rect> {
    match g.exePath
    case None => None
    case Some(exe) => FindForSnapshot(env.windows, Render(exe), env.platform)
  }

  function ProcessSaveEvent(changed: Path, env: SaveEnv): Run {
    if !IsSaveFile(changed) then Run(Ok(()), [])
    else
      match env.games
      case Err(_) => Run(Err(StoreReadFailed), [])
      case Ok(games) =>
        match MatchGame(games, changed)
        case None => Run(Ok(()), [])
        case Some(g) => SnapshotGame(changed, g, env)
  }

  /** The pipeline once a game has been matched: folders, settle, copy, screenshot. */
  function SnapshotGame(changed: Path, g: Game, env: SaveEnv): Run {
    if !env.visualDirOk then Run(Err(DirectoryFailed), [])
    else if !env.snapshotDirOk then Run(Err(DirectoryFailed), [MakeDir(VisualLogDir(g))])
    else
      var folder := SnapshotFolder(g, env.stamp);
      var dirs := [MakeDir(VisualLogDir(g)), MakeDir(folder)];
      match FileName(changed)
      case None => Run(Err(InvalidFileName), dirs)
      case Some(datName) =>
        if !env.copyOk then Run(Err(CopyFailed), dirs)
        else
          var copied := dirs + [CopySave(Join(folder, datName))];
          match Choose(SelectCached(env.cache, env.now).Some?, GameWindow(g, env).Some?, env.shots)
          case Err(_) => Run(Err(CaptureFailed), copied)
          case Ok(src) => Record(changed, g, env, folder, copied + [ScreenshotEffect(src, g, env, folder)])
  }

  /** The screenshot written into the snapshot folder: the selected cached frame cropped
      to the game's window by the frame's own screen origin, the whole frame, or a live
      capture. */
  function ScreenshotEffect(src: Source, g: Game, env: SaveEnv, folder: Path): Effect {
    var dest := Join(folder, "screenshot.png");
    var frame := SelectCached(env.cache, env.now);
    var rect := GameWindow(g, env);
    match src
    case CroppedCache =>
      if frame.Some? && rect.Some? then
        var f := frame.value;
        WriteScreenshot(src, dest, Some(f.path), Some(CropCached(rect.value, f.originX, f.originY, env.frameSize.0, env.frameSize.1)))
      else WriteScreenshot(src, dest, None, None)
    case WholeCache => WriteScreenshot(src, dest, if frame.Some? then Some(frame.value.path) else None, None)
    case LiveCapture => WriteScreenshot(src, dest, None, None)
  }

  /** The snapshot record as built from the run's inputs. */
  function MakeSnapshot(changed: Path, g: Game, env: SaveEnv, folder: Path, appData: Path): Snapshot {
    Snapshot(
      env.uuid, g.id, changed, folder, Some(UiScreenshotPath(appData, g, env.uuid)),
      if env.clipboard.ClipboardText? then Some(env.clipboard.text) else None,
      None, env.createdAt)
  }

  /** The pipeline after the screenshot: UI copy, side files, clipboard, store, stamp, emit. */
  function Record(changed: Path, g: Game, env: SaveEnv, folder: Path, done: seq<Effect>): Run {
    match env.appData
    case None => Run(Err(AppDataUnavailable), done)
    case Some(appData) =>
      if !env.uiDirOk then Run(Err(DirectoryFailed), done)
      else
        var files := Written(done, g, env, folder, appData);
        if !env.metadataOk then Run(Err(MetadataFailed), files)
        else Commit(files + [WriteMetadata(Join(folder, "metadata.json"))],
                    MakeSnapshot(changed, g, env, folder, appData), env)
  }

  /** The UI copy of the screenshot and the empty context and note files; a failure of
      any of them is only logged. */
  function SideFiles(g: Game, env: SaveEnv, folder: Path, appData: Path): (t: seq<Effect>)
    ensures NoBookkeeping(t)
  {
    (if env.uiCopyOk then [CopyForUi(UiScreenshotPath(appData, g, env.uuid))] else [])
    + (if env.contextOk then [WritePlaceholder(Join(folder, "context.txt"))] else [])
    + (if env.noteOk then [WritePlaceholder(Join(folder, "note.txt"))] else [])
  }

  /** The effects once the UI directory exists: the UI directory, then the side files. */
  function Written(done: seq<Effect>, g: Game, env: SaveEnv, folder: Path, appData: Path): seq<Effect> {
    done + [MakeDir(UiScreenshotsDir(appData, g))] + SideFiles(g, env, folder, appData)
  }

  /** Clipboard, store write, debounce stamp, notification. */
  function Commit(written: seq<Effect>, snap: Snapshot, env: SaveEnv): Run {
    if env.clipboard.ClipboardUnavailable? then Run(Err(ClipboardFailed), written)
    else if !env.storeOk then Run(Err(StoreWriteFailed), written)
    else if env.emitOk then Run(Ok(()), written + Committed(snap, true))
    else Run(Err(EmitFailed), written + Committed(snap, false))
  }

  /** The tail of a run that stored its record: store, stamp, and the notification if
      it went out. */
  function Committed(snap: Snapshot, emitted: bool): seq<Effect> {
    [StoreSnapshot(snap), SetLastSnapshotTime] + (if emitted then [EmitSnapshotCreated(snap)] else [])
  }

  predicate Bookkeeping(e: Effect) {
    e.StoreSnapshot? || e.SetLastSnapshotTime? || e.EmitSnapshotCreated?
  }

  predicate NoBookkeeping(t: seq<Effect>) {
    forall i :: 0 <= i < |t| ==> !Bookkeeping(t[i])
  }

  predicate HasCopyAndScreenshot(t: seq<Effect>) {
    (exists i :: 0 <= i < |t| && t[i].CopySave?) && (exists i :: 0 <= i < |t| && t[i].WriteScreenshot?)
  }

  /** Every step up to and including the store write succeeds: the conditions under
      which a snapshot record is persisted. */
  predicate ReachesStore(changed: Path, env: SaveEnv) {
    && IsSaveFile(changed)
    && env.games.Ok?
    && MatchGame(env.games.value, changed).Some?
    && GameReachesStore(changed, MatchGame(env.games.value, changed).value, env)
  }

  /** The same, once the game is known. */
  predicate GameReachesStore(changed: Path, g: Game, env: SaveEnv) {
    && env.visualDirOk && env.snapshotDirOk
    && FileName(changed).Some?
    && env.copyOk
    && Choose(SelectCached(env.cache, env.now).Some?, GameWindow(g, env).Some?, env.shots).Ok?
    && CommitSucceeds(env)
  }

  /** Whether a run moved the debounce timestamp. */
  predicate Stamped(run: Run) {
    SetLastSnapshotTime in run.trace
  }

  /** Files that are not save files are ignored: success, and nothing happens. */
  lemma IgnoresNonSaveFiles(changed: Path, env: SaveEnv)
    requires !IsSaveFile(changed)
    ensures ProcessSaveEvent(changed, env) == Run(Ok(()), [])
  {
  }

  /** A save file no game claims is ignored: success, and nothing happens. */
  lemma IgnoresUnclaimedFiles(changed: Path, env: SaveEnv)
    requires env.games.Ok?
    requires forall i :: 0 <= i < |env.games.value| ==> !Claims(env.games.value[i], changed)
    ensures ProcessSaveEvent(changed, env) == Run(Ok(()), [])
  {
  }

  /** Upper- and mixed-case `.DAT` files count; `.dat.bak` and a bare `.dat` do not. */
  lemma SaveFileExamples()
    ensures IsSaveFile(Path("C:\\", ["save", "DATA01.DAT"]))
    ensures !IsSaveFile(Path("C:\\", ["save", "data01.dat.bak"]))
    ensures !IsSaveFile(Path("C:\\", ["save", ".dat"]))
    ensures !IsSaveFile(Path("C:\\", ["save", "data01"]))
  {
    var up, bak, hidden := "DATA01.DAT", "data01.dat.bak", ".dat";
    LastDotAt(up, 6);
    assert up[..6] == "DATA01" && up[7..] == "DAT";
    assert Lower("DAT") == "dat";
    LastDotAt(bak, 10);
    assert bak[11..] == "bak";
    assert Lower("bak")[0] == 'b';
    LastDotAt(hidden, 0);
    assert LastDot("data01") == None;
  }

  /** When the save file cannot be copied, the run fails with the copy error and
      nothing is written past the two folders: no screenshot, no record, no stamp. */
  lemma CopyFailureStoresNothing(changed: Path, g: Game, env: SaveEnv)
    requires IsSaveFile(changed) && env.games.Ok? && MatchGame(env.games.value, changed) == Some(g)
    requires env.visualDirOk && env.snapshotDirOk && !env.copyOk
    ensures var run := ProcessSaveEvent(changed, env);
            run.result == Err(CopyFailed)
            && run.trace == [MakeDir(VisualLogDir(g)), MakeDir(SnapshotFolder(g, env.stamp))]
  {
  }

  predicate CommitSucceeds(env: SaveEnv) {
    env.appData.Some? && env.uiDirOk && env.metadataOk && !env.clipboard.ClipboardUnavailable? && env.storeOk
  }

  lemma NoBookkeepingAppend(a: seq<Effect>, b: seq<Effect>)
    requires NoBookkeeping(a) && NoBookkeeping(b)
    ensures NoBookkeeping(a + b)
  {
    assert forall i :: 0 <= i < |a + b| ==> (a + b)[i] == if i < |a| then a[i] else b[i - |a|];
  }

  lemma WrittenHasNoBookkeeping(done: seq<Effect>, g: Game, env: SaveEnv, folder: Path, appData: Path)
    requires NoBookkeeping(done)
    ensures NoBookkeeping(Written(done, g, env, folder, appData))
    ensures NoBookkeeping(Written(done, g, env, folder, appData) + [WriteMetadata(Join(folder, "metadata.json"))])
  {
    NoBookkeepingAppend(done, [MakeDir(UiScreenshotsDir(appData, g))]);
    NoBookkeepingAppend(done + [MakeDir(UiScreenshotsDir(appData, g))], SideFiles(g, env, folder, appData));
    NoBookkeepingAppend(Written(done, g, env, folder, appData), [WriteMetadata(Join(folder, "metadata.json"))]);
  }

  lemma RecordFails(changed: Path, g: Game, env: SaveEnv, folder: Path, done: seq<Effect>)
    requires NoBookkeeping(done) && !CommitSucceeds(env)
    ensures Record(changed, g, env, folder, done).result.Err?
    ensures NoBookkeeping(Record(changed, g, env, folder, done).trace)
  {
    if env.appData.Some? && env.uiDirOk {
      WrittenHasNoBookkeeping(done, g, env, folder, env.appData.value);
    }
  }

  lemma RecordCommits(changed: Path, g: Game, env: SaveEnv, folder: Path, done: seq<Effect>)
    requires CommitSucceeds(env)
    ensures var snap := MakeSnapshot(changed, g, env, folder, env.appData.value);
            var pre := Written(done, g, env, folder, env.appData.value) + [WriteMetadata(Join(folder, "metadata.json"))];
            Record(changed, g, env, folder, done)
              == Run(if env.emitOk then Ok(()) else Err(EmitFailed), pre + Committed(snap, env.emitOk))
  {
  }

  /** Whatever happens after the screenshot, the effects before it stay at the front. */
  lemma RecordKeepsPrefix(changed: Path, g: Game, env: SaveEnv, folder: Path, done: seq<Effect>)
    ensures var t := Record(changed, g, env, folder, done).trace;
            |t| >= |done| && t[..|done|] == done
  {
    var t := Record(changed, g, env, folder, done).trace;
    if env.appData.Some? && env.uiDirOk {
      var w := Written(done, g, env, folder, env.appData.value);
      assert w[..|done|] == done;
      assert t[..|w|] == w;
    }
  }

  /** The pipeline of a claimed save file is the pipeline of the game claiming it. */
  lemma ProcessIsSnapshotGame(changed: Path, env: SaveEnv)
    requires IsSaveFile(changed) && env.games.Ok? && MatchGame(env.games.value, changed).Some?
    ensures ProcessSaveEvent(changed, env) == SnapshotGame(changed, MatchGame(env.games.value, changed).value, env)
  {
  }

  /** A save file is snapshotted for the first game in store order that claims it: when
      game `i` claims the file and no game before it does, processing the event is
      exactly snapshotting game `i`, whatever later games claim. */
  lemma ProcessFollowsFirstClaimant(changed: Path, env: SaveEnv, i: nat)
    requires IsSaveFile(changed) && env.games.Ok? && i < |env.games.value|
    requires Claims(env.games.value[i], changed)
    requires forall j :: 0 <= j < i ==> !Claims(env.games.value[j], changed)
    ensures ProcessSaveEvent(changed, env) == SnapshotGame(changed, env.games.value[i], env)
  {
    var games := env.games.value;
    var m := MatchGame(games, changed);
    var k :| && 0 <= k < |games| && m.value == games[k] && Claims(games[k], changed)
             && forall j :: 0 <= j < k ==> !Claims(games[j], changed);
    assert k == i;
    ProcessIsSnapshotGame(changed, env);
  }

  /** The effects up to and including the screenshot, when the copy succeeded and a
      screenshot source was found. */
  function UpToScreenshot(changed: Path, g: Game, env: SaveEnv, src: Source): seq<Effect>
    requires FileName(changed).Some?
  {
    var folder := SnapshotFolder(g, env.stamp);
    [MakeDir(VisualLogDir(g)), MakeDir(folder), CopySave(Join(folder, FileName(changed).value)),
     ScreenshotEffect(src, g, env, folder)]
  }

  lemma SnapshotGameRecords(changed: Path, g: Game, env: SaveEnv)
    requires env.visualDirOk && env.snapshotDirOk && FileName(changed).Some? && env.copyOk
    requires Choose(SelectCached(env.cache, env.now).Some?, GameWindow(g, env).Some?, env.shots).Ok?
    ensures var src := Choose(SelectCached(env.cache, env.now).Some?, GameWindow(g, env).Some?, env.shots).value;
            SnapshotGame(changed, g, env)
              == Record(changed, g, env, SnapshotFolder(g, env.stamp), UpToScreenshot(changed, g, env, src))
  {
    var src := Choose(SelectCached(env.cache, env.now).Some?, GameWindow(g, env).Some?, env.shots).value;
    var folder := SnapshotFolder(g, env.stamp);
    var copied := [MakeDir(VisualLogDir(g)), MakeDir(folder)] + [CopySave(Join(folder, FileName(changed).value))];
    assert copied + [ScreenshotEffect(src, g, env, folder)] == UpToScreenshot(changed, g, env, src);
  }

  lemma GameRunUnstored(changed: Path, g: Game, env: SaveEnv)
    requires !GameReachesStore(changed, g, env)
    ensures NoBookkeeping(SnapshotGame(changed, g, env).trace)
    ensures SnapshotGame(changed, g, env).result.Err?
  {
    var run := SnapshotGame(changed, g, env);
    var folder := SnapshotFolder(g, env.stamp);
    var dirs := [MakeDir(VisualLogDir(g)), MakeDir(folder)];
    if !env.visualDirOk {
      assert run.trace == [];
    } else if !env.snapshotDirOk {
      assert run.trace == [MakeDir(VisualLogDir(g))];
    } else if FileName(changed).None? || !env.copyOk {
      assert run.trace == dirs;
    } else {
      var copied := dirs + [CopySave(Join(folder, FileName(changed).value))];
      var c := Choose(SelectCached(env.cache, env.now).Some?, GameWindow(g, env).Some?, env.shots);
      if c.Err? {
        assert run.trace == copied;
      } else {
        var done := UpToScreenshot(changed, g, env, c.value);
        SnapshotGameRecords(changed, g, env);
        RecordFails(changed, g, env, folder, done);
      }
    }
  }

  /** A run that does not get as far as the store write leaves no record, no stamp and
      no notification behind. */
  lemma UnstoredRunHasNoBookkeeping(changed: Path, env: SaveEnv)
    requires !ReachesStore(changed, env)
    ensures NoBookkeeping(ProcessSaveEvent(changed, env).trace)
    ensures ProcessSaveEvent(changed, env).result.Err? || ProcessSaveEvent(changed, env).trace == []
  {
    if IsSaveFile(changed) && env.games.Ok? && MatchGame(env.games.value, changed).Some? {
      GameRunUnstored(changed, MatchGame(env.games.value, changed).value, env);
    }
  }

  /** A run that gets past the store write has, in this order: the two folders, the
      save-file copy, the screenshot, the UI directory and side files, then the record
      store, the debounce stamp, and, last, the notification when it could be sent. The
      stored record belongs to the matched game, points at the changed file and the
      snapshot folder, and carries no note. */
  lemma StoredRunOrder(changed: Path, env: SaveEnv)
    requires ReachesStore(changed, env)
    ensures var run := ProcessSaveEvent(changed, env);
            var g := MatchGame(env.games.value, changed).value;
            var folder := SnapshotFolder(g, env.stamp);
            var snap := MakeSnapshot(changed, g, env, folder, env.appData.value);
            var tail := Committed(snap, env.emitOk);
            && |run.trace| >= 4 + |tail|
            && run.trace[0] == MakeDir(VisualLogDir(g))
            && run.trace[1] == MakeDir(folder)
            && run.trace[2] == CopySave(Join(folder, FileName(changed).value))
            && run.trace[3].WriteScreenshot?
            && NoBookkeeping(run.trace[..|run.trace| - |tail|])
            && run.trace[|run.trace| - |tail|..] == tail
            && (run.result.Ok? <==> env.emitOk)
            && snap.gameId == g.id && snap.originalSavePath == changed
            && snap.backupSavePath == folder && snap.note == None
  {
    ProcessIsSnapshotGame(changed, env);
    GameStoredRunOrder(changed, MatchGame(env.games.value, changed).value, env);
  }

  /** `StoredRunOrder` once the game is known. */
  lemma GameStoredRunOrder(changed: Path, g: Game, env: SaveEnv)
    requires GameReachesStore(changed, g, env)
    ensures var run := SnapshotGame(changed, g, env);
            var folder := SnapshotFolder(g, env.stamp);
            var snap := MakeSnapshot(changed, g, env, folder, env.appData.value);
            var tail := Committed(snap, env.emitOk);
            && |run.trace| >= 4 + |tail|
            && run.trace[0] == MakeDir(VisualLogDir(g))
            && run.trace[1] == MakeDir(folder)
            && run.trace[2] == CopySave(Join(folder, FileName(changed).value))
            && run.trace[3].WriteScreenshot?
            && NoBookkeeping(run.trace[..|run.trace| - |tail|])
            && run.trace[|run.trace| - |tail|..] == tail
            && (run.result.Ok? <==> env.emitOk)
            && snap.gameId == g.id && snap.originalSavePath == changed
            && snap.backupSavePath == folder && snap.note == None
  {
    var folder := SnapshotFolder(g, env.stamp);
    var c := Choose(SelectCached(env.cache, env.now).Some?, GameWindow(g, env).Some?, env.shots);
    var done := UpToScreenshot(changed, g, env, c.value);
    SnapshotGameRecords(changed, g, env);
    assert NoBookkeeping(done) by {
      assert forall i :: 0 <= i < |done| ==> !Bookkeeping(done[i]);
    }
    RecordedOrder(changed, g, env, folder, done);
    var t := SnapshotGame(changed, g, env).trace;
    assert t[..4] == done;
    assert t[0] == done[0] && t[1] == done[1] && t[2] == done[2] && t[3] == done[3];
  }

  /** The shape of a run that stores its record, whatever came before the screenshot. */
  lemma RecordedOrder(changed: Path, g: Game, env: SaveEnv, folder: Path, done: seq<Effect>)
    requires CommitSucceeds(env) && NoBookkeeping(done)
    ensures var run := Record(changed, g, env, folder, done);
            var tail := Committed(MakeSnapshot(changed, g, env, folder, env.appData.value), env.emitOk);
            && |run.trace| >= |done| + |tail|
            && run.trace[..|done|] == done
            && NoBookkeeping(run.trace[..|run.trace| - |tail|])
            && run.trace[|run.trace| - |tail|..] == tail
            && (run.result.Ok? <==> env.emitOk)
  {
    RecordCommits(changed, g, env, folder, done);
    var tail := Committed(MakeSnapshot(changed, g, env, folder, env.appData.value), env.emitOk);
    var pre := Written(done, g, env, folder, env.appData.value) + [WriteMetadata(Join(folder, "metadata.json"))];
    WrittenHasNoBookkeeping(done, g, env, folder, env.appData.value);
    var t := pre + tail;
    assert t[..|t| - |tail|] == pre;
    assert t[|t| - |tail|..] == tail;
    assert pre[..|done|] == done;
    assert t[..|done|] == pre[..|done|];
  }

  /** The snapshot's screenshot comes from the frame the cache selection picked: cropped
      to the game's window with the frame's own screen origin and the frame image's
      size, or copied whole; whatever happens after it, it is the fourth effect. */
  lemma SnapshotCropsToWindow(changed: Path, env: SaveEnv)
    requires IsSaveFile(changed) && env.games.Ok? && MatchGame(env.games.value, changed).Some?
    requires env.visualDirOk && env.snapshotDirOk && FileName(changed).Some? && env.copyOk
    requires var g := MatchGame(env.games.value, changed).value;
             Choose(SelectCached(env.cache, env.now).Some?, GameWindow(g, env).Some?, env.shots).Ok?
    ensures var g := MatchGame(env.games.value, changed).value;
            var src := Choose(SelectCached(env.cache, env.now).Some?, GameWindow(g, env).Some?, env.shots).value;
            var f := SelectCached(env.cache, env.now);
            var t := ProcessSaveEvent(changed, env).trace;
            var dest := Join(SnapshotFolder(g, env.stamp), "screenshot.png");
            && |t| >= 4
            && (src == CroppedCache ==>
                  t[3] == WriteScreenshot(CroppedCache, dest, Some(f.value.path),
                            Some(CropCached(GameWindow(g, env).value, f.value.originX, f.value.originY,
                                            env.frameSize.0, env.frameSize.1))))
            && (src == WholeCache ==> f.Some? && t[3] == WriteScreenshot(WholeCache, dest, Some(f.value.path), None))
            && (src == LiveCapture ==> t[3] == WriteScreenshot(LiveCapture, dest, None, None))
  {
    var g := MatchGame(env.games.value, changed).value;
    var src := Choose(SelectCached(env.cache, env.now).Some?, GameWindow(g, env).Some?, env.shots).value;
    var done := UpToScreenshot(changed, g, env, src);
    ProcessIsSnapshotGame(changed, env);
    SnapshotGameRecords(changed, g, env);
    RecordKeepsPrefix(changed, g, env, SnapshotFolder(g, env.stamp), done);
    var t := ProcessSaveEvent(changed, env).trace;
    assert t[3] == t[..4][3] == done[3];
  }

  /** The debounce stamp moves exactly when the record was stored, whether or not the
      notification then fails. */
  lemma StampedIffStored(changed: Path, env: SaveEnv)
    ensures Stamped(ProcessSaveEvent(changed, env)) <==> ReachesStore(changed, env)
  {
    var run := ProcessSaveEvent(changed, env);
    if ReachesStore(changed, env) {
      StoredRunOrder(changed, env);
      var tail := Committed(MakeSnapshot(changed, MatchGame(env.games.value, changed).value, env,
                                         SnapshotFolder(MatchGame(env.games.value, changed).value, env.stamp),
                                         env.appData.value), env.emitOk);
      assert run.trace[|run.trace| - |tail| + 1] == SetLastSnapshotTime;
    } else {
      UnstoredRunHasNoBookkeeping(changed, env);
      assert forall i :: 0 <= i < |run.trace| ==> run.trace[i] != SetLastSnapshotTime;
    }
  }
}
