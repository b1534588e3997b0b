/** The manual screenshot path (`ScreenshotManager`): find the game, find its window,
    capture the primary screen, crop to the window, save under the game's folder, store
    the record and announce it. Outside calls are replaced by their outcomes
    (`CaptureEnv`); what the capture does to the world is an ordered trace. */
module ManualCapture {
  import opened Wrappers
  import opened Paths
  import opened Records
  import opened Crop
  import opened WindowLocator
  import opened FrameCache

  /** The outcomes of everything a capture asks of the outside world. `image` is the
      size of the re-opened temporary image, or nothing when it cannot be opened.
      `probeGames` and `probeWindows` are what the hotkey path's search for a running
      game reads — a store read and a window enumeration of its own, made before the
      capture reads `games` and enumerates `windows` again. */
  datatype CaptureEnv = CaptureEnv(
    probeGames: Result<seq<Game>, string>,
    probeWindows: seq<WindowRec>,
    games: Result<seq<Game>, string>,
    platform: Platform,
    windows: seq<WindowRec>,
    screens: ScreenList,
    captureOk: bool,
    appData: Option<Path>,
    tempDirOk: bool,
    tempSaveOk: bool,
    image: Option<(nat, nat)>,
    shotDirOk: bool,
    saveOk: bool,
    storeOk: bool,
    emitOk: bool,
    id: string,
    tempId: string,
    stamp: string,
    createdAt: string)

  datatype CaptureError =
    | StoreReadFailed
    | GameNotFound
    | ExeNotSet
    | WindowNotFound
    | ScreenListFailed
    | NoScreen
    | CaptureFailed
    | AppDataUnavailable
    | IoFailed
    | ImageOpenFailed
    | StoreWriteFailed
    | EmitFailed
    | NoRunningGame

  /** The messages the source spells out; the others carry the underlying error's text. */
  function Message(e: CaptureError): Option<string> {
    match e
    case GameNotFound => Some("Game not found")
    case ExeNotSet => Some("Game exe_path not set")
    case WindowNotFound => Some("Game window not found")
    case NoScreen => Some("No screen found")
    case NoRunningGame => Some("No running game found")
    case _ => None
  }

  datatype CaptureEffect =
    | MakeDir(dir: Path)
    | SaveTemp(path: Path)
    | SaveCropped(path: Path, box: CropBox)
    | RemoveTemp(path: Path)
    | StoreScreenshot(shot: Screenshot)
    | EmitScreenshotCreated(shot: Screenshot)

  datatype CaptureRun = CaptureRun(result: Result<Screenshot, CaptureError>, trace: seq<CaptureEffect>)

  /** The first game in store order with the given id. */
  function FindGame(games: seq<Game>, id: string): (r: Option<Game>)
    ensures r.None? <==> forall i :: 0 <= i < |games| ==> games[i].id != id
    ensures r.Some? ==> r.value.id == id && r.value in games
    decreases |games|
  {
    if |games| == 0 then None
    else if games[0].id == id then Some(games[0])
    else
      var r := FindGame(games[1..], id);
      assert forall i :: 1 <= i < |games| ==> games[i] == games[1..][i - 1];
      r
  }

  function ScreenshotsDir(g: Game): Path {
    Join(Join(g.gameFolder, "visual-logger"), "screenshots")
  }

  function ScreenshotPath(g: Game, stamp: string): Path {
    Join(ScreenshotsDir(g), "screenshot_" + stamp + ".png")
  }

  function TempPath(appData: Path, tempId: string): Path {
    Join(Join(appData, "temp"), "temp_" + tempId + ".png")
  }

  /** The game's window as the manual capture looks it up. */
  function WindowOf(exe: Path, env: CaptureEnv): Option<Rect> {
    FindForCapture(env.windows, Render(exe), env.platform)
  }

  /** `capture_screenshot`. */
  function CaptureScreenshot(gameId: string, env: CaptureEnv): (r: CaptureRun)
    ensures r.result.Ok? ==> r.result.value.gameId == gameId && r.result.value.note == None
    ensures r.result != Err(NoRunningGame)
  {
    match env.games
    case Err(_) => CaptureRun(Err(StoreReadFailed), [])
    case Ok(games) =>
      match FindGame(games, gameId)
      case None => CaptureRun(Err(GameNotFound), [])
      case Some(g) =>
        match g.exePath
        case None => CaptureRun(Err(ExeNotSet), [])
        case Some(exe) =>
          match WindowOf(exe, env)
          case None => CaptureRun(Err(WindowNotFound), [])
          case Some(rect) => CaptureWindow(gameId, g, rect, env)
  }

  /** `capture_screenshot` once the window is known. */
  function CaptureWindow(gameId: string, g: Game, rect: Rect, env: CaptureEnv): CaptureRun {
    match env.screens
    case ListFailed => CaptureRun(Err(ScreenListFailed), [])
    case NoScreens => CaptureRun(Err(NoScreen), [])
    case Primary(ox, oy) =>
      if !env.captureOk then CaptureRun(Err(CaptureFailed), [])
      else
        match env.appData
        case None => CaptureRun(Err(AppDataUnavailable), [])
        case Some(appData) =>
          if !env.tempDirOk then CaptureRun(Err(IoFailed), [])
          else
            var temp := TempPath(appData, env.tempId);
            var t0 := [MakeDir(Join(appData, "temp"))];
            if !env.tempSaveOk then CaptureRun(Err(IoFailed), t0)
            else
              var t1 := t0 + [SaveTemp(temp)];
              match env.image
              case None => CaptureRun(Err(ImageOpenFailed), t1)
              case Some(size) =>
                var box := CropLive(rect, ox, oy, size.0, size.1);
                if !env.shotDirOk then CaptureRun(Err(IoFailed), t1)
                else
                  var t2 := t1 + [MakeDir(ScreenshotsDir(g))];
                  var path := ScreenshotPath(g, env.stamp);
                  if !env.saveOk then CaptureRun(Err(IoFailed), t2)
                  else
                    var shot := Screenshot(env.id, gameId, path, None, env.createdAt);
                    var t3 := t2 + [SaveCropped(path, box), RemoveTemp(temp)];
                    if !env.storeOk then CaptureRun(Err(StoreWriteFailed), t3)
                    else if !env.emitOk then CaptureRun(Err(EmitFailed), t3 + [StoreScreenshot(shot)])
                    else CaptureRun(Ok(shot), t3 + [StoreScreenshot(shot), EmitScreenshotCreated(shot)])
  }

  /** The lookup failures come first and in this order: unknown id, no executable, no
      window. Each of them happens before any capture, file write or store write. */
  lemma LookupErrorsComeFirst(gameId: string, env: CaptureEnv)
    requires env.games.Ok?
    ensures var run := CaptureScreenshot(gameId, env);
            var found := FindGame(env.games.value, gameId);
            && (run.result == Err(GameNotFound) <==> found.None?)
            && (run.result == Err(ExeNotSet) <==> found.Some? && found.value.exePath.None?)
            && (run.result == Err(WindowNotFound) <==>
                  found.Some? && found.value.exePath.Some? && WindowOf(found.value.exePath.value, env).None?)
            && (run.result in {Err(GameNotFound), Err(ExeNotSet), Err(WindowNotFound)} ==> run.trace == [])
  {
    var run := CaptureScreenshot(gameId, env);
    var found := FindGame(env.games.value, gameId);
    if found.Some? && found.value.exePath.Some? && WindowOf(found.value.exePath.value, env).Some? {
      CaptureWindowErrors(gameId, found.value, WindowOf(found.value.exePath.value, env).value, env);
    }
  }

  lemma CaptureWindowErrors(gameId: string, g: Game, rect: Rect, env: CaptureEnv)
    ensures CaptureWindow(gameId, g, rect, env).result !in {Err(GameNotFound), Err(ExeNotSet), Err(WindowNotFound)}
  {
  }

  /** A successful capture stores a record for the requested game, with no note and the
      image path `<game folder>/visual-logger/screenshots/screenshot_<stamp>.png`; the
      cropped image was saved to that path before the store write, the store write came
      before the notification, and the notification came last. */
  lemma CaptureRecordAndOrder(gameId: string, env: CaptureEnv)
    requires CaptureScreenshot(gameId, env).result.Ok?
    ensures var run := CaptureScreenshot(gameId, env);
            var shot := run.result.value;
            var g := FindGame(env.games.value, gameId).value;
            var n := |run.trace|;
            && shot.gameId == gameId && shot.note == None
            && shot.imagePath == ScreenshotPath(g, env.stamp)
            && n >= 4
            && run.trace[n - 1] == EmitScreenshotCreated(shot)
            && run.trace[n - 2] == StoreScreenshot(shot)
            && run.trace[n - 4].SaveCropped? && run.trace[n - 4].path == shot.imagePath
  {
  }

  /** The trace announces once, as its last effect, the record the run returns. */
  predicate AnnouncesLast(run: CaptureRun) {
    && run.result.Ok?
    && |run.trace| > 0
    && run.trace[|run.trace| - 1] == EmitScreenshotCreated(run.result.value)
    && forall i :: 0 <= i < |run.trace| - 1 ==> !run.trace[i].EmitScreenshotCreated?
  }

  /** A successful capture's trace announces once, as its last effect. */
  lemma SuccessAnnouncesLast(gameId: string, env: CaptureEnv)
    requires CaptureScreenshot(gameId, env).result.Ok?
    ensures AnnouncesLast(CaptureScreenshot(gameId, env))
  {
  }

  /** The crop box written is the manual-capture arithmetic applied to the rectangle
      the window search returned, the screen origin and the captured image's size. */
  lemma CaptureCropsToWindow(gameId: string, env: CaptureEnv)
    requires CaptureScreenshot(gameId, env).result.Ok?
    ensures var run := CaptureScreenshot(gameId, env);
            var g := FindGame(env.games.value, gameId).value;
            var n := |run.trace|;
            && g.exePath.Some? && WindowOf(g.exePath.value, env).Some?
            && env.screens.Primary? && env.image.Some?
            && run.trace[n - 4].box == CropLive(WindowOf(g.exePath.value, env).value,
                                                env.screens.originX, env.screens.originY,
                                                env.image.value.0, env.image.value.1)
  {
  }

  /** No store write and no notification happen on any failed capture, except that an
      emit failure is reported after the record was stored. */
  lemma FailedCaptureStoresNothing(gameId: string, env: CaptureEnv)
    requires CaptureScreenshot(gameId, env).result.Err?
    requires CaptureScreenshot(gameId, env).result != Err(EmitFailed)
    ensures forall i :: 0 <= i < |CaptureScreenshot(gameId, env).trace| ==>
              !CaptureScreenshot(gameId, env).trace[i].StoreScreenshot?
              && !CaptureScreenshot(gameId, env).trace[i].EmitScreenshotCreated?
  {
  }

  /** Whether a game counts as running for the hotkey: it has an executable and the
      probe's window enumeration finds a window of that executable. */
  predicate Running(g: Game, env: CaptureEnv) {
    g.exePath.Some? && FindForCapture(env.probeWindows, Render(g.exePath.value), env.platform).Some?
  }

  /** Where the search for a running game stops: the position of the first running
      game, or the length of the list when there is none. */
  function RunningIndex(games: seq<Game>, env: CaptureEnv): (k: nat)
    ensures k <= |games|
    ensures forall j :: 0 <= j < k ==> !Running(games[j], env)
    ensures k < |games| ==> Running(games[k], env)
    decreases |games|
  {
    if |games| == 0 || Running(games[0], env) then 0
    else
      var k := RunningIndex(games[1..], env);
      assert forall j :: 1 <= j <= k ==> games[j] == games[1..][j - 1];
      k + 1
  }

  /** The first running game in store order. */
  function FirstRunning(games: seq<Game>, env: CaptureEnv): (r: Option<Game>)
    ensures r.None? <==> forall i :: 0 <= i < |games| ==> !Running(games[i], env)
    ensures r.Some? ==> exists i :: && 0 <= i < |games| && games[i] == r.value && Running(r.value, env)
                                   && forall j :: 0 <= j < i ==> !Running(games[j], env)
  {
    var k := RunningIndex(games, env);
    if k < |games| then Some(games[k]) else None
  }

  /** `capture_screenshot_for_running_game`: the probe picks the game, then the capture
      looks it up again from scratch. "No running game found" comes exactly from a probe
      that read the store and found no game running, and touches nothing. */
  function CaptureForRunningGame(env: CaptureEnv): (r: CaptureRun)
    ensures r.result == Err(NoRunningGame) <==> env.probeGames.Ok? && FirstRunning(env.probeGames.value, env).None?
    ensures r.result == Err(NoRunningGame) ==> r.trace == []
  {
    match env.probeGames
    case Err(_) => CaptureRun(Err(StoreReadFailed), [])
    case Ok(games) =>
      match FirstRunning(games, env)
      case None => CaptureRun(Err(NoRunningGame), [])
      case Some(g) => CaptureScreenshot(g.id, env)
  }

  /** A successful hotkey capture's trace announces once, as its last effect. */
  lemma RunningSuccessAnnouncesLast(env: CaptureEnv)
    requires CaptureForRunningGame(env).result.Ok?
    ensures AnnouncesLast(CaptureForRunningGame(env))
  {
    var g := FirstRunning(env.probeGames.value, env).value;
    var run := CaptureScreenshot(g.id, env);
    assert CaptureForRunningGame(env) == run;
    SuccessAnnouncesLast(g.id, env);
  }

  /** With no game of the probe's store read running, the hotkey capture fails with "No
      running game found" and does nothing. */
  lemma NoneRunningFails(env: CaptureEnv)
    requires env.probeGames.Ok?
    requires forall i :: 0 <= i < |env.probeGames.value| ==> !Running(env.probeGames.value[i], env)
    ensures CaptureForRunningGame(env) == CaptureRun(Err(NoRunningGame), [])
  {
  }

  /** When game `i` of the probe's store read is running and no game before it is, the
      hotkey capture is exactly `capture_screenshot` of game `i`'s id, which reads the
      store and enumerates the windows again. */
  lemma RunningGameChoice(env: CaptureEnv, i: nat)
    requires env.probeGames.Ok? && i < |env.probeGames.value|
    requires Running(env.probeGames.value[i], env)
    requires forall j :: 0 <= j < i ==> !Running(env.probeGames.value[j], env)
    ensures CaptureForRunningGame(env) == CaptureScreenshot(env.probeGames.value[i].id, env)
  {
    var games := env.probeGames.value;
    var k := RunningIndex(games, env);
    assert k == i;
  }

  /** Ids are unique in a store. */
  predicate UniqueIds(games: seq<Game>) {
    forall i, j :: 0 <= i < |games| && 0 <= j < |games| && games[i].id == games[j].id ==> i == j
  }

  /** When nothing changes between the probe and the capture — the same store contents
      and the same windows — and ids are unique, the capture finds the probed game, its
      executable and its window again: none of the lookup failures can happen. */
  lemma StableLookupFindsProbedGame(env: CaptureEnv)
    requires env.probeGames.Ok? && env.games == env.probeGames && env.windows == env.probeWindows
    requires UniqueIds(env.games.value)
    requires FirstRunning(env.probeGames.value, env).Some?
    ensures CaptureForRunningGame(env).result !in
              {Err(StoreReadFailed), Err(GameNotFound), Err(ExeNotSet), Err(WindowNotFound), Err(NoRunningGame)}
  {
    var g := ProbedGameFoundAgain(env);
    assert WindowOf(g.exePath.value, env).Some?;
    var rect := WindowOf(g.exePath.value, env).value;
    assert CaptureForRunningGame(env) == CaptureScreenshot(g.id, env) == CaptureWindow(g.id, g, rect, env);
    CaptureWindowErrors(g.id, g, rect, env);
  }

  /** With unique ids, the capture's store lookup of the probed game's id finds it. */
  lemma ProbedGameFoundAgain(env: CaptureEnv) returns (g: Game)
    requires env.probeGames.Ok? && env.games == env.probeGames && UniqueIds(env.games.value)
    requires FirstRunning(env.probeGames.value, env).Some?
    ensures g == FirstRunning(env.probeGames.value, env).value
    ensures FindGame(env.games.value, g.id) == Some(g) && Running(g, env)
  {
    var games := env.games.value;
    g := FirstRunning(games, env).value;
    var found := FindGame(games, g.id);
    var a :| 0 <= a < |games| && games[a] == found.value;
    var b :| 0 <= b < |games| && games[b] == g && Running(g, env);
    assert a == b;
  }

  /** The two lookups race with the game: when the probed game's window closes after
      the probe saw it, the capture fails with "Game window not found", though a running
      game was chosen; other windows do not matter. */
  lemma WindowClosedInBetween(env: CaptureEnv)
    requires env.probeGames.Ok? && env.games == env.probeGames && UniqueIds(env.games.value)
    requires FirstRunning(env.probeGames.value, env).Some?
    requires WindowOf(FirstRunning(env.probeGames.value, env).value.exePath.value, env).None?
    ensures CaptureForRunningGame(env).result == Err(WindowNotFound)
  {
    var g := ProbedGameFoundAgain(env);
  }
}
