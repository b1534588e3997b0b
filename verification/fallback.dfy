/** Where the snapshot's screenshot comes from: crop the cached frame to the game's
    window, else copy the whole cached frame, else take a live capture. */
module ScreenshotFallback {
  import opened Wrappers

  datatype Source = CroppedCache | WholeCache | LiveCapture

  /** Whether each step would succeed if it were tried. */
  datatype StepOutcomes = StepOutcomes(cropOk: bool, copyOk: bool, liveOk: bool)

  /** The only error that escapes the chain is the live capture's. */
  datatype ChainError = LiveCaptureFailed

  /** The nested `if let` chain of `process_save_event`. */
  function Choose(haveFrame: bool, haveRect: bool, o: StepOutcomes): (r: Result<Source, ChainError>)
    ensures r.Err? ==> !o.liveOk
    ensures r == Ok(CroppedCache) <==> haveFrame && haveRect && o.cropOk
    ensures !haveFrame ==> r.Err? || r == Ok(LiveCapture)
  {
    if haveFrame then
      if haveRect then
        if o.cropOk then Ok(CroppedCache)
        else if o.copyOk then Ok(WholeCache)
        else if o.liveOk then Ok(LiveCapture) else Err(LiveCaptureFailed)
      else
        if o.copyOk then Ok(WholeCache)
        else if o.liveOk then Ok(LiveCapture) else Err(LiveCaptureFailed)
    else
      if o.liveOk then Ok(LiveCapture) else Err(LiveCaptureFailed)
  }

  /** The steps to try, in order: crop only with both a frame and a window rectangle,
      copy only with a frame, and live capture always last. */
  function Plan(haveFrame: bool, haveRect: bool): (steps: seq<Source>)
    ensures |steps| >= 1 && steps[|steps| - 1] == LiveCapture
  {
    (if haveFrame && haveRect then [CroppedCache] else [])
    + (if haveFrame then [WholeCache] else [])
    + [LiveCapture]
  }

  function Succeeds(s: Source, o: StepOutcomes): bool {
    match s
    case CroppedCache => o.cropOk
    case WholeCache => o.copyOk
    case LiveCapture => o.liveOk
  }

  /** The reference reading of a fallback chain: the first step that succeeds, or the
      last step's error when none does. */
  function FirstSuccess(steps: seq<Source>, o: StepOutcomes): (r: Result<Source, ChainError>)
    ensures r.Ok? ==> r.value in steps && Succeeds(r.value, o)
    ensures r.Err? <==> forall i :: 0 <= i < |steps| ==> !Succeeds(steps[i], o)
    decreases |steps|
  {
    if |steps| == 0 then Err(LiveCaptureFailed)
    else if Succeeds(steps[0], o) then Ok(steps[0])
    else
      var r := FirstSuccess(steps[1..], o);
      assert forall i :: 1 <= i < |steps| ==> steps[i] == steps[1..][i - 1];
      r
  }

  /** The nested conditionals implement exactly "try the plan in order". */
  lemma ChooseFollowsPlan(haveFrame: bool, haveRect: bool, o: StepOutcomes)
    ensures Choose(haveFrame, haveRect, o) == FirstSuccess(Plan(haveFrame, haveRect), o)
  {
    var p := Plan(haveFrame, haveRect);
    if haveFrame && haveRect {
      assert p == [CroppedCache, WholeCache, LiveCapture];
      assert p[1..] == [WholeCache, LiveCapture];
      assert p[1..][1..] == [LiveCapture];
      assert FirstSuccess(p[1..][1..], o) == Choose(false, false, o);
      assert FirstSuccess(p[1..], o) == Choose(true, false, o);
    } else if haveFrame {
      assert p == [WholeCache, LiveCapture];
      assert p[1..] == [LiveCapture];
      assert FirstSuccess(p[1..], o) == Choose(false, false, o);
    } else {
      assert p == [LiveCapture];
    }
  }

  /** A failure of the cached-frame steps never surfaces: the chain fails exactly when
      the live capture is reached and fails. */
  lemma OnlyLiveCaptureErrorsPropagate(haveFrame: bool, haveRect: bool, o: StepOutcomes)
    ensures Choose(haveFrame, haveRect, o).Err? <==>
              !o.liveOk && !(haveFrame && haveRect && o.cropOk) && !(haveFrame && o.copyOk)
  {
  }
}
