/** The F11 hotkey thread: one blocking receive loop with a 2-second debounce, an
    is-capturing flag, a drain of everything already queued once a capture is claimed,
    and a capture of the first running game. The loop is modelled over the presses in
    arrival order; each press carries what would happen if it triggered a capture. */
module HotkeyGuard {
  import opened Wrappers
  import opened Records
  import opened SaveGates
  import opened ManualCapture

  /** The hotkey's own debounce window; it equals the save-event window `DebounceMs`,
      which `Spaced` measures claims with. */
  const HotkeyDebounceMs: nat := 2000

  /** A hotkey event as delivered to the thread: the id of the hotkey pressed, when it
      arrived, and — should it trigger a capture — how long the capture takes and how it
      ends (`Capture` says how an outcome comes about). */
  datatype Press = Press(id: nat, at: int, busyFor: nat, outcome: CaptureOutcome)

  /** `last_screenshot_time` and `is_capturing`. */
  datatype Guard = Guard(lastTime: int, capturing: bool)

  datatype CaptureOutcome = Captured(shot: Screenshot) | CaptureErrored(error: CaptureError) | ManagerLockFailed

  /** The first check: not already capturing, and the debounce window has passed. */
  predicate CanProcess(g: Guard, now: int) {
    !g.capturing && !(Elapsed(g.lastTime, now) < HotkeyDebounceMs)
  }

  /** The second check, which also takes the claim: stamp the time and raise the flag. */
  function Claim(g: Guard, now: int): (r: (Guard, bool))
    ensures r.1 <==> !g.capturing
    ensures r.1 ==> r.0.lastTime == now && forall t :: !CanProcess(r.0, t)
    ensures !r.1 ==> r.0 == g
  {
    if g.capturing then (g, false) else (Guard(now, true), true)
  }

  /** Whatever the capture's outcome, the flag is lowered and the stamp kept. */
  function Finish(g: Guard, outcome: CaptureOutcome): (r: Guard)
    ensures !r.capturing && r.lastTime == g.lastTime
  {
    match outcome
    case Captured(_) => Guard(g.lastTime, false)
    case CaptureErrored(_) => Guard(g.lastTime, false)
    case ManagerLockFailed => Guard(g.lastTime, false)
  }

  /** A claim shuts every later press out until the capture finishes; then presses are
      let in again from the debounce window after the claim — not after the capture's
      end — whatever the outcome. */
  lemma ClaimThenFinish(g: Guard, now: int, outcome: CaptureOutcome)
    requires !g.capturing
    ensures var (claimed, ok) := Claim(g, now);
            && ok && (forall t :: !CanProcess(claimed, t))
            && Finish(claimed, outcome) == Guard(now, false)
            && (forall t :: CanProcess(Finish(claimed, outcome), t) <==> now + HotkeyDebounceMs <= t)
  {
  }

  /** The screenshots announced by a capture's trace, in order. */
  function Announcements(trace: seq<CaptureEffect>): (r: seq<Screenshot>)
    ensures |r| <= |trace|
    ensures forall s :: s in r <==> EmitScreenshotCreated(s) in trace
  {
    if |trace| == 0 then []
    else
      var rest := Announcements(trace[1..]);
      assert trace == [trace[0]] + trace[1..];
      if trace[0].EmitScreenshotCreated? then [trace[0].shot] + rest else rest
  }

  /** The thread's view of a capture run: its outcome, and every "screenshot-created"
      announcement made — the capture's own, then the thread's second one on success. */
  function Settle(run: CaptureRun): (CaptureOutcome, seq<Screenshot>) {
    match run.result
    case Ok(shot) => (Captured(shot), Announcements(run.trace) + [shot])
    case Err(e) => (CaptureErrored(e), Announcements(run.trace))
  }

  /** One capture triggered by a press. */
  function Capture(managerOk: bool, env: CaptureEnv): (CaptureOutcome, seq<Screenshot>) {
    if !managerOk then (ManagerLockFailed, []) else Settle(CaptureForRunningGame(env))
  }

  /** How many presses are still queued at `now` — those that arrived by then. */
  function Queued(queue: seq<Press>, now: int): (k: nat)
    ensures k <= |queue|
    ensures forall i :: 0 <= i < k ==> queue[i].at <= now
    ensures k < |queue| ==> queue[k].at > now
    decreases |queue|
  {
    if |queue| > 0 && queue[0].at <= now then 1 + Queued(queue[1..], now) else 0
  }

  /** `try_recv` until empty: everything queued at `now` is dropped. */
  function Drain(queue: seq<Press>, now: int): seq<Press> {
    queue[Queued(queue, now)..]
  }

  /** What the thread did over a run: when each capture was claimed, how each ended,
      and the guard at the end. */
  datatype Log = Log(claims: seq<int>, outcomes: seq<CaptureOutcome>, guard: Guard)

  /** The receive loop. `clock` is when the thread is next free to receive; a press is
      handled at the later of that and its arrival. */
  function Loop(queue: seq<Press>, hotkey: nat, g: Guard, clock: int): (r: Log)
    ensures |r.claims| == |r.outcomes| <= |queue|
    ensures g.capturing ==> r == Log([], [], g)
    decreases |queue|
  {
    if |queue| == 0 then Log([], [], g)
    else
      var p := queue[0];
      var now := HandledAt(p, clock);
      var (claimed, should) := Claim(g, now);
      if p.id != hotkey || !CanProcess(g, now) || !should then Loop(queue[1..], hotkey, g, now)
      else
        var after := Loop(Drain(queue[1..], now), hotkey, Finish(claimed, p.outcome), now + p.busyFor);
        Log([now] + after.claims, [p.outcome] + after.outcomes, after.guard)
  }

  /** The same loop with the debounce alone: the reference the is-capturing flag is
      measured against. */
  function DebounceOnly(queue: seq<Press>, hotkey: nat, lastTime: int, clock: int): seq<int>
    decreases |queue|
  {
    if |queue| == 0 then []
    else
      var p := queue[0];
      var now := HandledAt(p, clock);
      if !Passes(p, hotkey, lastTime, clock) then DebounceOnly(queue[1..], hotkey, lastTime, now)
      else [now] + DebounceOnly(Drain(queue[1..], now), hotkey, now, now + p.busyFor)
  }

  /** When the thread is next free after handling a press at `clock`. */
  function HandledAt(p: Press, clock: int): int {
    if p.at > clock then p.at else clock
  }

  /** Whether the press at the head of the queue passes the id filter and the debounce. */
  predicate Passes(p: Press, hotkey: nat, lastTime: int, clock: int) {
    p.id == hotkey && Elapsed(lastTime, HandledAt(p, clock)) >= HotkeyDebounceMs
  }

  /** A press that does not pass is skipped by both loops. */
  lemma SkipStep(queue: seq<Press>, hotkey: nat, lastTime: int, clock: int)
    requires |queue| > 0 && !Passes(queue[0], hotkey, lastTime, clock)
    ensures var now := HandledAt(queue[0], clock);
            && Loop(queue, hotkey, Guard(lastTime, false), clock) == Loop(queue[1..], hotkey, Guard(lastTime, false), now)
            && DebounceOnly(queue, hotkey, lastTime, clock) == DebounceOnly(queue[1..], hotkey, lastTime, now)
  {
  }

  /** A press that passes is claimed by both loops, and the queue is drained. */
  lemma ClaimStep(queue: seq<Press>, hotkey: nat, lastTime: int, clock: int)
    requires |queue| > 0 && Passes(queue[0], hotkey, lastTime, clock)
    ensures var p := queue[0];
            var now := HandledAt(p, clock);
            var rest := Drain(queue[1..], now);
            var after := Loop(rest, hotkey, Guard(now, false), now + p.busyFor);
            && Loop(queue, hotkey, Guard(lastTime, false), clock) == Log([now] + after.claims, [p.outcome] + after.outcomes, after.guard)
            && DebounceOnly(queue, hotkey, lastTime, clock) == [now] + DebounceOnly(rest, hotkey, now, now + p.busyFor)
  {
    var p := queue[0];
    assert Finish(Guard(HandledAt(p, clock), true), p.outcome) == Guard(HandledAt(p, clock), false);
  }

  /** On a single thread the flag is always lowered again before the next receive, so it
      never turns a press away: the loop claims exactly what the debounce alone would,
      and ends with the flag down. */
  lemma {:induction false} FlagNeverBlocks(queue: seq<Press>, hotkey: nat, lastTime: int, clock: int)
    ensures Loop(queue, hotkey, Guard(lastTime, false), clock).claims == DebounceOnly(queue, hotkey, lastTime, clock)
    ensures !Loop(queue, hotkey, Guard(lastTime, false), clock).guard.capturing
    decreases |queue|
  {
    if |queue| > 0 {
      var p := queue[0];
      var now := HandledAt(p, clock);
      if !Passes(p, hotkey, lastTime, clock) {
        SkipStep(queue, hotkey, lastTime, clock);
        FlagNeverBlocks(queue[1..], hotkey, lastTime, now);
      } else {
        ClaimStep(queue, hotkey, lastTime, clock);
        FlagNeverBlocks(Drain(queue[1..], now), hotkey, now, now + p.busyFor);
      }
    }
  }

  /** Two claims are at least the debounce window apart, and the first comes at least
      the window after the previous stamp — at start-up, the moment the thread began. */
  lemma {:induction false} ClaimsSpaced(queue: seq<Press>, hotkey: nat, lastTime: int, clock: int)
    ensures Spaced(DebounceOnly(queue, hotkey, lastTime, clock), lastTime)
    decreases |queue|
  {
    if |queue| > 0 {
      var p := queue[0];
      var now := HandledAt(p, clock);
      if !Passes(p, hotkey, lastTime, clock) {
        assert DebounceOnly(queue, hotkey, lastTime, clock) == DebounceOnly(queue[1..], hotkey, lastTime, now);
        ClaimsSpaced(queue[1..], hotkey, lastTime, now);
      } else {
        var rest := DebounceOnly(Drain(queue[1..], now), hotkey, now, now + p.busyFor);
        assert DebounceOnly(queue, hotkey, lastTime, clock) == [now] + rest;
        ClaimsSpaced(Drain(queue[1..], now), hotkey, now, now + p.busyFor);
        SpacedPrepend(lastTime, now, now, true, rest);
      }
    }
  }

  /** The hotkey thread never captures twice within the debounce window, whatever the
      presses and however long the captures take; and presses of other hotkeys never
      capture. */
  lemma HotkeyCapturesSpaced(queue: seq<Press>, hotkey: nat, startedAt: int)
    ensures Spaced(Loop(queue, hotkey, Guard(startedAt, false), startedAt).claims, startedAt)
  {
    FlagNeverBlocks(queue, hotkey, startedAt, startedAt);
    ClaimsSpaced(queue, hotkey, startedAt, startedAt);
  }

  lemma {:induction false} OtherHotkeysNeverCapture(queue: seq<Press>, hotkey: nat, g: Guard, clock: int)
    requires forall i :: 0 <= i < |queue| ==> queue[i].id != hotkey
    ensures Loop(queue, hotkey, g, clock) == Log([], [], g)
    decreases |queue|
  {
    if |queue| > 0 {
      var now := if queue[0].at > clock then queue[0].at else clock;
      OtherHotkeysNeverCapture(queue[1..], hotkey, g, now);
    }
  }

  /** Presses queued up while the thread claims a capture are dropped: a burst that has
      all arrived by the time its first press is handled yields one capture. */
  lemma BurstYieldsOneCapture(queue: seq<Press>, hotkey: nat, lastTime: int, clock: int)
    requires |queue| > 0 && queue[0].id == hotkey
    requires clock <= queue[0].at && lastTime + HotkeyDebounceMs <= queue[0].at
    requires forall i :: 0 <= i < |queue| ==> queue[i].at <= queue[0].at
    ensures Loop(queue, hotkey, Guard(lastTime, false), clock).claims == [queue[0].at]
  {
    var now := queue[0].at;
    assert Drain(queue[1..], now) == [];
  }

  /** A press that arrives during a slow capture is not drained: once the capture ends,
      the debounce is measured from the claim, so a second capture follows. */
  lemma SlowCaptureLetsQueuedPressThrough()
    ensures Loop([Press(7, 5000, 4000, ManagerLockFailed), Press(7, 6000, 0, ManagerLockFailed)], 7, Guard(0, false), 0).claims
            == [5000, 9000]
  {
    var q := [Press(7, 5000, 4000, ManagerLockFailed), Press(7, 6000, 0, ManagerLockFailed)];
    assert Drain(q[1..], 5000) == q[1..];
    assert Loop(q[1..], 7, Guard(5000, false), 9000).claims == [9000];
  }

  /** A successful hotkey capture announces the same record twice: once from the
      capture itself and once more from the thread. */
  lemma HotkeyAnnouncesTwice(env: CaptureEnv)
    ensures var run := CaptureForRunningGame(env);
            run.result.Ok? ==> Capture(true, env) == (Captured(run.result.value), [run.result.value, run.result.value])
  {
    if CaptureForRunningGame(env).result.Ok? {
      RunningSuccessAnnouncesLast(env);
      SettleSuccess(CaptureForRunningGame(env));
    }
  }

  /** A run that announces its record once, at the end, is announced twice in all. */
  lemma SettleSuccess(run: CaptureRun)
    requires AnnouncesLast(run)
    ensures Settle(run) == (Captured(run.result.value), [run.result.value, run.result.value])
  {
    var shot := run.result.value;
    OnlyLastAnnounces(run.trace);
    assert Announcements(run.trace) + [shot] == [shot, shot];
  }

  /** A capture trace announces exactly once, at its end. */
  lemma OnlyLastAnnounces(trace: seq<CaptureEffect>)
    requires |trace| > 0 && trace[|trace| - 1].EmitScreenshotCreated?
    requires forall i :: 0 <= i < |trace| - 1 ==> !trace[i].EmitScreenshotCreated?
    ensures Announcements(trace) == [trace[|trace| - 1].shot]
  {
  }
}
