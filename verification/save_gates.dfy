/** The two debounce gates in front of the snapshot pipeline. The gate in
    `start_watcher_loop` stamps its own time as soon as it accepts an event; the gate the
    application actually runs (the consumer loop in `run`) leaves the stamping to
    `process_save_event`, which stamps only after a record was stored. Times are
    milliseconds on the monotonic clock; each loop is modelled as a sequence of turns. */
module SaveGates {
  import opened Wrappers
  import opened Paths
  import opened SnapshotPipeline

  const DebounceMs: nat := 2000

  /** Create and Modify events; every other `notify` kind is `OtherKind`. */
  datatype EventKind = Create | Modify | OtherKind

  /** What the watcher channel delivers: an event, or an error from the notifier. */
  datatype WatchEvent = Notified(kind: EventKind, paths: seq<Path>) | NotifyError

  predicate IsChange(e: WatchEvent) {
    e.Notified? && (e.kind.Create? || e.kind.Modify?)
  }

  /** `Instant::elapsed`, saturating at zero. */
  function Elapsed(since: int, now: int): nat {
    if now >= since then now - since else 0
  }

  // ---------------------------------------------------------------------------------
  // The gate in `start_watcher_loop`

  datatype Arrival = Arrival(at: int, event: WatchEvent)

  /** One turn: the new stamp and, when the event is accepted, the paths forwarded as
      `save-detected`. Acceptance does not depend on the forwarding succeeding. */
  function WatcherStep(last: int, a: Arrival): (r: (int, Option<seq<Path>>))
    ensures r.1.Some? <==> IsChange(a.event) && last + DebounceMs <= a.at
    ensures r.1.Some? ==> r.0 == a.at && r.1.value == a.event.paths
    ensures r.1.None? ==> r.0 == last
  {
    if IsChange(a.event) && Elapsed(last, a.at) >= DebounceMs then (a.at, Some(a.event.paths))
    else (last, None)
  }

  /** The times of the events the watcher gate accepts over a run. */
  function WatcherAccepted(last: int, arrivals: seq<Arrival>): seq<int>
    decreases |arrivals|
  {
    if |arrivals| == 0 then []
    else
      var step := WatcherStep(last, arrivals[0]);
      (if step.1.Some? then [arrivals[0].at] else []) + WatcherAccepted(step.0, arrivals[1..])
  }

  predicate InOrder(arrivals: seq<Arrival>, from: int) {
    && (forall i :: 0 <= i < |arrivals| ==> from <= arrivals[i].at)
    && (forall i, j :: 0 <= i < j < |arrivals| ==> arrivals[i].at <= arrivals[j].at)
  }

  predicate Spaced(times: seq<int>, from: int) {
    && (forall i :: 0 <= i < |times| ==> from + DebounceMs <= times[i])
    && (forall i, j :: 0 <= i < j < |times| ==> times[i] + DebounceMs <= times[j])
  }

  /** Any two accepted events are at least the debounce window apart, and none is
      accepted within the window after the loop started (or after the previous stamp). */
  lemma {:induction false} WatcherAcceptedSpaced(last: int, arrivals: seq<Arrival>)
    requires InOrder(arrivals, last)
    ensures Spaced(WatcherAccepted(last, arrivals), last)
    decreases |arrivals|
  {
    if |arrivals| > 0 {
      var a := arrivals[0];
      var step := WatcherStep(last, a);
      var rest := arrivals[1..];
      assert InOrder(rest, step.0) by {
        forall i | 0 <= i < |rest| ensures step.0 <= rest[i].at {
          assert rest[i] == arrivals[i + 1];
        }
        forall i, j | 0 <= i < j < |rest| ensures rest[i].at <= rest[j].at {
          assert rest[i] == arrivals[i + 1] && rest[j] == arrivals[j + 1];
        }
      }
      WatcherAcceptedSpaced(step.0, rest);
      assert WatcherAccepted(last, arrivals) == (if step.1.Some? then [a.at] else []) + WatcherAccepted(step.0, rest);
      SpacedPrepend(last, step.0, a.at, step.1.Some?, WatcherAccepted(step.0, rest));
    }
  }

  // ---------------------------------------------------------------------------------
  // The gate the application runs

  /** One delivered event together with the outcomes its pipeline run would see and
      the instant at which `process_save_event` would take its stamp. */
  datatype LibArrival = LibArrival(at: int, event: WatchEvent, env: SaveEnv, doneAt: int)

  /** One turn of the consumer loop: kind filter, elapsed check against the shared
      stamp, first path only, then the pipeline, which moves the stamp only if it
      stored a record. Returns the new stamp and the pipeline run, if one happened. */
  function LibStep(last: int, a: LibArrival): (r: (int, Option<Run>))
    ensures r.1.Some? <==> IsChange(a.event) && last + DebounceMs <= a.at && |a.event.paths| > 0
    ensures r.1.None? ==> r.0 == last
  {
    if !IsChange(a.event) || Elapsed(last, a.at) < DebounceMs || |a.event.paths| == 0 then (last, None)
    else
      var run := ProcessSaveEvent(a.event.paths[0], a.env);
      (if Stamped(run) then a.doneAt else last, Some(run))
  }

  /** Each turn of a sequential loop starts no earlier than the previous one finished. */
  predicate LibInOrder(arrivals: seq<LibArrival>, from: int) {
    && (forall i :: 0 <= i < |arrivals| ==> from <= arrivals[i].at <= arrivals[i].doneAt)
    && (forall i, j :: 0 <= i < j < |arrivals| ==> arrivals[i].doneAt <= arrivals[j].at)
  }

  /** The arrival times of the events that produced a stored snapshot. */
  function LibStored(last: int, arrivals: seq<LibArrival>): seq<int>
    decreases |arrivals|
  {
    if |arrivals| == 0 then []
    else
      var step := LibStep(last, arrivals[0]);
      (if step.1.Some? && Stamped(step.1.value) then [arrivals[0].at] else [])
      + LibStored(step.0, arrivals[1..])
  }

  /** Snapshots come at least the debounce window apart: between the arrivals of two
      events that stored a record lie at least two seconds, and no record is stored
      for an event in the first two seconds after the stamp was last set. */
  lemma {:induction false} LibStoredSpaced(last: int, arrivals: seq<LibArrival>)
    requires LibInOrder(arrivals, last)
    ensures Spaced(LibStored(last, arrivals), last)
    decreases |arrivals|
  {
    if |arrivals| > 0 {
      var a := arrivals[0];
      var step := LibStep(last, a);
      var rest := arrivals[1..];
      LibStepMovesStamp(last, a);
      assert LibInOrder(rest, step.0) by {
        forall i | 0 <= i < |rest| ensures step.0 <= rest[i].at <= rest[i].doneAt {
          assert rest[i] == arrivals[i + 1];
        }
        forall i, j | 0 <= i < j < |rest| ensures rest[i].doneAt <= rest[j].at {
          assert rest[i] == arrivals[i + 1] && rest[j] == arrivals[j + 1];
        }
      }
      LibStoredSpaced(step.0, rest);
      var stored := step.1.Some? && Stamped(step.1.value);
      assert LibStored(last, arrivals) == (if stored then [a.at] else []) + LibStored(step.0, rest);
      SpacedPrepend(last, step.0, a.at, stored, LibStored(step.0, rest));
    }
  }

  /** A turn either keeps the stamp or moves it to the turn's end: it moves it when a
      record was stored, and then the event came the window after the old stamp, and
      keeps it otherwise. */
  lemma LibStepMovesStamp(last: int, a: LibArrival)
    requires last <= a.at <= a.doneAt
    ensures var step := LibStep(last, a);
            var stored := step.1.Some? && Stamped(step.1.value);
            && last <= step.0 <= a.doneAt
            && (stored ==> step.0 == a.doneAt && last + DebounceMs <= a.at)
            && (!stored ==> step.0 == last)
  {
  }

  /** Prepending one arrival, if stored, to the spaced tail keeps the spacing. */
  lemma SpacedPrepend(last: int, next: int, at: int, stored: bool, tail: seq<int>)
    requires last <= next
    requires stored ==> last + DebounceMs <= at <= next
    requires Spaced(tail, next)
    ensures Spaced((if stored then [at] else []) + tail, last)
  {
    var head: seq<int> := if stored then [at] else [];
    var all := head + tail;
    forall i | 0 <= i < |all| ensures last + DebounceMs <= all[i] {
      if i >= |head| { assert all[i] == tail[i - |head|]; }
    }
    forall i, j | 0 <= i < j < |all| ensures all[i] + DebounceMs <= all[j] {
      if i >= |head| {
        assert all[i] == tail[i - |head|] && all[j] == tail[j - |head|];
      } else {
        assert all[j] == tail[j - 1];
      }
    }
  }

  /** Both gates ignore every event that is not a Create or Modify, and every notifier
      error, without touching their stamp. */
  lemma GatesIgnoreOtherEvents(last: int, at: int, e: WatchEvent, env: SaveEnv, doneAt: int)
    requires !IsChange(e)
    ensures WatcherStep(last, Arrival(at, e)) == (last, None)
    ensures LibStep(last, LibArrival(at, e, env, doneAt)) == (last, None)
  {
  }

  /** Where the gates differ: a change to a file that is not a save file does not move
      the application's stamp, so a save-file change one millisecond later still gets
      through to the pipeline; the watcher gate, which stamps on acceptance, drops it. */
  lemma GatesDifferAfterIgnoredChange(env: SaveEnv)
    ensures var log := Path("C:\\", ["save", "log"]);
            var dat := Path("C:\\", ["save", "data1.dat"]);
            var e1 := Notified(Modify, [log]);
            var e2 := Notified(Modify, [dat]);
            && WatcherAccepted(0, [Arrival(5000, e1), Arrival(5001, e2)]) == [5000]
            && LibStep(0, LibArrival(5000, e1, env, 5000)) == (0, Some(Run(Ok(()), [])))
            && LibStep(0, LibArrival(5001, e2, env, 5001)).1.Some?
  {
    var log := Path("C:\\", ["save", "log"]);
    assert LastDot("log") == None;
    assert !IsSaveFile(log);
    var e2 := Notified(Modify, [Path("C:\\", ["save", "data1.dat"])]);
    assert WatcherAccepted(5000, [Arrival(5001, e2)]) == [];
  }
}
