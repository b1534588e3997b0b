/** The rolling screenshot cache: a background sampler pushes full-screen frames into a
    bounded FIFO, and the snapshot pipeline picks the youngest recent frame from it. */
module FrameCache {
  import opened Wrappers
  import opened Paths

  const SampleIntervalMs: nat := 800
  const CacheCapacity: nat := 20
  const MaxAgeMs: nat := 10000

  /** A cached frame: when it was taken (milliseconds on the monotonic clock), where its
      image file lies, and the screen origin at capture time. */
  datatype Frame = Frame(time: int, path: Path, originX: int, originY: int)

  /** `Instant::elapsed` saturates at zero for an instant in the future. */
  function Age(f: Frame, now: int): nat {
    if now >= f.time then now - f.time else 0
  }

  predicate Usable(f: Frame, now: int) {
    Age(f, now) <= MaxAgeMs
  }

  /** Position `k` is the frame the selection must pick: usable, no older than any other
      usable frame, and strictly younger than every usable frame before it. */
  predicate IsBest(cache: seq<Frame>, now: int, k: int) {
    && 0 <= k < |cache|
    && Usable(cache[k], now)
    && (forall j :: 0 <= j < |cache| && Usable(cache[j], now) ==> Age(cache[k], now) <= Age(cache[j], now))
    && (forall j :: 0 <= j < k && Usable(cache[j], now) ==> Age(cache[k], now) < Age(cache[j], now))
  }

  /** What the scan has established after looking at the first `i` frames. */
  predicate BestSoFar(cache: seq<Frame>, now: int, i: nat, best: Option<nat>) {
    && i <= |cache|
    && match best
       case None => forall j :: 0 <= j < i ==> !Usable(cache[j], now)
       case Some(k) => k < i && IsBest(cache[..i], now, k)
  }

  /** The selection loop: walk the cache front to back, replacing the candidate only
      with a usable frame that is strictly younger. */
  function Scan(cache: seq<Frame>, now: int, i: nat, best: Option<nat>): (r: Option<nat>)
    requires BestSoFar(cache, now, i, best)
    ensures r.Some? ==> IsBest(cache, now, r.value)
    ensures r.None? ==> forall j :: 0 <= j < |cache| ==> !Usable(cache[j], now)
    decreases |cache| - i
  {
    if i == |cache| then
      assert cache[..i] == cache;
      best
    else
      var f := cache[i];
      if Usable(f, now) && (best.None? || Age(f, now) < Age(cache[best.value], now)) then
        assert BestSoFar(cache, now, i + 1, Some(i)) by {
          var pre, next := cache[..i], cache[..i + 1];
          assert next[i] == f;
          forall j | 0 <= j < i + 1 && Usable(next[j], now)
            ensures Age(f, now) <= Age(next[j], now)
          {
            if j < i {
              assert next[j] == pre[j];
            }
          }
        }
        Scan(cache, now, i + 1, Some(i))
      else
        assert BestSoFar(cache, now, i + 1, best) by {
          if best.Some? {
            var k := best.value;
            var pre, next := cache[..i], cache[..i + 1];
            assert next[k] == pre[k];
            forall j | 0 <= j < i + 1 && Usable(next[j], now)
              ensures Age(cache[k], now) <= Age(next[j], now)
            {
              if j < i {
                assert next[j] == pre[j];
              }
            }
          }
        }
        Scan(cache, now, i + 1, best)
  }

  /** Only one position satisfies `IsBest`, so the selection is fully determined. */
  lemma BestIsUnique(cache: seq<Frame>, now: int, k1: int, k2: int)
    requires IsBest(cache, now, k1) && IsBest(cache, now, k2)
    ensures k1 == k2
  {
  }

  /** The cache selection: the youngest frame no older than the maximum age, the
      earliest one on ties, or nothing when no frame is recent enough. */
  function SelectCached(cache: seq<Frame>, now: int): (r: Option<Frame>)
    ensures r.Some? <==> exists j :: 0 <= j < |cache| && Usable(cache[j], now)
    ensures r.Some? ==> exists k :: IsBest(cache, now, k) && r.value == cache[k]
  {
    match Scan(cache, now, 0, None)
    case None => None
    case Some(k) => Some(cache[k])
  }

  /** Cached frames aged 1 s, 5 s and 12 s yield the 1 s frame; a lone 12 s frame
      yields nothing, so the pipeline falls back to a live capture. */
  lemma SelectExamples(p: Path)
    ensures SelectCached([Frame(99000, p, 0, 0), Frame(95000, p, 0, 0), Frame(88000, p, 0, 0)], 100000)
            == Some(Frame(99000, p, 0, 0))
    ensures SelectCached([Frame(88000, p, 0, 0)], 100000) == None
  {
    var c := [Frame(99000, p, 0, 0), Frame(95000, p, 0, 0), Frame(88000, p, 0, 0)];
    var r := SelectCached(c, 100000);
    assert Usable(c[0], 100000);
    var k :| IsBest(c, 100000, k) && r.value == c[k];
    assert IsBest(c, 100000, 0);
    BestIsUnique(c, 100000, k, 0);
    assert !Usable(Frame(88000, p, 0, 0), 100000);
  }

  /** The eviction loop: pop from the front while the queue is over capacity.
      Returns the survivors and the evicted frames in eviction order. */
  function Evict(q: seq<Frame>, maxItems: nat): (r: (seq<Frame>, seq<Frame>))
    ensures r.1 + r.0 == q
    ensures |r.0| == if |q| > maxItems then maxItems else |q|
    decreases |q|
  {
    if |q| > maxItems then
      var rest := Evict(q[1..], maxItems);
      (rest.0, [q[0]] + rest.1)
    else
      (q, [])
  }

  function FramePaths(fs: seq<Frame>): (ps: seq<Path>)
    ensures |ps| == |fs|
    ensures forall i :: 0 <= i < |fs| ==> ps[i] == fs[i].path
  {
    seq(|fs|, i requires 0 <= i < |fs| => fs[i].path)
  }

  /** What `Screen::all` reports: a failure, no screen, or a primary screen's origin. */
  datatype ScreenList = ListFailed | NoScreens | Primary(originX: int, originY: int)

  /** One sampler tick's view of the world: the screen list, whether capture and the
      PNG save succeed, the instant the frame is pushed, and its file path. */
  datatype Tick = Tick(screens: ScreenList, captureOk: bool, saveOk: bool, time: int, path: Path)

  /** The cache after a tick, the files deleted for evicted frames, and whether the
      tick reported success. */
  datatype TickResult = TickResult(cache: seq<Frame>, deleted: seq<Path>, ok: bool)

  /** `capture_and_store_screenshot`. */
  function CaptureAndStore(cache: seq<Frame>, t: Tick, maxItems: nat): (r: TickResult)
    ensures t.screens.NoScreens? ==> r == TickResult(cache, [], true)
    ensures t.screens.ListFailed? || (t.screens.Primary? && (!t.captureOk || !t.saveOk))
            ==> r == TickResult(cache, [], false)
    ensures r.cache != cache || |r.deleted| > 0 ==> r.ok
    ensures t.screens.Primary? && t.captureOk && t.saveOk ==>
              var f := Frame(t.time, t.path, t.screens.originX, t.screens.originY);
              && r.ok
              && |r.cache| == (if |cache| + 1 > maxItems then maxItems else |cache| + 1)
              && (maxItems >= 1 ==> r.cache[|r.cache| - 1] == f)
              && exists evicted :: evicted + r.cache == cache + [f] && r.deleted == FramePaths(evicted)
  {
    match t.screens
    case ListFailed => TickResult(cache, [], false)
    case NoScreens => TickResult(cache, [], true)
    case Primary(ox, oy) =>
      if !t.captureOk || !t.saveOk then TickResult(cache, [], false)
      else
        var f := Frame(t.time, t.path, ox, oy);
        var split := Evict(cache + [f], maxItems);
        assert maxItems >= 1 ==> split.0[|split.0| - 1] == (split.1 + split.0)[|cache|];
        TickResult(split.0, FramePaths(split.1), true)
  }

  /** The sampler loop: one `CaptureAndStore` per tick, failures logged and ignored. */
  function SamplerRun(cache: seq<Frame>, ticks: seq<Tick>, maxItems: nat): seq<Frame>
    decreases |ticks|
  {
    if |ticks| == 0 then cache
    else SamplerRun(CaptureAndStore(cache, ticks[0], maxItems).cache, ticks[1..], maxItems)
  }

  /** However many ticks run, the cache never holds more than its capacity. */
  lemma {:induction false} SamplerStaysBounded(cache: seq<Frame>, ticks: seq<Tick>, maxItems: nat)
    requires |cache| <= maxItems
    ensures |SamplerRun(cache, ticks, maxItems)| <= maxItems
    decreases |ticks|
  {
    if |ticks| > 0 {
      SamplerStaysBounded(CaptureAndStore(cache, ticks[0], maxItems).cache, ticks[1..], maxItems);
    }
  }

  predicate TimeOrdered(fs: seq<Frame>) {
    forall i, j :: 0 <= i < j < |fs| ==> fs[i].time <= fs[j].time
  }

  predicate NotAfter(fs: seq<Frame>, t: int) {
    forall i :: 0 <= i < |fs| ==> fs[i].time <= t
  }

  /** Eviction is FIFO by capture time: with frames pushed in time order, the cache stays
      time-ordered and every evicted frame is no younger than any surviving frame. */
  lemma TickKeepsFifoOrder(cache: seq<Frame>, t: Tick, maxItems: nat)
    requires TimeOrdered(cache) && NotAfter(cache, t.time)
    requires t.screens.Primary? && t.captureOk && t.saveOk
    ensures TimeOrdered(CaptureAndStore(cache, t, maxItems).cache)
    ensures var f := Frame(t.time, t.path, t.screens.originX, t.screens.originY);
            var split := Evict(cache + [f], maxItems);
            && CaptureAndStore(cache, t, maxItems).deleted == FramePaths(split.1)
            && forall i, j :: 0 <= i < |split.1| && 0 <= j < |split.0| ==> split.1[i].time <= split.0[j].time
  {
    var f := Frame(t.time, t.path, t.screens.originX, t.screens.originY);
    var q := cache + [f];
    assert TimeOrdered(q);
    var split := Evict(q, maxItems);
    var n := |split.1|;
    forall i, j | 0 <= i < |split.1| && 0 <= j < |split.0|
      ensures split.1[i].time <= split.0[j].time
    {
      assert split.1[i] == q[i] && split.0[j] == q[n + j];
    }
    forall i, j | 0 <= i < j < |split.0|
      ensures split.0[i].time <= split.0[j].time
    {
      assert split.0[i] == q[n + i] && split.0[j] == q[n + j];
    }
  }

  /** A run of in-order ticks keeps the whole cache time-ordered. */
  lemma {:induction false} SamplerKeepsOrder(cache: seq<Frame>, ticks: seq<Tick>, maxItems: nat)
    requires TimeOrdered(cache)
    requires forall i :: 0 <= i < |ticks| ==> NotAfter(cache, ticks[i].time)
    requires forall i, j :: 0 <= i < j < |ticks| ==> ticks[i].time <= ticks[j].time
    ensures TimeOrdered(SamplerRun(cache, ticks, maxItems))
    decreases |ticks|
  {
    if |ticks| > 0 {
      var t, rest := ticks[0], ticks[1..];
      var r := CaptureAndStore(cache, t, maxItems);
      if t.screens.Primary? && t.captureOk && t.saveOk {
        TickKeepsFifoOrder(cache, t, maxItems);
      }
      forall i | 0 <= i < |rest| ensures NotAfter(r.cache, rest[i].time) {
        assert rest[i] == ticks[i + 1];
        TickStaysNotAfter(cache, t, maxItems, rest[i].time);
      }
      assert forall i, j :: 0 <= i < j < |rest| ==> rest[i] == ticks[i + 1] && rest[j] == ticks[j + 1];
      SamplerKeepsOrder(r.cache, rest, maxItems);
    }
  }

  /** A tick keeps every cached frame no later than a time that is no earlier than the
      tick itself. */
  lemma TickStaysNotAfter(cache: seq<Frame>, t: Tick, maxItems: nat, later: int)
    requires NotAfter(cache, later) && t.time <= later
    ensures NotAfter(CaptureAndStore(cache, t, maxItems).cache, later)
  {
    var r := CaptureAndStore(cache, t, maxItems);
    if t.screens.Primary? && t.captureOk && t.saveOk {
      var f := Frame(t.time, t.path, t.screens.originX, t.screens.originY);
      var q := cache + [f];
      var split := Evict(q, maxItems);
      assert r.cache == split.0;
      forall k | 0 <= k < |split.0| ensures split.0[k].time <= later {
        var j := |split.1| + k;
        assert split.0[k] == (split.1 + split.0)[j] == q[j];
        if j < |cache| { assert q[j] == cache[j]; } else { assert q[j] == f; }
      }
    }
  }
}
