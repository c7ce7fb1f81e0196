/** The one-hour price history behind sigma: trimming, the full-hour gate and the two separately written
    two-pointer resamplers (apps/btc_poly_runner.cpp, apps/live_pipeline.cpp), against the plain
    specification "the last observation at or before t". */
module SigmaWindow {
  import opened Basics

  datatype Obs = Obs(ts: int, px: real)

  const HOUR := 3600000

  datatype SigmaMode = Rolling | SlugFixed | Constant

  predicate Ascending(h: seq<Obs>) {
    forall i, j :: 0 <= i < j < |h| ==> h[i].ts <= h[j].ts
  }

  /** Index of the last observation at or before `t`, or -1. */
  function LastAt(h: seq<Obs>, t: int): (i: int)
    ensures -1 <= i < |h|
    ensures i >= 0 ==> h[i].ts <= t
    ensures forall j :: i < j < |h| ==> h[j].ts > t
  {
    if h == [] then -1 else if h[|h| - 1].ts <= t then |h| - 1 else LastAt(h[..|h| - 1], t)
  }

  /** Index of the first observation at or after `t`, or the length. */
  function FirstFrom(h: seq<Obs>, t: int): (i: nat)
    ensures i <= |h|
    ensures i < |h| ==> h[i].ts >= t
    ensures forall j :: 0 <= j < i ==> h[j].ts < t
  {
    if h == [] || h[0].ts >= t then 0 else 1 + FirstFrom(h[1..], t)
  }

  /** The price known at `t`: the last observation at or before it, but never one before `base`. */
  function PriceAt(h: seq<Obs>, base: nat, t: int): real
    requires base < |h|
  {
    h[Max(base, LastAt(h, t))].px
  }

  /** The prices known at `t`, `t + step`, ... up to and including `end`. */
  function Grid(h: seq<Obs>, base: nat, t: int, end: int, step: int): seq<real>
    requires base < |h| && step > 0
    decreases end - t + step
  {
    if t > end then [] else [PriceAt(h, base, t)] + Grid(h, base, t + step, end, step)
  }

  lemma MultipleAtLeast(d: int, step: int)
    requires step > 0
    ensures d >= 1 ==> d * step >= step
    ensures d <= -1 ==> d * step <= -step
  {
    if d >= 1 { assert (d - 1) * step >= 0; }
    if d <= -1 { assert (-1 - d) * step >= 0; }
  }

  lemma QuotientIs(x: int, q: int, r: int, step: int)
    requires step > 0 && 0 <= r < step && x == q * step + r
    ensures x / step == q
  {
    var d := x / step - q;
    assert x == (x / step) * step + x % step;
    assert d * step == r - x % step;
    MultipleAtLeast(d, step);
  }

  lemma DivideOnce(a: int, step: int)
    requires step > 0
    ensures (a + step) / step == a / step + 1
  {
    var q, r := a / step, a % step;
    assert a == q * step + r;
    assert (q + 1) * step == q * step + step;
    QuotientIs(a + step, q + 1, r, step);
  }

  /** The grid has one price for each of its times, in order. */
  lemma {:induction false} GridShape(h: seq<Obs>, base: nat, t: int, end: int, step: int)
    requires base < |h| && step > 0 && t <= end
    ensures |Grid(h, base, t, end, step)| == (end - t) / step + 1
    ensures forall k :: 0 <= k < |Grid(h, base, t, end, step)| ==>
      t + k * step <= end && Grid(h, base, t, end, step)[k] == PriceAt(h, base, t + k * step)
    decreases end - t
  {
    hide PriceAt;
    var rest := Grid(h, base, t + step, end, step);
    if t + step <= end {
      GridShape(h, base, t + step, end, step);
      DivideOnce(end - t - step, step);
    }
    forall k | 0 <= k < |rest| + 1
      ensures t + k * step <= end && ([PriceAt(h, base, t)] + rest)[k] == PriceAt(h, base, t + k * step)
    {
      if k > 0 { assert t + step + (k - 1) * step == t + k * step; }
    }
  }

  lemma PointerIsPick(h: seq<Obs>, base: nat, idx: nat, t: int)
    requires Ascending(h) && base <= idx < |h|
    requires idx == base || h[idx].ts <= t
    requires idx + 1 == |h| || h[idx + 1].ts > t
    ensures PriceAt(h, base, t) == h[idx].px
  {
  }

  /** `resample_mids_from_hist` of the runner. */
  method ResampleRunner(h: seq<Obs>, now: int, step: int) returns (mids: seq<real>)
    requires Ascending(h) && step > 0
    ensures mids == if |h| < 3 then [] else Grid(h, Min(FirstFrom(h, now - HOUR), |h| - 1), now - HOUR, now, step)
  {
    hide PriceAt, LastAt;
    mids := [];
    if |h| < 3 { return; }
    var start := now - HOUR;
    var idx := SkipBeforeWindow(h, start);
    ghost var base := idx;
    var t := start;
    while t <= now
      invariant base <= idx < |h|
      invariant idx == base || h[idx].ts <= t
      invariant mids + Grid(h, base, t, now, step) == Grid(h, base, start, now, step)
      decreases now - t
    {
      var lastMid;
      idx, lastMid := AdvanceRunner(h, base, idx, t);
      assert mids + Grid(h, base, t, now, step) == (mids + [lastMid]) + Grid(h, base, t + step, now, step);
      mids := mids + [lastMid];
      t := t + step;
    }
  }

  /** The first loop of the runner: the first index in the window, or the last index. */
  method SkipBeforeWindow(h: seq<Obs>, start: int) returns (idx: nat)
    requires Ascending(h) && h != []
    ensures idx == Min(FirstFrom(h, start), |h| - 1)
  {
    idx := 0;
    while idx + 1 < |h| && h[idx].ts < start
      invariant idx < |h|
      invariant forall j :: 0 <= j < idx ==> h[j].ts < start
    {
      idx := idx + 1;
    }
  }

  /** The inner loop of the runner: the pointer is the index of the price in force. */
  method AdvanceRunner(h: seq<Obs>, ghost base: nat, from: nat, t: int) returns (idx: nat, lastMid: real)
    requires Ascending(h) && base <= from < |h| && (from == base || h[from].ts <= t)
    ensures base <= idx < |h| && (idx == base || h[idx].ts <= t)
    ensures lastMid == PriceAt(h, base, t)
  {
    hide PriceAt, LastAt;
    idx := from;
    lastMid := h[idx].px;
    while idx + 1 < |h| && h[idx + 1].ts <= t
      invariant base <= idx < |h| && lastMid == h[idx].px
      invariant idx == base || h[idx].ts <= t
    {
      idx := idx + 1;
      lastMid := h[idx].px;
    }
    PointerIsPick(h, base, idx, t);
  }

  /** The resampling part of `realized_vol_1h_resampled_from_hist` of the pipeline; None where it gives NaN. */
  method ResamplePipeline(h: seq<Obs>, end: int, step: int) returns (mids: Option<seq<real>>)
    requires Ascending(h)
    ensures mids ==
      if step <= 0 || FirstFrom(h, end - HOUR) == |h| || HOUR / step + 1 < 3 then None
      else Some(Grid(h, FirstFrom(h, end - HOUR), end - HOUR, end, step))
  {
    hide PriceAt, LastAt;
    var t0 := end - HOUR;
    if step <= 0 { return None; }
    var start: nat := 0;
    while start < |h| && h[start].ts < t0
      invariant start <= |h|
      invariant forall j :: 0 <= j < start ==> h[j].ts < t0
    {
      start := start + 1;
    }
    assert start == FirstFrom(h, t0);
    if start >= |h| { return None; }
    var n := HOUR / step + 1;
    if n < 3 { return None; }
    var out: seq<real> := [];
    var j, last := start, h[start].px;
    var tg := t0;
    while tg <= end
      invariant start <= j <= |h| && last == h[Max(start, j - 1)].px
      invariant j == start || h[j - 1].ts <= tg
      invariant out + Grid(h, start, tg, end, step) == Grid(h, start, t0, end, step)
      decreases end - tg
    {
      j, last := AdvancePipeline(h, start, j, last, tg);
      assert out + Grid(h, start, tg, end, step) == (out + [last]) + Grid(h, start, tg + step, end, step);
      out := out + [last];
      tg := tg + step;
    }
    assert out + Grid(h, start, tg, end, step) == out;
    GridShape(h, start, t0, end, step);
    if |out| < 3 {
      assert false;
      return None;
    }
    return Some(out);
  }

  /** The inner loop of the pipeline: its pointer runs one past the price in force. */
  method AdvancePipeline(h: seq<Obs>, ghost start: nat, from: nat, known: real, t: int) returns (j: nat, last: real)
    requires Ascending(h) && start < |h| && start <= from <= |h| && known == h[Max(start, from - 1)].px
    requires from == start || h[from - 1].ts <= t
    ensures start <= j <= |h| && last == h[Max(start, j - 1)].px && (j == start || h[j - 1].ts <= t)
    ensures last == PriceAt(h, start, t)
  {
    hide PriceAt, LastAt;
    j, last := from, known;
    while j < |h| && h[j].ts <= t
      invariant start <= j <= |h| && last == h[Max(start, j - 1)].px
      invariant j == start || h[j - 1].ts <= t
    {
      last := h[j].px;
      j := j + 1;
    }
    PointerIsPick(h, start, Max(start, j - 1), t);
  }

  /** When both resamplers deliver a grid it is the same one; the runner delivers one exactly from three
      points on, the pipeline exactly with a point in the window and room for three grid times. */
  method CompareResamplers(h: seq<Obs>, end: int, step: int) returns (runner: seq<real>, pipeline: Option<seq<real>>)
    requires Ascending(h) && step > 0
    ensures runner != [] <==> |h| >= 3
    ensures pipeline.Some? <==> FirstFrom(h, end - HOUR) < |h| && HOUR / step + 1 >= 3
    ensures runner != [] && pipeline.Some? ==> pipeline.value == runner
  {
    runner := ResampleRunner(h, end, step);
    pipeline := ResamplePipeline(h, end, step);
  }

  /** A grid price comes from the future exactly when its time is before the first observation used. The
      runner's gate rules that out (`FullGrid`); the pipeline, which has no gate, does not. */
  lemma LooksAheadIff(h: seq<Obs>, base: nat, t: int)
    requires Ascending(h) && base < |h|
    ensures h[Max(base, LastAt(h, t))].ts > t <==> h[base].ts > t
  {
  }

  // ---------------------------------------------------------------- the trimmed window

  /** The oldest time kept when a tick at `wall` arrives. */
  function TrimFloor(mode: SigmaMode, epoch: int, wall: int): int {
    if mode == SlugFixed && epoch >= 0 then Min(epoch * 1000 - HOUR, wall - HOUR) else wall - HOUR
  }

  /** The end of the window that sigma is estimated on. */
  function Anchor(mode: SigmaMode, epoch: int, wall: int): int {
    if mode == SlugFixed then epoch * 1000 else wall
  }

  function Trim(h: seq<Obs>, floor: int): seq<Obs> {
    h[FirstFrom(h, floor)..]
  }

  predicate FullHour(h: seq<Obs>, anchor: int) {
    h != [] && h[0].ts <= anchor - HOUR
  }

  /** Whole seconds, as integer division truncates. */
  function Seconds(ms: int): int { if ms >= 0 then ms / 1000 else -((-ms) / 1000) }

  /** Sigma is wanted: a bucket is active and the tick is not before its start. */
  predicate InBucket(epoch: int, wall: int) { epoch >= 0 && Seconds(wall) >= epoch }

  /** Because the trim keeps nothing before the window start and the gate wants nothing after it, the
      gate passes exactly when the head of the history sits on the window start. */
  lemma GateMeansHeadOnStart(h: seq<Obs>, o: Obs, mode: SigmaMode, epoch: int)
    requires Ascending(h + [o]) && o.ts >= 0 && InBucket(epoch, o.ts)
    ensures var kept, anchor := Trim(h + [o], TrimFloor(mode, epoch, o.ts)), Anchor(mode, epoch, o.ts);
      kept != [] && (FullHour(kept, anchor) <==> kept[0].ts == anchor - HOUR)
  {
    assert (h + [o])[|h|] == o;
  }

  /** A window that starts at or before `from` knows the same prices from then on as the whole feed. */
  lemma WindowKnowsAll(feed: seq<Obs>, dropped: nat, t: int)
    requires Ascending(feed) && dropped < |feed| && feed[dropped].ts <= t
    ensures PriceAt(feed[dropped..], 0, t) == feed[LastAt(feed, t)].px
  {
    var i, j := LastAt(feed, t), LastAt(feed[dropped..], t);
    assert feed[dropped..][0] == feed[dropped];
    assert j >= 0;
    assert i >= dropped;
    assert feed[dropped..][i - dropped] == feed[i];
    assert feed[dropped..][j] == feed[dropped + j];
  }

  /** One price for each grid time of the hour from `start`, each the last of the feed at or before its time. */
  ghost predicate FullGrid(mids: seq<real>, feed: seq<Obs>, start: int, step: int)
    requires step > 0
  {
    && |mids| == HOUR / step + 1
    && (forall k :: 0 <= k < |mids| ==>
          LastAt(feed, start + k * step) >= 0 && mids[k] == feed[LastAt(feed, start + k * step)].px)
  }

  /** The grid of a window whose head sits on the window start is the grid of the whole feed. */
  lemma WindowGridKnowsAll(feed: seq<Obs>, dropped: nat, anchor: int, step: int)
    requires Ascending(feed) && dropped < |feed| && feed[dropped].ts == anchor - HOUR && step > 0
    ensures FullGrid(Grid(feed[dropped..], 0, anchor - HOUR, anchor, step), feed, anchor - HOUR, step)
  {
    hide PriceAt, Grid, LastAt;
    GridShape(feed[dropped..], 0, anchor - HOUR, anchor, step);
    forall k | 0 <= k < HOUR / step + 1
      ensures LastAt(feed, anchor - HOUR + k * step) >= 0
      ensures PriceAt(feed[dropped..], 0, anchor - HOUR + k * step) == feed[LastAt(feed, anchor - HOUR + k * step)].px
    {
      if k > 0 { MultipleAtLeast(k, step); }
      WindowKnowsAll(feed, dropped, anchor - HOUR + k * step);
    }
  }

  /** The spot history of the runner and its part of the spot-tick handler. `feed` is every observation so
      far (the prefill first), `dropped` how many of them have been trimmed away. */
  class History {
    const mode: SigmaMode
    const step: int
    var hist: seq<Obs>
    ghost var feed: seq<Obs>
    ghost var dropped: nat

    ghost predicate Valid()
      reads this
    {
      step > 0 && Ascending(feed) && dropped <= |feed| && hist == feed[dropped..]
    }

    constructor (mode: SigmaMode, step: int, prefill: seq<Obs>)
      requires step > 0 && Ascending(prefill)
      ensures Valid() && hist == feed == prefill && this.mode == mode && this.step == step
    {
      this.mode, this.step := mode, step;
      hist := prefill;
      feed, dropped := prefill, 0;
    }

    /** Append the tick, then pop everything older than the floor. */
    method Keep(o: Obs, epoch: int)
      requires Valid() && Ascending(feed + [o])
      modifies this
      ensures Valid() && feed == old(feed) + [o]
      ensures hist == Trim(old(hist) + [o], TrimFloor(mode, epoch, o.ts))
    {
      hide FirstFrom;
      hist := hist + [o];
      feed := feed + [o];
      assert hist == feed[dropped..];
      var floor := o.ts - HOUR;
      if mode == SlugFixed && epoch >= 0 {
        var slugVolStart := epoch * 1000 - HOUR;
        if slugVolStart < floor { floor := slugVolStart; }
      }
      ghost var popped := PopBefore(floor);
      dropped := dropped + popped;
    }

    /** The trimming loop. */
    method PopBefore(floor: int) returns (ghost popped: nat)
      modifies this`hist
      ensures hist == Trim(old(hist), floor) && popped == FirstFrom(old(hist), floor)
    {
      popped := 0;
      while hist != [] && hist[0].ts < floor
        invariant popped <= |old(hist)| && hist == old(hist)[popped..]
        invariant forall i :: 0 <= i < popped ==> old(hist)[i].ts < floor
        decreases |hist|
      {
        hist := hist[1..];
        popped := popped + 1;
      }
      FirstFromIs(old(hist), floor, popped);
    }

    /** The sigma input of one spot tick. No look-ahead and nothing lost: whenever the full-hour gate passes,
        the result is the full grid of the entire feed (`FullGrid`). */
    method OnSpotTick(o: Obs, epoch: int, haveSigma: bool)
      returns (needSigma: bool, haveFullHour: bool, mids: seq<real>)
      requires Valid() && Ascending(feed + [o]) && o.ts >= 0
      modifies this
      ensures Valid() && feed == old(feed) + [o]
      ensures hist == Trim(old(hist) + [o], TrimFloor(mode, epoch, o.ts))
      ensures needSigma == (mode != Constant && InBucket(epoch, o.ts) && !haveSigma)
      ensures haveFullHour == (needSigma && FullHour(hist, Anchor(mode, epoch, o.ts)))
      ensures haveFullHour && |hist| >= 3 ==> FullGrid(mids, feed, Anchor(mode, epoch, o.ts) - HOUR, step)
      ensures !haveFullHour || |hist| < 3 ==> mids == []
    {
      hide PriceAt, Grid, LastAt, Trim, FullGrid, FirstFrom;
      ghost var before := hist;
      assert Ascending(before + [o]) by { assert before + [o] == (feed + [o])[dropped..]; }
      Keep(o, epoch);
      needSigma, haveFullHour, mids := false, false, [];
      var wallS := Seconds(o.ts);
      if mode == Constant && epoch >= 0 && wallS >= epoch {
        return;
      } else if mode != Constant && epoch >= 0 && !haveSigma && wallS >= epoch {
        needSigma := true;
        var anchor := if mode == SlugFixed then epoch * 1000 else o.ts;
        haveFullHour := hist != [] && hist[0].ts <= anchor - HOUR;
        if haveFullHour {
          GateMeansHeadOnStart(before, o, mode, epoch);
          FirstFromIs(hist, anchor - HOUR, 0);
          mids := ResampleRunner(hist, anchor, step);
          WindowGridKnowsAll(feed, dropped, anchor, step);
        }
      }
    }

    /** The resampling of the rolling mode, which follows on every tick, also when sigma is known: the result is
        again the full grid of the entire feed, and the gate is that of `FullHour`. */
    method OnRollingTick(o: Obs, epoch: int) returns (inBucket: bool, fullHour: bool, mids: seq<real>)
      requires Valid() && mode == Rolling && hist != [] && hist[|hist| - 1] == o && hist[0].ts >= o.ts - HOUR
      ensures inBucket == InBucket(epoch, o.ts) && fullHour == (inBucket && FullHour(hist, o.ts))
      ensures fullHour && |hist| >= 3 ==> FullGrid(mids, feed, o.ts - HOUR, step)
      ensures !fullHour || |hist| < 3 ==> mids == []
    {
      hide PriceAt, Grid, LastAt, FullGrid, FirstFrom;
      fullHour, mids := false, [];
      inBucket := epoch >= 0 && Seconds(o.ts) >= epoch;
      if inBucket {
        fullHour := hist != [] && o.ts - hist[0].ts >= HOUR;
        if fullHour {
          FirstFromIs(hist, o.ts - HOUR, 0);
          mids := ResampleRunner(hist, o.ts, step);
          WindowGridKnowsAll(feed, dropped, o.ts, step);
        }
      }
    }
  }

  // ---------------------------------------------------------------- what the gate asks for

  /** The history after a feed of ticks in rolling mode. */
  function RollingHistory(feed: seq<Obs>): seq<Obs> {
    if feed == [] then []
    else
      var o := feed[|feed| - 1];
      Trim(RollingHistory(feed[..|feed| - 1]) + [o], TrimFloor(Rolling, -1, o.ts))
  }

  lemma FirstFromIs(h: seq<Obs>, t: int, i: nat)
    requires i <= |h| && (i < |h| ==> h[i].ts >= t)
    requires forall j :: 0 <= j < i ==> h[j].ts < t
    ensures FirstFrom(h, t) == i
  {
  }

  lemma TrimTwice(h: seq<Obs>, floor: int, later: int)
    requires Ascending(h) && floor <= later
    ensures Trim(Trim(h, floor), later) == Trim(h, later)
  {
    hide FirstFrom;
    var d, i := FirstFrom(h, floor), FirstFrom(h, later);
    var kept := h[d..];
    assert forall k :: 0 <= k < |kept| ==> kept[k] == h[d + k];
    FirstFromIs(kept, later, i - d);
  }

  lemma TrimAppend(h: seq<Obs>, o: Obs, floor: int)
    requires h != [] && h[|h| - 1].ts >= floor
    ensures Trim(h, floor) + [o] == Trim(h + [o], floor)
  {
    var i := FirstFrom(h, floor);
    FirstFromIs(h + [o], floor, i);
  }

  lemma AscendingInit(feed: seq<Obs>)
    requires feed != [] && Ascending(feed)
    ensures Ascending(feed[..|feed| - 1])
  {
  }

  lemma InOrder(feed: seq<Obs>, i: nat, j: nat)
    requires Ascending(feed) && i <= j < |feed|
    ensures feed[i].ts <= feed[j].ts
  {
  }

  /** In rolling mode the history is exactly the ticks of the hour up to the last one. */
  lemma {:induction false} RollingKeepsLastHour(feed: seq<Obs>)
    requires Ascending(feed) && feed != []
    ensures RollingHistory(feed) == Trim(feed, feed[|feed| - 1].ts - HOUR)
  {
    hide FirstFrom, Trim, Ascending;
    var init, o := feed[..|feed| - 1], feed[|feed| - 1];
    assert feed == init + [o];
    if init == [] {
      assert RollingHistory(init) + [o] == feed;
    } else {
      var last := init[|init| - 1];
      AscendingInit(feed);
      InOrder(feed, |init| - 1, |init|);
      RollingKeepsLastHour(init);
      TrimAppend(init, o, last.ts - HOUR);
      TrimTwice(feed, last.ts - HOUR, o.ts - HOUR);
    }
  }

  /** So the gate does not ask whether the feed spans an hour: it passes exactly when some tick is stamped
      precisely one hour before the last one ... */
  lemma RollingGateIff(feed: seq<Obs>)
    requires Ascending(feed) && feed != []
    ensures FullHour(RollingHistory(feed), feed[|feed| - 1].ts)
       <==> exists i :: 0 <= i < |feed| && feed[i].ts == feed[|feed| - 1].ts - HOUR
  {
    var start := feed[|feed| - 1].ts - HOUR;
    RollingKeepsLastHour(feed);
    var d := FirstFrom(feed, start);
    assert d < |feed| && feed[d..][0] == feed[d];
  }

  /** ... and a feed that spans more than an hour can fail it. */
  lemma LongFeedCanFailGate()
    ensures exists feed: seq<Obs> ::
      Ascending(feed) && |feed| >= 3 && feed[|feed| - 1].ts - feed[0].ts > HOUR &&
      !FullHour(RollingHistory(feed), feed[|feed| - 1].ts)
  {
    var feed := [Obs(0, 1.0), Obs(1000, 1.0), Obs(HOUR + 500, 1.0)];
    assert Ascending(feed);
    RollingGateIff(feed);
  }

  // ---------------------------------------------------------------- the gate in both modes

  /** A spot tick with the bucket that is active when it comes, -1 for none. */
  datatype Spot = Spot(o: Obs, epoch: int)

  function Feed(ticks: seq<Spot>): (feed: seq<Obs>)
    ensures |feed| == |ticks| && forall i :: 0 <= i < |ticks| ==> feed[i] == ticks[i].o
  {
    seq(|ticks|, i requires 0 <= i < |ticks| => ticks[i].o)
  }

  function FloorOf(mode: SigmaMode, s: Spot): int { TrimFloor(mode, s.epoch, s.o.ts) }

  /** The history after the ticks, each trimmed as `History.Keep` does. */
  function HistoryAfter(mode: SigmaMode, ticks: seq<Spot>): seq<Obs> {
    if ticks == [] then []
    else
      var s := ticks[|ticks| - 1];
      Trim(HistoryAfter(mode, ticks[..|ticks| - 1]) + [s.o], FloorOf(mode, s))
  }

  /** The highest floor the ticks have trimmed to. */
  function MaxFloor(mode: SigmaMode, ticks: seq<Spot>): (floor: int)
    requires ticks != []
    ensures forall j :: 0 <= j < |ticks| ==> FloorOf(mode, ticks[j]) <= floor
    ensures exists j :: 0 <= j < |ticks| && FloorOf(mode, ticks[j]) == floor
  {
    var last := ticks[|ticks| - 1];
    if |ticks| == 1 then
      assert FloorOf(mode, ticks[0]) == FloorOf(mode, last);
      FloorOf(mode, last)
    else
      var init := ticks[..|ticks| - 1];
      var before := MaxFloor(mode, init);
      assert forall j :: 0 <= j < |init| ==> ticks[j] == init[j];
      assert FloorOf(mode, ticks[|ticks| - 1]) == FloorOf(mode, last);
      Max(before, FloorOf(mode, last))
  }

  lemma TrimMax(h: seq<Obs>, floor: int, other: int)
    requires Ascending(h)
    ensures Trim(Trim(h, floor), other) == Trim(h, Max(floor, other))
  {
    hide FirstFrom;
    if floor <= other {
      TrimTwice(h, floor, other);
    } else {
      var d := FirstFrom(h, floor);
      var kept := h[d..];
      assert forall k :: 0 <= k < |kept| ==> kept[k] == h[d + k];
      FirstFromIs(kept, other, 0);
    }
  }

  lemma MaxFloorStep(mode: SigmaMode, ticks: seq<Spot>)
    requires |ticks| > 1
    ensures MaxFloor(mode, ticks) == Max(MaxFloor(mode, ticks[..|ticks| - 1]), FloorOf(mode, ticks[|ticks| - 1]))
  {
  }

  lemma MaxFloorOne(mode: SigmaMode, ticks: seq<Spot>)
    requires |ticks| == 1
    ensures MaxFloor(mode, ticks) == FloorOf(mode, ticks[0])
  {
  }

  /** However the bucket changes: the history is the whole feed from the highest floor on. */
  lemma {:induction false} HistoryIsTrim(mode: SigmaMode, ticks: seq<Spot>)
    requires ticks != [] && Ascending(Feed(ticks))
    ensures HistoryAfter(mode, ticks) == Trim(Feed(ticks), MaxFloor(mode, ticks))
    ensures MaxFloor(mode, ticks) <= ticks[|ticks| - 1].o.ts - HOUR
  {
    hide FirstFrom, Trim, MaxFloor, Ascending;
    var init, s := ticks[..|ticks| - 1], ticks[|ticks| - 1];
    assert Feed(ticks)[..|ticks| - 1] == Feed(init);
    assert Feed(ticks) == Feed(init) + [s.o];
    if |ticks| == 1 {
      assert HistoryAfter(mode, init) + [s.o] == Feed(ticks);
      MaxFloorOne(mode, ticks);
    } else {
      AscendingInit(Feed(ticks));
      HistoryIsTrim(mode, init);
      MaxFloorStep(mode, ticks);
      InOrder(Feed(ticks), |ticks| - 2, |ticks| - 1);
      TrimAppend(Feed(init), s.o, MaxFloor(mode, init));
      TrimMax(Feed(ticks), MaxFloor(mode, init), FloorOf(mode, s));
    }
  }

  /** Exactly when the gate passes, in both modes and however the bucket changes: some tick is stamped precisely at
      the window start and no tick has trimmed beyond it. */
  lemma GateIff(mode: SigmaMode, ticks: seq<Spot>)
    requires mode != Constant && ticks != [] && Ascending(Feed(ticks))
    requires ticks[|ticks| - 1].o.ts >= 0 && InBucket(ticks[|ticks| - 1].epoch, ticks[|ticks| - 1].o.ts)
    ensures var last := ticks[|ticks| - 1];
      var start := Anchor(mode, last.epoch, last.o.ts) - HOUR;
      FullHour(HistoryAfter(mode, ticks), start + HOUR) <==>
        && (exists i :: 0 <= i < |ticks| && ticks[i].o.ts == start)
        && (forall j :: 0 <= j < |ticks| ==> FloorOf(mode, ticks[j]) <= start)
  {
    hide FirstFrom, MaxFloor, HistoryAfter;
    HistoryIsTrim(mode, ticks);
    var last := ticks[|ticks| - 1];
    var start := Anchor(mode, last.epoch, last.o.ts) - HOUR;
    LastFloorIsStart(mode, last);
    var feed, floor := Feed(ticks), MaxFloor(mode, ticks);
    var d := FirstFrom(feed, floor);
    assert feed[|ticks| - 1].ts >= floor;
    assert d < |feed| && feed[d..][0] == feed[d] == ticks[d].o;
    if i :| 0 <= i < |ticks| && ticks[i].o.ts == start && floor <= start {
      assert feed[i].ts == start;
    }
  }

  lemma LastFloorIsStart(mode: SigmaMode, s: Spot)
    requires mode != Constant && s.o.ts >= 0 && InBucket(s.epoch, s.o.ts)
    ensures FloorOf(mode, s) == Anchor(mode, s.epoch, s.o.ts) - HOUR
  {
  }
}
