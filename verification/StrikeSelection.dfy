/** Choosing the strike price from the Chainlink tick stream (src/polymarket/rtds_chainlink_feed.cpp): the
    best-so-far selector, the 900-entry buffer and the waiting loop. Times are milliseconds. */
module StrikeSelection {
  import opened Basics

  datatype Tick = Tick(ts: int, px: real)

  datatype Kind = After | Before | Nearest

  datatype Pick = Pick(kind: Kind, tick: Tick)

  function Abs(x: int): nat { if x < 0 then -x else x }

  // ---------------------------------------------------------------- specification

  predicate InSkew(t: Tick, target: int, skew: int) { Abs(t.ts - target) <= skew }

  predicate UsableAfter(t: Tick, target: int, skew: int) { t.ts >= target && InSkew(t, target, skew) }

  predicate UsableBefore(t: Tick, target: int, skew: int) { t.ts <= target && InSkew(t, target, skew) }

  /** `i` is the earliest usable tick at or after the target, the first to arrive of its time. */
  ghost predicate IsBestAfter(s: seq<Tick>, target: int, skew: int, i: nat) {
    && i < |s| && UsableAfter(s[i], target, skew)
    && (forall j :: 0 <= j < |s| && UsableAfter(s[j], target, skew) ==> s[i].ts <= s[j].ts)
    && (forall j :: 0 <= j < i ==> !(UsableAfter(s[j], target, skew) && s[j].ts == s[i].ts))
  }

  /** `i` is the latest usable tick at or before the target, the first to arrive of its time. */
  ghost predicate IsBestBefore(s: seq<Tick>, target: int, skew: int, i: nat) {
    && i < |s| && UsableBefore(s[i], target, skew)
    && (forall j :: 0 <= j < |s| && UsableBefore(s[j], target, skew) ==> s[j].ts <= s[i].ts)
    && (forall j :: 0 <= j < i ==> !(UsableBefore(s[j], target, skew) && s[j].ts == s[i].ts))
  }

  ghost predicate HasAfter(s: seq<Tick>, target: int, skew: int) {
    exists i :: 0 <= i < |s| && UsableAfter(s[i], target, skew)
  }

  ghost predicate HasUsable(s: seq<Tick>, target: int, skew: int) {
    exists i :: 0 <= i < |s| && InSkew(s[i], target, skew)
  }

  /** The running choice after the target: strictly earlier usable ticks replace it. */
  function BestAfter(s: seq<Tick>, target: int, skew: int): (r: Option<nat>)
    ensures r.Some? ==> r.value < |s| && IsBestAfter(s, target, skew, r.value)
    ensures r.None? <==> !HasAfter(s, target, skew)
  {
    if s == [] then None
    else
      var init, t := s[..|s| - 1], s[|s| - 1];
      assert forall j :: 0 <= j < |init| ==> s[j] == init[j];
      var best := BestAfter(init, target, skew);
      if UsableAfter(t, target, skew) && (best.None? || t.ts < init[best.value].ts) then Some(|init|) else best
  }

  /** The running choice before the target: strictly later usable ticks replace it. */
  function BestBefore(s: seq<Tick>, target: int, skew: int): (r: Option<nat>)
    ensures r.Some? ==> r.value < |s| && IsBestBefore(s, target, skew, r.value)
    ensures r.None? ==> forall j :: 0 <= j < |s| ==> !UsableBefore(s[j], target, skew)
  {
    if s == [] then None
    else
      var init, t := s[..|s| - 1], s[|s| - 1];
      assert forall j :: 0 <= j < |init| ==> s[j] == init[j];
      var best := BestBefore(init, target, skew);
      if UsableBefore(t, target, skew) && (best.None? || t.ts > init[best.value].ts) then Some(|init|) else best
  }

  lemma AfterStep(s: seq<Tick>, t: Tick, target: int, skew: int)
    ensures var best := BestAfter(s, target, skew);
      BestAfter(s + [t], target, skew)
      == if UsableAfter(t, target, skew) && (best.None? || t.ts < s[best.value].ts) then Some(|s|) else best
  {
    assert (s + [t])[..|s|] == s;
  }

  lemma BeforeStep(s: seq<Tick>, t: Tick, target: int, skew: int)
    ensures var best := BestBefore(s, target, skew);
      BestBefore(s + [t], target, skew)
      == if UsableBefore(t, target, skew) && (best.None? || t.ts > s[best.value].ts) then Some(|s|) else best
  {
    assert (s + [t])[..|s|] == s;
  }

  /** The strike: the best tick after the target if there is one, else the best before it. */
  function Strike(s: seq<Tick>, target: int, skew: int): Option<Pick> {
    var after, before := BestAfter(s, target, skew), BestBefore(s, target, skew);
    if after.Some? then Some(Pick(After, s[after.value]))
    else if before.Some? then Some(Pick(Before, s[before.value]))
    else None
  }

  /** A strike is found exactly when some tick is within the skew, and it is then within the skew itself. */
  lemma StrikeFoundIff(s: seq<Tick>, target: int, skew: int)
    ensures Strike(s, target, skew).Some? <==> HasUsable(s, target, skew)
    ensures Strike(s, target, skew).Some? ==> InSkew(Strike(s, target, skew).value.tick, target, skew)
  {
    hide BestAfter, BestBefore;
    if i :| 0 <= i < |s| && InSkew(s[i], target, skew) {
      assert UsableAfter(s[i], target, skew) || UsableBefore(s[i], target, skew);
    }
  }

  // ---------------------------------------------------------------- arrival order

  lemma SameTicks(s: seq<Tick>, s': seq<Tick>, i: nat)
    requires multiset(s) == multiset(s') && i < |s|
    ensures s[i] in s'
  {
    assert s[i] in multiset(s);
    assert s[i] in multiset(s');
  }

  lemma AfterIgnoresOrder(s: seq<Tick>, s': seq<Tick>, target: int, skew: int)
    requires multiset(s) == multiset(s') && BestAfter(s, target, skew).Some?
    ensures BestAfter(s', target, skew).Some?
    ensures s'[BestAfter(s', target, skew).value].ts == s[BestAfter(s, target, skew).value].ts
  {
    hide BestAfter;
    var i := BestAfter(s, target, skew).value;
    SameTicks(s, s', i);
    var k :| 0 <= k < |s'| && s'[k] == s[i];
    assert UsableAfter(s'[k], target, skew);
    var i' := BestAfter(s', target, skew).value;
    SameTicks(s', s, i');
    var k' :| 0 <= k' < |s| && s[k'] == s'[i'];
    assert UsableAfter(s[k'], target, skew);
  }

  lemma BeforeIgnoresOrder(s: seq<Tick>, s': seq<Tick>, target: int, skew: int)
    requires multiset(s) == multiset(s') && BestBefore(s, target, skew).Some?
    ensures BestBefore(s', target, skew).Some?
    ensures s'[BestBefore(s', target, skew).value].ts == s[BestBefore(s, target, skew).value].ts
  {
    hide BestBefore;
    var i := BestBefore(s, target, skew).value;
    SameTicks(s, s', i);
    var k :| 0 <= k < |s'| && s'[k] == s[i];
    assert UsableBefore(s'[k], target, skew);
    var i' := BestBefore(s', target, skew).value;
    SameTicks(s', s, i');
    var k' :| 0 <= k' < |s| && s[k'] == s'[i'];
    assert UsableBefore(s[k'], target, skew);
  }

  /** The kind and the time of the strike do not depend on the order in which the ticks arrived. */
  lemma StrikeTimeIgnoresOrder(s: seq<Tick>, s': seq<Tick>, target: int, skew: int)
    requires multiset(s) == multiset(s')
    ensures var p, p' := Strike(s, target, skew), Strike(s', target, skew);
      p.Some? == p'.Some? && (p.Some? ==> p.value.kind == p'.value.kind && p.value.tick.ts == p'.value.tick.ts)
  {
    hide BestAfter, BestBefore;
    if BestAfter(s, target, skew).Some? { AfterIgnoresOrder(s, s', target, skew); }
    if BestAfter(s', target, skew).Some? { AfterIgnoresOrder(s', s, target, skew); }
    if BestBefore(s, target, skew).Some? { BeforeIgnoresOrder(s, s', target, skew); }
    if BestBefore(s', target, skew).Some? { BeforeIgnoresOrder(s', s, target, skew); }
  }

  // ---------------------------------------------------------------- the bounded buffer

  const MAX_BUFFER := 900

  function LastN(s: seq<Tick>, n: nat): seq<Tick> {
    if |s| <= n then s else s[|s| - n..]
  }

  /** The index in the stream of the tick chosen as strike. */
  function StrikeIndex(s: seq<Tick>, target: int, skew: int): Option<nat> {
    if BestAfter(s, target, skew).Some? then BestAfter(s, target, skew) else BestBefore(s, target, skew)
  }

  lemma BestAfterUnique(s: seq<Tick>, target: int, skew: int, i: nat)
    requires IsBestAfter(s, target, skew, i)
    ensures BestAfter(s, target, skew) == Some(i)
  {
    hide BestAfter;
    var j := BestAfter(s, target, skew).value;
    assert s[i].ts == s[j].ts;
  }

  lemma BestBeforeUnique(s: seq<Tick>, target: int, skew: int, i: nat)
    requires IsBestBefore(s, target, skew, i)
    ensures BestBefore(s, target, skew) == Some(i)
  {
    hide BestBefore;
    var j := BestBefore(s, target, skew).value;
    assert s[i].ts == s[j].ts;
  }

  lemma AfterSurvivesDrop(s: seq<Tick>, target: int, skew: int, d: nat)
    requires d <= |s| && BestAfter(s, target, skew).Some? && BestAfter(s, target, skew).value >= d
    ensures BestAfter(s[d..], target, skew) == Some(BestAfter(s, target, skew).value - d)
  {
    hide BestAfter;
    var i := BestAfter(s, target, skew).value;
    assert forall j :: 0 <= j < |s[d..]| ==> s[d..][j] == s[d + j];
    BestAfterUnique(s[d..], target, skew, i - d);
  }

  lemma BeforeSurvivesDrop(s: seq<Tick>, target: int, skew: int, d: nat)
    requires d <= |s| && BestBefore(s, target, skew).Some? && BestBefore(s, target, skew).value >= d
    ensures BestBefore(s[d..], target, skew) == Some(BestBefore(s, target, skew).value - d)
  {
    hide BestBefore;
    var i := BestBefore(s, target, skew).value;
    assert forall j :: 0 <= j < |s[d..]| ==> s[d..][j] == s[d + j];
    BestBeforeUnique(s[d..], target, skew, i - d);
  }

  /** The chosen tick is among the last 900, or there is none. */
  predicate Retained(s: seq<Tick>, target: int, skew: int) {
    StrikeIndex(s, target, skew).Some? ==> StrikeIndex(s, target, skew).value >= |s| - MAX_BUFFER
  }

  lemma StrikeOfSuffix(s: seq<Tick>, target: int, skew: int, d: nat)
    requires d <= |s| && (StrikeIndex(s, target, skew).Some? ==> StrikeIndex(s, target, skew).value >= d)
    ensures Strike(s[d..], target, skew) == Strike(s, target, skew)
  {
    hide BestAfter, BestBefore, IsBestAfter, IsBestBefore, HasAfter;
    if BestAfter(s, target, skew).Some? {
      AfterSurvivesDrop(s, target, skew, d);
    } else {
      NoAfterInSuffix(s, target, skew, d);
      if BestBefore(s, target, skew).Some? {
        BeforeSurvivesDrop(s, target, skew, d);
      } else {
        NoBeforeInSuffix(s, target, skew, d);
      }
    }
  }

  lemma NoBeforeInSuffix(s: seq<Tick>, target: int, skew: int, d: nat)
    requires d <= |s| && BestBefore(s, target, skew).None?
    ensures BestBefore(s[d..], target, skew).None?
  {
    hide BestBefore;
    assert forall j :: 0 <= j < |s[d..]| ==> s[d..][j] == s[d + j];
  }

  /** Forgetting old ticks is harmless as long as the chosen one is kept: the buffer then yields exactly the
      strike of the whole stream, kind, time and price. */
  lemma BufferYieldsStreamStrike(s: seq<Tick>, target: int, skew: int)
    requires Retained(s, target, skew)
    ensures Strike(LastN(s, MAX_BUFFER), target, skew) == Strike(s, target, skew)
  {
    hide Strike, StrikeIndex;
    var d := if |s| <= MAX_BUFFER then 0 else |s| - MAX_BUFFER;
    StrikeIndexInRange(s, target, skew);
    assert LastN(s, MAX_BUFFER) == s[d..];
    StrikeOfSuffix(s, target, skew, d);
  }

  lemma StrikeIndexInRange(s: seq<Tick>, target: int, skew: int)
    ensures StrikeIndex(s, target, skew).Some? ==> StrikeIndex(s, target, skew).value < |s|
  {
    hide BestAfter, BestBefore;
  }

  lemma AfterTimeKept(s: seq<Tick>, target: int, skew: int, d: nat, i: nat)
    requires BestAfter(s, target, skew).Some? && d <= i < |s| && s[i].ts == s[BestAfter(s, target, skew).value].ts
    ensures BestAfter(s[d..], target, skew).Some?
    ensures s[d..][BestAfter(s[d..], target, skew).value].ts == s[i].ts
  {
    hide BestAfter;
    assert s[d..][i - d] == s[i];
    assert UsableAfter(s[d..][i - d], target, skew);
    var j := BestAfter(s[d..], target, skew).value;
    assert s[d + j] == s[d..][j];
  }

  lemma BeforeTimeKept(s: seq<Tick>, target: int, skew: int, d: nat, i: nat)
    requires BestBefore(s, target, skew).Some? && d <= i < |s| && s[i].ts == s[BestBefore(s, target, skew).value].ts
    ensures BestBefore(s[d..], target, skew).Some?
    ensures s[d..][BestBefore(s[d..], target, skew).value].ts == s[i].ts
  {
    hide BestBefore;
    assert s[d..][i - d] == s[i];
    assert UsableBefore(s[d..][i - d], target, skew);
    var j := BestBefore(s[d..], target, skew).value;
    assert s[d + j] == s[d..][j];
  }

  lemma NoAfterInSuffix(s: seq<Tick>, target: int, skew: int, d: nat)
    requires d <= |s| && BestAfter(s, target, skew).None?
    ensures BestAfter(s[d..], target, skew).None?
  {
    hide BestAfter;
    assert forall j :: 0 <= j < |s[d..]| ==> s[d..][j] == s[d + j];
  }

  /** The buffer finds the stream's strike time exactly when it still holds some tick of that time. */
  lemma BufferKeepsStrikeTimeIff(s: seq<Tick>, target: int, skew: int)
    requires Strike(s, target, skew).Some?
    ensures var kept := LastN(s, MAX_BUFFER);
      var p, p' := Strike(s, target, skew).value, Strike(kept, target, skew);
      (p'.Some? && p'.value.kind == p.kind && p'.value.tick.ts == p.tick.ts)
      <==> exists i :: 0 <= i < |kept| && kept[i].ts == p.tick.ts
  {
    hide BestAfter, BestBefore, IsBestAfter, IsBestBefore, HasAfter;
    var kept := LastN(s, MAX_BUFFER);
    var d := |s| - |kept|;
    assert kept == s[d..];
    var p := Strike(s, target, skew).value;
    if i :| 0 <= i < |kept| && kept[i].ts == p.tick.ts {
      if BestAfter(s, target, skew).Some? {
        AfterTimeKept(s, target, skew, d, d + i);
      } else {
        BeforeTimeKept(s, target, skew, d, d + i);
        NoAfterInSuffix(s, target, skew, d);
      }
    }
  }

  lemma LastNStep(s: seq<Tick>, t: Tick)
    ensures LastN(LastN(s, MAX_BUFFER) + [t], MAX_BUFFER) == LastN(s + [t], MAX_BUFFER)
  {
    if |s| > MAX_BUFFER {
      assert LastN(s, MAX_BUFFER) + [t] == (s + [t])[|s| - MAX_BUFFER..];
    }
  }

  /** The shared tick buffer. `stream` is every tick since the last reconnect. */
  class TickBuffer {
    var buffer: seq<Tick>
    ghost var stream: seq<Tick>

    ghost predicate Valid()
      reads this
    {
      buffer == LastN(stream, MAX_BUFFER)
    }

    constructor ()
      ensures Valid() && stream == []
    {
      buffer, stream := [], [];
    }

    /** The popping loop of `push_ticks`. */
    method PopOld()
      modifies this`buffer
      ensures buffer == LastN(old(buffer), MAX_BUFFER)
    {
      ghost var was, dropped := buffer, 0;
      while |buffer| > MAX_BUFFER
        invariant 0 <= dropped <= |was| && buffer == was[dropped..]
        invariant dropped == 0 || |buffer| >= MAX_BUFFER
        decreases |buffer|
      {
        buffer := buffer[1..];
        dropped := dropped + 1;
      }
    }

    /** `push_ticks` */
    method PushTicks(ticks: seq<Tick>)
      requires Valid()
      modifies this
      ensures Valid() && stream == old(stream) + ticks
    {
      hide LastN;
      for i := 0 to |ticks|
        invariant Valid() && stream == old(stream) + ticks[..i]
      {
        LastNStep(stream, ticks[i]);
        buffer := buffer + [ticks[i]];
        stream := stream + [ticks[i]];
        PopOld();
        assert ticks[..i + 1] == ticks[..i] + [ticks[i]];
      }
      assert ticks[..|ticks|] == ticks;
    }

    /** The buffer part of `reconnect_inner`. */
    method Reconnect()
      modifies this
      ensures Valid() && stream == []
    {
      buffer, stream := [], [];
    }

    /** What happens to the buffer between two polls. */
    method Receive(arrivals: seq<Arrival>)
      requires Valid()
      modifies this
      ensures Valid() && stream == Received(old(stream), arrivals)
    {
      hide Valid;
      for i := 0 to |arrivals|
        invariant Valid() && stream == Received(old(stream), arrivals[..i])
      {
        assert arrivals[..i + 1][..i] == arrivals[..i];
        match arrivals[i]
        case Ticks(ticks) => PushTicks(ticks);
        case Reconnected => Reconnect();
      }
      assert arrivals[..|arrivals|] == arrivals;
    }
  }

  /** What reaches the buffer. */
  datatype Arrival = Ticks(ticks: seq<Tick>) | Reconnected

  /** The ticks since the last reconnect, after some arrivals. */
  function Received(s: seq<Tick>, arrivals: seq<Arrival>): seq<Tick> {
    if arrivals == [] then s
    else
      match arrivals[|arrivals| - 1]
      case Ticks(ticks) => Received(s, arrivals[..|arrivals| - 1]) + ticks
      case Reconnected => []
  }

  // ---------------------------------------------------------------- the selector

  /** `t` is among the ticks `s`, at distance `d` from the target, and none is nearer. */
  ghost predicate IsNearest(s: seq<Tick>, target: int, t: Tick, d: int) {
    t in s && d == Abs(t.ts - target) && forall j :: 0 <= j < |s| ==> d <= Abs(s[j].ts - target)
  }

  lemma NearestStep(s: seq<Tick>, t: Tick, target: int, best: Tick, d: int)
    requires s == [] || IsNearest(s, target, best, d)
    ensures var sk := Abs(t.ts - target);
      if s == [] || sk < d then IsNearest(s + [t], target, t, sk) else IsNearest(s + [t], target, best, d)
  {
  }

  /** TickSel: the best ticks seen so far. */
  class TickSel {
    var haveBefore: bool
    var bestBefore: Tick
    var haveAfter: bool
    var bestAfter: Tick
    var haveAny: bool
    var bestAnySkew: int
    var bestAny: Tick

    constructor ()
      ensures forall target, skew :: Tracks([], target, skew)
    {
      haveBefore, haveAfter, haveAny := false, false, false;
      bestBefore, bestAfter, bestAny := Tick(0, 0.0), Tick(0, 0.0), Tick(0, 0.0);
      bestAnySkew := 0;
    }

    /** The fields describe exactly the ticks `s`. */
    ghost predicate Tracks(s: seq<Tick>, target: int, skew: int)
      reads this
    {
      var after, before := BestAfter(s, target, skew), BestBefore(s, target, skew);
      && haveAfter == after.Some? && (haveAfter ==> bestAfter == s[after.value])
      && haveBefore == before.Some? && (haveBefore ==> bestBefore == s[before.value])
      && haveAny == (s != [])
      && (haveAny ==> IsNearest(s, target, bestAny, bestAnySkew))
    }

    method Consider(t: Tick, target: int, skew: int, ghost s: seq<Tick>)
      requires Tracks(s, target, skew)
      modifies this
      ensures Tracks(s + [t], target, skew)
    {
      hide BestAfter, BestBefore, IsBestAfter, IsBestBefore, HasAfter, IsNearest;
      NearestStep(s, t, target, bestAny, bestAnySkew);
      AfterStep(s, t, target, skew);
      BeforeStep(s, t, target, skew);
      if t.ts <= target {
        var dt := target - t.ts;
        if dt <= skew && (!haveBefore || t.ts > bestBefore.ts) {
          haveBefore, bestBefore := true, t;
        }
      }
      if t.ts >= target {
        var dt := t.ts - target;
        if dt <= skew && (!haveAfter || t.ts < bestAfter.ts) {
          haveAfter, bestAfter := true, t;
        }
      }
      var sk := Abs(t.ts - target);
      if !haveAny || sk < bestAnySkew {
        haveAny, bestAnySkew, bestAny := true, sk, t;
      }
    }

    /** `assign_fallback`: the "nearest" branch cannot be entered. */
    method AssignFallback(target: int, skew: int, ghost s: seq<Tick>) returns (p: Option<Pick>)
      requires Tracks(s, target, skew)
      ensures p == Strike(s, target, skew)
    {
      hide BestAfter, BestBefore, IsBestAfter, IsBestBefore;
      StrikeFoundIff(s, target, skew);
      if haveAfter { return Some(Pick(After, bestAfter)); }
      if haveBefore { return Some(Pick(Before, bestBefore)); }
      if haveAny && bestAnySkew <= skew {
        assert false;
        return Some(Pick(Nearest, bestAny));
      }
      return None;
    }
  }

  /** The selector fed a whole snapshot. */
  method SelectFrom(s: seq<Tick>, target: int, skew: int) returns (sel: TickSel)
    ensures fresh(sel) && sel.Tracks(s, target, skew)
  {
    hide BestAfter, BestBefore;
    sel := new TickSel();
    for i := 0 to |s|
      invariant fresh(sel) && sel.Tracks(s[..i], target, skew)
    {
      assert s[..i + 1] == s[..i] + [s[i]];
      sel.Consider(s[i], target, skew, s[..i]);
    }
    assert s[..|s|] == s;
  }

  // ---------------------------------------------------------------- waiting

  datatype Waited = Waited(pick: Pick, immediate: bool)

  /** The first poll with a tick at or after the target decides; otherwise the final snapshot does. */
  function WaitFor(snaps: seq<seq<Tick>>, final: seq<Tick>, target: int, skew: int): Option<Waited> {
    if snaps == [] then
      match Strike(final, target, skew) case Some(pick) => Some(Waited(pick, false)) case None => None
    else
      match Strike(snaps[0], target, skew)
      case Some(Pick(After, tick)) => Some(Waited(Pick(After, tick), true))
      case _ => WaitFor(snaps[1..], final, target, skew)
  }

  lemma {:induction false} WaitForIsFirst(snaps: seq<seq<Tick>>, final: seq<Tick>, target: int, skew: int, k: nat)
    requires k <= |snaps| && forall j :: 0 <= j < k ==> !HasAfter(snaps[j], target, skew)
    ensures WaitFor(snaps, final, target, skew) == WaitFor(snaps[k..], final, target, skew)
  {
    hide WaitFor, HasAfter;
    if k == 0 {
      assert snaps[0..] == snaps;
    } else {
      assert forall j :: 0 <= j < k - 1 ==> snaps[1..][j] == snaps[j + 1];
      WaitForIsFirst(snaps[1..], final, target, skew, k - 1);
      assert snaps[1..][k - 1..] == snaps[k..];
      WaitForStep(snaps, final, target, skew);
    }
  }

  lemma WaitForStep(snaps: seq<seq<Tick>>, final: seq<Tick>, target: int, skew: int)
    requires snaps != [] && !HasAfter(snaps[0], target, skew)
    ensures WaitFor(snaps, final, target, skew) == WaitFor(snaps[1..], final, target, skew)
  {
    hide BestAfter, BestBefore, IsBestAfter, IsBestBefore, HasAfter;
  }

  /** `wait_strike_inner`: `snaps` are the buffer contents at the polls before the deadline, `final` the one
      after it. The first poll with a tick after the target decides; otherwise the final snapshot does. */
  method WaitStrike(snaps: seq<seq<Tick>>, final: seq<Tick>, target: int, maxSkew: int) returns (r: Option<Waited>)
    ensures var skew := Max(maxSkew, 1000);
      match r
      case Some(Waited(pick, true)) =>
        exists k :: 0 <= k < |snaps| && HasAfter(snaps[k], target, skew) && Strike(snaps[k], target, skew) == Some(pick)
                    && (forall j :: 0 <= j < k ==> !HasAfter(snaps[j], target, skew))
      case Some(Waited(pick, false)) =>
        (forall j :: 0 <= j < |snaps| ==> !HasAfter(snaps[j], target, skew))
        && Strike(final, target, skew) == Some(pick)
      case None =>
        (forall j :: 0 <= j < |snaps| ==> !HasAfter(snaps[j], target, skew)) && !HasUsable(final, target, skew)
    ensures r == WaitFor(snaps, final, target, Max(maxSkew, 1000))
  {
    hide BestAfter, BestBefore;
    var skew := if maxSkew < 1000 then 1000 else maxSkew;
    for k := 0 to |snaps|
      invariant forall j :: 0 <= j < k ==> !HasAfter(snaps[j], target, skew)
    {
      var sel := SelectFrom(snaps[k], target, skew);
      if sel.haveAfter {
        assert Strike(snaps[k], target, skew) == Some(Pick(After, sel.bestAfter));
        WaitForIsFirst(snaps, final, target, skew, k);
        return Some(Waited(Pick(After, sel.bestAfter), true));
      }
    }
    var sel := SelectFrom(final, target, skew);
    var p := sel.AssignFallback(target, skew, final);
    StrikeFoundIff(final, target, skew);
    WaitForIsFirst(snaps, final, target, skew, |snaps|);
    if p.Some? { return Some(Waited(p.value, false)); }
    return None;
  }

  // ---------------------------------------------------------------- waiting on the buffer

  /** The stream at the `k`-th poll, `arrivals[j]` being what came between polls `j - 1` and `j`. */
  function StreamAt(s: seq<Tick>, arrivals: seq<seq<Arrival>>, k: nat): seq<Tick>
    requires k <= |arrivals|
  {
    if k == 0 then s else Received(StreamAt(s, arrivals, k - 1), arrivals[k - 1])
  }

  /** What each poll would see if nothing were ever dropped. */
  function Streams(s: seq<Tick>, arrivals: seq<seq<Arrival>>): (r: seq<seq<Tick>>)
    ensures |r| == |arrivals| && forall k :: 0 <= k < |r| ==> r[k] == StreamAt(s, arrivals, k + 1)
  {
    seq(|arrivals|, k requires 0 <= k < |arrivals| => StreamAt(s, arrivals, k + 1))
  }

  function Buffered(streams: seq<seq<Tick>>): (r: seq<seq<Tick>>)
    ensures |r| == |streams| && forall k :: 0 <= k < |r| ==> r[k] == LastN(streams[k], MAX_BUFFER)
  {
    seq(|streams|, k requires 0 <= k < |streams| => LastN(streams[k], MAX_BUFFER))
  }

  /** Waiting on buffered snapshots gives what waiting on the streams would, as long as no stream's chosen tick has
      been dropped when it is polled. */
  lemma {:induction false} BufferedWaitIsStreamWait(streams: seq<seq<Tick>>, final: seq<Tick>, target: int, skew: int)
    requires forall k :: 0 <= k < |streams| ==> Retained(streams[k], target, skew)
    requires Retained(final, target, skew)
    ensures WaitFor(Buffered(streams), LastN(final, MAX_BUFFER), target, skew) == WaitFor(streams, final, target, skew)
  {
    hide Strike, LastN, Retained;
    if streams == [] {
      BufferYieldsStreamStrike(final, target, skew);
    } else {
      BufferYieldsStreamStrike(streams[0], target, skew);
      BufferedWaitIsStreamWait(streams[1..], final, target, skew);
      assert Buffered(streams)[1..] == Buffered(streams[1..]);
    }
  }

  /** `wait_strike_inner` on the shared buffer, with `arrivals[k]` reaching it before poll `k` and `rest` before the
      snapshot after the deadline: the strike is that of the ticks since the last reconnect, whenever those chosen
      are among the last 900. */
  method WaitOnBuffer(buffer: TickBuffer, arrivals: seq<seq<Arrival>>, rest: seq<Arrival>, target: int, maxSkew: int)
    returns (r: Option<Waited>)
    requires buffer.Valid()
    modifies buffer
    ensures buffer.Valid()
    ensures var skew := Max(maxSkew, 1000);
      var streams := Streams(old(buffer.stream), arrivals);
      var final := Received(StreamAt(old(buffer.stream), arrivals, |arrivals|), rest);
      && r == WaitFor(Buffered(streams), LastN(final, MAX_BUFFER), target, skew)
      && ((forall k :: 0 <= k < |streams| ==> Retained(streams[k], target, skew)) && Retained(final, target, skew)
          ==> r == WaitFor(streams, final, target, skew))
  {
    hide LastN, Retained, WaitFor, Received, HasUsable, Strike, HasAfter;
    ghost var start, skew := buffer.stream, Max(maxSkew, 1000);
    var snaps := [];
    for k := 0 to |arrivals|
      invariant buffer.Valid() && buffer.stream == StreamAt(start, arrivals, k) && |snaps| == k
      invariant forall j :: 0 <= j < k ==> snaps[j] == LastN(StreamAt(start, arrivals, j + 1), MAX_BUFFER)
    {
      buffer.Receive(arrivals[k]);
      snaps := snaps + [buffer.buffer];
    }
    ghost var streams := Streams(start, arrivals);
    assert snaps == Buffered(streams);
    buffer.Receive(rest);
    r := WaitStrike(snaps, buffer.buffer, target, maxSkew);
    if (forall k :: 0 <= k < |streams| ==> Retained(streams[k], target, skew))
       && Retained(buffer.stream, target, skew) {
      BufferedWaitIsStreamWait(streams, buffer.stream, target, skew);
    }
  }
}
