/** The alignment statistics of two merged logs (`print_alignment_stats` of src/replay/timeline_merge.cpp): for
    every trade the delay to the first quote after it in the timeline, within a window. Keys are nanoseconds. */
module Alignment {
  import opened Basics
  import opened Timeline

  const INT64_MAX := 0x7fff_ffff_ffff_ffff

  /** `j` is the first quote after position `i`. */
  ghost predicate IsNextQuote(m: seq<LogEvent>, i: int, j: int) {
    0 <= i < j < |m| && m[j].kind == Quote && forall k :: i < k < j ==> m[k].kind != Quote
  }

  /** The delay from entry `i` to the first quote after it, if that is within the window. */
  function LagFrom(m: seq<LogEvent>, i: nat, j: nat, window: int): Option<int>
    requires i < j <= |m|
    decreases |m| - j
  {
    if j == |m| || m[j].key - m[i].key > window then None
    else if m[j].kind == Quote then Some(m[j].key - m[i].key)
    else LagFrom(m, i, j + 1, window)
  }

  function Lag(m: seq<LogEvent>, i: nat, window: int): Option<int>
    requires i < |m|
  {
    LagFrom(m, i, i + 1, window)
  }

  /** The delays of all trades that have one. */
  function Lags(m: seq<LogEvent>, n: nat, window: int): seq<int>
    requires n <= |m|
  {
    if n == 0 then []
    else
      var l := if m[n - 1].kind == Trade then Lag(m, n - 1, window) else None;
      Lags(m, n - 1, window) + if l.Some? then [l.value] else []
  }

  function Sum(s: seq<int>): int { if s == [] then 0 else Sum(s[..|s| - 1]) + s[|s| - 1] }

  datatype Stats = Stats(pairs: nat, sum: int, min: int, max: int)

  /** The running figures: nothing yet, then one more delay. */
  function Add(s: Stats, d: int): Stats {
    Stats(s.pairs + 1, s.sum + d, Min(s.min, d), Max(s.max, d))
  }

  /** The figures describe the delays `lags`. */
  ghost predicate Describes(s: Stats, lags: seq<int>) {
    && s.pairs == |lags| && s.sum == Sum(lags)
    && (forall k :: 0 <= k < |lags| ==> s.min <= lags[k] <= s.max)
    && (lags == [] ==> s.min == INT64_MAX && s.max == 0)
    && (lags != [] ==> (s.min == INT64_MAX || s.min in lags) && (s.max == 0 || s.max in lags))
  }

  lemma AddDescribes(s: Stats, lags: seq<int>, d: int)
    requires Describes(s, lags)
    ensures Describes(Add(s, d), lags + [d])
  {
    assert (lags + [d])[..|lags|] == lags;
    assert (lags + [d])[|lags|] == d;
  }

  /** The inner loop. */
  method FindLag(m: seq<LogEvent>, i: nat, window: int) returns (lag: Option<int>)
    requires i < |m|
    ensures lag == Lag(m, i, window)
  {
    var t0 := m[i].key;
    var j := i + 1;
    while j < |m|
      invariant i < j <= |m| && Lag(m, i, window) == LagFrom(m, i, j, window)
    {
      if m[j].key - t0 > window { return None; }
      if m[j].kind == Quote { return Some(m[j].key - t0); }
      j := j + 1;
    }
    return None;
  }

  /** The accumulation loop: number, sum, least and greatest of the delays. */
  method AlignmentStats(m: seq<LogEvent>, window: int) returns (s: Stats)
    ensures Describes(s, Lags(m, |m|, window))
  {
    hide Describes, Lag;
    s := Stats(0, 0, INT64_MAX, 0);
    NothingDescribed();
    for i := 0 to |m|
      invariant Describes(s, Lags(m, i, window))
    {
      if m[i].kind == Trade {
        var lag := FindLag(m, i, window);
        if lag.Some? {
          AddDescribes(s, Lags(m, i, window), lag.value);
          s := Add(s, lag.value);
          assert Lags(m, i + 1, window) == Lags(m, i, window) + [lag.value];
        } else {
          assert Lags(m, i + 1, window) == Lags(m, i, window);
        }
      } else {
        assert Lags(m, i + 1, window) == Lags(m, i, window);
      }
    }
  }

  lemma NothingDescribed()
    ensures Describes(Stats(0, 0, INT64_MAX, 0), [])
  {
  }

  // ---------------------------------------------------------------- what a delay is

  lemma {:induction false} LagFromIs(m: seq<LogEvent>, i: nat, j: nat, window: int)
    requires Sorted(m) && i < j <= |m| && forall k :: i < k < j ==> m[k].kind != Quote
    ensures LagFrom(m, i, j, window).Some? <==> exists q :: IsNextQuote(m, i, q) && m[q].key - m[i].key <= window
    ensures LagFrom(m, i, j, window).Some? ==>
      exists q :: IsNextQuote(m, i, q) && m[q].key - m[i].key == LagFrom(m, i, j, window).value
    decreases |m| - j
  {
    if j < |m| {
      if m[j].kind == Quote {
        assert IsNextQuote(m, i, j);
      } else if m[j].key - m[i].key <= window {
        LagFromIs(m, i, j + 1, window);
      }
    }
  }

  /** In a sorted timeline the early exit of the search costs nothing: a trade has a delay exactly when some later
      entry within the window is a quote, and the delay is the least one, between zero and the window. */
  lemma LagIsLeastDelay(m: seq<LogEvent>, i: nat, window: int)
    requires Sorted(m) && i < |m|
    ensures Lag(m, i, window).Some? <==>
      exists q :: i < q < |m| && m[q].kind == Quote && m[q].key - m[i].key <= window
    ensures Lag(m, i, window).Some? ==> 0 <= Lag(m, i, window).value <= window
    ensures Lag(m, i, window).Some? ==>
      forall q :: i < q < |m| && m[q].kind == Quote ==> Lag(m, i, window).value <= m[q].key - m[i].key
  {
    hide LagFrom;
    LagFromIs(m, i, i + 1, window);
    if q :| i < q < |m| && m[q].kind == Quote && m[q].key - m[i].key <= window {
      NextQuoteExists(m, i, q);
    }
    if Lag(m, i, window).Some? {
      var q :| IsNextQuote(m, i, q) && m[q].key - m[i].key == Lag(m, i, window).value;
    }
  }

  lemma {:induction false} NextQuoteExists(m: seq<LogEvent>, i: nat, q: nat)
    requires Sorted(m) && i < q < |m| && m[q].kind == Quote
    ensures exists r :: r <= q && IsNextQuote(m, i, r)
    decreases q
  {
    if k :| i < k < q && m[k].kind == Quote {
      NextQuoteExists(m, i, k);
    } else {
      assert IsNextQuote(m, i, q);
    }
  }

  // ---------------------------------------------------------------- the order of ties

  /** Every sorted order of the same entries gives this trade the same delay. */
  ghost predicate LagFixed(m: seq<LogEvent>, i: nat, window: int)
    requires i < |m|
  {
    forall m': seq<LogEvent>, i': nat ::
      Sorted(m') && multiset(m') == multiset(m) && i' < |m'| && m'[i'] == m[i] ==>
        Lag(m', i', window) == Lag(m, i, window)
  }

  predicate IsQuoteAt(e: LogEvent, key: int) { e.key == key && e.kind == Quote }

  ghost predicate QuoteAt(m: seq<LogEvent>, key: int) { exists j :: 0 <= j < |m| && IsQuoteAt(m[j], key) }

  lemma SameEntry(m: seq<LogEvent>, m': seq<LogEvent>, j: nat)
    requires multiset(m') == multiset(m) && j < |m|
    ensures m[j] in m'
  {
    assert m[j] in multiset(m');
  }

  /** Without a quote at the time of the trade the delay is at most that of any other order. */
  lemma LagNoWorse(m: seq<LogEvent>, i: nat, m': seq<LogEvent>, i': nat, window: int)
    requires Sorted(m) && Sorted(m') && multiset(m') == multiset(m)
    requires i < |m| && i' < |m'| && m'[i'] == m[i] && !QuoteAt(m, m[i].key) && Lag(m', i', window).Some?
    ensures Lag(m, i, window).Some? && Lag(m, i, window).value <= Lag(m', i', window).value
  {
    hide Lag, LagFrom;
    LagIsLeastDelay(m', i', window);
    LagIsLeastDelay(m, i, window);
    NextQuoteOf(m', i', window);
    var q :| i' < q < |m'| && m'[q].kind == Quote && m'[q].key - m'[i'].key == Lag(m', i', window).value;
    SameEntry(m', m, q);
    var r :| 0 <= r < |m| && m[r] == m'[q];
    assert IsQuoteAt(m[r], m[r].key);
    assert m[r].key != m[i].key;
    assert m'[i'].key <= m'[q].key;
    assert r > i;
  }

  lemma NextQuoteOf(m: seq<LogEvent>, i: nat, window: int)
    requires Sorted(m) && i < |m| && Lag(m, i, window).Some?
    ensures exists q :: i < q < |m| && m[q].kind == Quote && m[q].key - m[i].key == Lag(m, i, window).value
  {
    hide LagFrom;
    LagFromIs(m, i, i + 1, window);
    var q :| IsNextQuote(m, i, q) && m[q].key - m[i].key == Lag(m, i, window).value;
  }

  lemma {:induction false} FirstOfTie(m: seq<LogEvent>, i: nat) returns (f: nat)
    requires i < |m|
    ensures f <= i && forall k :: f <= k <= i ==> m[k].key == m[i].key
    ensures f > 0 ==> m[f - 1].key != m[i].key
  {
    f := i;
    while f > 0 && m[f - 1].key == m[i].key
      invariant f <= i && forall k :: f <= k <= i ==> m[k].key == m[i].key
    {
      f := f - 1;
    }
  }

  lemma {:induction false} LastOfTie(m: seq<LogEvent>, i: nat) returns (l: nat)
    requires i < |m|
    ensures i <= l < |m| && forall k :: i <= k <= l ==> m[k].key == m[i].key
    ensures l + 1 < |m| ==> m[l + 1].key != m[i].key
  {
    l := i;
    while l + 1 < |m| && m[l + 1].key == m[i].key
      invariant i <= l < |m| && forall k :: i <= k <= l ==> m[k].key == m[i].key
    {
      l := l + 1;
    }
  }

  /** With the trade first among its ties the delay is zero, with it last it is not. */
  lemma TieDecides(m: seq<LogEvent>, i: nat, j: nat, window: int)
    requires Sorted(m) && i < |m| && j < |m| && m[i].kind == Trade && IsQuoteAt(m[j], m[i].key) && window >= 0
    ensures !LagFixed(m, i, window)
  {
    hide Lag, LagFrom, Swapped, LagFixed;
    var f := FirstOfTie(m, i);
    var l := LastOfTie(m, i);
    assert f <= j <= l;
    SwappedSorted(m, i, f);
    SwappedSorted(m, i, l);
    TradeFirst(m, i, j, f, window);
    TradeLast(m, i, l, window);
    if LagFixed(m, i, window) {
      FixedMeansSame(m, i, Swapped(m, i, f), f, window);
      FixedMeansSame(m, i, Swapped(m, i, l), l, window);
      assert false;
    }
  }

  lemma FixedMeansSame(m: seq<LogEvent>, i: nat, m': seq<LogEvent>, i': nat, window: int)
    requires i < |m| && LagFixed(m, i, window)
    requires Sorted(m') && multiset(m') == multiset(m) && i' < |m'| && m'[i'] == m[i]
    ensures Lag(m', i', window) == Lag(m, i, window)
  {
  }

  lemma TradeFirst(m: seq<LogEvent>, i: nat, j: nat, f: nat, window: int)
    requires Sorted(m) && f <= i < |m| && f <= j < |m| && m[i].kind == Trade && window >= 0
    requires m[f].key == m[i].key && IsQuoteAt(m[j], m[i].key)
    ensures f < |Swapped(m, i, f)| && Swapped(m, i, f)[f] == m[i] && Lag(Swapped(m, i, f), f, window) == Some(0)
  {
    hide Lag, LagFrom;
    var m' := Swapped(m, i, f);
    SwappedSorted(m, i, f);
    LagIsLeastDelay(m', f, window);
    var q := if j == f then i else j;
    assert q > f && m'[q] == m[j];
  }

  lemma TradeLast(m: seq<LogEvent>, i: nat, l: nat, window: int)
    requires Sorted(m) && i <= l < |m| && m[l].key == m[i].key && (l + 1 < |m| ==> m[l + 1].key != m[i].key)
    ensures l < |Swapped(m, i, l)| && Swapped(m, i, l)[l] == m[i] && Lag(Swapped(m, i, l), l, window) != Some(0)
  {
    hide Lag, LagFrom;
    var m' := Swapped(m, i, l);
    SwappedSorted(m, i, l);
    assert forall k :: l < k < |m| ==> m'[k] == m[k] && m[k].key > m[i].key;
    if Lag(m', l, window) == Some(0) {
      NextQuoteOf(m', l, window);
      assert false;
    }
  }

  /** One trade and one quote at the same time: whether the trade has a delay depends on which comes first. */
  lemma LagDependsOnTies(window: int)
    requires window >= 0
    ensures var t, q := LogEvent(0, Trade, 0.0), LogEvent(0, Quote, 0.5);
      && Sorted([t, q]) && Sorted([q, t]) && multiset([t, q]) == multiset([q, t])
      && Lag([t, q], 0, window) == Some(0) && Lag([q, t], 1, window) == None
  {
  }

  lemma NegativeWindowFindsNothing(m: seq<LogEvent>, i: nat, window: int)
    requires Sorted(m) && i < |m| && window < 0
    ensures Lag(m, i, window) == None
  {
  }

  /** The delay of a trade is independent of how the unstable sort orders ties exactly when no quote carries the
      trade's own time, or the window is negative and admits no delay at all. */
  lemma LagFixedIff(m: seq<LogEvent>, i: nat, window: int)
    requires Sorted(m) && i < |m| && m[i].kind == Trade
    ensures LagFixed(m, i, window) <==> window < 0 || !QuoteAt(m, m[i].key)
  {
    hide Lag, LagFrom;
    if window < 0 {
      forall m': seq<LogEvent>, i': nat | Sorted(m') && multiset(m') == multiset(m) && i' < |m'| && m'[i'] == m[i]
        ensures Lag(m', i', window) == Lag(m, i, window)
      {
        NegativeWindowFindsNothing(m, i, window);
        NegativeWindowFindsNothing(m', i', window);
      }
    } else if QuoteAt(m, m[i].key) {
      hide LagFixed;
      var j :| 0 <= j < |m| && IsQuoteAt(m[j], m[i].key);
      TieDecides(m, i, j, window);
    } else {
      forall m': seq<LogEvent>, i': nat | Sorted(m') && multiset(m') == multiset(m) && i' < |m'| && m'[i'] == m[i]
        ensures Lag(m', i', window) == Lag(m, i, window)
      {
        assert !QuoteAt(m', m[i].key) by {
          if j :| 0 <= j < |m'| && IsQuoteAt(m'[j], m[i].key) {
            SameEntry(m', m, j);
          }
        }
        if Lag(m', i', window).Some? { LagNoWorse(m, i, m', i', window); }
        if Lag(m, i, window).Some? { LagNoWorse(m', i', m, i, window); }
      }
    }
  }

  // ---------------------------------------------------------------- which delays are counted

  /** Entry `i` is a trade, and some later entry no further off than the window is a quote. */
  ghost predicate HasDelay(m: seq<LogEvent>, window: int, i: int) {
    && 0 <= i < |m| && m[i].kind == Trade
    && exists q :: i < q < |m| && m[q].kind == Quote && m[q].key <= m[i].key + window
  }

  /** `at` are the positions below `n` of the trades that have a delay, in order. */
  ghost predicate DelayedTrades(m: seq<LogEvent>, n: nat, window: int, at: seq<nat>) {
    && (forall i, j :: 0 <= i < j < |at| ==> at[i] < at[j])
    && (forall k :: 0 <= k < |at| ==> at[k] < n && HasDelay(m, window, at[k]))
    && (forall i: nat :: i < n && HasDelay(m, window, i) ==> i in at)
  }

  lemma HasDelayIff(m: seq<LogEvent>, window: int, i: nat)
    requires Sorted(m) && i < |m|
    ensures HasDelay(m, window, i) <==> m[i].kind == Trade && Lag(m, i, window).Some?
  {
    hide Lag;
    LagIsLeastDelay(m, i, window);
    if q :| i < q < |m| && m[q].kind == Quote && m[q].key <= m[i].key + window {
      assert m[q].key - m[i].key <= window;
    }
  }

  lemma DelayedStep(m: seq<LogEvent>, n: nat, window: int, before: seq<nat>) returns (at: seq<nat>)
    requires n < |m| && DelayedTrades(m, n, window, before)
    ensures DelayedTrades(m, n + 1, window, at)
    ensures at == if HasDelay(m, window, n) then before + [n] else before
  {
    hide HasDelay;
    at := if HasDelay(m, window, n) then before + [n] else before;
    assert at != before ==> at[|at| - 1] == n;
    forall i: nat | i < n + 1 && HasDelay(m, window, i) ensures i in at {
      if i < n { assert i in before; }
    }
  }

  lemma LagsStep(m: seq<LogEvent>, n: nat, window: int)
    requires Sorted(m) && n < |m|
    ensures if HasDelay(m, window, n)
            then Lag(m, n, window).Some? && Lags(m, n + 1, window) == Lags(m, n, window) + [Lag(m, n, window).value]
            else Lags(m, n + 1, window) == Lags(m, n, window)
  {
    hide HasDelay, Lag;
    HasDelayIff(m, window, n);
  }

  /** The delays that enter the figures are those of the trades that have one, each once and in order. */
  lemma {:induction false} LagsAreOfTrades(m: seq<LogEvent>, n: nat, window: int) returns (at: seq<nat>)
    requires Sorted(m) && n <= |m|
    ensures DelayedTrades(m, n, window, at) && DelaysAt(m, window, at, Lags(m, n, window))
  {
    hide *;
    if n == 0 {
      at := [];
      NoDelays(m, window);
    } else {
      var before := LagsAreOfTrades(m, n - 1, window);
      at := DelayedStep(m, n - 1, window, before);
      LagsStep(m, n - 1, window);
      if HasDelay(m, window, n - 1) { DelaysStep(m, window, before, Lags(m, n - 1, window), n - 1); }
    }
  }

  /** `lags` are the delays of the entries at the positions `at`. */
  ghost predicate DelaysAt(m: seq<LogEvent>, window: int, at: seq<nat>, lags: seq<int>) {
    |lags| == |at| && forall k :: 0 <= k < |at| ==> at[k] < |m| && Lag(m, at[k], window) == Some(lags[k])
  }

  lemma NoDelays(m: seq<LogEvent>, window: int)
    ensures DelayedTrades(m, 0, window, []) && DelaysAt(m, window, [], Lags(m, 0, window))
  {
  }

  lemma DelaysStep(m: seq<LogEvent>, window: int, at: seq<nat>, lags: seq<int>, n: nat)
    requires DelaysAt(m, window, at, lags) && n < |m| && Lag(m, n, window).Some?
    ensures DelaysAt(m, window, at + [n], lags + [Lag(m, n, window).value])
  {
  }

  /** The sum lies between the number of delays times the least and times the greatest of them. */
  lemma {:induction false} SumBetween(lags: seq<int>, low: int, high: int)
    requires forall k :: 0 <= k < |lags| ==> low <= lags[k] <= high
    ensures |lags| * low <= Sum(lags) <= |lags| * high
  {
    if lags != [] {
      SumBetween(lags[..|lags| - 1], low, high);
      assert |lags| * low == (|lags| - 1) * low + low && |lags| * high == (|lags| - 1) * high + high;
    }
  }

  /** The figures of a sorted timeline: the number of trades with a delay, and their least, mean and greatest delay in
      order, all within the window. */
  lemma FiguresInOrder(m: seq<LogEvent>, window: int, s: Stats)
    requires Sorted(m) && Describes(s, Lags(m, |m|, window)) && s.pairs > 0
    ensures s.pairs * s.min <= s.sum <= s.pairs * s.max
    ensures 0 <= s.max <= window && (s.min == INT64_MAX || 0 <= s.min <= s.max)
    ensures exists at :: DelayedTrades(m, |m|, window, at) && |at| == s.pairs
  {
    hide DelayedTrades, Lags, Lag;
    var lags := Lags(m, |m|, window);
    var at := LagsAreOfTrades(m, |m|, window);
    SumBetween(lags, s.min, s.max);
    forall k | 0 <= k < |lags| ensures 0 <= lags[k] <= window {
      LagIsLeastDelay(m, at[k], window);
    }
    assert s.min <= lags[0] <= s.max;
  }
}
