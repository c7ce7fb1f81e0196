/** The replay back-test: the search for the first quote at or after a time, and the
    latency sweep (src/replay/timeline_merge.cpp, src/sim/latency_backtest.cpp). Keys are nanoseconds,
    prices and profit are reals. */
module LatencySweep {
  import opened Basics
  import opened Timeline

  datatype Config = Config(latenciesMs: seq<int>, feeBps: real, slippageBps: real, missProbability: real,
                           exitHorizonMs: int)

  datatype SimRow = SimRow(latencyMs: int, attempts: int, fills: int, pnl: real)

  // ---------------------------------------------------------------- first quote at or after a time

  predicate QuoteFrom(e: LogEvent, t: int) { e.kind.Quote? && e.key >= t }

  /** `i` is the first quote of the timeline with key at least `t`. */
  ghost predicate IsFirstQuote(m: seq<LogEvent>, t: int, i: nat) {
    i < |m| && QuoteFrom(m[i], t) && forall j :: 0 <= j < i ==> !QuoteFrom(m[j], t)
  }

  /** The index of the first quote with key at least `t`, by plain search. */
  function FirstQuote(m: seq<LogEvent>, t: int): (r: Option<nat>)
    ensures r.Some? ==> IsFirstQuote(m, t, r.value)
    ensures r.None? ==> forall j :: 0 <= j < |m| ==> !QuoteFrom(m[j], t)
  {
    if m == [] then None
    else if QuoteFrom(m[0], t) then Some(0)
    else
      var rest := FirstQuote(m[1..], t);
      if rest.Some? then Some(rest.value + 1) else None
  }

  /** `first_poly_at_or_after`: binary search for the key, then a scan for a quote. */
  method FirstPolyAtOrAfter(m: seq<LogEvent>, t: int) returns (r: Option<nat>)
    requires Sorted(m)
    ensures r == FirstQuote(m, t)
  {
    var lo: nat, hi: nat := 0, |m|;
    while lo < hi
      invariant lo <= hi <= |m|
      invariant forall j :: 0 <= j < lo ==> m[j].key < t
      invariant forall j :: hi <= j < |m| ==> m[j].key >= t
    {
      var mid := lo + (hi - lo) / 2;
      if m[mid].key < t { lo := mid + 1; } else { hi := mid; }
    }
    var it := lo;
    while it < |m|
      invariant it <= |m|
      invariant forall j :: 0 <= j < it ==> !QuoteFrom(m[j], t)
    {
      if m[it].kind.Quote? { return Some(it); }
      it := it + 1;
    }
    return None;
  }

  /** The key of the first quote at or after `t`. */
  function QuoteKey(m: seq<LogEvent>, t: int): Option<int> {
    var i := FirstQuote(m, t);
    if i.Some? then Some(m[i.value].key) else None
  }

  // ---------------------------------------------------------------- one signal

  /** `deterministic_miss`: a 32-bit multiplicative hash of the signal index against the probability. */
  predicate Missed(si: nat, p: real) {
    p > 0.0 && ((si * 2654435761) % 0x1_0000_0000 % 10000) as real / 10000.0 < p
  }

  /** Entry and exit quote of a signal at the given latency. */
  function Trade(m: seq<LogEvent>, at: int, latencyMs: int, horizonMs: int): Option<(nat, nat)> {
    var e0 := FirstQuote(m, at + latencyMs * 1000000);
    if e0.None? then None
    else
      var e1 := FirstQuote(m, m[e0.value].key + horizonMs * 1000000);
      if e1.None? then None else Some((e0.value, e1.value))
  }

  /** The entry and exit times of a signal. */
  function TradeKeys(m: seq<LogEvent>, at: int, latencyMs: int, horizonMs: int): Option<(int, int)> {
    var tr := Trade(m, at, latencyMs, horizonMs);
    if tr.Some? then Some((m[tr.value.0].key, m[tr.value.1].key)) else None
  }

  predicate Fills(m: seq<LogEvent>, at: int, si: nat, latencyMs: int, c: Config) {
    !Missed(si, c.missProbability) && Trade(m, at, latencyMs, c.exitHorizonMs).Some?
  }

  function CostFraction(c: Config): real { c.feeBps / 10000.0 * 2.0 + c.slippageBps / 10000.0 }

  /** Profit of the first `n` signals. */
  function Profit(m: seq<LogEvent>, signals: seq<int>, n: nat, latencyMs: int, c: Config): real
    requires n <= |signals|
  {
    if n == 0 then 0.0
    else
      var before := Profit(m, signals, n - 1, latencyMs, c);
      if Fills(m, signals[n - 1], n - 1, latencyMs, c) then
        var tr := Trade(m, signals[n - 1], latencyMs, c.exitHorizonMs).value;
        before + (m[tr.1].mid - m[tr.0].mid - CostFraction(c))
      else before
  }

  /** Fills among the first `n` signals. */
  function FillCount(m: seq<LogEvent>, signals: seq<int>, n: nat, latencyMs: int, c: Config): nat
    requires n <= |signals|
  {
    if n == 0 then 0
    else FillCount(m, signals, n - 1, latencyMs, c) + (if Fills(m, signals[n - 1], n - 1, latencyMs, c) then 1 else 0)
  }

  function RowFor(m: seq<LogEvent>, signals: seq<int>, latencyMs: int, c: Config): SimRow {
    SimRow(latencyMs, |signals|, FillCount(m, signals, |signals|, latencyMs, c),
           Profit(m, signals, |signals|, latencyMs, c))
  }

  /** `run_latency_sweep`; a signal is its time. */
  method RunLatencySweep(signals: seq<int>, m: seq<LogEvent>, c: Config) returns (rows: seq<SimRow>)
    requires Sorted(m)
    ensures |rows| == |c.latenciesMs|
    ensures forall k :: 0 <= k < |rows| ==> rows[k] == RowFor(m, signals, c.latenciesMs[k], c)
  {
    rows := [];
    for k := 0 to |c.latenciesMs|
      invariant |rows| == k
      invariant forall j :: 0 <= j < k ==> rows[j] == RowFor(m, signals, c.latenciesMs[j], c)
    {
      var row := SweepOne(signals, m, c, c.latenciesMs[k]);
      rows := rows + [row];
    }
  }

  method SweepOne(signals: seq<int>, m: seq<LogEvent>, c: Config, latencyMs: int) returns (row: SimRow)
    requires Sorted(m)
    ensures row == RowFor(m, signals, latencyMs, c)
  {
    hide Missed, FirstQuote;
    var feeFrac := c.feeBps / 10000.0 * 2.0;
    var slipFrac := c.slippageBps / 10000.0;
    var attempts, fills, pnl := 0, 0, 0.0;
    for si := 0 to |signals|
      invariant attempts == si
      invariant fills == FillCount(m, signals, si, latencyMs, c)
      invariant pnl == Profit(m, signals, si, latencyMs, c)
    {
      attempts := attempts + 1;
      if Missed(si, c.missProbability) { continue; }
      var entryNs := signals[si] + latencyMs * 1000000;
      var e0 := FirstPolyAtOrAfter(m, entryNs);
      if e0.None? { continue; }
      var exitNs := m[e0.value].key + c.exitHorizonMs * 1000000;
      var e1 := FirstPolyAtOrAfter(m, exitNs);
      if e1.None? { continue; }
      var raw := m[e1.value].mid - m[e0.value].mid;
      var adj := raw - feeFrac - slipFrac;
      pnl := pnl + adj;
      fills := fills + 1;
    }
    return SimRow(latencyMs, attempts, fills, pnl);
  }

  // ---------------------------------------------------------------- latency

  /** A later start finds a later quote, and finds one only if the earlier start does. */
  lemma LaterStartLaterQuote(m: seq<LogEvent>, t: int, u: int)
    requires Sorted(m) && t <= u && QuoteKey(m, u).Some?
    ensures QuoteKey(m, t).Some? && QuoteKey(m, t).value <= QuoteKey(m, u).value
  {
    var i, j := FirstQuote(m, t), FirstQuote(m, u);
    assert QuoteFrom(m[j.value], t);
  }

  lemma FillsAtLowerLatency(m: seq<LogEvent>, at: int, si: nat, low: int, high: int, c: Config)
    requires Sorted(m) && low <= high && Fills(m, at, si, high, c)
    ensures Fills(m, at, si, low, c)
  {
    hide FirstQuote, Missed;
    var t, u := at + low * 1000000, at + high * 1000000;
    LaterStartLaterQuote(m, t, u);
    var horizon := c.exitHorizonMs * 1000000;
    LaterStartLaterQuote(m, QuoteKey(m, t).value + horizon, QuoteKey(m, u).value + horizon);
  }

  lemma {:induction false} FillCountAntitone(m: seq<LogEvent>, signals: seq<int>, n: nat, low: int, high: int,
                                            c: Config)
    requires Sorted(m) && low <= high && n <= |signals|
    ensures FillCount(m, signals, n, high, c) <= FillCount(m, signals, n, low, c) <= n
  {
    hide Fills;
    if n > 0 {
      FillCountAntitone(m, signals, n - 1, low, high, c);
      if Fills(m, signals[n - 1], n - 1, high, c) { FillsAtLowerLatency(m, signals[n - 1], n - 1, low, high, c); }
    }
  }

  /** Over any signals and timeline every latency attempts every signal, and more latency never fills more. */
  lemma MoreLatencyNeverFillsMore(m: seq<LogEvent>, signals: seq<int>, low: int, high: int, c: Config)
    requires Sorted(m) && low <= high
    ensures var a, b := RowFor(m, signals, low, c), RowFor(m, signals, high, c);
      a.attempts == b.attempts == |signals| && b.fills <= a.fills <= a.attempts
  {
    FillCountAntitone(m, signals, |signals|, low, high, c);
  }

  // ---------------------------------------------------------------- the order of ties

  /** The first quote's key depends only on which events there are, not on the order of equal keys. */
  lemma QuoteKeyIgnoresTies(m: seq<LogEvent>, m': seq<LogEvent>, t: int)
    requires Sorted(m) && Sorted(m') && multiset(m) == multiset(m')
    ensures QuoteKey(m, t) == QuoteKey(m', t)
  {
    QuoteKeyNoLater(m, m', t);
    QuoteKeyNoLater(m', m, t);
  }

  lemma QuoteKeyNoLater(m: seq<LogEvent>, m': seq<LogEvent>, t: int)
    requires Sorted(m) && multiset(m) == multiset(m')
    ensures QuoteKey(m', t).Some? ==> QuoteKey(m, t).Some? && QuoteKey(m, t).value <= QuoteKey(m', t).value
  {
    var j := FirstQuote(m', t);
    if j.Some? {
      assert m'[j.value] in multiset(m');
      assert m'[j.value] in multiset(m);
      var k :| 0 <= k < |m| && m[k] == m'[j.value];
      assert QuoteFrom(m[k], t);
      assert FirstQuote(m, t).value <= k;
    }
  }

  /** Entry and exit times are the same in every sorted order of the same events. */
  lemma TradeKeysIgnoreTies(m: seq<LogEvent>, m': seq<LogEvent>, at: int, latencyMs: int, horizonMs: int)
    requires Sorted(m) && Sorted(m') && multiset(m) == multiset(m')
    ensures TradeKeys(m, at, latencyMs, horizonMs) == TradeKeys(m', at, latencyMs, horizonMs)
  {
    hide FirstQuote;
    var t := at + latencyMs * 1000000;
    QuoteKeyIgnoresTies(m, m', t);
    if QuoteKey(m, t).Some? { QuoteKeyIgnoresTies(m, m', QuoteKey(m, t).value + horizonMs * 1000000); }
  }

  lemma {:induction false} FillCountIgnoresTies(m: seq<LogEvent>, m': seq<LogEvent>, signals: seq<int>, n: nat,
                                                latencyMs: int, c: Config)
    requires Sorted(m) && Sorted(m') && multiset(m) == multiset(m') && n <= |signals|
    ensures FillCount(m, signals, n, latencyMs, c) == FillCount(m', signals, n, latencyMs, c)
  {
    hide Missed, Trade;
    if n > 0 {
      FillCountIgnoresTies(m, m', signals, n - 1, latencyMs, c);
      TradeKeysIgnoreTies(m, m', signals[n - 1], latencyMs, c.exitHorizonMs);
    }
  }

  /** Whatever order the sort leaves ties in, every row of the sweep has the same attempts and fills. */
  lemma SweepIgnoresTies(a: seq<LogEvent>, b: seq<LogEvent>, m: seq<LogEvent>, m': seq<LogEvent>,
                         signals: seq<int>, latencyMs: int, c: Config)
    requires IsMerge(a, b, m) && IsMerge(a, b, m')
    ensures RowFor(m, signals, latencyMs, c).(pnl := 0.0) == RowFor(m', signals, latencyMs, c).(pnl := 0.0)
  {
    FillCountIgnoresTies(m, m', signals, |signals|, latencyMs, c);
  }

  /** The profit is not protected in the same way: two quotes at one time make it depend on their order.
      `SignalProfitFixedIff` and `ProfitFixedIff` say exactly when it does not. */
  lemma ProfitDependsOnTies()
    ensures exists m: seq<LogEvent>, m': seq<LogEvent>, c: Config, signals: seq<int> ::
      Sorted(m) && Sorted(m') && multiset(m) == multiset(m') &&
      Profit(m, signals, |signals|, 0, c) != Profit(m', signals, |signals|, 0, c)
  {
    var x, y, z := LogEvent(0, Quote, 0.4), LogEvent(0, Quote, 0.6), LogEvent(1000000, Quote, 0.5);
    var m, m' := [x, y, z], [y, x, z];
    var c := Config([0], 0.0, 0.0, 0.0, 1);
    var signals := [0];
    assert FirstQuote(m, 0) == Some(0) && FirstQuote(m', 0) == Some(0);
    assert IsFirstQuote(m, 1000000, 2) && IsFirstQuote(m', 1000000, 2);
    assert FirstQuote(m, 1000000) == Some(2) && FirstQuote(m', 1000000) == Some(2);
    assert Trade(m, 0, 0, 1) == Some((0, 2)) && Trade(m', 0, 0, 1) == Some((0, 2));
    assert Profit(m, signals, 0, 0, c) == 0.0 && Profit(m', signals, 0, 0, c) == 0.0;
    assert Profit(m, signals, 1, 0, c) == 0.1;
    assert Profit(m', signals, 1, 0, c) == -0.1;
  }

  /** Every sorted order of the same events gives the first quote at or after `t` the same mid price. */
  ghost predicate PriceFixed(m: seq<LogEvent>, t: int)
    requires FirstQuote(m, t).Some?
  {
    forall m': seq<LogEvent> :: Sorted(m') && multiset(m') == multiset(m) ==>
      FirstQuote(m', t).Some? && m'[FirstQuote(m', t).value].mid == m[FirstQuote(m, t).value].mid
  }

  /** All quotes with the key of entry `i` have its mid price. */
  ghost predicate TiesAgreeWith(m: seq<LogEvent>, i: nat)
    requires i < |m|
  {
    forall j :: 0 <= j < |m| && m[j].kind.Quote? && m[j].key == m[i].key ==> m[j].mid == m[i].mid
  }

  /** All quotes at the time of the first one at or after `t` have its mid price. */
  ghost predicate FirstTiesAgree(m: seq<LogEvent>, t: int)
    requires FirstQuote(m, t).Some?
  {
    TiesAgreeWith(m, FirstQuote(m, t).value)
  }

  lemma SwappedTie(m: seq<LogEvent>, t: int, i: nat, j: nat)
    requires Sorted(m) && FirstQuote(m, t) == Some(i) && j < |m| && m[j].kind.Quote? && m[j].key == m[i].key
    ensures var m' := Swapped(m, i, j);
      Sorted(m') && multiset(m') == multiset(m) && FirstQuote(m', t) == Some(i) && m'[i] == m[j]
  {
    hide FirstQuote;
    var m' := Swapped(m, i, j);
    SwappedSorted(m, i, j);
    assert j >= i;
    assert QuoteFrom(m'[i], t);
    var k := FirstQuote(m', t).value;
    assert k <= i;
    assert forall x :: 0 <= x < i ==> m'[x] == m[x];
  }

  /** Exactly when the price of a trade leg does not depend on the order of ties. */
  lemma PriceFixedIff(m: seq<LogEvent>, t: int)
    requires Sorted(m) && FirstQuote(m, t).Some?
    ensures PriceFixed(m, t) <==> FirstTiesAgree(m, t)
  {
    hide FirstQuote, Swapped;
    var i := FirstQuote(m, t).value;
    if PriceFixed(m, t) {
      forall j | 0 <= j < |m| && m[j].kind.Quote? && m[j].key == m[i].key ensures m[j].mid == m[i].mid {
        SwappedTie(m, t, i, j);
      }
    }
    if FirstTiesAgree(m, t) {
      forall m': seq<LogEvent> | Sorted(m') && multiset(m') == multiset(m)
        ensures FirstQuote(m', t).Some? && m'[FirstQuote(m', t).value].mid == m[i].mid
      {
        QuoteKeyIgnoresTies(m, m', t);
        var i' := FirstQuote(m', t).value;
        assert m'[i'] in multiset(m);
      }
    }
  }

  // ---------------------------------------------------------------- profit and ties

  /** The price difference a filled signal earns, before costs. */
  function Spread(m: seq<LogEvent>, at: int, latencyMs: int, horizonMs: int): real
    requires Trade(m, at, latencyMs, horizonMs).Some?
  {
    var tr := Trade(m, at, latencyMs, horizonMs).value;
    m[tr.1].mid - m[tr.0].mid
  }

  /** The signal earns the same in every sorted order of the same events. */
  ghost predicate SignalProfitFixed(m: seq<LogEvent>, at: int, latencyMs: int, horizonMs: int)
    requires Trade(m, at, latencyMs, horizonMs).Some?
  {
    forall m': seq<LogEvent> :: Sorted(m') && multiset(m') == multiset(m) ==>
      Trade(m', at, latencyMs, horizonMs).Some?
      && Spread(m', at, latencyMs, horizonMs) == Spread(m, at, latencyMs, horizonMs)
  }

  /** Entry and exit are one and the same quote, or neither has a simultaneous quote at another price. */
  ghost predicate SpreadSafe(m: seq<LogEvent>, at: int, latencyMs: int, horizonMs: int)
    requires Trade(m, at, latencyMs, horizonMs).Some?
  {
    var tr := Trade(m, at, latencyMs, horizonMs).value;
    tr.0 == tr.1 || (TiesAgreeWith(m, tr.0) && TiesAgreeWith(m, tr.1))
  }

  lemma FirstQuoteIs(m: seq<LogEvent>, t: int, i: nat)
    requires IsFirstQuote(m, t, i)
    ensures FirstQuote(m, t) == Some(i)
  {
    hide FirstQuote;
    var k := FirstQuote(m, t).value;
    assert !(k < i) && !(i < k);
  }

  /** Searches that find quotes of one time find the same quote. */
  lemma SameKeySameQuote(m: seq<LogEvent>, t: int, u: int)
    requires Sorted(m) && FirstQuote(m, t).Some? && FirstQuote(m, u).Some?
    requires m[FirstQuote(m, t).value].key == m[FirstQuote(m, u).value].key
    ensures FirstQuote(m, t) == FirstQuote(m, u)
  {
    hide FirstQuote;
  }

  /** Exchanging two simultaneous quotes leaves the search that finds a quote of another time alone. */
  lemma OtherSearchUnmoved(m: seq<LogEvent>, u: int, i: nat, j: nat)
    requires Sorted(m) && FirstQuote(m, u).Some? && i <= j < |m|
    requires m[i].kind.Quote? && m[j].kind.Quote? && m[j].key == m[i].key != m[FirstQuote(m, u).value].key
    ensures var m', k := Swapped(m, i, j), FirstQuote(m, u).value;
      FirstQuote(m', u) == Some(k) && m'[k] == m[k]
  {
    hide FirstQuote;
    var m', k := Swapped(m, i, j), FirstQuote(m, u).value;
    assert forall x :: 0 <= x < k && x != i && x != j ==> m'[x] == m[x];
    assert i < k ==> !QuoteFrom(m[i], u);
    FirstQuoteIs(m', u, k);
  }

  lemma EntryMustAgree(m: seq<LogEvent>, at: int, latencyMs: int, horizonMs: int, j: nat)
    requires Sorted(m) && Trade(m, at, latencyMs, horizonMs).Some? && SignalProfitFixed(m, at, latencyMs, horizonMs)
    requires var tr := Trade(m, at, latencyMs, horizonMs).value;
      tr.0 != tr.1 && j < |m| && m[j].kind.Quote? && m[j].key == m[tr.0].key
    ensures m[j].mid == m[Trade(m, at, latencyMs, horizonMs).value.0].mid
  {
    hide FirstQuote, Swapped;
    var tr := Trade(m, at, latencyMs, horizonMs).value;
    var t, u := at + latencyMs * 1000000, m[tr.0].key + horizonMs * 1000000;
    if m[tr.0].key == m[tr.1].key { SameKeySameQuote(m, t, u); }
    SwappedTie(m, t, tr.0, j);
    OtherSearchUnmoved(m, u, tr.0, j);
    assert Trade(Swapped(m, tr.0, j), at, latencyMs, horizonMs) == Some(tr);
  }

  lemma ExitMustAgree(m: seq<LogEvent>, at: int, latencyMs: int, horizonMs: int, j: nat)
    requires Sorted(m) && Trade(m, at, latencyMs, horizonMs).Some? && SignalProfitFixed(m, at, latencyMs, horizonMs)
    requires var tr := Trade(m, at, latencyMs, horizonMs).value;
      tr.0 != tr.1 && j < |m| && m[j].kind.Quote? && m[j].key == m[tr.1].key
    ensures m[j].mid == m[Trade(m, at, latencyMs, horizonMs).value.1].mid
  {
    hide FirstQuote, Swapped;
    var tr := Trade(m, at, latencyMs, horizonMs).value;
    var t, u := at + latencyMs * 1000000, m[tr.0].key + horizonMs * 1000000;
    if m[tr.0].key == m[tr.1].key { SameKeySameQuote(m, t, u); }
    SwappedTie(m, u, tr.1, j);
    OtherSearchUnmoved(m, t, tr.1, j);
    assert Trade(Swapped(m, tr.1, j), at, latencyMs, horizonMs) == Some(tr);
  }

  /** Safe signals earn the same in any other sorted order. */
  lemma SafeSpreadIsFixed(m: seq<LogEvent>, m': seq<LogEvent>, at: int, latencyMs: int, horizonMs: int)
    requires Sorted(m) && Sorted(m') && multiset(m') == multiset(m)
    requires Trade(m, at, latencyMs, horizonMs).Some? && SpreadSafe(m, at, latencyMs, horizonMs)
    ensures Trade(m', at, latencyMs, horizonMs).Some?
    ensures Spread(m', at, latencyMs, horizonMs) == Spread(m, at, latencyMs, horizonMs)
  {
    hide FirstQuote;
    TradeKeysIgnoreTies(m, m', at, latencyMs, horizonMs);
    var tr, tr' := Trade(m, at, latencyMs, horizonMs).value, Trade(m', at, latencyMs, horizonMs).value;
    if tr.0 == tr.1 {
      SameKeySameQuote(m', at + latencyMs * 1000000, m'[tr'.0].key + horizonMs * 1000000);
    } else {
      AgreeingMid(m, m', tr.0, tr'.0);
      AgreeingMid(m, m', tr.1, tr'.1);
    }
  }

  lemma AgreeingMid(m: seq<LogEvent>, m': seq<LogEvent>, i: nat, i': nat)
    requires multiset(m') == multiset(m) && i < |m| && i' < |m'| && TiesAgreeWith(m, i)
    requires m'[i'].kind.Quote? && m'[i'].key == m[i].key
    ensures m'[i'].mid == m[i].mid
  {
    assert m'[i'] in multiset(m);
    var k :| 0 <= k < |m| && m[k] == m'[i'];
  }

  /** Exactly when the profit of a filled signal is independent of the order of ties. */
  lemma SignalProfitFixedIff(m: seq<LogEvent>, at: int, latencyMs: int, horizonMs: int)
    requires Sorted(m) && Trade(m, at, latencyMs, horizonMs).Some?
    ensures SignalProfitFixed(m, at, latencyMs, horizonMs) <==> SpreadSafe(m, at, latencyMs, horizonMs)
  {
    hide Trade, Spread;
    var tr := Trade(m, at, latencyMs, horizonMs).value;
    TradeInRange(m, at, latencyMs, horizonMs);
    if SignalProfitFixed(m, at, latencyMs, horizonMs) && tr.0 != tr.1 {
      forall j | 0 <= j < |m| && m[j].kind.Quote? && m[j].key == m[tr.0].key ensures m[j].mid == m[tr.0].mid {
        EntryMustAgree(m, at, latencyMs, horizonMs, j);
      }
      forall j | 0 <= j < |m| && m[j].kind.Quote? && m[j].key == m[tr.1].key ensures m[j].mid == m[tr.1].mid {
        ExitMustAgree(m, at, latencyMs, horizonMs, j);
      }
    }
    if SpreadSafe(m, at, latencyMs, horizonMs) {
      forall m': seq<LogEvent> | Sorted(m') && multiset(m') == multiset(m)
        ensures Trade(m', at, latencyMs, horizonMs).Some?
        ensures Spread(m', at, latencyMs, horizonMs) == Spread(m, at, latencyMs, horizonMs)
      {
        SafeSpreadIsFixed(m, m', at, latencyMs, horizonMs);
      }
    }
  }

  lemma TradeInRange(m: seq<LogEvent>, at: int, latencyMs: int, horizonMs: int)
    requires Trade(m, at, latencyMs, horizonMs).Some?
    ensures var tr := Trade(m, at, latencyMs, horizonMs).value; tr.0 < |m| && tr.1 < |m|
  {
    hide FirstQuote;
  }

  /** The profit of every list of signals is the same in every sorted order of the same events. */
  ghost predicate ProfitFixed(m: seq<LogEvent>, latencyMs: int, c: Config) {
    forall m': seq<LogEvent>, signals: seq<int> :: Sorted(m') && multiset(m') == multiset(m) ==>
      Profit(m', signals, |signals|, latencyMs, c) == Profit(m, signals, |signals|, latencyMs, c)
  }

  ghost predicate AllSafe(m: seq<LogEvent>, latencyMs: int, c: Config) {
    forall si: nat, at: int :: Fills(m, at, si, latencyMs, c) ==> SpreadSafe(m, at, latencyMs, c.exitHorizonMs)
  }

  lemma ProfitStep(m: seq<LogEvent>, signals: seq<int>, n: nat, latencyMs: int, c: Config)
    requires 0 < n <= |signals|
    ensures Profit(m, signals, n, latencyMs, c) == Profit(m, signals, n - 1, latencyMs, c) +
      if Fills(m, signals[n - 1], n - 1, latencyMs, c)
      then Spread(m, signals[n - 1], latencyMs, c.exitHorizonMs) - CostFraction(c) else 0.0
  {
    hide Missed, Trade, CostFraction;
    if Fills(m, signals[n - 1], n - 1, latencyMs, c) {
      TradeInRange(m, signals[n - 1], latencyMs, c.exitHorizonMs);
    }
  }

  lemma {:induction false} SafeProfitIsFixed(m: seq<LogEvent>, m': seq<LogEvent>, signals: seq<int>, n: nat,
                                             latencyMs: int, c: Config)
    requires Sorted(m) && Sorted(m') && multiset(m') == multiset(m) && n <= |signals| && AllSafe(m, latencyMs, c)
    ensures Profit(m', signals, n, latencyMs, c) == Profit(m, signals, n, latencyMs, c)
  {
    hide Missed, Trade, Spread, SpreadSafe, CostFraction;
    if n == 0 {
    } else {
      SafeProfitIsFixed(m, m', signals, n - 1, latencyMs, c);
      ProfitStep(m, signals, n, latencyMs, c);
      ProfitStep(m', signals, n, latencyMs, c);
      TradeKeysIgnoreTies(m, m', signals[n - 1], latencyMs, c.exitHorizonMs);
      if Fills(m, signals[n - 1], n - 1, latencyMs, c) {
        SafeSpreadIsFixed(m, m', signals[n - 1], latencyMs, c.exitHorizonMs);
      }
    }
  }

  /** A signal time after which there is no quote at all. */
  function TooLate(m: seq<LogEvent>, latencyMs: int): int {
    (if m == [] then 0 else m[|m| - 1].key + 1) - latencyMs * 1000000
  }

  /** A list of signals of which only the last, `at`, can trade. */
  function Alone(m: seq<LogEvent>, at: int, si: nat, latencyMs: int): (signals: seq<int>)
    ensures |signals| == si + 1 && signals[si] == at
    ensures forall k :: 0 <= k < si ==> signals[k] == TooLate(m, latencyMs)
  {
    seq(si, _ => TooLate(m, latencyMs)) + [at]
  }

  lemma TooLateNeverTrades(m: seq<LogEvent>, m': seq<LogEvent>, latencyMs: int, horizonMs: int)
    requires Sorted(m) && Sorted(m') && multiset(m') == multiset(m)
    ensures Trade(m', TooLate(m, latencyMs), latencyMs, horizonMs).None?
  {
    hide FirstQuote;
    var t := TooLate(m, latencyMs) + latencyMs * 1000000;
    assert FirstQuote(m, t).None?;
    QuoteKeyIgnoresTies(m, m', t);
  }

  lemma {:induction false} PaddingEarnsNothing(m: seq<LogEvent>, m': seq<LogEvent>, at: int, si: nat, n: nat,
                                               latencyMs: int, c: Config)
    requires Sorted(m) && Sorted(m') && multiset(m') == multiset(m) && n <= si
    ensures Profit(m', Alone(m, at, si, latencyMs), n, latencyMs, c) == 0.0
  {
    hide Missed, Trade, TooLate, CostFraction;
    if n == 0 {
    } else {
      PaddingEarnsNothing(m, m', at, si, n - 1, latencyMs, c);
      TooLateNeverTrades(m, m', latencyMs, c.exitHorizonMs);
    }
  }

  lemma AloneEarnsSpread(m: seq<LogEvent>, m': seq<LogEvent>, at: int, si: nat, latencyMs: int, c: Config)
    requires Sorted(m) && Sorted(m') && multiset(m') == multiset(m) && Fills(m, at, si, latencyMs, c)
    ensures Fills(m', at, si, latencyMs, c)
    ensures Profit(m', Alone(m, at, si, latencyMs), si + 1, latencyMs, c)
         == Spread(m', at, latencyMs, c.exitHorizonMs) - CostFraction(c)
  {
    hide Missed, Trade, Spread, CostFraction, Profit;
    TradeKeysIgnoreTies(m, m', at, latencyMs, c.exitHorizonMs);
    PaddingEarnsNothing(m, m', at, si, si, latencyMs, c);
    ProfitStep(m', Alone(m, at, si, latencyMs), si + 1, latencyMs, c);
  }

  /** Exactly when the profit of a sweep is independent of the order of ties, over all lists of signals: every
      signal time that can fill at some position is safe. */
  lemma ProfitFixedIff(m: seq<LogEvent>, latencyMs: int, c: Config)
    requires Sorted(m)
    ensures ProfitFixed(m, latencyMs, c) <==> AllSafe(m, latencyMs, c)
  {
    hide Missed, Trade, Spread, SpreadSafe, CostFraction, Profit, Alone;
    if ProfitFixed(m, latencyMs, c) {
      forall si: nat, at: int | Fills(m, at, si, latencyMs, c) ensures SpreadSafe(m, at, latencyMs, c.exitHorizonMs) {
        forall m': seq<LogEvent> | Sorted(m') && multiset(m') == multiset(m)
          ensures Trade(m', at, latencyMs, c.exitHorizonMs).Some?
          ensures Spread(m', at, latencyMs, c.exitHorizonMs) == Spread(m, at, latencyMs, c.exitHorizonMs)
        {
          AloneEarnsSpread(m, m, at, si, latencyMs, c);
          AloneEarnsSpread(m, m', at, si, latencyMs, c);
          assert Profit(m', Alone(m, at, si, latencyMs), si + 1, latencyMs, c)
              == Profit(m, Alone(m, at, si, latencyMs), si + 1, latencyMs, c);
        }
        SignalProfitFixedIff(m, at, latencyMs, c.exitHorizonMs);
      }
    }
    if AllSafe(m, latencyMs, c) {
      forall m': seq<LogEvent>, signals: seq<int> | Sorted(m') && multiset(m') == multiset(m)
        ensures Profit(m', signals, |signals|, latencyMs, c) == Profit(m, signals, |signals|, latencyMs, c)
      {
        SafeProfitIsFixed(m, m', signals, |signals|, latencyMs, c);
      }
    }
  }

  ghost predicate TiesAgree(m: seq<LogEvent>) {
    forall i :: 0 <= i < |m| && m[i].kind.Quote? ==> TiesAgreeWith(m, i)
  }

  /** In particular when all quotes at the same time have the same mid price. */
  lemma ProfitIgnoresAgreeingTies(m: seq<LogEvent>, m': seq<LogEvent>, signals: seq<int>, n: nat,
                                  latencyMs: int, c: Config)
    requires Sorted(m) && Sorted(m') && multiset(m) == multiset(m') && TiesAgree(m) && n <= |signals|
    ensures Profit(m, signals, n, latencyMs, c) == Profit(m', signals, n, latencyMs, c)
  {
    hide Missed, FirstQuote, TiesAgreeWith, Profit;
    SafeProfitIsFixed(m, m', signals, n, latencyMs, c);
  }
}
