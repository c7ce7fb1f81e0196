/** What a row of the latency sweep adds up, stated on the timeline alone: which signals fill, what a fill earns and
    costs, and which signals are missed. */
module SweepRules {
  import opened Basics
  import opened Timeline
  import opened S = LatencySweep

  /** Entry `i` of the timeline is a quote at or after `t`, and no entry before it is. */
  ghost predicate FirstFrom(m: seq<LogEvent>, t: int, i: int) {
    && 0 <= i < |m| && m[i].kind == Quote && m[i].key >= t
    && forall j :: 0 <= j < i && m[j].kind == Quote ==> m[j].key < t
  }

  /** A signal enters at quote `i`, the first one from the latency after it, and leaves at quote `j`, the first one from
      the horizon after the entry quote. Latency and horizon are in milliseconds, keys in nanoseconds. */
  ghost predicate Legs(m: seq<LogEvent>, at: int, latencyMs: int, c: Config, i: int, j: int) {
    && FirstFrom(m, at + 1000000 * latencyMs, i)
    && FirstFrom(m, m[i].key + 1000000 * c.exitHorizonMs, j)
  }

  lemma FirstFromIs(m: seq<LogEvent>, t: int, i: int)
    ensures FirstFrom(m, t, i) <==> FirstQuote(m, t).Some? && FirstQuote(m, t).value == i
  {
    hide FirstQuote;
    if FirstFrom(m, t, i) {
      assert QuoteFrom(m[i], t);
      var k := FirstQuote(m, t).value;
      assert QuoteFrom(m[k], t);
    }
  }

  lemma LegsAre(m: seq<LogEvent>, at: int, latencyMs: int, c: Config, i: int, j: int)
    ensures Legs(m, at, latencyMs, c, i, j) <==>
      var tr := S.Trade(m, at, latencyMs, c.exitHorizonMs); tr.Some? && tr.value.0 == i && tr.value.1 == j
  {
    hide FirstQuote, FirstFrom;
    FirstFromIs(m, at + latencyMs * 1000000, i);
    var e0 := FirstQuote(m, at + latencyMs * 1000000);
    if e0.Some? && e0.value == i {
      FirstFromIs(m, m[i].key + c.exitHorizonMs * 1000000, j);
    }
  }

  /** A signal that is not missed and has both legs is one fill, and earns the mid of the exit quote less that of the
      entry quote, twice the fee and once the slippage, both in hundredths of a percent. */
  lemma FillEarns(m: seq<LogEvent>, signals: seq<int>, n: nat, latencyMs: int, c: Config, i: int, j: int)
    requires n < |signals| && Legs(m, signals[n], latencyMs, c, i, j) && !Missed(n, c.missProbability)
    ensures FillCount(m, signals, n + 1, latencyMs, c) == FillCount(m, signals, n, latencyMs, c) + 1
    ensures Profit(m, signals, n + 1, latencyMs, c) - Profit(m, signals, n, latencyMs, c) ==
      m[j].mid - m[i].mid - (2.0 * c.feeBps + c.slippageBps) / 10000.0
  {
    hide Legs, Missed, S.Trade;
    LegsAre(m, signals[n], latencyMs, c, i, j);
    LegsInRange(m, signals[n], latencyMs, c, i, j);
  }

  lemma LegsInRange(m: seq<LogEvent>, at: int, latencyMs: int, c: Config, i: int, j: int)
    requires Legs(m, at, latencyMs, c, i, j)
    ensures 0 <= i < |m| && 0 <= j < |m|
  {
  }

  /** Any other signal changes neither the fills nor the profit; none at all earn nothing. */
  lemma OthersEarnNothing(m: seq<LogEvent>, signals: seq<int>, n: nat, latencyMs: int, c: Config)
    requires n < |signals|
    requires Missed(n, c.missProbability) || forall i, j :: !Legs(m, signals[n], latencyMs, c, i, j)
    ensures FillCount(m, signals, n + 1, latencyMs, c) == FillCount(m, signals, n, latencyMs, c)
    ensures Profit(m, signals, n + 1, latencyMs, c) == Profit(m, signals, n, latencyMs, c)
    ensures FillCount(m, signals, 0, latencyMs, c) == 0 && Profit(m, signals, 0, latencyMs, c) == 0.0
  {
    hide Legs, Missed, S.Trade;
    var tr := S.Trade(m, signals[n], latencyMs, c.exitHorizonMs);
    if tr.Some? { LegsAre(m, signals[n], latencyMs, c, tr.value.0, tr.value.1); }
  }

  lemma {:induction false} CostsOfPrefix(m: seq<LogEvent>, signals: seq<int>, n: nat, latencyMs: int, c: Config)
    requires n <= |signals|
    ensures Profit(m, signals, n, latencyMs, c) ==
      Profit(m, signals, n, latencyMs, c.(feeBps := 0.0, slippageBps := 0.0))
      - FillCount(m, signals, n, latencyMs, c) as real * (2.0 * c.feeBps + c.slippageBps) / 10000.0
  {
    hide Missed, S.Trade;
    if n > 0 {
      CostsOfPrefix(m, signals, n - 1, latencyMs, c);
      var free := c.(feeBps := 0.0, slippageBps := 0.0);
      assert Fills(m, signals[n - 1], n - 1, latencyMs, c) == Fills(m, signals[n - 1], n - 1, latencyMs, free);
      OneMore(FillCount(m, signals, n - 1, latencyMs, c), 2.0 * c.feeBps + c.slippageBps);
    }
  }

  lemma OneMore(k: nat, cost: real)
    ensures (k + 1) as real * cost / 10000.0 == k as real * cost / 10000.0 + cost / 10000.0
  {
  }

  /** Fees and slippage take from the profit of a row exactly their part for every fill, and nothing else. */
  lemma CostsPerFill(m: seq<LogEvent>, signals: seq<int>, latencyMs: int, c: Config)
    ensures var row := RowFor(m, signals, latencyMs, c);
      var free := RowFor(m, signals, latencyMs, c.(feeBps := 0.0, slippageBps := 0.0));
      && row.fills == free.fills && row.attempts == free.attempts == |signals|
      && row.pnl == free.pnl - row.fills as real * (2.0 * c.feeBps + c.slippageBps) / 10000.0
  {
    hide Profit, FillCount;
    CostsOfPrefix(m, signals, |signals|, latencyMs, c);
    FillsIgnoreCosts(m, signals, |signals|, latencyMs, c);
  }

  lemma {:induction false} FillsIgnoreCosts(m: seq<LogEvent>, signals: seq<int>, n: nat, latencyMs: int, c: Config)
    requires n <= |signals|
    ensures FillCount(m, signals, n, latencyMs, c)
         == FillCount(m, signals, n, latencyMs, c.(feeBps := 0.0, slippageBps := 0.0))
  {
    hide Missed, S.Trade;
    if n > 0 { FillsIgnoreCosts(m, signals, n - 1, latencyMs, c); }
  }

  /** A single signal without costs or misses earns the mid of its exit quote less that of its entry quote. */
  lemma OneSignalEarns(m: seq<LogEvent>, at: int, latencyMs: int, c: Config, i: int, j: int)
    requires c.feeBps == c.slippageBps == c.missProbability == 0.0 && Legs(m, at, latencyMs, c, i, j)
    ensures RowFor(m, [at], latencyMs, c) == SimRow(latencyMs, 1, 1, m[j].mid - m[i].mid)
  {
    hide Legs, Profit, FillCount, Missed;
    NothingMissed(0, c.missProbability);
    FillEarns(m, [at], 0, latencyMs, c, i, j);
    assert FillCount(m, [at], 0, latencyMs, c) == 0 && Profit(m, [at], 0, latencyMs, c) == 0.0 by {
      NoSignals(m, [at], latencyMs, c);
    }
    LegsInRange(m, at, latencyMs, c, i, j);
  }

  lemma NoSignals(m: seq<LogEvent>, signals: seq<int>, latencyMs: int, c: Config)
    ensures FillCount(m, signals, 0, latencyMs, c) == 0 && Profit(m, signals, 0, latencyMs, c) == 0.0
  {
  }

  // ---------------------------------------------------------------- missed signals

  lemma NothingMissed(si: nat, p: real)
    requires p <= 0.0
    ensures !Missed(si, p)
  {
  }

  /** Whether a signal is missed depends on its index modulo 2^32 and on the probability alone: none is missed at 0, all
      are from 1 on, and a higher probability misses no fewer. */
  lemma MissRule(si: nat, p: real, q: real)
    ensures p <= 0.0 ==> !Missed(si, p)
    ensures p >= 1.0 ==> Missed(si, p)
    ensures p <= q && Missed(si, p) ==> Missed(si, q)
    ensures Missed(si + 4294967296, p) <==> Missed(si, p)
  {
    HashRepeats(si);
  }

  lemma HashRepeats(si: nat)
    ensures ((si + 4294967296) * 2654435761) % 4294967296 == (si * 2654435761) % 4294967296
  {
    assert (si + 4294967296) * 2654435761 == si * 2654435761 + 2654435761 * 4294967296;
    RemainderOf(si * 2654435761, 2654435761);
  }

  lemma RemainderOf(x: nat, k: nat)
    ensures (x + k * 4294967296) % 4294967296 == x % 4294967296
  {
    var q := x / 4294967296;
    assert x + k * 4294967296 == (q + k) * 4294967296 + x % 4294967296;
  }

  /** The probabilities that the first four signals are missed above. */
  lemma FirstMisses(p: real)
    ensures Missed(0, p) <==> p > 0.0
    ensures Missed(1, p) <==> p > 0.5761
    ensures Missed(2, p) <==> p > 0.4226
    ensures Missed(3, p) <==> p > 0.9987
  {
  }
}
