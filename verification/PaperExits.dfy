/** Where the sales of a run come from: every SELL goes back to an event that saw the loss or the profit on the very
    position that is sold, and every sale is at the bid of the side that is held. */
module PaperExits {
  import opened Basics
  import opened PaperTrading
  import PaperLedger
  import opened PaperEdges
  import opened PaperRules

  /** Event `k` schedules a SELL: trading is on, nothing is pending, a position is held, and on the market data seen
      the loss is reached, or, for a profit, the profit and not the loss. */
  ghost predicate SchedulesSell(c: Config, run: seq<Event>, k: nat, reason: ExitReason)
    requires k < |run|
  {
    Passes(run, k) &&
    var s := At(c, run, k).(hot := Seen(c, run, k));
    && Ready(s.hot) && s.enabled && s.order == NoOrder && !s.riskStop && s.pos.Held?
    && match reason
       case StopLoss => LossReached(c, s)
       case TakeProfit => ProfitReached(c, s, run[k].tick) && !LossReached(c, s)
  }

  /** Event `k` scheduled the SELL that is due at `due`; since then it has been pending, and the position the same. */
  ghost predicate SellPending(c: Config, run: seq<Event>, k: nat, n: nat, reason: ExitReason, due: int)
    requires k < n <= |run|
  {
    && SchedulesSell(c, run, k, reason) && due == run[k].tick.schedNs + c.latencyNs
    && (forall j :: k < j <= n ==>
          At(c, run, j).order == SellOrder(reason, due) && At(c, run, j).pos == At(c, run, k).pos)
  }

  ghost predicate SellBacked(c: Config, run: seq<Event>, n: nat)
    requires n <= |run|
  {
    var o := At(c, run, n).order;
    o.SellOrder? ==> exists k: nat :: k < n && SellPending(c, run, k, n, o.reason, o.due)
  }

  /** A SELL left pending by an execution was pending before it, on the same position. */
  lemma ExecutionKeepsSell(c: Config, s: State, t: Tick)
    requires PaperLedger.Shape(s) && ExecuteDue(c, s, t).order.SellOrder?
    ensures ExecuteDue(c, s, t) == s
  {
    hide BuyStillWanted, TakerFee, Value, Shares, SpendFor, TakeProfitHit, LossAtLeast, LossExceeds;
  }

  /** What scheduling does to a machine that has no BUY pending afterwards but a SELL. */
  lemma SellScheduled(c: Config, s: State, t: Tick)
    requires PaperLedger.Shape(s) && Schedule(c, s, t).order.SellOrder?
    ensures var o := Schedule(c, s, t).order;
      && Schedule(c, s, t).pos == s.pos && s.pos.Held?
      && ((s.order == o && Schedule(c, s, t) == s)
          || (s.order == NoOrder && !s.riskStop && o.due == t.schedNs + c.latencyNs
              && (o.reason == StopLoss ==> LossReached(c, s))
              && (o.reason == TakeProfit ==> ProfitReached(c, s, t) && !LossReached(c, s))))
  {
    hide Schedule, LossReached, ProfitReached;
    if s.order != NoOrder || s.riskStop {
      NoScheduleRule(c, s, t);
    } else if s.pos.Flat? {
      EntryRule(c, s, t);
    } else {
      ExitRule(c, s, t);
    }
  }

  /** A SELL pending after an event was pending before it, or was scheduled by it. */
  lemma SellStep(c: Config, s: State, e: Event)
    requires PaperLedger.Shape(s) && Step(c, s, e).order.SellOrder?
    ensures var o, s0 := Step(c, s, e).order, if e.SpotTick? || e.Quote? then s.(hot := Observe(s.hot, e)) else s;
      && Step(c, s, e).pos == s.pos && s.pos.Held?
      && (s.order == o
          || ((e.SpotTick? || e.Quote?) && Ready(s0.hot) && s.enabled && s.order == NoOrder && !s.riskStop
              && o.due == e.tick.schedNs + c.latencyNs
              && (o.reason == StopLoss ==> LossReached(c, s0))
              && (o.reason == TakeProfit ==> ProfitReached(c, s0, e.tick) && !LossReached(c, s0))))
  {
    hide Schedule, ExecuteDue, LossReached, ProfitReached, Ready;
    if e.SpotTick? || e.Quote? {
      var s0 := s.(hot := Observe(s.hot, e));
      if Ready(s0.hot) && s0.enabled {
        PaperLedger.ScheduleKeepsShape(c, s0, e.tick);
        ExecutionKeepsSell(c, Schedule(c, s0, e.tick), e.tick);
        SellScheduled(c, s0, e.tick);
      }
    }
  }

  lemma {:induction false} SellsAlwaysBacked(c: Config, run: seq<Event>, n: nat)
    requires n <= |run|
    ensures SellBacked(c, run, n)
  {
    hide Step, Schedule, Ready, LossReached, ProfitReached;
    if n > 0 && At(c, run, n).order.SellOrder? {
      var s, e, o := At(c, run, n - 1), run[n - 1], At(c, run, n).order;
      SellsAlwaysBacked(c, run, n - 1);
      PaperLedger.ReachableShape(c, run, n - 1);
      PaperLedger.AtNext(c, run, n);
      SellStep(c, s, e);
      if s.order == o {
        var k: nat :| k < n - 1 && SellPending(c, run, k, n - 1, o.reason, o.due);
        assert SellPending(c, run, k, n, o.reason, o.due);
      } else {
        assert SchedulesSell(c, run, n - 1, o.reason);
        assert SellPending(c, run, n - 1, n, o.reason, o.due);
      }
    }
  }

  // ---------------------------------------------------------------- sales

  /** Event `m` appends a row to the log that is a SELL. */
  predicate Sells(c: Config, run: seq<Event>, m: nat)
    requires m < |run|
  {
    var log, log' := At(c, run, m).log, At(c, run, m + 1).log;
    |log'| == |log| + 1 && log'[|log|].SellRow?
  }

  /** A SELL row is the fill of a SELL that is due, at the bid of the held side. */
  lemma SellFillStep(c: Config, s: State, e: Event)
    requires PaperLedger.Shape(s)
    requires var s' := Step(c, s, e); |s'.log| == |s.log| + 1 && s'.log[|s.log|].SellRow?
    ensures (e.SpotTick? || e.Quote?) && s.pos.Held? && Ready(Observe(s.hot, e)) && s.enabled &&
      var s0, row := s.(hot := Observe(s.hot, e)), Step(c, s, e).log[|s.log|];
      var s1 := Schedule(c, s0, e.tick);
      && s1.order.SellOrder? && s1.order.reason == row.reason && e.tick.execNs >= s1.order.due
      && row.slug == s.pos.slug && row.side == s.pos.side && row.qty == s.pos.qty
      && row.bid == BidOf(s0.hot, s.pos.side)
      && (row.reason == TakeProfit ==> ProfitReached(c, s0, e.tick))
  {
    hide RawEdge, TakerFee, Value, Shares, SpendFor, StopLossHit, LossAtLeast, LossExceeds, EntryWindow;
  }

  /** The SELL at `m` was scheduled at `n`, on the position that is sold. */
  ghost predicate SaleTracesBack(c: Config, run: seq<Event>, n: nat, m: nat, reason: ExitReason)
    requires n <= m < |run| && Passes(run, m)
  {
    && SchedulesSell(c, run, n, reason)
    && run[m].tick.execNs >= run[n].tick.schedNs + c.latencyNs
    && (n < m ==> SellPending(c, run, n, m, reason, run[n].tick.schedNs + c.latencyNs))
  }

  /** Every SELL of every run is of the whole position, at the bid last quoted for its side, and was scheduled at least
      the latency before by an event that saw its reason on that same position; a profit is still there at the fill. */
  lemma EverySaleHasReason(c: Config, run: seq<Event>, m: nat)
    requires m < |run| && Sells(c, run, m)
    ensures Passes(run, m) && At(c, run, m).pos.Held?
    ensures var s, row := At(c, run, m).(hot := Seen(c, run, m)), At(c, run, m + 1).log[|At(c, run, m).log|];
      && row.slug == s.pos.slug && row.side == s.pos.side && row.qty == s.pos.qty
      && row.bid == BidOf(s.hot, s.pos.side)
      && (row.reason == TakeProfit ==> ProfitReached(c, s, run[m].tick))
      && exists n: nat :: n <= m && SaleTracesBack(c, run, n, m, row.reason)
  {
    hide Step, Schedule, Ready, LossReached, ProfitReached;
    var s, e := At(c, run, m), run[m];
    PaperLedger.ReachableShape(c, run, m);
    PaperLedger.AtNext(c, run, m + 1);
    SellFillStep(c, s, e);
    var reason := At(c, run, m + 1).log[|s.log|].reason;
    SellScheduled(c, s.(hot := Seen(c, run, m)), e.tick);
    if s.order.SellOrder? {
      SellsAlwaysBacked(c, run, m);
      var n: nat :| n < m && SellPending(c, run, n, m, s.order.reason, s.order.due);
      assert SaleTracesBack(c, run, n, m, reason);
    } else {
      assert SchedulesSell(c, run, m, reason);
      assert SaleTracesBack(c, run, m, m, reason);
    }
  }

  /** An execution appends at most one row, of a BUY or of a SELL. */
  lemma ExecutionRows(c: Config, s: State, t: Tick, i: nat)
    requires PaperLedger.Shape(s) && |s.log| <= i < |ExecuteDue(c, s, t).log|
    ensures !ExecuteDue(c, s, t).log[i].ForceSellRow?
  {
    hide BuyStillWanted, TakerFee, Value, Shares, SpendFor, TakeProfitHit, LossAtLeast, LossExceeds;
  }

  lemma ScheduleKeepsLog(c: Config, s: State, t: Tick)
    ensures Schedule(c, s, t).log == s.log
  {
    hide EntrySignal, EntryWindow, StopLossHit, TakeProfitHit;
  }

  /** Only a rollover force sells: the whole position, at the bid the rollover names for its side. */
  lemma ForcedSaleAtOwnBid(c: Config, run: seq<Event>, m: nat, i: nat)
    requires m < |run| && |At(c, run, m).log| <= i < |At(c, run, m + 1).log| && At(c, run, m + 1).log[i].ForceSellRow?
    ensures run[m].Rollover? && At(c, run, m).pos.Held? && !c.forceSellDisabled
    ensures var pos, row := At(c, run, m).pos, At(c, run, m + 1).log[i];
      && row.slug == pos.slug && row.side == pos.side && row.qty == pos.qty
      && row.bid == (match pos.side case Up => run[m].upBid case Down => run[m].downBid)
  {
    hide Schedule, ExecuteDue, TakerFee, Value, Ready;
    var s, e := At(c, run, m), run[m];
    PaperLedger.ReachableShape(c, run, m);
    PaperLedger.AtNext(c, run, m + 1);
    if e.SpotTick? || e.Quote? {
      var s0 := s.(hot := Observe(s.hot, e));
      PaperLedger.ScheduleKeepsShape(c, s0, e.tick);
      ScheduleKeepsLog(c, s0, e.tick);
      if Ready(s0.hot) && s0.enabled { ExecutionRows(c, Schedule(c, s0, e.tick), e.tick, i); }
    }
  }
}
