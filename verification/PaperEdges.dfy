/** Where the BUYs of a run come from: every fill goes back to a scheduled order, and every scheduled
    order to an edge that was seen at every evaluation over at least the persistence interval. */
module PaperEdges {
  import opened Basics
  import opened PaperTrading
  import PaperLedger

  /** Event `k` runs a strategy pass, which sees the market data `Seen`. */
  predicate Passes(run: seq<Event>, k: nat)
    requires k < |run|
  {
    run[k].SpotTick? || run[k].Quote?
  }

  function Seen(c: Config, run: seq<Event>, k: nat): Hot
    requires k < |run| && Passes(run, k)
  {
    Observe(At(c, run, k).hot, run[k])
  }

  /** Event `k` evaluates the entry edges: trading is on, flat, nothing pending, no risk stop. */
  predicate Evaluates(c: Config, run: seq<Event>, k: nat)
    requires k < |run|
  {
    Passes(run, k) &&
    var s := At(c, run, k);
    Ready(Seen(c, run, k)) && s.enabled && s.order == NoOrder && !s.riskStop && s.pos.Flat?
  }

  predicate SawEdge(c: Config, run: seq<Event>, k: nat, side: Side)
    requires k < |run|
  {
    Evaluates(c, run, k) && RawEdge(c, Seen(c, run, k), run[k].tick, side)
  }

  /** Event `k` schedules a BUY of `side`. */
  predicate SchedulesBuy(c: Config, run: seq<Event>, k: nat, side: Side)
    requires k < |run|
  {
    Evaluates(c, run, k) &&
    Schedule(c, At(c, run, k).(hot := Seen(c, run, k)), run[k].tick).order
      == BuyOrder(side, run[k].tick.schedNs + c.latencyNs)
  }

  /** Event `k` appends a BUY of `side` to the trade log. */
  predicate Buys(c: Config, run: seq<Event>, k: nat, side: Side)
    requires k < |run|
  {
    var log, log' := At(c, run, k).log, At(c, run, k + 1).log;
    |log'| == |log| + 1 && log'[|log|].BuyRow? && log'[|log|].side == side
  }

  /** From event `i` up to and not including `n`: flat, no rollover, and no evaluation missed the edge. */
  ghost predicate Unbroken(c: Config, run: seq<Event>, i: nat, n: nat, side: Side)
    requires i <= n <= |run|
  {
    forall k :: i <= k < n ==>
      !run[k].Rollover? && At(c, run, k).pos.Flat? && (Evaluates(c, run, k) ==> SawEdge(c, run, k, side))
  }

  /** The timer reading of `side` is the time of an evaluation that saw the edge, unbroken since. */
  ghost predicate Backed(c: Config, run: seq<Event>, n: nat, side: Side)
    requires n <= |run|
  {
    exists i: nat :: i < n && SawEdge(c, run, i, side) && Unbroken(c, run, i, n, side)
                     && run[i].tick.schedNs == SinceOf(At(c, run, n).hot, side)
  }

  ghost predicate TimersBacked(c: Config, run: seq<Event>, n: nat)
    requires n <= |run|
  {
    var s := At(c, run, n);
    && (forall side :: s.pos.Flat? && SinceOf(s.hot, side) >= 0 ==> Backed(c, run, n, side))
    && (s.order.SellOrder? ==> s.hot.upSince < 0 && s.hot.downSince < 0)
  }

  /** Filling or cancelling an order touches no market data, and a BUY never closes a position. */
  lemma ExecutionKeepsHot(c: Config, s: State, t: Tick)
    requires PaperLedger.Shape(s)
    ensures var s' := ExecuteDue(c, s, t);
      && s'.hot == s.hot
      && (s'.order == NoOrder || s'.order == s.order)
      && (s'.pos.Flat? ==> s.pos.Flat? || s.order.SellOrder?)
  {
    hide BuyStillWanted, TakerFee, Value, Shares, SpendFor, TakeProfitHit, LossAtLeast, LossExceeds;
  }

  /** How one event moves a timer: cleared, left alone without an evaluation, started by an evaluation
      that sees the edge, or kept by one. */
  lemma TimerStep(c: Config, s: State, e: Event, side: Side)
    requires PaperLedger.Shape(s)
    requires Step(c, s, e).pos.Flat?
    requires s.order.SellOrder? ==> s.hot.upSince < 0 && s.hot.downSince < 0
    requires SinceOf(Step(c, s, e).hot, side) >= 0
    ensures s.pos.Flat? && !e.Rollover?
    ensures e.SpotTick? || e.Quote? ==>
      var h := Observe(s.hot, e);
      var evaluates := Ready(h) && s.enabled && s.order == NoOrder && !s.riskStop;
      if !evaluates then SinceOf(Step(c, s, e).hot, side) == SinceOf(s.hot, side)
      else RawEdge(c, h, e.tick, side) &&
           (SinceOf(Step(c, s, e).hot, side) == e.tick.schedNs
            || (SinceOf(s.hot, side) >= 0 && SinceOf(Step(c, s, e).hot, side) == SinceOf(s.hot, side)))
    ensures !(e.SpotTick? || e.Quote?) ==> SinceOf(Step(c, s, e).hot, side) == SinceOf(s.hot, side)
  {
    hide RawEdge, StopLossHit, TakeProfitHit, EntryWindow, ExecuteDue;
    if e.SpotTick? || e.Quote? {
      var s0 := s.(hot := Observe(s.hot, e));
      PaperLedger.ScheduleKeepsShape(c, s0, e.tick);
      ExecutionKeepsHot(c, Schedule(c, s0, e.tick), e.tick);
    }
  }

  lemma UnbrokenExtends(c: Config, run: seq<Event>, i: nat, n: nat, side: Side)
    requires i <= n < |run|
    requires Unbroken(c, run, i, n, side)
    requires !run[n].Rollover? && At(c, run, n).pos.Flat? && (Evaluates(c, run, n) ==> SawEdge(c, run, n, side))
    ensures Unbroken(c, run, i, n + 1, side)
  {
  }

  lemma TimerBackedNext(c: Config, run: seq<Event>, n: nat, side: Side)
    requires n < |run| && TimersBacked(c, run, n)
    requires At(c, run, n + 1).pos.Flat? && SinceOf(At(c, run, n + 1).hot, side) >= 0
    ensures Backed(c, run, n + 1, side)
  {
    hide Step, Schedule, RawEdge, Observe, Ready;
    var s, e := At(c, run, n), run[n];
    PaperLedger.ReachableShape(c, run, n);
    PaperLedger.AtNext(c, run, n + 1);
    TimerStep(c, s, e, side);
    if Evaluates(c, run, n) && SinceOf(At(c, run, n + 1).hot, side) == e.tick.schedNs {
      assert SawEdge(c, run, n, side);
      assert Unbroken(c, run, n, n + 1, side);
    } else {
      assert Backed(c, run, n, side);
      var i: nat :| i < n && SawEdge(c, run, i, side) && Unbroken(c, run, i, n, side)
                    && run[i].tick.schedNs == SinceOf(s.hot, side);
      UnbrokenExtends(c, run, i, n, side);
    }
  }

  lemma SellOrderDisarms(c: Config, s: State, e: Event)
    requires PaperLedger.Shape(s)
    requires s.order.SellOrder? ==> s.hot.upSince < 0 && s.hot.downSince < 0
    ensures var s' := Step(c, s, e); s'.order.SellOrder? ==> s'.hot.upSince < 0 && s'.hot.downSince < 0
  {
    hide RawEdge, StopLossHit, TakeProfitHit, EntryWindow, ExecuteDue;
    if e.SpotTick? || e.Quote? {
      var s0 := s.(hot := Observe(s.hot, e));
      PaperLedger.ScheduleKeepsShape(c, s0, e.tick);
      ExecutionKeepsHot(c, Schedule(c, s0, e.tick), e.tick);
    }
  }

  lemma {:induction false} TimersAlwaysBacked(c: Config, run: seq<Event>, n: nat)
    requires n <= |run|
    ensures TimersBacked(c, run, n)
  {
    hide Step, Backed;
    if n > 0 {
      TimersAlwaysBacked(c, run, n - 1);
      PaperLedger.ReachableShape(c, run, n - 1);
      PaperLedger.AtNext(c, run, n);
      SellOrderDisarms(c, At(c, run, n - 1), run[n - 1]);
      forall side | At(c, run, n).pos.Flat? && SinceOf(At(c, run, n).hot, side) >= 0
        ensures Backed(c, run, n, side)
      {
        TimerBackedNext(c, run, n - 1, side);
      }
    }
  }

  /** The edge of `side` was seen at event `i`, at least the persistence interval before event `n`,
      and at every evaluation from there to `n`, with no rollover and no position in between. */
  ghost predicate EdgeHeld(c: Config, run: seq<Event>, i: nat, n: nat, side: Side)
    requires i <= n < |run|
  {
    && SawEdge(c, run, i, side) && SawEdge(c, run, n, side) && Unbroken(c, run, i, n, side)
    && (c.edgePersistNs <= 0 || run[n].tick.schedNs - run[i].tick.schedNs >= c.edgePersistNs)
  }

  lemma ScheduledSideHasSignal(c: Config, s: State, t: Tick, side: Side)
    requires s.order == NoOrder && !s.riskStop && s.pos.Flat? && s.enabled
    requires Schedule(c, s, t).order == BuyOrder(side, t.schedNs + c.latencyNs)
    ensures RawEdge(c, s.hot, t, side)
    ensures c.edgePersistNs > 0 ==>
      SinceOf(s.hot, side) >= 0 && t.schedNs - SinceOf(s.hot, side) >= c.edgePersistNs
  {
    hide RawEdge, EntryWindow;
  }

  /** Edge persistence over whole runs: a BUY is scheduled only on a side whose edge held, at every
      evaluation, over at least the persistence interval. */
  lemma ScheduledBuyHasPersistentEdge(c: Config, run: seq<Event>, n: nat, side: Side)
    requires n < |run| && SchedulesBuy(c, run, n, side)
    ensures exists i: nat :: i <= n && EdgeHeld(c, run, i, n, side)
  {
    hide Step, Schedule, RawEdge, Ready;
    var s := At(c, run, n);
    ScheduledSideHasSignal(c, s.(hot := Seen(c, run, n)), run[n].tick, side);
    if c.edgePersistNs <= 0 {
      assert EdgeHeld(c, run, n, n, side);
    } else {
      TimersAlwaysBacked(c, run, n);
      SeenTimer(s.hot, run[n], side);
      assert Backed(c, run, n, side);
      var i: nat :| i < n && SawEdge(c, run, i, side) && Unbroken(c, run, i, n, side)
                    && run[i].tick.schedNs == SinceOf(s.hot, side);
      assert EdgeHeld(c, run, i, n, side);
    }
  }

  /** Market data never starts a timer. */
  lemma SeenTimer(h: Hot, e: Event, side: Side)
    requires e.SpotTick? || e.Quote?
    requires SinceOf(Observe(h, e), side) >= 0
    ensures SinceOf(Observe(h, e), side) == SinceOf(h, side)
  {
  }

  // ---------------------------------------------------------------- fills

  /** Event `k` scheduled the order that is due at `due`, and it has been pending since. */
  ghost predicate Pending(c: Config, run: seq<Event>, k: nat, n: nat, side: Side, due: int)
    requires k < n <= |run|
  {
    && SchedulesBuy(c, run, k, side) && due == run[k].tick.schedNs + c.latencyNs
    && (forall j :: k < j <= n ==> At(c, run, j).order == BuyOrder(side, due))
  }

  ghost predicate OrderBacked(c: Config, run: seq<Event>, n: nat)
    requires n <= |run|
  {
    var o := At(c, run, n).order;
    o.BuyOrder? ==> exists k: nat :: k < n && Pending(c, run, k, n, o.side, o.due)
  }

  /** A pending BUY after an event was pending before it, or was scheduled by it. */
  lemma OrderStep(c: Config, s: State, e: Event)
    requires PaperLedger.Shape(s) && Step(c, s, e).order.BuyOrder?
    ensures s.order == Step(c, s, e).order ||
      (s.order == NoOrder && !s.riskStop && s.pos.Flat? && s.enabled && (e.SpotTick? || e.Quote?) &&
       Ready(Observe(s.hot, e)) &&
       Schedule(c, s.(hot := Observe(s.hot, e)), e.tick).order == Step(c, s, e).order &&
       Step(c, s, e).order.due == e.tick.schedNs + c.latencyNs)
  {
    hide RawEdge, StopLossHit, TakeProfitHit, EntryWindow, ExecuteDue;
    if e.SpotTick? || e.Quote? {
      var s0 := s.(hot := Observe(s.hot, e));
      PaperLedger.ScheduleKeepsShape(c, s0, e.tick);
      ExecutionKeepsHot(c, Schedule(c, s0, e.tick), e.tick);
    }
  }

  lemma {:induction false} OrdersAlwaysBacked(c: Config, run: seq<Event>, n: nat)
    requires n <= |run|
    ensures OrderBacked(c, run, n)
  {
    hide Step, Schedule, Ready;
    if n > 0 && At(c, run, n).order.BuyOrder? {
      var s, e, o := At(c, run, n - 1), run[n - 1], At(c, run, n).order;
      OrdersAlwaysBacked(c, run, n - 1);
      PaperLedger.ReachableShape(c, run, n - 1);
      PaperLedger.AtNext(c, run, n);
      OrderStep(c, s, e);
      if s.order == o {
        var k: nat :| k < n - 1 && Pending(c, run, k, n - 1, o.side, o.due);
        assert Pending(c, run, k, n, o.side, o.due);
      } else {
        assert Pending(c, run, n - 1, n, o.side, o.due);
      }
    }
  }

  /** A BUY row is the fill of an order that is due, pending before the event or scheduled by it. */
  lemma FillStep(c: Config, s: State, e: Event)
    requires PaperLedger.Shape(s)
    requires var s' := Step(c, s, e); |s'.log| == |s.log| + 1 && s'.log[|s.log|].BuyRow?
    ensures (e.SpotTick? || e.Quote?) && s.pos.Flat? &&
      var s1 := Schedule(c, s.(hot := Observe(s.hot, e)), e.tick);
      s1.order.BuyOrder? && s1.order.side == Step(c, s, e).log[|s.log|].side && e.tick.execNs >= s1.order.due &&
      (s1.order == s.order ||
       (s.order == NoOrder && !s.riskStop && s.enabled && Ready(Observe(s.hot, e)) &&
        s1.order.due == e.tick.schedNs + c.latencyNs))
  {
    hide RawEdge, TakerFee, Value, Shares, SpendFor, StopLossHit, TakeProfitHit, LossAtLeast, LossExceeds, EntryWindow;
  }

  /** The fill at `m` was scheduled at `n`, where the edge had held since `i`. */
  ghost predicate TracesBack(c: Config, run: seq<Event>, i: nat, n: nat, m: nat, side: Side)
    requires i <= n <= m < |run| && Passes(run, m)
  {
    && SchedulesBuy(c, run, n, side) && EdgeHeld(c, run, i, n, side)
    && run[m].tick.execNs >= run[n].tick.schedNs + c.latencyNs
    && (n < m ==> Pending(c, run, n, m, side, run[n].tick.schedNs + c.latencyNs))
  }

  /** Every BUY of every run was scheduled by an earlier or the same event, at least the latency before
      it is filled and pending in between, on a side whose edge had persisted when it was scheduled. */
  lemma EveryBuyHasPersistentEdge(c: Config, run: seq<Event>, m: nat, side: Side)
    requires m < |run| && Buys(c, run, m, side)
    ensures Passes(run, m)
    ensures exists i: nat, n: nat :: i <= n <= m && TracesBack(c, run, i, n, m, side)
  {
    hide Step, Schedule, Ready, EdgeHeld;
    var s, e := At(c, run, m), run[m];
    PaperLedger.ReachableShape(c, run, m);
    PaperLedger.AtNext(c, run, m + 1);
    FillStep(c, s, e);
    var n: nat := m;
    if s.order.BuyOrder? {
      OrdersAlwaysBacked(c, run, m);
      n :| n < m && Pending(c, run, n, m, s.order.side, s.order.due);
    }
    assert SchedulesBuy(c, run, n, side);
    ScheduledBuyHasPersistentEdge(c, run, n, side);
    var i: nat :| i <= n && EdgeHeld(c, run, i, n, side);
    assert TracesBack(c, run, i, n, m, side);
  }
}
