/** Properties one would expect of the paper machine and that it does not have, each with a run that
    breaks it and the condition under which it holds. */
module PaperCounterexamples {
  import opened Basics
  import opened PaperTrading
  import PaperEdges
  import PaperLedger

  /** One-dollar orders at an edge of 0.1, no fee, no window, no persistence, the given latency. */
  function PlainConfig(latencyNs: int): Config {
    Config(0.1, 0.0, 0.0, 0.0, 1.0, 0.0, 0.0, 100.0, None, latencyNs, 0, false, 0.0, 0.0, false, 0.0, 0.0, false)
  }

  /** A process either discovers its markets, and then its bootstrap does not enable trading, or has its market
      named by hand, and then it never rolls over. */
  ghost predicate OneMode(run: seq<Event>) {
    || (forall k :: 0 <= k < |run| ==> !(run[k].Bootstrap? && run[k].enable))
    || (forall k :: 0 <= k < |run| ==> !run[k].Rollover?)
  }

  // ---------------------------------------------------------------- a BUY can cross a rollover

  /** Warm-up in market "A", an order in "B", its fill in "C". */
  function CrossingRun(latencyNs: int): seq<Event> {
    var t := Tick(0.9, 0.1, 0, 0);
    [ Bootstrap(0, "A", true, false),
      Rollover(300, "B", 0.0, 0.0, true),
      SpotTick(300000, t),
      Quote(Up, 0.4, 0.5, 300, "B", t),
      Quote(Down, 0.4, 0.5, 300, "B", t),
      Rollover(600, "C", 0.4, 0.4, true),
      SpotTick(600000, Tick(0.9, 0.1, latencyNs, latencyNs)) ]
  }

  /** With any positive latency a BUY scheduled in one market can be filled in the next one: the order
      survives a rollover that finds the machine flat. `FillCrossesIff` says exactly when a fill crosses. */
  lemma BuyCanCrossRollover(latencyNs: int)
    requires latencyNs > 0
    ensures var c, run := PlainConfig(latencyNs), CrossingRun(latencyNs);
      && OneMode(run)
      && PaperEdges.SchedulesBuy(c, run, 4, Up) && PaperEdges.Seen(c, run, 4).slug == "B"
      && PaperEdges.Buys(c, run, 6, Up) && At(c, run, 7).pos.Held? && At(c, run, 7).pos.slug == "C"
  {
    hide At;
    var c, run := PlainConfig(latencyNs), CrossingRun(latencyNs);
    OrderScheduledInB(latencyNs);
    var b := Book(true, 0.4, 0.5);
    var s5 := OrderedInB(latencyNs);
    PaperLedger.AtNext(c, run, 6);
    var s6 := s5.(hot := Hot(600, "C", true, 300000, true, b, b, -1, -1),
                  log := s5.log + [RolloverRow("C", 600, 100.0, false)]);
    assert At(c, run, 6) == s6;
    PaperLedger.AtNext(c, run, 7);
    var s7 := s6.(hot := Hot(600, "C", true, 600000, true, b, b, -1, -1));
    assert SpendFor(c, 100.0, 0.5) == 1.0;
    assert At(c, run, 7) == FillBuy(c, s7, run[6].tick, Up);
    assert Shares(1.0, 0.5) == 2.0;
    assert At(c, run, 7).pos.Held?;
  }

  /** The state after the first five events of the crossing run. */
  function OrderedInB(latencyNs: int): State {
    var b := Book(true, 0.4, 0.5);
    State(Hot(300, "B", true, 300000, true, b, b, 0, -1), Flat, BuyOrder(Up, latencyNs), 100.0, false, true,
          [RolloverRow("B", 300, 100.0, false)])
  }

  lemma OrderScheduledInB(latencyNs: int)
    requires latencyNs > 0
    ensures var c, run := PlainConfig(latencyNs), CrossingRun(latencyNs);
      && PaperEdges.SchedulesBuy(c, run, 4, Up) && PaperEdges.Seen(c, run, 4).slug == "B"
      && At(c, run, 5) == OrderedInB(latencyNs)
  {
    var c, run := PlainConfig(latencyNs), CrossingRun(latencyNs);
    var b := Book(true, 0.4, 0.5);
    var none := Book(false, 0.0, 0.0);
    var log := [RolloverRow("B", 300, 100.0, false)];
    assert At(c, run, 1) ==
      State(Hot(0, "A", false, 0, true, none, none, -1, -1), Flat, NoOrder, 100.0, false, false, []);
    var s2 := State(Hot(300, "B", false, 0, true, none, none, -1, -1), Flat, NoOrder, 100.0, false, true, log);
    assert At(c, run, 2) == s2;
    assert At(c, run, 3) == s2.(hot := Hot(300, "B", true, 300000, true, none, none, -1, -1));
    assert At(c, run, 4) == s2.(hot := Hot(300, "B", true, 300000, true, b, none, -1, -1));
  }

  // ---------------------------------------------------------------- exactly when a fill crosses

  /** The market that event `k` sets: by a rollover, by the bootstrap, or by a quote while none is known. */
  function MarketSet(c: Config, run: seq<Event>, k: nat): Option<string>
    requires k < |run|
  {
    match run[k]
    case Rollover(_, slug, _, _, _) => Some(slug)
    case Bootstrap(_, slug, _, _) => Some(slug)
    case Quote(_, _, _, epoch, slug, _) => if epoch >= 0 && At(c, run, k).hot.epoch < 0 then Some(slug) else None
    case _ => None
  }

  /** The market set last by an event after `n`, up to `m`. */
  function LastMarketSet(c: Config, run: seq<Event>, n: nat, m: nat): Option<string>
    requires n <= m < |run|
    decreases m
  {
    if m == n then None
    else if MarketSet(c, run, m).Some? then MarketSet(c, run, m)
    else LastMarketSet(c, run, n, m - 1)
  }

  /** The market and the epoch after one event. */
  lemma MarketStep(c: Config, run: seq<Event>, k: nat)
    requires k < |run|
    ensures At(c, run, k + 1).hot.slug == match MarketSet(c, run, k)
                                          case Some(slug) => slug
                                          case None => At(c, run, k).hot.slug
    ensures PaperEdges.Passes(run, k) ==> At(c, run, k + 1).hot.slug == PaperEdges.Seen(c, run, k).slug
    ensures PaperEdges.Passes(run, k) ==> At(c, run, k + 1).hot.epoch == PaperEdges.Seen(c, run, k).epoch
  {
    hide At;
    PaperLedger.AtNext(c, run, k + 1);
    PaperLedger.ReachableShape(c, run, k);
    MarketOfStep(c, At(c, run, k), run[k]);
  }

  lemma MarketOfStep(c: Config, s: State, e: Event)
    requires PaperLedger.Shape(s)
    ensures var h := Step(c, s, e).hot;
      match e
      case SpotTick(_, _) => h.slug == s.hot.slug && h.epoch == s.hot.epoch
      case Quote(_, _, _, epoch, slug, _) =>
        if epoch >= 0 && s.hot.epoch < 0 then h.slug == slug && h.epoch == epoch
        else h.slug == s.hot.slug && h.epoch == s.hot.epoch
      case Rollover(epoch, slug, _, _, _) => h.slug == slug && h.epoch == epoch
      case Bootstrap(epoch, slug, _, _) => h.slug == slug && h.epoch == epoch
      case Idle => h == s.hot
  {
    hide RawEdge, StopLossHit, TakeProfitHit, EntryWindow, ExecuteDue, TakerFee, Value;
    if e.SpotTick? || e.Quote? {
      var s0 := s.(hot := Observe(s.hot, e));
      PaperLedger.ScheduleKeepsShape(c, s0, e.tick);
      PaperEdges.ExecutionKeepsHot(c, Schedule(c, s0, e.tick), e.tick);
    }
  }

  lemma {:induction false} MarketIsLastSet(c: Config, run: seq<Event>, n: nat, m: nat)
    requires n <= m < |run|
    ensures At(c, run, m + 1).hot.slug == match LastMarketSet(c, run, n, m)
                                          case Some(slug) => slug
                                          case None => At(c, run, n + 1).hot.slug
    decreases m
  {
    hide At, MarketSet;
    if n < m {
      MarketIsLastSet(c, run, n, m - 1);
      MarketStep(c, run, m);
    }
  }

  /** A BUY row names the market that the filling pass sees. */
  lemma FilledInSeenMarket(c: Config, run: seq<Event>, m: nat, side: Side)
    requires m < |run| && PaperEdges.Buys(c, run, m, side)
    ensures PaperEdges.Passes(run, m)
    ensures At(c, run, m + 1).log[|At(c, run, m).log|].slug == PaperEdges.Seen(c, run, m).slug
  {
    hide At, Step;
    PaperLedger.ReachableShape(c, run, m);
    PaperLedger.AtNext(c, run, m + 1);
    PaperEdges.FillStep(c, At(c, run, m), run[m]);
    RowNamesMarket(c, At(c, run, m), run[m]);
  }

  lemma RowNamesMarket(c: Config, s: State, e: Event)
    requires PaperLedger.Shape(s) && (e.SpotTick? || e.Quote?)
    requires var s' := Step(c, s, e); |s'.log| == |s.log| + 1 && s'.log[|s.log|].BuyRow?
    ensures Step(c, s, e).log[|s.log|].slug == Observe(s.hot, e).slug
  {
    hide Schedule, ExecuteDue, Observe;
    var s0 := s.(hot := Observe(s.hot, e));
    SchedulingKeepsMarket(c, s0, e.tick);
    FilledRowNamesMarket(c, Schedule(c, s0, e.tick), e.tick);
  }

  lemma SchedulingKeepsMarket(c: Config, s: State, t: Tick)
    ensures Schedule(c, s, t).log == s.log && Schedule(c, s, t).hot.slug == s.hot.slug
  {
    hide RawEdge, StopLossHit, TakeProfitHit, EntryWindow;
  }

  lemma FilledRowNamesMarket(c: Config, s: State, t: Tick)
    requires var s' := ExecuteDue(c, s, t); |s'.log| == |s.log| + 1 && s'.log[|s.log|].BuyRow?
    ensures ExecuteDue(c, s, t).log[|s.log|].slug == s.hot.slug
  {
    hide BuyStillWanted, TakerFee, Value, Shares, SpendFor, TakeProfitHit, LossAtLeast, LossExceeds;
  }

  /** Exactly when a BUY stays in the market it was scheduled in, for every run: no event since set a market, or the
      one set last is the same. Otherwise it is filled in another one. */
  lemma FillCrossesIff(c: Config, run: seq<Event>, n: nat, m: nat, side: Side)
    requires n <= m < |run| && PaperEdges.SchedulesBuy(c, run, n, side) && PaperEdges.Buys(c, run, m, side)
    ensures var scheduledIn := PaperEdges.Seen(c, run, n).slug;
      At(c, run, m + 1).log[|At(c, run, m).log|].slug == scheduledIn
      <==> LastMarketSet(c, run, n, m) in {None, Some(scheduledIn)}
  {
    hide At, LastMarketSet, MarketSet;
    FilledInSeenMarket(c, run, m, side);
    MarketStep(c, run, n);
    MarketStep(c, run, m);
    MarketIsLastSet(c, run, n, m);
  }

  /** Rollovers and bootstraps set epochs that are not negative. */
  ghost predicate EpochsKnown(run: seq<Event>) {
    forall k :: 0 <= k < |run| ==>
      (run[k].Rollover? ==> run[k].newEpoch >= 0) && (run[k].Bootstrap? ==> run[k].bootEpoch >= 0)
  }

  /** Then no quote sets a market after an order has been scheduled: only rollovers and bootstraps make a fill cross. */
  lemma {:induction false} QuotesSetNoMarket(c: Config, run: seq<Event>, n: nat, k: nat, side: Side)
    requires n < k < |run| && EpochsKnown(run) && PaperEdges.SchedulesBuy(c, run, n, side)
    ensures At(c, run, k).hot.epoch >= 0
    ensures MarketSet(c, run, k).Some? <==> run[k].Rollover? || run[k].Bootstrap?
    decreases k
  {
    hide At, Schedule;
    if k == n + 1 {
      MarketStep(c, run, n);
    } else {
      QuotesSetNoMarket(c, run, n, k - 1, side);
      PaperLedger.AtNext(c, run, k);
      PaperLedger.ReachableShape(c, run, k - 1);
      MarketOfStep(c, At(c, run, k - 1), run[k - 1]);
    }
  }

  /** Exactly when an order survives a rollover: a BUY was pending before it, and then it is still that BUY. */
  lemma OrderSurvivesRolloverIff(c: Config, s: State, e: Event)
    requires PaperLedger.Shape(s) && e.Rollover?
    ensures Step(c, s, e).order != NoOrder <==> s.order.BuyOrder?
    ensures s.order.BuyOrder? ==> Step(c, s, e).order == s.order
  {
    hide TakerFee;
  }

  lemma ExecutesAtOnce(c: Config, s: State, t: Tick)
    requires c.latencyNs <= 0 && t.schedNs <= t.execNs
    requires s.order == NoOrder
    ensures Strategy(c, s, t).order == NoOrder
  {
    hide EntrySignal, EntryWindow, StopLossHit, TakeProfitHit, BuyStillWanted, SpendFor, TakerFee, Value, Shares,
         LossAtLeast, LossExceeds;
  }

  /** Without latency an order never outlives the event that scheduled it, so no BUY crosses a rollover. */
  lemma {:induction false} NoLatencyNoPendingOrder(c: Config, run: seq<Event>, n: nat)
    requires n <= |run| && c.latencyNs <= 0
    requires forall k :: 0 <= k < n && PaperEdges.Passes(run, k) ==> run[k].tick.schedNs <= run[k].tick.execNs
    ensures At(c, run, n).order == NoOrder
  {
    hide Strategy;
    if n > 0 {
      NoLatencyNoPendingOrder(c, run, n - 1);
      var s, e := At(c, run, n - 1), run[n - 1];
      if PaperEdges.Passes(run, n - 1) { ExecutesAtOnce(c, s.(hot := Observe(s.hot, e)), e.tick); }
    }
  }

  // ---------------------------------------------------------------- cash can dip below zero

  function AllInConfig(): Config {
    PlainConfig(0).(riskFrac := 1.0, fixedSpend := 0.0, feeRate := 0.1, initialCash := 1.025205)
  }

  function AllInRun(): seq<Event> {
    var t := Tick(0.9, 0.1, 0, 0);
    [ Bootstrap(0, "A", true, true),
      SpotTick(0, t),
      Quote(Up, 0.4, 0.5, 0, "A", t),
      Quote(Down, 0.4, 0.5, 0, "A", t) ]
  }

  /** The state after the first three events, with the Down quote still missing. */
  function BeforeAllIn(): State {
    State(Hot(0, "A", true, 0, true, Book(true, 0.4, 0.5), Book(false, 0.0, 0.0), -1, -1), Flat, NoOrder, 1.025205,
          false, true, [])
  }

  lemma AllInReady()
    ensures OneMode(AllInRun()) && At(AllInConfig(), AllInRun(), 3) == BeforeAllIn()
  {
    var c, run := AllInConfig(), AllInRun();
    var none := Book(false, 0.0, 0.0);
    assert At(c, run, 1) ==
      State(Hot(0, "A", false, 0, true, none, none, -1, -1), Flat, NoOrder, 1.025205, false, true, []);
    assert At(c, run, 2) == At(c, run, 1).(hot := Hot(0, "A", true, 0, true, none, none, -1, -1));
  }

  lemma AllInFee()
    ensures SpendFor(AllInConfig(), 1.025205, 0.5) == 1.0002 && TakerFee(1.0002, 0.5, 0.1) == 0.02501
  {
    assert Round(2500.5) == 2501;
  }

  /** Cash is not always non-negative: this run ends at -0.000005, so the bound of
      `PaperLedger.NeverInsolvent` cannot be improved. `PaperLedger.BuyOverdrawsIff` says when. */
  lemma CashCanReachTheBound()
    ensures OneMode(AllInRun()) && At(AllInConfig(), AllInRun(), 4).cash == -0.000005
  {
    hide At, OneMode, SpendFor, TakerFee;
    var c, run := AllInConfig(), AllInRun();
    AllInReady();
    AllInFee();
    PaperLedger.AtNext(c, run, 4);
    var b := Book(true, 0.4, 0.5);
    var s4 := BeforeAllIn().(hot := Hot(0, "A", true, 0, true, b, b, 0, -1), order := BuyOrder(Up, 0));
    assert Schedule(c, BeforeAllIn().(hot := Observe(BeforeAllIn().hot, run[3])), run[3].tick) == s4;
    assert At(c, run, 4) == FillBuy(c, s4, run[3].tick, Up);
  }
}
