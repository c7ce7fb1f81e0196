/** The trading rules of the paper machine in plain arithmetic over its inputs, proved of the transition functions:
    when an order is scheduled and which, what a fill costs, what a sale brings in, and what each event leaves
    alone. Nothing here is stated through the predicates that `PaperTrading` computes with. */
module PaperRules {
  import opened Basics
  import opened PaperTrading
  import PaperLedger

  // ---------------------------------------------------------------- fees and sizes

  /** A fee that is not negative is the exact one, `notional * rate * price * (1 - price)`, to the nearest
      hundred-thousandth. */
  lemma FeeRule(notional: real, price: real, rate: real)
    requires notional * (rate * price * (1.0 - price)) >= 0.0
    ensures var fee, exact := TakerFee(notional, price, rate), notional * (rate * price * (1.0 - price));
      && -0.000005 <= fee - exact <= 0.000005
      && fee == (fee * 100000.0).Floor as real / 100000.0
  {
    hide Round, RawFee, FeeMultiplier;
    RawFeeIs(notional, price, rate);
    PaperLedger.FeeError(notional, price, rate);
    CentRule(Round(RawFee(notional, price, rate) * 100000.0));
  }

  lemma RawFeeIs(notional: real, price: real, rate: real)
    ensures RawFee(notional, price, rate) == notional * (rate * price * (1.0 - price))
  {
  }

  lemma CentRule(n: int)
    ensures ((n as real / 100000.0) * 100000.0).Floor == n && (0.0 * 100000.0).Floor == 0
  {
    assert (n as real / 100000.0) * 100000.0 == n as real;
  }

  /** The amount an order should have: the fixed one if there is one, else a fraction of the cash, at least a
      dollar. */
  ghost predicate IsTarget(c: Config, cash: real, target: real) {
    if c.fixedSpend > 0.0 then target == c.fixedSpend
    else target >= 1.0 && target >= cash * c.riskFrac && (target == 1.0 || target == cash * c.riskFrac)
  }

  /** An order spends the largest amount that is no more than the target and, with its exact fee, no more than the
      cash. */
  lemma SpendRule(c: Config, cash: real, ask: real)
    requires 0.0 <= c.feeRate <= 2.0 && PaperLedger.IsPrice(ask)
    ensures var spend, m := SpendFor(c, cash, ask), c.feeRate * ask * (1.0 - ask);
      && m >= 0.0 && spend * (1.0 + m) <= cash
      && exists target :: IsTarget(c, cash, target) && spend <= target
                          && (spend == target || spend * (1.0 + m) == cash)
  {
    PaperLedger.FeeMultiplierBounds(ask, c.feeRate);
    var m := c.feeRate * ask * (1.0 - ask);
    assert m == FeeMultiplier(ask, c.feeRate);
    TargetRule(c, cash);
    CappedRule(SpendTarget(c, cash), cash, 1.0 + m);
    assert SpendFor(c, cash, ask) == MinReal(SpendTarget(c, cash), cash / (1.0 + m));
  }

  /** With a divisor of zero, which only a negative fee rate or a price above one can give, the cash limits nothing,
      and a debt everything. */
  lemma ZeroDivisorRule(c: Config, cash: real, ask: real)
    requires c.feeRate * ask * (1.0 - ask) == -1.0
    ensures if cash < 0.0 then SpendFor(c, cash, ask) < 1.0 else IsTarget(c, cash, SpendFor(c, cash, ask))
  {
  }

  lemma TargetRule(c: Config, cash: real)
    ensures IsTarget(c, cash, SpendTarget(c, cash))
  {
  }

  lemma CappedRule(target: real, cash: real, d: real)
    requires d >= 1.0
    ensures var spend := MinReal(target, cash / d);
      spend <= target && spend * d <= cash && (spend == target || spend * d == cash)
  {
    assert (cash / d) * d == cash;
    PaperLedger.CappedProduct(MinReal(target, cash / d), cash, d);
  }

  // ---------------------------------------------------------------- scheduling

  function AskOf(h: Hot, side: Side): real { match side case Up => h.up.ask case Down => h.down.ask }

  function BidOf(h: Hot, side: Side): real { match side case Up => h.up.bid case Down => h.down.bid }

  function TheoryOf(t: Tick, side: Side): real { match side case Up => t.pUp case Down => t.pDown }

  function TimerOf(h: Hot, side: Side): int { match side case Up => h.upSince case Down => h.downSince }

  /** The ask lies the entry edge below the theoretical price and in the range that is bought at. */
  ghost predicate GoodEdge(c: Config, h: Hot, t: Tick, side: Side) {
    && AskOf(h, side) + c.entry <= TheoryOf(t, side)
    && 0.0 < AskOf(h, side)
    && (c.useAskRange ==> c.askMin <= AskOf(h, side) <= c.askMax)
    && (!c.useAskRange ==> 0.02 <= AskOf(h, side))
  }

  /** The edge is there, and its timer has run for the persistence interval. */
  ghost predicate LastingEdge(c: Config, h: Hot, t: Tick, side: Side) {
    && GoodEdge(c, h, t, side)
    && (c.edgePersistNs > 0 ==> TimerOf(h, side) >= 0 && TimerOf(h, side) + c.edgePersistNs <= t.schedNs)
  }

  /** The spot clock is within the configured seconds of the bucket. */
  ghost predicate InWindow(c: Config, h: Hot) {
    c.useEntryWindow ==>
      h.epoch >= 0
      && c.entryMinSec * 1000.0 <= (h.entryClockMs - 1000 * h.epoch) as real <= c.entryMaxSec * 1000.0
  }

  lemma EdgeRule(c: Config, h: Hot, t: Tick, side: Side)
    ensures RawEdge(c, h, t, side) <==> GoodEdge(c, h, t, side)
    ensures EntrySignal(c, h, t, side) <==> LastingEdge(c, h, t, side)
  {
  }

  lemma WindowRule(c: Config, h: Hot)
    ensures EntryWindow(c, h) <==> InWindow(c, h)
  {
  }

  /** Nothing is scheduled, and no timer moves, while an order is pending or after a risk stop. */
  lemma NoScheduleRule(c: Config, s: State, t: Tick)
    requires s.order != NoOrder || s.riskStop
    ensures Schedule(c, s, t) == s
  {
  }

  /** The entry rule. A BUY of a side is scheduled exactly if trading is on, the spot clock is in the window, the edge
      of the side has lasted, and the edge of the other side has not or is not larger (for Down: is smaller). */
  lemma EntryRule(c: Config, s: State, t: Tick)
    requires s.order == NoOrder && !s.riskStop && s.pos.Flat?
    ensures var s', due := Schedule(c, s, t), t.schedNs + c.latencyNs;
      var up, down := LastingEdge(c, s.hot, t, Up), LastingEdge(c, s.hot, t, Down);
      var edgeUp, edgeDown := t.pUp - s.hot.up.ask, t.pDown - s.hot.down.ask;
      && (s'.order == BuyOrder(Up, due) <==> s.enabled && InWindow(c, s.hot) && up && (down ==> edgeUp >= edgeDown))
      && (s'.order == BuyOrder(Down, due) <==> s.enabled && InWindow(c, s.hot) && down && (up ==> edgeDown > edgeUp))
      && s'.order in {NoOrder, BuyOrder(Up, due), BuyOrder(Down, due)}
      && s' == s.(hot := s'.hot, order := s'.order)
      && s'.hot == s.hot.(upSince := s'.hot.upSince, downSince := s'.hot.downSince)
  {
    hide RawEdge, EntrySignal, EntryWindow, InWindow, GoodEdge, LastingEdge, Rearm;
    EdgeRule(c, s.hot, t, Up);
    EdgeRule(c, s.hot, t, Down);
    WindowRule(c, s.hot);
    RearmKeeps(c, s.hot, t);
  }

  lemma RearmKeeps(c: Config, h: Hot, t: Tick)
    ensures Rearm(c, h, t) == h.(upSince := Rearm(c, h, t).upSince, downSince := Rearm(c, h, t).downSince)
  {
  }

  /** The timers after an evaluation: started by an edge that appears, kept by one that stays, cleared otherwise. */
  lemma TimerRule(c: Config, s: State, t: Tick, side: Side)
    requires s.order == NoOrder && !s.riskStop && s.pos.Flat?
    ensures TimerOf(Schedule(c, s, t).hot, side) ==
      if !s.enabled || !GoodEdge(c, s.hot, t, side) then -1
      else if TimerOf(s.hot, side) >= 0 then TimerOf(s.hot, side) else t.schedNs
  {
    hide RawEdge, EntrySignal, EntryWindow, GoodEdge;
    EdgeRule(c, s.hot, t, Up);
    EdgeRule(c, s.hot, t, Down);
  }

  /** What the held shares would bring in now. */
  function NetValue(c: Config, s: State): real
    requires s.pos.Held?
  {
    var bid := BidOf(s.hot, s.pos.side);
    Value(s.pos.qty, bid) - TakerFee(Value(s.pos.qty, bid), bid, c.feeRate)
  }

  /** The loss on the position, fees included, is at least the configured part of what it cost. */
  ghost predicate LossReached(c: Config, s: State)
    requires s.pos.Held?
  {
    c.stopLossFrac > 0.0 && BidOf(s.hot, s.pos.side) > 0.0
    && s.pos.basis - NetValue(c, s) >= c.stopLossFrac * s.pos.basis
  }

  /** The bid is up to the theoretical price, less the two allowances. */
  ghost predicate ProfitReached(c: Config, s: State, t: Tick)
    requires s.pos.Held?
  {
    BidOf(s.hot, s.pos.side) + c.closeEps + c.closeEarly >= TheoryOf(t, s.pos.side)
  }

  lemma QuotientAtMost(a: real, b: real, f: real)
    requires b > 0.0
    ensures a / b <= -f <==> -a >= f * b
  {
    assert (a / b) * b == a;
    if a / b <= -f {
      assert (-f - a / b) * b >= 0.0;
    } else {
      assert (a / b + f) * b > 0.0;
    }
  }

  lemma StopLossRule(c: Config, s: State)
    requires s.pos.Held? && s.pos.basis > 0.0 && s.pos.qty > 0.0
    ensures StopLossHit(c, s.pos.basis, BookOf(s.hot, s.pos.side).bid, s.pos.qty) <==> LossReached(c, s)
  {
    hide TakerFee;
    QuotientAtMost(NetValue(c, s) - s.pos.basis, s.pos.basis, c.stopLossFrac);
  }

  /** The exit rule. A SELL is scheduled exactly when the loss or the profit is reached, and the loss goes before. */
  lemma ExitRule(c: Config, s: State, t: Tick)
    requires s.order == NoOrder && !s.riskStop && s.pos.Held? && s.pos.basis > 0.0 && s.pos.qty > 0.0
    ensures var s', due := Schedule(c, s, t), t.schedNs + c.latencyNs;
      && (s'.order == SellOrder(StopLoss, due) <==> LossReached(c, s))
      && (s'.order == SellOrder(TakeProfit, due) <==> !LossReached(c, s) && ProfitReached(c, s, t))
      && s'.order in {NoOrder, SellOrder(StopLoss, due), SellOrder(TakeProfit, due)}
      && s' == s.(hot := s.hot.(upSince := -1, downSince := -1), order := s'.order)
  {
    hide StopLossHit, LossReached;
    StopLossRule(c, s);
  }

  // ---------------------------------------------------------------- execution

  function Equity(c: Config, s: State, side: Side, spend: real): real
    requires AskOf(s.hot, side) != 0.0
  {
    s.cash - spend - TakerFee(spend, AskOf(s.hot, side), c.feeRate)
    + Value(Shares(spend, AskOf(s.hot, side)), (BidOf(s.hot, side) + AskOf(s.hot, side)) / 2.0)
  }

  /** The buying rule. A due BUY is cancelled exactly if its edge or its window is gone or it would spend less than a
      dollar; it is refused, with a risk stop, exactly if the equity after it, at the mid price, would be more than
      the allowed loss below the initial cash; else it is filled at the ask with the fee on top. */
  lemma BuyRule(c: Config, s: State, t: Tick, side: Side)
    ensures var s', ask := FillBuy(c, s, t, side), AskOf(s.hot, side);
      var spend := SpendFor(c, s.cash, ask);
      if !GoodEdge(c, s.hot, t, side) || !InWindow(c, s.hot) || spend < 1.0 then s' == s.(order := NoOrder)
      else
        var loss := c.initialCash - Equity(c, s, side, spend);
        var fee := TakerFee(spend, ask, c.feeRate);
        if c.maxLoss.Some? && loss > c.maxLoss.value + 0.000000001 then
          s' == s.(order := NoOrder, riskStop := true)
        else
          && s'.pos == Held(side, s.hot.slug, Shares(spend, ask), spend + fee, ask)
          && s'.cash == s.cash - spend - fee && s'.order == NoOrder
          && s'.riskStop == (s.riskStop || (c.maxLoss.Some? && loss >= c.maxLoss.value - 0.000000001))
          && s'.log == s.log + [BuyRow(s.hot.slug, side, TheoryOf(t, side), ask, (BidOf(s.hot, side) + ask) / 2.0,
                                       Shares(spend, ask), spend, fee, s.cash, s'.cash)]
          && s'.hot == s.hot && s'.enabled == s.enabled
  {
    hide TakerFee, SpendFor, EntryWindow, InWindow, RawEdge, Value, Shares;
    EdgeRule(c, s.hot, t, side);
    WindowRule(c, s.hot);
  }

  /** The selling rule. A due SELL for a profit that is no longer reached is cancelled; else the whole holding is sold
      at the bid of its own side, the fee taken off, and trading stops if the cash is the allowed loss below the
      initial one. */
  lemma SellRule(c: Config, s: State, t: Tick, reason: ExitReason)
    requires s.pos.Held?
    ensures var s', bid := FillSell(c, s, t, reason), BidOf(s.hot, s.pos.side);
      if (reason == TakeProfit && !ProfitReached(c, s, t)) || s.pos.qty <= 0.000000000001 then
        s' == s.(order := NoOrder)
      else
        && s'.pos == Flat && s'.order == NoOrder && s'.cash == s.cash + NetValue(c, s)
        && s'.riskStop == (s.riskStop || (c.maxLoss.Some?
                                          && c.initialCash - s'.cash >= c.maxLoss.value - 0.000000001))
        && s'.log == s.log + [SellRow(s.pos.slug, s.pos.side, reason, TheoryOf(t, s.pos.side), bid, s.pos.qty,
                                      Value(s.pos.qty, bid), TakerFee(Value(s.pos.qty, bid), bid, c.feeRate),
                                      s.cash, s'.cash)]
        && s'.hot == s.hot && s'.enabled == s.enabled
  {
    hide TakerFee, Value;
  }

  /** The rule of the due time: an order waits until it is due and all market data is there; then it is filled or
      cancelled. */
  lemma DueRule(c: Config, s: State, t: Tick)
    requires PaperLedger.Shape(s)
    ensures var s' := ExecuteDue(c, s, t);
      var complete := s.hot.haveSpot && s.hot.haveStrike && s.hot.up.seen && s.hot.down.seen && s.hot.epoch >= 0;
      && (s.order == NoOrder ==> s' == s)
      && (s.order != NoOrder && (!complete || t.execNs < s.order.due) ==> s' == s)
      && (s.order.BuyOrder? && complete && t.execNs >= s.order.due ==> s' == FillBuy(c, s, t, s.order.side))
      && (s.order.SellOrder? && complete && t.execNs >= s.order.due ==>
            s.pos.Held? && s' == FillSell(c, s, t, s.order.reason))
  {
    hide FillBuy, FillSell;
  }

  // ---------------------------------------------------------------- events

  /** A pass of the strategy schedules first and executes then, and does nothing while data is missing or trading is
      off. */
  lemma PassRule(c: Config, s: State, t: Tick)
    ensures Strategy(c, s, t) ==
      if s.hot.haveSpot && s.hot.haveStrike && s.hot.up.seen && s.hot.down.seen && s.hot.epoch >= 0 && s.enabled
      then ExecuteDue(c, Schedule(c, s, t), t) else s
  {
    hide Schedule, ExecuteDue;
  }

  /** What an event does to the market data before the strategy runs: a quote replaces the book of its own side. */
  lemma DataRule(h: Hot, e: Event)
    requires e.SpotTick? || e.Quote?
    ensures var h' := Observe(h, e);
      && (e.SpotTick? ==> h' == h.(haveSpot := true, entryClockMs := e.entryClockMs))
      && (e.Quote? && e.side == Up ==> h'.up == Book(true, e.bid, e.ask) && h'.down == h.down)
      && (e.Quote? && e.side == Down ==> h'.down == Book(true, e.bid, e.ask) && h'.up == h.up)
      && (e.Quote? ==> h'.haveSpot == h.haveSpot && h'.entryClockMs == h.entryClockMs && h'.haveStrike == h.haveStrike)
      && (e.Quote? && h.epoch < 0 && e.epoch >= 0 ==>
            h'.epoch == e.epoch && h'.slug == e.slug && h'.upSince == -1 && h'.downSince == -1)
      && (e.Quote? && (h.epoch >= 0 || e.epoch < 0) ==>
            h'.epoch == h.epoch && h'.slug == h.slug && h'.upSince == h.upSince && h'.downSince == h.downSince)
  {
  }

  /** The rollover rule. A flat machine keeps its cash and its pending order; a position is dropped if force selling is
      off or nothing is left of it, and else sold at the old market's bid of its own side. Either way the machine is
      flat, the market is the new one, the timers are cleared and trading is on. */
  lemma RolloverRule(c: Config, s: State, e: Event)
    requires e.Rollover?
    ensures var s' := Step(c, s, e);
      var sells := s.pos.Held? && !c.forceSellDisabled && s.pos.qty > 0.000000000001;
      var bid := if s.pos.Held? && s.pos.side == Down then e.downBid else e.upBid;
      && s'.pos == Flat && s'.order == (if s.pos.Held? then NoOrder else s.order)
      && s'.enabled && s'.riskStop == s.riskStop
      && s'.hot == s.hot.(slug := e.newSlug, epoch := e.newEpoch, haveStrike := e.strikeKnown,
                          upSince := -1, downSince := -1)
      && (!sells ==> s'.cash == s.cash && s'.log == s.log + [RolloverRow(e.newSlug, e.newEpoch, s.cash, false)])
      && (sells ==>
            var proceeds := Value(s.pos.qty, bid);
            var fee := TakerFee(proceeds, bid, c.feeRate);
            && s'.cash == s.cash + proceeds - fee
            && s'.log == s.log + [ForceSellRow(s.pos.slug, s.pos.side, bid, s.pos.qty, proceeds, fee, s.cash, s'.cash)]
                               + [RolloverRow(e.newSlug, e.newEpoch, s'.cash, false)])
  {
    hide TakerFee, Value;
  }

  /** The bootstrap sets the market and can turn trading on; an idle event does nothing. */
  lemma OtherEventsRule(c: Config, s: State, e: Event)
    requires e.Bootstrap? || e.Idle?
    ensures Step(c, s, e) ==
      if e.Idle? then s
      else s.(hot := s.hot.(epoch := e.bootEpoch, slug := e.bootSlug, haveStrike := e.strikeKnown),
              enabled := s.enabled || e.enable)
  {
  }

  /** A machine starts flat, with the initial cash, no market, no order, trading off and an empty log. */
  lemma StartRule(c: Config)
    ensures var s := Init(c);
      && s.pos == Flat && s.order == NoOrder && s.cash == c.initialCash && !s.riskStop && !s.enabled && s.log == []
      && s.hot.epoch < 0 && !s.hot.haveSpot && !s.hot.haveStrike && !s.hot.up.seen && !s.hot.down.seen
      && s.hot.upSince == -1 && s.hot.downSince == -1
  {
  }
}
