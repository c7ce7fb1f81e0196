/** Whole-run properties of the paper machine: the shape of its position and order, the trade log
    as a ledger, solvency, the risk stop and the warm-up bucket. */
module PaperLedger {
  import opened Basics
  import opened PaperTrading

  // ---------------------------------------------------------------- shape of position and order

  ghost predicate Shape(s: State) {
    && (s.order.BuyOrder? ==> s.pos.Flat?)
    && (s.order.SellOrder? ==> s.pos.Held?)
    && (s.riskStop ==> s.order == NoOrder)
    && (s.pos.Held? ==> s.pos.qty > 0.0 && s.pos.basis > 0.0)
    && (!s.enabled ==> s.log == [] && s.pos.Flat? && s.order == NoOrder && !s.riskStop)
  }

  lemma FeeNonNegative(notional: real, price: real, rate: real)
    ensures TakerFee(notional, price, rate) >= 0.0
  {
  }

  lemma SharesPositive(spend: real, ask: real)
    requires spend > 0.0 && ask > 0.0
    ensures Shares(spend, ask) > 0.0
  {
  }

  lemma ScheduleKeepsShape(c: Config, s: State, t: Tick)
    requires Shape(s)
    ensures Shape(Schedule(c, s, t))
  {
    hide EntrySignal, EntryWindow, StopLossHit, TakeProfitHit;
  }

  lemma StepKeepsShape(c: Config, s: State, e: Event)
    requires Shape(s)
    ensures Shape(Step(c, s, e))
  {
    if e.SpotTick? || e.Quote? {
      var s0 := s.(hot := Observe(s.hot, e));
      var s1 := Schedule(c, s0, e.tick);
      assert Shape(s1);
      if s1.order.BuyOrder? { FillKeepsShape(c, s1, e.tick, s1.order.side); }
    }
  }

  lemma FillKeepsShape(c: Config, s: State, t: Tick, side: Side)
    requires Shape(s) && s.order.BuyOrder? && s.enabled
    ensures Shape(FillBuy(c, s, t, side))
  {
    var ask := BookOf(s.hot, side).ask;
    var spend := SpendFor(c, s.cash, ask);
    if BuyStillWanted(c, s.hot, t, side) && spend >= 1.0 {
      SharesPositive(spend, ask);
      FeeNonNegative(spend, ask, c.feeRate);
    }
  }

  lemma AtStart(c: Config, run: seq<Event>)
    ensures At(c, run, 0) == Init(c)
  {
  }

  lemma InitShape(c: Config)
    ensures Shape(Init(c))
  {
  }

  lemma AtNext(c: Config, run: seq<Event>, n: nat)
    requires 0 < n <= |run|
    ensures At(c, run, n) == Step(c, At(c, run, n - 1), run[n - 1])
  {
  }

  /** In every reachable state a pending BUY means flat, a pending SELL means holding, a held
      position has positive quantity and cost, and a risk stop leaves nothing pending. */
  lemma {:induction false} ReachableShape(c: Config, run: seq<Event>, n: nat)
    requires n <= |run|
    ensures Shape(At(c, run, n))
  {
    hide *;
    AtStart(c, run);
    if n == 0 {
      InitShape(c);
    } else {
      AtNext(c, run, n);
      ReachableShape(c, run, n - 1);
      StepKeepsShape(c, At(c, run, n - 1), run[n - 1]);
    }
  }

  // ---------------------------------------------------------------- the log as a ledger

  datatype Holding = Holding(slug: string, side: Side, qty: real)

  datatype Ledger = Ledger(cash: real, holding: Option<Holding>)

  function Post(l: Ledger, row: Row): Ledger {
    match row
    case BuyRow(slug, side, _, _, _, qty, cost, fee, _, _) =>
      Ledger(l.cash - cost - fee, Some(Holding(slug, side, qty)))
    case SellRow(_, _, _, _, _, _, proceeds, fee, _, _) => Ledger(l.cash + proceeds - fee, None)
    case ForceSellRow(_, _, _, _, proceeds, fee, _, _) => Ledger(l.cash + proceeds - fee, None)
    case RolloverRow(_, _, _, _) => Ledger(l.cash, None)
  }

  /** What the rows alone say the cash and the holding are. */
  function Replay(cash: real, log: seq<Row>): Ledger {
    if log == [] then Ledger(cash, None) else Post(Replay(cash, log[..|log| - 1]), log[|log| - 1])
  }

  /** A sale of exactly the holding, at the logged bid, with the fee of that sale. */
  ghost predicate SaleSound(c: Config, l: Ledger, holding: Holding, bid: real, proceeds: real, fee: real,
                            cashBefore: real, cashAfter: real) {
    && l.holding == Some(holding)
    && proceeds == Value(holding.qty, bid)
    && fee == TakerFee(proceeds, bid, c.feeRate)
    && cashBefore == l.cash
    && cashAfter == l.cash + proceeds - fee
  }

  /** A row is sound after the ledger `l` when its own figures agree with `l` and with the trading rules. */
  ghost predicate Sound(c: Config, l: Ledger, row: Row) {
    match row
    case BuyRow(slug, side, theo, ask, mid, qty, cost, fee, before, after) =>
      && l.holding == None
      && AskAllowed(c, ask) && theo - ask >= c.entry
      && cost >= 1.0 && Value(qty, ask) == cost && fee == TakerFee(cost, ask, c.feeRate)
      && before == l.cash && after == l.cash - cost - fee
      && !LossExceeds(c, after + Value(qty, mid), 0.000000001)
    case SellRow(slug, side, reason, theo, bid, qty, proceeds, fee, before, after) =>
      && SaleSound(c, l, Holding(slug, side, qty), bid, proceeds, fee, before, after)
      && (reason == TakeProfit ==> TakeProfitHit(c, theo, bid))
    case ForceSellRow(slug, side, bid, qty, proceeds, fee, before, after) =>
      SaleSound(c, l, Holding(slug, side, qty), bid, proceeds, fee, before, after)
    case RolloverRow(_, _, cash, havePos) =>
      !havePos && cash == l.cash
  }

  ghost predicate Audited(c: Config, log: seq<Row>) {
    forall k :: 0 <= k < |log| ==> Sound(c, Replay(c.initialCash, log[..k]), log[k])
  }

  function LedgerOf(s: State): Ledger {
    Ledger(s.cash, if s.pos.Flat? then None else Some(Holding(s.pos.slug, s.pos.side, s.pos.qty)))
  }

  /** The log audits, and replaying it yields the cash and holding of the machine. */
  ghost predicate Reconciles(c: Config, s: State) {
    && Audited(c, s.log)
    && Replay(c.initialCash, s.log) == LedgerOf(s)
  }

  lemma AppendRow(c: Config, log: seq<Row>, row: Row)
    requires Audited(c, log)
    requires Sound(c, Replay(c.initialCash, log), row)
    ensures Audited(c, log + [row])
    ensures Replay(c.initialCash, log + [row]) == Post(Replay(c.initialCash, log), row)
  {
    var longer := log + [row];
    assert longer[..|log|] == log;
    forall k | 0 <= k < |longer|
      ensures Sound(c, Replay(c.initialCash, longer[..k]), longer[k])
    {
      if k < |log| { assert longer[..k] == log[..k]; }
    }
  }

  lemma BoughtAtAsk(c: Config, spend: real, ask: real)
    requires AskAllowed(c, ask)
    ensures Value(Shares(spend, ask), ask) == spend
  {
  }

  /** The row a fill appends. */
  lemma BuyRowSound(c: Config, s: State, t: Tick, side: Side)
    requires s.pos.Flat?
    ensures var s' := FillBuy(c, s, t, side);
      s'.pos.Held? ==>
        && |s'.log| > 0 && s'.log == s.log + [s'.log[|s'.log| - 1]]
        && Sound(c, LedgerOf(s), s'.log[|s'.log| - 1])
        && Post(LedgerOf(s), s'.log[|s'.log| - 1]) == LedgerOf(s')
    ensures var s' := FillBuy(c, s, t, side);
      s'.pos.Flat? ==> s'.log == s.log && LedgerOf(s') == LedgerOf(s)
  {
    hide TakerFee, SpendFor, AskAllowed, EntryWindow, Mid, LossAtLeast, LossExceeds, Value, Shares;
    var s' := FillBuy(c, s, t, side);
    if s'.pos.Held? {
      var row := s'.log[|s.log|];
      BoughtAtAsk(c, row.cost, row.ask);
    }
  }

  lemma FillBuyReconciles(c: Config, s: State, t: Tick, side: Side)
    requires Reconciles(c, s) && s.pos.Flat?
    ensures Reconciles(c, FillBuy(c, s, t, side))
  {
    hide FillBuy, LedgerOf, Sound, Post, Replay, Audited;
    var s' := FillBuy(c, s, t, side);
    BuyRowSound(c, s, t, side);
    if s'.pos.Held? { AppendRow(c, s.log, s'.log[|s'.log| - 1]); }
  }

  lemma SellRowSound(c: Config, s: State, t: Tick, reason: ExitReason)
    requires s.pos.Held?
    ensures var s' := FillSell(c, s, t, reason);
      s'.pos.Flat? ==>
        && |s'.log| > 0 && s'.log == s.log + [s'.log[|s'.log| - 1]]
        && Sound(c, LedgerOf(s), s'.log[|s'.log| - 1])
        && Post(LedgerOf(s), s'.log[|s'.log| - 1]) == LedgerOf(s')
    ensures var s' := FillSell(c, s, t, reason);
      s'.pos.Held? ==> s'.log == s.log && LedgerOf(s') == LedgerOf(s)
  {
    hide TakerFee, Value, TakeProfitHit, LossAtLeast;
  }

  lemma FillSellReconciles(c: Config, s: State, t: Tick, reason: ExitReason)
    requires Reconciles(c, s) && s.pos.Held?
    ensures Reconciles(c, FillSell(c, s, t, reason))
  {
    hide FillSell, LedgerOf, Sound, Post, Replay, Audited;
    var s' := FillSell(c, s, t, reason);
    SellRowSound(c, s, t, reason);
    if s'.pos.Flat? { AppendRow(c, s.log, s'.log[|s'.log| - 1]); }
  }

  lemma CloseReconciles(c: Config, s: State, upBid: real, downBid: real)
    requires Reconciles(c, s)
    ensures var s' := CloseAtRollover(c, s, upBid, downBid);
      s'.pos.Flat? && Audited(c, s'.log) && Replay(c.initialCash, s'.log).cash == s'.cash
  {
    hide TakerFee, Value;
    var s' := CloseAtRollover(c, s, upBid, downBid);
    if s'.log != s.log {
      var row := s'.log[|s.log|];
      assert s'.log == s.log + [row];
      assert Sound(c, LedgerOf(s), row);
      AppendRow(c, s.log, row);
    }
  }

  lemma RollOverReconciles(c: Config, s: State, e: Event)
    requires Reconciles(c, s) && e.Rollover?
    ensures Reconciles(c, RollOver(c, s, e))
  {
    hide CloseAtRollover;
    CloseReconciles(c, s, e.upBid, e.downBid);
    var s1 := CloseAtRollover(c, s, e.upBid, e.downBid);
    AppendRow(c, s1.log, RolloverRow(e.newSlug, e.newEpoch, s1.cash, false));
  }

  lemma InitReconciles(c: Config)
    ensures Reconciles(c, Init(c))
  {
  }

  lemma StepReconciles(c: Config, s: State, e: Event)
    requires Reconciles(c, s) && Shape(s)
    ensures Reconciles(c, Step(c, s, e))
  {
    hide FillBuy, FillSell, RollOver, TakeProfitHit, StopLossHit, RawEdge, EntryWindow, Audited, Replay;
    match e
    case Rollover(_, _, _, _, _) => RollOverReconciles(c, s, e);
    case Bootstrap(_, _, _, _) =>
    case Idle =>
    case _ =>
      var s1 := Schedule(c, s.(hot := Observe(s.hot, e)), e.tick);
      if s1.order.BuyOrder? { FillBuyReconciles(c, s1, e.tick, s1.order.side); }
      if s1.order.SellOrder? { FillSellReconciles(c, s1, e.tick, s1.order.reason); }
  }

  /** In every reachable state each row of the trade log agrees with the rows before it and with the
      fee and risk rules, and replaying the log from the initial cash gives exactly the cash, the
      side, the market and the quantity the machine holds. */
  lemma {:induction false} LogReplaysToState(c: Config, run: seq<Event>, n: nat)
    requires n <= |run|
    ensures Reconciles(c, At(c, run, n))
  {
    hide *;
    AtStart(c, run);
    if n == 0 {
      InitReconciles(c);
    } else {
      AtNext(c, run, n);
      LogReplaysToState(c, run, n - 1);
      ReachableShape(c, run, n - 1);
      StepReconciles(c, At(c, run, n - 1), run[n - 1]);
    }
  }

  /** A rollover leaves the machine flat, and its row is the last of the log. */
  lemma RolloverLeavesFlat(c: Config, s: State, e: Event)
    requires e.Rollover?
    ensures var s' := Step(c, s, e);
      s'.pos.Flat? && |s'.log| > |s.log| && s.log <= s'.log &&
      s'.log[|s'.log| - 1] == RolloverRow(e.newSlug, e.newEpoch, s'.cash, false)
  {
    var s1 := CloseAtRollover(c, s, e.upBid, e.downBid);
    assert s.log <= s1.log;
  }

  // ---------------------------------------------------------------- solvency

  predicate IsPrice(p: real) { 0.0 <= p <= 1.0 }

  /** Every quoted price of the event is a probability. */
  predicate PricesOk(e: Event) {
    && (e.Quote? ==> IsPrice(e.bid) && IsPrice(e.ask))
    && (e.Rollover? ==> IsPrice(e.upBid) && IsPrice(e.downBid))
  }

  predicate BooksOk(h: Hot) {
    IsPrice(h.up.bid) && IsPrice(h.up.ask) && IsPrice(h.down.bid) && IsPrice(h.down.ask)
  }

  lemma FeeError(notional: real, price: real, rate: real)
    requires RawFee(notional, price, rate) >= 0.0
    ensures -0.000005 <= TakerFee(notional, price, rate) - RawFee(notional, price, rate) <= 0.000005
  {
    var x := RawFee(notional, price, rate) * 100000.0;
    assert x - 0.5 <= Round(x) as real <= x + 0.5;
  }

  lemma ProductBounds(a: real, b: real, top: real)
    requires 0.0 <= a && 0.0 <= b <= top
    ensures 0.0 <= a * b <= a * top
  {
  }

  lemma QuarterBound(price: real)
    ensures price * (1.0 - price) <= 0.25
  {
    var d := price - 0.5;
    assert d * d >= 0.0;
    assert d * d == price * price - price + 0.25;
    assert price * (1.0 - price) == price - price * price;
  }

  lemma FeeMultiplierBounds(price: real, rate: real)
    requires IsPrice(price) && 0.0 <= rate <= 2.0
    ensures 0.0 <= FeeMultiplier(price, rate) <= 0.5
  {
    QuarterBound(price);
    ProductBounds(price, 1.0 - price, 1.0);
    HalfBound(rate, price * (1.0 - price));
    Associate(rate, price, 1.0 - price);
  }

  lemma HalfBound(rate: real, q: real)
    requires 0.0 <= rate <= 2.0 && 0.0 <= q <= 0.25
    ensures 0.0 <= rate * q <= 0.5
  {
    ProductBounds(rate, q, 0.25);
    var top := rate * 0.25;
    assert top <= 0.5;
    assert rate * q <= top;
  }

  lemma Associate(a: real, b: real, c: real)
    ensures a * b * c == a * (b * c)
  {
  }

  /** The rounded fee of a sale never exceeds what the sale brings in. */
  lemma SaleCoversFee(proceeds: real, price: real, rate: real)
    requires proceeds >= 0.0 && IsPrice(price) && 0.0 <= rate <= 2.0
    ensures 0.0 <= TakerFee(proceeds, price, rate) <= proceeds
  {
    hide FeeMultiplier;
    var x := RawFee(proceeds, price, rate) * 100000.0;
    FeeMultiplierBounds(price, rate);
    ProductBounds(proceeds, FeeMultiplier(price, rate), 0.5);
    assert x <= proceeds * 50000.0;
    if x < 0.5 {
      assert Round(x) == 0;
    } else {
      assert Round(x) as real <= x + 0.5 <= 2.0 * x;
    }
  }

  /** The cash a BUY could still spend, fee included, before rounding. */
  function Slack(c: Config, cash: real, ask: real): real {
    cash - SpendFor(c, cash, ask) * (1.0 + FeeMultiplier(ask, c.feeRate))
  }

  /** By how much rounding raises the fee. */
  function RoundingGain(notional: real, price: real, rate: real): real {
    TakerFee(notional, price, rate) - RawFee(notional, price, rate)
  }

  function CashAfterBuy(c: Config, cash: real, ask: real): real {
    var spend := SpendFor(c, cash, ask);
    cash - spend - TakerFee(spend, ask, c.feeRate)
  }

  /** What a BUY leaves is the unspent slack, never negative, less the rounding of the fee. */
  lemma BuyRemainder(c: Config, cash: real, ask: real)
    requires 0.0 <= c.feeRate <= 2.0 && IsPrice(ask)
    ensures Slack(c, cash, ask) >= 0.0
    ensures CashAfterBuy(c, cash, ask)
         == Slack(c, cash, ask) - RoundingGain(SpendFor(c, cash, ask), ask, c.feeRate)
  {
    hide TakerFee, FeeMultiplier, SpendTarget;
    var m := FeeMultiplier(ask, c.feeRate);
    FeeMultiplierBounds(ask, c.feeRate);
    var spend := SpendFor(c, cash, ask);
    CappedProduct(spend, cash, 1.0 + m);
    Distribute(spend, m);
  }

  lemma CappedProduct(a: real, b: real, d: real)
    requires d > 0.0 && a <= b / d
    ensures a * d <= b
  {
    assert (b / d) * d == b;
    assert (b / d - a) * d >= 0.0;
  }

  lemma Distribute(a: real, m: real)
    ensures a * (1.0 + m) == a + a * m
  {
  }

  /** Rounding raises a fee by more than `slack` exactly when the fee, in units of the fifth decimal, has a
      fraction of at least one half and its next whole number is more than `slack` away. */
  lemma RoundingGainExceedsIff(notional: real, price: real, rate: real, slack: real)
    requires slack >= 0.0 && RawFee(notional, price, rate) >= 0.0
    ensures var x := RawFee(notional, price, rate) * 100000.0;
      RoundingGain(notional, price, rate) > slack
      <==> x - x.Floor as real >= 0.5 && x.Floor as real + 1.0 - x > slack * 100000.0
  {
    hide RawFee;
    var x := RawFee(notional, price, rate) * 100000.0;
    RoundedIs(x);
    if x - x.Floor as real >= 0.5 {
      assert RoundingGain(notional, price, rate) * 100000.0 == x.Floor as real + 1.0 - x;
    } else {
      assert RoundingGain(notional, price, rate) <= 0.0;
    }
  }

  lemma RoundedIs(x: real)
    requires x >= 0.0
    ensures Round(x) == if x - x.Floor as real >= 0.5 then x.Floor + 1 else x.Floor
  {
  }

  /** A BUY takes the cash at most half of the fifth decimal below zero ... */
  lemma BuyStaysSolvent(c: Config, cash: real, ask: real)
    requires 0.0 <= c.feeRate <= 2.0 && IsPrice(ask)
    requires SpendFor(c, cash, ask) >= 0.0
    ensures CashAfterBuy(c, cash, ask) >= -0.000005
  {
    hide TakerFee, FeeMultiplier, SpendFor;
    var spend := SpendFor(c, cash, ask);
    BuyRemainder(c, cash, ask);
    FeeMultiplierBounds(ask, c.feeRate);
    ProductBounds(spend, FeeMultiplier(ask, c.feeRate), 0.5);
    FeeError(spend, ask, c.feeRate);
  }

  /** ... and below zero exactly, for an order of a non-negative amount, when the exact fee, in units of the fifth
      decimal, has a fraction of at least one half and lies further below its next whole number than the unspent
      cash reaches. An order of a negative amount, which is never placed, overdraws when its fee rate is not zero. */
  lemma BuyOverdrawsIff(c: Config, cash: real, ask: real)
    requires 0.0 <= c.feeRate <= 2.0 && IsPrice(ask)
    ensures var spend := SpendFor(c, cash, ask);
      var x := RawFee(spend, ask, c.feeRate) * 100000.0;
      CashAfterBuy(c, cash, ask) < 0.0 <==>
        if spend >= 0.0 then
          x - x.Floor as real >= 0.5 && x.Floor as real + 1.0 - x > Slack(c, cash, ask) * 100000.0
        else
          FeeMultiplier(ask, c.feeRate) > 0.0
  {
    hide TakerFee, FeeMultiplier, SpendFor, Slack, RoundingGain;
    var spend := SpendFor(c, cash, ask);
    BuyRemainder(c, cash, ask);
    FeeMultiplierBounds(ask, c.feeRate);
    if spend >= 0.0 {
      ProductBounds(spend, FeeMultiplier(ask, c.feeRate), 0.5);
      RoundingGainExceedsIff(spend, ask, c.feeRate, Slack(c, cash, ask));
    } else {
      NegativeSpend(c, cash, ask);
    }
  }

  lemma NegativeSpend(c: Config, cash: real, ask: real)
    requires 0.0 <= c.feeRate <= 2.0 && IsPrice(ask) && SpendFor(c, cash, ask) < 0.0
    ensures CashAfterBuy(c, cash, ask) < 0.0 <==> FeeMultiplier(ask, c.feeRate) > 0.0
  {
    hide FeeMultiplier;
    var m := FeeMultiplier(ask, c.feeRate);
    var spend := SpendFor(c, cash, ask);
    FeeMultiplierBounds(ask, c.feeRate);
    assert spend == cash / (1.0 + m);
    assert spend * (1.0 + m) == cash;
    Distribute(spend, m);
    NegativeProduct(spend, m);
    assert CashAfterBuy(c, cash, ask) == spend * m;
  }

  lemma NegativeProduct(a: real, b: real)
    requires a < 0.0 && b >= 0.0
    ensures a * b <= 0.0 && (a * b < 0.0 <==> b > 0.0)
  {
  }

  ghost predicate Solvent(s: State) {
    s.cash >= -0.000005 && BooksOk(s.hot)
  }

  lemma InitSolvent(c: Config)
    requires c.initialCash >= 0.0
    ensures Solvent(Init(c))
  {
  }

  lemma FillBuyStaysSolvent(c: Config, s: State, t: Tick, side: Side)
    requires 0.0 <= c.feeRate <= 2.0 && Solvent(s)
    ensures Solvent(FillBuy(c, s, t, side))
  {
    hide TakerFee, SpendFor, BuyStillWanted;
    var ask := BookOf(s.hot, side).ask;
    if SpendFor(c, s.cash, ask) >= 1.0 { BuyStaysSolvent(c, s.cash, ask); }
  }

  lemma FillSellStaysSolvent(c: Config, s: State, t: Tick, reason: ExitReason)
    requires 0.0 <= c.feeRate <= 2.0 && Solvent(s) && s.pos.Held? && s.pos.qty > 0.0
    ensures Solvent(FillSell(c, s, t, reason))
  {
    hide TakerFee, TakeProfitHit, LossAtLeast, Value;
    var bid := BookOf(s.hot, s.pos.side).bid;
    SaleAddsCash(s.pos.qty, bid, c.feeRate);
  }

  lemma SaleAddsCash(qty: real, bid: real, rate: real)
    requires qty >= 0.0 && IsPrice(bid) && 0.0 <= rate <= 2.0
    ensures Value(qty, bid) - TakerFee(Value(qty, bid), bid, rate) >= 0.0
  {
    hide TakerFee;
    ProductBounds(qty, bid, 1.0);
    SaleCoversFee(Value(qty, bid), bid, rate);
  }

  lemma CloseStaysSolvent(c: Config, s: State, upBid: real, downBid: real)
    requires 0.0 <= c.feeRate <= 2.0 && Solvent(s) && Shape(s) && IsPrice(upBid) && IsPrice(downBid)
    ensures Solvent(CloseAtRollover(c, s, upBid, downBid))
  {
    hide TakerFee, Value;
    if s.pos.Held? {
      var bid := if s.pos.side.Up? then upBid else downBid;
      SaleAddsCash(s.pos.qty, bid, c.feeRate);
    }
  }

  lemma StepStaysSolvent(c: Config, s: State, e: Event)
    requires 0.0 <= c.feeRate <= 2.0 && Solvent(s) && Shape(s) && PricesOk(e)
    ensures Solvent(Step(c, s, e))
  {
    hide FillBuy, FillSell, CloseAtRollover, TakeProfitHit, StopLossHit, RawEdge, EntryWindow;
    match e
    case Rollover(_, _, up, down, _) => CloseStaysSolvent(c, s, up, down);
    case Bootstrap(_, _, _, _) =>
    case Idle =>
    case _ =>
      var s1 := Schedule(c, s.(hot := Observe(s.hot, e)), e.tick);
      if s1.order.BuyOrder? { FillBuyStaysSolvent(c, s1, e.tick, s1.order.side); }
      if s1.order.SellOrder? { FillSellStaysSolvent(c, s1, e.tick, s1.order.reason); }
  }

  /** With prices in [0, 1] and a fee rate in [0, 2], no run takes the cash below -0.000005. */
  lemma {:induction false} NeverInsolvent(c: Config, run: seq<Event>, n: nat)
    requires n <= |run|
    requires 0.0 <= c.feeRate <= 2.0 && c.initialCash >= 0.0
    requires forall k :: 0 <= k < n ==> PricesOk(run[k])
    ensures Solvent(At(c, run, n))
  {
    hide *;
    AtStart(c, run);
    if n == 0 {
      InitSolvent(c);
    } else {
      AtNext(c, run, n);
      NeverInsolvent(c, run, n - 1);
      ReachableShape(c, run, n - 1);
      StepStaysSolvent(c, At(c, run, n - 1), run[n - 1]);
    }
  }

  // ---------------------------------------------------------------- risk stop and warm-up

  predicate Closing(row: Row) { row.ForceSellRow? || row.RolloverRow? }

  lemma StepAfterRiskStop(c: Config, s: State, e: Event)
    requires Shape(s) && s.riskStop
    ensures var s' := Step(c, s, e);
      && s'.riskStop && s.log <= s'.log
      && (forall k :: |s.log| <= k < |s'.log| ==> Closing(s'.log[k]))
      && (s.pos.Flat? || !e.Rollover? ==> s'.cash == s.cash && s'.pos == s.pos)
  {
    hide TakerFee;
  }

  /** The risk stop is final: nothing is pending afterwards, no BUY or SELL row follows, and only the
      next rollover with an open position changes the cash; once flat, cash never changes again. */
  lemma {:induction false} RiskStopIsFinal(c: Config, run: seq<Event>, n: nat, m: nat)
    requires n <= m <= |run|
    requires At(c, run, n).riskStop
    ensures var s, s' := At(c, run, n), At(c, run, m);
      && s'.riskStop && s'.order == NoOrder && s.log <= s'.log
      && (forall k :: |s.log| <= k < |s'.log| ==> Closing(s'.log[k]))
      && (s.pos.Flat? || (forall k :: n <= k < m ==> !run[k].Rollover?) ==> s'.cash == s.cash && s'.pos == s.pos)
    decreases m - n
  {
    hide Step;
    ReachableShape(c, run, m);
    if n < m {
      AtNext(c, run, m);
      RiskStopIsFinal(c, run, n, m - 1);
      ReachableShape(c, run, m - 1);
      StepAfterRiskStop(c, At(c, run, m - 1), run[m - 1]);
    }
  }

  /** Without a bootstrap that enables trading, the first bucket is not traded: the first row of
      every non-empty log is a rollover. */
  lemma {:induction false} WarmUpBucketNotTraded(c: Config, run: seq<Event>, n: nat)
    requires n <= |run|
    requires forall k :: 0 <= k < n ==> !(run[k].Bootstrap? && run[k].enable)
    ensures var log := At(c, run, n).log; log != [] ==> log[0].RolloverRow?
  {
    hide Step;
    if n > 0 {
      WarmUpBucketNotTraded(c, run, n - 1);
      var s := At(c, run, n - 1);
      ReachableShape(c, run, n - 1);
      StepExtendsLog(c, s, run[n - 1]);
      EnabledNeedsRollover(c, run, n - 1);
      if s.log == [] { OnlyRolloverOpensLog(c, s, run[n - 1]); }
    }
  }

  lemma OnlyRolloverOpensLog(c: Config, s: State, e: Event)
    requires Shape(s) && !s.enabled
    ensures Step(c, s, e).log == [] || Step(c, s, e).log[0].RolloverRow?
  {
  }

  lemma StepExtendsLog(c: Config, s: State, e: Event)
    ensures s.log <= Step(c, s, e).log
    ensures Step(c, s, e).enabled && !s.enabled ==> e.Rollover? || e.Bootstrap?
    ensures e.Rollover? ==> Step(c, s, e).log != []
    ensures e.Bootstrap? && !e.enable ==> Step(c, s, e).enabled == s.enabled
  {
    hide FillBuy, FillSell, StopLossHit, TakeProfitHit, RawEdge, EntryWindow, TakerFee, Value;
    if e.SpotTick? || e.Quote? {
      var s1 := Schedule(c, s.(hot := Observe(s.hot, e)), e.tick);
      if s1.order.BuyOrder? { FillBuyExtendsLog(c, s1, e.tick, s1.order.side); }
      if s1.order.SellOrder? && s1.pos.Held? { FillSellExtendsLog(c, s1, e.tick, s1.order.reason); }
    }
  }

  lemma FillBuyExtendsLog(c: Config, s: State, t: Tick, side: Side)
    ensures s.log <= FillBuy(c, s, t, side).log && FillBuy(c, s, t, side).enabled == s.enabled
  {
    hide TakerFee, SpendFor, BuyStillWanted, LossAtLeast, LossExceeds, Mid;
  }

  lemma FillSellExtendsLog(c: Config, s: State, t: Tick, reason: ExitReason)
    requires s.pos.Held?
    ensures s.log <= FillSell(c, s, t, reason).log && FillSell(c, s, t, reason).enabled == s.enabled
  {
    hide TakerFee, Value, TakeProfitHit, LossAtLeast;
  }

  lemma {:induction false} EnabledNeedsRollover(c: Config, run: seq<Event>, n: nat)
    requires n <= |run|
    requires forall k :: 0 <= k < n ==> !(run[k].Bootstrap? && run[k].enable)
    ensures At(c, run, n).enabled ==> At(c, run, n).log != []
  {
    hide At, Step;
    AtStart(c, run);
    if n > 0 {
      AtNext(c, run, n);
      EnabledNeedsRollover(c, run, n - 1);
      StepExtendsLog(c, At(c, run, n - 1), run[n - 1]);
    }
  }
}
