/** The paper-trading machine of apps/btc_poly_runner.cpp as a transition function on values:
    what one consumer event (spot tick, quote, rollover, bootstrap) does to the position, the
    pending order, the cash, the risk stop and the trade log. Theoretical prices are inputs of
    each event; prices and cash are reals. `PaperTrader` is the imperative form of the same
    machine and is proved equal to it step by step. */
module PaperTrading {
  import opened Basics

  datatype Config = Config(
    entry: real,
    closeEps: real,
    closeEarly: real,
    riskFrac: real,
    fixedSpend: real,
    feeRate: real,
    stopLossFrac: real,
    initialCash: real,
    maxLoss: Option<real>,
    latencyNs: int,
    edgePersistNs: int,
    useEntryWindow: bool,
    entryMinSec: real,
    entryMaxSec: real,
    useAskRange: bool,
    askMin: real,
    askMax: real,
    forceSellDisabled: bool)

  datatype Book = Book(seen: bool, bid: real, ask: real)

  /** Market data shared with the strategy; `since` is -1 while an edge timer is not armed. */
  datatype Hot = Hot(
    epoch: int,
    slug: string,
    haveSpot: bool,
    entryClockMs: int,
    haveStrike: bool,
    up: Book,
    down: Book,
    upSince: int,
    downSince: int)

  datatype Position = Flat | Held(side: Side, slug: string, qty: real, basis: real, entryPrice: real)

  datatype ExitReason = TakeProfit | StopLoss

  datatype Order =
    | NoOrder
    | BuyOrder(side: Side, due: int)
    | SellOrder(reason: ExitReason, due: int)

  /** Rows of the trade log. */
  datatype Row =
    | BuyRow(slug: string, side: Side, theo: real, ask: real, mid: real, qty: real, cost: real, fee: real,
             cashBefore: real, cashAfter: real)
    | SellRow(slug: string, side: Side, reason: ExitReason, theo: real, bid: real, qty: real, proceeds: real, fee: real,
              cashBefore: real, cashAfter: real)
    | ForceSellRow(slug: string, side: Side, bid: real, qty: real, proceeds: real, fee: real,
                   cashBefore: real, cashAfter: real)
    | RolloverRow(newSlug: string, newEpoch: int, cash: real, havePos: bool)

  datatype State = State(
    hot: Hot,
    pos: Position,
    order: Order,
    cash: real,
    riskStop: bool,
    enabled: bool,
    log: seq<Row>)

  /** What one strategy pass reads from outside: the two theoretical prices and the two clock readings. */
  datatype Tick = Tick(pUp: real, pDown: real, schedNs: int, execNs: int)

  datatype Event =
    | SpotTick(entryClockMs: int, tick: Tick)
    | Quote(side: Side, bid: real, ask: real, epoch: int, slug: string, tick: Tick)
    | Rollover(newEpoch: int, newSlug: string, upBid: real, downBid: real, strikeKnown: bool)
    | Bootstrap(bootEpoch: int, bootSlug: string, strikeKnown: bool, enable: bool)
    | Idle

  // ---------------------------------------------------------------- fees and sizes

  /** std::round: to the nearest integer, halves away from zero. */
  function Round(x: real): int {
    if x >= 0.0 then (x + 0.5).Floor else -((0.5 - x).Floor)
  }

  function FeeMultiplier(price: real, rate: real): real { rate * price * (1.0 - price) }

  /** The fee before it is rounded to five decimals. */
  function RawFee(notional: real, price: real, rate: real): real { notional * FeeMultiplier(price, rate) }

  function TakerFee(notional: real, price: real, rate: real): real {
    var fee := Round(RawFee(notional, price, rate) * 100000.0) as real / 100000.0;
    if fee >= 0.00001 then fee else 0.0
  }

  /** What `qty` shares are worth at `price`. */
  function Value(qty: real, price: real): real { qty * price }

  function Shares(spend: real, ask: real): real
    requires ask != 0.0
  {
    spend / ask
  }


  predicate AskAllowed(c: Config, ask: real) {
    ask > 0.0 && if c.useAskRange then c.askMin <= ask <= c.askMax else ask >= 0.02
  }

  function SpendTarget(c: Config, cash: real): real {
    if c.fixedSpend > 0.0 then c.fixedSpend else MaxReal(cash * c.riskFrac, 1.0)
  }

  /** min(target, cash / (1 + fee multiplier)); a zero divisor makes the quotient infinite, of the sign of cash. */
  function SpendFor(c: Config, cash: real, ask: real): real {
    var divisor := 1.0 + FeeMultiplier(ask, c.feeRate);
    if divisor == 0.0 then (if cash < 0.0 then 0.0 else SpendTarget(c, cash))
    else MinReal(SpendTarget(c, cash), cash / divisor)
  }

  // ---------------------------------------------------------------- signals

  function BookOf(h: Hot, side: Side): Book { if side.Up? then h.up else h.down }

  function TheoOf(t: Tick, side: Side): real { if side.Up? then t.pUp else t.pDown }

  function SinceOf(h: Hot, side: Side): int { if side.Up? then h.upSince else h.downSince }

  function Mid(b: Book): real { 0.5 * (b.bid + b.ask) }

  predicate Ready(h: Hot) { h.haveSpot && h.haveStrike && h.up.seen && h.down.seen && h.epoch >= 0 }

  predicate EntryWindow(c: Config, h: Hot) {
    !c.useEntryWindow ||
    (h.epoch >= 0 &&
     var elapsed := (h.entryClockMs - h.epoch * 1000) as real / 1000.0;
     c.entryMinSec <= elapsed <= c.entryMaxSec)
  }

  /** The entry edge of one side at this instant. */
  predicate RawEdge(c: Config, h: Hot, t: Tick, side: Side) {
    var ask := BookOf(h, side).ask;
    TheoOf(t, side) - ask >= c.entry && AskAllowed(c, ask)
  }

  function Armed(edge: bool, since: int, now: int): int {
    if !edge then -1 else if since < 0 then now else since
  }

  predicate Persisted(c: Config, since: int, now: int) {
    c.edgePersistNs <= 0 || now - since >= c.edgePersistNs
  }

  predicate StopLossHit(c: Config, basis: real, bid: real, qty: real) {
    c.stopLossFrac > 0.0 && basis > 0.0 && qty > 0.0 && bid > 0.0 &&
    var proceeds := Value(qty, bid);
    (proceeds - TakerFee(proceeds, bid, c.feeRate) - basis) / basis <= -c.stopLossFrac
  }

  predicate TakeProfitHit(c: Config, theo: real, bid: real) {
    bid >= theo - c.closeEps - c.closeEarly
  }

  // ---------------------------------------------------------------- one strategy pass

  function Disarm(h: Hot): Hot { h.(upSince := -1, downSince := -1) }

  /** The edge timers after an evaluation. */
  function Rearm(c: Config, h: Hot, t: Tick): Hot {
    h.(upSince := Armed(RawEdge(c, h, t, Up), h.upSince, t.schedNs),
       downSince := Armed(RawEdge(c, h, t, Down), h.downSince, t.schedNs))
  }

  /** Edge present now and for long enough, by the timers of `Rearm`. */
  predicate EntrySignal(c: Config, h: Hot, t: Tick, side: Side) {
    RawEdge(c, h, t, side) && Persisted(c, SinceOf(Rearm(c, h, t), side), t.schedNs)
  }

  function EntrySide(c: Config, h: Hot, t: Tick): Side {
    if !EntrySignal(c, h, t, Down) then Up
    else if !EntrySignal(c, h, t, Up) then Down
    else if t.pUp - h.up.ask >= t.pDown - h.down.ask then Up
    else Down
  }

  function Schedule(c: Config, s: State, t: Tick): State {
    if s.order != NoOrder || s.riskStop then s
    else if s.pos.Flat? then
      if !s.enabled then s.(hot := Disarm(s.hot))
      else
        var s1 := s.(hot := Rearm(c, s.hot, t));
        if (EntrySignal(c, s.hot, t, Up) || EntrySignal(c, s.hot, t, Down)) && EntryWindow(c, s.hot)
        then s1.(order := BuyOrder(EntrySide(c, s.hot, t), t.schedNs + c.latencyNs))
        else s1
    else
      var s1 := s.(hot := Disarm(s.hot));
      var bid := BookOf(s.hot, s.pos.side).bid;
      if StopLossHit(c, s.pos.basis, bid, s.pos.qty) then s1.(order := SellOrder(StopLoss, t.schedNs + c.latencyNs))
      else if TakeProfitHit(c, TheoOf(t, s.pos.side), bid)
      then s1.(order := SellOrder(TakeProfit, t.schedNs + c.latencyNs))
      else s1
  }

  /** `initial - equity` against the loss cap, with the given tolerance. */
  predicate LossAtLeast(c: Config, equity: real, slack: real) {
    c.maxLoss.Some? && c.initialCash - equity >= c.maxLoss.value + slack
  }

  predicate LossExceeds(c: Config, equity: real, slack: real) {
    c.maxLoss.Some? && c.initialCash - equity > c.maxLoss.value + slack
  }

  function Cancel(s: State): State { s.(order := NoOrder) }

  predicate BuyStillWanted(c: Config, h: Hot, t: Tick, side: Side) {
    RawEdge(c, h, t, side) && EntryWindow(c, h)
  }

  function FillBuy(c: Config, s: State, t: Tick, side: Side): State {
    var b := BookOf(s.hot, side);
    if !BuyStillWanted(c, s.hot, t, side) then Cancel(s)
    else
      var spend := SpendFor(c, s.cash, b.ask);
      if spend < 1.0 then Cancel(s)
      else
        var qty := Shares(spend, b.ask);
        var fee := TakerFee(spend, b.ask, c.feeRate);
        var cash := s.cash - spend - fee;
        var equity := cash + Value(qty, Mid(b));
        if LossExceeds(c, equity, 0.000000001) then Cancel(s).(riskStop := true)
        else s.(pos := Held(side, s.hot.slug, qty, spend + fee, b.ask),
                order := NoOrder,
                cash := cash,
                riskStop := s.riskStop || LossAtLeast(c, equity, -0.000000001),
                log := s.log + [BuyRow(s.hot.slug, side, TheoOf(t, side), b.ask, Mid(b), qty, spend, fee,
                                       s.cash, cash)])
  }

  /** Quantities this small are treated as nothing to sell. */
  const DUST := 0.000000000001

  function FillSell(c: Config, s: State, t: Tick, reason: ExitReason): State
    requires s.pos.Held?
  {
    var bid := BookOf(s.hot, s.pos.side).bid;
    if reason == TakeProfit && !TakeProfitHit(c, TheoOf(t, s.pos.side), bid) then Cancel(s)
    else if s.pos.qty <= DUST then Cancel(s)
    else
      var proceeds := Value(s.pos.qty, bid);
      var fee := TakerFee(proceeds, bid, c.feeRate);
      var cash := s.cash + (proceeds - fee);
      s.(pos := Flat,
         order := NoOrder,
         cash := cash,
         riskStop := s.riskStop || LossAtLeast(c, cash, -0.000000001),
         log := s.log + [SellRow(s.pos.slug, s.pos.side, reason, TheoOf(t, s.pos.side), bid, s.pos.qty, proceeds, fee,
                                  s.cash, cash)])
  }

  function ExecuteDue(c: Config, s: State, t: Tick): State {
    if s.order == NoOrder || t.execNs < s.order.due || !Ready(s.hot) then s
    else if s.order.BuyOrder? then FillBuy(c, s, t, s.order.side)
    else if s.pos.Held? then FillSell(c, s, t, s.order.reason)
    else Cancel(s)
  }

  function Strategy(c: Config, s: State, t: Tick): State {
    if !Ready(s.hot) || !s.enabled then s else ExecuteDue(c, Schedule(c, s, t), t)
  }

  // ---------------------------------------------------------------- events

  /** The market data after a spot tick or a quote. */
  function Observe(h: Hot, e: Event): Hot
    requires e.SpotTick? || e.Quote?
  {
    if e.SpotTick? then h.(haveSpot := true, entryClockMs := e.entryClockMs)
    else
      var h1 := if e.side.Up? then h.(up := Book(true, e.bid, e.ask)) else h.(down := Book(true, e.bid, e.ask));
      if e.epoch >= 0 && h.epoch < 0 then Disarm(h1).(epoch := e.epoch, slug := e.slug) else h1
  }

  /** Closing an open position at the end of a bucket. */
  function CloseAtRollover(c: Config, s: State, upBid: real, downBid: real): State {
    if s.pos.Flat? then s
    else if c.forceSellDisabled || s.pos.qty <= DUST then s.(pos := Flat, order := NoOrder)
    else
      var bid := if s.pos.side.Up? then upBid else downBid;
      var proceeds := Value(s.pos.qty, bid);
      var fee := TakerFee(proceeds, bid, c.feeRate);
      var cash := s.cash + (proceeds - fee);
      s.(pos := Flat, order := NoOrder, cash := cash,
         log := s.log + [ForceSellRow(s.pos.slug, s.pos.side, bid, s.pos.qty, proceeds, fee, s.cash, cash)])
  }

  function RollOver(c: Config, s: State, e: Event): State
    requires e.Rollover?
  {
    var s1 := CloseAtRollover(c, s, e.upBid, e.downBid);
    s1.(hot := Disarm(s1.hot).(slug := e.newSlug, epoch := e.newEpoch, haveStrike := e.strikeKnown),
        enabled := true,
        log := s1.log + [RolloverRow(e.newSlug, e.newEpoch, s1.cash, s1.pos.Held?)])
  }

  function Step(c: Config, s: State, e: Event): State {
    match e
    case SpotTick(_, t) => Strategy(c, s.(hot := Observe(s.hot, e)), t)
    case Quote(_, _, _, _, _, t) => Strategy(c, s.(hot := Observe(s.hot, e)), t)
    case Rollover(_, _, _, _, _) => RollOver(c, s, e)
    case Bootstrap(epoch, slug, strike, enable) =>
      s.(hot := s.hot.(epoch := epoch, slug := slug, haveStrike := strike), enabled := s.enabled || enable)
    case Idle => s
  }

  function Init(c: Config): State {
    State(Hot(-1, "", false, 0, false, Book(false, 0.0, 0.0), Book(false, 0.0, 0.0), -1, -1),
          Flat, NoOrder, c.initialCash, false, false, [])
  }

  /** The state after the first `n` events of a run. */
  function At(c: Config, run: seq<Event>, n: nat): State
    requires n <= |run|
  {
    if n == 0 then Init(c) else Step(c, At(c, run, n - 1), run[n - 1])
  }
}
