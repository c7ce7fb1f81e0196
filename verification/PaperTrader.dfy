/** The consumer thread of apps/btc_poly_runner.cpp in paper mode, in its own form: an object whose
    `hot` and `paper` records the event handlers update in place, with the flags and tags of the
    source (an empty tag is `None`). Every method is proved equal to the transition function of
    `PaperTrading`, so every whole-run property of that machine holds of this object. In particular
    its two defensive branches, a due BUY while holding and a due SELL while flat, are never entered. */
module PaperTrader {
  import opened Basics
  import P = PaperTrading
  import PaperLedger

  datatype Action = NoAction | BUY | SELL

  datatype Paper = Paper(
    havePos: bool,
    side: Option<Side>,
    slug: string,
    qty: real,
    costBasis: real,
    entryFillPrice: real,
    cash: real,
    pending: bool,
    pendingAction: Action,
    pendingSide: Option<Side>,
    pendingExitReason: Option<P.ExitReason>,
    dueNs: int,
    riskStop: bool,
    stopSellRetry: bool)

  function PositionOf(p: Paper): P.Position {
    if p.havePos && p.side.Some? then P.Held(p.side.value, p.slug, p.qty, p.costBasis, p.entryFillPrice) else P.Flat
  }

  function OrderOf(p: Paper): P.Order {
    if !p.pending then P.NoOrder
    else if p.pendingAction == BUY && p.pendingSide.Some? then P.BuyOrder(p.pendingSide.value, p.dueNs)
    else if p.pendingExitReason.Some? then P.SellOrder(p.pendingExitReason.value, p.dueNs)
    else P.NoOrder
  }

  /** The tags are set exactly when the flags say so. */
  ghost predicate Consistent(p: Paper) {
    && (p.pending ==> p.pendingAction == BUY || p.pendingAction == SELL)
    && (p.pending && p.pendingAction == BUY ==> p.pendingSide.Some?)
    && (p.pending && p.pendingAction == SELL ==> p.pendingExitReason.Some?)
    && (p.havePos ==> p.side.Some?)
    && (!p.havePos ==> p.side == None && p.slug == "" && p.qty == 0.0 && p.costBasis == 0.0 && p.entryFillPrice == 0.0)
    && !p.stopSellRetry
  }

  class PaperTrader {
    const cfg: P.Config
    var hot: P.Hot
    var paper: Paper
    var tradingEnabled: bool
    var trades: seq<P.Row>

    ghost function State(): P.State
      reads this
    {
      P.State(hot, PositionOf(paper), OrderOf(paper), paper.cash, paper.riskStop, tradingEnabled, trades)
    }

    ghost predicate Valid()
      reads this
    {
      Consistent(paper) && PaperLedger.Shape(State())
    }

    constructor (c: P.Config)
      ensures Valid() && cfg == c && State() == P.Init(c)
    {
      cfg := c;
      hot := P.Hot(-1, "", false, 0, false, P.Book(false, 0.0, 0.0), P.Book(false, 0.0, 0.0), -1, -1);
      paper := Paper(false, None, "", 0.0, 0.0, 0.0, c.initialCash, false, NoAction, None, None, 0, false, false);
      tradingEnabled := false;
      trades := [];
    }

    /** Flat exactly when quantity, cost basis and side are empty. */
    lemma FlatIffEmpty()
      requires Valid()
      ensures !paper.havePos <==> paper.qty == 0.0
      ensures !paper.havePos <==> paper.costBasis == 0.0
      ensures !paper.havePos <==> paper.side == None
    {
      assert State().pos == PositionOf(paper);
    }

    method ArmTimers(now: int, edgeUpRaw: bool, edgeDownRaw: bool)
      modifies this`hot
      ensures hot == old(hot).(upSince := P.Armed(edgeUpRaw, old(hot).upSince, now),
                               downSince := P.Armed(edgeDownRaw, old(hot).downSince, now))
    {
      if edgeUpRaw {
        if hot.upSince < 0 { hot := hot.(upSince := now); }
      } else {
        hot := hot.(upSince := -1);
      }
      if edgeDownRaw {
        if hot.downSince < 0 { hot := hot.(downSince := now); }
      } else {
        hot := hot.(downSince := -1);
      }
    }

    method EntryElapsedOk() returns (ok: bool)
      ensures ok == P.EntryWindow(cfg, hot)
    {
      if !cfg.useEntryWindow { return true; }
      if hot.epoch < 0 { return false; }
      var bucketStartMs := hot.epoch * 1000;
      var elapsedSec := (hot.entryClockMs - bucketStartMs) as real / 1000.0;
      return elapsedSec >= cfg.entryMinSec && elapsedSec <= cfg.entryMaxSec;
    }

    method BuyAskOk(ask: real) returns (ok: bool)
      ensures ok == P.AskAllowed(cfg, ask)
    {
      if ask <= 0.0 { return false; }
      if cfg.useAskRange { return ask >= cfg.askMin && ask <= cfg.askMax; }
      return ask >= 0.02;
    }

    method Schedule(t: P.Tick)
      requires Valid()
      modifies this`hot, this`paper
      ensures Valid() && State() == P.Schedule(cfg, old(State()), t)
    {
      hide P.AskAllowed, P.StopLossHit, P.EntryWindow;
      if paper.pending { return; }
      if paper.riskStop { return; }
      if paper.havePos {
        hot := hot.(upSince := -1, downSince := -1);
      }
      if !paper.havePos {
        if !tradingEnabled {
          hot := hot.(upSince := -1, downSince := -1);
          return;
        }
        ScheduleEntry(t);
        return;
      }
      ScheduleExit(t);
    }

    method ScheduleEntry(t: P.Tick)
      requires Valid() && !paper.pending && !paper.riskStop && !paper.havePos && tradingEnabled
      modifies this`hot, this`paper
      ensures Valid() && State() == P.Schedule(cfg, old(State()), t)
    {
      hide P.AskAllowed, P.EntryWindow, PaperLedger.Shape;
      PaperLedger.ScheduleKeepsShape(cfg, State(), t);
      var eUp := t.pUp - hot.up.ask;
      var eDown := t.pDown - hot.down.ask;
      var upAskOk := BuyAskOk(hot.up.ask);
      var downAskOk := BuyAskOk(hot.down.ask);
      var edgeUpRaw := eUp >= cfg.entry && upAskOk;
      var edgeDownRaw := eDown >= cfg.entry && downAskOk;
      ArmTimers(t.schedNs, edgeUpRaw, edgeDownRaw);
      var upOk := edgeUpRaw && (cfg.edgePersistNs <= 0 || t.schedNs - hot.upSince >= cfg.edgePersistNs);
      var downOk := edgeDownRaw && (cfg.edgePersistNs <= 0 || t.schedNs - hot.downSince >= cfg.edgePersistNs);
      if !upOk && !downOk { return; }
      var inWindow := EntryElapsedOk();
      WindowIgnoresTimers(cfg, hot, old(hot));
      if !inWindow { return; }
      var chosen: Side;
      if upOk && downOk {
        chosen := if eUp >= eDown then Up else Down;
      } else if upOk {
        chosen := Up;
      } else {
        chosen := Down;
      }
      paper := paper.(pending := true, pendingAction := BUY, pendingSide := Some(chosen),
                      dueNs := t.schedNs + cfg.latencyNs);
    }

    method ScheduleExit(t: P.Tick)
      requires Valid() && !paper.pending && !paper.riskStop && paper.havePos
      requires hot == P.Disarm(hot)
      modifies this`paper
      ensures Valid() && State() == P.Schedule(cfg, old(State()), t)
    {
      hide P.StopLossHit, PaperLedger.Shape;
      PaperLedger.ScheduleKeepsShape(cfg, State(), t);
      var isUp := paper.side == Some(Up);
      var bid := if isUp then hot.up.bid else hot.down.bid;
      var closeFloor := (if isUp then t.pUp else t.pDown) - cfg.closeEps - cfg.closeEarly;
      var stop := P.StopLossHit(cfg, paper.costBasis, bid, paper.qty);
      var takeProfit := bid >= closeFloor;
      if paper.stopSellRetry { stop := true; }
      if !stop && !takeProfit { return; }
      paper := paper.(pending := true, pendingAction := SELL, pendingSide := paper.side,
                      pendingExitReason := Some(if stop || paper.stopSellRetry then P.StopLoss else P.TakeProfit),
                      dueNs := t.schedNs + cfg.latencyNs);
    }

    method ExecuteDue(t: P.Tick)
      requires Valid()
      modifies this`paper, this`trades
      ensures Valid() && State() == P.ExecuteDue(cfg, old(State()), t)
    {
      hide P.FillBuy, P.FillSell;
      if !paper.pending { return; }
      if t.execNs < paper.dueNs { return; }
      if !hot.haveSpot || !hot.haveStrike || !hot.up.seen || !hot.down.seen || hot.epoch < 0 { return; }
      if paper.pendingAction == BUY {
        if paper.havePos {
          assert false;
          return;
        }
        ExecuteBuy(t);
        return;
      }
      if paper.pendingAction == SELL && paper.havePos {
        ExecuteSell(t);
        return;
      }
      assert false;
    }

    method ExecuteBuy(t: P.Tick)
      requires Valid() && paper.pending && paper.pendingAction == BUY
      modifies this`paper, this`trades
      ensures Valid() && State() == P.FillBuy(cfg, old(State()), t, old(paper).pendingSide.value)
    {
      hide P.TakerFee, P.Value, P.Shares, P.SpendFor, P.AskAllowed, P.EntryWindow;
      var wantUp := paper.pendingSide == Some(Up);
      var book := if wantUp then hot.up else hot.down;
      var ask := book.ask;
      var mid := 0.5 * (book.bid + book.ask);
      var theo := if wantUp then t.pUp else t.pDown;
      var inWindow := EntryElapsedOk();
      var askOk := BuyAskOk(ask);
      if theo - ask < cfg.entry || !inWindow || !askOk {
        paper := paper.(pending := false);
        return;
      }
      var spend := P.SpendFor(cfg, paper.cash, ask);
      if spend < 1.0 {
        paper := paper.(pending := false);
        return;
      }
      AskPositive(cfg, ask);
      var qty := P.Shares(spend, ask);
      var fee := P.TakerFee(spend, ask, cfg.feeRate);
      PaperLedger.SharesPositive(spend, ask);
      PaperLedger.FeeNonNegative(spend, ask, cfg.feeRate);
      var projEq := paper.cash - spend - fee + P.Value(qty, mid);
      if cfg.maxLoss.Some? && cfg.initialCash - projEq > cfg.maxLoss.value + 0.000000001 {
        paper := paper.(riskStop := true, pending := false);
        return;
      }
      var cashBefore := paper.cash;
      paper := paper.(cash := cashBefore - spend - fee, havePos := true, side := paper.pendingSide, slug := hot.slug,
                      qty := qty, entryFillPrice := ask, costBasis := spend + fee);
      var eq := paper.cash + P.Value(qty, mid);
      if cfg.maxLoss.Some? && cfg.initialCash - eq >= cfg.maxLoss.value - 0.000000001 {
        paper := paper.(riskStop := true);
      }
      trades := trades + [P.BuyRow(paper.slug, paper.side.value, theo, ask, mid, qty, spend, fee,
                                   cashBefore, paper.cash)];
      paper := paper.(pending := false);
    }

    method ExecuteSell(t: P.Tick)
      requires Valid() && paper.pending && paper.pendingAction == SELL && paper.havePos
      modifies this`paper, this`trades
      ensures Valid() && State() == P.FillSell(cfg, old(State()), t, old(paper).pendingExitReason.value)
    {
      hide P.TakerFee, P.Value;
      var isUp := paper.side == Some(Up);
      var bid := if isUp then hot.up.bid else hot.down.bid;
      var theo := if isUp then t.pUp else t.pDown;
      var exitIsStop := paper.pendingExitReason == Some(P.StopLoss);
      if !exitIsStop && bid < theo - cfg.closeEps - cfg.closeEarly {
        paper := paper.(pending := false);
        return;
      }
      if paper.qty <= P.DUST {
        paper := paper.(pending := false);
        return;
      }
      var proceeds := P.Value(paper.qty, bid);
      var fee := P.TakerFee(proceeds, bid, cfg.feeRate);
      var cashBefore := paper.cash;
      paper := paper.(cash := cashBefore + (proceeds - fee));
      trades := trades + [P.SellRow(paper.slug, paper.side.value, paper.pendingExitReason.value, theo, bid, paper.qty,
                                    proceeds, fee, cashBefore, paper.cash)];
      if cfg.maxLoss.Some? && cfg.initialCash - paper.cash >= cfg.maxLoss.value - 0.000000001 {
        paper := paper.(riskStop := true);
      }
      ClearPosition();
      paper := paper.(pendingExitReason := None, stopSellRetry := false, pending := false);
    }

    method ClearPosition()
      modifies this`paper
      ensures paper == old(paper).(havePos := false, qty := 0.0, costBasis := 0.0, entryFillPrice := 0.0,
                                   side := None, slug := "")
    {
      paper := paper.(havePos := false);
      paper := paper.(qty := 0.0);
      paper := paper.(costBasis := 0.0);
      paper := paper.(entryFillPrice := 0.0);
      paper := paper.(side := None);
      paper := paper.(slug := "");
    }

    method OnHotUpdate(t: P.Tick)
      requires Valid()
      modifies this`hot, this`paper, this`trades
      ensures Valid() && State() == P.Strategy(cfg, old(State()), t)
    {
      hide P.Schedule, P.ExecuteDue;
      if !hot.haveSpot || !hot.haveStrike || !hot.up.seen || !hot.down.seen || hot.epoch < 0 { return; }
      if !tradingEnabled { return; }
      Schedule(t);
      ExecuteDue(t);
    }

    method ForceSell(upBid: real, downBid: real)
      requires Valid()
      modifies this`paper, this`trades
      ensures Valid() && State() == P.CloseAtRollover(cfg, old(State()), upBid, downBid)
    {
      hide P.TakerFee, P.Value;
      if paper.havePos && cfg.forceSellDisabled {
        ClearPosition();
        paper := paper.(pending := false);
      } else if paper.havePos {
        var bid := if paper.side == Some(Up) then upBid else downBid;
        if paper.qty <= P.DUST {
          ClearPosition();
          paper := paper.(pending := false);
        } else {
          var proceeds := P.Value(paper.qty, bid);
          var fee := P.TakerFee(proceeds, bid, cfg.feeRate);
          var cashBefore := paper.cash;
          paper := paper.(cash := cashBefore + (proceeds - fee));
          trades := trades + [P.ForceSellRow(paper.slug, paper.side.value, bid, paper.qty, proceeds, fee, cashBefore,
                                             paper.cash)];
          ClearPosition();
          paper := paper.(pending := false);
        }
      }
    }

    method OnRollover(e: P.Event)
      requires Valid() && e.Rollover?
      modifies this
      ensures Valid() && State() == P.RollOver(cfg, old(State()), e)
    {
      hide P.CloseAtRollover;
      ForceSell(e.upBid, e.downBid);
      trades := trades + [P.RolloverRow(e.newSlug, e.newEpoch, paper.cash, paper.havePos)];
      hot := hot.(slug := e.newSlug);
      hot := hot.(epoch := e.newEpoch);
      hot := hot.(haveStrike := e.strikeKnown);
      hot := hot.(upSince := -1, downSince := -1);
      tradingEnabled := true;
    }

    method OnQuote(e: P.Event)
      requires Valid() && e.Quote?
      modifies this`hot, this`paper, this`trades
      ensures Valid() && State() == P.Step(cfg, old(State()), e)
    {
      hide P.Strategy, P.RollOver;
      if e.side == Up {
        hot := hot.(up := P.Book(true, e.bid, e.ask));
      } else {
        hot := hot.(down := P.Book(true, e.bid, e.ask));
      }
      if e.epoch >= 0 && hot.epoch < 0 {
        hot := hot.(epoch := e.epoch, slug := e.slug, upSince := -1, downSince := -1);
      }
      OnHotUpdate(e.tick);
    }

    /** One event of the consumer queue (or the bootstrap write of the main thread). */
    method Handle(e: P.Event)
      requires Valid()
      modifies this
      ensures Valid() && State() == P.Step(cfg, old(State()), e)
    {
      hide P.Strategy, P.RollOver;
      match e {
        case SpotTick(clock, t) =>
          hot := hot.(haveSpot := true, entryClockMs := clock);
          OnHotUpdate(t);
        case Quote(_, _, _, _, _, _) =>
          OnQuote(e);
        case Rollover(_, _, _, _, _) =>
          OnRollover(e);
        case Bootstrap(epoch, slug, strikeKnown, enable) =>
          hot := hot.(slug := slug, epoch := epoch, haveStrike := strikeKnown);
          if enable { tradingEnabled := true; }
        case Idle =>
      }
    }
  }

  lemma AskPositive(c: P.Config, ask: real)
    requires P.AskAllowed(c, ask)
    ensures ask > 0.0
  {
  }

  lemma WindowIgnoresTimers(c: P.Config, h: P.Hot, h': P.Hot)
    requires h.epoch == h'.epoch && h.entryClockMs == h'.entryClockMs
    ensures P.EntryWindow(c, h) == P.EntryWindow(c, h')
  {
  }

  /** The consumer loop: a fresh trader fed a run of events ends in the state of the machine after that
      run, so it satisfies every property proved of `PaperTrading.At`. */
  method Consume(c: P.Config, run: seq<P.Event>) returns (trader: PaperTrader)
    ensures fresh(trader) && trader.Valid() && trader.cfg == c
    ensures trader.State() == P.At(c, run, |run|)
  {
    hide P.Step;
    trader := new PaperTrader(c);
    for i := 0 to |run|
      invariant fresh(trader) && trader.Valid() && trader.cfg == c
      invariant trader.State() == P.At(c, run, i)
    {
      trader.Handle(run[i]);
    }
  }
}
