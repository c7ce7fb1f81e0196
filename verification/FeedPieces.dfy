/** The threaded feed of `FeedThreads`, when nothing interrupts its workers, is the feed of `TokenFeed`: the critical
    sections around the callback split one emission and change nothing of what is delivered. */
module FeedPieces {
  import opened Basics
  import opened QuoteStream
  import T = TokenFeed
  import F = FeedThreads

  /** What can happen to the feed: one decoded quote, a switch, a connection. */
  datatype Act = Emit(w: nat, asset: string, bid: real, ask: real) | SwitchTo(token: string) | Connect

  /** The sections of one worker, one after the other. */
  function Pieces(a: Act): seq<F.Step> {
    match a
    case Emit(w, asset, bid, ask) => [F.Choose(w, asset, F.Prices(bid, ask)), F.Call(w), F.Remember(w)]
    case SwitchTo(token) => [F.Switch(token)]
    case Connect => [F.Open]
  }

  /** The same as one event of the undivided feed. */
  function Whole(a: Act): T.Event {
    match a
    case Emit(_, asset, bid, ask) => T.Received(T.BestBidAsk(asset, Some(bid), Some(ask)))
    case SwitchTo(token) => T.Switched(token)
    case Connect => T.Opened
  }

  function AllPieces(acts: seq<Act>): seq<F.Step> {
    if acts == [] then [] else AllPieces(acts[..|acts| - 1]) + Pieces(acts[|acts| - 1])
  }

  function AllWhole(acts: seq<Act>): (events: seq<T.Event>)
    ensures |events| == |acts| && forall i :: 0 <= i < |acts| ==> events[i] == Whole(acts[i])
  {
    seq(|acts|, i requires 0 <= i < |acts| => Whole(acts[i]))
  }

  function Plain(quotes: seq<T.Quote>): (r: seq<(string, F.Prices)>)
    ensures |r| == |quotes|
    ensures forall i :: 0 <= i < |r| ==>
      r[i] == (quotes[i].token, F.Prices(quotes[i].prices.bid, quotes[i].prices.ask))
  {
    seq(|quotes|, i requires 0 <= i < |quotes| =>
      (quotes[i].token, F.Prices(quotes[i].prices.bid, quotes[i].prices.ask)))
  }

  /** All workers are away, and the fields of the threaded feed are what the items of the undivided one say. */
  ghost predicate Agrees(s: F.State, c: T.Context, items: seq<T.QuoteItem>) {
    && s.token == c.token
    && (forall w :: 0 <= w < |s.workers| ==> s.workers[w] == F.Away)
    && s.haveLast == (items != [] && items[|items| - 1].Valid?)
    && (s.haveLast ==> s.last == F.Prices(items[|items| - 1].quote.prices.bid, items[|items| - 1].quote.prices.ask))
    && s.delivered == Plain(Delivered(T.SamePrices, items))
  }

  /** Two more runs, one after the other. */
  lemma {:induction false} AtJoined(s: F.State, a: seq<F.Step>, b: seq<F.Step>, n: nat)
    requires n <= |b|
    ensures F.At(s, a + b, |a| + n) == F.At(F.At(s, a, |a|), b, n)
  {
    hide F.Enabled, F.Apply;
    if n == 0 {
      AtPrefix(s, a, b, |a|);
    } else {
      AtJoined(s, a, b, n - 1);
      assert (a + b)[|a| + n - 1] == b[n - 1];
    }
  }

  lemma {:induction false} AtPrefix(s: F.State, a: seq<F.Step>, b: seq<F.Step>, n: nat)
    requires n <= |a|
    ensures F.At(s, a + b, n) == F.At(s, a, n)
  {
    hide F.Enabled, F.Apply;
    if n > 0 { AtPrefix(s, a, b, n - 1); }
  }

  /** One emission with nothing in between calls the callback exactly with a quote of the current token whose prices
      are not the remembered ones, and then remembers them. */
  lemma EmissionInOnePiece(s: F.State, w: nat, asset: string, bid: real, ask: real)
    requires w < |s.workers| && s.workers[w] == F.Away
    ensures var s', p := F.At(s, Pieces(Emit(w, asset, bid, ask)), 3), F.Prices(bid, ask);
      if asset == s.token && !(s.haveLast && s.last.bid == bid && s.last.ask == ask) then
        && s'.delivered == s.delivered + [(s.token, p)] && s'.haveLast && s'.last == p
        && s'.token == s.token && s'.workers == s.workers
      else s' == s
  {
    var run := Pieces(Emit(w, asset, bid, ask));
    var s1 := F.At(s, run, 1);
    assert F.At(s, run, 0) == s;
    assert F.At(s, run, 2) == if F.Enabled(s1, run[1]) then F.Apply(s1, run[1]) else s1;
  }

  lemma PlainStep(quotes: seq<T.Quote>, q: T.Quote)
    ensures Plain(quotes + [q]) == Plain(quotes) + [(q.token, F.Prices(q.prices.bid, q.prices.ask))]
  {
  }

  /** The workers an act needs are there. */
  predicate Staffed(acts: seq<Act>, workers: nat) {
    forall i :: 0 <= i < |acts| && acts[i].Emit? ==> acts[i].w < workers
  }

  lemma EmitAgrees(s: F.State, c: T.Context, items: seq<T.QuoteItem>, w: nat, asset: string, bid: real, ask: real)
    requires Agrees(s, c, items) && w < |s.workers|
    ensures var a := Emit(w, asset, bid, ask);
      var s' := F.At(s, Pieces(a), 3);
      |s'.workers| == |s.workers| && Agrees(s', c, items + T.ItemsOf(c, Whole(a)))
  {
    hide F.At, Delivered, Plain;
    EmissionInOnePiece(s, w, asset, bid, ask);
    var q := T.Quote(c.token, c.tag, T.Prices(bid, ask));
    assert T.ItemsOf(c, Whole(Emit(w, asset, bid, ask))) == if asset == c.token then [Valid(q)] else [];
    DeliveredStep(T.SamePrices, items, Valid(q));
    PlainStep(Delivered(T.SamePrices, items), q);
    if asset != c.token { assert items + [] == items; }
  }

  lemma RestartAgrees(s: F.State, c: T.Context, items: seq<T.QuoteItem>, a: Act)
    requires Agrees(s, c, items) && !a.Emit?
    ensures var s' := F.At(s, Pieces(a), 1);
      |s'.workers| == |s.workers| && Agrees(s', T.Next(c, Whole(a)), items + T.ItemsOf(c, Whole(a)))
  {
    hide Delivered, Plain;
    DeliveredStep(T.SamePrices, items, Restart);
    assert F.At(s, Pieces(a), 0) == s;
    assert items + [] == items;
  }

  lemma NothingAgrees(token: string, workers: nat)
    ensures Agrees(F.Init(token, workers), T.Context(token, T.NO_TAG), [])
  {
    NothingDelivered(T.SamePrices);
  }

  lemma LastAct(acts: seq<Act>)
    requires acts != []
    ensures var init, a := acts[..|acts| - 1], acts[|acts| - 1];
      AllPieces(acts) == AllPieces(init) + Pieces(a) && AllWhole(acts) == AllWhole(init) + [Whole(a)]
  {
  }

  /** Where the two feeds are after the acts. */
  function Threaded(token: string, workers: nat, acts: seq<Act>): F.State {
    F.At(F.Init(token, workers), AllPieces(acts), |AllPieces(acts)|)
  }

  function Undivided(token: string, acts: seq<Act>): (T.Context, seq<T.QuoteItem>) {
    var c := T.Context(token, T.NO_TAG);
    (T.ContextAt(c, AllWhole(acts)), T.Items(c, AllWhole(acts)))
  }

  lemma ThreadedStep(token: string, workers: nat, acts: seq<Act>)
    requires acts != []
    ensures var init, a := acts[..|acts| - 1], acts[|acts| - 1];
      Threaded(token, workers, acts) == F.At(Threaded(token, workers, init), Pieces(a), |Pieces(a)|)
  {
    hide F.At, F.Init, Pieces, AllPieces;
    var init, a := acts[..|acts| - 1], acts[|acts| - 1];
    LastAct(acts);
    AtJoined(F.Init(token, workers), AllPieces(init), Pieces(a), |Pieces(a)|);
  }

  lemma UndividedStep(token: string, acts: seq<Act>)
    requires acts != []
    ensures var (c, items) := Undivided(token, acts[..|acts| - 1]);
      Undivided(token, acts) ==
        (T.Next(c, Whole(acts[|acts| - 1])), items + T.ItemsOf(c, Whole(acts[|acts| - 1])))
  {
    hide T.Items, T.ContextAt, T.Next, T.ItemsOf, Whole, AllPieces, Pieces;
    LastAct(acts);
    T.ItemsStep(T.Context(token, T.NO_TAG), AllWhole(acts[..|acts| - 1]), Whole(acts[|acts| - 1]));
  }

  /** However many workers there are: as long as no emission is interrupted, the threaded feed delivers exactly what the
      undivided feed delivers, the quotes of the current token without adjacent repeats. */
  lemma {:induction false} PiecesAgree(token: string, workers: nat, acts: seq<Act>)
    requires Staffed(acts, workers)
    ensures var (c, items) := Undivided(token, acts);
      |Threaded(token, workers, acts).workers| == workers && Agrees(Threaded(token, workers, acts), c, items)
  {
    if acts == [] {
      T.NoItems(T.Context(token, T.NO_TAG));
      NothingAgrees(token, workers);
      assert AllWhole(acts) == [];
    } else {
      hide Agrees, Threaded, Undivided;
      PiecesAgree(token, workers, acts[..|acts| - 1]);
      ThreadedStep(token, workers, acts);
      UndividedStep(token, acts);
      var (c, items) := Undivided(token, acts[..|acts| - 1]);
      StepAgrees(Threaded(token, workers, acts[..|acts| - 1]), c, items, acts[|acts| - 1]);
    }
  }

  lemma StepAgrees(s: F.State, c: T.Context, items: seq<T.QuoteItem>, a: Act)
    requires Agrees(s, c, items) && (a.Emit? ==> a.w < |s.workers|)
    ensures var s' := F.At(s, Pieces(a), |Pieces(a)|);
      |s'.workers| == |s.workers| && Agrees(s', T.Next(c, Whole(a)), items + T.ItemsOf(c, Whole(a)))
  {
    hide F.At, Agrees, T.ItemsOf;
    match a
    case Emit(w, asset, bid, ask) => EmitAgrees(s, c, items, w, asset, bid, ask);
    case _ => RestartAgrees(s, c, items, a);
  }
}
