/** One quote feed for a token that can be switched (src/polymarket/ws_fixed_token_feed.cpp): the top of the
    book, which messages become quotes, and the removal of repeats. Messages are already decoded; a number
    that is missing or not a number is None. */
module TokenFeed {
  import opened Basics
  import opened QuoteStream

  // ---------------------------------------------------------------- the top of the book

  datatype Level = Level(price: Option<real>, size: Option<real>)

  const MIN_SIZE := 0.000000000000000001

  predicate Eligible(l: Level) { l.size.Some? && l.size.value > MIN_SIZE && l.price.Some? }

  ghost predicate HasEligible(levels: seq<Level>) {
    exists i :: 0 <= i < |levels| && Eligible(levels[i])
  }

  /** `p` is the highest price of an eligible level. */
  ghost predicate IsHighest(levels: seq<Level>, p: real) {
    && (exists i :: 0 <= i < |levels| && Eligible(levels[i]) && levels[i].price.value == p)
    && (forall i :: 0 <= i < |levels| && Eligible(levels[i]) ==> levels[i].price.value <= p)
  }

  /** `p` is the lowest price of an eligible level. */
  ghost predicate IsLowest(levels: seq<Level>, p: real) {
    && (exists i :: 0 <= i < |levels| && Eligible(levels[i]) && levels[i].price.value == p)
    && (forall i :: 0 <= i < |levels| && Eligible(levels[i]) ==> p <= levels[i].price.value)
  }

  function Highest(levels: seq<Level>): (p: Option<real>)
    ensures p.Some? <==> HasEligible(levels)
    ensures p.Some? ==> IsHighest(levels, p.value)
  {
    if levels == [] then None
    else
      var best, l := Highest(levels[..|levels| - 1]), levels[|levels| - 1];
      if Eligible(l) && (best.None? || l.price.value > best.value) then
        assert Eligible(levels[|levels| - 1]);
        l.price
      else best
  }

  function Lowest(levels: seq<Level>): (p: Option<real>)
    ensures p.Some? <==> HasEligible(levels)
    ensures p.Some? ==> IsLowest(levels, p.value)
  {
    if levels == [] then None
    else
      var best, l := Lowest(levels[..|levels| - 1]), levels[|levels| - 1];
      if Eligible(l) && (best.None? || l.price.value < best.value) then
        assert Eligible(levels[|levels| - 1]);
        l.price
      else best
  }

  datatype Prices = Prices(bid: real, ask: real)

  /** Best bid and ask, when both sides have an eligible level. */
  function Top(bids: seq<Level>, asks: seq<Level>): Option<Prices> {
    var b, a := Highest(bids), Lowest(asks);
    if b.Some? && a.Some? then Some(Prices(b.value, a.value)) else None
  }

  /** `parse_top_of_book_from_book` */
  method TopOfBook(bids: seq<Level>, asks: seq<Level>) returns (top: Option<Prices>)
    ensures top.Some? <==> HasEligible(bids) && HasEligible(asks)
    ensures top.Some? ==> IsHighest(bids, top.value.bid) && IsLowest(asks, top.value.ask)
    ensures top == Top(bids, asks)
  {
    hide HasEligible, IsHighest, IsLowest;
    var bestBid, bestAsk := -1.0, -1.0;
    var anyBid, anyAsk := false, false;
    for i := 0 to |bids|
      invariant Highest(bids[..i]) == if anyBid then Some(bestBid) else None
    {
      assert bids[..i + 1][..i] == bids[..i];
      if Eligible(bids[i]) && (!anyBid || bids[i].price.value > bestBid) {
        bestBid, anyBid := bids[i].price.value, true;
      }
    }
    for i := 0 to |asks|
      invariant Lowest(asks[..i]) == if anyAsk then Some(bestAsk) else None
    {
      assert asks[..i + 1][..i] == asks[..i];
      if Eligible(asks[i]) && (!anyAsk || asks[i].price.value < bestAsk) {
        bestAsk, anyAsk := asks[i].price.value, true;
      }
    }
    assert bids[..|bids|] == bids && asks[..|asks|] == asks;
    if !anyBid || !anyAsk { return None; }
    return Some(Prices(bestBid, bestAsk));
  }

  lemma SameLevels(s: seq<Level>, s': seq<Level>, i: nat)
    requires multiset(s) == multiset(s') && i < |s|
    ensures exists j :: 0 <= j < |s'| && s'[j] == s[i]
  {
    assert s[i] in multiset(s');
  }

  lemma HighestIgnoresOrder(s: seq<Level>, s': seq<Level>)
    requires multiset(s) == multiset(s') && Highest(s).Some?
    ensures Highest(s').Some? && Highest(s').value >= Highest(s).value
  {
    hide Highest;
    var i :| 0 <= i < |s| && Eligible(s[i]) && s[i].price.value == Highest(s).value;
    SameLevels(s, s', i);
    var j :| 0 <= j < |s'| && s'[j] == s[i];
    assert Eligible(s'[j]);
  }

  lemma LowestIgnoresOrder(s: seq<Level>, s': seq<Level>)
    requires multiset(s) == multiset(s') && Lowest(s).Some?
    ensures Lowest(s').Some? && Lowest(s').value <= Lowest(s).value
  {
    hide Lowest;
    var i :| 0 <= i < |s| && Eligible(s[i]) && s[i].price.value == Lowest(s).value;
    SameLevels(s, s', i);
    var j :| 0 <= j < |s'| && s'[j] == s[i];
    assert Eligible(s'[j]);
  }

  /** The top of the book does not depend on the order of the levels. */
  lemma TopIgnoresOrder(bids: seq<Level>, bids': seq<Level>, asks: seq<Level>, asks': seq<Level>)
    requires multiset(bids) == multiset(bids') && multiset(asks) == multiset(asks')
    ensures Top(bids, asks) == Top(bids', asks')
  {
    hide Highest, Lowest, HasEligible, IsHighest, IsLowest;
    if Highest(bids).Some? { HighestIgnoresOrder(bids, bids'); }
    if Highest(bids').Some? { HighestIgnoresOrder(bids', bids); }
    if Lowest(asks).Some? { LowestIgnoresOrder(asks, asks'); }
    if Lowest(asks').Some? { LowestIgnoresOrder(asks', asks); }
  }

  // ---------------------------------------------------------------- messages

  /** `prices` is None when the entry carries no best bid or no best ask. */
  datatype Change = Change(asset: string, bid: Option<Option<real>>, ask: Option<Option<real>>)

  datatype Message =
    | BestBidAsk(asset: string, bid: Option<real>, ask: Option<real>)
    | Book(asset: string, bids: seq<Level>, asks: seq<Level>)
    | PriceChange(changes: seq<Change>)

  /** The market label put on a feed's quotes: slug, bucket epoch and outcome. */
  datatype Tag = Tag(slug: string, epoch: int, outcome: string)

  const NO_TAG := Tag("", -1, "")

  /** What a feed goes through while it runs: (re)connections, messages, switches and changes of the market
      label put on its quotes. */
  datatype Event = Opened | Received(msg: Message) | Switched(token: string) | Labelled(tag: Tag)

  datatype Quote = Quote(token: string, tag: Tag, prices: Prices)

  type QuoteItem = Item<Quote>

  function PricesOf(bid: Option<real>, ask: Option<real>): seq<Prices> {
    if bid.Some? && ask.Some? then [Prices(bid.value, ask.value)] else []
  }

  function ChangePrices(c: Change, token: string): seq<Prices> {
    if c.asset == token && c.bid.Some? && c.ask.Some? then PricesOf(c.bid.value, c.ask.value) else []
  }

  function ChangesPrices(cs: seq<Change>, token: string): seq<Prices> {
    if cs == [] then [] else ChangesPrices(cs[..|cs| - 1], token) + ChangePrices(cs[|cs| - 1], token)
  }

  /** The valid prices a message holds for the token, in order. */
  function MessagePrices(m: Message, token: string): seq<Prices> {
    match m
    case BestBidAsk(asset, bid, ask) => if asset == token then PricesOf(bid, ask) else []
    case Book(asset, bids, asks) =>
      if asset == token then (match Top(bids, asks) case Some(p) => [p] case None => []) else []
    case PriceChange(cs) => ChangesPrices(cs, token)
  }

  function Quotes(token: string, tag: Tag, ps: seq<Prices>): (items: seq<QuoteItem>)
    ensures |items| == |ps|
    ensures forall i :: 0 <= i < |ps| ==> items[i] == Valid(Quote(token, tag, ps[i]))
  {
    seq(|ps|, i requires 0 <= i < |ps| => Valid(Quote(token, tag, ps[i])))
  }

  datatype Context = Context(token: string, tag: Tag)

  function Next(c: Context, e: Event): Context {
    match e
    case Switched(token) => if token == "" then c else c.(token := token)
    case Labelled(tag) => c.(tag := tag)
    case _ => c
  }

  function ItemsOf(c: Context, e: Event): seq<QuoteItem> {
    match e
    case Opened => [Restart]
    case Received(m) => Quotes(c.token, c.tag, MessagePrices(m, c.token))
    case Switched(token) => if token == "" || token == c.token then [] else [Restart]
    case Labelled(_) => []
  }

  function ContextAt(c: Context, events: seq<Event>): Context {
    if events == [] then c else Next(ContextAt(c, events[..|events| - 1]), events[|events| - 1])
  }

  /** All the items of a run that starts with context `c`. */
  function Items(c: Context, events: seq<Event>): seq<QuoteItem> {
    if events == [] then []
    else
      var init := events[..|events| - 1];
      Items(c, init) + ItemsOf(ContextAt(c, init), events[|events| - 1])
  }

  // ---------------------------------------------------------------- removal of repeats

  /** A quote repeats the one before it if bid and ask are the same; its label does not matter. */
  predicate SamePrices(a: Quote, b: Quote) { a.prices == b.prices }

  function TokenOf(q: Quote): string { q.token }

  lemma SamePricesEquivalence()
    ensures Equivalence(SamePrices)
  {
  }

  /** What the subscriber was last shown has the bid and ask of the latest valid quote, in the same
      connection and for the same token: nothing that differs is ever withheld. */
  lemma SubscriberIsUpToDate(items: seq<QuoteItem>, i: nat) returns (k: nat)
    requires i < |items| && items[i].Valid?
    ensures k <= i && ShownSince(SamePrices, items, k, i)
  {
    hide ShownSince, Equivalence;
    SamePricesEquivalence();
    k := ShownUpToDate(SamePrices, items, i);
  }

  /** The latest valid quote is also the last one delivered, up to its market label. */
  lemma LastDeliveredIsCurrent(items: seq<QuoteItem>)
    requires items != [] && items[|items| - 1].Valid?
    ensures Delivered(SamePrices, items) != []
    ensures Delivered(SamePrices, items)[|Delivered(SamePrices, items)| - 1].prices == items[|items| - 1].quote.prices
  {
    hide Delivered, Equivalence;
    SamePricesEquivalence();
    LastDeliveredIsSame(SamePrices, items);
  }

  lemma OneTokenStep(items: seq<QuoteItem>, c: Context, e: Event)
    requires OneToken(TokenOf, items, c.token)
    ensures OneToken(TokenOf, items + ItemsOf(c, e), Next(c, e).token)
  {
    hide MessagePrices;
  }

  /** Every quote of a run is for the token of its time: between two restarts the token does not change. */
  lemma {:induction false} TokenChangesOnlyAtRestart(c: Context, events: seq<Event>)
    ensures OneToken(TokenOf, Items(c, events), ContextAt(c, events).token)
  {
    hide OneToken, ItemsOf, Next;
    if events == [] {
      NoItemsOneToken(TokenOf, c.token);
    } else {
      var init := events[..|events| - 1];
      TokenChangesOnlyAtRestart(c, init);
      OneTokenStep(Items(c, init), ContextAt(c, init), events[|events| - 1]);
    }
  }

  /** The label is not part of the comparison: a market relabelled after its first quote keeps showing the
      old label until the price moves. `LabelCurrentIff` says exactly when the label on display is current. */
  lemma LabelLags(oldTag: Tag, newTag: Tag, token: string, newToken: string, p: Prices)
    requires newToken != "" && newToken != token && oldTag != newTag
    ensures var m := Received(BestBidAsk(newToken, Some(p.bid), Some(p.ask)));
      var c, run := Context(token, oldTag), [Switched(newToken), m, Labelled(newTag), m];
      && ContextAt(c, run) == Context(newToken, newTag)
      && Delivered(SamePrices, Items(c, run)) == [Quote(newToken, oldTag, p)]
  {
    hide Items, Delivered, ContextAt;
    var m := Received(BestBidAsk(newToken, Some(p.bid), Some(p.ask)));
    var run := [Switched(newToken), m, Labelled(newTag), m];
    var q0, q1 := Valid(Quote(newToken, oldTag, p)), Valid(Quote(newToken, newTag, p));
    FourItems(Context(token, oldTag), run);
    assert Quotes(newToken, oldTag, [p]) == [q0];
    assert Quotes(newToken, newTag, [p]) == [q1];
    assert [Restart] + [q0] + [] + [q1] == [Restart, q0, q1];
    ThreeDelivered(Restart, q0, q1);
  }

  /** The quote on display has the label of the latest valid quote exactly if the item last shown has it. */
  lemma LabelShownIff(items: seq<QuoteItem>)
    requires items != [] && items[|items| - 1].Valid?
    ensures Delivered(SamePrices, items) != [] && LastShown(SamePrices, items).Some?
    ensures Delivered(SamePrices, items)[|Delivered(SamePrices, items)| - 1].tag == items[|items| - 1].quote.tag
       <==> items[LastShown(SamePrices, items).value].quote.tag == items[|items| - 1].quote.tag
  {
    hide Delivered, LastShown;
    LastDeliveredIsLastShown(SamePrices, items);
    LastDeliveredIsCurrent(items);
  }

  /** Item `i` of the run was added by event `j`. */
  ghost predicate AddedBy(c: Context, events: seq<Event>, j: nat, i: nat)
    requires j < |events|
  {
    |Items(c, events[..j])| <= i < |Items(c, events[..j + 1])|
  }

  /** Every item of a run was added by one event, with the token and the label of that moment. */
  lemma {:induction false} ItemAddedBy(c: Context, events: seq<Event>, i: nat) returns (j: nat)
    requires i < |Items(c, events)|
    ensures j < |events| && AddedBy(c, events, j, i)
    ensures var x := Items(c, events)[i];
      x.Valid? ==> events[j].Received? && Context(x.quote.token, x.quote.tag) == ContextAt(c, events[..j])
  {
    hide MessagePrices, Next;
    var init := events[..|events| - 1];
    assert events[..|events|] == events;
    if i < |Items(c, init)| {
      j := ItemAddedBy(c, init, i);
      assert init[..j] == events[..j] && init[..j + 1] == events[..j + 1];
    } else {
      j := |events| - 1;
    }
  }

  /** The label set last by an event from `j` on. */
  function LastLabel(events: seq<Event>, j: nat): Option<Tag> {
    if |events| <= j then None
    else if events[|events| - 1].Labelled? then Some(events[|events| - 1].tag)
    else LastLabel(events[..|events| - 1], j)
  }

  lemma {:induction false} LabelIsLastSet(c: Context, events: seq<Event>, j: nat)
    requires j <= |events|
    ensures ContextAt(c, events).tag == match LastLabel(events, j)
                                         case None => ContextAt(c, events[..j]).tag
                                         case Some(tag) => tag
  {
    if j == |events| {
      assert events[..j] == events;
    } else {
      LabelIsLastSet(c, events[..|events| - 1], j);
      assert events[..|events| - 1][..j] == events[..j];
    }
  }

  /** Exactly when the quote on display carries the current label, for every run that has delivered one: if and
      only if no label was set after the event `j` that the quote came with, or the last one set is the same. */
  lemma LabelCurrentIff(c: Context, events: seq<Event>) returns (j: nat)
    requires Delivered(SamePrices, Items(c, events)) != []
    ensures LastShown(SamePrices, Items(c, events)).Some?
    ensures j < |events| && events[j].Received? && AddedBy(c, events, j, LastShown(SamePrices, Items(c, events)).value)
    ensures var delivered := Delivered(SamePrices, Items(c, events));
      var shown := delivered[|delivered| - 1].tag;
      && shown == ContextAt(c, events[..j]).tag
      && (shown == ContextAt(c, events).tag <==> LastLabel(events, j).None? || LastLabel(events, j) == Some(shown))
  {
    hide Delivered, Items, ContextAt, LastLabel, LastShown, AddedBy;
    var items := Items(c, events);
    LastDeliveredIsLastShown(SamePrices, items);
    j := ItemAddedBy(c, events, LastShown(SamePrices, items).value);
    LabelIsLastSet(c, events, j);
  }

  lemma FourItems(c: Context, run: seq<Event>)
    requires |run| == 4
    ensures var c1 := Next(c, run[0]);
      var c2 := Next(c1, run[1]);
      var c3 := Next(c2, run[2]);
      && ContextAt(c, run) == Next(c3, run[3])
      && Items(c, run) == ItemsOf(c, run[0]) + ItemsOf(c1, run[1]) + ItemsOf(c2, run[2]) + ItemsOf(c3, run[3])
  {
    hide Next, ItemsOf, Items, ContextAt;
    NoItems(c);
    ItemsStep(c, [], run[0]);
    ItemsStep(c, [run[0]], run[1]);
    ItemsStep(c, [run[0], run[1]], run[2]);
    ItemsStep(c, [run[0], run[1], run[2]], run[3]);
    assert [] + [run[0]] == [run[0]] && [run[0]] + [run[1]] == [run[0], run[1]];
    assert [run[0], run[1]] + [run[2]] == [run[0], run[1], run[2]];
    assert [run[0], run[1], run[2]] + [run[3]] == run;
  }

  lemma NoItems(c: Context)
    ensures Items(c, []) == [] && ContextAt(c, []) == c
  {
  }

  lemma ThreeDelivered(x: QuoteItem, y: QuoteItem, z: QuoteItem)
    requires x == Restart && Repeats(SamePrices, y, z)
    ensures Delivered(SamePrices, [x, y, z]) == [y.quote]
  {
    hide Delivered;
    NothingDelivered(SamePrices);
    DeliveredStep(SamePrices, [], x);
    DeliveredStep(SamePrices, [x], y);
    DeliveredStep(SamePrices, [x, y], z);
    assert [] + [x] == [x] && [x] + [y] == [x, y] && [x, y] + [z] == [x, y, z];
  }

  lemma ItemsStep(c: Context, events: seq<Event>, e: Event)
    ensures ContextAt(c, events + [e]) == Next(ContextAt(c, events), e)
    ensures Items(c, events + [e]) == Items(c, events) + ItemsOf(ContextAt(c, events), e)
  {
    assert (events + [e])[..|events|] == events;
  }

  // ---------------------------------------------------------------- the feed

  datatype Frame = Unsubscribe(token: string) | Subscribe(token: string)

  /** A running feed. `delivered` is what the callback has been called with, `items` the run so far and
      `sent` the frames handed to the socket. */
  class Feed {
    var tokenId: string
    var marketTag: Tag
    var haveLast: bool
    var last: Prices
    var snapshot: string
    ghost var delivered: seq<Quote>
    ghost var items: seq<QuoteItem>
    ghost var sent: seq<Frame>

    ghost predicate Consistent()
      reads this
    {
      && delivered == Delivered(SamePrices, items)
      && snapshot == tokenId
      && haveLast == (items != [] && items[|items| - 1].Valid?)
      && (haveLast ==> last == items[|items| - 1].quote.prices)
    }

    /** `start` */
    constructor (token: string)
      requires token != ""
      ensures Consistent() && tokenId == token && marketTag == NO_TAG && items == [] && sent == []
    {
      tokenId, snapshot, marketTag := token, token, NO_TAG;
      haveLast, last := false, Prices(0.0, 0.0);
      delivered, items, sent := [], [], [];
    }

    /** `on_ws_open` */
    method OnOpen()
      requires Consistent()
      modifies this
      ensures Consistent() && items == old(items) + [Restart] && delivered == old(delivered)
      ensures tokenId == old(tokenId) && marketTag == old(marketTag) && sent == old(sent)
    {
      DeliveredStep(SamePrices, items, Restart);
      haveLast := false;
      items := items + [Restart];
    }

    /** `emit_quote`, called with the current token by every message handler. */
    method EmitQuote(asset: string, bid: Option<real>, ask: Option<real>)
      requires Consistent()
      modifies this
      ensures Consistent()
      ensures tokenId == old(tokenId) && marketTag == old(marketTag) && sent == old(sent)
      ensures items == old(items) + if asset == tokenId then Quotes(tokenId, marketTag, PricesOf(bid, ask)) else []
    {
      if asset != tokenId { return; }
      if bid.None? || ask.None? { return; }
      var p := Prices(bid.value, ask.value);
      var q := Quote(tokenId, marketTag, p);
      assert Quotes(tokenId, marketTag, [p]) == [Valid(q)];
      DeliveredStep(SamePrices, items, Valid(q));
      items := items + [Valid(q)];
      if haveLast && bid.value == last.bid && ask.value == last.ask { return; }
      delivered := delivered + [q];
      last := p;
      haveLast := true;
    }

    /** `on_ws_message_inner` */
    method OnMessage(m: Message)
      requires Consistent()
      modifies this
      ensures Consistent() && items == old(items) + ItemsOf(old(Context(tokenId, marketTag)), Received(m))
      ensures tokenId == old(tokenId) && marketTag == old(marketTag) && sent == old(sent)
    {
      match m
      case BestBidAsk(asset, bid, ask) =>
        if asset != tokenId { return; }
        EmitQuote(asset, bid, ask);
      case Book(asset, bids, asks) =>
        if asset != tokenId { return; }
        var top := TopOfBook(bids, asks);
        if top.None? { return; }
        EmitQuote(asset, Some(top.value.bid), Some(top.value.ask));
      case PriceChange(cs) =>
        EmitChanges(cs);
    }

    /** The loop over a `price_change` message. */
    method EmitChanges(cs: seq<Change>)
      requires Consistent()
      modifies this
      ensures Consistent() && items == old(items) + Quotes(tokenId, marketTag, ChangesPrices(cs, tokenId))
      ensures tokenId == old(tokenId) && marketTag == old(marketTag) && sent == old(sent)
    {
      hide Consistent, ChangePrices;
      ghost var token, tag := tokenId, marketTag;
      for i := 0 to |cs|
        invariant Consistent()
        invariant tokenId == token && marketTag == tag && sent == old(sent)
        invariant items == old(items) + Quotes(token, tag, ChangesPrices(cs[..i], token))
      {
        ChangesStep(cs, i, token, tag);
        if cs[i].asset == tokenId && cs[i].bid.Some? && cs[i].ask.Some? {
          ChangeIs(cs[i], token);
          EmitQuote(cs[i].asset, cs[i].bid.value, cs[i].ask.value);
        } else {
          NoChange(cs[i], token);
        }
      }
      assert cs[..|cs|] == cs;
    }

    /** `switch_token` */
    method SwitchToken(token: string) returns (ok: bool)
      requires Consistent()
      modifies this
      ensures Consistent() && ok == (token != "")
      ensures items == old(items) + ItemsOf(old(Context(tokenId, marketTag)), Switched(token))
      ensures Context(tokenId, marketTag) == Next(old(Context(tokenId, marketTag)), Switched(token))
      ensures delivered == old(delivered)
      ensures sent == old(sent) + if token == "" || token == old(tokenId) then []
                                  else [Unsubscribe(old(tokenId)), Subscribe(token)]
    {
      if token == "" { return false; }
      if token == tokenId { return true; }
      DeliveredStep(SamePrices, items, Restart);
      sent := sent + [Unsubscribe(tokenId)];
      tokenId, haveLast := token, false;
      snapshot := token;
      sent := sent + [Subscribe(token)];
      items := items + [Restart];
      return true;
    }

    /** `set_market_context` */
    method SetMarketContext(slug: string, epoch: int, outcome: string)
      requires Consistent()
      modifies this`marketTag
      ensures Consistent() && marketTag == Tag(slug, epoch, outcome)
    {
      marketTag := Tag(slug, epoch, outcome);
    }

    method Handle(e: Event)
      requires Consistent()
      modifies this
      ensures Consistent() && items == old(items) + ItemsOf(old(Context(tokenId, marketTag)), e)
      ensures Context(tokenId, marketTag) == Next(old(Context(tokenId, marketTag)), e)
    {
      hide Consistent, MessagePrices;
      match e
      case Opened => OnOpen();
      case Received(m) => OnMessage(m);
      case Switched(token) => var ok := SwitchToken(token);
      case Labelled(tag) => SetMarketContext(tag.slug, tag.epoch, tag.outcome);
    }
  }

  lemma QuotesConcat(token: string, tag: Tag, a: seq<Prices>, b: seq<Prices>)
    ensures Quotes(token, tag, a + b) == Quotes(token, tag, a) + Quotes(token, tag, b)
  {
  }

  lemma ChangesStep(cs: seq<Change>, i: nat, token: string, tag: Tag)
    requires i < |cs|
    ensures Quotes(token, tag, ChangesPrices(cs[..i + 1], token))
         == Quotes(token, tag, ChangesPrices(cs[..i], token)) + Quotes(token, tag, ChangePrices(cs[i], token))
  {
    assert cs[..i + 1][..i] == cs[..i];
    QuotesConcat(token, tag, ChangesPrices(cs[..i], token), ChangePrices(cs[i], token));
  }

  lemma ChangeIs(c: Change, token: string)
    requires c.asset == token && c.bid.Some? && c.ask.Some?
    ensures ChangePrices(c, token) == PricesOf(c.bid.value, c.ask.value)
  {
  }

  lemma NoChange(c: Change, token: string)
    requires !(c.asset == token && c.bid.Some? && c.ask.Some?)
    ensures ChangePrices(c, token) == []
  {
  }

  /** A whole run of the feed: the callback receives exactly the valid quotes of the current token with
      adjacent repeats removed, starting afresh at every connection and switch. */
  method RunFeed(token: string, events: seq<Event>) returns (feed: Feed)
    requires token != ""
    ensures fresh(feed) && feed.delivered == Delivered(SamePrices, Items(Context(token, NO_TAG), events))
    ensures Context(feed.tokenId, feed.marketTag) == ContextAt(Context(token, NO_TAG), events)
  {
    hide ItemsOf, Next;
    feed := new Feed(token);
    for i := 0 to |events|
      invariant fresh(feed) && feed.Consistent() && feed.items == Items(Context(token, NO_TAG), events[..i])
      invariant Context(feed.tokenId, feed.marketTag) == ContextAt(Context(token, NO_TAG), events[..i])
    {
      assert events[..i + 1] == events[..i] + [events[i]];
      ItemsStep(Context(token, NO_TAG), events[..i], events[i]);
      feed.Handle(events[i]);
    }
    assert events[..|events|] == events;
  }
}
