/** Which quotes a feed makes of its messages, stated on the fields of the messages alone, and what follows for the
    subscriber: whatever a message names for the current token is what the callback has last been given. */
module TokenFeedRules {
  import opened Basics
  import opened QuoteStream
  import opened TokenFeed

  // ---------------------------------------------------------------- one message

  /** A level that counts: a price, and a size above zero. */
  predicate Counts(l: Level, p: real) {
    l.price == Some(p) && l.size.Some? && l.size.value > 0.000000000000000001
  }

  /** Some level counts at `best`, and none above it. */
  ghost predicate BestBid(levels: seq<Level>, best: real) {
    && (exists i :: 0 <= i < |levels| && Counts(levels[i], best))
    && (forall i, p :: 0 <= i < |levels| && Counts(levels[i], p) ==> p <= best)
  }

  /** Some level counts at `best`, and none below it. */
  ghost predicate BestAsk(levels: seq<Level>, best: real) {
    && (exists i :: 0 <= i < |levels| && Counts(levels[i], best))
    && (forall i, p :: 0 <= i < |levels| && Counts(levels[i], p) ==> best <= p)
  }

  /** The entry of a price change has these prices for the token. */
  predicate EntryNames(x: Change, token: string, p: Prices) {
    x.asset == token && x.bid == Some(Some(p.bid)) && x.ask == Some(Some(p.ask))
  }

  /** The message has these prices for the token: its own two, the best ones of its book, or those of an entry. */
  ghost predicate Names(m: Message, token: string, p: Prices) {
    match m
    case BestBidAsk(asset, bid, ask) => asset == token && bid == Some(p.bid) && ask == Some(p.ask)
    case Book(asset, bids, asks) => asset == token && BestBid(bids, p.bid) && BestAsk(asks, p.ask)
    case PriceChange(cs) => exists i :: 0 <= i < |cs| && EntryNames(cs[i], token, p)
  }

  lemma BestBidIsHighest(levels: seq<Level>, p: real)
    ensures Highest(levels) == Some(p) <==> BestBid(levels, p)
  {
    hide Highest;
    if BestBid(levels, p) {
      var i :| 0 <= i < |levels| && Counts(levels[i], p);
      assert Eligible(levels[i]);
      var best := Highest(levels).value;
      var j :| 0 <= j < |levels| && Eligible(levels[j]) && levels[j].price.value == best;
      assert Counts(levels[j], best);
    }
    if Highest(levels) == Some(p) {
      var i :| 0 <= i < |levels| && Eligible(levels[i]) && levels[i].price.value == p;
      assert Counts(levels[i], p);
    }
  }

  lemma BestAskIsLowest(levels: seq<Level>, p: real)
    ensures Lowest(levels) == Some(p) <==> BestAsk(levels, p)
  {
    hide Lowest;
    if BestAsk(levels, p) {
      var i :| 0 <= i < |levels| && Counts(levels[i], p);
      assert Eligible(levels[i]);
      var best := Lowest(levels).value;
      var j :| 0 <= j < |levels| && Eligible(levels[j]) && levels[j].price.value == best;
      assert Counts(levels[j], best);
    }
    if Lowest(levels) == Some(p) {
      var i :| 0 <= i < |levels| && Eligible(levels[i]) && levels[i].price.value == p;
      assert Counts(levels[i], p);
    }
  }

  lemma BookItems(c: Context, asset: string, bids: seq<Level>, asks: seq<Level>)
    ensures ItemsOf(c, Received(Book(asset, bids, asks))) ==
      if asset == c.token && Highest(bids).Some? && Lowest(asks).Some?
      then [Valid(Quote(c.token, c.tag, Prices(Highest(bids).value, Lowest(asks).value)))] else []
  {
    hide Highest, Lowest;
  }

  /** A book becomes one quote, the highest bid that counts as bid and the lowest ask as ask, exactly if it is for the
      token and has both; else it becomes nothing. */
  lemma BookGivesTop(c: Context, asset: string, bids: seq<Level>, asks: seq<Level>, p: Prices)
    ensures ItemsOf(c, Received(Book(asset, bids, asks))) == [Valid(Quote(c.token, c.tag, p))]
       <==> asset == c.token && BestBid(bids, p.bid) && BestAsk(asks, p.ask)
    ensures ItemsOf(c, Received(Book(asset, bids, asks))) == []
       <==> asset != c.token || !HasEligible(bids) || !HasEligible(asks)
  {
    hide ItemsOf, Highest, Lowest, BestBid, BestAsk, HasEligible, IsHighest, IsLowest;
    BookItems(c, asset, bids, asks);
    BestBidIsHighest(bids, p.bid);
    BestAskIsLowest(asks, p.ask);
    var items := ItemsOf(c, Received(Book(asset, bids, asks)));
    if items != [] {
      assert items[0] == Valid(Quote(c.token, c.tag, Prices(Highest(bids).value, Lowest(asks).value)));
    }
  }

  /** A best-bid-ask message becomes one quote with its bid as bid and its ask as ask, exactly if it is for the token
      and both are numbers; else it becomes nothing. */
  lemma BestBidAskGivesItsPrices(c: Context, asset: string, bid: Option<real>, ask: Option<real>)
    ensures ItemsOf(c, Received(BestBidAsk(asset, bid, ask))) ==
      if asset == c.token && bid.Some? && ask.Some?
      then [Valid(Quote(c.token, c.tag, Prices(bid.value, ask.value)))] else []
  {
  }

  /** The entry is for the token and has two numbers. */
  predicate HasPrices(x: Change, token: string) {
    x.asset == token && x.bid.Some? && x.bid.value.Some? && x.ask.Some? && x.ask.value.Some?
  }

  /** `at` are the positions of the entries with prices for the token, in their order. */
  ghost predicate EntriesFor(cs: seq<Change>, token: string, at: seq<nat>) {
    && (forall i, j :: 0 <= i < j < |at| ==> at[i] < at[j])
    && (forall k :: 0 <= k < |at| ==> at[k] < |cs| && HasPrices(cs[at[k]], token))
    && (forall i: nat :: i < |cs| && HasPrices(cs[i], token) ==> i in at)
  }

  lemma EntriesStep(cs: seq<Change>, token: string, before: seq<nat>) returns (at: seq<nat>)
    requires cs != [] && EntriesFor(cs[..|cs| - 1], token, before)
    ensures EntriesFor(cs, token, at)
    ensures at == if HasPrices(cs[|cs| - 1], token) then before + [|cs| - 1] else before
  {
    hide HasPrices;
    var n := |cs| - 1;
    at := if HasPrices(cs[n], token) then before + [n] else before;
    forall i: nat | i < |cs| && HasPrices(cs[i], token) ensures i in at {
      if i < n {
        assert cs[..n][i] == cs[i];
        assert i in before;
      } else {
        assert at[|at| - 1] == n;
      }
    }
    forall k | 0 <= k < |at| ensures at[k] < |cs| && HasPrices(cs[at[k]], token) {
      if k < |before| { assert cs[..n][before[k]] == cs[before[k]]; }
    }
  }

  lemma ChangeGivesPrices(x: Change, token: string)
    ensures ChangePrices(x, token) ==
      if HasPrices(x, token) then [Prices(x.bid.value.value, x.ask.value.value)] else []
  {
  }

  /** The entries of a price change that are for the token and have two numbers become one quote each, in order. */
  lemma {:induction false} ChangesGiveTheirPrices(cs: seq<Change>, token: string) returns (at: seq<nat>)
    ensures EntriesFor(cs, token, at) && |at| == |ChangesPrices(cs, token)|
    ensures forall k :: 0 <= k < |at| ==> EntryNames(cs[at[k]], token, ChangesPrices(cs, token)[k])
  {
    if cs == [] {
      at := [];
    } else {
      hide ChangePrices;
      var n := |cs| - 1;
      var before := ChangesGiveTheirPrices(cs[..n], token);
      at := EntriesStep(cs, token, before);
      ChangeGivesPrices(cs[n], token);
      forall k | 0 <= k < |at| ensures EntryNames(cs[at[k]], token, ChangesPrices(cs, token)[k]) {
        if k < |before| { assert cs[..n][before[k]] == cs[before[k]]; }
      }
    }
  }

  /** A price change becomes as many quotes as it has entries with prices for the token, in the order of the entries,
      each with the bid and the ask of its entry. */
  lemma PriceChangeGivesEntries(c: Context, cs: seq<Change>) returns (at: seq<nat>)
    ensures EntriesFor(cs, c.token, at)
    ensures var items := ItemsOf(c, Received(PriceChange(cs)));
      && |items| == |at|
      && (forall k :: 0 <= k < |at| ==>
            items[k].Valid? && items[k].quote.token == c.token && items[k].quote.tag == c.tag
            && EntryNames(cs[at[k]], c.token, items[k].quote.prices))
  {
    hide ChangesPrices, EntriesFor;
    at := ChangesGiveTheirPrices(cs, c.token);
  }

  /** The quotes of any message are exactly those it names for the token. */
  lemma MessageItems(c: Context, m: Message, x: QuoteItem)
    ensures x in ItemsOf(c, Received(m)) <==>
      x.Valid? && x.quote.token == c.token && x.quote.tag == c.tag && Names(m, c.token, x.quote.prices)
  {
    hide ItemsOf, BestBid, BestAsk, Highest, Lowest, IsHighest, IsLowest, HasEligible, EntryNames, HasPrices;
    match m
    case BestBidAsk(asset, bid, ask) => BestBidAskGivesItsPrices(c, asset, bid, ask);
    case Book(asset, bids, asks) =>
      var p := if x.Valid? then x.quote.prices else Prices(0.0, 0.0);
      BookItems(c, asset, bids, asks);
      BestBidIsHighest(bids, p.bid);
      BestAskIsLowest(asks, p.ask);
    case PriceChange(cs) => ChangeItems(c, cs, x);
  }

  lemma ChangeItems(c: Context, cs: seq<Change>, x: QuoteItem)
    ensures x in ItemsOf(c, Received(PriceChange(cs))) <==>
      && x.Valid? && x.quote.token == c.token && x.quote.tag == c.tag
      && exists i :: 0 <= i < |cs| && EntryNames(cs[i], c.token, x.quote.prices)
  {
    hide ItemsOf;
    var at := PriceChangeGivesEntries(c, cs);
    var items := ItemsOf(c, Received(PriceChange(cs)));
    if x in items {
      var k :| 0 <= k < |items| && items[k] == x;
      assert EntryNames(cs[at[k]], c.token, x.quote.prices);
    }
    if x.Valid? && x.quote.token == c.token && x.quote.tag == c.tag
       && exists i :: 0 <= i < |cs| && EntryNames(cs[i], c.token, x.quote.prices) {
      var i :| 0 <= i < |cs| && EntryNames(cs[i], c.token, x.quote.prices);
      assert HasPrices(cs[i], c.token);
      var k :| 0 <= k < |at| && at[k] == i;
      assert items[k].quote.prices == x.quote.prices;
      assert items[k] == x;
    }
  }

  // ---------------------------------------------------------------- whole runs

  lemma {:induction false} ItemsBefore(c: Context, events: seq<Event>, j: nat)
    requires j <= |events|
    ensures Items(c, events[..j]) <= Items(c, events)
  {
    if j == |events| {
      assert events[..j] == events;
    } else {
      ItemsBefore(c, events[..|events| - 1], j);
      assert events[..|events| - 1][..j] == events[..j];
    }
  }

  /** The items that event `j` adds to a run. */
  lemma ItemsAt(c: Context, events: seq<Event>, j: nat)
    requires j < |events|
    ensures var before, added := Items(c, events[..j]), ItemsOf(ContextAt(c, events[..j]), events[j]);
      && Items(c, events[..j + 1]) == before + added
      && before + added <= Items(c, events)
  {
    hide Items, ItemsOf, ContextAt;
    ItemsStep(c, events[..j], events[j]);
    assert events[..j] + [events[j]] == events[..j + 1];
    ItemsBefore(c, events, j + 1);
  }

  /** Nothing but what a message names gets into a run: every quote of a run comes from one message, which names its
      bid and its ask, for the token and under the label of that moment. */
  lemma EveryQuoteIsNamed(c: Context, events: seq<Event>, i: nat) returns (j: nat)
    requires i < |Items(c, events)| && Items(c, events)[i].Valid?
    ensures j < |events| && AddedBy(c, events, j, i) && events[j].Received?
    ensures var q, now := Items(c, events)[i].quote, ContextAt(c, events[..j]);
      q.token == now.token && q.tag == now.tag && Names(events[j].msg, now.token, q.prices)
  {
    hide Items, ItemsOf, ContextAt, Names;
    j := ItemAddedBy(c, events, i);
    ItemsAt(c, events, j);
    var now := ContextAt(c, events[..j]);
    var x := Items(c, events)[i];
    assert ItemsOf(now, events[j])[i - |Items(c, events[..j])|] == x;
    MessageItems(now, events[j].msg, x);
  }

  /** Nothing that a message names is left out: it gets into the run with that message. */
  lemma EveryNamedIsQuoted(c: Context, events: seq<Event>, j: nat, p: Prices) returns (i: nat)
    requires j < |events| && events[j].Received? && Names(events[j].msg, ContextAt(c, events[..j]).token, p)
    ensures i < |Items(c, events)| && AddedBy(c, events, j, i)
    ensures var now := ContextAt(c, events[..j]); Items(c, events)[i] == Valid(Quote(now.token, now.tag, p))
  {
    hide Items, ItemsOf, ContextAt, Names;
    var now := ContextAt(c, events[..j]);
    var x := Valid(Quote(now.token, now.tag, p));
    ItemsAt(c, events, j);
    MessageItems(now, events[j].msg, x);
    var k :| 0 <= k < |ItemsOf(now, events[j])| && ItemsOf(now, events[j])[k] == x;
    i := |Items(c, events[..j])| + k;
  }

  /** The last entry of a price change with prices for the token. */
  ghost predicate LastEntry(cs: seq<Change>, token: string, i: nat) {
    i < |cs| && HasPrices(cs[i], token) && forall k :: i < k < |cs| ==> !HasPrices(cs[k], token)
  }

  lemma LastOf(cs: seq<Change>, token: string, at: seq<nat>)
    requires EntriesFor(cs, token, at) && at != []
    ensures LastEntry(cs, token, at[|at| - 1])
  {
    hide HasPrices;
    forall k: nat | k < |cs| && HasPrices(cs[k], token) ensures k <= at[|at| - 1] {
      var j :| 0 <= j < |at| && at[j] == k;
    }
  }

  /** What the message says last: a pair of prices that it names, those of the last entry if it is a price change. */
  ghost predicate SaysLast(m: Message, token: string, p: Prices) {
    && Names(m, token, p)
    && (m.PriceChange? ==>
          exists i: nat :: LastEntry(m.changes, token, i) && EntryNames(m.changes[i], token, p))
  }

  lemma LastItemIsSaidLast(c: Context, m: Message)
    requires ItemsOf(c, Received(m)) != []
    ensures var x := ItemsOf(c, Received(m))[|ItemsOf(c, Received(m))| - 1];
      x.Valid? && SaysLast(m, c.token, x.quote.prices)
  {
    hide ItemsOf, Names, EntryNames, HasPrices, EntriesFor, LastEntry;
    var items := ItemsOf(c, Received(m));
    MessageItems(c, m, items[|items| - 1]);
    if m.PriceChange? {
      var at := PriceChangeGivesEntries(c, m.changes);
      LastOf(m.changes, c.token, at);
      assert LastEntry(m.changes, c.token, at[|at| - 1]);
    }
  }

  /** After a message with prices for the token the callback has last been given the prices the message says last. */
  lemma LastMessageIsCurrent(c: Context, events: seq<Event>, m: Message)
    requires ItemsOf(ContextAt(c, events), Received(m)) != []
    ensures var d := Delivered(SamePrices, Items(c, events + [Received(m)]));
      d != [] && SaysLast(m, ContextAt(c, events).token, d[|d| - 1].prices)
  {
    hide *;
    ItemsStep(c, events, Received(m));
    LastItemIsSaidLast(ContextAt(c, events), m);
    LastDeliveredIsCurrent(Items(c, events + [Received(m)]));
  }

  lemma {:induction false} DeliveredBefore(items: seq<QuoteItem>, more: seq<QuoteItem>)
    ensures Delivered(SamePrices, items) <= Delivered(SamePrices, items + more)
  {
    if more == [] {
      assert items + more == items;
    } else {
      var init := more[..|more| - 1];
      DeliveredBefore(items, init);
      DeliveredStep(SamePrices, items + init, more[|more| - 1]);
      assert items + more == items + init + [more[|more| - 1]];
    }
  }

  /** The first quote after a connection, and after a switch to another token, is always delivered, even with the prices
      delivered last. */
  lemma FirstQuoteIsDelivered(c: Context, events: seq<Event>, e: Event, m: Message)
    requires e.Opened? || (e.Switched? && e.token != "" && e.token != ContextAt(c, events).token)
    requires ItemsOf(ContextAt(c, events + [e]), Received(m)) != []
    ensures var first := ItemsOf(ContextAt(c, events + [e]), Received(m))[0];
      && first.Valid?
      && Delivered(SamePrices, Items(c, events)) + [first.quote]
           <= Delivered(SamePrices, Items(c, events + [e, Received(m)]))
  {
    hide Items, ItemsOf, ContextAt, Delivered, Names, Next;
    var before, now := Items(c, events), ContextAt(c, events + [e]);
    var added := ItemsOf(now, Received(m));
    RestartItems(ContextAt(c, events), e);
    ItemsStep(c, events, e);
    ItemsStep(c, events + [e], Received(m));
    assert events + [e] + [Received(m)] == events + [e, Received(m)];
    MessageItems(now, m, added[0]);
    RestartShows(before, added[0]);
    DeliveredBefore(before + [Restart] + [added[0]], added[1..]);
    assert before + [Restart] + [added[0]] + added[1..] == before + [Restart] + added;
  }

  lemma RestartItems(c: Context, e: Event)
    requires e.Opened? || (e.Switched? && e.token != "" && e.token != c.token)
    ensures ItemsOf(c, e) == [Restart]
  {
  }

  lemma RestartShows(items: seq<QuoteItem>, x: QuoteItem)
    requires x.Valid?
    ensures Delivered(SamePrices, items + [Restart] + [x]) == Delivered(SamePrices, items) + [x.quote]
  {
    hide Delivered;
    DeliveredStep(SamePrices, items, Restart);
    DeliveredStep(SamePrices, items + [Restart], x);
  }

  /** The token switched to last by an event from `j` on. */
  function LastToken(events: seq<Event>, j: nat): Option<string> {
    if |events| <= j then None
    else if events[|events| - 1].Switched? && events[|events| - 1].token != "" then Some(events[|events| - 1].token)
    else LastToken(events[..|events| - 1], j)
  }

  /** The token of a feed is the one it was switched to last, and only a switch to an empty token has no effect. */
  lemma {:induction false} TokenIsLastSwitchedTo(c: Context, events: seq<Event>, j: nat)
    requires j <= |events|
    ensures ContextAt(c, events).token == match LastToken(events, j)
                                          case None => ContextAt(c, events[..j]).token
                                          case Some(token) => token
  {
    if j == |events| {
      assert events[..j] == events;
    } else {
      TokenIsLastSwitchedTo(c, events[..|events| - 1], j);
      assert events[..|events| - 1][..j] == events[..j];
    }
  }
}
