/** The feed that follows a family of markets by itself (src/polymarket/poly_ws_quote_feed.cpp): it switches when
    a new market of the family is announced, and removes repeats by printed prices and timestamp. All of it
    runs on the socket's callback thread. */
module MarketFeed {
  import opened Basics
  import opened QuoteStream
  import BucketDiscovery

  // ---------------------------------------------------------------- announced markets

  datatype Announcement = Announcement(slug: string, outcomes: seq<string>, tokens: seq<string>, condition: string)

  /** The active market; an unknown condition is the empty string. */
  datatype Market = Market(slug: string, upToken: string, condition: string)

  predicate SameText(a: string, b: string) { BucketDiscovery.LowerAll(a) == BucketDiscovery.LowerAll(b) }

  predicate IsOutcome(o: string, name: string) { BucketDiscovery.LowerAll(o) == name }

  ghost predicate HasOutcome(outs: seq<string>, name: string) {
    exists i :: 0 <= i < |outs| && IsOutcome(outs[i], name)
  }

  /** `i` is the first outcome of that name. */
  ghost predicate IsFirstOutcome(outs: seq<string>, name: string, i: nat) {
    i < |outs| && IsOutcome(outs[i], name) && forall j :: 0 <= j < i ==> !IsOutcome(outs[j], name)
  }

  /** The index of the first Up outcome, or the number of outcomes. */
  function FirstUp(outs: seq<string>): (i: nat)
    ensures if HasOutcome(outs, "up") then IsFirstOutcome(outs, "up", i) else i == |outs|
  {
    if outs == [] || IsOutcome(outs[0], "up") then
      assert outs != [] ==> IsFirstOutcome(outs, "up", 0);
      0
    else
      assert forall j :: 0 < j < |outs| ==> outs[j] == outs[1..][j - 1];
      1 + FirstUp(outs[1..])
  }

  predicate StartsWith(slug: string, prefix: string) {
    |prefix| <= |slug| && forall i :: 0 <= i < |prefix| ==>
      BucketDiscovery.ToLower(slug[i]) == BucketDiscovery.ToLower(prefix[i])
  }

  /** The announcement is of the family and names an Up token. */
  ghost predicate Acceptable(a: Announcement, prefix: string) {
    && StartsWith(a.slug, prefix)
    && HasOutcome(a.outcomes, "up") && HasOutcome(a.outcomes, "down")
    && |a.outcomes| == |a.tokens|
    && a.tokens[FirstUp(a.outcomes)] != ""
  }

  /** The conditions of the two markets are known and the same. */
  predicate KnownSame(a: string, b: string) { a != "" && b != "" && SameText(a, b) }

  /** `slug_has_prefix_ci` */
  method SlugHasPrefix(slug: string, prefix: string) returns (ok: bool)
    ensures ok == StartsWith(slug, prefix)
  {
    if prefix == "" { return true; }
    var ls, lp := BucketDiscovery.LowerAll(slug), BucketDiscovery.LowerAll(prefix);
    if |ls| < |lp| { return false; }
    ok := ls[..|lp|] == lp;
    if StartsWith(slug, prefix) {
      assert ls[..|lp|] == lp;
    } else {
      var i :| 0 <= i < |prefix| && BucketDiscovery.ToLower(slug[i]) != BucketDiscovery.ToLower(prefix[i]);
      assert ls[..|lp|][i] != lp[i];
    }
  }

  /** The loop of `index_up`; 0 when there is none. */
  method IndexUp(outs: seq<string>) returns (i: nat)
    ensures if HasOutcome(outs, "up") then IsFirstOutcome(outs, "up", i) else i == 0
  {
    for k := 0 to |outs|
      invariant forall j :: 0 <= j < k ==> !IsOutcome(outs[j], "up")
    {
      if IsOutcome(outs[k], "up") { return k; }
    }
    return 0;
  }

  /** The loop of `new_market_matches_family` over the outcomes. */
  method HasUpAndDown(outs: seq<string>) returns (both: bool)
    ensures both == (HasOutcome(outs, "up") && HasOutcome(outs, "down"))
  {
    var up, down := false, false;
    for k := 0 to |outs|
      invariant up == exists j :: 0 <= j < k && IsOutcome(outs[j], "up")
      invariant down == exists j :: 0 <= j < k && IsOutcome(outs[j], "down")
    {
      if IsOutcome(outs[k], "up") { up := true; }
      if IsOutcome(outs[k], "down") { down := true; }
    }
    both := up && down;
  }

  // ---------------------------------------------------------------- printed prices

  function RoundHalfEven(x: real): int {
    var f := x.Floor;
    var d := x - f as real;
    if d < 0.5 || (d == 0.5 && f % 2 == 0) then f else f + 1
  }

  function Abs(x: real): real { if x < 0.0 then -x else x }

  const MICRO := 1000000.0

  /** `std::to_string` of a double: its sign and its six decimals. */
  function Printed(x: real): (bool, int) { (x < 0.0, RoundHalfEven(Abs(x) * MICRO)) }

  /** Prices that print alike differ by at most a millionth ... */
  lemma PrintedAlikeAreClose(x: real, y: real)
    requires Printed(x) == Printed(y)
    ensures Abs(x - y) <= 1.0 / MICRO
  {
    var a, b := Abs(x) * MICRO, Abs(y) * MICRO;
    var n := RoundHalfEven(a);
    assert -0.5 <= a - n as real <= 0.5;
    assert -0.5 <= b - n as real <= 0.5;
    assert Abs(x) == a / MICRO && Abs(y) == b / MICRO;
  }

  lemma PrintedMillionths(m: int)
    ensures Printed(m as real / MICRO) == (m < 0, if m < 0 then -m else m)
  {
    var x := m as real / MICRO;
    var k := if m < 0 then -m else m;
    assert Abs(x) * MICRO == k as real;
    assert x < 0.0 <==> m < 0;
  }

  /** ... and prices with at most six decimals print alike only if they are equal. */
  lemma SixDecimalsPrintExactly(m: int, n: int)
    ensures Printed(m as real / MICRO) == Printed(n as real / MICRO) <==> m == n
  {
    hide Printed;
    PrintedMillionths(m);
    PrintedMillionths(n);
  }

  // ---------------------------------------------------------------- runs

  datatype Quote = Quote(token: string, bid: real, ask: real, stamp: string)

  /** What the feed goes through: connections, messages that carry a condition id, decoded price entries, and
      announcements. */
  datatype Event =
    | Opened
    | Hinted(asset: string, condition: string)
    | Priced(asset: string, bid: Option<real>, ask: Option<real>, stamp: string)
    | Announced(a: Announcement)

  type QuoteItem = Item<Quote>

  lemma FirstOutcomeUnique(outs: seq<string>, i: nat, j: nat)
    requires IsFirstOutcome(outs, "up", i) && IsFirstOutcome(outs, "up", j)
    ensures i == j
  {
  }

  ghost predicate Switches(m: Market, e: Event, prefix: string) {
    e.Announced? && Acceptable(e.a, prefix) && !KnownSame(m.condition, e.a.condition)
  }

  ghost function Next(m: Market, e: Event, prefix: string): Market {
    if Switches(m, e, prefix) then
      Market(e.a.slug, e.a.tokens[FirstUp(e.a.outcomes)], e.a.condition)
    else if e.Hinted? && m.condition == "" && e.asset == m.upToken then m.(condition := e.condition)
    else m
  }

  ghost function ItemsOf(m: Market, e: Event, prefix: string): seq<QuoteItem> {
    match e
    case Opened => [Restart]
    case Hinted(_, _) => []
    case Priced(asset, bid, ask, stamp) =>
      if asset != "" && asset == m.upToken && bid.Some? && ask.Some? then
        [Valid(Quote(asset, bid.value, ask.value, stamp))]
      else []
    case Announced(_) => if Switches(m, e, prefix) then [Restart] else []
  }

  ghost function MarketAt(m: Market, events: seq<Event>, prefix: string, n: nat): Market
    requires n <= |events|
  {
    if n == 0 then m else Next(MarketAt(m, events, prefix, n - 1), events[n - 1], prefix)
  }

  ghost function ItemsAt(m: Market, events: seq<Event>, prefix: string, n: nat): seq<QuoteItem>
    requires n <= |events|
  {
    if n == 0 then []
    else ItemsAt(m, events, prefix, n - 1) + ItemsOf(MarketAt(m, events, prefix, n - 1), events[n - 1], prefix)
  }

  // ---------------------------------------------------------------- removal of repeats

  /** Same printed prices and the same timestamp. */
  predicate SameKey(a: Quote, b: Quote) {
    a.token == b.token && Printed(a.bid) == Printed(b.bid) && Printed(a.ask) == Printed(b.ask) && a.stamp == b.stamp
  }

  function TokenOf(q: Quote): string { q.token }

  lemma SameKeyEquivalence()
    ensures Equivalence(SameKey)
  {
    hide Printed;
  }

  /** What the subscriber was last shown prints like the latest valid quote, so it is within a millionth of it,
      but need not equal it. */
  lemma LastDeliveredPrintsAlike(items: seq<QuoteItem>)
    requires items != [] && items[|items| - 1].Valid?
    ensures Delivered(SameKey, items) != []
    ensures var shown, latest := Delivered(SameKey, items)[|Delivered(SameKey, items)| - 1], items[|items| - 1].quote;
      && SameKey(shown, latest)
      && Abs(shown.bid - latest.bid) <= 1.0 / MICRO && Abs(shown.ask - latest.ask) <= 1.0 / MICRO
  {
    hide Printed, Abs, Delivered, Equivalence;
    SameKeyEquivalence();
    LastDeliveredIsSame(SameKey, items);
    var shown, latest := Delivered(SameKey, items)[|Delivered(SameKey, items)| - 1], items[|items| - 1].quote;
    PrintedAlikeAreClose(shown.bid, latest.bid);
    PrintedAlikeAreClose(shown.ask, latest.ask);
  }

  /** The subscriber has exactly the latest valid quote if and only if the item last shown has its bid and ask. */
  lemma LastDeliveredIsLatestIff(items: seq<QuoteItem>)
    requires items != [] && items[|items| - 1].Valid?
    ensures LastShown(SameKey, items).Some? && Delivered(SameKey, items) != []
    ensures var shown, latest := items[LastShown(SameKey, items).value].quote, items[|items| - 1].quote;
      Delivered(SameKey, items)[|Delivered(SameKey, items)| - 1] == latest
      <==> shown.bid == latest.bid && shown.ask == latest.ask
  {
    hide Delivered, LastShown, Printed;
    LastDeliveredIsLastShown(SameKey, items);
    LastDeliveredPrintsAlike(items);
  }

  /** `x` is a whole number of millionths. */
  ghost predicate InMillionths(x: real) { exists m :: x == Millionths(m) }

  function Millionths(m: int): real { m as real / MICRO }

  /** In particular whenever every price of the run is a whole number of millionths. */
  lemma MillionthsAreExact(items: seq<QuoteItem>)
    requires forall i :: 0 <= i < |items| && items[i].Valid? ==>
               InMillionths(items[i].quote.bid) && InMillionths(items[i].quote.ask)
    ensures AlwaysExact(SameKey, items)
  {
    hide AlwaysExact, Printed;
    forall i | 0 < i < |items| && Repeats(SameKey, items[i - 1], items[i]) ensures items[i - 1] == items[i] {
      MillionthsPrintExactly(items[i - 1].quote.bid, items[i].quote.bid);
      MillionthsPrintExactly(items[i - 1].quote.ask, items[i].quote.ask);
    }
    AlwaysExactIff(SameKey, items);
  }

  lemma MillionthsPrintExactly(x: real, y: real)
    requires InMillionths(x) && InMillionths(y) && Printed(x) == Printed(y)
    ensures x == y
  {
    hide Printed;
    var m :| x == Millionths(m);
    var n :| y == Millionths(n);
    SixDecimalsPrintExactly(m, n);
  }

  /** A change below the printed precision is withheld: the second of these two bids never arrives. */
  lemma SmallChangeWithheld(token: string, ask: real, stamp: string)
    ensures var a, b := Quote(token, 0.5, ask, stamp), Quote(token, 0.5000001, ask, stamp);
      a != b && Delivered(SameKey, [Valid(a), Valid(b)]) == [a]
  {
    var a, b := Quote(token, 0.5, ask, stamp), Quote(token, 0.5000001, ask, stamp);
    assert Abs(0.5) * MICRO == 500000.0 && Abs(0.5000001) * MICRO == 500000.1;
    assert Printed(0.5) == (false, 500000) && Printed(0.5000001) == (false, 500000);
    hide Printed, Delivered;
    NothingDelivered(SameKey);
    DeliveredStep(SameKey, [], Valid(a));
    DeliveredStep(SameKey, [Valid(a)], Valid(b));
    assert [] + [Valid(a)] == [Valid(a)] && [Valid(a)] + [Valid(b)] == [Valid(a), Valid(b)];
  }

  // ---------------------------------------------------------------- the feed

  class Feed {
    const prefix: string
    var active: Market
    var lastKey: Option<Quote>
    ghost var delivered: seq<Quote>
    ghost var items: seq<QuoteItem>
    ghost var rollovers: seq<(Market, Market)>

    ghost predicate Consistent()
      reads this
    {
      && delivered == Delivered(SameKey, items)
      && lastKey.Some? == (items != [] && items[|items| - 1].Valid?)
      && (lastKey.Some? ==> SameKey(lastKey.value, items[|items| - 1].quote))
    }

    /** `start` */
    constructor (m: Market, prefix: string)
      ensures Consistent() && active == m && this.prefix == prefix && items == [] && rollovers == []
    {
      this.prefix, active, lastKey := prefix, m, None;
      delivered, items, rollovers := [], [], [];
    }

    /** `on_ws_open` */
    method OnOpen()
      requires Consistent()
      modifies this
      ensures Consistent() && items == old(items) + [Restart] && delivered == old(delivered)
      ensures active == old(active) && rollovers == old(rollovers)
    {
      DeliveredStep(SameKey, items, Restart);
      lastKey := None;
      items := items + [Restart];
    }

    /** `try_hydrate_from_message` */
    method Hydrate(asset: string, condition: string)
      requires Consistent()
      modifies this`active
      ensures Consistent() && active == Next(old(active), Hinted(asset, condition), prefix)
    {
      if active.condition != "" { return; }
      if asset != active.upToken { return; }
      active := active.(condition := condition);
    }

    /** `emit_quote`: `lastKey` stands for the printed key of the quote last delivered. */
    method EmitQuote(asset: string, bid: Option<real>, ask: Option<real>, stamp: string)
      requires Consistent()
      modifies this
      ensures Consistent() && active == old(active) && rollovers == old(rollovers)
      ensures items == old(items) + ItemsOf(active, Priced(asset, bid, ask, stamp), prefix)
    {
      hide Printed;
      if asset == "" || asset != active.upToken { return; }
      if bid.None? || ask.None? { return; }
      var q := Quote(asset, bid.value, ask.value, stamp);
      DeliveredStep(SameKey, items, Valid(q));
      items := items + [Valid(q)];
      if lastKey.Some? && SameKey(q, lastKey.value) { return; }
      lastKey := Some(q);
      delivered := delivered + [q];
    }

    /** `maybe_handle_new_market`: it switches exactly to an acceptable market of the family whose condition is
        not known to be that of the active one, and to the token of its first Up outcome. */
    method OnNewMarket(a: Announcement) returns (switched: bool)
      requires Consistent()
      modifies this
      ensures Consistent() && switched == Switches(old(active), Announced(a), prefix)
      ensures active == Next(old(active), Announced(a), prefix)
      ensures items == old(items) + ItemsOf(old(active), Announced(a), prefix) && delivered == old(delivered)
      ensures rollovers == old(rollovers) + if switched then [(old(active), active)] else []
    {
      hide Printed;
      var family := SlugHasPrefix(a.slug, prefix);
      if !family { return false; }
      var both := HasUpAndDown(a.outcomes);
      if !both { return false; }
      var up := "";
      if a.tokens != [] && |a.outcomes| == |a.tokens| {
        var i := IndexUp(a.outcomes);
        FirstOutcomeUnique(a.outcomes, i, FirstUp(a.outcomes));
        up := a.tokens[i];
      }
      if up == "" { return false; }
      if active.condition != "" && a.condition != "" && SameText(active.condition, a.condition) { return false; }
      SwitchTo(Market(a.slug, up, a.condition));
      return true;
    }

    /** `switch_to_market` */
    method SwitchTo(next: Market)
      requires Consistent()
      modifies this
      ensures Consistent() && active == next
      ensures items == old(items) + [Restart] && delivered == old(delivered)
      ensures rollovers == old(rollovers) + [(old(active), next)]
    {
      var was := active;
      DeliveredStep(SameKey, items, Restart);
      active := next;
      lastKey := None;
      items := items + [Restart];
      rollovers := rollovers + [(was, next)];
    }

    method Handle(e: Event)
      requires Consistent()
      modifies this
      ensures Consistent() && active == Next(old(active), e, prefix)
      ensures items == old(items) + ItemsOf(old(active), e, prefix)
      ensures rollovers == old(rollovers) + if Switches(old(active), e, prefix) then [(old(active), active)] else []
    {
      hide Consistent, Acceptable;
      match e
      case Opened => OnOpen();
      case Hinted(asset, condition) => Hydrate(asset, condition);
      case Priced(asset, bid, ask, stamp) => EmitQuote(asset, bid, ask, stamp);
      case Announced(a) => var switched := OnNewMarket(a);
    }
  }

  /** The markets of the rollovers link up, except that a condition not known at first may be filled in. */
  ghost predicate Chained(rollovers: seq<(Market, Market)>, active: Market) {
    && (forall i :: 0 < i < |rollovers| ==> Continues(rollovers[i - 1].1, rollovers[i].0))
    && (forall i :: 0 <= i < |rollovers| ==> !KnownSame(rollovers[i].0.condition, rollovers[i].1.condition))
    && (rollovers != [] ==> Continues(rollovers[|rollovers| - 1].1, active))
  }

  predicate Continues(before: Market, now: Market) {
    now == before || (before.condition == "" && now == before.(condition := now.condition))
  }

  lemma ChainedStep(rollovers: seq<(Market, Market)>, m: Market, e: Event, prefix: string)
    requires Chained(rollovers, m)
    ensures var m' := Next(m, e, prefix);
      Chained(rollovers + if Switches(m, e, prefix) then [(m, m')] else [], m')
  {
    hide Acceptable, SameText;
  }

  /** A whole run: the callback receives exactly the valid quotes of the active market, without those that print
      like the one just before them and carry its timestamp, afresh after every connection and switch; and the
      reported rollovers link up. */
  method RunFeed(m: Market, prefix: string, events: seq<Event>) returns (feed: Feed)
    ensures fresh(feed) && feed.active == MarketAt(m, events, prefix, |events|)
    ensures feed.delivered == Delivered(SameKey, ItemsAt(m, events, prefix, |events|))
    ensures Chained(feed.rollovers, feed.active)
  {
    hide ItemsOf, Next, Chained, Switches;
    feed := new Feed(m, prefix);
    NothingChained(m);
    for i := 0 to |events|
      invariant fresh(feed) && feed.Consistent() && feed.prefix == prefix
      invariant feed.active == MarketAt(m, events, prefix, i) && feed.items == ItemsAt(m, events, prefix, i)
      invariant Chained(feed.rollovers, feed.active)
    {
      ChainedStep(feed.rollovers, feed.active, events[i], prefix);
      feed.Handle(events[i]);
    }
  }

  lemma NothingChained(m: Market)
    ensures Chained([], m)
  {
  }

  // ---------------------------------------------------------------- where quotes come from

  /** Event `k` is the price entry that `q` was made from, and `q` is for the market active when it came in. */
  ghost predicate MadeFrom(m: Market, events: seq<Event>, prefix: string, k: nat, q: Quote)
    requires k < |events|
  {
    && events[k] == Priced(q.token, Some(q.bid), Some(q.ask), q.stamp)
    && q.token == MarketAt(m, events, prefix, k).upToken
  }

  /** Item `i` was added by event `k`. */
  ghost predicate AddedBy(m: Market, events: seq<Event>, prefix: string, k: nat, i: nat)
    requires k < |events|
  {
    |ItemsAt(m, events, prefix, k)| <= i < |ItemsAt(m, events, prefix, k + 1)|
  }

  /** Every item of a run was added by one event, and every quote by an entry for the market that was active at
      exactly that event. */
  lemma {:induction false} QuotesAreForActiveMarket(m: Market, events: seq<Event>, prefix: string, n: nat, i: nat)
    returns (k: nat)
    requires n <= |events| && i < |ItemsAt(m, events, prefix, n)|
    ensures k < n && AddedBy(m, events, prefix, k, i)
    ensures var x := ItemsAt(m, events, prefix, n)[i]; x.Valid? ==> MadeFrom(m, events, prefix, k, x.quote)
  {
    hide ItemsOf, Next;
    if i < |ItemsAt(m, events, prefix, n - 1)| {
      k := QuotesAreForActiveMarket(m, events, prefix, n - 1, i);
    } else {
      k := n - 1;
      OneItem(MarketAt(m, events, prefix, k), events[k], prefix);
    }
  }

  lemma OneItem(m: Market, e: Event, prefix: string)
    ensures var items := ItemsOf(m, e, prefix);
      |items| <= 1 && forall x :: x in items && x.Valid? ==>
        e == Priced(x.quote.token, Some(x.quote.bid), Some(x.quote.ask), x.quote.stamp) && x.quote.token == m.upToken
  {
    hide Switches;
  }

  /** That event is the only one that added the item. */
  lemma AddedByOne(m: Market, events: seq<Event>, prefix: string, j: nat, k: nat, i: nat)
    requires j < |events| && k < |events| && AddedBy(m, events, prefix, j, i) && AddedBy(m, events, prefix, k, i)
    ensures j == k
  {
    hide ItemsAt;
    if j < k {
      ItemsGrow(m, events, prefix, j + 1, k);
    } else if k < j {
      ItemsGrow(m, events, prefix, k + 1, j);
    }
  }

  lemma {:induction false} ItemsGrow(m: Market, events: seq<Event>, prefix: string, j: nat, k: nat)
    requires j <= k <= |events|
    ensures ItemsAt(m, events, prefix, j) <= ItemsAt(m, events, prefix, k)
  {
    hide ItemsOf, MarketAt;
    if j < k {
      ItemsGrow(m, events, prefix, j, k - 1);
    }
  }

  /** A run whose price entries are whole numbers of millionths withholds nothing: the subscriber always has
      exactly the latest valid quote. */
  lemma MillionthRunsAreExact(m: Market, events: seq<Event>, prefix: string, n: nat)
    requires n <= |events|
    requires forall k :: 0 <= k < |events| && events[k].Priced? ==>
               (events[k].bid.Some? ==> InMillionths(events[k].bid.value)) &&
               (events[k].ask.Some? ==> InMillionths(events[k].ask.value))
    ensures AlwaysExact(SameKey, ItemsAt(m, events, prefix, n))
  {
    hide InMillionths, AlwaysExact, ItemsAt, MarketAt, AddedBy;
    var items := ItemsAt(m, events, prefix, n);
    forall i | 0 <= i < |items| && items[i].Valid?
      ensures InMillionths(items[i].quote.bid) && InMillionths(items[i].quote.ask)
    {
      var k := QuotesAreForActiveMarket(m, events, prefix, n, i);
    }
    MillionthsAreExact(items);
  }

  lemma OneTokenStep(items: seq<QuoteItem>, m: Market, e: Event, prefix: string)
    requires OneToken(TokenOf, items, m.upToken)
    ensures OneToken(TokenOf, items + ItemsOf(m, e, prefix), Next(m, e, prefix).upToken)
  {
    hide Acceptable, KnownSame, FirstUp;
    assert |ItemsOf(m, e, prefix)| <= 1;
  }

  /** So no quote is stale: in every run the token changes only at a restart, and a latest quote is for the market
      active now. */
  lemma {:induction false} TokenChangesOnlyAtRestart(m: Market, events: seq<Event>, prefix: string, n: nat)
    requires n <= |events|
    ensures OneToken(TokenOf, ItemsAt(m, events, prefix, n), MarketAt(m, events, prefix, n).upToken)
  {
    hide OneToken, ItemsOf, Next;
    if n == 0 {
      NoItemsOneToken(TokenOf, m.upToken);
    } else {
      TokenChangesOnlyAtRestart(m, events, prefix, n - 1);
      OneTokenStep(ItemsAt(m, events, prefix, n - 1), MarketAt(m, events, prefix, n - 1), events[n - 1], prefix);
    }
  }
}
