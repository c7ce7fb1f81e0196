/** What the market feed makes of announcements, hints and price entries, stated on their fields alone, and which
    quotes reach the subscriber. */
module MarketFeedRules {
  import opened Basics
  import opened QuoteStream
  import opened BucketDiscovery
  import opened M = MarketFeed

  /** The text is `name`, whatever the case of its letters. */
  predicate Reads(text: string, name: string) {
    |text| == |name| && forall i :: 0 <= i < |text| ==> ToLower(text[i]) == ToLower(name[i])
  }

  lemma ReadsIsSame(a: string, b: string)
    ensures LowerAll(a) == LowerAll(b) <==> Reads(a, b)
  {
    var x, y := LowerAll(a), LowerAll(b);
    if x == y {
      forall i | 0 <= i < |a| ensures ToLower(a[i]) == ToLower(b[i]) { assert x[i] == y[i]; }
    }
    if Reads(a, b) { assert forall i :: 0 <= i < |x| ==> x[i] == y[i]; }
  }

  lemma OutcomeNames()
    ensures LowerAll("up") == "up" && LowerAll("down") == "down"
  {
    assert ToLower('u') == 'u' && ToLower('p') == 'p' && ToLower('d') == 'd';
    assert ToLower('o') == 'o' && ToLower('w') == 'w' && ToLower('n') == 'n';
  }

  /** Outcome `i` is Up and none before it is. */
  ghost predicate UpAt(a: Announcement, i: int) {
    0 <= i < |a.outcomes| && Reads(a.outcomes[i], "up") && forall j :: 0 <= j < i ==> !Reads(a.outcomes[j], "up")
  }

  ghost predicate HasDown(a: Announcement) {
    exists i :: 0 <= i < |a.outcomes| && Reads(a.outcomes[i], "down")
  }

  /** The announced market begins with the prefix of the family, has a Down outcome, one token for each outcome and a
      token for its first Up outcome, `up`, and is not known to be the active one. */
  ghost predicate Follows(m: M.Market, a: Announcement, prefix: string, up: int) {
    && |prefix| <= |a.slug| && Reads(a.slug[..|prefix|], prefix)
    && UpAt(a, up) && HasDown(a)
    && |a.tokens| == |a.outcomes| && a.tokens[up] != ""
    && !(m.condition != "" && a.condition != "" && Reads(m.condition, a.condition))
  }

  lemma FirstUpIs(a: Announcement, i: int)
    ensures UpAt(a, i) <==> HasOutcome(a.outcomes, "up") && FirstUp(a.outcomes) == i
  {
    hide FirstUp;
    OutcomeNames();
    var outs := a.outcomes;
    forall k | 0 <= k < |outs| ensures IsOutcome(outs[k], "up") <==> Reads(outs[k], "up") {
      ReadsIsSame(outs[k], "up");
    }
    if UpAt(a, i) {
      assert IsFirstOutcome(outs, "up", i);
      FirstOutcomeUnique(outs, i, FirstUp(outs));
    }
  }

  lemma DownIs(a: Announcement)
    ensures HasOutcome(a.outcomes, "down") <==> HasDown(a)
  {
    OutcomeNames();
    var outs := a.outcomes;
    forall k | 0 <= k < |outs| ensures IsOutcome(outs[k], "down") <==> Reads(outs[k], "down") {
      ReadsIsSame(outs[k], "down");
    }
  }

  lemma FollowsIff(m: M.Market, a: Announcement, prefix: string, up: int)
    ensures Follows(m, a, prefix, up) <==> Switches(m, Announced(a), prefix) && FirstUp(a.outcomes) == up
  {
    hide FirstUp, UpAt, HasDown, HasOutcome, IsFirstOutcome;
    FirstUpIs(a, up);
    FirstUpIs(a, FirstUp(a.outcomes));
    DownIs(a);
    ReadsIsSame(m.condition, a.condition);
    hide Reads, LowerAll;
    PrefixIs(a.slug, prefix);
  }

  lemma PrefixIs(slug: string, prefix: string)
    ensures StartsWith(slug, prefix) <==> |prefix| <= |slug| && Reads(slug[..|prefix|], prefix)
  {
    if |prefix| <= |slug| {
      assert forall i :: 0 <= i < |prefix| ==> slug[..|prefix|][i] == slug[i];
    }
  }

  /** The switching rule: an announcement that follows makes its market the active one, with the token of its first Up
      outcome, and starts the removal of repeats afresh; any other changes nothing. */
  lemma AnnouncementRule(m: M.Market, a: Announcement, prefix: string, up: int)
    ensures Follows(m, a, prefix, up) ==>
      && Next(m, Announced(a), prefix) == M.Market(a.slug, a.tokens[up], a.condition)
      && ItemsOf(m, Announced(a), prefix) == [Restart]
    ensures (forall i :: !Follows(m, a, prefix, i)) ==>
      Next(m, Announced(a), prefix) == m && ItemsOf(m, Announced(a), prefix) == []
  {
    hide Follows, Switches, FirstUp;
    FollowsIff(m, a, prefix, up);
    FollowsIff(m, a, prefix, FirstUp(a.outcomes));
    if Follows(m, a, prefix, up) { InRangeUp(m, a, prefix, up); }
  }

  lemma InRangeUp(m: M.Market, a: Announcement, prefix: string, up: int)
    requires Follows(m, a, prefix, up)
    ensures 0 <= up < |a.tokens| && a.tokens[up] != ""
  {
  }

  /** A price entry becomes a quote, with its bid as bid, its ask as ask and its own timestamp, exactly if it is for the
      active token and both are numbers; it never changes the market. */
  lemma EntryRule(m: M.Market, asset: string, bid: Option<real>, ask: Option<real>, stamp: string, prefix: string)
    ensures Next(m, Priced(asset, bid, ask, stamp), prefix) == m
    ensures ItemsOf(m, Priced(asset, bid, ask, stamp), prefix) ==
      if asset == m.upToken && m.upToken != "" && bid.Some? && ask.Some?
      then [Valid(M.Quote(m.upToken, bid.value, ask.value, stamp))] else []
  {
  }

  /** A condition is filled in exactly while it is unknown, by a message for the active token. */
  lemma HintRule(m: M.Market, asset: string, condition: string, prefix: string)
    ensures ItemsOf(m, Hinted(asset, condition), prefix) == []
    ensures Next(m, Hinted(asset, condition), prefix) ==
      if m.condition == "" && asset == m.upToken then M.Market(m.slug, m.upToken, condition) else m
  {
  }

  /** A connection starts the removal of repeats afresh and keeps the market. */
  lemma OpenRule(m: M.Market, prefix: string)
    ensures Next(m, Opened, prefix) == m && ItemsOf(m, Opened, prefix) == [Restart]
  {
  }

  // ---------------------------------------------------------------- whole runs

  /** Nothing the active market's entries say is left out: each gets into the run with its event. */
  lemma EveryEntryIsQuoted(m: M.Market, events: seq<M.Event>, prefix: string, n: nat, k: nat, bid: real, ask: real)
    returns (i: nat)
    requires k < n <= |events|
    requires events[k].Priced? && events[k].asset != "" && events[k].bid == Some(bid) && events[k].ask == Some(ask)
    requires events[k].asset == MarketAt(m, events, prefix, k).upToken
    ensures i < |ItemsAt(m, events, prefix, n)| && AddedBy(m, events, prefix, k, i)
    ensures ItemsAt(m, events, prefix, n)[i] == Valid(M.Quote(events[k].asset, bid, ask, events[k].stamp))
  {
    hide ItemsOf, MarketAt;
    var now := MarketAt(m, events, prefix, k);
    EntryRule(now, events[k].asset, events[k].bid, events[k].ask, events[k].stamp, prefix);
    i := |ItemsAt(m, events, prefix, k)|;
    assert ItemsAt(m, events, prefix, k + 1)
        == ItemsAt(m, events, prefix, k) + [Valid(M.Quote(events[k].asset, bid, ask, events[k].stamp))];
    ItemsGrow(m, events, prefix, k + 1, n);
  }

  /** A quote after the items of a run is withheld exactly if the item before it is a quote too, of the same token, with
      the same timestamp, and both prices print alike; the first one after a restart is always delivered. */
  lemma WithheldIff(items: seq<M.QuoteItem>, q: M.Quote)
    ensures var last := if items == [] then Restart else items[|items| - 1];
      Delivered(SameKey, items + [Valid(q)]) == Delivered(SameKey, items) +
        if last.Valid? && last.quote.token == q.token && last.quote.stamp == q.stamp
           && Printed(last.quote.bid) == Printed(q.bid) && Printed(last.quote.ask) == Printed(q.ask)
        then [] else [q]
  {
    hide Delivered, Printed;
    DeliveredStep(SameKey, items, Valid(q));
  }

  /** In particular a quote with a new timestamp is delivered, and one that moves a price by more than a millionth. */
  lemma NewsIsDelivered(items: seq<M.QuoteItem>, q: M.Quote)
    requires items != [] && items[|items| - 1].Valid?
    requires var last := items[|items| - 1].quote;
      last.stamp != q.stamp || Abs(last.bid - q.bid) > 0.000001 || Abs(last.ask - q.ask) > 0.000001
    ensures Delivered(SameKey, items + [Valid(q)]) == Delivered(SameKey, items) + [q]
  {
    hide Delivered, Printed, Abs;
    var last := items[|items| - 1].quote;
    WithheldIff(items, q);
    if Printed(last.bid) == Printed(q.bid) { PrintedAlikeAreClose(last.bid, q.bid); }
    if Printed(last.ask) == Printed(q.ask) { PrintedAlikeAreClose(last.ask, q.ask); }
  }
}
