/** What a pass of the three loops of `Rollover` comes down to, stated through the answers of its look-ups alone, and
    where the tokens of a run come from. */
module RolloverLookUps {
  import opened Basics
  import opened BucketDiscovery
  import opened Rollover

  /** The tokens at hand when a pass needs the next market: those prefetched before, else those its own prefetch gives
      complete. The trader has none, and no tokens are kept once their market is over. */
  function AtHand(app: App, s: Session, p: Poll): Option<Tokens> {
    if app.Runner? || p.wall >= s.next + 300 then None
    else if s.ready.Some? then Some(s.ready.value.tokens)
    else match p.prefetch(SlugForBucket(s.next))
         case Some(t) => if p.prefetchDue && t.up != "" && t.down != "" then Some(t) else None
         case None => None
  }

  datatype Offer = Offer(bucket: int, tokens: Tokens)

  /** The market a pass is offered: the one at hand, else the exact next one, else the one of the bucket the clock is
      in, which must not be before the next except for the logger. */
  function Offered(app: App, s: Session, p: Poll): Option<Offer> {
    if AtHand(app, s, p).Some? then Some(Offer(s.next, AtHand(app, s, p).value))
    else match p.exact(SlugForBucket(s.next))
         case Some(t) => Some(Offer(s.next, t))
         case None =>
           match p.scan(SlugForBucket(FloorBucket(p.scanNow)))
           case Some(t) =>
             if app.Logger? || FloorBucket(p.scanNow) >= s.next then Some(Offer(FloorBucket(p.scanNow), t)) else None
           case None => None
  }

  /** The session of a program that stays in its market. */
  function Staying(app: App, s: Session, p: Poll): Session {
    if app.Runner? then s
    else match AtHand(app, s, p)
         case Some(t) => s.(ready := Some(Prefetch(SlugForBucket(s.next), t)))
         case None => s.(ready := None)
  }

  /** The session after a pass. The market changes exactly if the next one has begun (for the trader: a second ago)
      and both tokens of the offered market are known; the Up feed then gets its Up token and the Down feed its Down
      token. An offer without a Down token moves the trader's Up feed alone. */
  function ByLookUps(app: App, s: Session, p: Poll): Session {
    match Offered(app, s, p)
    case None => Staying(app, s, p)
    case Some(o) =>
      if p.wall < (if app.Runner? then s.next + 1 else s.next) then Staying(app, s, p)
      else if o.tokens.up != "" && o.tokens.down != "" then
        Session(SlugForBucket(o.bucket), o.bucket, o.bucket + 300, None, o.tokens.up, o.tokens.down)
      else if app.Runner? && o.tokens.up != "" then s.(up := o.tokens.up)
      else Staying(app, s, p)
  }

  /** The prefetch of a pass and the dropping of stale tokens, by the look-up. */
  lemma PreparedByLookUps(app: App, s: Session, p: Poll)
    requires Shape(s) && Timed(p) && !app.Runner?
    ensures Prepared(s, p) == Staying(app, s, p)
    ensures p.wall < s.next ==> WithPrefetch(s, p) == Staying(app, s, p)
  {
    hide SlugForBucket, TrySlug, Scan, Exact, FloorBucket;
    LookUps(s, p);
  }

  lemma RunnerByLookUps(s: Session, p: Poll)
    requires Shape(s) && Timed(p)
    ensures RunnerStep(s, p) == ByLookUps(Runner, s, p)
  {
    hide SlugForBucket, TrySlug, Scan, Exact, FloorBucket;
    LookUps(s.(ready := None), p);
  }

  lemma PipelineByLookUps(s: Session, p: Poll)
    requires Shape(s) && Timed(p)
    ensures PipelineStep(s, p) == ByLookUps(Pipeline, s, p)
  {
    hide SlugForBucket, TrySlug, Scan, Exact, FloorBucket, WithPrefetch, WithoutStale;
    PreparedShape(s, p);
    PreparedByLookUps(Pipeline, s, p);
    LookUps(Prepared(s, p), p);
    SlugNotEmpty(s.next);
    SlugNotEmpty(FloorBucket(p.scanNow));
  }

  lemma LoggerByLookUps(s: Session, p: Poll)
    requires Shape(s) && Timed(p)
    ensures LoggerStep(s, p) == ByLookUps(Logger, s, p)
  {
    hide SlugForBucket, TrySlug, Scan, Exact, FloorBucket, WithPrefetch, WithoutStale;
    PreparedShape(s, p);
    PreparedByLookUps(Logger, s, p);
    LookUps(Prepared(s, p), p);
    SlugNotEmpty(s.next);
    SlugNotEmpty(FloorBucket(p.scanNow));
  }

  /** The prefetch, the dropping of stale tokens, the target and the switch of a pass come to what its look-ups say. */
  lemma PassByLookUps(app: App, s: Session, p: Poll)
    requires Shape(s) && Timed(p)
    ensures Step(app, s, p) == ByLookUps(app, s, p)
  {
    hide Shape, ByLookUps, RunnerStep, PipelineStep, LoggerStep;
    match app
    case Runner => RunnerByLookUps(s, p);
    case Pipeline => PipelineByLookUps(s, p);
    case Logger => LoggerByLookUps(s, p);
  }

  /** A complete answer of the prefetch is where the pipeline and the logger go at the change of markets, in the same
      pass or in a later one, whatever the other look-ups answer. */
  lemma PrefetchLeadsTo(app: App, s: Session, p: Poll, later: Poll)
    requires Shape(s) && Timed(p) && Timed(later) && !app.Runner?
    requires s.ready.None? && p.prefetchDue && Answers(p.prefetch, s.next)
    ensures var t := p.prefetch(SlugForBucket(s.next)).value;
      var entered := Session(SlugForBucket(s.next), s.next, s.next + 300, None, t.up, t.down);
      && (s.next <= p.wall < s.next + 300 ==> Step(app, s, p) == entered)
      && (p.wall < s.next <= later.wall < s.next + 300 ==> Step(app, Step(app, s, p), later) == entered)
  {
    hide SlugForBucket, Step, FloorBucket;
    PassByLookUps(app, s, p);
    StepKeepsShape(app, s, p);
    PassByLookUps(app, Step(app, s, p), later);
  }

  /** A pass that prefetches nothing usable leaves nothing ready: without an answer for the next bucket no program has
      its tokens. */
  lemma NothingReadyWithoutAnswer(app: App, s: Session, p: Poll)
    requires Shape(s) && Timed(p) && s.ready.None?
    ensures Step(app, s, p).ready.Some? <==>
      !app.Runner? && p.prefetchDue && Answers(p.prefetch, s.next) && p.wall < s.next
  {
    hide SlugForBucket, Step, FloorBucket;
    PassByLookUps(app, s, p);
  }

  // ---------------------------------------------------------------- where tokens come from

  /** Some look-up of the pass gave the tokens `t` for the bucket. */
  ghost predicate Gave(p: Poll, bucket: int, t: Tokens) {
    Some(t) in {p.prefetch(SlugForBucket(bucket)), p.exact(SlugForBucket(bucket)), p.scan(SlugForBucket(bucket))}
  }

  /** The tokens `t` are those of the first session, for its bucket, or some look-up of the first `n` passes gave them
      for the bucket. */
  ghost predicate Known(first: Session, run: seq<Poll>, n: nat, bucket: int, t: Tokens)
    requires n <= |run|
  {
    (bucket == first.active && t == Tokens(first.up, first.down)) || exists i: nat :: i < n && Gave(run[i], bucket, t)
  }

  lemma KnownLater(first: Session, run: seq<Poll>, n: nat, bucket: int, t: Tokens)
    requires n < |run| && (Known(first, run, n, bucket, t) || Gave(run[n], bucket, t))
    ensures Known(first, run, n + 1, bucket, t)
  {
    hide Gave;
    if !Known(first, run, n, bucket, t) { assert Gave(run[n], bucket, t); }
  }

  /** The token `up` is known for a bucket from `next` on, and no Down token beside it. */
  ghost predicate KnownAhead(first: Session, run: seq<Poll>, n: nat, next: int, up: string)
    requires n <= |run|
  {
    exists bucket: int :: bucket >= next && Known(first, run, n, bucket, Tokens(up, ""))
  }

  lemma KnownAheadLater(first: Session, run: seq<Poll>, n: nat, next: int, up: string)
    requires n < |run| && KnownAhead(first, run, n, next, up)
    ensures KnownAhead(first, run, n + 1, next, up)
  {
    var bucket: int :| bucket >= next && Known(first, run, n, bucket, Tokens(up, ""));
    KnownLater(first, run, n, bucket, Tokens(up, ""));
  }

  /** The trader's Up feed has been moved ahead alone. */
  ghost predicate HalfSwitched(first: Session, run: seq<Poll>, n: nat, s: Session, upBefore: string)
    requires n <= |run|
  {
    && Known(first, run, n, s.active, Tokens(upBefore, s.down))
    && KnownAhead(first, run, n, s.next, s.up)
  }

  /** The feeds are on tokens known for the active bucket, Up on Up and Down on Down; only the trader's Up feed can be
      on that of a later bucket, for which no Down token was known. */
  ghost predicate FeedsKnown(app: App, first: Session, run: seq<Poll>, n: nat, s: Session)
    requires n <= |run|
  {
    || Known(first, run, n, s.active, Tokens(s.up, s.down))
    || (app.Runner? && exists upBefore :: HalfSwitched(first, run, n, s, upBefore))
  }

  /** So are the feeds, and a ready prefetch is known for the next bucket. */
  ghost predicate TokensKnown(app: App, first: Session, run: seq<Poll>, n: nat, s: Session)
    requires n <= |run|
  {
    && FeedsKnown(app, first, run, n, s)
    && (s.ready.Some? ==> Known(first, run, n, s.next, s.ready.value.tokens))
  }

  lemma OfferGiven(app: App, s: Session, p: Poll)
    requires Shape(s) && Timed(p)
    ensures var o := Offered(app, s, p);
      o.Some? && AtHand(app, s, p).None? ==>
        Gave(p, o.value.bucket, o.value.tokens) && (app.Runner? ==> o.value.bucket >= s.next)
    ensures var o := Offered(app, s, p);
      o.Some? && AtHand(app, s, p).Some? ==> o.value.bucket == s.next && o.value.tokens == AtHand(app, s, p).value
    ensures var t := AtHand(app, s, p);
      t.Some? ==> Gave(p, s.next, t.value) || (s.ready.Some? && t.value == s.ready.value.tokens)
  {
    hide SlugForBucket, FloorBucket;
  }

  /** What was known of the feeds stays known when the Up feed stays, or moves ahead alone. */
  lemma FeedsStayKnown(app: App, first: Session, run: seq<Poll>, n: nat, s: Session, s': Session)
    requires n < |run| && TokensKnown(app, first, run, n, s)
    requires s'.active == s.active && s'.next == s.next && s'.down == s.down
    requires s'.up == s.up || (app.Runner? && KnownAhead(first, run, n + 1, s.next, s'.up))
    ensures FeedsKnown(app, first, run, n + 1, s')
  {
    hide Known;
    if Known(first, run, n, s.active, Tokens(s.up, s.down)) {
      KnownLater(first, run, n, s.active, Tokens(s.up, s.down));
      if s'.up != s.up { assert HalfSwitched(first, run, n + 1, s', s.up); }
    } else {
      var upBefore :| HalfSwitched(first, run, n, s, upBefore);
      KnownLater(first, run, n, s.active, Tokens(upBefore, s.down));
      if s'.up == s.up {
        KnownAheadLater(first, run, n, s.next, s.up);
      }
      assert HalfSwitched(first, run, n + 1, s', upBefore);
    }
  }

  lemma TokensKnownNext(app: App, first: Session, run: seq<Poll>, n: nat, s: Session)
    requires n < |run| && Shape(s) && Timed(run[n]) && TokensKnown(app, first, run, n, s)
    ensures TokensKnown(app, first, run, n + 1, Step(app, s, run[n]))
  {
    hide SlugForBucket, Step, FloorBucket, Known, Gave, Offered, AtHand, HalfSwitched;
    var p, s' := run[n], Step(app, s, run[n]);
    PassByLookUps(app, s, p);
    OfferGiven(app, s, p);
    var hand, offer := AtHand(app, s, p), Offered(app, s, p);
    if s.ready.Some? { KnownLater(first, run, n, s.next, s.ready.value.tokens); }
    if hand.Some? { KnownLater(first, run, n, s.next, hand.value); }
    if offer.Some? { KnownLater(first, run, n, offer.value.bucket, offer.value.tokens); }
    if offer.Some? && s' == s.(up := offer.value.tokens.up) && app.Runner? && offer.value.tokens.down == "" {
      assert offer.value.tokens == Tokens(s'.up, "");
      FeedsStayKnown(app, first, run, n, s, s');
    } else if s' == Staying(app, s, p) {
      FeedsStayKnown(app, first, run, n, s, s');
    }
  }

  /** Over every run the tokens of the feeds, and those kept for the next market, are an answer that some look-up gave
      for that very bucket. */
  lemma {:induction false} TokensAlwaysKnown(app: App, first: Session, run: seq<Poll>, n: nat)
    requires Shape(first) && first.ready.None? && AllTimed(run) && n <= |run|
    ensures TokensKnown(app, first, run, n, At(app, first, run, n))
  {
    hide Shape, Step;
    if n > 0 {
      TokensAlwaysKnown(app, first, run, n - 1);
      ShapeAlways(app, first, run, n - 1);
      TokensKnownNext(app, first, run, n - 1, At(app, first, run, n - 1));
    }
  }

  /** The feeds of the first session are on the tokens that the look-up of its bucket gave. */
  lemma FirstTokens(app: App, wall: int, exact: Fetch, scanNow: int, scan: Fetch)
    ensures match FirstMarket(app, wall, exact, scanNow, scan)
            case None =>
              !Answers(scan, FloorBucket(scanNow))
              || (!app.Logger? && exact(SlugForBucket(FloorBucket(wall))).Some?
                  && !Answers(exact, FloorBucket(wall)))
            case Some(m) =>
              var s := FirstSessionOf(m);
              || (!app.Logger? && s.active == FloorBucket(wall)
                  && exact(SlugForBucket(s.active)) == Some(Tokens(s.up, s.down)))
              || ((app.Logger? || exact(SlugForBucket(FloorBucket(wall))).None?) && s.active == FloorBucket(scanNow)
                  && scan(SlugForBucket(s.active)) == Some(Tokens(s.up, s.down)))
  {
    hide SlugForBucket, FloorBucket;
  }
}
