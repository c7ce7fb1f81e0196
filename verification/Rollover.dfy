/** Moving from one five-minute market to the next: the monitor loop of the trader (apps/btc_poly_runner.cpp)
    and the prefetching loops of the pipeline (apps/live_pipeline.cpp) and the logger
    (apps/polymarket_logger.cpp). A poll is one pass of the loop; `wall` is the clock at its start and
    `scanNow` the clock read inside the bucket scan. Each HTTP look-up of a pass has its own answers. */
module Rollover {
  import opened Basics
  import opened BucketDiscovery

  datatype Prefetch = Prefetch(slug: string, tokens: Tokens)

  /** `up` and `down` are the tokens of the two feeds. */
  datatype Session =
    Session(slug: string, active: int, next: int, ready: Option<Prefetch>, up: string, down: string)

  datatype Poll =
    Poll(wall: int, prefetchDue: bool, prefetch: Fetch, exact: Fetch, scanNow: int, scan: Fetch)

  predicate Usable(t: Tokens) { t.up != "" && t.down != "" }

  predicate InRange(t: int) { 0 <= t <= INT64_MAX - 2 * BUCKET }

  /** The clock readings of a pass are after 1970. */
  predicate Timed(p: Poll) { InRange(p.wall) && InRange(p.scanNow) }

  /** No clock reading of the pass is before `now` or before an earlier reading of the pass. */
  predicate Ordered(p: Poll, now: int) { now <= p.wall <= p.scanNow }

  /** What holds of a session between passes. */
  predicate Shape(s: Session) {
    && 0 <= s.active <= INT64_MAX - 2 * BUCKET && s.active % BUCKET == 0
    && s.next == s.active + BUCKET
    && s.slug == SlugForBucket(s.active)
    && (s.ready.Some? ==> s.ready.value.slug == SlugForBucket(s.next) && Usable(s.ready.value.tokens))
  }

  // ---------------------------------------------------------------- one pass

  function Enter(s: Session, m: Market): Session {
    Session(m.slug, m.epoch, m.epoch + BUCKET, None, m.tokens.up, m.tokens.down)
  }

  /** The market scan as a look-up; `DiscoverActive` computes it. */
  function Scan(now: int, fetch: Fetch): Option<Market> {
    TrySlug(SlugForBucket(FloorBucket(now)), fetch)
  }

  /** The epoch the callers read from a discovered market. */
  function EpochOf(m: Market): int {
    if m.epoch >= 0 then m.epoch else match ParseEpoch(m.slug) case Some(n) => n case None => -1
  }

  function Exact(s: Session, fetch: Fetch): Option<Market> {
    match TrySlug(SlugForBucket(s.next), fetch)
    case None => None
    case Some(m) => Some(m.(epoch := EpochOf(m)))
  }

  function WithPrefetch(s: Session, p: Poll): Session {
    if s.ready.None? && p.prefetchDue then
      match TrySlug(SlugForBucket(s.next), p.prefetch)
      case Some(m) => if Usable(m.tokens) then s.(ready := Some(Prefetch(m.slug, m.tokens))) else s
      case None => s
    else s
  }

  function WithoutStale(s: Session, wall: int): Session {
    if s.ready.Some? && wall >= s.next + BUCKET then s.(ready := None) else s
  }

  /** The market a pass of the pipeline settles on: the prefetched one, else the exact next one, else the
      one the scan finds, and never one before the next. */
  function PipelineTarget(s: Session, p: Poll): Option<Market> {
    match s.ready
    case Some(f) => Some(Market(if f.slug == "" then SlugForBucket(s.next) else f.slug, s.next, f.tokens))
    case None =>
      var exact := Exact(s, p.exact);
      if exact.Some? && exact.value.epoch >= s.next then exact
      else
        var found := Scan(p.scanNow, p.scan);
        if found.Some? && found.value.epoch >= s.next then found else None
  }

  /** The same for the logger, which does not compare epochs. */
  function LoggerTarget(s: Session, p: Poll): Option<Market> {
    match s.ready
    case Some(f) => Some(Market(if f.slug == "" then SlugForBucket(s.next) else f.slug, s.next, f.tokens))
    case None =>
      var exact := TrySlug(SlugForBucket(s.next), p.exact);
      if exact.Some? then Some(exact.value.(epoch := if exact.value.epoch >= 0 then exact.value.epoch else s.next))
      else
        match Scan(p.scanNow, p.scan)
        case None => None
        case Some(m) => Some(m.(epoch := EpochOf(m)))
  }

  function EnterIfComplete(s: Session, m: Option<Market>): Session {
    if m.Some? && Usable(m.value.tokens) && m.value.epoch >= 0 && m.value.slug != "" then Enter(s, m.value) else s
  }

  function PipelineStep(s: Session, p: Poll): Session {
    var q := WithPrefetch(s, p);
    if p.wall >= q.active + BUCKET then
      var r := WithoutStale(q, p.wall);
      EnterIfComplete(r, PipelineTarget(r, p))
    else q
  }

  function LoggerStep(s: Session, p: Poll): Session {
    var q := WithPrefetch(s, p);
    if p.wall >= q.active + BUCKET then
      var r := WithoutStale(q, p.wall);
      EnterIfComplete(r, LoggerTarget(r, p))
    else q
  }

  /** The trader has no prefetch and starts a second later; `switch_token` fails on an empty token only, so
      the first feed can have moved when the second has not. */
  function RunnerStep(s: Session, p: Poll): Session {
    if s.active >= 0 && p.wall >= s.next + 1 then
      var target := PipelineTarget(s.(ready := None), p);
      if target.None? || target.value.tokens.up == "" then s
      else if target.value.tokens.down == "" then s.(up := target.value.tokens.up)
      else Enter(s, target.value)
    else s
  }

  datatype App = Runner | Pipeline | Logger

  function Step(app: App, s: Session, p: Poll): Session {
    match app
    case Runner => RunnerStep(s, p)
    case Pipeline => PipelineStep(s, p)
    case Logger => LoggerStep(s, p)
  }

  // ---------------------------------------------------------------- what one pass does

  lemma SlugNotEmpty(n: int)
    ensures SlugForBucket(n) != ""
  {
    assert |PREFIX| > 0;
  }

  /** The exact look-up and the scan, by the buckets they stand for. */
  lemma LookUps(s: Session, p: Poll)
    requires Shape(s) && Timed(p)
    ensures Exact(s, p.exact) == match p.exact(SlugForBucket(s.next))
                                 case None => None
                                 case Some(t) => Some(Market(SlugForBucket(s.next), s.next, t))
    ensures TrySlug(SlugForBucket(s.next), p.exact) == Exact(s, p.exact)
    ensures TrySlug(SlugForBucket(s.next), p.prefetch) == match p.prefetch(SlugForBucket(s.next))
                                 case None => None
                                 case Some(t) => Some(Market(SlugForBucket(s.next), s.next, t))
    ensures Scan(p.scanNow, p.scan) == match p.scan(SlugForBucket(FloorBucket(p.scanNow)))
                                 case None => None
                                 case Some(t) =>
                                   Some(Market(SlugForBucket(FloorBucket(p.scanNow)), FloorBucket(p.scanNow), t))
    ensures 0 <= FloorBucket(p.scanNow) <= p.scanNow && FloorBucket(p.scanNow) % BUCKET == 0
  {
    hide SlugForBucket, TrySlug, ParseEpoch;
    TryBucket(s.next, p.exact);
    TryBucket(s.next, p.prefetch);
    FloorBucketShape(p.scanNow);
    TryBucket(FloorBucket(p.scanNow), p.scan);
  }

  /** The look-up gives both tokens of the bucket. */
  ghost predicate Answers(fetch: Fetch, bucket: int) {
    fetch(SlugForBucket(bucket)).Some? && Usable(fetch(SlugForBucket(bucket)).value)
  }

  /** After the prefetch and the dropping of a stale one. */
  function Prepared(s: Session, p: Poll): Session { WithoutStale(WithPrefetch(s, p), p.wall) }

  lemma PreparedShape(s: Session, p: Poll)
    requires Shape(s) && Timed(p)
    ensures Shape(WithPrefetch(s, p)) && Shape(Prepared(s, p))
    ensures var q, r := WithPrefetch(s, p), Prepared(s, p);
      q == s.(ready := q.ready) && r == s.(ready := r.ready) && (r.ready.Some? ==> p.wall < s.next + BUCKET)
  {
    hide SlugForBucket, TrySlug, Scan, FloorBucket, Exact;
    LookUps(s, p);
  }

  /** Every pass keeps the shape; the trader and the pipeline never go back and never stay in a market they
      leave, whatever the clock does. */
  lemma StepKeepsShape(app: App, s: Session, p: Poll)
    requires Shape(s) && Timed(p)
    ensures var s' := Step(app, s, p);
      Shape(s') && (app != Logger ==> s'.active == s.active || s'.active >= s.active + BUCKET)
  {
    hide SlugForBucket, TrySlug, Scan, FloorBucket, Exact, WithPrefetch, WithoutStale;
    PreparedShape(s, p);
    LookUps(s.(ready := None), p);
    LookUps(Prepared(s, p), p);
    SlugNotEmpty(s.next);
  }

  /** While the clock does not run backwards the logger does not go back either, and no program is in a
      market that has not started. */
  lemma StepFollowsClock(app: App, s: Session, p: Poll, now: int)
    requires Shape(s) && Timed(p) && Ordered(p, now) && s.active <= now
    ensures var s' := Step(app, s, p);
      s'.active <= p.scanNow && (s'.active == s.active || s'.active >= s.active + BUCKET)
  {
    hide SlugForBucket, TrySlug, Scan, Exact, WithPrefetch, WithoutStale;
    PreparedShape(s, p);
    LookUps(s.(ready := None), p);
    LookUps(Prepared(s, p), p);
    SlugNotEmpty(s.next);
  }

  /** The unchecked scan of the logger makes no difference as long as the clock does not run backwards. */
  lemma LoggerMatchesPipeline(s: Session, p: Poll)
    requires Shape(s) && Timed(p) && p.wall <= p.scanNow
    ensures LoggerStep(s, p) == PipelineStep(s, p)
  {
    hide SlugForBucket, TrySlug, Scan, Exact, WithPrefetch, WithoutStale;
    PreparedShape(s, p);
    LookUps(Prepared(s, p), p);
  }

  /** When it does run backwards the two differ exactly if the scan answers for a bucket before the next:
      the logger then goes back to that bucket. */
  lemma LoggerDiffersIff(s: Session, p: Poll)
    requires Shape(s) && Timed(p)
    ensures var bucket := FloorBucket(p.scanNow);
      LoggerStep(s, p) != PipelineStep(s, p) <==>
      && p.wall >= s.next && Prepared(s, p).ready.None? && p.exact(SlugForBucket(s.next)).None?
      && bucket < s.next && Answers(p.scan, bucket)
      && (bucket != s.active || p.scan(SlugForBucket(bucket)) != Some(Tokens(s.up, s.down)))
    ensures LoggerStep(s, p) != PipelineStep(s, p) ==>
      PipelineStep(s, p) == Prepared(s, p) && LoggerStep(s, p).active == FloorBucket(p.scanNow)
  {
    hide SlugForBucket, TrySlug, Scan, Exact, WithPrefetch, WithoutStale, FloorBucket;
    PreparedShape(s, p);
    LookUps(Prepared(s, p), p);
    SlugNotEmpty(FloorBucket(p.scanNow));
  }

  /** A clock set back by one bucket takes the logger back from any market to the one before it. */
  lemma LoggerCanGoBack(s: Session, p: Poll)
    requires Shape(s) && Timed(p) && s.ready.None? && !p.prefetchDue && s.active > 0
    requires p.wall == s.next && p.scanNow == s.active - 1
    requires p.exact(SlugForBucket(s.next)).None? && Answers(p.scan, s.active - BUCKET)
    ensures LoggerStep(s, p).active == s.active - BUCKET
    ensures PipelineStep(s, p) == s
  {
    hide SlugForBucket, TrySlug, Scan, Exact;
    OnlyBucketAround(p.scanNow, s.active - BUCKET);
    LookUps(s, p);
    SlugNotEmpty(s.active - BUCKET);
  }

  /** A prefetch that is ready and not stale decides the pass: no other look-up has any influence. */
  lemma ReadyPrefetchDecides(s: Session, p: Poll)
    requires Shape(s) && Timed(p) && s.ready.Some? && s.next <= p.wall < s.next + BUCKET
    ensures PipelineStep(s, p) == LoggerStep(s, p) == Session(SlugForBucket(s.next), s.next, s.next + BUCKET,
      None, s.ready.value.tokens.up, s.ready.value.tokens.down)
  {
    hide SlugForBucket;
    SlugNotEmpty(s.next);
  }

  /** Exactly when the pipeline moves on: the next market has begun and the prefetch, the exact look-up or,
      only if the exact look-up has no answer at all, the scan gives both tokens. */
  lemma PipelineMovesIff(s: Session, p: Poll)
    requires Shape(s) && Timed(p)
    ensures PipelineStep(s, p).active != s.active <==>
      && p.wall >= s.next
      && (|| Prepared(s, p).ready.Some?
          || Answers(p.exact, s.next)
          || (&& p.exact(SlugForBucket(s.next)).None? && FloorBucket(p.scanNow) >= s.next
              && Answers(p.scan, FloorBucket(p.scanNow))))
  {
    hide SlugForBucket, TrySlug, Scan, Exact, WithPrefetch, WithoutStale, FloorBucket;
    PreparedShape(s, p);
    LookUps(Prepared(s, p), p);
    SlugNotEmpty(s.next);
    SlugNotEmpty(FloorBucket(p.scanNow));
  }

  lemma RunnerMovesIff(s: Session, p: Poll)
    requires Shape(s) && Timed(p)
    ensures RunnerStep(s, p).active != s.active <==>
      && p.wall > s.next
      && (|| Answers(p.exact, s.next)
          || (&& p.exact(SlugForBucket(s.next)).None? && FloorBucket(p.scanNow) >= s.next
              && Answers(p.scan, FloorBucket(p.scanNow))))
  {
    hide SlugForBucket, TrySlug, Scan, Exact, FloorBucket;
    LookUps(s.(ready := None), p);
  }

  /** Exactly when a pass takes the logger back to an earlier market: only the scan answers, and for a bucket before
      the active one. */
  lemma LoggerGoesBackIff(s: Session, p: Poll)
    requires Shape(s) && Timed(p)
    ensures LoggerStep(s, p).active < s.active <==>
      && p.wall >= s.next && Prepared(s, p).ready.None? && p.exact(SlugForBucket(s.next)).None?
      && FloorBucket(p.scanNow) < s.active && Answers(p.scan, FloorBucket(p.scanNow))
  {
    hide SlugForBucket, TrySlug, Scan, Exact, WithPrefetch, WithoutStale, FloorBucket;
    PreparedShape(s, p);
    LookUps(Prepared(s, p), p);
    SlugNotEmpty(s.next);
    SlugNotEmpty(FloorBucket(p.scanNow));
  }

  /** Dropping a stale prefetch does not keep the program out of a finished market. Whatever the clock does, a pass
      enters one exactly when the exact look-up of the next market still answers after that market's end, or when
      only the scan answers, for a bucket that is over and, except for the logger, not before the next. */
  lemma EntersFinishedMarketIff(app: App, s: Session, p: Poll)
    requires Shape(s) && Timed(p)
    ensures var s', bucket := Step(app, s, p), FloorBucket(p.scanNow);
      (s'.active != s.active && s'.active + BUCKET <= p.wall) <==>
      || (p.wall >= s.next + BUCKET && Answers(p.exact, s.next))
      || (&& p.wall >= s.next && Prepared(s, p).ready.None? && p.exact(SlugForBucket(s.next)).None?
          && Answers(p.scan, bucket) && bucket + BUCKET <= p.wall
          && if app == Logger then bucket != s.active else bucket >= s.next)
  {
    hide SlugForBucket, TrySlug, Scan, Exact, WithPrefetch, FloorBucket;
    PreparedShape(s, p);
    LookUps(s.(ready := None), p);
    LookUps(Prepared(s, p), p);
    SlugNotEmpty(s.next);
    SlugNotEmpty(FloorBucket(p.scanNow));
  }

  /** While the clock does not run backwards within the pass, only the exact look-up can do that. */
  lemma EntersFinishedByExactLookUp(app: App, s: Session, p: Poll)
    requires Shape(s) && Timed(p) && p.wall <= p.scanNow
    ensures var s' := Step(app, s, p);
      (s'.active != s.active && s'.active + BUCKET <= p.wall) <==>
      (p.wall >= s.next + BUCKET && Answers(p.exact, s.next))
  {
    hide SlugForBucket, Step, Prepared, Answers;
    EntersFinishedMarketIff(app, s, p);
    FloorBucketShape(p.scanNow);
  }

  /** The look-up gives an Up token of the bucket, other than `up`, and no Down token. */
  ghost predicate HalfAnswers(fetch: Fetch, bucket: int, up: string) {
    match fetch(SlugForBucket(bucket))
    case None => false
    case Some(t) => t.up != "" && t.up != up && t.down == ""
  }

  /** The trader can be left with its two feeds on different markets, the Up feed moved and the epoch not: exactly
      when a second of the next market has passed and the exact look-up, or the scan if the exact look-up has no
      answer at all, gives an Up token and no Down token. */
  lemma RunnerHalfSwitchIff(s: Session, p: Poll)
    requires Shape(s) && Timed(p)
    ensures var s' := RunnerStep(s, p);
      (s'.active == s.active && s'.up != s.up) <==>
      && p.wall > s.next
      && (|| HalfAnswers(p.exact, s.next, s.up)
          || (&& p.exact(SlugForBucket(s.next)).None? && FloorBucket(p.scanNow) >= s.next
              && HalfAnswers(p.scan, FloorBucket(p.scanNow), s.up)))
  {
    hide SlugForBucket, TrySlug, Scan, Exact, FloorBucket;
    LookUps(s.(ready := None), p);
  }

  // ---------------------------------------------------------------- two passes that go wrong

  function NoAnswer(): Fetch { (slug: string) => None }

  function Always(t: Tokens): Fetch { (slug: string) => Some(t) }

  /** In the first market of 1970, with both feeds on its tokens. */
  function FirstSession(): (s: Session)
    ensures Shape(s)
  {
    Session(SlugForBucket(0), 0, 300, None, "up-0", "down-0")
  }

  /** A pass at time `wall` in which only the exact look-up answers. */
  function ExactPoll(wall: int, t: Tokens): Poll {
    Poll(wall, false, NoAnswer(), Always(t), wall, NoAnswer())
  }

  /** A pass that leaves the Up feed on the next market, the Down feed on the old one and the epoch unmoved. */
  lemma RunnerHalfSwitchHappens()
    ensures var s' := RunnerStep(FirstSession(), ExactPoll(301, Tokens("up-300", "")));
      s' == FirstSession().(up := "up-300")
  {
    hide SlugForBucket, TrySlug, Scan, Exact, FloorBucket;
    LookUps(FirstSession(), ExactPoll(301, Tokens("up-300", "")));
  }

  /** A pass of any of the three programs that enters the market from 300 to 600 at time 600. */
  lemma EntersFinishedMarketHappens(app: App)
    ensures Step(app, FirstSession(), ExactPoll(600, Tokens("up-300", "down-300"))) ==
      Session(SlugForBucket(300), 300, 600, None, "up-300", "down-300")
  {
    hide SlugForBucket, TrySlug, Scan, Exact, FloorBucket;
    LookUps(FirstSession(), ExactPoll(600, Tokens("up-300", "down-300")));
    SlugNotEmpty(300);
  }

  // ---------------------------------------------------------------- whole runs

  /** The session after the first `n` passes. */
  function At(app: App, s: Session, run: seq<Poll>, n: nat): Session
    requires n <= |run|
  {
    if n == 0 then s else Step(app, At(app, s, run, n - 1), run[n - 1])
  }

  /** The last clock reading of the first `n` passes. */
  function ClockAt(start: int, run: seq<Poll>, n: nat): int
    requires n <= |run|
  {
    if n == 0 then start else run[n - 1].scanNow
  }

  ghost predicate AllTimed(run: seq<Poll>) { forall i :: 0 <= i < |run| ==> Timed(run[i]) }

  ghost predicate ClockNeverBack(start: int, run: seq<Poll>) {
    forall i :: 0 <= i < |run| ==> Ordered(run[i], ClockAt(start, run, i))
  }

  /** In every run: epochs are multiples of five minutes, the next epoch is five minutes after the active
      one, the slug belongs to the active epoch and a ready prefetch to the next one. */
  lemma {:induction false} ShapeAlways(app: App, s: Session, run: seq<Poll>, n: nat)
    requires Shape(s) && AllTimed(run) && n <= |run|
    ensures Shape(At(app, s, run, n))
  {
    hide Shape, Step;
    if n > 0 {
      ShapeAlways(app, s, run, n - 1);
      StepKeepsShape(app, At(app, s, run, n - 1), run[n - 1]);
    }
  }

  /** In every run of the trader and of the pipeline, whatever the clock does, markets are visited in order
      and none twice: between two points of the run the slug is the same or at least one bucket later. */
  lemma {:induction false} MarketsInOrder(app: App, s: Session, run: seq<Poll>, i: nat, j: nat)
    requires Shape(s) && AllTimed(run) && i <= j <= |run| && app != Logger
    ensures At(app, s, run, j).active == At(app, s, run, i).active
         || At(app, s, run, j).active >= At(app, s, run, i).active + BUCKET
    decreases j
  {
    hide Shape, Step;
    if i < j {
      MarketsInOrder(app, s, run, i, j - 1);
      ShapeAlways(app, s, run, j - 1);
      StepKeepsShape(app, At(app, s, run, j - 1), run[j - 1]);
    }
  }

  /** With a clock that never runs backwards the same holds of the logger, and no program is ever in a
      market that has not started. */
  lemma {:induction false} MarketsFollowClock(app: App, s: Session, start: int, run: seq<Poll>, i: nat, j: nat)
    requires Shape(s) && AllTimed(run) && ClockNeverBack(start, run) && s.active <= start && i <= j <= |run|
    ensures At(app, s, run, j).active <= ClockAt(start, run, j)
    ensures At(app, s, run, j).active == At(app, s, run, i).active
         || At(app, s, run, j).active >= At(app, s, run, i).active + BUCKET
    decreases j
  {
    hide Shape, Step, Timed, Ordered;
    if j > 0 {
      if i < j {
        MarketsFollowClock(app, s, start, run, i, j - 1);
      } else {
        MarketsFollowClock(app, s, start, run, j - 1, j - 1);
      }
      ShapeAlways(app, s, run, j - 1);
      StepFollowsClock(app, At(app, s, run, j - 1), run[j - 1], ClockAt(start, run, j - 1));
    }
  }

  /** With such a clock the logger and the pipeline, fed the same answers, are always in the same market. */
  lemma {:induction false} LoggerFollowsPipeline(s: Session, start: int, run: seq<Poll>, n: nat)
    requires Shape(s) && AllTimed(run) && ClockNeverBack(start, run) && n <= |run|
    ensures At(Logger, s, run, n) == At(Pipeline, s, run, n)
  {
    hide Shape, PipelineStep, LoggerStep;
    if n > 0 {
      LoggerFollowsPipeline(s, start, run, n - 1);
      ShapeAlways(Pipeline, s, run, n - 1);
      LoggerMatchesPipeline(At(Pipeline, s, run, n - 1), run[n - 1]);
    }
  }

  // ---------------------------------------------------------------- the programs

  /** The variables of the three loops. */
  class Monitor {
    var currentSlug: string
    var activeEpoch: int
    var nextEpoch: int
    var nextReady: bool
    var nextUpToken: string
    var nextDownToken: string
    var nextConfirmedSlug: string
    var feedUp: string
    var feedDown: string

    function State(): Session
      reads this
    {
      Session(currentSlug, activeEpoch, nextEpoch,
        if nextReady then Some(Prefetch(nextConfirmedSlug, Tokens(nextUpToken, nextDownToken))) else None,
        feedUp, feedDown)
    }

    /** The first market, after discovery. */
    constructor (m: Market)
      ensures State() == Session(m.slug, m.epoch, m.epoch + BUCKET, None, m.tokens.up, m.tokens.down)
    {
      currentSlug, activeEpoch, nextEpoch := m.slug, m.epoch, m.epoch + BUCKET;
      nextReady, nextUpToken, nextDownToken, nextConfirmedSlug := false, "", "", "";
      feedUp, feedDown := m.tokens.up, m.tokens.down;
    }

    /** `switch_token` of one feed while it runs. */
    method SwitchUp(token: string) returns (ok: bool)
      modifies this`feedUp
      ensures ok == (token != "") && feedUp == if ok then token else old(feedUp)
    {
      if token == "" { return false; }
      if token != feedUp { feedUp := token; }
      return true;
    }

    method SwitchDown(token: string) returns (ok: bool)
      modifies this`feedDown
      ensures ok == (token != "") && feedDown == if ok then token else old(feedDown)
    {
      if token == "" { return false; }
      if token != feedDown { feedDown := token; }
      return true;
    }

    method ForgetNext()
      modifies this
      ensures State() == old(State()).(ready := None)
    {
      nextReady, nextUpToken, nextDownToken, nextConfirmedSlug := false, "", "", "";
    }

    method PrefetchNext(p: Poll)
      modifies this
      ensures State() == WithPrefetch(old(State()), p)
    {
      hide SlugForBucket, TrySlug;
      if !nextReady && p.prefetchDue {
        var nd := TrySlug(SlugForBucket(nextEpoch), p.prefetch);
        if nd.Some? && nd.value.tokens.up != "" && nd.value.tokens.down != "" {
          nextUpToken, nextDownToken := nd.value.tokens.up, nd.value.tokens.down;
          nextConfirmedSlug := nd.value.slug;
          nextReady := true;
        }
      }
    }

    /** The end of a pass of the pipeline and of the logger. */
    method Complete(m: Option<Market>)
      modifies this
      ensures State() == EnterIfComplete(old(State()), m)
    {
      if m.Some? && m.value.tokens.up != "" && m.value.tokens.down != "" && m.value.epoch >= 0 && m.value.slug != "" {
        var okUp := SwitchUp(m.value.tokens.up);
        if okUp {
          var okDown := SwitchDown(m.value.tokens.down);
          if okDown {
            activeEpoch := m.value.epoch;
            nextEpoch := activeEpoch + BUCKET;
            currentSlug := m.value.slug;
            ForgetNext();
          }
        }
      }
    }

    /** Exact look-up of the next market, else the scan, neither before the next epoch. */
    method FindNext(p: Poll) returns (m: Option<Market>)
      requires Timed(p)
      ensures m == PipelineTarget(State().(ready := None), p)
    {
      hide SlugForBucket, TrySlug, ParseEpoch;
      var d2 := TrySlug(SlugForBucket(nextEpoch), p.exact);
      if d2.Some? {
        var ep := d2.value.epoch;
        if ep < 0 {
          var parsed := ParseEpochFromConfirmedSlug(d2.value.slug);
          ep := if parsed.Some? then parsed.value else -1;
        }
        if ep >= nextEpoch { return Some(d2.value.(epoch := ep)); }
      }
      m := DiscoverActive(p.scanNow, p.scan);
      if m.Some? && m.value.epoch < nextEpoch { m := None; }
    }

    /** One pass of the pipeline's loop. */
    method PollPipeline(p: Poll)
      requires Timed(p)
      modifies this
      ensures State() == PipelineStep(old(State()), p)
    {
      hide SlugForBucket, TrySlug, ParseEpoch, WithPrefetch, EnterIfComplete, Exact, Scan;
      PrefetchNext(p);
      if p.wall >= activeEpoch + BUCKET {
        if nextReady && p.wall >= nextEpoch + BUCKET { ForgetNext(); }
        var m: Option<Market>;
        if nextReady {
          var slug := if nextConfirmedSlug == "" then SlugForBucket(nextEpoch) else nextConfirmedSlug;
          m := Some(Market(slug, nextEpoch, Tokens(nextUpToken, nextDownToken)));
        } else {
          m := FindNext(p);
        }
        Complete(m);
      }
    }

    /** One pass of the logger's loop. */
    method PollLogger(p: Poll)
      requires Timed(p)
      modifies this
      ensures State() == LoggerStep(old(State()), p)
    {
      hide SlugForBucket, TrySlug, ParseEpoch, WithPrefetch, EnterIfComplete;
      PrefetchNext(p);
      if p.wall >= activeEpoch + BUCKET {
        if nextReady && p.wall >= nextEpoch + BUCKET { ForgetNext(); }
        var m: Option<Market>;
        if nextReady {
          var slug := if nextConfirmedSlug == "" then SlugForBucket(nextEpoch) else nextConfirmedSlug;
          m := Some(Market(slug, nextEpoch, Tokens(nextUpToken, nextDownToken)));
        } else {
          m := TrySlug(SlugForBucket(nextEpoch), p.exact);
          if m.Some? {
            if m.value.epoch < 0 { m := Some(m.value.(epoch := nextEpoch)); }
          } else {
            m := DiscoverActive(p.scanNow, p.scan);
            if m.Some? && m.value.epoch < 0 {
              var parsed := ParseEpochFromConfirmedSlug(m.value.slug);
              m := Some(m.value.(epoch := if parsed.Some? then parsed.value else -1));
            }
          }
        }
        Complete(m);
      }
    }

    /** One pass of the trader's monitor loop. */
    method PollRunner(p: Poll)
      requires Timed(p)
      modifies this
      ensures State() == RunnerStep(old(State()), p)
    {
      hide SlugForBucket, TrySlug, ParseEpoch, Exact, Scan;
      if activeEpoch >= 0 && p.wall >= nextEpoch + 1 {
        var d2 := FindNext(p);
        if d2.Some? {
          var okUp := SwitchUp(d2.value.tokens.up);
          if okUp {
            var okDown := SwitchDown(d2.value.tokens.down);
            if okDown {
              currentSlug := d2.value.slug;
              activeEpoch := d2.value.epoch;
              nextEpoch := activeEpoch + BUCKET;
              ForgetNext();
            }
          }
        }
      }
    }

    /** One pass of the program's own loop. */
    method PollOf(app: App, p: Poll)
      requires Timed(p)
      modifies this
      ensures State() == Step(app, old(State()), p)
    {
      hide RunnerStep, PipelineStep, LoggerStep;
      match app
      case Runner => PollRunner(p);
      case Pipeline => PollPipeline(p);
      case Logger => PollLogger(p);
    }
  }

  // ---------------------------------------------------------------- start-up

  /** The market of a bucket, if the look-up gives both of its tokens. */
  function CompleteMarket(bucket: int, t: Tokens): Option<Market> {
    if Usable(t) then Some(Market(SlugForBucket(bucket), bucket, t)) else None
  }

  /** The first market of a program: that of the bucket the clock is in, for the trader and the pipeline by its exact
      slug and else by the scan, for the logger by the scan alone. */
  function FirstMarket(app: App, wall: int, exact: Fetch, scanNow: int, scan: Fetch): Option<Market> {
    if app != Logger && exact(SlugForBucket(FloorBucket(wall))).Some? then
      CompleteMarket(FloorBucket(wall), exact(SlugForBucket(FloorBucket(wall))).value)
    else
      match scan(SlugForBucket(FloorBucket(scanNow)))
      case Some(t) => CompleteMarket(FloorBucket(scanNow), t)
      case None => None
  }

  /** Start-up of the three programs. */
  method DiscoverInitial(app: App, wall: int, exact: Fetch, scanNow: int, scan: Fetch) returns (m: Option<Market>)
    requires InRange(wall) && InRange(scanNow)
    ensures m == FirstMarket(app, wall, exact, scanNow, scan)
    ensures m.Some? ==> m.value.epoch in {FloorBucket(wall), FloorBucket(scanNow)} && Usable(m.value.tokens)
  {
    hide SlugForBucket, TrySlug, ParseEpoch;
    m := None;
    var discovered := false;
    if app != Logger {
      var utcFloor := TruncatedBucket(wall);
      m := TrySlug(SlugForBucket(utcFloor), exact);
      if m.Some? {
        var ep := m.value.epoch;
        if ep < 0 {
          var parsed := ParseEpochFromConfirmedSlug(m.value.slug);
          ep := if parsed.Some? then parsed.value else -1;
        }
        discovered := ep >= 0 && ep <= wall < ep + BUCKET;
      }
    }
    FloorBucketShape(wall);
    FloorBucketShape(scanNow);
    TryBucket(FloorBucket(wall), exact);
    TryBucket(FloorBucket(scanNow), scan);
    if !discovered {
      m := DiscoverActive(scanNow, scan);
    }
    if m.Some? && (m.value.tokens.up == "" || m.value.tokens.down == "") { m := None; }
  }

  /** The session a program starts with. */
  function FirstSessionOf(m: Market): Session {
    Session(m.slug, m.epoch, m.epoch + BUCKET, None, m.tokens.up, m.tokens.down)
  }

  lemma FirstSessionShape(app: App, wall: int, exact: Fetch, scanNow: int, scan: Fetch)
    requires InRange(wall) && InRange(scanNow) && FirstMarket(app, wall, exact, scanNow, scan).Some?
    ensures Shape(FirstSessionOf(FirstMarket(app, wall, exact, scanNow, scan).value))
    ensures wall <= scanNow ==> FirstMarket(app, wall, exact, scanNow, scan).value.epoch <= scanNow
  {
    hide SlugForBucket;
    FloorBucketShape(wall);
    FloorBucketShape(scanNow);
  }

  /** A whole program: discovery and any number of passes. It starts exactly if there is a first market, goes through
      the sessions of `At`, so that every theorem about runs applies to it, and is in shape at the end. */
  method RunProgram(app: App, wall: int, exact: Fetch, scanNow: int, scan: Fetch, run: seq<Poll>)
    returns (last: Option<Session>)
    requires InRange(wall) && InRange(scanNow) && AllTimed(run)
    ensures match FirstMarket(app, wall, exact, scanNow, scan)
            case None => last == None
            case Some(m) => last == Some(At(app, FirstSessionOf(m), run, |run|)) && Shape(last.value)
    ensures last.Some? && wall <= scanNow && ClockNeverBack(scanNow, run) ==>
      last.value.active <= ClockAt(scanNow, run, |run|)
  {
    hide SlugForBucket, FirstMarket, Shape, Step, FloorBucket;
    var m := DiscoverInitial(app, wall, exact, scanNow, scan);
    if m.None? { return None; }
    FirstSessionShape(app, wall, exact, scanNow, scan);
    ghost var start := FirstSessionOf(m.value);
    var monitor := new Monitor(m.value);
    for i := 0 to |run|
      invariant fresh(monitor) && monitor.State() == At(app, start, run, i)
    {
      monitor.PollOf(app, run[i]);
    }
    ShapeAlways(app, start, run, |run|);
    if wall <= scanNow && ClockNeverBack(scanNow, run) {
      MarketsFollowClock(app, start, scanNow, run, 0, |run|);
    }
    return Some(monitor.State());
  }
}
