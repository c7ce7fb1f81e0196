/** The quote feed with its threads (src/polymarket/ws_fixed_token_feed.cpp): `emit_quote` has one critical section
    before the callback and one after it, any number of parse workers run it, and `switch_token` and the open
    callback come at any moment. `TokenFeed` is the same feed with each of these in one piece. */
module FeedThreads {
  import opened Basics

  datatype Prices = Prices(bid: real, ask: real)

  /** A worker inside `emit_quote`. */
  datatype Worker =
    | Away
    | Chosen(token: string, prices: Prices)   // let through by the first section, callback not called
    | Shown(token: string, prices: Prices)    // callback called, second section still to come

  /** `lastToken` is the token whose prices are remembered. */
  datatype State = State(
    token: string,
    haveLast: bool,
    last: Prices,
    workers: seq<Worker>,
    // history
    lastToken: string,
    delivered: seq<(string, Prices)>)

  datatype Step =
    | Choose(w: nat, asset: string, prices: Prices)
    | Call(w: nat)
    | Remember(w: nat)
    | Switch(token: string)
    | Open

  predicate Enabled(s: State, e: Step) {
    match e
    case Choose(w, _, _) => w < |s.workers| && s.workers[w] == Away
    case Call(w) => w < |s.workers| && s.workers[w].Chosen?
    case Remember(w) => w < |s.workers| && s.workers[w].Shown?
    case Switch(t) => t != ""
    case Open => true
  }

  function Apply(s: State, e: Step): State
    requires Enabled(s, e)
  {
    match e
    case Choose(w, asset, p) =>
      if asset != s.token || (s.haveLast && p == s.last) then s
      else s.(workers := s.workers[w := Chosen(s.token, p)])
    case Call(w) =>
      var q := s.workers[w];
      s.(workers := s.workers[w := Shown(q.token, q.prices)], delivered := s.delivered + [(q.token, q.prices)])
    case Remember(w) =>
      var q := s.workers[w];
      var s1 := s.(workers := s.workers[w := Away]);
      if q.token != s.token then s1 else s1.(haveLast := true, last := q.prices, lastToken := q.token)
    case Switch(t) => if t == s.token then s else s.(token := t, haveLast := false)
    case Open => s.(haveLast := false)
  }

  function Init(token: string, workers: nat): State {
    State(token, false, Prices(0.0, 0.0), seq(workers, _ => Away), "", [])
  }

  /** The first `n` steps of a run; a step that is not enabled does nothing. */
  function At(s: State, run: seq<Step>, n: nat): State
    requires n <= |run|
  {
    if n == 0 then s
    else
      var t := At(s, run, n - 1);
      if Enabled(t, run[n - 1]) then Apply(t, run[n - 1]) else t
  }

  // ---------------------------------------------------------------- what is remembered

  ghost predicate RemembersCurrent(s: State) { s.haveLast ==> s.lastToken == s.token }

  lemma RemembersCurrentKept(s: State, e: Step)
    requires RemembersCurrent(s) && Enabled(s, e)
    ensures RemembersCurrent(Apply(s, e))
  {
  }

  /** However workers, switches and connections interleave: the prices that repeats are compared with are never those
      of a token the feed has left. */
  lemma {:induction false} RememberedPricesAreCurrent(token: string, workers: nat, run: seq<Step>, n: nat)
    requires n <= |run|
    ensures RemembersCurrent(At(Init(token, workers), run, n))
  {
    hide Enabled, Apply;
    if n > 0 {
      RememberedPricesAreCurrent(token, workers, run, n - 1);
      var t := At(Init(token, workers), run, n - 1);
      if Enabled(t, run[n - 1]) { RemembersCurrentKept(t, run[n - 1]); }
    }
  }

  // ---------------------------------------------------------------- what is delivered

  /** Step `k` let the quote of worker `w` through, for the token that was current then, and the callback had not been
      called for it before step `n`. */
  ghost predicate ChosenAt(s: State, run: seq<Step>, k: nat, n: nat, w: nat)
    requires k < n <= |run|
  {
    && w < |At(s, run, n).workers| && At(s, run, n).workers[w].Chosen?
    && var q := At(s, run, n).workers[w];
       && run[k] == Choose(w, q.token, q.prices) && At(s, run, k).token == q.token
       && forall j :: k < j <= n ==> w < |At(s, run, j).workers| && At(s, run, j).workers[w] == q
  }

  lemma WorkerStep(s: State, e: Step, w: nat)
    requires Enabled(s, e) && w < |Apply(s, e).workers| && Apply(s, e).workers[w].Chosen?
    ensures w < |s.workers|
    ensures var q := Apply(s, e).workers[w];
      s.workers[w] == q || (e == Choose(w, q.token, q.prices) && s.token == q.token)
  {
  }

  /** Every quote on its way to the callback was let through by one step of the run, and nothing happened to it
      since. */
  lemma {:induction false} ChosenByAStep(token: string, workers: nat, run: seq<Step>, n: nat, w: nat) returns (k: nat)
    requires n <= |run| && w < |At(Init(token, workers), run, n).workers|
    requires At(Init(token, workers), run, n).workers[w].Chosen?
    ensures k < n && ChosenAt(Init(token, workers), run, k, n, w)
  {
    hide Enabled, Apply;
    var s := Init(token, workers);
    var t := At(s, run, n - 1);
    if Enabled(t, run[n - 1]) { WorkerStep(t, run[n - 1], w); }
    if t.workers[w] == At(s, run, n).workers[w] {
      k := ChosenByAStep(token, workers, run, n - 1, w);
    } else {
      k := n - 1;
    }
  }

  /** The token set last by a switch from step `k` on, before step `n`. */
  function LastSwitch(run: seq<Step>, k: nat, n: nat): Option<string>
    requires k <= n <= |run|
    decreases n
  {
    if n == k then None
    else if run[n - 1].Switch? && run[n - 1].token != "" then Some(run[n - 1].token)
    else LastSwitch(run, k, n - 1)
  }

  lemma TokenStep(s: State, e: Step)
    requires Enabled(s, e)
    ensures Apply(s, e).token == if e.Switch? then e.token else s.token
  {
  }

  lemma {:induction false} TokenIsLastSwitched(s: State, run: seq<Step>, k: nat, n: nat)
    requires k <= n <= |run|
    ensures At(s, run, n).token == match LastSwitch(run, k, n) case Some(t) => t case None => At(s, run, k).token
    decreases n
  {
    hide Apply;
    if k < n {
      TokenIsLastSwitched(s, run, k, n - 1);
      var t := At(s, run, n - 1);
      if Enabled(t, run[n - 1]) { TokenStep(t, run[n - 1]); }
    }
  }

  /** Exactly when the callback is called with a quote of a token the feed has left, for every run: `k` is the step
      that let the quote through, and the last switch since then was to another token. */
  lemma StaleCallbackIff(token: string, workers: nat, run: seq<Step>, n: nat, w: nat) returns (k: nat)
    requires n < |run| && run[n] == Call(w) && Enabled(At(Init(token, workers), run, n), run[n])
    ensures k < n && ChosenAt(Init(token, workers), run, k, n, w)
    ensures var s := At(Init(token, workers), run, n);
      var q := s.workers[w];
      && At(Init(token, workers), run, n + 1).delivered == s.delivered + [(q.token, q.prices)]
      && (q.token != s.token <==> LastSwitch(run, k, n).Some? && LastSwitch(run, k, n) != Some(q.token))
  {
    hide LastSwitch, ChosenAt;
    k := ChosenByAStep(token, workers, run, n, w);
    ChosenToken(Init(token, workers), run, k, n, w);
    TokenIsLastSwitched(Init(token, workers), run, k, n);
  }

  lemma ChosenToken(s: State, run: seq<Step>, k: nat, n: nat, w: nat)
    requires k < n <= |run| && ChosenAt(s, run, k, n, w)
    ensures w < |At(s, run, n).workers| && At(s, run, n).workers[w].Chosen?
    ensures At(s, run, k).token == At(s, run, n).workers[w].token
  {
  }

  /** And that can happen: the switch to the new token has returned, and the callback gets a quote of the old one. */
  lemma StaleCallbackHappens(old_: string, new_: string, p: Prices)
    requires new_ != "" && new_ != old_
    ensures var s := At(Init(old_, 1), [Choose(0, old_, p), Switch(new_), Call(0)], 3);
      s.token == new_ && s.delivered == [(old_, p)]
  {
    var s, run := Init(old_, 1), [Choose(0, old_, p), Switch(new_), Call(0)];
    assert At(s, run, 0) == s;
    assert At(s, run, 1) == s.(workers := [Chosen(old_, p)]);
    assert At(s, run, 2) == s.(workers := [Chosen(old_, p)], token := new_);
  }

  // ---------------------------------------------------------------- the critical sections

  /** The shared fields of the feed and the sections of `emit_quote` and `switch_token` under its mutex. */
  class Feed {
    var tokenId: string
    var haveLast: bool
    var last: Prices
    ghost var state: State

    ghost predicate Valid()
      reads this
    {
      tokenId == state.token && haveLast == state.haveLast && last == state.last
    }

    constructor (token: string, ghost workers: nat)
      ensures Valid() && state == Init(token, workers)
    {
      tokenId, haveLast, last := token, false, Prices(0.0, 0.0);
      state := Init(token, workers);
    }

    /** Before the callback: the quote to show, if any. */
    method FirstSection(ghost w: nat, asset: string, bid: Option<real>, ask: Option<real>)
      returns (quote: Option<(string, Prices)>)
      requires Valid() && w < |state.workers| && state.workers[w] == Away
      modifies this
      ensures Valid()
      ensures if bid.None? || ask.None? then quote == None && state == old(state)
              else && state == Apply(old(state), Choose(w, asset, Prices(bid.value, ask.value)))
                   && (match quote case None => state == old(state)
                                   case Some((t, p)) => state.workers[w] == Chosen(t, p))
    {
      quote := None;
      if asset != tokenId { return; }
      if bid.None? || ask.None? { return; }
      if haveLast && bid.value == last.bid && ask.value == last.ask { return; }
      quote := Some((tokenId, Prices(bid.value, ask.value)));
      state := Apply(state, Choose(w, asset, Prices(bid.value, ask.value)));
    }

    /** After the callback. */
    method SecondSection(ghost w: nat, asset: string, p: Prices)
      requires Valid() && w < |state.workers| && state.workers[w] == Shown(asset, p)
      modifies this
      ensures Valid() && state == Apply(old(state), Remember(w))
    {
      state := Apply(state, Remember(w));
      if asset != tokenId { return; }
      last := p;
      haveLast := true;
    }

    /** The section of `switch_token` that stores the token, after the test for the current one. */
    method StoreToken(token: string)
      requires Valid() && token != ""
      modifies this
      ensures Valid() && state == Apply(old(state), Switch(token))
    {
      state := Apply(state, Switch(token));
      if token == tokenId { return; }
      tokenId := token;
      haveLast := false;
    }
  }
}
