/** Which tokens the server sends to a feed: `switch_token` on one thread, the socket's open callback on
    another (src/polymarket/ws_fixed_token_feed.cpp, ws_market_client.cpp), and the feed whose switches run
    inside that callback thread (poly_ws_quote_feed.cpp). Frames arrive in the order they are sent; a frame
    sent while the socket is down is lost; the server forgets everything when the connection ends. */
module Subscription {

  type Token = string

  /** How far `switch_token` has come. */
  datatype Phase =
    | Idle
    | Begun(new_: Token)          // old token read, unsubscribe not sent
    | Unsubscribed(new_: Token)   // unsubscribe sent or lost
    | TokenSet                    // token stored, snapshot still the old one
    | SnapshotSet                 // snapshot stored, subscribe not sent

  /** The socket and how far its open callback has come. */
  datatype Conn =
    | Closed
    | Opening                     // connected, snapshot not read
    | Copied(ids: Token)          // snapshot read, subscribe not sent
    | Open

  datatype State = State(token: Token, snapshot: Token, phase: Phase, conn: Conn, server: set<Token>)

  datatype Step =
    | BeginSwitch(token: Token)
    | SendUnsubscribe
    | StoreToken
    | StoreSnapshot
    | SendSubscribe
    | Connect
    | CopySnapshot
    | SendSnapshot
    | Disconnect
    | SwitchInCallback(token: Token)

  /** `switch_token` ignores the current token and rejects an empty one. The callback thread switches only
      between callbacks, on a message of an open connection. */
  predicate Enabled(s: State, e: Step) {
    match e
    case BeginSwitch(t) => s.phase == Idle && t != "" && t != s.token
    case SendUnsubscribe => s.phase.Begun?
    case StoreToken => s.phase.Unsubscribed?
    case StoreSnapshot => s.phase == TokenSet
    case SendSubscribe => s.phase == SnapshotSet
    case Connect => s.conn == Closed
    case CopySnapshot => s.conn == Opening
    case SendSnapshot => s.conn.Copied?
    case Disconnect => s.conn != Closed
    case SwitchInCallback(t) => s.phase == Idle && s.conn == Open && t != ""
  }

  function Apply(s: State, e: Step): State
    requires Enabled(s, e)
  {
    match e
    case BeginSwitch(t) => s.(phase := Begun(t))
    case SendUnsubscribe =>
      s.(phase := Unsubscribed(s.phase.new_), server := if s.conn == Closed then s.server else s.server - {s.token})
    case StoreToken => s.(phase := TokenSet, token := s.phase.new_)
    case StoreSnapshot => s.(phase := SnapshotSet, snapshot := s.token)
    case SendSubscribe =>
      s.(phase := Idle, server := if s.conn == Closed then s.server else s.server + {s.token})
    case Connect => s.(conn := Opening, server := {})
    case CopySnapshot => s.(conn := Copied(s.snapshot))
    case SendSnapshot => s.(conn := Open, server := s.server + {s.conn.ids})
    case Disconnect => s.(conn := Closed, server := {})
    case SwitchInCallback(t) =>
      s.(token := t, snapshot := t,
        server := (if t == s.token then s.server else s.server - {s.token}) + {t})
  }

  /** No switch in progress and nothing subscribed but the active token. */
  ghost predicate Settled(s: State) {
    && s.phase == Idle && s.snapshot == s.token && s.server <= {s.token}
    && (s.conn == Closed ==> s.server == {})
    && (s.conn == Open ==> s.server == {s.token})
    && (s.conn.Copied? ==> s.conn.ids == s.token)
  }

  /** After `start`: the snapshot is set and the socket is still to be connected. */
  function Started(token: Token): (s: State)
    ensures Settled(s)
  {
    State(token, token, Idle, Closed, {})
  }

  /** The first `n` steps of a run; a step that is not enabled does nothing. */
  function At(s: State, run: seq<Step>, n: nat): State
    requires n <= |run|
  {
    if n == 0 then s
    else
      var t := At(s, run, n - 1);
      if Enabled(t, run[n - 1]) then Apply(t, run[n - 1]) else t
  }

  // ---------------------------------------------------------------- agreement

  /** The token the feed will have been switched to: the new one as soon as the old is unsubscribed. */
  function Target(s: State): Token {
    if s.phase.Unsubscribed? then s.phase.new_ else s.token
  }

  ghost predicate Agreement(s: State) {
    && (s.phase != TokenSet ==> s.snapshot == s.token)
    && (s.conn == Closed ==> s.server == {})
    && (s.phase.Idle? || s.phase.Begun? ==>
          && (s.conn == Open ==> s.token in s.server)
          && (s.conn.Copied? ==> s.conn.ids == s.token || s.token in s.server))
  }

  lemma AgreementKept(s: State, e: Step)
    requires Agreement(s) && Enabled(s, e)
    ensures Agreement(Apply(s, e))
  {
  }

  /** However switches and reconnections interleave: once no switch is in progress and the socket is open,
      the server sends the active token. */
  lemma {:induction false} ActiveTokenSubscribed(s: State, run: seq<Step>, n: nat)
    requires Settled(s) && n <= |run|
    ensures Agreement(At(s, run, n))
    ensures At(s, run, n).phase == Idle && At(s, run, n).conn == Open ==> At(s, run, n).token in At(s, run, n).server
  {
    hide Enabled, Apply;
    if n > 0 {
      ActiveTokenSubscribed(s, run, n - 1);
      var t := At(s, run, n - 1);
      if Enabled(t, run[n - 1]) { AgreementKept(t, run[n - 1]); }
    }
  }

  ghost predicate NamesTokens(s: State) {
    && s.token != "" && s.snapshot != "" && "" !in s.server
    && (s.phase.Begun? || s.phase.Unsubscribed? ==> s.phase.new_ != "")
    && (s.conn.Copied? ==> s.conn.ids != "")
  }

  /** A feed started with a token never subscribes to an empty one. */
  lemma {:induction false} NeverEmpty(token: Token, run: seq<Step>, n: nat)
    requires token != "" && n <= |run|
    ensures NamesTokens(At(Started(token), run, n))
  {
    if n > 0 { NeverEmpty(token, run, n - 1); }
  }

  // ---------------------------------------------------------------- what else is subscribed

  /** Keeps the tokens that the open callback of the present connection subscribed after they had been
      unsubscribed, and that have not been unsubscribed again. */
  ghost function NextLate(s: State, e: Step, late: set<Token>): set<Token>
    requires Enabled(s, e)
  {
    match e
    case Connect => {}
    case Disconnect => {}
    case SendSnapshot => if s.conn.ids != Target(s) then late + {s.conn.ids} else late
    case SendUnsubscribe => late - {s.token}
    case SwitchInCallback(t) => if t == s.token then late else late - {s.token}
    case _ => late
  }

  ghost function Late(s: State, run: seq<Step>, n: nat): set<Token>
    requires n <= |run|
  {
    if n == 0 then {}
    else
      var t, late := At(s, run, n - 1), Late(s, run, n - 1);
      if Enabled(t, run[n - 1]) then NextLate(t, run[n - 1], late) else late
  }

  ghost predicate OnlyLate(s: State, late: set<Token>) {
    && (forall x :: x != Target(s) ==> (x in s.server <==> x in late))
    && (s.conn == Closed ==> late == {})
  }

  lemma LateStep(s: State, e: Step, late: set<Token>)
    requires Agreement(s) && Enabled(s, e) && OnlyLate(s, late)
    ensures OnlyLate(Apply(s, e), NextLate(s, e, late))
  {
  }

  /** A token besides the target is subscribed exactly if it is such a leftover: a snapshot that the open
      callback copied before the switch replaced it and sent after the switch had unsubscribed it. */
  lemma {:induction false} LeftoversAreLateSnapshots(s: State, run: seq<Step>, n: nat)
    requires Settled(s) && n <= |run|
    ensures OnlyLate(At(s, run, n), Late(s, run, n))
  {
    hide Enabled, Apply, NextLate, Agreement;
    if n == 0 {
      NothingLate(s, run);
    } else {
      LeftoversAreLateSnapshots(s, run, n - 1);
      ActiveTokenSubscribed(s, run, n - 1);
      var t := At(s, run, n - 1);
      if Enabled(t, run[n - 1]) { LateStep(t, run[n - 1], Late(s, run, n - 1)); }
    }
  }

  lemma NothingLate(s: State, run: seq<Step>)
    requires Settled(s)
    ensures OnlyLate(At(s, run, 0), Late(s, run, 0))
  {
  }

  /** The tokens a run can know: the first one and those switched to. */
  ghost predicate Known(first: Token, run: seq<Step>, n: nat, x: Token)
    requires n <= |run|
  {
    x == first || exists i :: 0 <= i < n && (run[i] == BeginSwitch(x) || run[i] == SwitchInCallback(x))
  }

  ghost predicate AllKnown(s: State, first: Token, run: seq<Step>, n: nat)
    requires n <= |run|
  {
    && Known(first, run, n, s.token) && Known(first, run, n, s.snapshot)
    && (s.phase.Begun? || s.phase.Unsubscribed? ==> Known(first, run, n, s.phase.new_))
    && (s.conn.Copied? ==> Known(first, run, n, s.conn.ids))
    && forall x :: x in s.server ==> Known(first, run, n, x)
  }

  lemma {:induction false} NothingUnknown(s: State, run: seq<Step>, n: nat)
    requires Settled(s) && n <= |run|
    ensures AllKnown(At(s, run, n), s.token, run, n)
  {
    hide Enabled, Apply, Known;
    if n == 0 {
      KnownAtStart(s, run);
    } else {
      NothingUnknown(s, run, n - 1);
      var t := At(s, run, n - 1);
      KnownLater(t, s.token, run, n - 1);
      if Enabled(t, run[n - 1]) { KnownStep(t, s.token, run, n); }
    }
  }

  lemma KnownAtStart(s: State, run: seq<Step>)
    requires Settled(s)
    ensures AllKnown(s, s.token, run, 0)
  {
  }

  lemma KnownLater(s: State, first: Token, run: seq<Step>, n: nat)
    requires n < |run| && AllKnown(s, first, run, n)
    ensures AllKnown(s, first, run, n + 1)
  {
    assert forall x :: Known(first, run, n, x) ==> Known(first, run, n + 1, x);
  }

  lemma KnownStep(s: State, first: Token, run: seq<Step>, n: nat)
    requires 0 < n <= |run| && AllKnown(s, first, run, n) && Enabled(s, run[n - 1])
    ensures AllKnown(Apply(s, run[n - 1]), first, run, n)
  {
    hide Known;
    match run[n - 1]
    case BeginSwitch(t) => SwitchedToIsKnown(first, run, n, t);
    case SwitchInCallback(t) => SwitchedToIsKnown(first, run, n, t);
    case _ =>
  }

  lemma SwitchedToIsKnown(first: Token, run: seq<Step>, n: nat, t: Token)
    requires 0 < n <= |run| && (run[n - 1] == BeginSwitch(t) || run[n - 1] == SwitchInCallback(t))
    ensures Known(first, run, n, t)
  {
  }

  /** One switch, with disconnections and reconnections at any points: afterwards, with the socket open, the
      new token is subscribed and nothing but the old one can be left. */
  lemma OneSwitchLeavesAtMostTheOld(s: State, run: seq<Step>, b: nat)
    requires Settled(s) && b < |run| && run[b].BeginSwitch?
    requires forall i :: 0 <= i < |run| && i != b ==> !run[i].BeginSwitch? && !run[i].SwitchInCallback?
    ensures var t := At(s, run, |run|);
      t.phase == Idle && t.conn == Open ==> t.token in t.server && t.server <= {s.token, run[b].token}
  {
    hide Enabled, Apply, Agreement;
    ActiveTokenSubscribed(s, run, |run|);
    NothingUnknown(s, run, |run|);
  }

  function StraddlingRun(new_: Token): seq<Step> {
    [Connect, CopySnapshot, BeginSwitch(new_), SendUnsubscribe, StoreToken, StoreSnapshot, SendSubscribe, SendSnapshot]
  }

  lemma StraddlingFirstHalf(old_: Token, new_: Token)
    requires new_ != "" && new_ != old_
    ensures At(Started(old_), StraddlingRun(new_), 4) == State(old_, old_, Unsubscribed(new_), Copied(old_), {})
  {
    hide At;
    var s, run := Started(old_), StraddlingRun(new_);
    OneStep(s, run, 0);
    OneStep(s, run, 1);
    OneStep(s, run, 2);
    OneStep(s, run, 3);
  }

  /** Such a leftover is possible: the open callback reads the snapshot before the switch and sends it after. */
  lemma OldTokenCanStay(old_: Token, new_: Token)
    requires new_ != "" && new_ != old_
    ensures At(Started(old_), StraddlingRun(new_), 8) == State(new_, new_, Idle, Open, {old_, new_})
  {
    hide At, Settled;
    var s, run := Started(old_), StraddlingRun(new_);
    StraddlingFirstHalf(old_, new_);
    OneStep(s, run, 4);
    OneStep(s, run, 5);
    OneStep(s, run, 6);
    OneStep(s, run, 7);
  }

  lemma OneStep(s: State, run: seq<Step>, n: nat)
    requires n < |run|
    ensures At(s, run, 0) == s
    ensures var t := At(s, run, n);
      At(s, run, n + 1) == if Enabled(t, run[n]) then Apply(t, run[n]) else t
  {
  }

  function SwitchSteps(new_: Token): seq<Step> {
    [BeginSwitch(new_), SendUnsubscribe, StoreToken, StoreSnapshot, SendSubscribe]
  }

  /** A switch that no connection event interrupts leaves exactly the new token, unless it falls between the
      reading and the sending of a snapshot. */
  lemma UninterruptedSwitchIff(s: State, new_: Token)
    requires Settled(s) && new_ != "" && new_ != s.token
    ensures var t := At(s, SwitchSteps(new_), 5);
      t.token == new_ && (Settled(t) <==> !s.conn.Copied?)
  {
    hide At;
    var run := SwitchSteps(new_);
    OneStep(s, run, 0);
    OneStep(s, run, 1);
    OneStep(s, run, 2);
    OneStep(s, run, 3);
    OneStep(s, run, 4);
  }

  /** A reconnection outside a switch removes every leftover. */
  lemma ReconnectionSettles(s: State)
    requires Agreement(s) && s.phase == Idle && s.conn != Closed
    ensures var t := At(s, [Disconnect, Connect, CopySnapshot, SendSnapshot], 4);
      Settled(t) && t.conn == Open && t.token == s.token && t.server == {s.token}
  {
    hide At;
    var run := [Disconnect, Connect, CopySnapshot, SendSnapshot];
    OneStep(s, run, 0);
    OneStep(s, run, 1);
    OneStep(s, run, 2);
    OneStep(s, run, 3);
  }

  /** The feed that switches inside the callback thread: in every run, with the socket open the server sends
      the active token and nothing else. */
  lemma {:induction false} CallbackSwitchesAgree(s: State, run: seq<Step>, n: nat)
    requires Settled(s) && n <= |run| && forall i :: 0 <= i < |run| ==> !run[i].BeginSwitch?
    ensures Settled(At(s, run, n))
    ensures At(s, run, n).conn == Open ==> At(s, run, n).server == {At(s, run, n).token}
  {
    hide Enabled, Apply;
    if n > 0 {
      CallbackSwitchesAgree(s, run, n - 1);
      var t := At(s, run, n - 1);
      if Enabled(t, run[n - 1]) { SettledKept(t, run[n - 1]); }
    }
  }

  lemma SettledKept(s: State, e: Step)
    requires Settled(s) && Enabled(s, e) && !e.BeginSwitch?
    ensures Settled(Apply(s, e))
  {
  }
}
