/** AsyncJsonlWriter of apps/live_pipeline.cpp as interleaved atomic steps: any number of producers call
    `enqueue`, one thread writes, the first caller of `stop_and_flush` stops it, and later callers return at
    once. Blocked threads may wake spuriously. */
module JsonlWriter {
  import opened Basics
  import opened Counting

  type Row = string

  datatype Producer =
    | Away
    | Testing(row: Row)   // about to take the lock and test the wait condition
    | Waiting(row: Row)   // blocked on cv_not_full_
    | Pushed              // row accepted, about to notify cv_

  datatype Writer =
    | Polling             // about to take the lock and test the wait condition
    | Sleeping            // blocked on cv_
    | Holding(row: Row)   // row popped, about to notify cv_not_full_
    | Writing(row: Row)   // about to append the row
    | Exited

  /** How far the first `stop_and_flush` has come. */
  datatype Stopper = NotCalled | StopSet | WriterNotified | AllNotified | Returned

  datatype State = State(
    capacity: nat,
    queue: seq<Row>,
    producers: seq<Producer>,
    writer: Writer,
    stopper: Stopper,
    // history
    called: seq<Row>,     // the rows `enqueue` was called with
    accepted: seq<Row>,
    dropped: seq<Row>,    // the rows `enqueue` gave up
    written: seq<Row>,
    laterReturns: nat)    // calls of `stop_and_flush` after the first that have returned
  {
    predicate Stopped() { stopper != NotCalled }

    function InHand(): seq<Row> { if writer.Holding? || writer.Writing? then [writer.row] else [] }
  }

  datatype Action =
    | Call(p: nat, row: Row)
    | Test(p: nat)
    | NotifyNotEmpty(p: nat)
    | WakeProducer(p: nat)
    | Poll
    | NotifyNotFull(woken: Option<nat>)
    | Append
    | WakeWriter
    | Stop
    | StopNotifyWriter
    | StopNotifyProducers
    | Join
    | StopAgain           // a later call finds the stop flag set and returns

  function Init(capacity: nat, producers: nat): State {
    State(capacity, [], seq(producers, _ => Away), Polling, NotCalled, [], [], [], [], 0)
  }

  predicate Blocked(x: Producer) { x.Waiting? }

  predicate Active(x: Producer) { x.Testing? }

  predicate Announcing(x: Producer) { x.Pushed? }

  predicate Enabled(s: State, a: Action) {
    match a
    case Call(p, _) => p < |s.producers| && s.producers[p].Away?
    case Test(p) => p < |s.producers| && s.producers[p].Testing?
    case NotifyNotEmpty(p) => p < |s.producers| && s.producers[p].Pushed?
    case WakeProducer(p) => p < |s.producers| && s.producers[p].Waiting?
    case Poll => s.writer == Polling
    case NotifyNotFull(woken) =>
      s.writer.Holding? &&
      (if woken.Some? then woken.value < |s.producers| && s.producers[woken.value].Waiting?
       else forall x :: x in s.producers ==> !Blocked(x))
    case Append => s.writer.Writing?
    case WakeWriter => s.writer == Sleeping
    case Stop => !s.Stopped()
    case StopNotifyWriter => s.stopper == StopSet
    case StopNotifyProducers => s.stopper == WriterNotified
    case Join => s.stopper == AllNotified && s.writer == Exited
    case StopAgain => s.Stopped()
  }

  function Release(x: Producer): Producer { if x.Waiting? then Testing(x.row) else x }

  function ReleaseAll(ps: seq<Producer>): seq<Producer> {
    seq(|ps|, i requires 0 <= i < |ps| => Release(ps[i]))
  }

  function WakeUp(w: Writer): Writer { if w == Sleeping then Polling else w }

  /** The critical section of `enqueue`. */
  function Offer(s: State, p: nat): State
    requires p < |s.producers| && s.producers[p].Testing?
  {
    var row := s.producers[p].row;
    if s.Stopped() then s.(dropped := s.dropped + [row], producers := s.producers[p := Away])
    else if |s.queue| < s.capacity
    then s.(queue := s.queue + [row], accepted := s.accepted + [row], producers := s.producers[p := Pushed])
    else s.(producers := s.producers[p := Waiting(row)])
  }

  /** The critical section of the writer thread. */
  function Take(s: State): State {
    if s.queue != [] then s.(queue := s.queue[1..], writer := Holding(s.queue[0]))
    else if s.Stopped() then s.(writer := Exited)
    else s.(writer := Sleeping)
  }

  function Apply(s: State, a: Action): State
    requires Enabled(s, a)
  {
    match a
    case Call(p, row) => s.(called := s.called + [row], producers := s.producers[p := Testing(row)])
    case Test(p) => Offer(s, p)
    case NotifyNotEmpty(p) => s.(producers := s.producers[p := Away], writer := WakeUp(s.writer))
    case WakeProducer(p) => s.(producers := s.producers[p := Testing(s.producers[p].row)])
    case Poll => Take(s)
    case NotifyNotFull(woken) =>
      var s1 := s.(writer := Writing(s.writer.row));
      if woken.Some? then s1.(producers := s.producers[woken.value := Release(s.producers[woken.value])]) else s1
    case Append => s.(writer := Polling, written := s.written + [s.writer.row])
    case WakeWriter => s.(writer := Polling)
    case Stop => s.(stopper := StopSet)
    case StopNotifyWriter => s.(stopper := WriterNotified, writer := WakeUp(s.writer))
    case StopNotifyProducers => s.(stopper := AllNotified, producers := ReleaseAll(s.producers))
    case Join => s.(stopper := Returned)
    case StopAgain => s.(laterReturns := s.laterReturns + 1)
  }

  ghost predicate Next(s: State, s': State) {
    exists a :: Enabled(s, a) && s' == Apply(s, a)
  }

  ghost predicate IsRun(capacity: nat, producers: nat, run: seq<State>) {
    |run| > 0 && run[0] == Init(capacity, producers) && forall k :: 0 <= k < |run| - 1 ==> Next(run[k], run[k + 1])
  }

  // ---------------------------------------------------------------- invariants

  /** Nothing is lost, duplicated or reordered, and the queue is bounded. */
  ghost predicate Conserved(s: State) {
    s.accepted == s.written + s.InHand() + s.queue && |s.queue| <= s.capacity
  }

  /** While a producer is blocked, every free slot has its own producer about to test or a notification
      still to come. */
  ghost predicate NoLostProducer(s: State) {
    !s.Stopped() && Count(s.producers, Blocked) > 0 ==>
      s.capacity - |s.queue| <= Count(s.producers, Active) + (if s.writer.Holding? then 1 else 0)
  }

  /** While the writer sleeps, every queued row has its own notification still to come. */
  ghost predicate NoLostWriter(s: State) {
    s.writer == Sleeping ==> |s.queue| <= Count(s.producers, Announcing)
  }

  ghost predicate StopOk(s: State) {
    && (s.writer == Sleeping ==> s.stopper == NotCalled || s.stopper == StopSet)
    && (s.stopper == AllNotified || s.stopper == Returned ==> forall x :: x in s.producers ==> !Blocked(x))
    && (s.writer == Exited ==> s.Stopped() && s.queue == [])
    && (s.stopper == Returned ==> s.writer == Exited)
  }

  ghost predicate Inv(s: State) {
    Conserved(s) && NoLostProducer(s) && NoLostWriter(s) && StopOk(s)
  }

  function Mover(a: Action): Option<nat> {
    match a
    case Call(p, _) => Some(p)
    case Test(p) => Some(p)
    case NotifyNotEmpty(p) => Some(p)
    case WakeProducer(p) => Some(p)
    case NotifyNotFull(woken) => woken
    case _ => None
  }

  function Bit(b: bool): nat { if b then 1 else 0 }

  /** How an action changes a count over the producers. */
  lemma ProducersCount(s: State, a: Action, c: Producer -> bool)
    requires Enabled(s, a)
    ensures var ps, ps' := s.producers, Apply(s, a).producers;
      match Mover(a)
      case Some(p) => p < |ps| == |ps'| && Count(ps', c) == Count(ps, c) - Bit(c(ps[p])) + Bit(c(ps'[p]))
      case None => a.StopNotifyProducers? || ps' == ps
  {
    var ps, ps' := s.producers, Apply(s, a).producers;
    match Mover(a)
    case Some(p) =>
      assert ps' == ps[p := ps'[p]];
      CountUpdate(ps, p, ps'[p], c);
    case None =>
  }

  lemma StepConserved(s: State, a: Action)
    requires Enabled(s, a) && Conserved(s)
    ensures Conserved(Apply(s, a))
  {
    if a.Poll? && s.queue != [] { assert s.queue == [s.queue[0]] + s.queue[1..]; }
  }

  lemma StepNoLostProducer(s: State, a: Action)
    requires Enabled(s, a) && NoLostProducer(s)
    ensures NoLostProducer(Apply(s, a))
  {
    hide Count;
    NoneCounted(s.producers, Blocked);
    ProducersCount(s, a, Blocked);
    ProducersCount(s, a, Active);
  }

  lemma StepNoLostWriter(s: State, a: Action)
    requires Enabled(s, a) && NoLostWriter(s) && StopOk(s)
    ensures NoLostWriter(Apply(s, a))
  {
    hide Count;
    ProducersCount(s, a, Announcing);
  }

  lemma StepStopOk(s: State, a: Action)
    requires Enabled(s, a) && StopOk(s)
    ensures StopOk(Apply(s, a))
  {
  }

  lemma InitInv(capacity: nat, producers: nat)
    ensures Inv(Init(capacity, producers))
  {
    hide Count;
    NoneCounted(Init(capacity, producers).producers, Blocked);
  }

  lemma StepKeepsInv(s: State, a: Action)
    requires Inv(s) && Enabled(s, a)
    ensures Inv(Apply(s, a))
  {
    hide Apply, Enabled, Conserved, NoLostProducer, NoLostWriter, StopOk;
    StepConserved(s, a);
    StepNoLostProducer(s, a);
    StepNoLostWriter(s, a);
    StepStopOk(s, a);
  }

  lemma {:induction false} RunKeepsInv(capacity: nat, producers: nat, run: seq<State>, k: nat)
    requires IsRun(capacity, producers, run) && k < |run|
    ensures Inv(run[k])
  {
    hide Inv, Apply, Enabled, Init;
    if k == 0 {
      InitInv(capacity, producers);
    } else {
      RunKeepsInv(capacity, producers, run, k - 1);
      assert Next(run[k - 1], run[k]);
      var a :| Enabled(run[k - 1], a) && run[k] == Apply(run[k - 1], a);
      StepKeepsInv(run[k - 1], a);
    }
  }

  lemma {:induction false} CapacityStays(capacity: nat, producers: nat, run: seq<State>, k: nat)
    requires IsRun(capacity, producers, run) && k < |run|
    ensures run[k].capacity == capacity
  {
    if k > 0 {
      CapacityStays(capacity, producers, run, k - 1);
      assert Next(run[k - 1], run[k]);
    }
  }

  // ---------------------------------------------------------------- main results

  /** In every reachable state the rows written, the row in the writer's hand and the queue are, in this
      order, exactly the accepted rows, and the queue never exceeds its capacity. */
  lemma RowsStayInOrder(capacity: nat, producers: nat, run: seq<State>, k: nat)
    requires IsRun(capacity, producers, run) && k < |run|
    ensures var s := run[k]; s.accepted == s.written + s.InHand() + s.queue && |s.queue| <= capacity
  {
    hide Apply, Enabled;
    RunKeepsInv(capacity, producers, run, k);
    CapacityStays(capacity, producers, run, k);
  }

  /** Once the first `stop_and_flush` has returned, every accepted row is written. */
  lemma StopFlushesEverything(capacity: nat, producers: nat, run: seq<State>, k: nat)
    requires IsRun(capacity, producers, run) && k < |run| && run[k].stopper == Returned
    ensures run[k].written == run[k].accepted
  {
    hide Apply, Enabled;
    RunKeepsInv(capacity, producers, run, k);
    var s := run[k];
    assert s.written + s.InHand() + s.queue == s.written;
  }

  /** No producer is lost: before a stop, while one is blocked, the free slots are at most the producers
      about to test plus the writer's pending notification. */
  lemma NoProducerLost(capacity: nat, producers: nat, run: seq<State>, k: nat)
    requires IsRun(capacity, producers, run) && k < |run|
    requires !run[k].Stopped() && exists x :: x in run[k].producers && Blocked(x)
    ensures capacity - |run[k].queue|
         <= Count(run[k].producers, Active) + (if run[k].writer.Holding? then 1 else 0)
  {
    hide Apply, Enabled, Count;
    RunKeepsInv(capacity, producers, run, k);
    CapacityStays(capacity, producers, run, k);
    NoneCounted(run[k].producers, Blocked);
  }

  /** The actions that carry work forward: neither a new call, nor a stop, nor a spurious wake-up. */
  predicate Progress(a: Action) {
    !a.Call? && !a.Stop? && !a.StopAgain? && !a.WakeProducer? && !a.WakeWriter?
  }

  /** No deadlock: with room for at least one row, while a producer is blocked or a row is queued some
      thread can carry on by itself. */
  lemma NeverStuck(capacity: nat, producers: nat, run: seq<State>, k: nat)
    requires IsRun(capacity, producers, run) && k < |run| && capacity > 0 && !run[k].Stopped()
    requires run[k].queue != [] || exists x :: x in run[k].producers && Blocked(x)
    ensures exists a :: Enabled(run[k], a) && Progress(a)
  {
    hide Apply, Count, Conserved;
    RunKeepsInv(capacity, producers, run, k);
    CapacityStays(capacity, producers, run, k);
    var s := run[k];
    NoneCounted(s.producers, Blocked);
    NoneCounted(s.producers, Active);
    NoneCounted(s.producers, Announcing);
    match s.writer
    case Polling => assert Enabled(s, Poll);
    case Writing(_) => assert Enabled(s, Append);
    case Holding(_) =>
      if x :| x in s.producers && Blocked(x) {
        var p: nat :| p < |s.producers| && s.producers[p] == x;
        assert Enabled(s, NotifyNotFull(Some(p)));
      } else {
        assert Enabled(s, NotifyNotFull(None));
      }
    case Sleeping =>
      if x :| x in s.producers && Announcing(x) {
        var p: nat :| p < |s.producers| && s.producers[p] == x;
        assert Enabled(s, NotifyNotEmpty(p));
      } else {
        var x :| x in s.producers && Active(x);
        var p: nat :| p < |s.producers| && s.producers[p] == x;
        assert Enabled(s, Test(p));
      }
  }

  /** With no room at all nothing is ever accepted. */
  lemma ZeroCapacityAcceptsNothing(producers: nat, run: seq<State>, k: nat)
    requires IsRun(0, producers, run) && k < |run|
    ensures run[k].accepted == []
  {
    if k > 0 {
      ZeroCapacityAcceptsNothing(producers, run, k - 1);
      CapacityStays(0, producers, run, k - 1);
      assert Next(run[k - 1], run[k]);
    }
  }

  // ---------------------------------------------------------------- what becomes of a call

  /** A test of `enqueue` gives its row up exactly after a stop, accepts it exactly if there is room, and else waits for
      room with it. */
  lemma TestDecides(s: State, p: nat)
    requires Enabled(s, Test(p))
    ensures var s', row := Apply(s, Test(p)), s.producers[p].row;
      && s'.producers[p] in {Away, Pushed, Waiting(row)}
      && (s'.producers[p] == Away <==> s.stopper != NotCalled)
      && (s'.producers[p] == Pushed <==> s.stopper == NotCalled && |s.queue| < s.capacity)
      && s'.queue == s.queue + (if s'.producers[p] == Pushed then [row] else [])
      && s'.accepted == s.accepted + (if s'.producers[p] == Pushed then [row] else [])
      && s'.dropped == s.dropped + (if s'.producers[p] == Away then [row] else [])
  {
  }

  /** The producers whose call with `row` is still going on. */
  function Carrying(row: Row): Producer -> bool {
    (x: Producer) => (x.Testing? || x.Waiting?) && x.row == row
  }

  /** How often `row` was given to `enqueue`, accepted and given up, and how many calls with it are still going on. */
  ghost predicate RowAccounted(s: State, row: Row) {
    multiset(s.called)[row]
      == multiset(s.accepted)[row] + Count(s.producers, Carrying(row)) + multiset(s.dropped)[row]
  }

  /** Every call was accepted, is still going on, or was given up, and nothing is given up before a stop. */
  ghost predicate CallsAccounted(s: State) {
    && (forall row :: RowAccounted(s, row))
    && (!s.Stopped() ==> s.dropped == [])
  }

  lemma {:induction false} CountReleased(ps: seq<Producer>, row: Row)
    ensures Count(ReleaseAll(ps), Carrying(row)) == Count(ps, Carrying(row))
  {
    if ps != [] {
      CountReleased(ps[..|ps| - 1], row);
      assert ReleaseAll(ps)[..|ps| - 1] == ReleaseAll(ps[..|ps| - 1]);
    }
  }

  /** The histories a step extends, and by what. */
  lemma HistoryStep(s: State, a: Action)
    requires Enabled(s, a)
    ensures var s' := Apply(s, a);
      && s'.called == s.called + (if a.Call? then [a.row] else [])
      && (!a.Test? ==> s'.accepted == s.accepted && s'.dropped == s.dropped)
  {
  }

  lemma TestRowAccounted(s: State, p: nat, row: Row)
    requires Enabled(s, Test(p)) && RowAccounted(s, row)
    ensures RowAccounted(Apply(s, Test(p)), row)
  {
    HistoryStep(s, Test(p));
    ProducersCount(s, Test(p), Carrying(row));
    TestDecides(s, p);
    hide Count, Apply;
  }

  lemma StepRowAccounted(s: State, a: Action, row: Row)
    requires Enabled(s, a) && RowAccounted(s, row)
    ensures RowAccounted(Apply(s, a), row)
  {
    hide Count, Offer, Take;
    if a.Test? {
      TestRowAccounted(s, a.p, row);
    } else {
      HistoryStep(s, a);
      ProducersCount(s, a, Carrying(row));
      CountReleased(s.producers, row);
    }
  }

  lemma StepCallsAccounted(s: State, a: Action)
    requires Enabled(s, a) && CallsAccounted(s)
    ensures CallsAccounted(Apply(s, a))
  {
    forall row ensures RowAccounted(Apply(s, a), row) {
      hide RowAccounted;
      StepRowAccounted(s, a, row);
    }
  }

  lemma StartAccounted(capacity: nat, producers: nat)
    ensures CallsAccounted(Init(capacity, producers))
  {
    hide Count;
    var s := Init(capacity, producers);
    forall row ensures RowAccounted(s, row) { NoneCounted(s.producers, Carrying(row)); }
  }

  /** What becomes of every call of every run: each row is accepted, carried by a call still going on, or given up as
      often as `enqueue` was called with it; before a stop a full queue makes a call wait and loses nothing. */
  lemma {:induction false} EveryCallAccounted(capacity: nat, producers: nat, run: seq<State>, k: nat)
    requires IsRun(capacity, producers, run) && k < |run|
    ensures CallsAccounted(run[k])
  {
    hide Apply, Enabled, CallsAccounted;
    if k == 0 {
      StartAccounted(capacity, producers);
    } else {
      EveryCallAccounted(capacity, producers, run, k - 1);
      assert Next(run[k - 1], run[k]);
      var a :| Enabled(run[k - 1], a) && run[k] == Apply(run[k - 1], a);
      StepCallsAccounted(run[k - 1], a);
    }
  }

  /** So without a stop, once all calls have returned and the queue is empty, exactly the rows of the calls are written,
      each as often as it was given. */
  lemma EveryCallWritten(capacity: nat, producers: nat, run: seq<State>, k: nat)
    requires IsRun(capacity, producers, run) && k < |run| && !run[k].Stopped()
    requires run[k].queue == [] && run[k].InHand() == [] && forall x :: x in run[k].producers ==> x == Away
    ensures multiset(run[k].written) == multiset(run[k].called)
  {
    hide Apply, Enabled, Count;
    var s := run[k];
    EveryCallAccounted(capacity, producers, run, k);
    AllWrittenIff(capacity, producers, run, k);
    forall row ensures multiset(s.written)[row] == multiset(s.called)[row] {
      NoneCounted(s.producers, Carrying(row));
      assert RowAccounted(s, row);
    }
  }

  // ---------------------------------------------------------------- shutdown

  /** An upper bound on the writer's steps left after a stop. */
  function WriterStepsLeft(s: State): nat {
    3 * |s.queue| +
    match s.writer
    case Polling => 1
    case Sleeping => 2
    case Holding(_) => 3
    case Writing(_) => 2
    case Exited => 0
  }

  predicate OfWriter(a: Action) { a.Poll? || a.NotifyNotFull? || a.Append? }

  /** After a stop nothing is accepted, every step of the writer brings it closer to its exit and no
      other step takes it further away ... */
  lemma ShutdownStep(s: State, a: Action)
    requires Inv(s) && s.Stopped() && Enabled(s, a)
    ensures var s' := Apply(s, a);
      && s'.Stopped() && s'.accepted == s.accepted
      && WriterStepsLeft(s') <= WriterStepsLeft(s)
      && (OfWriter(a) ==> WriterStepsLeft(s') < WriterStepsLeft(s))
  {
    hide Count;
  }

  /** ... and until the join has returned, the writer or the stopping thread can step. */
  lemma ShutdownNeverStuck(capacity: nat, producers: nat, run: seq<State>, k: nat)
    requires IsRun(capacity, producers, run) && k < |run| && run[k].Stopped() && run[k].stopper != Returned
    ensures exists a :: Enabled(run[k], a) && (OfWriter(a) || a.StopNotifyWriter? || a.StopNotifyProducers? || a.Join?)
  {
    hide Apply, Count;
    RunKeepsInv(capacity, producers, run, k);
    var s := run[k];
    match s.stopper
    case StopSet => assert Enabled(s, StopNotifyWriter);
    case WriterNotified => assert Enabled(s, StopNotifyProducers);
    case AllNotified =>
      match s.writer
      case Polling => assert Enabled(s, Poll);
      case Holding(_) => assert Enabled(s, NotifyNotFull(None));
      case Writing(_) => assert Enabled(s, Append);
      case Exited => assert Enabled(s, Join);
  }

  /** In every reachable state everything accepted is written exactly if the queue is empty and no row is in hand. */
  lemma AllWrittenIff(capacity: nat, producers: nat, run: seq<State>, k: nat)
    requires IsRun(capacity, producers, run) && k < |run|
    ensures run[k].written == run[k].accepted <==> run[k].queue == [] && run[k].InHand() == []
  {
    hide Apply, Enabled;
    RunKeepsInv(capacity, producers, run, k);
    var s := run[k];
    assert |s.accepted| == |s.written| + |s.InHand()| + |s.queue|;
    if s.InHand() == [] && s.queue == [] { assert s.written + s.InHand() + s.queue == s.written; }
  }

  /** Only the first `stop_and_flush` waits: here a later call returns with an accepted row still queued. */
  lemma SecondStopCanReturnEarly(row: Row)
    ensures exists run: seq<State> :: ReturnsEarly(run)
  {
    var s0 := Init(1, 1);
    var s1 := Apply(s0, Call(0, row));
    var s2 := Apply(s1, Test(0));
    var s3 := Apply(s2, Stop);
    var s4 := Apply(s3, StopAgain);
    assert s2.accepted == [row];
    assert Next(s0, s1) && Next(s1, s2) && Next(s2, s3) && Next(s3, s4);
    assert ReturnsEarly([s0, s1, s2, s3, s4]);
  }

  /** A run that ends with the return of a later call, with something accepted and not written. */
  ghost predicate ReturnsEarly(run: seq<State>) {
    && IsRun(1, 1, run) && |run| > 1 && run[|run| - 1].laterReturns == run[|run| - 2].laterReturns + 1
    && run[|run| - 1].written != run[|run| - 1].accepted
  }

  /** In every run a later call returns with everything accepted written exactly if it finds the queue empty and
      no row in the writer's hand. */
  lemma LaterStopSeesAllIff(capacity: nat, producers: nat, run: seq<State>, k: nat)
    requires IsRun(capacity, producers, run) && k + 1 < |run|
    requires run[k + 1].laterReturns == run[k].laterReturns + 1
    ensures run[k].Stopped()
    ensures run[k + 1].written == run[k + 1].accepted <==> run[k].queue == [] && run[k].InHand() == []
  {
    assert Next(run[k], run[k + 1]);
    AllWrittenIff(capacity, producers, run, k);
  }

  // ---------------------------------------------------------------- the critical sections

  /** The shared fields of the writer and the code sections that touch them. */
  class AsyncJsonlWriter {
    const maxQueue: nat
    var q: seq<Row>
    var stop: bool
    ghost var state: State

    ghost predicate Valid()
      reads this
    {
      maxQueue == state.capacity && q == state.queue && stop == state.Stopped() && Inv(state)
    }

    constructor (capacity: nat, ghost producers: nat)
      ensures Valid() && state == Init(capacity, producers)
    {
      maxQueue, q, stop := capacity, [], false;
      state := Init(capacity, producers);
      InitInv(capacity, producers);
    }

    /** `enqueue`, under the lock: wait, give up, or push. */
    method Enqueue(ghost p: nat, row: Row) returns (accepted: bool, wait: bool)
      requires Valid() && Enabled(state, Test(p)) && state.producers[p].row == row
      modifies this
      ensures Valid() && state == Apply(old(state), Test(p))
      ensures state.producers[p] == if wait then Waiting(row) else if accepted then Pushed else Away
    {
      hide Inv;
      StepKeepsInv(state, Test(p));
      accepted, wait := false, false;
      if !(stop || |q| < maxQueue) {
        wait := true;
      } else if !stop {
        q := q + [row];
        accepted := true;
      }
      state := Apply(state, Test(p));
    }

    /** The writer thread, under the lock: wait, exit, or take the row to write. */
    method TakeRow() returns (row: Option<Row>, exit: bool)
      requires Valid() && Enabled(state, Poll)
      modifies this
      ensures Valid() && state == Apply(old(state), Poll)
      ensures state.writer == if row.Some? then Holding(row.value) else if exit then Exited else Sleeping
    {
      hide Inv;
      StepKeepsInv(state, Poll);
      row, exit := None, false;
      if stop || q != [] {
        if stop && q == [] {
          exit := true;
        } else {
          row := Some(q[0]);
          q := q[1..];
        }
      }
      state := Apply(state, Poll);
    }

    /** `stop_and_flush`, under the lock: only the first call goes on to notify and join. */
    method RequestStop() returns (first: bool)
      requires Valid()
      modifies this
      ensures Valid() && stop && first == !old(stop)
      ensures state == Apply(old(state), if first then Stop else StopAgain)
    {
      hide Inv;
      if stop {
        StepKeepsInv(state, StopAgain);
        state := Apply(state, StopAgain);
        return false;
      }
      StepKeepsInv(state, Stop);
      stop := true;
      state := Apply(state, Stop);
      return true;
    }
  }
}
