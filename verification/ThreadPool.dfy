/** src/core/thread_pool.cpp as interleaved atomic steps. A step is one critical section, one atomic
    operation or one notification; a worker or waiter blocked on a condition variable may also wake
    spuriously. Tasks are numbered in the order `dispatch` counts them. Any number of threads call `dispatch`
    and `wait_idle`, and a job may dispatch further tasks at any time. The destructor starts when no other
    thread is inside `dispatch` or `wait_idle`, as the lifetime of the object requires; a running job may
    still dispatch then. */
module ThreadPool {
  import opened Basics
  import opened Counting

  datatype Worker =
    | Checking            // about to take the lock and test the wait condition
    | Asleep              // blocked on cv_
    | Running(task: nat)
    | Counted(task: nat, child: nat) // the running job has counted a new task and not yet pushed it
    | Pushed(task: nat)   // the running job has pushed a new task, its notify_one is still to come
    | Ran(task: nat)      // the job has returned; inflight_ still counts it
    | Decremented         // about to notify idle_cv_
    | Exited

  /** `missed`: idle_cv_ was notified between the waiter's last read and its blocking. */
  datatype Waiter =
    | Outside
    | Entering            // about to read inflight_ under idle_mu_
    | Checked(missed: bool) // has read a non-zero inflight_ and is about to block
    | Blocked(missed: bool) // blocked on idle_cv_

  datatype State = State(
    announced: seq<nat>,  // counted in inflight_ by other threads, not yet pushed
    queue: seq<nat>,
    unnotified: nat,      // pushed by other threads, notify_one still to come
    workers: seq<Worker>,
    inflight: int,
    stop: bool,
    stopNotice: bool,     // the notify_all of the destructor is still to come
    waiters: seq<Waiter>,
    // history
    dispatched: nat,
    pushed: seq<nat>,
    started: seq<nat>,
    done: seq<nat>)

  datatype Action =
    | Announce
    | Push(i: nat)        // the i-th of the announced tasks
    | NotifyOne(woken: Option<nat>)
    | JobAnnounce(w: nat)
    | JobPush(w: nat)
    | JobNotify(w: nat, woken: Option<nat>)
    | Check(w: nat)
    | SpuriousWake(w: nat)
    | Return(w: nat)
    | Decrement(w: nat)
    | NotifyIdle(w: nat)
    | WaitEnter(v: nat)
    | WaitCheck(v: nat)
    | WaitBlock(v: nat)
    | WaitSpurious(v: nat)
    | Stop
    | NotifyAll

  function Init(n: nat, waiters: nat): State {
    State([], [], 0, seq(n, _ => Checking), 0, false, false, seq(waiters, _ => Outside), 0, [], [], [])
  }

  predicate WorkerIs(s: State, w: nat, x: Worker) { w < |s.workers| && s.workers[w] == x }

  predicate WaiterIs(s: State, v: nat, x: Waiter) { v < |s.waiters| && s.waiters[v] == x }

  /** `notify_one` wakes one of the sleepers, or nobody if there is none. */
  predicate CanWake(s: State, woken: Option<nat>) {
    if woken.Some? then WorkerIs(s, woken.value, Asleep) else Asleep !in s.workers
  }

  predicate Enabled(s: State, a: Action) {
    match a
    case Announce => !s.stop
    case Push(i) => i < |s.announced|
    case NotifyOne(woken) => s.unnotified > 0 && CanWake(s, woken)
    case JobAnnounce(w) => w < |s.workers| && s.workers[w].Running?
    case JobPush(w) => w < |s.workers| && s.workers[w].Counted?
    case JobNotify(w, woken) => w < |s.workers| && s.workers[w].Pushed? && CanWake(s, woken)
    case Check(w) => WorkerIs(s, w, Checking)
    case SpuriousWake(w) => WorkerIs(s, w, Asleep)
    case Return(w) => w < |s.workers| && s.workers[w].Running?
    case Decrement(w) => w < |s.workers| && s.workers[w].Ran?
    case NotifyIdle(w) => WorkerIs(s, w, Decremented)
    case WaitEnter(v) => WaiterIs(s, v, Outside) && !s.stop
    case WaitCheck(v) => WaiterIs(s, v, Entering)
    case WaitBlock(v) => v < |s.waiters| && s.waiters[v].Checked?
    case WaitSpurious(v) => v < |s.waiters| && s.waiters[v].Blocked?
    case Stop => !s.stop && s.announced == [] && s.unnotified == 0 && NobodyWaits(s)
    case NotifyAll => s.stopNotice
  }

  predicate NobodyWaits(s: State) { forall v :: 0 <= v < |s.waiters| ==> s.waiters[v] == Outside }

  function Wake(w: Worker): Worker { if w == Asleep then Checking else w }

  function WakeOne(ws: seq<Worker>, woken: Option<nat>): seq<Worker>
    requires woken.Some? ==> woken.value < |ws|
  {
    if woken.Some? then ws[woken.value := Checking] else ws
  }

  /** What `notify_all` on idle_cv_ does to a waiter: it wakes a blocked one and misses one about to block. */
  function Rouse(v: Waiter): Waiter {
    match v case Blocked(_) => Entering case Checked(_) => Checked(true) case _ => v
  }

  function RouseAll(vs: seq<Waiter>): seq<Waiter> {
    seq(|vs|, i requires 0 <= i < |vs| => Rouse(vs[i]))
  }

  /** The critical section of `worker_loop`: take a task, exit, or go to sleep. */
  function Inspect(s: State, w: nat): State
    requires w < |s.workers|
  {
    if s.queue != [] then
      s.(queue := s.queue[1..], started := s.started + [s.queue[0]], workers := s.workers[w := Running(s.queue[0])])
    else if s.stop then s.(workers := s.workers[w := Exited])
    else s.(workers := s.workers[w := Asleep])
  }

  function Apply(s: State, a: Action): State
    requires Enabled(s, a)
  {
    match a
    case Announce =>
      s.(announced := s.announced + [s.dispatched], dispatched := s.dispatched + 1, inflight := s.inflight + 1)
    case Push(i) =>
      s.(announced := s.announced[..i] + s.announced[i + 1..], queue := s.queue + [s.announced[i]],
         pushed := s.pushed + [s.announced[i]], unnotified := s.unnotified + 1)
    case NotifyOne(woken) => s.(unnotified := s.unnotified - 1, workers := WakeOne(s.workers, woken))
    case JobAnnounce(w) =>
      s.(workers := s.workers[w := Counted(s.workers[w].task, s.dispatched)],
         dispatched := s.dispatched + 1, inflight := s.inflight + 1)
    case JobPush(w) =>
      var child := s.workers[w].child;
      s.(workers := s.workers[w := Pushed(s.workers[w].task)], queue := s.queue + [child], pushed := s.pushed + [child])
    case JobNotify(w, woken) =>
      s.(workers := WakeOne(s.workers[w := Running(s.workers[w].task)], woken))
    case Check(w) => Inspect(s, w)
    case SpuriousWake(w) => s.(workers := s.workers[w := Checking])
    case Return(w) => s.(workers := s.workers[w := Ran(s.workers[w].task)], done := s.done + [s.workers[w].task])
    case Decrement(w) => s.(workers := s.workers[w := Decremented], inflight := s.inflight - 1)
    case NotifyIdle(w) => s.(workers := s.workers[w := Checking], waiters := RouseAll(s.waiters))
    case WaitEnter(v) => s.(waiters := s.waiters[v := Entering])
    case WaitCheck(v) => s.(waiters := s.waiters[v := if s.inflight == 0 then Outside else Checked(false)])
    case WaitBlock(v) => s.(waiters := s.waiters[v := Blocked(s.waiters[v].missed)])
    case WaitSpurious(v) => s.(waiters := s.waiters[v := Entering])
    case Stop => s.(stop := true, stopNotice := true)
    case NotifyAll => s.(stopNotice := false, workers := WakeAll(s.workers))
  }

  /** A run of the pool: consecutive states joined by enabled actions. */
  ghost predicate Next(s: State, s': State) {
    exists a :: Enabled(s, a) && s' == Apply(s, a)
  }

  ghost predicate IsRun(n: nat, vs: nat, run: seq<State>) {
    |run| > 0 && run[0] == Init(n, vs) && forall k :: 0 <= k < |run| - 1 ==> Next(run[k], run[k + 1])
  }

  ghost predicate Reachable(n: nat, vs: nat, s: State) {
    exists run :: IsRun(n, vs, run) && run[|run| - 1] == s
  }

  lemma ReachableInit(n: nat, vs: nat)
    ensures Reachable(n, vs, Init(n, vs))
  {
    assert IsRun(n, vs, [Init(n, vs)]);
  }

  lemma ReachableNext(n: nat, vs: nat, s: State, a: Action)
    requires Reachable(n, vs, s) && Enabled(s, a)
    ensures Reachable(n, vs, Apply(s, a))
  {
    hide Enabled, Apply;
    var run :| IsRun(n, vs, run) && run[|run| - 1] == s;
    var longer := run + [Apply(s, a)];
    assert Next(s, Apply(s, a));
    assert IsRun(n, vs, longer);
    assert longer[|longer| - 1] == Apply(s, a);
  }

  // ---------------------------------------------------------------- invariants

  function Is(t: nat): nat -> bool { x => x == t }

  /** The worker is inside the job of task `t`. */
  function Executes(t: nat): Worker -> bool {
    (w: Worker) => (w.Running? || w.Counted? || w.Pushed?) && w.task == t
  }

  /** The worker's job has counted task `t` and not yet pushed it. */
  function Announces(t: nat): Worker -> bool { (w: Worker) => w.Counted? && w.child == t }

  function Busy(w: Worker): bool { w.Running? || w.Counted? || w.Pushed? || w.Ran? }

  function Announcing(w: Worker): bool { w.Counted? }

  function Telling(w: Worker): bool { w.Pushed? }

  function Looking(w: Worker): bool { w.Checking? }

  function Sleeping(w: Worker): bool { w.Asleep? }

  function Notifying(w: Worker): bool { w.Decremented? }

  function Alive(w: Worker): bool { !w.Exited? }

  /** Every counted dispatch is unpushed, queued, or taken and not yet uncounted. */
  ghost predicate Accounted(s: State) {
    s.inflight == |s.announced| + Count(s.workers, Announcing) + |s.queue| + Count(s.workers, Busy)
  }

  /** Task `t` is unpushed or pushed exactly once if it was dispatched ... */
  ghost predicate Issued(s: State, t: nat) {
    Count(s.announced, Is(t)) + Count(s.workers, Announces(t)) + Count(s.pushed, Is(t)) == Bit(t < s.dispatched)
  }

  /** ... and once it is taken it is executing or done. */
  ghost predicate Handled(s: State, t: nat) {
    Count(s.started, Is(t)) == Count(s.done, Is(t)) + Count(s.workers, Executes(t))
  }

  ghost predicate Placed(s: State, t: nat) { Issued(s, t) && Handled(s, t) }

  /** Tasks are taken in the order in which they were pushed. */
  ghost predicate InOrder(s: State) {
    s.pushed == s.started + s.queue
  }

  /** The notifications of pushed tasks that are still to come. */
  function ToCome(s: State): nat { s.unnotified + Count(s.workers, Telling) }

  /** While some worker sleeps, every queued task has its own pending notification or its own worker
      on the way to the queue. */
  ghost predicate NoLostNotify(s: State) {
    Count(s.workers, Sleeping) > 0 ==> |s.queue| <= ToCome(s) + Count(s.workers, Looking)
  }

  /** While a task is queued the workers have not all exited. */
  ghost predicate SomeoneLeft(s: State) {
    s.queue != [] && s.workers != [] ==> Count(s.workers, Alive) > 0
  }

  ghost predicate StopOk(s: State) {
    && (s.stopNotice ==> s.stop)
    && (s.stop ==> s.announced == [] && s.unnotified == 0 && NobodyWaits(s))
    && (s.stop && !s.stopNotice ==> Asleep !in s.workers)
    && (Exited in s.workers ==> s.stop)
  }

  /** A waiter past its read of a pool that is idle now was notified in the gap, or will be. */
  ghost predicate WaiterOk(s: State) {
    forall v :: 0 <= v < |s.waiters| && (s.waiters[v].Checked? || s.waiters[v].Blocked?) && s.inflight == 0 ==>
      s.waiters[v].missed || Count(s.workers, Notifying) > 0
  }

  ghost predicate Inv(s: State) {
    && Accounted(s) && InOrder(s) && (forall t: nat :: Placed(s, t)) && NoLostNotify(s) && SomeoneLeft(s)
    && StopOk(s) && WaiterOk(s)
  }

  function WakeAll(ws: seq<Worker>): seq<Worker> {
    seq(|ws|, i requires 0 <= i < |ws| => Wake(ws[i]))
  }

  /** Waking sleepers changes no count that treats a sleeping worker like a checking one. */
  lemma {:induction false} WakeAllCounts(ws: seq<Worker>, p: Worker -> bool)
    requires p(Asleep) == p(Checking)
    ensures |WakeAll(ws)| == |ws| && Count(WakeAll(ws), p) == Count(ws, p)
  {
    if ws != [] {
      var last := |ws| - 1;
      WakeAllCounts(ws[..last], p);
      assert WakeAll(ws)[..last] == WakeAll(ws[..last]);
    }
  }

  lemma SleepersCounted(ws: seq<Worker>)
    ensures Count(ws, Sleeping) > 0 <==> Asleep in ws
  {
    CountPositive(ws, Sleeping);
  }

  /** The worker whose own phase the action changes. */
  function Mover(a: Action): Option<nat> {
    match a
    case JobAnnounce(w) => Some(w)
    case JobPush(w) => Some(w)
    case JobNotify(w, _) => Some(w)
    case Check(w) => Some(w)
    case SpuriousWake(w) => Some(w)
    case Return(w) => Some(w)
    case Decrement(w) => Some(w)
    case NotifyIdle(w) => Some(w)
    case _ => None
  }

  /** The worker the action wakes by a `notify_one`. */
  function Woken(a: Action): Option<nat> {
    match a
    case NotifyOne(woken) => woken
    case JobNotify(_, woken) => woken
    case _ => None
  }

  function Bit(b: bool): nat { if b then 1 else 0 }

  /** How an action other than the destructor's notification changes a count over the workers: by the worker that
      moves, and by the one it wakes. */
  lemma WorkersCount(s: State, a: Action, p: Worker -> bool)
    requires Enabled(s, a) && !a.NotifyAll?
    ensures var ws, ws' := s.workers, Apply(s, a).workers;
      && |ws'| == |ws|
      && (Mover(a).Some? ==> Mover(a).value < |ws|)
      && (Woken(a).Some? ==> Woken(a).value < |ws| && ws[Woken(a).value] == Asleep)
      && Count(ws', p) == Count(ws, p)
           + (if Mover(a).Some? then Bit(p(ws'[Mover(a).value])) - Bit(p(ws[Mover(a).value])) else 0)
           + (if Woken(a).Some? then Bit(p(Checking)) - Bit(p(Asleep)) else 0)
  {
    hide Count, RouseAll;
    var ws, ws' := s.workers, Apply(s, a).workers;
    if a.NotifyOne? {
      if a.woken.Some? { CountUpdate(ws, a.woken.value, Checking, p); }
    } else if a.JobNotify? {
      var ws1 := ws[a.w := Running(ws[a.w].task)];
      CountUpdate(ws, a.w, Running(ws[a.w].task), p);
      if a.woken.Some? { CountUpdate(ws1, a.woken.value, Checking, p); }
    } else if Mover(a).Some? {
      var w := Mover(a).value;
      assert ws' == ws[w := ws'[w]];
      CountUpdate(ws, w, ws'[w], p);
    }
  }

  lemma InitInv(n: nat, vs: nat)
    ensures Inv(Init(n, vs))
  {
    var ws := Init(n, vs).workers;
    CountPositive(ws, Busy);
    CountPositive(ws, Announcing);
    CountPositive(ws, Sleeping);
    forall t: nat ensures Placed(Init(n, vs), t) {
      CountPositive(ws, Executes(t));
      CountPositive(ws, Announces(t));
    }
  }

  lemma StepAccounted(s: State, a: Action)
    requires Enabled(s, a) && Accounted(s)
    ensures Accounted(Apply(s, a))
  {
    hide Count, WakeAll, RouseAll;
    if a.NotifyAll? {
      WakeAllCounts(s.workers, Busy);
      WakeAllCounts(s.workers, Announcing);
    } else {
      WorkersCount(s, a, Busy);
      WorkersCount(s, a, Announcing);
    }
  }

  lemma StepInOrder(s: State, a: Action)
    requires Enabled(s, a) && InOrder(s)
    ensures InOrder(Apply(s, a))
  {
    if a.Check? && s.queue != [] { assert s.queue == [s.queue[0]] + s.queue[1..]; }
  }

  lemma StepIssued(s: State, a: Action, t: nat)
    requires Enabled(s, a) && Issued(s, t)
    ensures Issued(Apply(s, a), t)
  {
    hide Count, WakeAll, RouseAll;
    if a.NotifyAll? {
      WakeAllCounts(s.workers, Announces(t));
    } else {
      WorkersCount(s, a, Announces(t));
      match a
      case Announce => CountAppend(s.announced, s.dispatched, Is(t));
      case Push(i) =>
        CountRemove(s.announced, i, Is(t));
        CountAppend(s.pushed, s.announced[i], Is(t));
      case JobPush(w) => CountAppend(s.pushed, s.workers[w].child, Is(t));
      case _ =>
    }
  }

  lemma StepHandled(s: State, a: Action, t: nat)
    requires Enabled(s, a) && Handled(s, t)
    ensures Handled(Apply(s, a), t)
  {
    hide Count, WakeAll, RouseAll;
    if a.NotifyAll? {
      WakeAllCounts(s.workers, Executes(t));
    } else {
      WorkersCount(s, a, Executes(t));
      match a
      case Check(w) => if s.queue != [] { CountAppend(s.started, s.queue[0], Is(t)); }
      case Return(w) => CountAppend(s.done, s.workers[w].task, Is(t));
      case _ =>
    }
  }

  lemma AllWoken(ws: seq<Worker>)
    ensures Asleep !in WakeAll(ws) && Count(WakeAll(ws), Sleeping) == 0
  {
    hide Count;
    SleepersCounted(WakeAll(ws));
  }

  lemma StepNoLostNotify(s: State, a: Action)
    requires Enabled(s, a) && NoLostNotify(s)
    ensures NoLostNotify(Apply(s, a))
  {
    hide Count, WakeAll, RouseAll;
    if a.NotifyAll? {
      AllWoken(s.workers);
    } else {
      SleepersCounted(s.workers);
      WorkersCount(s, a, Looking);
      WorkersCount(s, a, Sleeping);
      WorkersCount(s, a, Telling);
    }
  }

  lemma StepSomeoneLeft(s: State, a: Action)
    requires Enabled(s, a) && SomeoneLeft(s) && StopOk(s)
    ensures SomeoneLeft(Apply(s, a))
  {
    hide Count, WakeAll, RouseAll;
    if a.NotifyAll? {
      WakeAllCounts(s.workers, Alive);
    } else {
      WorkersCount(s, a, Alive);
      if !s.stop && s.workers != [] {
        assert s.workers[0] in s.workers && Alive(s.workers[0]);
        CountPositive(s.workers, Alive);
      }
      if a.JobPush? {
        assert Alive(s.workers[a.w]);
        CountPositive(s.workers, Alive);
      }
    }
  }

  lemma StepWaiterOk(s: State, a: Action)
    requires Enabled(s, a) && WaiterOk(s) && Accounted(s)
    ensures WaiterOk(Apply(s, a))
  {
    hide Count, WakeAll;
    if a.NotifyAll? {
      WakeAllCounts(s.workers, Notifying);
    } else {
      WorkersCount(s, a, Notifying);
    }
  }

  lemma StepStopOk(s: State, a: Action)
    requires Enabled(s, a) && StopOk(s)
    ensures StopOk(Apply(s, a))
  {
    if a.NotifyAll? { AllWoken(s.workers); }
  }

  lemma PlacedMeans(s: State, t: nat)
    ensures Placed(s, t) <==> Issued(s, t) && Handled(s, t)
  {
  }

  lemma StepKeepsInv(s: State, a: Action)
    requires Inv(s) && Enabled(s, a)
    ensures Inv(Apply(s, a))
  {
    hide Apply, Enabled, Accounted, InOrder, Placed, Issued, Handled, NoLostNotify, SomeoneLeft, StopOk, WaiterOk;
    StepAccounted(s, a);
    StepInOrder(s, a);
    forall t: nat ensures Placed(Apply(s, a), t) {
      PlacedMeans(s, t);
      StepIssued(s, a, t);
      StepHandled(s, a, t);
      PlacedMeans(Apply(s, a), t);
    }
    StepNoLostNotify(s, a);
    StepSomeoneLeft(s, a);
    StepStopOk(s, a);
    StepWaiterOk(s, a);
  }

  lemma {:induction false} RunKeepsInv(n: nat, vs: nat, run: seq<State>, k: nat)
    requires IsRun(n, vs, run) && k < |run|
    ensures Inv(run[k])
  {
    hide Inv, Apply, Enabled, Init;
    if k == 0 {
      InitInv(n, vs);
    } else {
      RunKeepsInv(n, vs, run, k - 1);
      assert Next(run[k - 1], run[k]);
      var a :| Enabled(run[k - 1], a) && run[k] == Apply(run[k - 1], a);
      StepKeepsInv(run[k - 1], a);
    }
  }

  lemma {:induction false} WorkersStay(n: nat, vs: nat, run: seq<State>, k: nat)
    requires IsRun(n, vs, run) && k < |run|
    ensures |run[k].workers| == n
  {
    if k > 0 {
      WorkersStay(n, vs, run, k - 1);
      assert Next(run[k - 1], run[k]);
    }
  }

  // ---------------------------------------------------------------- main results

  /** In every reachable state: inflight_ counts the dispatches that are unpushed, queued or taken;
      tasks are taken in push order; and every dispatched task is in exactly one place - unpushed,
      queued, executing or done - so none is lost and none runs twice. */
  lemma EveryTaskInOnePlace(n: nat, vs: nat, run: seq<State>, k: nat, t: nat)
    requires IsRun(n, vs, run) && k < |run|
    ensures var s := run[k];
      && s.inflight == |s.announced| + Count(s.workers, Announcing) + |s.queue| + Count(s.workers, Busy)
      && s.pushed == s.started + s.queue
      && Count(s.announced, Is(t)) + Count(s.workers, Announces(t)) + Count(s.queue, Is(t))
           + Count(s.workers, Executes(t)) + Count(s.done, Is(t))
         == Bit(t < s.dispatched)
  {
    hide Count, Apply, Enabled;
    RunKeepsInv(n, vs, run, k);
    var s := run[k];
    assert Placed(s, t);
    CountConcat(s.started, s.queue, Is(t));
  }

  /** Nothing unpushed, queued or executing, and every dispatched task done exactly once. */
  ghost predicate AllDone(s: State) {
    && s.announced == [] && s.queue == [] && (forall w :: w in s.workers ==> !Busy(w))
    && (forall t: nat :: Count(s.done, Is(t)) == Bit(t < s.dispatched))
  }

  lemma IdleMeansAllDone(s: State)
    requires Inv(s) && s.inflight == 0
    ensures AllDone(s)
  {
    hide Count;
    NoneCounted(s.workers, Busy);
    assert s.started + s.queue == s.started;
    forall t: nat ensures Count(s.done, Is(t)) == Bit(t < s.dispatched) {
      assert Placed(s, t);
      NoneCounted(s.workers, Executes(t));
      NoneCounted(s.workers, Announces(t));
      CountEmpty(s.announced, Is(t));
    }
  }

  /** `wait_idle` returns, in any of the threads that call it, only at a moment at which every task dispatched so
      far is done. */
  lemma WaitIdleReturnsWhenDone(n: nat, vs: nat, run: seq<State>, k: nat, v: nat)
    requires IsRun(n, vs, run) && k < |run|
    requires Enabled(run[k], WaitCheck(v)) && Apply(run[k], WaitCheck(v)).waiters[v] == Outside
    ensures AllDone(run[k])
  {
    hide AllDone, Inv;
    RunKeepsInv(n, vs, run, k);
    IdleMeansAllDone(run[k]);
  }

  predicate Awake(w: Worker) { w != Asleep && w != Exited }

  /** No task is stranded: with at least one worker, while the queue is not empty some worker is awake
      or a notification is still to come; and while any worker sleeps, the queued tasks are at most the
      pending notifications plus the workers on their way to the queue. */
  lemma NoTaskStranded(n: nat, vs: nat, run: seq<State>, k: nat)
    requires IsRun(n, vs, run) && k < |run| && n > 0
    ensures run[k].queue != [] ==> run[k].unnotified > 0 || exists w :: w in run[k].workers && Awake(w)
    ensures Asleep in run[k].workers ==> |run[k].queue| <= ToCome(run[k]) + Count(run[k].workers, Looking)
  {
    hide Apply, Enabled, Count;
    RunKeepsInv(n, vs, run, k);
    WorkersStay(n, vs, run, k);
    SleepersCounted(run[k].workers);
    NoneCounted(run[k].workers, Looking);
    NoneCounted(run[k].workers, Telling);
    NoneCounted(run[k].workers, Alive);
  }

  ghost predicate Joined(s: State) {
    s.stop && forall w :: w in s.workers ==> w == Exited
  }

  /** When the destructor of a pool with at least one worker has joined them, every task is done, also those that
      jobs dispatched after the destructor had started. */
  lemma DestructorFinishesTasks(n: nat, vs: nat, run: seq<State>, k: nat)
    requires IsRun(n, vs, run) && k < |run| && n > 0 && Joined(run[k])
    ensures AllDone(run[k])
  {
    hide Apply, Enabled, Count, AllDone, Placed;
    RunKeepsInv(n, vs, run, k);
    WorkersStay(n, vs, run, k);
    NoneCounted(run[k].workers, Busy);
    NoneCounted(run[k].workers, Announcing);
    NoneCounted(run[k].workers, Alive);
    IdleMeansAllDone(run[k]);
  }

  lemma {:induction false} NoWorkersDoNothing(vs: nat, run: seq<State>, k: nat)
    requires IsRun(0, vs, run) && k < |run|
    ensures run[k].workers == [] && run[k].done == []
  {
    if k > 0 {
      NoWorkersDoNothing(vs, run, k - 1);
      assert Next(run[k - 1], run[k]);
    }
  }

  /** Exactly when the destructor has had everything done: there was a worker, or nothing was ever dispatched. */
  lemma DestructorFinishesIff(n: nat, vs: nat, run: seq<State>, k: nat)
    requires IsRun(n, vs, run) && k < |run| && Joined(run[k])
    ensures AllDone(run[k]) <==> n > 0 || run[k].dispatched == 0
  {
    hide Apply, Enabled, Placed;
    if n > 0 {
      DestructorFinishesTasks(n, vs, run, k);
    } else {
      NoWorkersDoNothing(vs, run, k);
      var s := run[k];
      RunKeepsInv(n, vs, run, k);
      if s.dispatched > 0 {
        assert Count(s.done, Is(0)) == 0;
      } else {
        NothingDispatched(s);
      }
    }
  }

  lemma NothingDispatched(s: State)
    requires Inv(s) && s.workers == [] && s.dispatched == 0 && s.done == []
    ensures AllDone(s)
  {
    hide Count;
    NoneCounted(s.workers, Announcing);
    NoneCounted(s.workers, Busy);
    if s.announced != [] {
      assert Placed(s, s.announced[0]);
      CountPositive(s.announced, Is(s.announced[0]));
    }
    if s.queue != [] {
      assert s.queue[0] in s.pushed;
      assert Placed(s, s.queue[0]);
      var i: nat :| i < |s.pushed| && s.pushed[i] == s.queue[0];
      CountPositive(s.pushed, Is(s.queue[0]));
    }
    IdleMeansAllDone(s);
  }

  /** Without workers that fails: the destructor returns with the task still queued. */
  lemma NoWorkersLoseTasks()
    ensures exists s :: Reachable(0, 0, s) && Joined(s) && s.queue != [] && s.done == []
  {
    hide Reachable;
    var s0 := Init(0, 0);
    ReachableInit(0, 0);
    var s1 := Apply(s0, Announce);
    ReachableNext(0, 0, s0, Announce);
    var s2 := Apply(s1, Push(0));
    ReachableNext(0, 0, s1, Push(0));
    var s3 := Apply(s2, NotifyOne(None));
    ReachableNext(0, 0, s2, NotifyOne(None));
    ReachableNext(0, 0, s3, Stop);
    assert Joined(Apply(s3, Stop));
  }

  // ---------------------------------------------------------------- shutdown

  /** The steps a worker takes at most until it has exited, if its job dispatches no more and it finds no task. */
  function Weight(w: Worker): nat {
    match w
    case Checking => 1
    case Decremented => 2
    case Ran(_) => 3
    case Running(_) => 4
    case Pushed(_) => 5
    case Counted(_, _) => 10
    case _ => 0
  }

  function Load(ws: seq<Worker>): nat {
    if ws == [] then 0 else Load(ws[..|ws| - 1]) + Weight(ws[|ws| - 1])
  }

  lemma {:induction false} LoadUpdate(ws: seq<Worker>, i: nat, x: Worker)
    requires i < |ws|
    ensures Load(ws[i := x]) == Load(ws) - Weight(ws[i]) + Weight(x)
  {
    var init, last := ws[..|ws| - 1], |ws| - 1;
    if i == last {
      assert ws[i := x][..last] == init;
    } else {
      assert ws[i := x][..last] == init[i := x];
      LoadUpdate(init, i, x);
    }
  }

  /** An upper bound on the steps left once the workers have been told to stop and jobs dispatch no more. */
  function StepsLeft(s: State): nat { 4 * |s.queue| + Load(s.workers) }

  /** Every step after the destructor's notification brings the pool nearer to its end, except that a dispatch by a
      running job adds at most six steps. */
  lemma ShutdownStep(s: State, a: Action)
    requires Inv(s) && s.stop && !s.stopNotice && Enabled(s, a)
    ensures Apply(s, a).stop && !Apply(s, a).stopNotice
    ensures if a.JobAnnounce?
            then StepsLeft(Apply(s, a)) <= StepsLeft(s) + 6 && Apply(s, a).dispatched == s.dispatched + 1
            else StepsLeft(Apply(s, a)) < StepsLeft(s) && Apply(s, a).dispatched == s.dispatched
  {
    hide Load, Placed, Accounted, InOrder, NoLostNotify, SomeoneLeft, WaiterOk, WakeAll, RouseAll;
    var ws, ws' := s.workers, Apply(s, a).workers;
    if Mover(a).Some? {
      var w := Mover(a).value;
      assert ws' == ws[w := ws'[w]];
      LoadUpdate(ws, w, ws'[w]);
    }
  }

  /** After the destructor's notify_all the pool takes at most `StepsLeft` more steps, and seven for every task that
      running jobs still dispatch, whatever the scheduling and without spurious wake-ups ... */
  lemma {:induction false} ShutdownTerminates(n: nat, vs: nat, run: seq<State>, k: nat, m: nat)
    requires IsRun(n, vs, run) && k <= m < |run|
    requires run[k].stop && !run[k].stopNotice
    ensures run[m].stop && !run[m].stopNotice
    ensures m - k + StepsLeft(run[m]) <= StepsLeft(run[k]) + 7 * (run[m].dispatched - run[k].dispatched)
    decreases m - k
  {
    hide Apply, Enabled, StepsLeft, Inv;
    if k < m {
      ShutdownTerminates(n, vs, run, k, m - 1);
      RunKeepsInv(n, vs, run, m - 1);
      assert Next(run[m - 1], run[m]);
      var a :| Enabled(run[m - 1], a) && run[m] == Apply(run[m - 1], a);
      ShutdownStep(run[m - 1], a);
    }
  }

  /** ... and it stops stepping only when every worker has exited, so the join returns. */
  lemma ShutdownNeverStuck(n: nat, vs: nat, run: seq<State>, k: nat)
    requires IsRun(n, vs, run) && k < |run|
    requires run[k].stop && !run[k].stopNotice && !Joined(run[k])
    ensures exists a :: Enabled(run[k], a) && !a.JobAnnounce?
  {
    hide Placed, Apply;
    RunKeepsInv(n, vs, run, k);
    var s := run[k];
    var w :| w in s.workers && w != Exited;
    var i: nat :| i < |s.workers| && s.workers[i] == w;
    match w
    case Checking => assert Enabled(s, Check(i));
    case Running(_) => assert Enabled(s, Return(i));
    case Counted(_, _) => assert Enabled(s, JobPush(i));
    case Pushed(_) => assert Enabled(s, JobNotify(i, None));
    case Ran(_) => assert Enabled(s, Decrement(i));
    case Decremented => assert Enabled(s, NotifyIdle(i));
  }

  // ---------------------------------------------------------------- wait_idle can miss its wake-up

  /** Waiter `v` is blocked although the pool is idle, and no notification is coming. */
  predicate WaiterStranded(s: State, v: nat) {
    v < |s.waiters| && s.waiters[v].Blocked? && s.inflight == 0 && forall w :: w in s.workers ==> w != Decremented
  }

  /** The states on the way to a stranded waiter, in a pool of one worker and one waiter. */
  function Stage(announced: seq<nat>, queue: seq<nat>, unnotified: nat, w: Worker, inflight: int, v: Waiter,
                 pushed: seq<nat>, started: seq<nat>, done: seq<nat>): State {
    State(announced, queue, unnotified, [w], inflight, false, false, [v], 1, pushed, started, done)
  }

  lemma OneAnnounced()
    ensures Reachable(1, 1, Stage([0], [], 0, Checking, 1, Outside, [], [], []))
  {
    hide Reachable;
    ReachableInit(1, 1);
    var s := Init(1, 1);
    assert s.workers == [Checking] && s.waiters == [Outside];
    ReachableNext(1, 1, s, Announce);
    assert Apply(s, Announce) == Stage([0], [], 0, Checking, 1, Outside, [], [], []);
  }

  lemma OneQueued()
    ensures Reachable(1, 1, Stage([], [0], 0, Checking, 1, Outside, [0], [], []))
  {
    hide Reachable;
    OneAnnounced();
    var s := Stage([0], [], 0, Checking, 1, Outside, [], [], []);
    ReachableNext(1, 1, s, Push(0));
    var s' := Stage([], [0], 1, Checking, 1, Outside, [0], [], []);
    assert Apply(s, Push(0)) == s';
    ReachableNext(1, 1, s', NotifyOne(None));
  }

  lemma OneTaken()
    ensures Reachable(1, 1, Stage([], [], 0, Running(0), 1, Outside, [0], [0], []))
  {
    hide Reachable;
    OneQueued();
    var s := Stage([], [0], 0, Checking, 1, Outside, [0], [], []);
    ReachableNext(1, 1, s, Check(0));
    assert Apply(s, Check(0)) == Stage([], [], 0, Running(0), 1, Outside, [0], [0], []);
  }

  /** The waiter has read inflight_ while the task runs. */
  lemma OneWatched()
    ensures Reachable(1, 1, Stage([], [], 0, Running(0), 1, Checked(false), [0], [0], []))
  {
    hide Reachable;
    OneTaken();
    var s := Stage([], [], 0, Running(0), 1, Outside, [0], [0], []);
    ReachableNext(1, 1, s, WaitEnter(0));
    var s' := Stage([], [], 0, Running(0), 1, Entering, [0], [0], []);
    assert Apply(s, WaitEnter(0)) == s';
    ReachableNext(1, 1, s', WaitCheck(0));
    assert Apply(s', WaitCheck(0)) == Stage([], [], 0, Running(0), 1, Checked(false), [0], [0], []);
  }

  lemma OneUncounted()
    ensures Reachable(1, 1, Stage([], [], 0, Decremented, 0, Checked(false), [0], [0], [0]))
  {
    hide Reachable;
    OneWatched();
    var s := Stage([], [], 0, Running(0), 1, Checked(false), [0], [0], []);
    ReachableNext(1, 1, s, Return(0));
    var s' := Stage([], [], 0, Ran(0), 1, Checked(false), [0], [0], [0]);
    assert Apply(s, Return(0)) == s';
    ReachableNext(1, 1, s', Decrement(0));
    assert Apply(s', Decrement(0)) == Stage([], [], 0, Decremented, 0, Checked(false), [0], [0], [0]);
  }

  /** The decrement and the notification are not under idle_mu_, so `wait_idle` may sleep forever: here
      the last worker finishes between the waiter's read and its blocking. */
  lemma WaitIdleCanStrand()
    ensures exists s :: Reachable(1, 1, s) && WaiterStranded(s, 0)
  {
    hide Reachable;
    OneUncounted();
    var s := Stage([], [], 0, Decremented, 0, Checked(false), [0], [0], [0]);
    ReachableNext(1, 1, s, NotifyIdle(0));
    var s' := Stage([], [], 0, Checking, 0, Checked(true), [0], [0], [0]);
    assert Apply(s, NotifyIdle(0)) == s';
    ReachableNext(1, 1, s', WaitBlock(0));
    assert WaiterStranded(Apply(s', WaitBlock(0)), 0);
  }

  /** That gap is the only way, and it is enough: in every run a waiter is stranded exactly if it blocked after a
      notification had fallen into its gap, the pool is idle and no worker is about to notify. */
  lemma StrandedIff(n: nat, vs: nat, run: seq<State>, k: nat, v: nat)
    requires IsRun(n, vs, run) && k < |run|
    ensures WaiterStranded(run[k], v) <==>
      && WaiterIs(run[k], v, Blocked(true)) && run[k].inflight == 0 && Decremented !in run[k].workers
  {
    if WaiterStranded(run[k], v) { StrandedOnlyIfMissed(n, vs, run, k, v); }
  }

  lemma StrandedOnlyIfMissed(n: nat, vs: nat, run: seq<State>, k: nat, v: nat)
    requires IsRun(n, vs, run) && k < |run| && WaiterStranded(run[k], v)
    ensures run[k].waiters[v].missed
  {
    hide Apply, Enabled, Placed, Count;
    RunKeepsInv(n, vs, run, k);
    NoneCounted(run[k].workers, Notifying);
  }

  // ---------------------------------------------------------------- what the two tests decide

  /** A worker that tests takes the oldest queued task if there is one, exits only if there is none and the pool stops,
      and sleeps only if there is none and it does not. */
  lemma CheckDecides(s: State, w: nat)
    requires Enabled(s, Check(w))
    ensures var s' := Apply(s, Check(w));
      && (s.queue != [] ==> s'.workers[w] == Running(s.queue[0]) && s'.queue == s.queue[1..]
                            && s'.started == s.started + [s.queue[0]])
      && (s.queue == [] ==> s'.queue == [] && s'.started == s.started)
      && (s'.workers[w] == Exited <==> s.queue == [] && s.stop)
      && (s'.workers[w] == Asleep <==> s.queue == [] && !s.stop)
  {
  }

  /** A waiter that tests leaves exactly if every counted task is uncounted, and else goes on to block. */
  lemma WaitDecides(s: State, v: nat)
    requires Enabled(s, WaitCheck(v))
    ensures Apply(s, WaitCheck(v)).waiters[v] == if s.inflight == 0 then Outside else Checked(false)
  {
  }

  /** `wait_idle` returns as soon as it tests a pool in which every dispatched task is done and uncounted, and never
      from any other: for every run, whatever the other threads do. */
  lemma WaitReturnsIff(n: nat, vs: nat, run: seq<State>, k: nat, v: nat)
    requires IsRun(n, vs, run) && k < |run| && Enabled(run[k], WaitCheck(v))
    ensures Apply(run[k], WaitCheck(v)).waiters[v] == Outside <==>
      && run[k].announced == [] && run[k].queue == []
      && forall x :: x in run[k].workers ==> x in {Checking, Asleep, Decremented, Exited}
  {
    hide Apply, Enabled, Placed, Count, InOrder, NoLostNotify, SomeoneLeft, StopOk, WaiterOk;
    RunKeepsInv(n, vs, run, k);
    WaitDecides(run[k], v);
    NoneCounted(run[k].workers, Busy);
    NoneCounted(run[k].workers, Announcing);
  }

  // ---------------------------------------------------------------- the critical sections

  /** The shared fields of the pool and the code sections that touch them. `state` is the step system's
      view; each section performs one of its actions. */
  class Pool {
    var tasks: seq<nat>
    var stop: bool
    var inflight: int
    ghost var state: State

    ghost predicate Valid()
      reads this
    {
      tasks == state.queue && stop == state.stop && inflight == state.inflight && Inv(state)
    }

    constructor (workers: nat, ghost waiters: nat)
      ensures Valid() && state == Init(workers, waiters)
    {
      tasks, stop, inflight := [], false, 0;
      state := Init(workers, waiters);
      InitInv(workers, waiters);
    }

    /** `dispatch`, before the lock, by another thread or by the job of worker `w`. */
    method CountUp(ghost w: Option<nat>)
      requires Valid() && Enabled(state, if w.Some? then JobAnnounce(w.value) else Announce)
      modifies this
      ensures Valid() && state == Apply(old(state), if w.Some? then JobAnnounce(w.value) else Announce)
    {
      hide Inv;
      ghost var a := if w.Some? then JobAnnounce(w.value) else Announce;
      StepKeepsInv(state, a);
      inflight := inflight + 1;
      state := Apply(state, a);
    }

    /** `dispatch`, under the lock: the task is the `i`-th announced one, or the new task of worker `i`. */
    method PushTask(task: nat, ghost i: nat, ghost byJob: bool)
      requires Valid() && Enabled(state, if byJob then JobPush(i) else Push(i))
      requires task == if byJob then state.workers[i].child else state.announced[i]
      modifies this
      ensures Valid() && state == Apply(old(state), if byJob then JobPush(i) else Push(i))
    {
      hide Inv;
      ghost var a := if byJob then JobPush(i) else Push(i);
      StepKeepsInv(state, a);
      tasks := tasks + [task];
      state := Apply(state, a);
    }

    /** `worker_loop`, under the lock: the job to run, or exit, or neither and the worker sleeps. */
    method TakeTask(w: nat) returns (job: Option<nat>, exit: bool)
      requires Valid() && Enabled(state, Check(w))
      modifies this
      ensures Valid() && state == Apply(old(state), Check(w))
      ensures state.workers[w] == if job.Some? then Running(job.value) else if exit then Exited else Asleep
    {
      hide Inv;
      StepKeepsInv(state, Check(w));
      job, exit := None, false;
      if stop || tasks != [] {
        if stop && tasks == [] {
          exit := true;
        } else {
          job := Some(tasks[0]);
          tasks := tasks[1..];
        }
      }
      state := Apply(state, Check(w));
    }

    /** `worker_loop`, after the job. */
    method CountDown(ghost w: nat)
      requires Valid() && Enabled(state, Decrement(w))
      modifies this
      ensures Valid() && state == Apply(old(state), Decrement(w))
    {
      hide Inv;
      StepKeepsInv(state, Decrement(w));
      inflight := inflight - 1;
      state := Apply(state, Decrement(w));
    }

    /** The wait condition of `wait_idle`: it returns exactly when nothing is in flight, and then all is done. */
    method PollIdle(ghost v: nat) returns (idle: bool)
      requires Valid() && Enabled(state, WaitCheck(v))
      modifies this
      ensures Valid() && state == Apply(old(state), WaitCheck(v))
      ensures idle == (old(inflight) == 0) && (idle ==> AllDone(state))
    {
      hide Inv, AllDone;
      StepKeepsInv(state, WaitCheck(v));
      idle := inflight == 0;
      state := Apply(state, WaitCheck(v));
      if idle { IdleMeansAllDone(state); }
    }

    /** The destructor, under the lock. */
    method RequestStop()
      requires Valid() && Enabled(state, Stop)
      modifies this
      ensures Valid() && state == Apply(old(state), Stop)
    {
      hide Inv;
      StepKeepsInv(state, Stop);
      stop := true;
      state := Apply(state, Stop);
    }
  }
}
