/** What the worker pool guarantees over whole runs. */
module ThreadPoolTheorems {
  import opened Wrappers
  import opened ThreadPool
  import opened ThreadPoolInvariant

  // s is the state of some interleaving of a pool of n workers.
  ghost predicate Reachable(n: nat, s: State) {
    Reaches(Initial(n), s)
  }

  ghost predicate Reaches(s: State, s': State) {
    exists steps :: CanRun(s, steps) && After(s, steps) == s'
  }

  lemma {:induction false} RunKeepsInv(s: State, steps: seq<Step>)
    requires Inv(s) && CanRun(s, steps)
    ensures Inv(After(s, steps)) && |After(s, steps).workers| == |s.workers|
    decreases |steps|
  {
    hide Inv, Enabled;
    if steps != [] {
      InvKept(s, steps[0]);
      SameWorkers(s, steps[0]);
      hide Apply;
      RunKeepsInv(Apply(s, steps[0]), steps[1..]);
    }
  }

  lemma SameWorkers(s: State, step: Step)
    ensures |Apply(s, step).workers| == |s.workers|
  {
    hide WorkerStep, MainStep;
    match step
    case Work(i, wake) =>
      if i < |s.workers| {
        OthersStay(s, i, wake);
      }
    case Boss(wake) => BossOnlyWakes(s, wake);
    case _ =>
  }

  lemma ReachableInv(n: nat, s: State)
    requires Reachable(n, s)
    ensures Inv(s) && |s.workers| == n
  {
    InitialInv(n);
    var steps :| CanRun(Initial(n), steps) && After(Initial(n), steps) == s;
    RunKeepsInv(Initial(n), steps);
  }

  // ---- The semaphore is set again only for a task -------------------------------------------

  // A worker that is about to hand the token on has left a task, and nobody can take that from it.
  ghost predicate RearmsForTask(s: State) {
    forall i | 0 <= i < |s.workers| && s.workers[i].Rearm? :: s.queue != []
  }

  lemma RearmKeptByWork(s: State, i: nat, wake: nat)
    requires MutexInv(s) && RearmsForTask(s) && Enabled(s, Work(i, wake))
    ensures RearmsForTask(WorkerStep(s, i, wake))
  {
    OthersStay(s, i, wake);
    var s' := WorkerStep(s, i, wake);
    forall j | 0 <= j < |s'.workers| && s'.workers[j].Rearm?
      ensures s'.queue != []
    {
      if s.workers[j].Rearm? && j != i {
        assert s.owner == WorkerThread(j);
      }
    }
  }

  lemma RearmKeptByBoss(s: State, wake: nat)
    requires MutexInv(s) && RearmsForTask(s) && Enabled(s, Boss(wake))
    ensures RearmsForTask(MainStep(s, wake))
  {
    BossOnlyWakes(s, wake);
    var s' := MainStep(s, wake);
    forall j | 0 <= j < |s'.workers| && s'.workers[j].Rearm?
      ensures s'.queue != []
    {
      assert s.workers[j].Rearm? && s.owner == WorkerThread(j);
    }
  }

  lemma RearmKept(s: State, step: Step)
    requires MutexInv(s) && RearmsForTask(s) && Enabled(s, step)
    ensures RearmsForTask(Apply(s, step))
  {
    hide WorkerStep, MainStep, MutexInv;
    match step
    case Work(i, wake) => RearmKeptByWork(s, i, wake);
    case Boss(wake) => RearmKeptByBoss(s, wake);
    case _ =>
  }

  lemma MutexOf(s: State)
    requires Inv(s)
    ensures MutexInv(s)
  {
    hide MutexInv;
  }

  lemma {:induction false} RunKeepsRearm(s: State, steps: seq<Step>)
    requires Inv(s) && RearmsForTask(s) && CanRun(s, steps)
    ensures RearmsForTask(After(s, steps))
    decreases |steps|
  {
    hide Inv, MutexInv, Enabled, RearmsForTask, Apply;
    if steps != [] {
      InvKept(s, steps[0]);
      assert MutexInv(s) by {
        MutexOf(s);
      }
      RearmKept(s, steps[0]);
      RunKeepsRearm(Apply(s, steps[0]), steps[1..]);
    }
  }

  // A worker never sets `bsem_jobs` but for a task that is waiting: in any reachable state, a step of a worker after
  // which the semaphore is set has found it set, or there is a task in the queue.
  lemma WorkersPostForTasks(n: nat, s: State, i: nat, wake: nat)
    requires Reachable(n, s) && Enabled(s, Work(i, wake)) && Apply(s, Work(i, wake)).jobs
    ensures s.jobs || s.queue != []
  {
    ReachableRearms(n, s);
    hide Reachable, WakeOk, Signal;
  }

  lemma ReachableRearms(n: nat, s: State)
    requires Reachable(n, s)
    ensures RearmsForTask(s)
  {
    InitialInv(n);
    hide Inv, Enabled, Apply;
    var steps :| CanRun(Initial(n), steps) && After(Initial(n), steps) == s;
    RunKeepsRearm(Initial(n), steps);
  }

  // ---- Every task is conserved, in order, and runs at most once ----------------------------

  lemma TasksConserved(n: nat, s: State)
    requires Reachable(n, s)
    ensures s.taken <= s.added
    ensures !s.stop ==> s.added == s.taken + s.queue
    ensures forall t ::
        multiset(s.added)[t] == multiset(s.queue)[t] + Held(s.workers, t) + s.done[t] + multiset(s.dropped)[t]
  {
    ReachableInv(n, s);
    assert s.added == s.taken + (s.queue + s.dropped);
    forall t
      ensures multiset(s.added)[t] == multiset(s.queue)[t] + Held(s.workers, t) + s.done[t] + multiset(s.dropped)[t]
    {
      assert multiset(s.added) == multiset(s.taken) + multiset(s.queue) + multiset(s.dropped);
    }
  }

  // ---- No thread waits for ever -------------------------------------------------------------

  // Nothing in the pool can move: only the program itself or a spurious wake-up could.
  ghost predicate Quiescent(s: State) {
    && (forall i, wake :: !Enabled(s, Work(i, wake)))
    && (forall wake :: !Enabled(s, Boss(wake)))
  }

  lemma SomeWakeIsOk(ws: seq<Worker>) returns (wake: nat)
    ensures WakeOk(ws, wake)
  {
    wake := 0;
    if SomeBlocked(ws) {
      wake :| wake < |ws| && ws[wake].Blocked?;
    }
  }

  // The holder of mutex_queue can always go on, so in a quiescent pool nobody holds it.
  lemma QuiescentUnlocked(s: State)
    requires Inv(s) && Quiescent(s)
    ensures s.owner == Nobody
    ensures forall i | 0 <= i < |s.workers| :: s.workers[i].Blocked? || s.workers[i].Gone?
    ensures s.main.Idle? || s.main.ExitBlocked? || s.main.Finished?
  {
    var wake := SomeWakeIsOk(s.workers);
    assert !Enabled(s, Boss(wake));
    assert s.owner != MainThread;
    forall i | 0 <= i < |s.workers|
      ensures !HasMutex(s.workers[i])
    {
      assert !Enabled(s, Work(i, wake));
    }
    assert s.owner == Nobody;
    forall i | 0 <= i < |s.workers|
      ensures s.workers[i].Blocked? || s.workers[i].Gone?
    {
      assert !Enabled(s, Work(i, wake));
      assert !HasMutex(s.workers[i]);
    }
  }

  // Tokens merge in bsem_jobs, and still no task is left behind: when a pool that is not shutting
  // down has come to rest, every task ever added has been run.
  lemma NoTaskStranded(n: nat, s: State)
    requires n > 0 && Reachable(n, s) && !s.stop && Quiescent(s)
    ensures s.queue == [] && s.done == multiset(s.added)
  {
    ReachableInv(n, s);
    QuiescentUnlocked(s);
    assert s.workers[0].Blocked?;
    assert !s.jobs;
    assert s.queue == [];
    assert s.added == s.taken;
    forall t
      ensures multiset(s.added)[t] == s.done[t]
    {
      TotalZero(s.workers, HoldsTask(t));
    }
  }

  // thpool_free can only come to rest by returning, for any number of workers.
  lemma ShutdownReturns(n: nat, s: State)
    requires Reachable(n, s) && s.stop && Quiescent(s)
    ensures s.main.Finished?
  {
    ReachableInv(n, s);
    QuiescentUnlocked(s);
  }

  // While thpool_free waits after reading workers_alive > 0, the exit token is there, or a worker that needs no
  // more tokens has still to post it, or the jobs token is there and a worker that will take it.  Before it posts
  // that token, some worker counts as alive or is about to post.
  lemma ExitTokenComes(n: nat, s: State)
    requires Reachable(n, s)
    ensures s.main.LockExit? || s.main.ExitBlocked? || s.main.ExitWoken? ==>
              || s.exit
              || (exists i | 0 <= i < |s.workers| :: Departing(s.workers[i]))
              || (s.jobs && exists i | 0 <= i < |s.workers| :: Taker(s.workers[i]))
    ensures s.main.PostAll? ==>
              s.exit || exists i | 0 <= i < |s.workers| :: Registered(s.workers[i]) || s.workers[i].PostExit?
  {
    ReachableInv(n, s);
  }

  // ---- No thread runs for ever --------------------------------------------------------------

  function Weight(w: Worker): nat {
    match w
    case Unstarted => 5
    case TestStop => 4
    case LockJobs => 2
    case Blocked => 0
    case Woken => 1
    case RetestStop => 8
    case LockQueue => 7
    case Rearm(_) => 16
    case Unlock(_) => 6
    case Running(_) => 5
    case Leaving => 3
    case PostExit => 2
    case Gone => 0
  }

  function LoopWeight(rounds: nat, n: nat): nat {
    if rounds == 0 then 3 else n + 13 + LoopWeight(rounds - 1, n)
  }

  function MainWeight(m: Main, n: nat): nat {
    match m
    case Idle => 0
    case AddLock(_) => 22
    case AddPost => 11
    case AddUnlock => 1
    case TestAlive(r) => LoopWeight(r, n)
    case PostAll(r) => LoopWeight(r, n) + n + 12
    case LockExit(r) => LoopWeight(r, n) + 3
    case ExitBlocked(r) => LoopWeight(r, n) + 1
    case ExitWoken(r) => LoopWeight(r, n) + 2
    case LockDestroy => 2
    case UnlockDestroy => 1
    case Finished => 0
  }

  // The work that is still in the pool.
  function Measure(s: State): nat {
    Total(s.workers, Weight) + (if s.jobs then 8 else 0) + 10 * |s.queue| + MainWeight(s.main, |s.workers|)
  }

  lemma SignalCost(ws: seq<Worker>, wake: nat)
    ensures |Signal(ws, wake)| == |ws| && Total(Signal(ws, wake), Weight) <= Total(ws, Weight) + 1
  {
    if wake < |ws| && ws[wake].Blocked? {
      TotalUpdate(ws, Weight, wake, Woken);
    }
  }

  lemma LoopWeightAtLeast(rounds: nat, n: nat)
    ensures LoopWeight(rounds, n) >= 3
  {
  }

  // What the semaphore and the queue weigh.
  function SharedWeight(s: State): nat {
    (if s.jobs then 8 else 0) + 10 * |s.queue|
  }

  // A worker pays for the token it posts and the worker it wakes; taking a token or a task pays back.
  lemma PointCost(s: State, i: nat, w: Worker)
    requires !w.Blocked? && !w.Gone?
    ensures Weight(NextPoint(s, w)) + SharedWeight(Effect(s, i, w)) + One(w.Rearm?) + One(w.PostExit?)
          < Weight(w) + SharedWeight(s)
    ensures MainWeight(Effect(s, i, w).main, |s.workers|) <= MainWeight(s.main, |s.workers|) + One(w.PostExit?)
  {
  }

  lemma WorkerStepCost(s: State, i: nat, wake: nat)
    requires Enabled(s, Work(i, wake))
    ensures Measure(WorkerStep(s, i, wake)) < Measure(s)
  {
    var w := s.workers[i];
    var ws := if w.Rearm? then Signal(s.workers, wake) else s.workers;
    SignalCost(s.workers, wake);
    assert ws[i] == w;
    TotalUpdate(ws, Weight, i, NextPoint(s, w));
    PointCost(s, i, w);
    assert SharedWeight(WorkerStep(s, i, wake)) == SharedWeight(Effect(s, i, w));
  }

  // What the main thread wakes and posts is covered by its own weight.
  lemma MainPointCost(s: State, wake: nat)
    requires Enabled(s, Boss(wake))
    ensures MainWeight(MainStep(s, wake).main, |s.workers|) + SharedWeight(MainStep(s, wake))
            + One(s.main.AddPost?) + (if s.main.PostAll? then |s.workers| else 0)
          < MainWeight(s.main, |s.workers|) + SharedWeight(s)
  {
    if InShutdownLoop(s.main) {
      LoopCost(s, wake);
    } else {
      CallsCost(s, wake);
    }
    hide MainStep, MainWeight, SharedWeight, Enabled;
  }

  lemma LoopCost(s: State, wake: nat)
    requires Enabled(s, Boss(wake)) && InShutdownLoop(s.main)
    ensures MainWeight(MainStep(s, wake).main, |s.workers|) + SharedWeight(MainStep(s, wake))
            + (if s.main.PostAll? then |s.workers| else 0)
          < MainWeight(s.main, |s.workers|) + SharedWeight(s)
  {
    if s.main.TestAlive? {
      LoopWeightAtLeast(s.main.rounds, |s.workers|);
    }
  }

  lemma CallsCost(s: State, wake: nat)
    requires Enabled(s, Boss(wake)) && !InShutdownLoop(s.main)
    ensures MainWeight(MainStep(s, wake).main, |s.workers|) + SharedWeight(MainStep(s, wake)) + One(s.main.AddPost?)
          < MainWeight(s.main, |s.workers|) + SharedWeight(s)
  {
  }

  lemma MainStepCost(s: State, wake: nat)
    requires Enabled(s, Boss(wake))
    ensures Measure(MainStep(s, wake)) < Measure(s)
  {
    MainPointCost(s, wake);
    SignalCost(s.workers, wake);
    BroadcastTotal(s.workers, Weight);
    BossOnlyWakes(s, wake);
    assert s.main.AddPost? || s.main.PostAll? || MainStep(s, wake).workers == s.workers;
  }

  function CallCost(step: Step, n: nat): nat {
    match step
    case Add(_) => 22
    case Free => LoopWeight(DEFAULT_NUM_WORKERS, n)
    case Spurious(_) => 1
    case SpuriousBoss => 1
    case _ => 0
  }

  predicate PoolStep(step: Step) {
    step.Work? || step.Boss?
  }

  lemma StepCost(s: State, step: Step)
    requires Enabled(s, step)
    ensures |Apply(s, step).workers| == |s.workers|
    ensures Measure(Apply(s, step)) + One(PoolStep(step)) <= Measure(s) + CallCost(step, |s.workers|)
  {
    match step
    case Work(i, wake) => WorkerStepCost(s, i, wake);
    case Boss(wake) =>
      MainStepCost(s, wake);
      BossOnlyWakes(s, wake);
    case Spurious(i) => TotalUpdate(s.workers, Weight, i, Woken);
    case _ =>
  }

  function PoolSteps(steps: seq<Step>): nat {
    if steps == [] then 0 else One(PoolStep(steps[0])) + PoolSteps(steps[1..])
  }

  function CallCosts(steps: seq<Step>, n: nat): nat {
    if steps == [] then 0 else CallCost(steps[0], n) + CallCosts(steps[1..], n)
  }

  // However the threads are scheduled, each call and each spurious wake-up pays for a bounded
  // number of steps: with finitely many of them the pool comes to rest.
  lemma {:induction false} RunsAreBounded(s: State, steps: seq<Step>)
    requires CanRun(s, steps)
    ensures PoolSteps(steps) + Measure(After(s, steps)) <= Measure(s) + CallCosts(steps, |s.workers|)
    decreases |steps|
  {
    if steps != [] {
      StepCost(s, steps[0]);
      RunsAreBounded(Apply(s, steps[0]), steps[1..]);
    }
  }

  lemma {:induction false} StopStays(s: State, steps: seq<Step>)
    requires s.stop
    ensures After(s, steps).stop
    decreases |steps|
  {
    if steps != [] {
      StopStays(Apply(s, steps[0]), steps[1..]);
    }
  }

  // thpool_free returns: once it has begun, no schedule goes on for longer than the work that is left and the
  // spurious wake-ups allow, and a run that comes to rest has brought it to its end.
  lemma ShutdownCompletes(n: nat, s: State, steps: seq<Step>)
    requires Reachable(n, s) && s.stop && CanRun(s, steps)
    ensures PoolSteps(steps) <= Measure(s) + CallCosts(steps, n)
    ensures Quiescent(After(s, steps)) ==> After(s, steps).main.Finished?
  {
    ReachableInv(n, s);
    RunsAreBounded(s, steps);
    StopStays(s, steps);
    var before :| CanRun(Initial(n), before) && After(Initial(n), before) == s;
    RunsCompose(Initial(n), before, steps);
    assert Reachable(n, After(s, steps));
    hide Quiescent, Measure, CallCosts, PoolSteps, Inv;
    if Quiescent(After(s, steps)) {
      ShutdownReturns(n, After(s, steps));
    }
  }

  // ---- What happens to the tasks that are waiting when thpool_free is called ----------------

  // About to dequeue.
  function OneIfDequeuing(w: Worker): nat {
    One(w.LockQueue?)
  }

  function Dequeuing(s: State): nat {
    Total(s.workers, OneIfDequeuing)
  }

  // Once worker_stop is set, a step takes at most the task of a worker that was about to dequeue, and no further
  // worker gets that far.
  lemma StoppedWork(s: State, i: nat, wake: nat)
    requires s.stop && Enabled(s, Work(i, wake))
    ensures |WorkerStep(s, i, wake).taken| + Dequeuing(WorkerStep(s, i, wake)) <= |s.taken| + Dequeuing(s)
  {
    WorkerTotal(s, i, wake, OneIfDequeuing);
    StoppedPoint(s, i, s.workers[i]);
    hide Effect, NextPoint, Total;
  }

  lemma StoppedPoint(s: State, i: nat, w: Worker)
    requires s.stop
    ensures |Effect(s, i, w).taken| + OneIfDequeuing(NextPoint(s, w)) <= |s.taken| + OneIfDequeuing(w)
  {
  }

  // What the record of a stopped pool keeps: tasks are neither added nor taken back.
  ghost predicate StoppedKeeps(s: State, s': State) {
    && s'.stop && s'.added == s.added && s.taken <= s'.taken
    && |s'.taken| + Dequeuing(s') <= |s.taken| + Dequeuing(s)
  }

  lemma StoppedStep(s: State, step: Step)
    requires s.stop && PhaseInv(s) && Enabled(s, step)
    ensures StoppedKeeps(s, Apply(s, step))
  {
    match step
    case Work(i, wake) =>
      StoppedWork(s, i, wake);
      WorkKeepsOrder(s, i, s.workers[i]);
      TakenGrows(s, i, s.workers[i]);
      WorkerShares(s, i, wake);
      hide Effect, NextPoint, Dequeuing, PhaseInv;
    case Boss(wake) =>
      MainTotal(s, wake, OneIfDequeuing);
      StoppedBoss(s, wake);
      hide MainStep, PhaseInv;
    case Spurious(i) => TotalUpdate(s.workers, OneIfDequeuing, i, Woken);
    case _ =>
  }

  lemma TakenGrows(s: State, i: nat, w: Worker)
    ensures s.taken <= Effect(s, i, w).taken
  {
  }

  lemma StoppedBoss(s: State, wake: nat)
    requires s.stop && PhaseInv(s)
    ensures MainStep(s, wake).stop && MainStep(s, wake).added == s.added && MainStep(s, wake).taken == s.taken
  {
  }

  lemma {:induction false} StoppedRun(s: State, steps: seq<Step>)
    requires s.stop && Inv(s) && CanRun(s, steps)
    ensures StoppedKeeps(s, After(s, steps))
    decreases |steps|
  {
    if steps != [] {
      InvKept(s, steps[0]);
      StoppedStep(s, steps[0]);
      hide Inv, Apply, Enabled, Dequeuing;
      StoppedRun(Apply(s, steps[0]), steps[1..]);
    }
  }

  // From the moment thpool_free has set worker_stop, no more tasks are taken than there were workers about to dequeue.
  lemma ShutdownTakesFew(n: nat, s: State, steps: seq<Step>)
    requires Reachable(n, s) && s.stop && CanRun(s, steps)
    ensures |After(s, steps).taken| <= |s.taken| + Dequeuing(s)
  {
    ReachableInv(n, s);
    StoppedRun(s, steps);
    hide Inv;
  }

  // Of the tasks that were waiting then, the first few are taken, in order, and thpool_free drops all the others.
  lemma ShutdownDropsTheRest(n: nat, s: State, steps: seq<Step>) returns (m: nat)
    requires Reachable(n, s) && s.stop && !s.destroyed && CanRun(s, steps) && After(s, steps).main.Finished?
    ensures m <= |s.queue| && m <= Dequeuing(s)
    ensures After(s, steps).taken == s.taken + s.queue[..m]
    ensures After(s, steps).dropped == s.queue[m..] && After(s, steps).queue == []
  {
    ReachableInv(n, s);
    StoppedRun(s, steps);
    RunKeepsInv(s, steps);
    var v := After(s, steps);
    Undropped(s);
    AllDropped(v);
    hide Inv, CanRun, After, Dequeuing, Reachable;
    m := |v.taken| - |s.taken|;
    SplitAt(s.taken, s.queue, v.taken, v.dropped);
  }

  lemma Undropped(s: State)
    requires Inv(s) && !s.destroyed
    ensures s.added == s.taken + s.queue
  {
    hide MutexInv, WakeupInv, NotStranded, PhaseInv, TokenInv, ExitComes, QuietAfterLoop;
  }

  lemma AllDropped(s: State)
    requires Inv(s) && s.main.Finished?
    ensures s.queue == [] && s.added == s.taken + s.dropped
  {
    hide MutexInv, WakeupInv, NotStranded, TokenInv, ExitComes, QuietAfterLoop;
  }

  lemma SplitAt(a: seq<Task>, b: seq<Task>, c: seq<Task>, d: seq<Task>)
    requires a + b == c + d && |a| <= |c|
    ensures |c| - |a| <= |b| && c == a + b[..|c| - |a|] && d == b[|c| - |a|..]
  {
    assert c == (a + b)[..|c|] && d == (a + b)[|c|..];
  }

  // ---- Nobody uses what thpool_free has freed -------------------------------------------------

  // The step dequeues, holds mutex_queue or runs a task.
  ghost predicate UsesQueueOrTask(s: State, step: Step) {
    step.Work? && step.i < |s.workers| && !Quiet(s.workers[step.i])
  }

  // Some worker's next step is to dequeue from the freed queue.
  ghost predicate UseAfterFree(s: State) {
    s.destroyed && s.owner == Nobody && exists i | 0 <= i < |s.workers| :: s.workers[i].LockQueue?
  }

  // With at most three workers no step after the shutdown loop touches the queue or runs a task,
  // workers that start late included.
  lemma SafeAfterLoop(n: nat, steps: seq<Step>, k: nat)
    requires n <= DEFAULT_NUM_WORKERS && CanRun(Initial(n), steps) && k < |steps|
    requires PastShutdownLoop(After(Initial(n), steps[..k]).main)
    ensures !UsesQueueOrTask(After(Initial(n), steps[..k]), steps[k])
  {
    assert steps == steps[..k] + steps[k..];
    RunsCompose(Initial(n), steps[..k], steps[k..]);
    InitialInv(n);
    RunKeepsInv(Initial(n), steps[..k]);
  }

  lemma Extend(base: State, s: State, step: Step)
    requires Reaches(base, s) && Enabled(s, step)
    ensures Reaches(base, Apply(s, step))
  {
    var steps :| CanRun(base, steps) && After(base, steps) == s;
    RunsCompose(base, steps, [step]);
    assert After(s, [step]) == Apply(s, step) by {
      assert [step][1..] == [];
    }
    assert CanRun(s, [step]) by {
      assert [step][1..] == [];
    }
  }

  lemma StartReaches(s: State)
    ensures Reaches(s, s)
  {
    assert CanRun(s, []) && After(s, []) == s;
  }

  // One round of the shutdown loop in which worker i, idle at the head of its loop, leaves.
  lemma ExitRound(base: State, s: State, i: nat) returns (s': State)
    requires Reaches(base, s) && s.main.TestAlive? && s.main.rounds > 0 && s.alive > 0 && s.stop && !s.exit
    requires i < |s.workers| && s.workers[i].TestStop? && forall k | 0 <= k < |s.workers| :: !s.workers[k].Blocked?
    ensures Reaches(base, s')
    ensures s' == s.(main := TestAlive(s.main.rounds - 1), jobs := true, alive := s.alive - 1,
                     workers := s.workers[i := Gone])
  {
    var r := s.main.rounds - 1;
    var ws := s.workers;
    assert Broadcast(ws) == ws;
    s' := FollowStep(base, s, Boss(0));
    assert s' == s.(main := PostAll(r));
    s' := FollowStep(base, s', Boss(0));
    assert s' == s.(main := LockExit(r), jobs := true);
    s' := WorkerExits(base, s', i);
    s' := FollowStep(base, s', Boss(0));
  }

  // A worker at the head of its loop leaves it, signs off and posts.
  lemma WorkerExits(base: State, s: State, i: nat) returns (s': State)
    requires Reaches(base, s) && s.main.LockExit? && s.stop && i < |s.workers| && s.workers[i].TestStop?
    ensures Reaches(base, s') && s' == s.(alive := s.alive - 1, exit := true, workers := s.workers[i := Gone])
  {
    var ws := s.workers;
    s' := FollowWork(base, s, i);
    s' := FollowWork(base, s', i);
    assert s' == s.(alive := s.alive - 1, workers := ws[i := Leaving][i := PostExit]);
    s' := FollowWork(base, s', i);
    assert ws[i := Leaving][i := PostExit][i := Gone] == ws[i := Gone];
  }

  lemma FollowStep(base: State, s: State, step: Step) returns (s': State)
    requires Reaches(base, s) && Enabled(s, step)
    ensures s' == Apply(s, step) && Reaches(base, s')
  {
    s' := Apply(s, step);
    Extend(base, s, step);
  }

  // Four workers register; worker 3 takes the token of a task and is about to dequeue it when
  // thpool_free is called.
  lemma BusyWorker(n: nat) returns (s: State)
    requires n > DEFAULT_NUM_WORKERS
    ensures Reachable(n, s)
    ensures s.main == TestAlive(DEFAULT_NUM_WORKERS) && s.stop && !s.exit && s.alive == 4 && s.owner == Nobody
    ensures |s.workers| == n
    ensures s.workers[0].TestStop? && s.workers[1].TestStop? && s.workers[2].TestStop? && s.workers[3].LockQueue?
    ensures forall k | 0 <= k < n :: !s.workers[k].Blocked?
  {
    s := TaskWaiting(n);
    s := RegisterWorker(n, s, 0);
    s := RegisterWorker(n, s, 1);
    s := RegisterWorker(n, s, 2);
    s := RegisterWorker(n, s, 3);
    s := TakeToken(n, s, 3);
    s := FollowStep(Initial(n), s, Free);
  }

  lemma TakeToken(n: nat, t: State, i: nat) returns (s: State)
    requires Reachable(n, t) && i < |t.workers| && t.workers[i].TestStop? && t.jobs && !t.stop
    ensures Reachable(n, s) && s == t.(jobs := false, workers := t.workers[i := LockQueue])
  {
    s := FollowWork(Initial(n), t, i);
    s := FollowWork(Initial(n), s, i);
    assert s == t.(jobs := false, workers := t.workers[i := LockJobs][i := RetestStop]);
    s := FollowWork(Initial(n), s, i);
    assert t.workers[i := LockJobs][i := RetestStop][i := LockQueue] == t.workers[i := LockQueue];
  }

  lemma FollowWork(base: State, s: State, i: nat) returns (s': State)
    requires Reaches(base, s) && Enabled(s, Work(i, 0)) && !s.workers[i].Rearm?
    ensures Reaches(base, s')
    ensures s' == Effect(s, i, s.workers[i]).(workers := s.workers[i := NextPoint(s, s.workers[i])])
  {
    hide Effect, NextPoint;
    s' := FollowStep(base, s, Work(i, 0));
  }

  // A task has been added, and no worker has started yet.
  lemma TaskWaiting(n: nat) returns (s: State)
    ensures Reachable(n, s) && s == Initial(n).(jobs := true, queue := [0], added := [0])
  {
    s := Initial(n);
    StartReaches(s);
    s := FollowStep(Initial(n), s, Add(0));
    s := FollowStep(Initial(n), s, Boss(0));
    assert s == Initial(n).(owner := MainThread, queue := [0], added := [0], main := AddPost);
    s := FollowStep(Initial(n), s, Boss(0));
    assert Signal(Initial(n).workers, 0) == Initial(n).workers;
    assert s == Initial(n).(owner := MainThread, jobs := true, queue := [0], added := [0], main := AddUnlock);
    s := FollowStep(Initial(n), s, Boss(0));
  }

  lemma RegisterWorker(n: nat, s: State, i: nat) returns (s': State)
    requires Reachable(n, s) && i < |s.workers| && s.workers[i].Unstarted?
    ensures Reachable(n, s') && s' == s.(alive := s.alive + 1, workers := s.workers[i := TestStop])
  {
    s' := FollowStep(Initial(n), s, Work(i, 0));
  }

  // With more than three workers there is an interleaving in which a worker dequeues from the
  // queue after thpool_free has freed it.
  lemma UnsafeWithMoreWorkers(n: nat) returns (s: State)
    requires n > DEFAULT_NUM_WORKERS
    ensures Reachable(n, s) && UseAfterFree(s)
  {
    s := BusyWorker(n);
    s := ExitRound(Initial(n), s, 0);
    s := ExitRound(Initial(n), s, 1);
    s := ExitRound(Initial(n), s, 2);
    s := Destroys(Initial(n), s);
    assert s.workers[3].LockQueue?;
  }

  // When the rounds are used up the main thread destroys the queue, whatever the workers are doing.
  lemma Destroys(base: State, s: State) returns (s': State)
    requires Reaches(base, s) && s.main == TestAlive(0) && s.owner == Nobody
    ensures Reaches(base, s') && s'.destroyed && s'.owner == Nobody && s'.workers == s.workers
  {
    s' := FollowStep(base, s, Boss(0));
    s' := FollowStep(base, s', Boss(0));
    s' := FollowStep(base, s', Boss(0));
  }

  // thpool_free never frees the queue under a worker exactly when the pool has at most
  // DEFAULT_NUM_WORKERS workers.
  lemma PoolSafeIff(n: nat)
    ensures (forall s | Reachable(n, s) :: !UseAfterFree(s)) <==> n <= 3
  {
    if n <= DEFAULT_NUM_WORKERS {
      forall s | Reachable(n, s)
        ensures !UseAfterFree(s)
      {
        ReachableInv(n, s);
      }
    } else {
      var s := UnsafeWithMoreWorkers(n);
    }
  }
}
