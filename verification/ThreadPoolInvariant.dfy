/** What every step of the worker pool keeps, whatever the number of workers and their interleaving. */
module ThreadPoolInvariant {
  import opened Wrappers
  import opened ThreadPool

  // ---- Groups of program points -----------------------------------------------------------

  // Counted in workers_alive.
  predicate Registered(w: Worker) {
    !w.Unstarted? && !w.PostExit? && !w.Gone?
  }

  // Has taken a jobs token, or a task it will hand the token on for, and has not given either up.
  predicate Carrier(w: Worker) {
    w.RetestStop? || w.LockQueue? || w.Rearm?
  }

  predicate HasMutex(w: Worker) {
    w.Rearm? || w.Unlock?
  }

  // Never needs bsem_jobs again once worker_stop is set, and still has to post bsem_exit.
  predicate Departing(w: Worker) {
    w.TestStop? || w.RetestStop? || w.LockQueue? || w.Rearm? || w.Unlock? || w.Running? || w.Leaving? || w.PostExit?
  }

  // Takes a jobs token if there is one.
  predicate Taker(w: Worker) {
    w.LockJobs? || w.Woken?
  }

  // Neither uses the queue nor runs a task, and never will once worker_stop is set.
  predicate Quiet(w: Worker) {
    w.Unstarted? || w.TestStop? || w.Leaving? || w.PostExit? || w.Gone?
  }

  function OneIfRegistered(w: Worker): nat {
    One(Registered(w))
  }

  function OneIfGone(w: Worker): nat {
    One(w.Gone?)
  }

  function AliveCount(ws: seq<Worker>): nat {
    Total(ws, OneIfRegistered)
  }

  function GoneCount(ws: seq<Worker>): nat {
    Total(ws, OneIfGone)
  }

  predicate MainHasMutex(m: Main) {
    m.AddPost? || m.AddUnlock? || m.UnlockDestroy?
  }

  predicate InShutdownLoop(m: Main) {
    m.TestAlive? || m.PostAll? || m.LockExit? || m.ExitBlocked? || m.ExitWoken?
  }

  predicate PastShutdownLoop(m: Main) {
    m.LockDestroy? || m.UnlockDestroy? || m.Finished?
  }

  // How many exit tokens thpool_free has taken.
  function TokensTaken(m: Main): int {
    match m
    case TestAlive(r) => DEFAULT_NUM_WORKERS - r
    case PostAll(r) => DEFAULT_NUM_WORKERS - 1 - r
    case LockExit(r) => DEFAULT_NUM_WORKERS - 1 - r
    case ExitBlocked(r) => DEFAULT_NUM_WORKERS - 1 - r
    case ExitWoken(r) => DEFAULT_NUM_WORKERS - 1 - r
    case _ => 0
  }

  // ---- The invariant ----------------------------------------------------------------------

  ghost predicate MutexInv(s: State) {
    && (forall i | 0 <= i < |s.workers| :: s.owner == WorkerThread(i) <==> HasMutex(s.workers[i]))
    && (s.owner == MainThread <==> MainHasMutex(s.main))
    && (s.owner.WorkerThread? ==> s.owner.i < |s.workers|)
  }

  // Nobody sleeps on a semaphore that is set, unless another sleeper has been woken for it.
  ghost predicate WakeupInv(s: State) {
    && (s.jobs && SomeBlocked(s.workers) ==> exists i | 0 <= i < |s.workers| :: s.workers[i].Woken?)
    && (s.main.ExitBlocked? ==> !s.exit)
  }

  // The token of a waiting task is in the semaphore or on its way back to it.
  ghost predicate NotStranded(s: State) {
    !s.stop && s.queue != [] ==>
      s.jobs || s.main.AddPost? || exists i | 0 <= i < |s.workers| :: Carrier(s.workers[i])
  }

  // Tasks leave the queue in the order they came, and none is lost or duplicated.
  ghost predicate HistoryInv(s: State) {
    && s.added == s.taken + s.queue + s.dropped
    && (forall t :: multiset(s.taken)[t] == Held(s.workers, t) + s.done[t])
    && (s.dropped != [] ==> s.destroyed)
    && (s.destroyed ==> s.queue == [])
  }

  ghost predicate PhaseInv(s: State) {
    && (s.stop <==> InShutdownLoop(s.main) || PastShutdownLoop(s.main))
    && (s.destroyed <==> s.main.UnlockDestroy? || s.main.Finished?)
    && (InShutdownLoop(s.main) ==> TokensTaken(s.main) >= 0)
    && (!s.stop ==> forall i | 0 <= i < |s.workers| ::
        !s.workers[i].Leaving? && !s.workers[i].PostExit? && !s.workers[i].Gone?)
  }

  // Each exit token is backed by a worker that is gone.
  ghost predicate TokenInv(s: State) {
    GoneCount(s.workers) >= TokensTaken(s.main) + One(s.exit)
  }

  // thpool_free never waits for an exit token that nobody will post.
  ghost predicate ExitComes(s: State) {
    && (s.main.PostAll? ==>
          s.exit || exists i | 0 <= i < |s.workers| :: Registered(s.workers[i]) || s.workers[i].PostExit?)
    && (s.main.LockExit? || s.main.ExitBlocked? || s.main.ExitWoken? ==>
          || s.exit
          || (exists i | 0 <= i < |s.workers| :: Departing(s.workers[i]))
          || (s.jobs && exists i | 0 <= i < |s.workers| :: Taker(s.workers[i])))
  }

  ghost predicate QuietAfterLoop(s: State) {
    PastShutdownLoop(s.main) && |s.workers| <= DEFAULT_NUM_WORKERS ==>
      forall i | 0 <= i < |s.workers| :: Quiet(s.workers[i])
  }

  ghost predicate Inv(s: State) {
    && s.alive == AliveCount(s.workers)
    && MutexInv(s)
    && WakeupInv(s)
    && NotStranded(s)
    && HistoryInv(s)
    && PhaseInv(s)
    && TokenInv(s)
    && ExitComes(s)
    && QuietAfterLoop(s)
  }

  lemma InitialInv(n: nat)
    ensures Inv(Initial(n))
  {
    var ws := Initial(n).workers;
    TotalZero(ws, OneIfRegistered);
    forall t {
      TotalZero(ws, HoldsTask(t));
    }
  }

  // ---- Each part is kept by each step -----------------------------------------------------

  lemma SignalTotal(ws: seq<Worker>, wake: nat, weight: Worker -> nat)
    requires weight(Woken) == weight(Blocked)
    ensures Total(Signal(ws, wake), weight) == Total(ws, weight)
  {
    if wake < |ws| && ws[wake].Blocked? {
      TotalUpdate(ws, weight, wake, Woken);
    }
  }

  // The worker's own program counter changes the sums; waking another worker does not.
  lemma WorkerTotal(s: State, i: nat, wake: nat, weight: Worker -> nat)
    requires i < |s.workers|
    requires weight(Woken) == weight(Blocked)
    ensures Total(WorkerStep(s, i, wake).workers, weight) + weight(s.workers[i])
         == Total(s.workers, weight) + weight(NextPoint(s, s.workers[i]))
  {
    var w := s.workers[i];
    var ws := if w.Rearm? then Signal(s.workers, wake) else s.workers;
    SignalTotal(s.workers, wake, weight);
    TotalUpdate(ws, weight, i, NextPoint(s, w));
    assert ws[i] == w;
  }

  lemma MainTotal(s: State, wake: nat, weight: Worker -> nat)
    requires weight(Woken) == weight(Blocked)
    ensures Total(MainStep(s, wake).workers, weight) == Total(s.workers, weight)
  {
    SignalTotal(s.workers, wake, weight);
    BroadcastTotal(s.workers, weight);
  }

  lemma AliveWork(s: State, i: nat, w: Worker)
    ensures Effect(s, i, w).alive + OneIfRegistered(w) == s.alive + OneIfRegistered(NextPoint(s, w))
  {
  }

  lemma AliveKept(s: State, step: Step)
    requires s.alive == AliveCount(s.workers) && Enabled(s, step)
    ensures Apply(s, step).alive == AliveCount(Apply(s, step).workers)
  {
    match step
    case Work(i, wake) =>
      WorkerTotal(s, i, wake, OneIfRegistered);
      AliveWork(s, i, s.workers[i]);
      hide Effect, NextPoint;
    case Boss(wake) => MainTotal(s, wake, OneIfRegistered);
    case Spurious(i) => TotalUpdate(s.workers, OneIfRegistered, i, Woken);
    case _ =>
  }

  // Every other worker stays where it is, but a blocked one may be woken.
  lemma OthersStay(s: State, i: nat, wake: nat)
    requires i < |s.workers|
    ensures var ws := WorkerStep(s, i, wake).workers;
            && |ws| == |s.workers|
            && ws[i] == NextPoint(s, s.workers[i])
            && forall j | 0 <= j < |ws| && j != i ::
                 ws[j] == s.workers[j] || (s.workers[j].Blocked? && ws[j].Woken? && j == wake && s.workers[i].Rearm?)
  {
  }

  // What a worker's step does to the state it shares.
  ghost predicate SharedByWorker(s: State, i: nat, w: Worker, s': State) {
    && s'.stop == s.stop && s'.destroyed == s.destroyed
    && (s'.main == s.main || (w.PostExit? && s.main.ExitBlocked? && s'.main == ExitWoken(s.main.rounds)))
    && s'.owner == (if w.LockQueue? then WorkerThread(i) else if w.Unlock? then Nobody else s.owner)
    && s'.exit == (s.exit || w.PostExit?)
  }

  lemma WorkerShares(s: State, i: nat, wake: nat)
    requires i < |s.workers|
    ensures SharedByWorker(s, i, s.workers[i], WorkerStep(s, i, wake))
  {
    hide Effect, NextPoint, Signal;
    EffectShares(s, i, s.workers[i]);
  }

  lemma EffectShares(s: State, i: nat, w: Worker)
    ensures SharedByWorker(s, i, w, Effect(s, i, w))
  {
  }

  lemma NextHasMutex(s: State, w: Worker)
    ensures HasMutex(NextPoint(s, w)) <==> w.LockQueue? || w.Rearm?
  {
  }

  lemma MutexWork(s: State, i: nat, wake: nat)
    requires MutexInv(s) && Enabled(s, Work(i, wake))
    ensures MutexInv(WorkerStep(s, i, wake))
  {
    var w, s' := s.workers[i], WorkerStep(s, i, wake);
    hide WorkerStep, NextPoint;
    OthersStay(s, i, wake);
    WorkerShares(s, i, wake);
    NextHasMutex(s, w);
    assert w.LockQueue? ==> s.owner == Nobody;
    hide Enabled;
    forall j | 0 <= j < |s'.workers|
      ensures s'.owner == WorkerThread(j) <==> HasMutex(s'.workers[j])
    {
      assert s.owner == WorkerThread(j) <==> HasMutex(s.workers[j]);
      if j != i {
        assert HasMutex(s'.workers[j]) <==> HasMutex(s.workers[j]);
      }
    }
  }

  // The main thread may only wake workers.
  lemma BossOnlyWakes(s: State, wake: nat)
    ensures var ws := MainStep(s, wake).workers;
            && |ws| == |s.workers|
            && forall j | 0 <= j < |ws| :: ws[j] == s.workers[j] || (s.workers[j].Blocked? && ws[j].Woken?)
  {
    if s.main.AddPost? || s.main.PostAll? {
    } else {
      assert MainStep(s, wake).workers == s.workers;
      hide MainStep;
    }
  }

  // What a step of the main thread does to the mutex.
  lemma BossOwns(s: State, wake: nat)
    requires Enabled(s, Boss(wake))
    ensures MainStep(s, wake).owner ==
            if s.main.AddLock? || s.main.LockDestroy? then MainThread
            else if s.main.AddUnlock? || s.main.UnlockDestroy? then Nobody
            else s.owner
    ensures MainHasMutex(MainStep(s, wake).main) <==> s.main.AddLock? || s.main.AddPost? || s.main.LockDestroy?
    ensures s.main.AddLock? || s.main.LockDestroy? ==> s.owner == Nobody
  {
  }

  lemma MutexBoss(s: State, wake: nat)
    requires MutexInv(s) && Enabled(s, Boss(wake))
    ensures MutexInv(MainStep(s, wake))
  {
    var s' := MainStep(s, wake);
    BossOnlyWakes(s, wake);
    BossOwns(s, wake);
    hide MainStep, Enabled;
    forall j | 0 <= j < |s'.workers|
      ensures s'.owner == WorkerThread(j) <==> HasMutex(s'.workers[j])
    {
      assert HasMutex(s'.workers[j]) <==> HasMutex(s.workers[j]);
      assert s.owner == WorkerThread(j) <==> HasMutex(s.workers[j]);
    }
  }

  lemma MutexKept(s: State, step: Step)
    requires MutexInv(s) && Enabled(s, step)
    ensures MutexInv(Apply(s, step))
  {
    match step
    case Work(i, wake) => MutexWork(s, i, wake);
    case Boss(wake) => MutexBoss(s, wake);
    case Spurious(i) =>
      forall j | 0 <= j < |s.workers|
        ensures s.owner == WorkerThread(j) <==> HasMutex(s.workers[i := Woken][j])
      {
      }
    case _ =>
  }

  lemma WakeupWork(s: State, i: nat, wake: nat)
    requires WakeupInv(s) && Enabled(s, Work(i, wake))
    ensures WakeupInv(WorkerStep(s, i, wake))
  {
    var s' := WorkerStep(s, i, wake);
    OthersStay(s, i, wake);
    if s'.jobs && SomeBlocked(s'.workers) {
      var b :| 0 <= b < |s'.workers| && s'.workers[b].Blocked?;
      assert s.workers[b].Blocked?;
      if s.workers[i].Rearm? {
        assert s'.workers[wake].Woken?;
      } else {
        var k :| 0 <= k < |s.workers| && s.workers[k].Woken?;
        assert s'.workers[k].Woken?;
      }
    }
  }

  lemma WakeupBoss(s: State, wake: nat)
    requires WakeupInv(s) && Enabled(s, Boss(wake))
    ensures WakeupInv(MainStep(s, wake))
  {
    var s' := MainStep(s, wake);
    BossOnlyWakes(s, wake);
    if s'.jobs && SomeBlocked(s'.workers) {
      var b :| 0 <= b < |s'.workers| && s'.workers[b].Blocked?;
      assert s.workers[b].Blocked? && !s.main.PostAll?;
      if s.main.AddPost? {
        assert s'.workers[wake].Woken?;
      } else {
        var k :| 0 <= k < |s.workers| && s.workers[k].Woken?;
        assert s'.workers[k].Woken?;
      }
    }
  }

  lemma WakeupKept(s: State, step: Step)
    requires WakeupInv(s) && Enabled(s, step)
    ensures WakeupInv(Apply(s, step))
  {
    match step
    case Work(i, wake) => WakeupWork(s, i, wake);
    case Boss(wake) => WakeupBoss(s, wake);
    case Spurious(i) => assert Apply(s, step).workers[i].Woken?;
    case _ =>
  }

  lemma NotStrandedWork(s: State, i: nat, wake: nat)
    requires NotStranded(s) && Enabled(s, Work(i, wake))
    ensures NotStranded(WorkerStep(s, i, wake))
  {
    var s' := WorkerStep(s, i, wake);
    if !s'.stop && s'.queue != [] && !s'.jobs && !s'.main.AddPost? {
      OthersStay(s, i, wake);
      assert !s.stop && s.queue != [];
      if s.jobs || Carrier(s.workers[i]) {
        assert Carrier(s'.workers[i]);
      } else {
        var k :| 0 <= k < |s.workers| && Carrier(s.workers[k]);
        assert Carrier(s'.workers[k]);
      }
    }
  }

  lemma NotStrandedBoss(s: State, wake: nat)
    requires NotStranded(s) && Enabled(s, Boss(wake))
    ensures NotStranded(MainStep(s, wake))
  {
    var s' := MainStep(s, wake);
    if !s'.stop && s'.queue != [] && !s'.jobs && !s'.main.AddPost? {
      BossOnlyWakes(s, wake);
      var k :| 0 <= k < |s.workers| && Carrier(s.workers[k]);
      assert Carrier(s'.workers[k]);
    }
  }

  lemma NotStrandedKept(s: State, step: Step)
    requires NotStranded(s) && Enabled(s, step)
    ensures NotStranded(Apply(s, step))
  {
    match step
    case Work(i, wake) => NotStrandedWork(s, i, wake);
    case Boss(wake) => NotStrandedBoss(s, wake);
    case Spurious(i) =>
      var s' := Apply(s, step);
      if !s'.stop && s'.queue != [] && !s'.jobs && !s'.main.AddPost? {
        var k :| 0 <= k < |s.workers| && Carrier(s.workers[k]);
        assert Carrier(s'.workers[k]);
      }
    case _ =>
  }

  lemma DequeueMoves(s: State, i: nat, t: Task)
    requires s.queue != []
    ensures multiset(Effect(s, i, LockQueue).taken)[t] == multiset(s.taken)[t] + HoldsTask(t)(NextPoint(s, LockQueue))
    ensures Effect(s, i, LockQueue).done == s.done
  {
    var q := s.queue[0];
    assert Effect(s, i, LockQueue).taken == s.taken + [q];
    assert Holds(NextPoint(s, LockQueue), t) <==> q == t;
    hide Effect, NextPoint;
    assert multiset(s.taken + [q])[t] == multiset(s.taken)[t] + if q == t then 1 else 0;
  }

  // A dequeue moves one occurrence of a task to the worker, a finished run moves it to `done`.
  lemma TasksMove(s: State, i: nat, w: Worker, t: Task)
    ensures multiset(Effect(s, i, w).taken)[t] + s.done[t] + HoldsTask(t)(w)
         == multiset(s.taken)[t] + Effect(s, i, w).done[t] + HoldsTask(t)(NextPoint(s, w))
  {
    var e := Effect(s, i, w);
    if w.LockQueue? && s.queue != [] {
      DequeueMoves(s, i, t);
    } else if w.Running? {
      assert e.taken == s.taken && e.done == s.done + multiset{w.task};
      hide Effect;
    } else {
      assert e.taken == s.taken && e.done == s.done;
      hide Effect;
    }
  }

  lemma TasksKept(s: State, step: Step, t: Task)
    requires multiset(s.taken)[t] == Held(s.workers, t) + s.done[t] && Enabled(s, step)
    ensures var s' := Apply(s, step);
            multiset(s'.taken)[t] == Held(s'.workers, t) + s'.done[t]
  {
    match step
    case Work(i, wake) =>
      WorkerTotal(s, i, wake, HoldsTask(t));
      TasksMove(s, i, s.workers[i], t);
    case Boss(wake) => MainTotal(s, wake, HoldsTask(t));
    case Spurious(i) => TotalUpdate(s.workers, HoldsTask(t), i, Woken);
    case _ =>
  }

  lemma WorkKeepsOrder(s: State, i: nat, w: Worker)
    ensures Effect(s, i, w).taken + Effect(s, i, w).queue == s.taken + s.queue
    ensures Effect(s, i, w).added == s.added && Effect(s, i, w).dropped == s.dropped
    ensures Effect(s, i, w).destroyed == s.destroyed
    ensures s.queue == [] ==> Effect(s, i, w).queue == []
  {
    if w.LockQueue? && s.queue != [] {
      assert s.taken + [s.queue[0]] + s.queue[1..] == s.taken + s.queue;
    }
  }

  lemma OrderKept(s: State, step: Step)
    requires s.added == s.taken + s.queue + s.dropped && (s.dropped != [] ==> s.destroyed)
    requires (s.destroyed ==> s.queue == []) && PhaseInv(s) && Enabled(s, step)
    ensures var s' := Apply(s, step);
            && s'.added == s'.taken + s'.queue + s'.dropped && (s'.dropped != [] ==> s'.destroyed)
            && (s'.destroyed ==> s'.queue == [])
  {
    if step.Work? {
      WorkKeepsOrder(s, step.i, s.workers[step.i]);
      hide Effect, NextPoint, Enabled;
    } else if step.Boss? && s.main.AddLock? {
      assert s.taken + s.queue + [s.main.task] == s.taken + (s.queue + [s.main.task]);
    } else if step.Boss? && s.main.LockDestroy? {
      assert s.dropped == [];
    }
  }

  lemma HistoryKept(s: State, step: Step)
    requires HistoryInv(s) && PhaseInv(s) && Enabled(s, step)
    ensures HistoryInv(Apply(s, step))
  {
    OrderKept(s, step);
    forall t {
      TasksKept(s, step, t);
    }
  }

  lemma PhaseWork(s: State, i: nat, wake: nat)
    requires PhaseInv(s) && Enabled(s, Work(i, wake))
    ensures PhaseInv(WorkerStep(s, i, wake))
  {
    OthersStay(s, i, wake);
    WorkerShares(s, i, wake);
    var w := s.workers[i];
    assert !s.stop ==> !NextPoint(s, w).Leaving? && !NextPoint(s, w).PostExit? && !NextPoint(s, w).Gone?;
    hide WorkerStep, NextPoint, Enabled;
  }

  lemma PhaseBoss(s: State, wake: nat)
    requires PhaseInv(s) && Enabled(s, Boss(wake))
    ensures PhaseInv(MainStep(s, wake))
  {
    BossOnlyWakes(s, wake);
    hide Signal, Broadcast;
  }

  lemma PhaseKept(s: State, step: Step)
    requires PhaseInv(s) && Enabled(s, step)
    ensures PhaseInv(Apply(s, step))
  {
    match step
    case Work(i, wake) => PhaseWork(s, i, wake);
    case Boss(wake) => PhaseBoss(s, wake);
    case _ =>
  }

  lemma TokenWork(s: State, i: nat, wake: nat)
    requires TokenInv(s) && Enabled(s, Work(i, wake))
    ensures TokenInv(WorkerStep(s, i, wake))
  {
    WorkerTotal(s, i, wake, OneIfGone);
    WorkerShares(s, i, wake);
    var w := s.workers[i];
    assert OneIfGone(NextPoint(s, w)) == One(w.PostExit?) && !w.Gone?;
    hide WorkerStep, NextPoint, Enabled;
  }

  // The main thread takes a token for each one it counts.
  lemma TokenMain(s: State, wake: nat)
    requires PhaseInv(s) && Enabled(s, Boss(wake))
    ensures TokensTaken(MainStep(s, wake).main) + One(MainStep(s, wake).exit) <= TokensTaken(s.main) + One(s.exit)
  {
  }

  lemma TokenBoss(s: State, wake: nat)
    requires TokenInv(s) && PhaseInv(s) && Enabled(s, Boss(wake))
    ensures TokenInv(MainStep(s, wake))
  {
    MainTotal(s, wake, OneIfGone);
    TokenMain(s, wake);
    hide MainStep, Enabled, PhaseInv, TokensTaken;
  }

  lemma TokenKept(s: State, step: Step)
    requires TokenInv(s) && PhaseInv(s) && Enabled(s, step)
    ensures TokenInv(Apply(s, step))
  {
    match step
    case Work(i, wake) => TokenWork(s, i, wake);
    case Boss(wake) => TokenBoss(s, wake);
    case Spurious(i) => TotalUpdate(s.workers, OneIfGone, i, Woken);
    case _ =>
  }

  lemma ExitComesWork(s: State, i: nat, wake: nat)
    requires ExitComes(s) && PhaseInv(s) && Enabled(s, Work(i, wake))
    ensures ExitComes(WorkerStep(s, i, wake))
  {
    var s' := WorkerStep(s, i, wake);
    OthersStay(s, i, wake);
    WorkerShares(s, i, wake);
    if s'.main.PostAll? && !s'.exit {
      var k :| 0 <= k < |s.workers| && (Registered(s.workers[k]) || s.workers[k].PostExit?);
      assert Registered(s'.workers[k]) || s'.workers[k].PostExit?;
    }
    if (s'.main.LockExit? || s'.main.ExitBlocked? || s'.main.ExitWoken?) && !s'.exit {
      assert s.main == s'.main && s.stop;
      if k :| 0 <= k < |s.workers| && Departing(s.workers[k]) {
        assert Departing(s'.workers[k]);
      } else {
        var k :| 0 <= k < |s.workers| && Taker(s.workers[k]);
        if Taker(s.workers[i]) {
          assert Departing(s'.workers[i]);
        } else {
          assert Taker(s'.workers[k]);
        }
      }
    }
  }

  lemma ExitComesBoss(s: State, wake: nat)
    requires ExitComes(s) && PhaseInv(s) && s.alive == AliveCount(s.workers)
    ensures ExitComes(MainStep(s, wake))
  {
    var s' := MainStep(s, wake);
    BossOnlyWakes(s, wake);
    if s'.main.PostAll? {
      TotalZero(s.workers, OneIfRegistered);
      var k :| 0 <= k < |s.workers| && OneIfRegistered(s.workers[k]) != 0;
      assert Registered(s'.workers[k]);
    } else if s.main.PostAll? && !s'.exit {
      var k :| 0 <= k < |s.workers| && (Registered(s.workers[k]) || s.workers[k].PostExit?);
      assert Departing(s'.workers[k]) || Taker(s'.workers[k]);
    }
  }

  lemma ExitComesKept(s: State, step: Step)
    requires ExitComes(s) && PhaseInv(s) && s.alive == AliveCount(s.workers) && Enabled(s, step)
    ensures ExitComes(Apply(s, step))
  {
    match step
    case Work(i, wake) => ExitComesWork(s, i, wake);
    case Boss(wake) => ExitComesBoss(s, wake);
    case Spurious(i) =>
      var s' := Apply(s, step);
      forall k | 0 <= k < |s.workers|
        ensures Registered(s.workers[k]) ==> Registered(s'.workers[k])
        ensures Departing(s.workers[k]) ==> Departing(s'.workers[k])
        ensures (Taker(s.workers[k]) ==> Taker(s'.workers[k])) && (s.workers[k].PostExit? ==> s'.workers[k].PostExit?)
      {
      }
    case _ =>
  }

  // Leaving the shutdown loop: either every registered worker is on its way out, or three are gone.
  // The loop is left when no worker is alive, or when each of the three rounds has seen one go.
  lemma NobodyLeft(s: State)
    requires TokenInv(s) && s.alive == AliveCount(s.workers) && |s.workers| <= DEFAULT_NUM_WORKERS
    requires s.main.TestAlive? && (s.alive == 0 || s.main.rounds == 0)
    ensures forall k | 0 <= k < |s.workers| :: Quiet(s.workers[k])
  {
    if s.alive == 0 {
      TotalZero(s.workers, OneIfRegistered);
    } else {
      TotalPointwise(s.workers, OneIfGone, 1);
    }
    hide Total;
    assert forall k | 0 <= k < |s.workers| :: OneIfRegistered(s.workers[k]) == 0 || OneIfGone(s.workers[k]) == 1;
  }

  lemma QuietBoss(s: State, wake: nat)
    requires QuietAfterLoop(s) && TokenInv(s) && PhaseInv(s) && s.alive == AliveCount(s.workers)
    ensures QuietAfterLoop(MainStep(s, wake))
  {
    var s' := MainStep(s, wake);
    BossOnlyWakes(s, wake);
    if PastShutdownLoop(s'.main) && |s.workers| <= DEFAULT_NUM_WORKERS {
      if s.main.TestAlive? {
        NobodyLeft(s);
      }
      assert forall k | 0 <= k < |s.workers| :: Quiet(s.workers[k]);
    }
  }

  lemma QuietKept(s: State, step: Step)
    requires QuietAfterLoop(s) && TokenInv(s) && PhaseInv(s) && s.alive == AliveCount(s.workers) && Enabled(s, step)
    ensures QuietAfterLoop(Apply(s, step))
  {
    match step
    case Work(i, wake) =>
      OthersStay(s, i, wake);
      if PastShutdownLoop(s.main) && |s.workers| <= DEFAULT_NUM_WORKERS {
        assert Quiet(s.workers[i]);
      }
    case Boss(wake) => QuietBoss(s, wake);
    case _ =>
  }

  // Every step of every thread keeps the whole invariant.
  lemma InvKept(s: State, step: Step)
    requires Inv(s) && Enabled(s, step)
    ensures Inv(Apply(s, step))
  {
    AliveKept(s, step);
    MutexKept(s, step);
    WakeupKept(s, step);
    NotStrandedKept(s, step);
    HistoryKept(s, step);
    PhaseKept(s, step);
    TokenKept(s, step);
    ExitComesKept(s, step);
    QuietKept(s, step);
  }
}
