/**
 The resolver's worker pool as an interleaving of the main thread and N workers.

 Every critical section is one step, except the one under `mutex_queue`: a worker or the main
 thread keeps that mutex while it posts `bsem_jobs`, so the other threads may run in between.
 A condition variable is modelled by the threads blocked in it: a signal wakes one of them,
 a broadcast all of them, and any of them may wake up without a signal.
 */
module ThreadPool {
  import opened Wrappers

  const DEFAULT_NUM_WORKERS: nat := 3

  // What a (func, args) pair of a task is, the pool never looks at.
  type Task = nat

  // The program counter of a worker, with the task it holds.
  datatype Worker =
    | Unstarted                  // created, `workers_alive++` not yet done
    | TestStop                   // the guard of the worker's loop
    | LockJobs                   // about to lock inside bsem_wait(&bsem_jobs)
    | Blocked                    // inside pthread_cond_wait
    | Woken                      // woken in pthread_cond_wait, about to re-test `value`
    | RetestStop                 // past bsem_wait, about to test worker_stop again
    | LockQueue                  // about to lock mutex_queue and dequeue
    | Rearm(task: Task)          // tasks are left: about to post bsem_jobs, holding mutex_queue
    | Unlock(got: Option<Task>)  // about to release mutex_queue
    | Running(task: Task)
    | Leaving                    // out of the loop, about to do `workers_alive--`
    | PostExit                   // about to post bsem_exit
    | Gone

  // The program counter of the main thread.  `rounds` is the `wait` of thpool_free.
  datatype Main =
    | Idle
    | AddLock(task: Task)
    | AddPost                    // task enqueued, mutex_queue held, bsem_jobs not posted yet
    | AddUnlock
    | TestAlive(rounds: nat)
    | PostAll(rounds: nat)
    | LockExit(rounds: nat)
    | ExitBlocked(rounds: nat)
    | ExitWoken(rounds: nat)
    | LockDestroy                // the shutdown loop has been left
    | UnlockDestroy
    | Finished

  datatype Owner = Nobody | MainThread | WorkerThread(i: nat)

  // `added`, `taken`, `done` and `dropped` record what happened to every task.
  datatype State = State(
    workers: seq<Worker>,
    main: Main,
    jobs: bool,                  // bsem_jobs.value
    exit: bool,                  // bsem_exit.value
    stop: bool,                  // worker_stop
    alive: int,                  // workers_alive
    owner: Owner,                // who holds mutex_queue
    queue: seq<Task>,
    destroyed: bool,             // queue_destroy has freed the queue
    added: seq<Task>,
    taken: seq<Task>,
    dropped: seq<Task>,
    done: multiset<Task>)

  datatype Step =
    | Work(i: nat, wake: nat)    // worker i; a signal, if it gives one, wakes worker `wake`
    | Boss(wake: nat)            // the main thread
    | Add(task: Task)            // the program calls add_task
    | Free                       // the program calls thpool_free
    | Spurious(i: nat)           // worker i wakes up without a signal
    | SpuriousBoss

  function Initial(n: nat): State {
    State(seq(n, _ => Unstarted), Idle, false, false, false, 0, Nobody, [], false, [], [], [], multiset{})
  }

  ghost predicate SomeBlocked(ws: seq<Worker>) {
    exists i | 0 <= i < |ws| :: ws[i].Blocked?
  }

  // pthread_cond_signal wakes a blocked thread if there is one.
  ghost predicate WakeOk(ws: seq<Worker>, wake: nat) {
    SomeBlocked(ws) ==> wake < |ws| && ws[wake].Blocked?
  }

  function Signal(ws: seq<Worker>, wake: nat): seq<Worker> {
    if wake < |ws| && ws[wake].Blocked? then ws[wake := Woken] else ws
  }

  function Broadcast(ws: seq<Worker>): (r: seq<Worker>)
    ensures |r| == |ws|
  {
    seq(|ws|, i requires 0 <= i < |ws| => if ws[i].Blocked? then Woken else ws[i])
  }

  ghost predicate Enabled(s: State, step: Step) {
    match step
    case Work(i, wake) =>
      i < |s.workers| && (
        match s.workers[i]
        case Blocked => false
        case Gone => false
        case LockQueue => s.owner == Nobody
        case Rearm(_) => WakeOk(s.workers, wake)
        case _ => true)
    case Boss(wake) => (
      match s.main
      case Idle => false
      case Finished => false
      case ExitBlocked(_) => false
      case AddLock(_) => s.owner == Nobody
      case LockDestroy => s.owner == Nobody
      case AddPost => WakeOk(s.workers, wake)
      case _ => true)
    case Add(_) => s.main.Idle?
    case Free => s.main.Idle?
    case Spurious(i) => i < |s.workers| && s.workers[i].Blocked?
    case SpuriousBoss => s.main.ExitBlocked?
  }

  // Where a worker goes next.
  function NextPoint(s: State, w: Worker): Worker {
    match w
    case Unstarted => TestStop
    case TestStop => if s.stop then Leaving else LockJobs
    case LockJobs => if s.jobs then RetestStop else Blocked
    case Woken => if s.jobs then RetestStop else Blocked
    case RetestStop => if s.stop then Leaving else LockQueue
    case LockQueue =>
      if s.queue == [] then Unlock(None)
      else if |s.queue| > 1 then Rearm(s.queue[0])
      else Unlock(Some(s.queue[0]))
    case Rearm(t) => Unlock(Some(t))
    case Unlock(None) => TestStop
    case Unlock(Some(t)) => Running(t)
    case Running(t) => TestStop
    case Leaving => PostExit
    case PostExit => Gone
    case Blocked => Blocked
    case Gone => Gone
  }

  // What a step of worker i changes besides the workers.
  function Effect(s: State, i: nat, w: Worker): State {
    match w
    case Unstarted => s.(alive := s.alive + 1)
    case LockJobs => s.(jobs := false)
    case Woken => s.(jobs := false)
    case LockQueue =>
      if s.queue == [] then s.(owner := WorkerThread(i))
      else s.(owner := WorkerThread(i), queue := s.queue[1..], taken := s.taken + [s.queue[0]])
    case Rearm(_) => s.(jobs := true)
    case Unlock(_) => s.(owner := Nobody)
    case Running(t) => s.(done := s.done + multiset{t})
    case Leaving => s.(alive := s.alive - 1)
    case PostExit =>
      s.(exit := true, main := if s.main.ExitBlocked? then ExitWoken(s.main.rounds) else s.main)
    case _ => s
  }

  function WorkerStep(s: State, i: nat, wake: nat): State
    requires i < |s.workers|
  {
    var w := s.workers[i];
    var ws := if w.Rearm? then Signal(s.workers, wake) else s.workers;
    Effect(s, i, w).(workers := ws[i := NextPoint(s, w)])
  }

  function MainStep(s: State, wake: nat): State {
    match s.main
    case AddLock(t) =>
      s.(owner := MainThread, queue := s.queue + [t], added := s.added + [t], main := AddPost)
    case AddPost => s.(jobs := true, workers := Signal(s.workers, wake), main := AddUnlock)
    case AddUnlock => s.(owner := Nobody, main := Idle)
    case TestAlive(r) => s.(main := if s.alive == 0 || r == 0 then LockDestroy else PostAll(r - 1))
    case PostAll(r) => s.(jobs := true, workers := Broadcast(s.workers), main := LockExit(r))
    case LockExit(r) => TryTakeExit(s, r)
    case ExitWoken(r) => TryTakeExit(s, r)
    case LockDestroy =>
      s.(owner := MainThread, dropped := s.dropped + s.queue, queue := [], destroyed := true, main := UnlockDestroy)
    case UnlockDestroy => s.(owner := Nobody, main := Finished)
    case _ => s
  }

  function TryTakeExit(s: State, r: nat): State {
    if s.exit then s.(exit := false, main := TestAlive(r)) else s.(main := ExitBlocked(r))
  }

  function Apply(s: State, step: Step): State {
    match step
    case Work(i, wake) => if i < |s.workers| then WorkerStep(s, i, wake) else s
    case Boss(wake) => MainStep(s, wake)
    case Add(t) => s.(main := AddLock(t))
    case Free => s.(stop := true, main := TestAlive(DEFAULT_NUM_WORKERS))
    case Spurious(i) => if i < |s.workers| then s.(workers := s.workers[i := Woken]) else s
    case SpuriousBoss => if s.main.ExitBlocked? then s.(main := ExitWoken(s.main.rounds)) else s
  }

  // ---- Runs -------------------------------------------------------------------------------

  // The state after a sequence of steps.
  function After(s: State, steps: seq<Step>): State
    decreases |steps|
  {
    if steps == [] then s else After(Apply(s, steps[0]), steps[1..])
  }

  ghost predicate CanRun(s: State, steps: seq<Step>)
    decreases |steps|
  {
    steps == [] || (Enabled(s, steps[0]) && CanRun(Apply(s, steps[0]), steps[1..]))
  }

  lemma {:induction false} RunsCompose(s: State, p: seq<Step>, q: seq<Step>)
    ensures After(s, p + q) == After(After(s, p), q)
    ensures CanRun(s, p + q) <==> CanRun(s, p) && CanRun(After(s, p), q)
    decreases |p|
  {
    if p == [] {
      assert p + q == q;
    } else {
      assert (p + q)[1..] == p[1..] + q;
      RunsCompose(Apply(s, p[0]), p[1..], q);
    }
  }

  // ---- Sums over the workers --------------------------------------------------------------

  function Total(ws: seq<Worker>, weight: Worker -> nat): nat {
    if ws == [] then 0 else weight(ws[0]) + Total(ws[1..], weight)
  }

  lemma {:induction false} TotalUpdate(ws: seq<Worker>, weight: Worker -> nat, i: nat, w: Worker)
    requires i < |ws|
    ensures Total(ws[i := w], weight) + weight(ws[i]) == Total(ws, weight) + weight(w)
  {
    if i == 0 {
      assert ws[0 := w][1..] == ws[1..];
    } else {
      assert ws[i := w][1..] == ws[1..][i - 1 := w];
      TotalUpdate(ws[1..], weight, i - 1, w);
    }
  }

  // Is t a task that this worker has dequeued and not yet finished?
  predicate Holds(w: Worker, t: Task) {
    w == Rearm(t) || w == Unlock(Some(t)) || w == Running(t)
  }

  function HoldsTask(t: Task): Worker -> nat {
    w => if Holds(w, t) then 1 else 0
  }

  // How many workers hold task t.
  function Held(ws: seq<Worker>, t: Task): nat {
    Total(ws, HoldsTask(t))
  }

  // A weight that a blocked and a woken worker share is not changed by a wake-up.
  lemma {:induction false} BroadcastTotal(ws: seq<Worker>, weight: Worker -> nat)
    requires weight(Woken) <= weight(Blocked) + 1
    requires weight(Blocked) <= weight(Woken)
    ensures Total(ws, weight) <= Total(Broadcast(ws), weight) <= Total(ws, weight) + |ws|
    ensures weight(Woken) == weight(Blocked) ==> Total(Broadcast(ws), weight) == Total(ws, weight)
  {
    if ws != [] {
      assert Broadcast(ws)[1..] == Broadcast(ws[1..]);
      BroadcastTotal(ws[1..], weight);
    }
  }

  lemma {:induction false} TotalPointwise(ws: seq<Worker>, weight: Worker -> nat, bound: nat)
    requires forall i | 0 <= i < |ws| :: weight(ws[i]) <= bound
    ensures Total(ws, weight) <= bound * |ws|
    ensures bound == 1 && Total(ws, weight) == |ws| ==> forall i | 0 <= i < |ws| :: weight(ws[i]) == 1
  {
    if ws != [] {
      assert forall i | 0 <= i < |ws[1..]| :: ws[1..][i] == ws[i + 1];
      TotalPointwise(ws[1..], weight, bound);
      assert forall i | 1 <= i < |ws| :: ws[i] == ws[1..][i - 1];
    }
  }

  lemma {:induction false} TotalZero(ws: seq<Worker>, weight: Worker -> nat)
    ensures Total(ws, weight) == 0 <==> forall i | 0 <= i < |ws| :: weight(ws[i]) == 0
  {
    if ws != [] {
      TotalZero(ws[1..], weight);
      assert forall i | 1 <= i < |ws| :: ws[i] == ws[1..][i - 1];
      assert forall i | 0 <= i < |ws[1..]| :: ws[1..][i] == ws[i + 1];
    }
  }
}
