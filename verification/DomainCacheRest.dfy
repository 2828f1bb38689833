/** What the cache knows when its workers rest: every host of the ring, but for those whose task was refused. */
module DomainCacheRest {
  import opened Wrappers
  import opened LoadFactor
  import opened DomainCache
  import opened DomainCacheProgress

  ghost predicate HasTask(s: State, k: nat) {
    k in s.pending || exists i :: 0 <= i < |s.workers| && Holds(s.workers[i], k)
  }

  // A host that is marked as resolving, although nobody will resolve it.
  ghost predicate Lost(s: State, k: nat) {
    BeingResolved(s, k) && !HasTask(s, k)
  }

  // Some step of the run has marked host k as resolving and found no memory for its task.
  ghost predicate Refused(env: Env, s: State, steps: seq<Step>, k: nat)
    requires CanRun(env, s, steps)
    decreases |steps|
  {
    steps != [] &&
    ((steps[0] == Queue(false) && s.index == k) || Refused(env, Apply(env, s, steps[0]), steps[1..], k))
  }

  // No worker has anything left to do.
  ghost predicate AtRest(env: Env, s: State) {
    forall step | ByWorker(step) :: !Enabled(env, s, step)
  }

  // ---- One step -------------------------------------------------------------------------------------------

  // A task moves from the queue to a worker and stays there until the host is resolved.
  lemma WorkerKeepsTasks(env: Env, s: State, step: Step, k: nat)
    requires Inv(env, s) && Enabled(env, s, step) && ByWorker(step) && !step.Publish?
    ensures HasTask(Apply(env, s, step), k) <==> HasTask(s, k)
    ensures BeingResolved(Apply(env, s, step), k) <==> BeingResolved(s, k)
  {
    hide IndexInv, NameInv, MainInv, BucketInv;
    var s' := Apply(env, s, step);
    if !step.Take? {
      assert BeingResolved(s, s.workers[step.i].slot);
    } else {
      assert s.pending == [s.pending[0]] + s'.pending;
    }
    forall i | 0 <= i < |s.workers| && i != step.i
      ensures s'.workers[i] == s.workers[i]
    {
    }
    if step.Take? && k == s.pending[0] {
      assert Holds(s'.workers[step.i], k);
    } else if Holds(s.workers[step.i], k) {
      assert Holds(s'.workers[step.i], k);
    }
  }

  lemma PublishEndsTask(env: Env, s: State, i: nat, k: nat)
    requires Inv(env, s) && Enabled(env, s, Publish(i))
    ensures Lost(Apply(env, s, Publish(i)), k) <==> Lost(s, k)
  {
    hide IndexInv, NameInv, MainInv, BucketInv;
    var s' := Apply(env, s, Publish(i));
    var m := s.workers[i].slot;
    assert BeingResolved(s, m) && Holds(s.workers[i], m);
    if k != m {
      assert forall j | 0 <= j < |s.workers| :: Holds(s'.workers[j], k) <==> Holds(s.workers[j], k);
    }
  }

  lemma QueueLoses(env: Env, s: State, hasMemory: bool, k: nat)
    requires Inv(env, s) && Enabled(env, s, Queue(hasMemory))
    ensures Lost(Apply(env, s, Queue(hasMemory)), k) <==> Lost(s, k) || (!hasMemory && s.index == k)
  {
    hide IndexInv, NameInv, BucketInv;
    assert forall p | 0 <= p < |s.pending| :: BeingResolved(s, s.pending[p]);
    assert !BeingResolved(s, s.index) && !HasTask(s, s.index);
  }

  lemma MainKeepsTasks(env: Env, s: State, step: Step, k: nat)
    requires Inv(env, s) && Enabled(env, s, step) && !ByWorker(step) && !step.Queue?
    ensures Lost(Apply(env, s, step), k) <==> Lost(s, k)
  {
    hide Inv, Rehashed, TooFull, TooEmpty;
    var s' := Apply(env, s, step);
    assert s'.workers == s.workers && s'.pending == s.pending;
    assert HasTask(s', k) <==> HasTask(s, k);
    assert BeingResolved(s', k) <==> BeingResolved(s, k);
  }

  // A host is lost when its task is refused, and then for good; nothing else loses one.
  lemma StepLoses(env: Env, s: State, step: Step, k: nat)
    requires Inv(env, s) && Enabled(env, s, step)
    ensures Lost(Apply(env, s, step), k) <==> Lost(s, k) || (step == Queue(false) && s.index == k)
  {
    hide Inv, Enabled, Apply;
    if step.Queue? {
      QueueLoses(env, s, step.hasMemory, k);
    } else if !ByWorker(step) {
      MainKeepsTasks(env, s, step, k);
    } else if step.Publish? {
      PublishEndsTask(env, s, step.i, k);
    } else {
      WorkerKeepsTasks(env, s, step, k);
    }
  }

  // ---- Runs -----------------------------------------------------------------------------------------------

  // Over any run, the lost hosts are those that had been lost before and those whose task was refused.
  lemma {:induction false} LostIffRefused(env: Env, s: State, steps: seq<Step>, k: nat)
    requires Inv(env, s) && CanRun(env, s, steps)
    ensures Inv(env, After(env, s, steps)) && |After(env, s, steps).workers| == |s.workers|
    ensures Lost(After(env, s, steps), k) <==> Lost(s, k) || Refused(env, s, steps, k)
    decreases |steps|
  {
    hide Inv, Enabled, Lost, Apply;
    if steps != [] {
      InvKept(env, s, steps[0]);
      StepLoses(env, s, steps[0], k);
      SameWorkers(env, s, steps[0]);
      LostIffRefused(env, Apply(env, s, steps[0]), steps[1..], k);
    }
  }

  lemma SameWorkers(env: Env, s: State, step: Step)
    requires Enabled(env, s, step)
    ensures |Apply(env, s, step).workers| == |s.workers|
  {
  }

  // A worker with a task can always go on with it.
  lemma BusyGoesOn(env: Env, s: State, i: nat) returns (step: Step)
    requires Inv(env, s) && i < |s.workers| && !s.workers[i].Waiting?
    ensures ByWorker(step) && Enabled(env, s, step)
  {
    assert BeingResolved(s, s.workers[i].slot);
    step := match s.workers[i]
      case Waiting => Take(i)
      case Started(_) => ReadAddr(i)
      case Writing(_, _) => WriteName(i)
      case Publishing(_) => Publish(i);
  }

  lemma RestHasNoTask(env: Env, s: State, k: nat)
    requires Inv(env, s) && AtRest(env, s) && |s.workers| > 0
    ensures !HasTask(s, k)
  {
    hide Inv;
    assert s.workers[0].Waiting? ==> (Enabled(env, s, Take(0)) <==> s.pending != []);
    hide Enabled;
    forall i | 0 <= i < |s.workers|
      ensures s.workers[i].Waiting?
    {
      if !s.workers[i].Waiting? {
        var _ := BusyGoesOn(env, s, i);
      }
    }
  }

  // Between calls, when the workers have nothing left to do, the hosts of the ring hold the names of their addresses:
  // all of them, but for exactly those whose task was refused, ever, since the cache was made.
  lemma RestIsResolved(env: Env, workers: nat, steps: seq<Step>, k: nat)
    requires 0 < env.size <= MAX_ENTRIES && workers > 0 && CanRun(env, Initial(env, workers), steps)
    requires AtRest(env, After(env, Initial(env, workers), steps))
    requires After(env, Initial(env, workers), steps).main.Idle?
    requires SlotReady(After(env, Initial(env, workers), steps), k)
    ensures var h := After(env, Initial(env, workers), steps).hosts[k].value;
            if Refused(env, Initial(env, workers), steps, k) then h.status.Resolving?
            else h.status.Resolved? && h.fqdn == env.resolve(h.addr)
  {
    InitialInv(env, workers);
    var s := After(env, Initial(env, workers), steps);
    assert !SlotReady(Initial(env, workers), k);
    LostIffRefused(env, Initial(env, workers), steps, k);
    RestHasNoTask(env, s, k);
    hide After, CanRun, Refused, HasTask, AtRest, IndexInv, TaskInv, MainInv, BucketInv;
  }

  // And such a host is never given up again: when the ring comes to it, no new address is ever taken in.
  lemma RefusedStopsTheRing(env: Env, workers: nat, steps: seq<Step>, a: Addr, leave: Step)
    requires 0 < env.size <= MAX_ENTRIES && CanRun(env, Initial(env, workers), steps)
    requires After(env, Initial(env, workers), steps).main.Idle?
    requires Refused(env, Initial(env, workers), steps, After(env, Initial(env, workers), steps).index)
    requires forall k: nat :: !HoldsAddr(After(env, Initial(env, workers), steps), k, a)
    requires leave.Evict? && Enabled(env, After(env, Initial(env, workers), steps).(main := Missed(a)), leave)
    ensures var s := After(env, Initial(env, workers), steps);
            CanRun(env, s, [Lookup(a, None), leave]) && After(env, s, [Lookup(a, None), leave]) == s
  {
    InitialInv(env, workers);
    var s := After(env, Initial(env, workers), steps);
    LostIffRefused(env, Initial(env, workers), steps, s.index);
    assert Reachable(env, workers, s);
    assert BeingResolved(s, s.index);
    hide After, CanRun, Refused, HasTask, Inv, Reachable, Enabled;
    BusyRingWaits(env, workers, s, a, leave);
  }
}
