/** What a call of ip2domain does, and what a worker does for it: hits are answered, misses are queued and resolved. */
module DomainCacheProgress {
  import opened Wrappers
  import opened LoadFactor
  import opened DomainCache

  predicate ByWorker(step: Step) {
    step.Take? || step.ReadAddr? || step.Scribble? || step.WriteName? || step.Publish?
  }

  ghost predicate OnlyWorkers(steps: seq<Step>) {
    forall i | 0 <= i < |steps| :: ByWorker(steps[i])
  }

  // Host k holds address a.
  predicate HoldsAddr(s: State, k: nat, a: Addr) {
    SlotReady(s, k) && s.hosts[k].value.addr == a
  }

  lemma {:induction false} RunInParts(env: Env, s: State, p: seq<Step>, q: seq<Step>)
    ensures CanRun(env, s, p + q) <==> CanRun(env, s, p) && CanRun(env, After(env, s, p), q)
    ensures CanRun(env, s, p + q) ==> After(env, s, p + q) == After(env, After(env, s, p), q)
    decreases |p|
  {
    if p == [] {
      assert p + q == q;
    } else {
      hide Enabled, Apply;
      assert (p + q)[0] == p[0] && (p + q)[1..] == p[1..] + q;
      if Enabled(env, s, p[0]) {
        RunInParts(env, Apply(env, s, p[0]), p[1..], q);
      }
    }
  }

  lemma {:induction false} OneStep(env: Env, s: State, step: Step)
    ensures CanRun(env, s, [step]) <==> Enabled(env, s, step)
    ensures Enabled(env, s, step) ==> After(env, s, [step]) == Apply(env, s, step)
  {
    hide Enabled, Apply;
    if Enabled(env, s, step) {
      assert [step][1..] == [];
      assert CanRun(env, Apply(env, s, step), []);
    }
  }

  // ---- Hits -----------------------------------------------------------------------------------------------

  // What the workers do leaves the main thread alone, and every host but those that are being resolved.
  ghost predicate LeftAlone(s: State, s': State, k: nat) {
    s'.main == s.main && s'.answers == s.answers && SlotReady(s, k) && SlotReady(s', k)
    && s'.hosts[k].value.addr == s.hosts[k].value.addr
    && (s.hosts[k].value.status.Resolved? ==> s'.hosts[k] == s.hosts[k])
  }

  lemma WorkerLeaves(env: Env, s: State, step: Step, k: nat)
    requires Inv(env, s) && Enabled(env, s, step) && ByWorker(step) && SlotReady(s, k)
    ensures LeftAlone(s, Apply(env, s, step), k)
  {
    hide IndexInv, NameInv, MainInv, BucketInv;
    if !step.Take? {
      assert BeingResolved(s, s.workers[step.i].slot);
    }
  }

  lemma {:induction false} WorkersLeave(env: Env, s: State, steps: seq<Step>, k: nat)
    requires Inv(env, s) && CanRun(env, s, steps) && OnlyWorkers(steps) && SlotReady(s, k)
    ensures LeftAlone(s, After(env, s, steps), k) && Inv(env, After(env, s, steps))
    decreases |steps|
  {
    hide Inv, Enabled, Apply;
    if steps != [] {
      var s' := Apply(env, s, steps[0]);
      assert ByWorker(steps[0]);
      InvKept(env, s, steps[0]);
      WorkerLeaves(env, s, steps[0], k);
      assert OnlyWorkers(steps[1..]);
      WorkersLeave(env, s', steps[1..], k);
    }
  }

  // A lookup of an address that the ring holds finds its host.
  lemma LookupFinds(env: Env, s: State, a: Addr, k: nat, found: Option<Link>)
    requires Inv(env, s) && HoldsAddr(s, k, a) && Enabled(env, s, Lookup(a, found))
    ensures found.Some? && Apply(env, s, Lookup(a, found)) == s.(main := Found(a, k))
  {
    hide TaskInv, NameInv, MainInv, BucketInv;
    assert Listed(s, k);
    assert Matches(env, s.hosts, Link(k, env.hash(a)), a);
    if found.Some? {
      assert Listed(s, found.value.slot);
    }
  }

  // The lookup, with steps of the workers before and after it.
  lemma LookedUp(env: Env, s: State, a: Addr, k: nat, found: Option<Link>, w1: seq<Step>, w2: seq<Step>)
    requires Inv(env, s) && s.main.Idle? && HoldsAddr(s, k, a) && OnlyWorkers(w1) && OnlyWorkers(w2)
    requires CanRun(env, s, w1 + [Lookup(a, found)] + w2)
    ensures found.Some? && Inv(env, After(env, s, w1 + [Lookup(a, found)] + w2))
    ensures LeftAlone(s.(main := Found(a, k)), After(env, s, w1 + [Lookup(a, found)] + w2), k)
  {
    hide Inv, Enabled, Apply, CanRun, After, OnlyWorkers;
    RunInParts(env, s, w1 + [Lookup(a, found)], w2);
    RunInParts(env, s, w1, [Lookup(a, found)]);
    WorkersLeave(env, s, w1, k);
    var s1 := After(env, s, w1);
    OneStep(env, s1, Lookup(a, found));
    LookupFinds(env, s1, a, k, found);
    InvKept(env, s1, Lookup(a, found));
    WorkersLeave(env, Apply(env, s1, Lookup(a, found)), w2, k);
  }

  // An address whose name is known is answered with its name, whatever the workers do in the meantime.
  lemma HitIsAnswered(env: Env, workers: nat, s: State, a: Addr, k: nat, found: Option<Link>,
                      w1: seq<Step>, w2: seq<Step>, w3: seq<Step>)
    requires 0 < env.size <= MAX_ENTRIES && Reachable(env, workers, s) && s.main.Idle?
    requires HoldsAddr(s, k, a) && s.hosts[k].value.status.Resolved?
    requires OnlyWorkers(w1) && OnlyWorkers(w2) && OnlyWorkers(w3)
    requires CanRun(env, s, w1 + [Lookup(a, found)] + w2 + [ReadStatus] + w3 + [Copy])
    ensures found.Some?
    ensures After(env, s, w1 + [Lookup(a, found)] + w2 + [ReadStatus] + w3 + [Copy]).answers ==
            s.answers + [(a, env.resolve(a))]
    ensures After(env, s, w1 + [Lookup(a, found)] + w2 + [ReadStatus] + w3 + [Copy]).main.Idle?
  {
    ReachableInv(env, workers, s);
    assert NameInv(env, s) && s.hosts[k].value.fqdn == env.resolve(a);
    var p := w1 + [Lookup(a, found)] + w2;
    hide Inv, CanRun, After, OnlyWorkers, Reachable, NameInv;
    RunInParts(env, s, p + [ReadStatus] + w3, [Copy]);
    RunInParts(env, s, p + [ReadStatus], w3);
    RunInParts(env, s, p, [ReadStatus]);
    LookedUp(env, s, a, k, found, w1, w2);
    var s1 := After(env, s, p);
    OneStep(env, s1, ReadStatus);
    InvKept(env, s1, ReadStatus);
    ReadsStatus(env, s1, a, k);
    var s2 := s1.(main := Copying(a, k));
    hide Enabled, Apply;
    WorkersLeave(env, s2, w3, k);
    var s3 := After(env, s2, w3);
    OneStep(env, s3, Copy);
    CopiesName(env, s3, a, k);
  }

  lemma ReadsStatus(env: Env, s: State, a: Addr, k: nat)
    requires s.main == Found(a, k) && SlotReady(s, k) && s.hosts[k].value.status.Resolved?
    ensures Enabled(env, s, ReadStatus) && Apply(env, s, ReadStatus) == s.(main := Copying(a, k))
  {
  }

  lemma CopiesName(env: Env, s: State, a: Addr, k: nat)
    requires s.main == Copying(a, k) && SlotReady(s, k)
    ensures Enabled(env, s, Copy)
    ensures Apply(env, s, Copy) == s.(answers := s.answers + [(a, s.hosts[k].value.fqdn)], main := Idle)
  {
  }

  // While the name is not known, at the moment the status is read, the call ends without an answer and changes nothing.
  lemma UnresolvedIsNotAnswered(env: Env, workers: nat, s: State, a: Addr, k: nat, found: Option<Link>,
                                w1: seq<Step>, w2: seq<Step>)
    requires 0 < env.size <= MAX_ENTRIES && Reachable(env, workers, s) && s.main.Idle? && HoldsAddr(s, k, a)
    requires OnlyWorkers(w1) && OnlyWorkers(w2)
    requires CanRun(env, s, w1 + [Lookup(a, found)] + w2 + [ReadStatus])
    requires ResolvingAfter(env, s, w1 + [Lookup(a, found)] + w2, k)
    ensures After(env, s, w1 + [Lookup(a, found)] + w2 + [ReadStatus]).answers == s.answers
    ensures After(env, s, w1 + [Lookup(a, found)] + w2 + [ReadStatus]).main.Idle?
  {
    ReachableInv(env, workers, s);
    var p := w1 + [Lookup(a, found)] + w2;
    hide Inv, CanRun, OnlyWorkers, Reachable;
    RunInParts(env, s, p, [ReadStatus]);
    LookedUp(env, s, a, k, found, w1, w2);
    OneStep(env, After(env, s, p), ReadStatus);
    hide After;
  }

  ghost predicate ResolvingAfter(env: Env, s: State, p: seq<Step>, k: nat) {
    CanRun(env, s, p) && SlotReady(After(env, s, p), k) && After(env, s, p).hosts[k].value.status.Resolving?
  }

  // The main thread never waits for a worker: a call can begin with any address, and go on to its answer.
  lemma HitCanBeMade(env: Env, workers: nat, s: State, a: Addr, k: nat) returns (found: Option<Link>)
    requires 0 < env.size <= MAX_ENTRIES && Reachable(env, workers, s) && s.main.Idle?
    requires HoldsAddr(s, k, a) && s.hosts[k].value.status.Resolved?
    ensures CanRun(env, s, [Lookup(a, found), ReadStatus, Copy])
  {
    ReachableInv(env, workers, s);
    assert Listed(s, k);
    found := Some(Link(k, env.hash(a)));
    var s1 := s.(main := Found(a, k));
    assert Apply(env, s, Lookup(a, found)) == s1;
    assert Apply(env, s1, ReadStatus) == s.(main := Copying(a, k));
    OneStep(env, s.(main := Copying(a, k)), Copy);
    hide Inv, Enabled, Apply, Reachable;
    assert [Lookup(a, found), ReadStatus, Copy][1..] == [ReadStatus, Copy] && [ReadStatus, Copy][1..] == [Copy];
  }

  lemma CallGoesOn(env: Env, workers: nat, s: State)
    requires 0 < env.size <= MAX_ENTRIES && Reachable(env, workers, s)
    ensures s.main.Found? ==> Enabled(env, s, ReadStatus)
    ensures s.main.Copying? ==> Enabled(env, s, Copy)
    ensures s.main.Filling? ==> Enabled(env, s, Fill)
    ensures s.main.Linking? ==> Enabled(env, s, SetLink)
  {
    ReachableInv(env, workers, s);
  }

  // ---- Misses ---------------------------------------------------------------------------------------------

  // A new address takes the next host of the ring, and a task for it is queued; the ring moves on by one.
  ghost predicate Queued(env: Env, s: State, s': State, a: Addr)
    requires 0 < env.size
  {
    && s'.main.Idle? && s'.answers == s.answers && s'.workers == s.workers
    && s'.index == (s.index + 1) % env.size && s'.pending == s.pending + [s.index]
    && |s'.hosts| == |s.hosts| && HoldsAddr(s', s.index, a) && s'.hosts[s.index].value.status.Resolving?
    && (forall k | 0 <= k < |s.hosts| && k != s.index :: s'.hosts[k] == s.hosts[k])
    && Link(s.index, env.hash(a)) in s'.table
  }

  // hosts[index] is out of the index, or new.
  ghost predicate Vacated(s: State, s': State, a: Addr) {
    && s'.main == Filling(a) && s'.answers == s.answers && s'.workers == s.workers
    && s'.index == s.index && s'.pending == s.pending && |s'.hosts| == |s.hosts| && SlotReady(s', s.index)
    && (forall k | 0 <= k < |s.hosts| && k != s.index :: s'.hosts[k] == s.hosts[k])
  }

  lemma FillsAndQueues(env: Env, s: State, s': State, a: Addr)
    requires 0 < env.size && Vacated(s, s', a)
    ensures CanRun(env, s', [Fill, Queue(true), SetLink])
    ensures Queued(env, s, After(env, s', [Fill, Queue(true), SetLink]), a)
  {
    var steps := [Fill, Queue(true), SetLink];
    var s1 := Apply(env, s', Fill);
    var s2 := Apply(env, s1, Queue(true));
    OneStep(env, s2, SetLink);
    assert steps[1..] == [Queue(true), SetLink] && steps[1..][1..] == [SetLink];
    hide Rehashed, TooFull;
  }

  // A call for an address that no host has, when the next host of the ring is free: the host is taken over, or
  // allocated, and the address is queued.
  lemma MissIsQueued(env: Env, workers: nat, s: State, a: Addr, leave: Step)
    requires 0 < env.size <= MAX_ENTRIES && Reachable(env, workers, s) && s.main.Idle?
    requires forall k: nat :: !HoldsAddr(s, k, a)
    requires if SlotReady(s, s.index) then s.hosts[s.index].value.status.Resolved? && leave.Evict?
             else leave.Allocate? && leave.memory.Some?
    requires Enabled(env, s.(main := Missed(a)), leave)
    ensures CanRun(env, s, [Lookup(a, None), leave, Fill, Queue(true), SetLink])
    ensures Queued(env, s, After(env, s, [Lookup(a, None), leave, Fill, Queue(true), SetLink]), a)
  {
    ReachableInv(env, workers, s);
    var steps := [Lookup(a, None), leave, Fill, Queue(true), SetLink];
    NoneFound(env, s, a);
    var s1 := s.(main := Missed(a));
    assert Vacated(s, Apply(env, s1, leave), a) by {
      hide Inv, Rehashed, TooEmpty;
    }
    assert Enabled(env, s, Lookup(a, None)) && Apply(env, s, Lookup(a, None)) == s1;
    FillsAndQueues(env, s, Apply(env, s1, leave), a);
    assert steps[1..] == [leave, Fill, Queue(true), SetLink] && steps[1..][1..] == [Fill, Queue(true), SetLink];
    hide Inv, Enabled, Apply, Vacated, Queued, Reachable;
  }

  lemma NoneFound(env: Env, s: State, a: Addr)
    requires Inv(env, s) && s.main.Idle? && forall k: nat :: !HoldsAddr(s, k, a)
    ensures Enabled(env, s, Lookup(a, None))
  {
    forall l | l in s.table
      ensures !Matches(env, s.hosts, l, a)
    {
      assert !HoldsAddr(s, l.slot, a);
    }
  }

  // When the next host of the ring is still being resolved, the call ends and nothing has changed.
  lemma BusyRingWaits(env: Env, workers: nat, s: State, a: Addr, leave: Step)
    requires 0 < env.size <= MAX_ENTRIES && Reachable(env, workers, s) && s.main.Idle?
    requires forall k: nat :: !HoldsAddr(s, k, a)
    requires SlotReady(s, s.index) && s.hosts[s.index].value.status.Resolving?
    requires leave.Evict? && Enabled(env, s.(main := Missed(a)), leave)
    ensures CanRun(env, s, [Lookup(a, None), leave]) && After(env, s, [Lookup(a, None), leave]) == s
  {
    ReachableInv(env, workers, s);
    NoneFound(env, s, a);
    OneStep(env, s.(main := Missed(a)), leave);
    assert [Lookup(a, None), leave][1..] == [leave];
    hide Inv, Reachable;
  }

  // The host that is taken over leaves the index, which shrinks to at most ten buckets for an entry: to none if it was
  // the only one.
  lemma EvictedLeaves(env: Env, workers: nat, s: State, l: Option<Link>)
    requires 0 < env.size <= MAX_ENTRIES && Reachable(env, workers, s)
    requires Enabled(env, s, Evict(l, true)) && s.hosts[s.index].value.status.Resolved?
    ensures |Apply(env, s, Evict(l, true)).table| == |s.table| - 1
    ensures Apply(env, s, Evict(l, true)).nbuckets <= 10 * (|s.table| - 1)
  {
    ReachableInv(env, workers, s);
    EvictBuckets(env, s, l, true);
    hide Inv, Enabled, Apply;
  }

  // ---- Tasks ----------------------------------------------------------------------------------------------

  lemma FourSteps(env: Env, s0: State, a: Step, s1: State, b: Step, s2: State, c: Step, s3: State, d: Step, s4: State)
    requires Enabled(env, s0, a) && Apply(env, s0, a) == s1 && Enabled(env, s1, b) && Apply(env, s1, b) == s2
    requires Enabled(env, s2, c) && Apply(env, s2, c) == s3 && Enabled(env, s3, d) && Apply(env, s3, d) == s4
    ensures CanRun(env, s0, [a, b, c, d]) && After(env, s0, [a, b, c, d]) == s4
  {
    hide Enabled, Apply;
    OneStep(env, s3, d);
    assert [a, b, c, d][1..] == [b, c, d] && [b, c, d][1..] == [c, d] && [c, d][1..] == [d];
    assert CanRun(env, s2, [c, d]) && After(env, s2, [c, d]) == s4;
    assert CanRun(env, s1, [b, c, d]) && After(env, s1, [b, c, d]) == s4;
  }

  lemma TakesTask(env: Env, s: State, i: nat, k: nat, a: Addr)
    requires i < |s.workers| && s.workers[i].Waiting? && s.pending != [] && s.pending[0] == k && HoldsAddr(s, k, a)
    ensures Enabled(env, s, Take(i))
    ensures Apply(env, s, Take(i)) == s.(workers := s.workers[i := Started(k)], pending := s.pending[1..])
  {
  }

  lemma ReadsAddr(env: Env, s: State, i: nat, k: nat, a: Addr)
    requires i < |s.workers| && s.workers[i] == Started(k) && HoldsAddr(s, k, a)
    ensures Enabled(env, s, ReadAddr(i)) && Apply(env, s, ReadAddr(i)) == s.(workers := s.workers[i := Writing(k, a)])
  {
  }

  lemma WritesName(env: Env, s: State, i: nat, k: nat, a: Addr)
    requires i < |s.workers| && s.workers[i] == Writing(k, a) && HoldsAddr(s, k, a)
    ensures Enabled(env, s, WriteName(i))
    ensures Apply(env, s, WriteName(i)) ==
            s.(hosts := s.hosts[k := Some(Host(a, env.resolve(a), s.hosts[k].value.status))],
               workers := s.workers[i := Publishing(k)])
  {
  }

  lemma PublishesName(env: Env, s: State, i: nat, k: nat, a: Addr)
    requires i < |s.workers| && s.workers[i] == Publishing(k) && HoldsAddr(s, k, a)
    ensures Enabled(env, s, Publish(i))
    ensures Apply(env, s, Publish(i)) ==
            s.(hosts := s.hosts[k := Some(Host(a, s.hosts[k].value.fqdn, Resolved))],
               workers := s.workers[i := Waiting])
  {
  }

  // A waiting worker takes the first task and resolves its address: the host then holds its name for good.
  lemma TaskIsResolved(env: Env, workers: nat, s: State, i: nat)
    requires 0 < env.size <= MAX_ENTRIES && Reachable(env, workers, s)
    requires i < |s.workers| && s.workers[i].Waiting? && s.pending != []
    ensures SlotReady(s, s.pending[0]) && CanRun(env, s, [Take(i), ReadAddr(i), WriteName(i), Publish(i)])
    ensures var k := s.pending[0]; var a := s.hosts[k].value.addr;
            After(env, s, [Take(i), ReadAddr(i), WriteName(i), Publish(i)]) ==
            s.(hosts := s.hosts[k := Some(Host(a, env.resolve(a), Resolved))], pending := s.pending[1..])
  {
    ReachableInv(env, workers, s);
    var k := s.pending[0];
    assert BeingResolved(s, k);
    hide Inv, Reachable, Enabled, Apply, CanRun, After, BeingResolved;
    var a, name, ws := s.hosts[k].value.addr, env.resolve(s.hosts[k].value.addr), s.workers;
    var s1 := s.(workers := ws[i := Started(k)], pending := s.pending[1..]);
    var s2 := s1.(workers := ws[i := Writing(k, a)]);
    var s3 := s2.(hosts := s.hosts[k := Some(Host(a, name, s.hosts[k].value.status))],
                  workers := ws[i := Publishing(k)]);
    var s4 := s.(hosts := s.hosts[k := Some(Host(a, name, Resolved))], pending := s.pending[1..]);
    TakesTask(env, s, i, k, a);
    ReadsAddr(env, s1, i, k, a);
    assert s1.workers[i := Writing(k, a)] == s2.workers;
    WritesName(env, s2, i, k, a);
    assert s2.workers[i := Publishing(k)] == s3.workers;
    PublishesName(env, s3, i, k, a);
    assert s3.workers[i := Waiting] == ws && s3.hosts[k := Some(Host(a, name, Resolved))] == s4.hosts;
    FourSteps(env, s, Take(i), s1, ReadAddr(i), s2, WriteName(i), s3, Publish(i), s4);
  }
}
