/**
 The cache of host names: a ring of hosts, an index over it whose keys are the addresses inside the
 hosts, and workers that fill in the names.  The main thread and the workers are interleaved; the
 pool that hands tasks to the workers is a queue here.
 */
module DomainCache {
  import opened Wrappers
  import opened LoadFactor
  import Bits

  type Addr(==, !new)
  type Name(!new)

  // getnameinfo (or the address as text if it fails), the hash of an address, and cache_size.
  datatype Env = Env(resolve: Addr -> Name, hash: Addr -> nat, size: nat)

  datatype Status = Resolved | Resolving

  // struct host
  datatype Host = Host(addr: Addr, fqdn: Name, status: Status)

  // An entry of the hash table: it points to a host and keeps the hash its address had when it was set.
  datatype Link = Link(slot: nat, keyHash: nat)

  // ip2domain, step by step, for one address.
  datatype Main =
    | Idle
    | Found(addr: Addr, slot: nat)     // hashtable_get has returned a host
    | Copying(addr: Addr, slot: nat)   // the host was read as resolved, the name not copied yet
    | Missed(addr: Addr)
    | Filling(addr: Addr)              // hosts[index] is out of the index
    | Queueing(addr: Addr)             // address and status are written
    | Linking(addr: Addr)              // the task has been added

  // ip2domain_exec
  datatype Worker =
    | Waiting
    | Started(slot: nat)
    | Writing(slot: nat, addr: Addr)
    | Publishing(slot: nat)            // the name is complete, the status not written yet

  datatype State = State(
    hosts: seq<Option<Host>>,
    index: nat,
    table: set<Link>,
    nbuckets: nat,
    pending: seq<nat>,
    workers: seq<Worker>,
    main: Main,
    answers: seq<(Addr, Name)>)        // what ip2domain has returned with 1

  datatype Step =
    | Lookup(addr: Addr, found: Option<Link>)   // hashtable_get returns this entry, if any matches
    | ReadStatus
    | Copy
    | Evict(link: Option<Link>, shrinks: bool)  // hosts[index] holds a host: hashtable_remove takes `link`
    | Allocate(memory: Option<Host>)            // hosts[index] is NULL: malloc returns this, or fails
    | Fill
    | Queue(hasMemory: bool)
    | SetLink
    | Take(i: nat)                              // worker i takes the first task
    | ReadAddr(i: nat)
    | Scribble(i: nat, junk: Name)              // getnameinfo writes part of the name
    | WriteName(i: nat)
    | Publish(i: nat)

  // What hashtable_get and hashtable_remove compare: the stored hash, and the address inside the host.
  predicate Matches(env: Env, hosts: seq<Option<Host>>, l: Link, a: Addr) {
    l.keyHash == env.hash(a) && l.slot < |hosts| && hosts[l.slot].Some? && hosts[l.slot].value.addr == a
  }

  // The table may return any entry that matches, and returns one if there is one.
  ghost predicate Finds(env: Env, s: State, a: Addr, found: Option<Link>) {
    match found
    case Some(l) => l in s.table && Matches(env, s.hosts, l, a)
    case None => forall l | l in s.table :: !Matches(env, s.hosts, l, a)
  }

  predicate SlotReady(s: State, k: nat) {
    k < |s.hosts| && s.hosts[k].Some?
  }

  ghost predicate Enabled(env: Env, s: State, step: Step) {
    match step
    case Lookup(a, found) => s.main.Idle? && Finds(env, s, a, found)
    case ReadStatus => s.main.Found? && SlotReady(s, s.main.slot)
    case Copy => s.main.Copying? && SlotReady(s, s.main.slot)
    case Evict(l, _) => s.main.Missed? && SlotReady(s, s.index) && Finds(env, s, s.hosts[s.index].value.addr, l)
    case Allocate(_) => s.main.Missed? && s.index < |s.hosts| && s.hosts[s.index].None?
    case Fill => s.main.Filling? && SlotReady(s, s.index)
    case Queue(_) => s.main.Queueing?
    case SetLink => s.main.Linking? && 0 < env.size
    case Take(i) => i < |s.workers| && s.workers[i].Waiting? && s.pending != []
    case ReadAddr(i) => i < |s.workers| && s.workers[i].Started? && SlotReady(s, s.workers[i].slot)
    case Scribble(i, _) => i < |s.workers| && s.workers[i].Writing? && SlotReady(s, s.workers[i].slot)
    case WriteName(i) => i < |s.workers| && s.workers[i].Writing? && SlotReady(s, s.workers[i].slot)
    case Publish(i) => i < |s.workers| && s.workers[i].Publishing? && SlotReady(s, s.workers[i].slot)
  }

  function Rehashed(n: nat, nbuckets: nat): nat {
    if n <= MAX_ENTRIES then RehashSize(n) else nbuckets
  }

  function PutHost(s: State, k: nat, h: Host): State
    requires k < |s.hosts|
  {
    s.(hosts := s.hosts[k := Some(h)])
  }

  ghost function Apply(env: Env, s: State, step: Step): State
    requires Enabled(env, s, step)
  {
    match step
    case Lookup(a, found) => s.(main := if found.Some? then Found(a, found.value.slot) else Missed(a))
    case ReadStatus =>
      s.(main := if s.hosts[s.main.slot].value.status.Resolved? then Copying(s.main.addr, s.main.slot) else Idle)
    case Copy => s.(answers := s.answers + [(s.main.addr, s.hosts[s.main.slot].value.fqdn)], main := Idle)
    case Evict(l, shrinks) =>
      if s.hosts[s.index].value.status.Resolving? then s.(main := Idle)
      else
        var t := if l.Some? then s.table - {l.value} else s.table;
        s.(main := Filling(s.main.addr), table := t,
           nbuckets :=
             if l.Some? && TooEmpty(|t|, s.nbuckets) && shrinks then Rehashed(|t|, s.nbuckets) else s.nbuckets)
    case Allocate(memory) =>
      if memory.None? then s.(main := Idle)
      else PutHost(s, s.index, memory.value).(main := Filling(s.main.addr))
    case Fill =>
      var h := s.hosts[s.index].value;
      PutHost(s, s.index, h.(addr := s.main.addr, status := Resolving)).(main := Queueing(s.main.addr))
    case Queue(hasMemory) =>
      s.(main := Linking(s.main.addr), pending := if hasMemory then s.pending + [s.index] else s.pending)
    case SetLink =>
      var n := |s.table| + 1;
      s.(main := Idle, table := s.table + {Link(s.index, env.hash(s.main.addr))},
         nbuckets := if TooFull(n, s.nbuckets) then Rehashed(n, s.nbuckets) else s.nbuckets,
         index := (s.index + 1) % env.size)
    case Take(i) => s.(workers := s.workers[i := Started(s.pending[0])], pending := s.pending[1..])
    case ReadAddr(i) =>
      var k := s.workers[i].slot;
      s.(workers := s.workers[i := Writing(k, s.hosts[k].value.addr)])
    case Scribble(i, junk) =>
      var k := s.workers[i].slot;
      PutHost(s, k, s.hosts[k].value.(fqdn := junk))
    case WriteName(i) =>
      var k := s.workers[i].slot;
      var h := s.hosts[k].value.(fqdn := env.resolve(s.workers[i].addr));
      PutHost(s, k, h).(workers := s.workers[i := Publishing(k)])
    case Publish(i) =>
      var k := s.workers[i].slot;
      PutHost(s, k, s.hosts[k].value.(status := Resolved)).(workers := s.workers[i := Waiting])
  }

  // cache_domain_init and the pool's workers.
  function Initial(env: Env, workers: nat): State {
    State(seq(env.size, _ => None), 0, {}, HASHTABLE_MIN_SIZE, [], seq(workers, _ => Waiting), Idle, [])
  }

  ghost predicate CanRun(env: Env, s: State, steps: seq<Step>)
    decreases |steps|
  {
    steps == [] || (Enabled(env, s, steps[0]) && CanRun(env, Apply(env, s, steps[0]), steps[1..]))
  }

  ghost function After(env: Env, s: State, steps: seq<Step>): State
    requires CanRun(env, s, steps)
    decreases |steps|
  {
    if steps == [] then s else After(env, Apply(env, s, steps[0]), steps[1..])
  }

  // ---- The invariant -----------------------------------------------------------------------------------

  // hosts[index] has left the index and is being filled again.
  predicate Refilling(m: Main) {
    m.Filling? || m.Queueing? || m.Linking?
  }

  // A host the index has to hold.
  predicate Listed(s: State, k: nat) {
    SlotReady(s, k) && !(Refilling(s.main) && k == s.index)
  }

  // The index holds exactly the hosts, with the hash of the address they have now, and no address twice.
  ghost predicate IndexInv(env: Env, s: State) {
    && 0 < env.size <= MAX_ENTRIES && |s.hosts| == env.size && s.index < env.size
    && (forall l | l in s.table :: Listed(s, l.slot) && l.keyHash == env.hash(s.hosts[l.slot].value.addr))
    && (forall k: nat | Listed(s, k) :: Link(k, env.hash(s.hosts[k].value.addr)) in s.table)
    && (forall j: nat, k: nat | j < k && Listed(s, j) && Listed(s, k) :: s.hosts[j].value.addr != s.hosts[k].value.addr)
  }

  predicate Holds(w: Worker, k: nat) {
    !w.Waiting? && w.slot == k
  }

  // A host that a worker has still to write.
  ghost predicate BeingResolved(s: State, k: nat) {
    SlotReady(s, k) && s.hosts[k].value.status.Resolving? && !(k == s.index && (s.main.Filling? || s.main.Queueing?))
  }

  // Every task is about a host of its own, which is marked as resolving and is not refilled.
  ghost predicate TaskInv(env: Env, s: State) {
    && (forall p | 0 <= p < |s.pending| :: BeingResolved(s, s.pending[p]))
    && (forall p, q | 0 <= p < q < |s.pending| :: s.pending[p] != s.pending[q])
    && (forall i | 0 <= i < |s.workers| && !s.workers[i].Waiting? ::
          BeingResolved(s, s.workers[i].slot) && s.workers[i].slot !in s.pending)
    && (forall i, j | 0 <= i < j < |s.workers| && !s.workers[i].Waiting? && !s.workers[j].Waiting? ::
          s.workers[i].slot != s.workers[j].slot)
    && (forall i | 0 <= i < |s.workers| && s.workers[i].Writing? ::
        s.workers[i].addr == s.hosts[s.workers[i].slot].value.addr)
    && (forall i | 0 <= i < |s.workers| && s.workers[i].Publishing? ::
          var h := s.hosts[s.workers[i].slot].value; h.fqdn == env.resolve(h.addr))
  }

  // A host marked as resolved holds the name of its own address.
  ghost predicate NameInv(env: Env, s: State) {
    forall k: nat | SlotReady(s, k) && s.hosts[k].value.status.Resolved? && !(s.main.Filling? && k == s.index) ::
      s.hosts[k].value.fqdn == env.resolve(s.hosts[k].value.addr)
  }

  ghost predicate MainInv(env: Env, s: State) {
    && (s.main.Found? || s.main.Copying? ==> Listed(s, s.main.slot) && s.hosts[s.main.slot].value.addr == s.main.addr)
    && (s.main.Copying? ==> s.hosts[s.main.slot].value.status.Resolved?)
    && (s.main.Missed? || Refilling(s.main) ==> forall l | l in s.table :: !Matches(env, s.hosts, l, s.main.addr))
    && (Refilling(s.main) ==> SlotReady(s, s.index))
    && (s.main.Queueing? || s.main.Linking? ==> s.hosts[s.index].value.addr == s.main.addr)
    && (s.main.Queueing? ==> s.hosts[s.index].value.status.Resolving?)
    && (forall n | 0 <= n < |s.answers| :: s.answers[n].1 == env.resolve(s.answers[n].0))
  }

  // The number of buckets is a power of two, or zero while the only host is being refilled.
  ghost predicate BucketInv(s: State) {
    && s.nbuckets < SIZE_MAX_PLUS_1 && (IsPow2(s.nbuckets) || (s.nbuckets == 0 && |s.table| == 0 && Refilling(s.main)))
    && !TooFull(|s.table|, s.nbuckets)
  }

  ghost predicate Inv(env: Env, s: State) {
    IndexInv(env, s) && TaskInv(env, s) && NameInv(env, s) && MainInv(env, s) && BucketInv(s)
  }

  lemma InitialInv(env: Env, workers: nat)
    requires 0 < env.size <= MAX_ENTRIES
    ensures Inv(env, Initial(env, workers))
  {
    assert Bits.Pow2(4) == HASHTABLE_MIN_SIZE;
  }

  // ---- Each part is kept by each step ---------------------------------------------------------------------

  lemma IndexKeptByEvict(env: Env, s: State, step: Step)
    requires Inv(env, s) && Enabled(env, s, step) && step.Evict?
    ensures IndexInv(env, Apply(env, s, step))
  {
    hide TaskInv, NameInv, BucketInv, Rehashed, TooEmpty;
    if s.hosts[s.index].value.status.Resolved? {
      var h := s.hosts[s.index].value;
      assert Listed(s, s.index) && Link(s.index, env.hash(h.addr)) in s.table;
      assert Matches(env, s.hosts, Link(s.index, env.hash(h.addr)), h.addr);
      assert step.link == Some(Link(s.index, env.hash(h.addr)));
    }
  }

  lemma IndexKeptBySet(env: Env, s: State)
    requires Inv(env, s) && Enabled(env, s, SetLink)
    ensures IndexInv(env, Apply(env, s, SetLink))
  {
    hide TaskInv, NameInv, BucketInv, Rehashed, TooFull;
    var s' := Apply(env, s, SetLink);
    forall k: nat
      ensures Listed(s', k) <==> Listed(s, k) || k == s.index
    {
    }
    assert forall k: nat | Listed(s, k) ::
        Matches(env, s.hosts, Link(k, env.hash(s.hosts[k].value.addr)), s.hosts[k].value.addr);
  }

  // Every other step leaves the index and the addresses of the listed hosts alone.
  lemma IndexKept(env: Env, s: State, step: Step)
    requires Inv(env, s) && Enabled(env, s, step)
    ensures IndexInv(env, Apply(env, s, step))
  {
    if step.Evict? {
      IndexKeptByEvict(env, s, step);
    } else if step.SetLink? {
      IndexKeptBySet(env, s);
    } else {
      hide TaskInv, NameInv, BucketInv;
      var s' := Apply(env, s, step);
      assert s'.table == s.table && s'.index == s.index;
      forall k: nat
        ensures Listed(s', k) <==> Listed(s, k)
        ensures Listed(s, k) ==> s'.hosts[k].value.addr == s.hosts[k].value.addr
      {
      }
      hide Enabled, Apply, Listed;
    }
  }

  // Steps of the main thread that write no host that is being resolved, and add no task.
  predicate WritesNoTask(step: Step) {
    || step.Lookup? || step.ReadStatus? || step.Copy? || step.Evict? || step.Allocate? || step.Fill? || step.SetLink?
  }

  lemma TaskKeptByMain(env: Env, s: State, step: Step)
    requires Inv(env, s) && Enabled(env, s, step) && WritesNoTask(step)
    ensures TaskInv(env, Apply(env, s, step))
  {
    hide *;
    var s' := Apply(env, s, step);
    SameTasks(env, s, step);
    PartsOfInv(env, s);
    forall k: nat | BeingResolved(s, k)
      ensures StillResolving(s, s', k)
    {
      StaysResolving(env, s, step, k);
    }
    SameTaskInv(env, s, s');
  }

  // A host that is being resolved, and untouched.
  ghost predicate StillResolving(s: State, s': State, k: nat) {
    SlotReady(s, k) && BeingResolved(s', k) && s'.hosts[k] == s.hosts[k]
  }

  lemma PartsOfInv(env: Env, s: State)
    requires Inv(env, s)
    ensures IndexInv(env, s) && TaskInv(env, s) && MainInv(env, s)
  {
  }

  lemma SameTaskInv(env: Env, s: State, s': State)
    requires TaskInv(env, s) && s'.pending == s.pending && s'.workers == s.workers
    requires forall k: nat | BeingResolved(s, k) :: StillResolving(s, s', k)
    ensures TaskInv(env, s')
  {
  }

  lemma SameTasks(env: Env, s: State, step: Step)
    requires Enabled(env, s, step) && WritesNoTask(step)
    ensures Apply(env, s, step).pending == s.pending && Apply(env, s, step).workers == s.workers
  {
    hide Rehashed;
  }

  lemma StaysResolving(env: Env, s: State, step: Step, k: nat)
    requires IndexInv(env, s) && MainInv(env, s) && Enabled(env, s, step) && BeingResolved(s, k)
    requires WritesNoTask(step)
    ensures StillResolving(s, Apply(env, s, step), k)
  {
    hide Rehashed;
  }

  lemma TaskKeptByQueue(env: Env, s: State, hasMemory: bool)
    requires Inv(env, s) && Enabled(env, s, Queue(hasMemory))
    ensures TaskInv(env, Apply(env, s, Queue(hasMemory)))
  {
    hide NameInv, BucketInv;
    assert forall p | 0 <= p < |s.pending| :: s.pending[p] != s.index;
  }

  lemma TaskKeptByTake(env: Env, s: State, i: nat)
    requires Inv(env, s) && Enabled(env, s, Take(i))
    ensures TaskInv(env, Apply(env, s, Take(i)))
  {
    var s' := Apply(env, s, Take(i));
    assert s.pending[0] in s.pending;
    assert forall k :: k in s'.pending ==> k in s.pending;
    assert forall p | 0 <= p < |s'.pending| :: s'.pending[p] == s.pending[p + 1];
    forall k: nat | BeingResolved(s, k)
      ensures BeingResolved(s', k)
    {
    }
  }

  // A worker writes only to its own host, so the other tasks do not notice.
  lemma OtherTasksKept(env: Env, s: State, step: Step, i: nat, j: nat)
    requires TaskInv(env, s) && Enabled(env, s, step)
    requires step == ReadAddr(i) || step == WriteName(i) || step == Publish(i) || (step.Scribble? && step.i == i)
    requires BeingResolved(s, j) && j != s.workers[i].slot
    ensures BeingResolved(Apply(env, s, step), j) && Apply(env, s, step).hosts[j] == s.hosts[j]
  {
  }

  lemma OwnTaskKept(env: Env, s: State, step: Step, i: nat)
    requires TaskInv(env, s) && Enabled(env, s, step)
    requires step == ReadAddr(i) || step == WriteName(i) || step == Publish(i) || (step.Scribble? && step.i == i)
    ensures var s', k, w := Apply(env, s, step), s.workers[i].slot, Apply(env, s, step).workers[i];
            && s' == s.(hosts := s'.hosts, workers := s.workers[i := w])
            && (!w.Waiting? ==> w.slot == k && BeingResolved(s', k))
            && (w.Writing? ==> w.addr == s'.hosts[k].value.addr)
            && (w.Publishing? ==> s'.hosts[k].value.fqdn == env.resolve(s'.hosts[k].value.addr))
  {
    assert BeingResolved(s, s.workers[i].slot);
    assert s.workers[i := s.workers[i]] == s.workers;
  }

  lemma TaskKeptByWrite(env: Env, s: State, step: Step, i: nat)
    requires Inv(env, s) && Enabled(env, s, step)
    requires step == ReadAddr(i) || step == WriteName(i) || step == Publish(i) || (step.Scribble? && step.i == i)
    ensures TaskInv(env, Apply(env, s, step))
  {
    hide IndexInv, NameInv, MainInv, BucketInv;
    var k := s.workers[i].slot;
    forall j: nat | BeingResolved(s, j) && j != k
      ensures BeingResolved(Apply(env, s, step), j) && Apply(env, s, step).hosts[j] == s.hosts[j]
    {
      OtherTasksKept(env, s, step, i, j);
    }
    OwnTaskKept(env, s, step, i);
    hide Apply, Enabled, BeingResolved;
    assert forall j | 0 <= j < |s.workers| && j != i && !s.workers[j].Waiting? :: s.workers[j].slot != k;
    assert forall p | 0 <= p < |s.pending| :: s.pending[p] in s.pending && s.pending[p] != k;
  }

  lemma TaskKept(env: Env, s: State, step: Step)
    requires Inv(env, s) && Enabled(env, s, step)
    ensures TaskInv(env, Apply(env, s, step))
  {
    match step
    case Take(i) => TaskKeptByTake(env, s, i);
    case ReadAddr(i) => TaskKeptByWrite(env, s, step, i);
    case Scribble(i, _) => TaskKeptByWrite(env, s, step, i);
    case WriteName(i) => TaskKeptByWrite(env, s, step, i);
    case Publish(i) => TaskKeptByWrite(env, s, step, i);
    case Queue(hasMemory) => TaskKeptByQueue(env, s, hasMemory);
    case _ => TaskKeptByMain(env, s, step);
  }

  lemma NameKept(env: Env, s: State, step: Step)
    requires Inv(env, s) && Enabled(env, s, step)
    ensures NameInv(env, Apply(env, s, step))
  {
  }

  // Steps of the main thread that change the index.
  lemma MainKeptByIndex(env: Env, s: State, step: Step)
    requires Inv(env, s) && Enabled(env, s, step) && (step.Evict? || step.SetLink?)
    ensures MainInv(env, Apply(env, s, step))
  {
    hide BucketInv, Rehashed, TooEmpty, TooFull, TaskInv, NameInv;
  }

  lemma MainKeptByLookup(env: Env, s: State, step: Step)
    requires Inv(env, s) && Enabled(env, s, step) && (step.Lookup? || step.ReadStatus? || step.Copy?)
    ensures MainInv(env, Apply(env, s, step))
  {
    hide BucketInv, Rehashed, TooEmpty, TooFull, TaskInv;
  }

  lemma MainKeptByFill(env: Env, s: State, step: Step)
    requires Inv(env, s) && Enabled(env, s, step) && (step.Allocate? || step.Fill? || step.Queue?)
    ensures MainInv(env, Apply(env, s, step))
  {
    hide BucketInv, Rehashed, TooEmpty, TooFull, TaskInv, NameInv;
  }

  // A worker only writes names and marks hosts as resolved.
  lemma MainKeptByWorker(env: Env, s: State, step: Step)
    requires Inv(env, s) && Enabled(env, s, step)
    requires step.Take? || step.ReadAddr? || step.Scribble? || step.WriteName? || step.Publish?
    ensures MainInv(env, Apply(env, s, step))
  {
    hide BucketInv, Rehashed, TooEmpty, TooFull, NameInv;
  }

  lemma MainKept(env: Env, s: State, step: Step)
    requires Inv(env, s) && Enabled(env, s, step)
    ensures MainInv(env, Apply(env, s, step))
  {
    if step.Take? || step.ReadAddr? || step.Scribble? || step.WriteName? || step.Publish? {
      MainKeptByWorker(env, s, step);
    } else if step.Evict? || step.SetLink? {
      MainKeptByIndex(env, s, step);
    } else if step.Lookup? || step.ReadStatus? || step.Copy? {
      MainKeptByLookup(env, s, step);
    } else {
      MainKeptByFill(env, s, step);
    }
    hide Apply, Enabled, Inv, MainInv;
  }

  // Links point to different hosts below n, none of them to `without`.
  lemma {:induction false} LinksBounded(table: set<Link>, n: nat, without: int)
    requires forall l | l in table :: l.slot < n && l.slot != without
    requires forall l, m | l in table && m in table && l.slot == m.slot :: l == m
    ensures |table| <= n - if 0 <= without < n then 1 else 0
  {
    if n > 0 {
      if l :| l in table && l.slot == n - 1 {
        LinksBounded(table - {l}, n - 1, without);
      } else {
        LinksBounded(table, n - 1, without);
      }
    }
  }

  lemma TableBounded(env: Env, s: State)
    requires IndexInv(env, s)
    ensures |s.table| <= env.size - if Refilling(s.main) then 1 else 0
  {
    LinksBounded(s.table, env.size, if Refilling(s.main) then s.index else -1);
  }

  lemma EvictBuckets(env: Env, s: State, l: Option<Link>, shrinks: bool)
    requires Inv(env, s) && Enabled(env, s, Evict(l, shrinks)) && s.hosts[s.index].value.status.Resolved?
    ensures BucketInv(Apply(env, s, Evict(l, shrinks)))
    ensures |Apply(env, s, Evict(l, shrinks)).table| == |s.table| - 1
    ensures shrinks ==> Apply(env, s, Evict(l, shrinks)).nbuckets <= 10 * |Apply(env, s, Evict(l, shrinks)).table|
  {
    var h := s.hosts[s.index].value;
    assert Listed(s, s.index) && Link(s.index, env.hash(h.addr)) in s.table;
    assert Matches(env, s.hosts, Link(s.index, env.hash(h.addr)), h.addr);
    assert l.Some?;
    var n := |s.table - {l.value}|;
    TableBounded(env, s);
    assert n == |s.table| - 1;
    hide RehashSize, IsPow2, IndexInv, TaskInv, NameInv, MainInv;
    if n == 0 {
      RehashOfNone();
    } else {
      RehashLoad(n);
    }
  }

  lemma SetBuckets(env: Env, s: State)
    requires Inv(env, s) && Enabled(env, s, SetLink)
    ensures BucketInv(Apply(env, s, SetLink))
  {
    var l := Link(s.index, env.hash(s.main.addr));
    assert !Listed(s, s.index) && l !in s.table;
    assert |s.table + {l}| == |s.table| + 1;
    TableBounded(env, s);
    assert Apply(env, s, SetLink).table == s.table + {l};
    assert Apply(env, s, SetLink).nbuckets ==
           if TooFull(|s.table| + 1, s.nbuckets) then Rehashed(|s.table| + 1, s.nbuckets) else s.nbuckets;
    hide Apply, Enabled, Rehashed, RehashSize, IsPow2, IndexInv, TaskInv, NameInv, MainInv, TooFull;
    BucketsAfterSet(|s.table| + 1, s.nbuckets);
  }

  lemma BucketsAfterSet(n: nat, b: nat)
    requires 1 <= n <= MAX_ENTRIES && b < SIZE_MAX_PLUS_1 && (TooFull(n, b) || IsPow2(b) || b == 0)
    ensures var b' := if TooFull(n, b) then Rehashed(n, b) else b;
            b' < SIZE_MAX_PLUS_1 && IsPow2(b') && !TooFull(n, b')
  {
    hide RehashSize, IsPow2;
    RehashLoad(n);
  }

  lemma BucketKept(env: Env, s: State, step: Step)
    requires Inv(env, s) && Enabled(env, s, step)
    ensures BucketInv(Apply(env, s, step))
  {
    if step.Evict? && s.hosts[s.index].value.status.Resolved? {
      EvictBuckets(env, s, step.link, step.shrinks);
    } else if step.SetLink? {
      SetBuckets(env, s);
    } else {
      assert Refilling(s.main) ==> Refilling(Apply(env, s, step).main);
    }
  }

  // Every step of the main thread and of every worker keeps the whole invariant.
  lemma InvKept(env: Env, s: State, step: Step)
    requires Inv(env, s) && Enabled(env, s, step)
    ensures Inv(env, Apply(env, s, step))
  {
    IndexKept(env, s, step);
    TaskKept(env, s, step);
    NameKept(env, s, step);
    MainKept(env, s, step);
    BucketKept(env, s, step);
  }

  // ---- What the cache guarantees over whole runs -----------------------------------------------------------

  // s is the state of some interleaving of the main thread and the workers.
  ghost predicate Reachable(env: Env, workers: nat, s: State) {
    exists steps :: CanRun(env, Initial(env, workers), steps) && After(env, Initial(env, workers), steps) == s
  }

  lemma {:induction false} RunKeepsInv(env: Env, s: State, steps: seq<Step>)
    requires Inv(env, s) && CanRun(env, s, steps)
    ensures Inv(env, After(env, s, steps))
    decreases |steps|
  {
    hide Inv, Enabled;
    if steps != [] {
      InvKept(env, s, steps[0]);
      RunKeepsInv(env, Apply(env, s, steps[0]), steps[1..]);
    }
  }

  lemma ReachableInv(env: Env, workers: nat, s: State)
    requires 0 < env.size <= MAX_ENTRIES && Reachable(env, workers, s)
    ensures Inv(env, s)
  {
    InitialInv(env, workers);
    var steps :| CanRun(env, Initial(env, workers), steps) && After(env, Initial(env, workers), steps) == s;
    RunKeepsInv(env, Initial(env, workers), steps);
  }

  // Every name ip2domain has ever returned from the cache is the name of the address it was asked for.
  lemma HitsAreCorrect(env: Env, workers: nat, s: State, n: nat)
    requires 0 < env.size <= MAX_ENTRIES && Reachable(env, workers, s) && n < |s.answers|
    ensures s.answers[n].1 == env.resolve(s.answers[n].0)
  {
    ReachableInv(env, workers, s);
  }

  // Between calls the index is a map: an address is found exactly if a host of the ring has it, and
  // then only in one way.
  lemma IndexIsAMap(env: Env, workers: nat, s: State, a: Addr)
    requires 0 < env.size <= MAX_ENTRIES && Reachable(env, workers, s) && !Refilling(s.main)
    ensures (exists l | l in s.table :: Matches(env, s.hosts, l, a)) <==>
        (exists k: nat :: SlotReady(s, k) && s.hosts[k].value.addr == a)
    ensures forall l, m | l in s.table && m in s.table && Matches(env, s.hosts, l, a) && Matches(env, s.hosts, m, a) ::
              l == m
    ensures |s.table| <= env.size
  {
    ReachableInv(env, workers, s);
    TableBounded(env, s);
    if k: nat :| SlotReady(s, k) && s.hosts[k].value.addr == a {
      assert Listed(s, k);
      assert Matches(env, s.hosts, Link(k, env.hash(a)), a);
    }
  }

  // No lookup and no removal is ever made on a table without buckets, although the table has none
  // while the only host of the ring is refilled.
  lemma LookupsHaveBuckets(env: Env, workers: nat, s: State)
    requires 0 < env.size <= MAX_ENTRIES && Reachable(env, workers, s) && (s.main.Idle? || s.main.Missed?)
    ensures s.nbuckets > 0 && IsPow2(s.nbuckets)
  {
    ReachableInv(env, workers, s);
  }

  // A host that a task is still about is never refilled, and no two tasks are about one host.
  lemma RefilledHostIsFree(env: Env, workers: nat, s: State)
    requires 0 < env.size <= MAX_ENTRIES && Reachable(env, workers, s) && s.main.Filling?
    ensures s.index !in s.pending && forall i | 0 <= i < |s.workers| :: !Holds(s.workers[i], s.index)
    ensures forall i, j | 0 <= i < j < |s.workers| && !s.workers[i].Waiting? && !s.workers[j].Waiting? ::
        s.workers[i].slot != s.workers[j].slot
  {
    ReachableInv(env, workers, s);
    assert !BeingResolved(s, s.index);
    assert forall p | 0 <= p < |s.pending| :: s.pending[p] != s.index;
  }

  // cache_domain_free: the table that frees the hosts points to each of them exactly once.
  lemma EachHostIsFreedOnce(env: Env, workers: nat, s: State, k: nat)
    requires 0 < env.size <= MAX_ENTRIES && Reachable(env, workers, s) && s.main.Idle? && k < |s.hosts|
    ensures s.hosts[k].Some? <==> exists l :: l in s.table && l.slot == k
    ensures forall l, m | l in s.table && m in s.table && l.slot == m.slot == k :: l == m
  {
    ReachableInv(env, workers, s);
    if s.hosts[k].Some? {
      assert Listed(s, k);
      assert Link(k, env.hash(s.hosts[k].value.addr)) in s.table;
    }
  }
}
