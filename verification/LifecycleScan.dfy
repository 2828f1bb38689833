/** The scan of the file descriptors, and the collection of processes before it. */
module LifecycleScan {
  import opened Wrappers
  import opened Lifecycle
  import opened LifecycleSweeps

  // The process table has each live process under its pid.
  ghost predicate ProcInv(w: World) {
    && (forall pid | pid in w.procTable :: w.procTable[pid] in w.procs && w.procs[w.procTable[pid]].pid == pid)
    && (forall p | p in w.procs :: p < w.next && w.procs[p].pid in w.procTable && w.procTable[w.procs[p].pid] == p)
  }

  ghost predicate Inv(w: World) {
    ConnInv(w) && ProcInv(w)
  }

  // ---- Collecting processes -------------------------------------------------------------------------------

  // What a sweep that has visited the pids in `done` has made of w.
  ghost predicate ProcsLeft(w: World, done: set<nat>, v: World) {
    && v == w.(procs := v.procs, procTable := v.procTable)
    && (forall p :: p in v.procs <==> p in w.procs && (w.procs[p].active || w.procs[p].pid !in done))
    && (forall p | p in v.procs ::
        v.procs[p] == if w.procs[p].pid in done then w.procs[p].(active := false) else w.procs[p])
    && (forall pid :: pid in v.procTable <==> pid in w.procTable && w.procTable[pid] in v.procs)
    && (forall pid | pid in v.procTable :: v.procTable[pid] == w.procTable[pid])
  }

  lemma SweepProcStep(w: World, done: set<nat>, pid: nat, v: World)
    requires ProcInv(w) && pid in w.procTable && pid !in done && ProcsLeft(w, done, v)
    ensures ProcsLeft(w, done + {pid}, SweepProc(v, pid))
  {
  }

  lemma NoPidVisited(w: World)
    requires ProcInv(w)
    ensures ProcsLeft(w, {}, w) && SetOf<nat>([]) == {}
  {
  }

  lemma {:induction false} SweepProcsPrefix(w: World, order: seq<nat>)
    requires ProcInv(w) && forall pid | pid in order :: pid in w.procTable
    requires forall i, j | 0 <= i < j < |order| :: order[i] != order[j]
    ensures ProcsLeft(w, SetOf(order), SweepProcs(w, order))
  {
    hide ProcInv, ProcsLeft, SweepProc;
    if order == [] {
      NoPidVisited(w);
    } else {
      var before, pid := order[..|order| - 1], order[|order| - 1];
      assert order == before + [pid];
      SweepProcsPrefix(w, before);
      assert pid !in before;
      SweepProcStep(w, SetOf(before), pid, SweepProcs(w, before));
      assert SetOf(order) == SetOf(before) + {pid};
    }
  }

  predicate Running(w: World, p: Option<Ptr>) {
    p.Some? && p.value in w.procs && w.procs[p.value].active
  }

  ghost function ActivePids(w: World): set<nat> {
    set pid | pid in w.procTable && Running(w, Some(w.procTable[pid]))
  }

  // What the collection of processes leaves: those that were active, no longer active.
  ghost function ProcsCollected(w: World): World {
    w.(procs := map p | p in w.procs && w.procs[p].active :: w.procs[p].(active := false),
       procTable := map pid | pid in ActivePids(w) :: w.procTable[pid])
  }

  // The collection frees exactly the inactive processes, each once, and uses none of them after that.
  lemma ProcCollectionIsExact(w: World, order: seq<nat>)
    requires ProcInv(w) && Enumerates(order, w.procTable.Keys)
    ensures SweepProcs(w, order) == ProcsCollected(w) && ProcInv(ProcsCollected(w))
  {
    hide ProcInv, ProcsLeft, ProcsCollected;
    SweepProcsPrefix(w, order);
    assert SetOf(order) == w.procTable.Keys;
    AllPidsVisited(w, SweepProcs(w, order));
    CollectedProcsKeepInv(w);
  }

  lemma AllPidsVisited(w: World, v: World)
    requires ProcInv(w) && ProcsLeft(w, w.procTable.Keys, v)
    ensures v == ProcsCollected(w)
  {
    assert v.procs == ProcsCollected(w).procs;
    assert v.procTable == ProcsCollected(w).procTable;
  }

  lemma CollectedProcsKeepInv(w: World)
    requires ProcInv(w)
    ensures ProcInv(ProcsCollected(w))
  {
  }

  // ---- What a scan keeps ------------------------------------------------------------------------------------

  predicate ProcMayDiffer(c: Conn, d: Conn) {
    d == c.(proc := d.proc)
  }

  // Only the process a connection belongs to may have changed.
  ghost predicate SameConns(w: World, v: World) {
    && v.fault == w.fault && v.table == w.table && w.next <= v.next && v.conns.Keys == w.conns.Keys
    && forall c | c in w.conns :: ProcMayDiffer(w.conns[c], v.conns[c])
  }

  lemma SameConnsKeepsInv(w: World, v: World)
    requires ConnInv(w) && SameConns(w, v)
    ensures ConnInv(v)
  {
    hide Indexed, InodesDiffer;
    assert SameIdentities(w, v);
    IdentitiesKeep(w, v);
    hide SameIdentities;
  }

  // Processes are created and filled, never freed, and those that were active stay active.
  ghost predicate KeepsProcs(w: World, v: World) {
    && (forall p | p in w.procs ::
        p in v.procs && v.procs[p].pid == w.procs[p].pid && v.procs[p].stat == w.procs[p].stat)
    && (forall p | p in w.procs && w.procs[p].active :: v.procs[p].active)
    && (forall p | p in v.procs && p !in w.procs :: p >= w.next && v.procs[p].active && v.procs[p].stat == NO_TRAFFIC)
    && w.next <= v.next
  }

  // Every process but p is as it was.
  ghost predicate OnlyTouches(w: World, v: World, p: Option<Ptr>) {
    && (forall q | q in w.procs && Some(q) != p :: q in v.procs && v.procs[q] == w.procs[q])
    && (forall q | q in v.procs && Some(q) != p :: q in w.procs)
  }

  // The process being filled runs, and the pointers in its vector are live.
  ghost predicate FillingOk(f: Filling, pid: nat) {
    && Inv(f.w)
    && (f.proc.None? ==> pid !in f.w.procTable)
    && (f.proc.Some? ==> Running(f.w, f.proc) && f.w.procs[f.proc.value].pid == pid)
    && (f.proc.Some? ==> forall c | c in f.w.procs[f.proc.value].connections :: c in f.w.conns)
  }

  ghost predicate FindsSocket(fds: seq<Option<nat>>, live: set<nat>) {
    exists inode :: inode in live && Some(inode) in fds
  }

  // What filling a process from file descriptors does to the processes: one is created just when the name
  // can be read and some descriptor is a socket with a connection.
  ghost predicate FillsProcs(f: Filling, s: Scan, fds: seq<Option<nat>>, g: Filling) {
    && KeepsProcs(f.w, g.w) && OnlyTouches(f.w, g.w, g.proc) && g.w.listed == f.w.listed
    && (f.proc.Some? ==> g.proc == f.proc && g.w.procTable == f.w.procTable)
    && (f.proc.None? ==> (g.proc.Some? <==> s.named && FindsSocket(fds, LiveInodes(f.w))))
    && (f.proc.None? ==> g.w.procTable.Keys == f.w.procTable.Keys + if g.proc.Some? then {s.pid} else {})
  }

  // And to the connections: those with an inode among the descriptors are with the process now.
  ghost predicate FillsConns(f: Filling, s: Scan, fds: seq<Option<nat>>, g: Filling) {
    && SameConns(f.w, g.w)
    && forall c | c in f.w.conns ::
         g.w.conns[c].proc ==
         if (f.proc.Some? || s.named) && Some(f.w.conns[c].inode) in fds then g.proc else f.w.conns[c].proc
  }

  lemma SameConnsTwice(u: World, v: World, w: World)
    requires SameConns(u, v) && SameConns(v, w)
    ensures SameConns(u, w) && LiveInodes(v) == LiveInodes(u)
  {
    assert forall c | c in u.conns :: v.conns[c].inode == u.conns[c].inode;
  }

  lemma KeepsProcsTwice(u: World, v: World, w: World)
    requires KeepsProcs(u, v) && KeepsProcs(v, w)
    ensures KeepsProcs(u, w)
  {
  }

  lemma OnlyTouchesTwice(u: World, v: World, w: World, p: Option<Ptr>, q: Option<Ptr>)
    requires OnlyTouches(u, v, p) && OnlyTouches(v, w, q) && (p.Some? ==> p == q)
    ensures OnlyTouches(u, w, q)
  {
  }

  // ---- One file descriptor ------------------------------------------------------------------------------------

  lemma CreateProcKeepsInv(w: World, pid: nat)
    requires Inv(w) && pid !in w.procTable
    ensures FillingOk(Filling(CreateProc(w, pid), Some(w.next)), pid)
    ensures CreateProc(w, pid).conns == w.conns && CreateProc(w, pid).listed == w.listed
    ensures CreateProc(w, pid).procTable.Keys == w.procTable.Keys + {pid}
    ensures SameConns(w, CreateProc(w, pid)) && KeepsProcs(w, CreateProc(w, pid))
    ensures OnlyTouches(w, CreateProc(w, pid), Some(w.next))
  {
    assert w.next !in w.procs;
    SameConnsKeepsInv(w, CreateProc(w, pid));
    hide ConnInv;
  }

  lemma AttachKeepsInv(f: Filling, pid: nat, c: Ptr)
    requires FillingOk(f, pid) && f.proc.Some? && c in f.w.conns
    ensures FillingOk(Filling(Attach(f.w, f.proc.value, c), f.proc), pid)
    ensures SameConns(f.w, Attach(f.w, f.proc.value, c)) && KeepsProcs(f.w, Attach(f.w, f.proc.value, c))
    ensures OnlyTouches(f.w, Attach(f.w, f.proc.value, c), f.proc)
  {
    var v := Attach(f.w, f.proc.value, c);
    SameConnsKeepsInv(f.w, v);
    hide ConnInv;
  }

  lemma OneConn(w: World, inode: nat, c: Ptr)
    requires ConnInv(w) && FindInode(w, inode) == Some(c)
    ensures c in w.conns && inode in LiveInodes(w) && FindsSocket([Some(inode)], LiveInodes(w))
    ensures forall d | d in w.conns :: w.conns[d].inode == inode <==> d == c
  {
    FindIsLive(w, inode);
    assert w.conns[c].inode in LiveInodes(w);
    assert Some(inode) in [Some(inode)];
  }

  // A descriptor with a connection, when there is a process: the connection is with it now.
  lemma FoundHere(f: Filling, s: Scan, inode: nat, c: Ptr)
    requires FillingOk(f, s.pid) && FindInode(f.w, inode) == Some(c) && f.proc.Some?
    ensures c in f.w.conns
    ensures FillingOk(Filling(Attach(f.w, f.proc.value, c), f.proc), s.pid)
    ensures FillsProcs(f, s, [Some(inode)], Filling(Attach(f.w, f.proc.value, c), f.proc))
    ensures FillsConns(f, s, [Some(inode)], Filling(Attach(f.w, f.proc.value, c), f.proc))
  {
    OneConn(f.w, inode, c);
    AttachKeepsInv(f, s.pid, c);
    hide Inv, FindInode, KeepsProcs, OnlyTouches;
  }

  // And when a process is created for it.
  lemma FoundFirst(f: Filling, s: Scan, inode: nat, c: Ptr, g: Filling)
    requires FillingOk(f, s.pid) && FindInode(f.w, inode) == Some(c) && f.proc.None? && s.named
    requires g == Filling(Attach(CreateProc(f.w, s.pid), f.w.next, c), Some(f.w.next))
    ensures FillingOk(g, s.pid) && FillsProcs(f, s, [Some(inode)], g) && FillsConns(f, s, [Some(inode)], g)
  {
    var v := Filling(CreateProc(f.w, s.pid), Some(f.w.next));
    OneConn(f.w, inode, c);
    CreateProcKeepsInv(f.w, s.pid);
    hide CreateProc, Attach, SameConns, KeepsProcs, OnlyTouches, FillsProcs, FillsConns;
    FindByInode(v.w, inode, c);
    FoundHere(v, s, inode, c);
    hide FillingOk, FindInode, Inv, FindsSocket, LiveInodes;
    FirstProcs(f, s, inode, v, g);
    FirstConns(f, s, inode, v, g);
  }

  lemma FirstProcs(f: Filling, s: Scan, inode: nat, v: Filling, g: Filling)
    requires f.proc.None? && s.named && v.proc.Some? && FindsSocket([Some(inode)], LiveInodes(f.w))
    requires KeepsProcs(f.w, v.w) && OnlyTouches(f.w, v.w, v.proc) && v.w.listed == f.w.listed
    requires v.w.procTable.Keys == f.w.procTable.Keys + {s.pid} && FillsProcs(v, s, [Some(inode)], g)
    ensures FillsProcs(f, s, [Some(inode)], g)
  {
    KeepsProcsTwice(f.w, v.w, g.w);
    OnlyTouchesTwice(f.w, v.w, g.w, v.proc, g.proc);
    hide KeepsProcs, OnlyTouches;
  }

  lemma FirstConns(f: Filling, s: Scan, inode: nat, v: Filling, g: Filling)
    requires f.proc.None? && s.named && v.proc.Some? && v.w.conns == f.w.conns && SameConns(f.w, v.w)
    requires FillsConns(v, s, [Some(inode)], g)
    ensures FillsConns(f, s, [Some(inode)], g)
  {
    SameConnsTwice(f.w, v.w, g.w);
    hide SameConns;
  }

  lemma NothingHere(f: Filling, s: Scan, fds: seq<Option<nat>>)
    requires FillingOk(f, s.pid)
    requires forall inode | inode in LiveInodes(f.w) && Some(inode) in fds :: f.proc.None? && !s.named
    ensures FillsProcs(f, s, fds, f) && FillsConns(f, s, fds, f)
  {
    hide FillingOk;
    assert forall c | c in f.w.conns :: f.w.conns[c].inode in LiveInodes(f.w);
  }

  lemma FillsProcsTwice(f: Filling, s: Scan, fds: seq<Option<nat>>, g: Filling, h: Filling)
    requires fds != [] && FillsProcs(f, s, fds[..1], g) && FillsProcs(g, s, fds[1..], h)
    requires LiveInodes(g.w) == LiveInodes(f.w)
    ensures FillsProcs(f, s, fds, h)
  {
    assert fds == fds[..1] + fds[1..];
    KeepsProcsTwice(f.w, g.w, h.w);
    OnlyTouchesTwice(f.w, g.w, h.w, g.proc, h.proc);
    hide KeepsProcs, OnlyTouches, LiveInodes;
  }

  lemma FillsTwice(f: Filling, s: Scan, fds: seq<Option<nat>>, g: Filling, h: Filling)
    requires fds != [] && FillsProcs(f, s, fds[..1], g) && FillsConns(f, s, fds[..1], g)
    requires FillsProcs(g, s, fds[1..], h) && FillsConns(g, s, fds[1..], h)
    ensures FillsProcs(f, s, fds, h) && FillsConns(f, s, fds, h)
  {
    SameConnsTwice(f.w, g.w, h.w);
    assert SameConns(g.w, g.w);
    SameConnsTwice(f.w, g.w, g.w);
    FillsProcsTwice(f, s, fds, g, h);
    assert fds == fds[..1] + fds[1..];
    assert forall c | c in f.w.conns ::
        f.w.conns[c].inode in LiveInodes(f.w) && g.w.conns[c].inode == f.w.conns[c].inode;
    hide SameConns, KeepsProcs, OnlyTouches;
  }

  lemma ScanFdFills(f: Filling, s: Scan, fd: Option<nat>)
    requires FillingOk(f, s.pid)
    ensures FillingOk(ScanFd(f, s, fd).0, s.pid)
    ensures FillsProcs(f, s, [fd], ScanFd(f, s, fd).0) && FillsConns(f, s, [fd], ScanFd(f, s, fd).0)
    ensures !ScanFd(f, s, fd).1 ==> f.proc.None? && !s.named && ScanFd(f, s, fd).0 == f
  {
    assert ConnInv(f.w);
    hide FillsProcs, FillsConns, Inv, ConnInv, Attach, CreateProc, FindInode;
    var found := if fd.Some? then FindInode(f.w, fd.value) else None;
    if found.None? {
      if fd.Some? {
        assert fd.value !in LiveInodes(f.w) by {
          FindIsLive(f.w, fd.value);
        }
      }
      NothingHere(f, s, [fd]);
    } else if f.proc.Some? {
      FoundHere(f, s, fd.value, found.value);
    } else if !s.named {
      NothingHere(f, s, [fd]);
    } else {
      FoundFirst(f, s, fd.value, found.value, ScanFd(f, s, fd).0);
    }
  }

  lemma {:induction false} ScanFdsFill(f: Filling, s: Scan, fds: seq<Option<nat>>)
    requires FillingOk(f, s.pid)
    ensures FillingOk(ScanFds(f, s, fds), s.pid)
    ensures FillsProcs(f, s, fds, ScanFds(f, s, fds)) && FillsConns(f, s, fds, ScanFds(f, s, fds))
    decreases |fds|
  {
    hide FillsProcs, FillsConns, FillingOk, ScanFd;
    if fds == [] {
      NothingHere(f, s, fds);
    } else {
      ScanFdFills(f, s, fds[0]);
      var (g, more) := ScanFd(f, s, fds[0]);
      if more {
        ScanFdsFill(g, s, fds[1..]);
        assert fds[..1] == [fds[0]];
        FillsTwice(f, s, fds, g, ScanFds(g, s, fds[1..]));
      } else {
        NothingHere(f, s, fds);
      }
    }
  }

  // ---- One process --------------------------------------------------------------------------------------------

  lemma StartKeepsInv(w: World, pid: nat)
    requires Inv(w)
    ensures FillingOk(StartScan(w, pid), pid) && (StartScan(w, pid).proc.Some? <==> pid in w.procTable)
    ensures StartScan(w, pid).w == w.(procs := StartScan(w, pid).w.procs)
    ensures KeepsProcs(w, StartScan(w, pid).w) && OnlyTouches(w, StartScan(w, pid).w, StartScan(w, pid).proc)
  {
    SameConnsKeepsInv(w, StartScan(w, pid).w);
    hide ConnInv;
  }

  // A listed process is live and active, and all of its connections are live.
  ghost predicate ListedProcOk(w: World, p: Ptr) {
    && Running(w, Some(p)) && w.procs[p].totalConnections == |w.procs[p].connections|
    && forall c | c in w.procs[p].connections :: c in w.conns
  }

  ghost predicate ListedOk(w: World) {
    forall p | p in w.listed :: ListedProcOk(w, p)
  }

  lemma EndKeepsInv(f: Filling, pid: nat)
    requires FillingOk(f, pid)
    ensures Inv(EndScan(f)) && EndScan(f) == f.w.(procs := EndScan(f).procs, listed := EndScan(f).listed)
    ensures KeepsProcs(f.w, EndScan(f)) && OnlyTouches(f.w, EndScan(f), f.proc)
    ensures f.proc.None? ==> EndScan(f) == f.w
    ensures f.proc.Some? ==> ListedProcOk(EndScan(f), f.proc.value) && EndScan(f).listed == f.w.listed + [f.proc.value]
  {
    SameConnsKeepsInv(f.w, EndScan(f));
    hide ConnInv;
  }

  // The scan of s puts a connection with this inode in the process with its pid.
  predicate AssignsHere(s: Scan, known: set<nat>, inode: nat) {
    s.fds.Some? && Some(inode) in s.fds.value && (s.pid in known || s.named)
  }

  // The pids in the process table once s is scanned.
  ghost function KnownAfter(s: Scan, known: set<nat>, live: set<nat>): set<nat> {
    if s.fds.Some? && s.named && FindsSocket(s.fds.value, live) then known + {s.pid} else known
  }

  ghost predicate RunsAs(w: World, p: Option<Ptr>, pid: nat) {
    Running(w, p) && w.procs[p.value].pid == pid
  }

  // What the scan of one process does to the connections.
  ghost predicate AssignsConns(w: World, s: Scan, v: World) {
    && (forall c | c in w.conns && AssignsHere(s, w.procTable.Keys, w.conns[c].inode) ::
        c in v.conns && RunsAs(v, v.conns[c].proc, s.pid))
    && (forall c | c in w.conns && !AssignsHere(s, w.procTable.Keys, w.conns[c].inode) ::
        c in v.conns && v.conns[c].proc == w.conns[c].proc)
  }

  // And to the list of processes.
  ghost predicate Lists(w: World, s: Scan, v: World) {
    || v.listed == w.listed
    || (|v.listed| == |w.listed| + 1 && v.listed[..|w.listed|] == w.listed
        && RunsAs(v, Some(v.listed[|w.listed|]), s.pid))
  }

  // The stages of a scan: f when its process has been looked up, g when the descriptors have been read.
  ghost predicate Stages(w: World, s: Scan, f: Filling, g: Filling, v: World)
    requires s.fds.Some?
  {
    && f.w == w.(procs := f.w.procs) && (f.proc.Some? <==> s.pid in w.procTable)
    && KeepsProcs(w, f.w) && OnlyTouches(w, f.w, f.proc)
    && FillsProcs(f, s, s.fds.value, g) && FillsConns(f, s, s.fds.value, g)
    && v == g.w.(procs := v.procs, listed := v.listed) && KeepsProcs(g.w, v) && OnlyTouches(g.w, v, g.proc)
    && (g.proc.None? ==> v.listed == g.w.listed)
    && (g.proc.Some? ==>
        ListedProcOk(v, g.proc.value) && v.procs[g.proc.value].pid == s.pid && v.listed == g.w.listed + [g.proc.value])
  }

  lemma ScanStages(w: World, s: Scan) returns (f: Filling, g: Filling)
    requires Inv(w) && s.fds.Some?
    ensures Stages(w, s, f, g, ScanProcess(w, s)) && Inv(ScanProcess(w, s))
  {
    f := StartScan(w, s.pid);
    g := ScanFds(f, s, s.fds.value);
    StartKeepsInv(w, s.pid);
    ScanFdsFill(f, s, s.fds.value);
    EndKeepsInv(g, s.pid);
    assert g.proc.Some? ==> g.w.procs[g.proc.value].pid == s.pid;
    hide FillingOk, Inv, StartScan, ScanFds, EndScan, FillsProcs, FillsConns, OnlyTouches, ListedProcOk;
  }

  lemma ScanKeeps(w: World, s: Scan)
    requires Inv(w)
    ensures Inv(ScanProcess(w, s)) && SameConns(w, ScanProcess(w, s)) && KeepsProcs(w, ScanProcess(w, s))
  {
    hide Inv;
    if s.fds.Some? {
      var f, g := ScanStages(w, s);
      var v := ScanProcess(w, s);
      hide ScanProcess, OnlyTouches, ListedProcOk;
      assert SameConns(w, f.w) && SameConns(g.w, v);
      SameConnsTwice(w, f.w, g.w);
      SameConnsTwice(w, g.w, v);
      hide SameConns;
      KeepsProcsTwice(w, f.w, g.w);
      KeepsProcsTwice(w, g.w, v);
      hide KeepsProcs;
    }
  }

  lemma ScanKnows(w: World, s: Scan)
    requires Inv(w)
    ensures ScanProcess(w, s).procTable.Keys == KnownAfter(s, w.procTable.Keys, LiveInodes(w))
  {
    hide Inv;
    if s.fds.Some? {
      var f, g := ScanStages(w, s);
      assert f.w.conns == w.conns && LiveInodes(f.w) == LiveInodes(w);
      hide ScanProcess, OnlyTouches, ListedProcOk, FillsConns, KeepsProcs;
    }
  }

  lemma ScanAssigns(w: World, s: Scan)
    requires Inv(w)
    ensures AssignsConns(w, s, ScanProcess(w, s)) && Lists(w, s, ScanProcess(w, s))
  {
    hide Inv;
    if s.fds.Some? {
      var f, g := ScanStages(w, s);
      hide ScanProcess, OnlyTouches, KeepsProcs;
      forall c | c in w.conns && AssignsHere(s, w.procTable.Keys, w.conns[c].inode)
        ensures g.proc.Some?
      {
        assert w.conns[c].inode in LiveInodes(f.w);
        assert f.proc.None? ==> FindsSocket(s.fds.value, LiveInodes(f.w));
      }
    }
  }

  lemma ScanKeepsListed(w: World, s: Scan)
    requires Inv(w) && ListedOk(w)
    ensures ListedOk(ScanProcess(w, s))
  {
    hide Inv;
    if s.fds.Some? {
      var f, g := ScanStages(w, s);
      var v := ScanProcess(w, s);
      hide ScanProcess;
      ScanKeeps(w, s);
      OnlyTouchesTwice(w, f.w, g.w, f.proc, g.proc);
      OnlyTouchesTwice(w, g.w, v, g.proc, g.proc);
      assert v.conns.Keys == w.conns.Keys;
      assert v.listed == if g.proc.Some? then w.listed + [g.proc.value] else w.listed;
      hide Stages, KeepsProcs, SameConns, KnownAfter;
    }
  }

  // ---- All processes --------------------------------------------------------------------------------------------

  // The pid that a connection with this inode belongs to after the scans: the last one that assigns it.
  ghost function AssignedPid(scans: seq<Scan>, known: set<nat>, live: set<nat>, inode: nat): Option<nat>
    decreases |scans|
  {
    if scans == [] then None
    else
      var later := AssignedPid(scans[1..], KnownAfter(scans[0], known, live), live, inode);
      if later.None? && AssignsHere(scans[0], known, inode) then Some(scans[0].pid) else later
  }

  ghost predicate AssignedRight(w: World, scans: seq<Scan>, v: World, c: Ptr)
    requires c in w.conns && c in v.conns
  {
    var pid := AssignedPid(scans, w.procTable.Keys, LiveInodes(w), w.conns[c].inode);
    if pid.Some? then RunsAs(v, v.conns[c].proc, pid.value) else v.conns[c].proc == w.conns[c].proc
  }

  lemma {:induction false} ScanAllKeeps(w: World, scans: seq<Scan>)
    requires Inv(w)
    ensures Inv(ScanAll(w, scans)) && SameConns(w, ScanAll(w, scans)) && KeepsProcs(w, ScanAll(w, scans))
    ensures ListedOk(w) ==> ListedOk(ScanAll(w, scans))
    decreases |scans|
  {
    hide Inv, ListedOk, ScanProcess;
    if scans != [] {
      hide SameConns, KeepsProcs;
      var u := ScanProcess(w, scans[0]);
      ScanKeeps(w, scans[0]);
      if ListedOk(w) {
        ScanKeepsListed(w, scans[0]);
      }
      ScanAllKeeps(u, scans[1..]);
      SameConnsTwice(w, u, ScanAll(w, scans));
      KeepsProcsTwice(w, u, ScanAll(w, scans));
    }
  }

  // The scans give each connection to the process that the inputs say, and leave the others as they were.
  lemma {:induction false} ScanAllAssigns(w: World, scans: seq<Scan>, c: Ptr)
    requires Inv(w) && c in w.conns
    ensures c in ScanAll(w, scans).conns && AssignedRight(w, scans, ScanAll(w, scans), c)
    decreases |scans|
  {
    hide Inv, ScanProcess;
    if scans != [] {
      var u := ScanProcess(w, scans[0]);
      ScanKeeps(w, scans[0]);
      ScanKnows(w, scans[0]);
      ScanAssigns(w, scans[0]);
      SameConnsTwice(w, u, u);
      ScanAllAssigns(u, scans[1..], c);
      ScanAllKeeps(u, scans[1..]);
      hide AssignsHere;
    }
  }

  ghost predicate PidsDiffer(scans: seq<Scan>) {
    forall i, j | 0 <= i < j < |scans| :: scans[i].pid != scans[j].pid
  }

  ghost predicate ListedDiffer(w: World) {
    forall i, j | 0 <= i < j < |w.listed| :: w.listed[i] != w.listed[j]
  }

  // No process that is listed already will be scanned again.
  ghost predicate NotListedYet(w: World, scans: seq<Scan>) {
    forall p, i | p in w.listed && 0 <= i < |scans| :: p in w.procs && w.procs[p].pid != scans[i].pid
  }

  lemma {:induction false} ScanAllListsOnce(w: World, scans: seq<Scan>)
    requires Inv(w) && PidsDiffer(scans) && ListedDiffer(w) && NotListedYet(w, scans)
    ensures ListedDiffer(ScanAll(w, scans))
    decreases |scans|
  {
    hide Inv, ScanProcess;
    if scans != [] {
      var u := ScanProcess(w, scans[0]);
      ScanKeeps(w, scans[0]);
      ScanAssigns(w, scans[0]);
      hide SameConns, AssignsConns;
      assert forall p | p in w.listed ::
          p in u.procs && u.procs[p].pid == w.procs[p].pid && u.procs[p].pid != scans[0].pid;
      assert forall p | p in u.listed && p !in w.listed :: u.procs[p].pid == scans[0].pid && p in u.procs;
      hide KeepsProcs;
      assert NotListedYet(u, scans[1..]);
      assert ListedDiffer(u);
      hide NotListedYet, ListedDiffer, Lists;
      ScanAllListsOnce(u, scans[1..]);
    }
  }
}
