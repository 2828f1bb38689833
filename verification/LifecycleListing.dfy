/** What the listed processes show: which connections are in their vectors, and what those are. */
module LifecycleListing {
  import opened Wrappers
  import opened Lifecycle
  import opened LifecycleSweeps
  import opened LifecycleScan
  import opened LifecycleTheorems

  // ---- Tuples -----------------------------------------------------------------------------------------------

  // The first row that names the inode, before any malformed one, has this tuple.
  predicate NamesFirst(rows: seq<Row>, inode: nat, tuple: Tuple)
    decreases |rows|
  {
    rows != [] && !rows[0].Malformed? &&
    if Marks(rows[0]) && rows[0].inode == inode then rows[0].tuple == tuple else NamesFirst(rows[1..], inode, tuple)
  }

  lemma CreatedByRow(w: World, row: Row, c: Ptr)
    requires ConnInv(w) && c in ReadRow(w, row).conns && c !in w.conns
    ensures Marks(row) && ReadRow(w, row).conns[c].inode == row.inode && ReadRow(w, row).conns[c].tuple == row.tuple
  {
    FindIsLive(w, row.inode);
  }

  lemma NewInode(u: World, v: World, c: Ptr, inode: nat)
    requires ConnInv(v) && KeepsConns(u, v) && c in v.conns && c !in u.conns && inode in LiveInodes(u)
    ensures v.conns[c].inode != inode
  {
    assert forall d | d in u.conns :: d in v.conns && v.conns[d].inode == u.conns[d].inode && d != c;
  }

  lemma StaysNamed(u: World, v: World, c: Ptr)
    requires KeepsConns(u, v) && c in u.conns
    ensures c in v.conns && v.conns[c].inode == u.conns[c].inode && v.conns[c].tuple == u.conns[c].tuple
  {
  }

  // A new connection has the tuple of the first row that names its inode.
  lemma {:induction false} NewTuple(w: World, rows: seq<Row>, c: Ptr)
    requires ConnInv(w) && c in ReadRows(w, rows).conns && c !in w.conns
    ensures NamesFirst(rows, ReadRows(w, rows).conns[c].inode, ReadRows(w, rows).conns[c].tuple)
    decreases |rows|
  {
    if rows != [] && !rows[0].Malformed? {
      var u, v := ReadRow(w, rows[0]), ReadRows(w, rows);
      hide ConnInv, ReadRow, KeepsConns;
      RowKeepsInv(w, rows[0]);
      RowsKeepInv(u, rows[1..]);
      RowNames(w, rows[0]);
      if c in u.conns {
        CreatedByRow(w, rows[0], c);
        StaysNamed(u, v, c);
      } else {
        NewTuple(u, rows[1..], c);
        if Marks(rows[0]) {
          NewInode(u, v, c, rows[0].inode);
        }
      }
    }
  }

  // ---- Vectors ----------------------------------------------------------------------------------------------

  // The vector of the process that is being filled.
  function Vector(f: Filling): seq<Ptr> {
    if f.proc.Some? && f.proc.value in f.w.procs then f.w.procs[f.proc.value].connections else []
  }

  // The inodes of the connections in a vector, None for a pointer to freed memory.
  function Inodes(w: World, cs: seq<Ptr>): seq<Option<nat>> {
    seq(|cs|, i requires 0 <= i < |cs| => if cs[i] in w.conns then Some(w.conns[cs[i]].inode) else None)
  }

  // The descriptors that are sockets of live connections, in their order and as often as they come.
  function Sockets(fds: seq<Option<nat>>, live: set<nat>): seq<Option<nat>> {
    if fds == [] then [] else (if fds[0].Some? && fds[0].value in live then [fds[0]] else []) + Sockets(fds[1..], live)
  }

  // The vector has what it had, and then the connections of the descriptors.
  ghost predicate Gathers(f: Filling, fds: seq<Option<nat>>, g: Filling) {
    g.proc.Some? ==> Inodes(f.w, Vector(g)) == Inodes(f.w, Vector(f)) + Sockets(fds, LiveInodes(f.w))
  }

  lemma ScanFdGathers(f: Filling, s: Scan, fd: Option<nat>)
    requires FillingOk(f, s.pid)
    ensures Gathers(f, [fd], ScanFd(f, s, fd).0)
  {
    var found := if fd.Some? then FindInode(f.w, fd.value) else None;
    if fd.Some? {
      FindIsLive(f.w, fd.value);
    }
    if found.Some? {
      OneConn(f.w, fd.value, found.value);
    }
    assert Sockets([fd], LiveInodes(f.w)) == if found.Some? then [fd] else [];
    hide Inv, FindInode, LiveInodes, FindsSocket;
  }

  lemma {:induction false} ScanFdsGather(f: Filling, s: Scan, fds: seq<Option<nat>>)
    requires FillingOk(f, s.pid)
    ensures Gathers(f, fds, ScanFds(f, s, fds))
    decreases |fds|
  {
    hide FillingOk, ScanFd, FillsProcs;
    if fds != [] {
      var (g, more) := ScanFd(f, s, fds[0]);
      ScanFdFills(f, s, fds[0]);
      ScanFdGathers(f, s, fds[0]);
      if more {
        ScanFdsGather(g, s, fds[1..]);
        ScanFdsFill(g, s, fds[1..]);
        GathersTwice(f, s, fds, g, ScanFds(g, s, fds[1..]));
      }
    }
  }

  lemma GathersTwice(f: Filling, s: Scan, fds: seq<Option<nat>>, g: Filling, h: Filling)
    requires fds != [] && Gathers(f, [fds[0]], g) && Gathers(g, fds[1..], h)
    requires SameConns(f.w, g.w) && FillsProcs(f, s, [fds[0]], g) && FillsProcs(g, s, fds[1..], h)
    requires f.proc.None? ==> Vector(f) == []
    ensures Gathers(f, fds, h)
  {
    hide FillsProcs, Vector, SameConns, LiveInodes, Inodes, Sockets;
    SameLive(f.w, g.w);
    SameInodesIn(f.w, g.w, Vector(g));
    SameInodesIn(f.w, g.w, Vector(h));
    SplitSockets(fds, LiveInodes(f.w));
    if h.proc.Some? && g.proc.None? {
      NotStarted(f, s, fds, g, h);
      NoInodes(f.w);
    }
  }

  lemma SameLive(w: World, v: World)
    requires SameConns(w, v)
    ensures LiveInodes(v) == LiveInodes(w)
  {
    assert forall c | c in w.conns :: v.conns[c].inode == w.conns[c].inode;
  }

  // A process is created no later than at the first socket.
  lemma NotStarted(f: Filling, s: Scan, fds: seq<Option<nat>>, g: Filling, h: Filling)
    requires fds != [] && FillsProcs(f, s, [fds[0]], g) && FillsProcs(g, s, fds[1..], h)
    requires h.proc.Some? && g.proc.None?
    ensures f.proc.None? && Sockets([fds[0]], LiveInodes(f.w)) == [] && Vector(g) == []
  {
    hide KeepsProcs, OnlyTouches, LiveInodes;
    assert [fds[0]][0] == fds[0];
  }

  lemma SplitSockets(fds: seq<Option<nat>>, live: set<nat>)
    requires fds != []
    ensures Sockets([fds[0]], live) + Sockets(fds[1..], live) == Sockets(fds, live)
  {
  }

  lemma NoInodes(w: World)
    ensures Inodes(w, []) == []
  {
  }

  lemma SameInodesIn(w: World, v: World, cs: seq<Ptr>)
    requires SameConns(w, v)
    ensures Inodes(w, cs) == Inodes(v, cs)
  {
  }

  // The process with the pid of the scan is listed, with exactly the connections of the descriptors, in their order.
  ghost predicate Shows(v: World, s: Scan)
    requires s.fds.Some?
  {
    && s.pid in v.procTable && v.procTable[s.pid] in v.procs && v.procTable[s.pid] in v.listed
    && Inodes(v, v.procs[v.procTable[s.pid]].connections) == Sockets(s.fds.value, LiveInodes(v))
  }

  // The vector of the process that has been filled, at the end of its scan.
  lemma EndVector(f: Filling, pid: nat)
    requires FillingOk(f, pid) && f.proc.Some?
    ensures pid in EndScan(f).procTable && EndScan(f).procTable[pid] == f.proc.value
    ensures f.proc.value in EndScan(f).procs && EndScan(f).procs[f.proc.value].connections == Vector(f)
  {
  }

  lemma Gathered(w: World, s: Scan) returns (g: Filling)
    requires Inv(w) && s.fds.Some?
    ensures FillingOk(g, s.pid) && ScanProcess(w, s) == EndScan(g)
    ensures g.proc.Some? ==> Inodes(w, Vector(g)) == Sockets(s.fds.value, LiveInodes(w))
  {
    var f := StartScan(w, s.pid);
    g := ScanFds(f, s, s.fds.value);
    ScanStagesOf(w, s);
    hide *;
    StartsEmpty(w, s.pid);
    StartKeepsInv(w, s.pid);
    ScanFdsFill(f, s, s.fds.value);
    ScanFdsGather(f, s, s.fds.value);
    if g.proc.Some? {
      FromEmpty(w, f, s.fds.value, g);
    }
  }

  lemma ScanStagesOf(w: World, s: Scan)
    requires s.fds.Some?
    ensures ScanProcess(w, s) == EndScan(ScanFds(StartScan(w, s.pid), s, s.fds.value))
  {
  }

  lemma FromEmpty(w: World, f: Filling, fds: seq<Option<nat>>, g: Filling)
    requires Vector(f) == [] && f.w.conns == w.conns && Gathers(f, fds, g) && g.proc.Some?
    ensures Inodes(w, Vector(g)) == Sockets(fds, LiveInodes(w))
  {
    assert Inodes(f.w, Vector(f)) == [];
    hide Vector, Sockets;
  }

  lemma StartsEmpty(w: World, pid: nat)
    ensures Vector(StartScan(w, pid)) == [] && StartScan(w, pid).w.conns == w.conns
  {
  }

  // A scan of a process that is known afterwards lists it, with exactly the connections of its descriptors.
  lemma ScanGathers(w: World, s: Scan)
    requires Inv(w) && s.fds.Some? && s.pid in ScanProcess(w, s).procTable
    ensures Shows(ScanProcess(w, s), s)
  {
    var g := Gathered(w, s);
    var v := ScanProcess(w, s);
    hide ScanProcess, Inv, Vector;
    EndKeepsInv(g, s.pid);
    if g.proc.Some? {
      EndVector(g, s.pid);
    }
    ScanKeeps(w, s);
    SameConnsTwice(w, v, v);
    if g.proc.Some? {
      SameInodesIn(w, v, v.procs[g.proc.value].connections);
    }
    hide EndScan, OnlyTouches, KeepsProcs, SameConns, Inodes, Sockets, LiveInodes;
  }

  // The scan of another pid changes nothing about a process.
  lemma OtherProcess(w: World, s: Scan, pid: nat)
    requires Inv(w) && pid != s.pid && pid in w.procTable
    ensures pid in ScanProcess(w, s).procTable && ScanProcess(w, s).procTable[pid] == w.procTable[pid]
    ensures w.procTable[pid] in w.procs && w.procTable[pid] in ScanProcess(w, s).procs
    ensures ScanProcess(w, s).procs[w.procTable[pid]] == w.procs[w.procTable[pid]]
  {
    var q, v := w.procTable[pid], ScanProcess(w, s);
    ScanKeeps(w, s);
    assert w.procs[q].pid == v.procs[q].pid == pid && v.procTable[pid] == q;
    if s.fds.Some? {
      var f, g := ScanStages(w, s);
      OnlyTouchesTwice(w, f.w, g.w, f.proc, g.proc);
      OnlyTouchesTwice(w, g.w, v, g.proc, g.proc);
      assert g.proc != Some(q) by {
        hide ScanProcess, Inv, FillsConns, FillsProcs, KeepsProcs, OnlyTouches;
      }
      hide ScanProcess, Inv, Stages, KeepsProcs;
    }
  }

  lemma OthersKept(w: World, s: Scan, t: Scan)
    requires Inv(w) && t.pid != s.pid && t.fds.Some?
    ensures t.pid in w.procTable <==> t.pid in ScanProcess(w, s).procTable
    ensures Shows(w, t) ==> Shows(ScanProcess(w, s), t)
  {
    var v := ScanProcess(w, s);
    hide ScanProcess, Inv, AssignsConns, KeepsProcs, Inodes, Sockets, LiveInodes;
    ScanKeeps(w, s);
    SameConnsTwice(w, v, v);
    if Shows(w, t) {
      SameInodesIn(w, v, w.procs[w.procTable[t.pid]].connections);
    }
    hide SameConns;
    ScanKnows(w, s);
    ScanAssigns(w, s);
    StayListed(w, s, v);
    hide Lists;
    if t.pid in w.procTable {
      OtherProcess(w, s, t.pid);
    }
  }

  lemma StayListed(w: World, s: Scan, v: World)
    requires Lists(w, s, v)
    ensures forall p | p in w.listed :: p in v.listed
  {
  }

  lemma {:induction false} OthersKeptAll(w: World, scans: seq<Scan>, t: Scan)
    requires Inv(w) && t.fds.Some? && (forall i | 0 <= i < |scans| :: scans[i].pid != t.pid)
    ensures t.pid in w.procTable <==> t.pid in ScanAll(w, scans).procTable
    ensures Shows(w, t) ==> Shows(ScanAll(w, scans), t)
    decreases |scans|
  {
    hide ScanProcess, Inv, Shows;
    if scans != [] {
      ScanKeeps(w, scans[0]);
      OthersKept(w, scans[0], t);
      OthersKeptAll(ScanProcess(w, scans[0]), scans[1..], t);
    }
  }

  lemma {:induction false} ScanAllShows(w: World, scans: seq<Scan>, i: nat)
    requires Inv(w) && PidsDiffer(scans) && i < |scans| && scans[i].fds.Some?
    requires scans[i].pid in ScanAll(w, scans).procTable
    ensures Shows(ScanAll(w, scans), scans[i])
    decreases |scans|
  {
    hide ScanProcess, Inv, Shows;
    var u := ScanProcess(w, scans[0]);
    ScanKeeps(w, scans[0]);
    if i == 0 {
      OthersKeptAll(u, scans[1..], scans[0]);
      ScanGathers(w, scans[0]);
    } else {
      assert scans[1..][i - 1] == scans[i];
      ScanAllShows(u, scans[1..], i - 1);
    }
  }

  // The connections of such a vector are the live ones with an inode among the descriptors.
  lemma {:induction false} SocketsAre(fds: seq<Option<nat>>, live: set<nat>, fd: Option<nat>)
    ensures fd in Sockets(fds, live) <==> fd in fds && fd.Some? && fd.value in live
  {
    if fds != [] {
      SocketsAre(fds[1..], live, fd);
    }
  }

  // After a successful update that scans no pid twice, each process that is known and whose descriptors can be
  // read is listed, and its vector has exactly the live connections with an inode among its descriptors, in the order
  // of the descriptors and as often as they come there.
  lemma UpdateShowsSockets(w: World, u: Input, i: nat)
    requires Inv(w) && Visitable(w, u) && Succeeds(u) && PidsDiffer(u.scans.value)
    requires i < |u.scans.value| && u.scans.value[i].fds.Some? && u.scans.value[i].pid in Update(w, u).procTable
    ensures Shows(Update(w, u), u.scans.value[i])
  {
    BeforeScanIs(w, u);
    hide BeforeScan, Inv, Visitable, PidsDiffer, Shows, ScanAll;
    ScanAllShows(BeforeScan(w, u), u.scans.value, i);
  }

  // So a connection is in the vector if and only if it is live and a descriptor has its inode.
  lemma VectorHasSockets(v: World, s: Scan, c: Ptr)
    requires Inv(v) && s.fds.Some? && Shows(v, s)
    ensures c in v.procs[v.procTable[s.pid]].connections <==> c in v.conns && Some(v.conns[c].inode) in s.fds.value
  {
    var cs := v.procs[v.procTable[s.pid]].connections;
    var inodes := Inodes(v, cs);
    hide Indexed, Counted, ProcInv, Sockets, LiveInodes;
    forall i | 0 <= i < |cs|
      ensures cs[i] in v.conns && Some(v.conns[cs[i]].inode) in s.fds.value
    {
      assert inodes[i] in Sockets(s.fds.value, LiveInodes(v));
      SocketsAre(s.fds.value, LiveInodes(v), inodes[i]);
    }
    if c in v.conns && Some(v.conns[c].inode) in s.fds.value {
      assert v.conns[c].inode in LiveInodes(v) by {
        IsLive(v, c);
      }
      SocketsAre(s.fds.value, LiveInodes(v), Some(v.conns[c].inode));
      var i :| 0 <= i < |inodes| && inodes[i] == Some(v.conns[c].inode);
      assert cs[i] == c;
    }
  }

  lemma IsLive(v: World, c: Ptr)
    requires c in v.conns
    ensures v.conns[c].inode in LiveInodes(v)
  {
  }
}
