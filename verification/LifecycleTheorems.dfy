/**
 Whole updates and runs of them: which connections and processes are live, what they point to, and
 exactly when a connection is left with a pointer to a process that has been freed.
 */
module LifecycleTheorems {
  import opened Wrappers
  import opened Lifecycle
  import opened LifecycleSweeps
  import opened LifecycleScan

  // The two sweeps visit every entry of their tables once, in any order.
  ghost predicate Visitable(w: World, u: Input) {
    Enumerates(u.order, w.table) && Enumerates(u.procOrder, w.procTable.Keys)
  }

  // ---- One update -------------------------------------------------------------------------------------------

  // The state that the scan starts from.
  lemma BeforeScanIs(w: World, u: Input)
    requires Inv(w) && Visitable(w, u)
    ensures Inv(BeforeScan(w, u)) && BeforeScan(w, u).listed == []
    ensures BeforeScan(w, u) == ProcsCollected(UpdateConns(w, u.order, u.tcp, u.udp)).(listed := [])
    ensures BeforeScan(w, u).procs == ProcsCollected(w).procs
    ensures BeforeScan(w, u).procTable == ProcsCollected(w).procTable
    ensures w.next <= BeforeScan(w, u).next
    ensures KeepsConns(Collected(w), UpdateConns(w, u.order, u.tcp, u.udp))
  {
    var v := UpdateConns(w, u.order, u.tcp, u.udp);
    UpdateConnsKeepsInv(w, u.order, u.tcp, u.udp);
    hide UpdateConns, Enumerates;
    assert v.procs == w.procs && v.procTable == w.procTable;
    assert ProcInv(v);
    ProcCollectionIsExact(v, u.procOrder);
    assert ActivePids(v) == ActivePids(w);
    SameConnsKeepsInv(v, BeforeScan(w, u)) by {
      hide ConnInv, ProcInv;
    }
    hide ConnInv;
  }

  // No update, whatever it reads and whether it succeeds or not, uses freed memory or breaks the tables.
  lemma UpdateKeepsInv(w: World, u: Input)
    requires Inv(w) && Visitable(w, u)
    ensures Inv(Update(w, u))
  {
    BeforeScanIs(w, u);
    hide Enumerates;
    if Succeeds(u) {
      hide ConnInv, ProcInv, BeforeScan;
      ScanAllKeeps(BeforeScan(w, u), u.scans.value);
    } else {
      UpdateConnsKeepsInv(w, u.order, u.tcp, u.udp);
      hide UpdateConns, ConnInv;
    }
  }

  // The live connections have just the inodes that this update or the one before has named.
  lemma UpdateIsLastTwo(w: World, u: Input)
    requires Inv(w) && Visitable(w, u)
    ensures MarkedInodes(Update(w, u)) == NamedBy(u.tcp, u.udp)
    ensures LiveInodes(Update(w, u)) == MarkedInodes(w) + NamedBy(u.tcp, u.udp)
  {
    UpdateNames(w, u.order, u.tcp, u.udp);
    var v := UpdateConns(w, u.order, u.tcp, u.udp);
    if Succeeds(u) {
      BeforeScanIs(w, u);
      var b := BeforeScan(w, u);
      assert b.conns == v.conns;
      ScanAllKeeps(b, u.scans.value);
      hide Inv, Enumerates, UpdateConns, BeforeScan, NamedBy, ScanAll;
      SameInodes(v, Update(w, u));
    }
  }

  lemma SameInodes(w: World, v: World)
    requires v.conns.Keys == w.conns.Keys && forall c | c in w.conns :: ProcMayDiffer(w.conns[c], v.conns[c])
    ensures LiveInodes(v) == LiveInodes(w) && MarkedInodes(v) == MarkedInodes(w)
  {
    assert forall c | c in w.conns ::
        v.conns[c].inode == w.conns[c].inode && v.conns[c].refsActive == w.conns[c].refsActive;
    hide ProcMayDiffer;
  }

  // A successful update frees the processes that were not active and no other, and keeps the totals of the rest.
  lemma UpdateFreesInactive(w: World, u: Input, p: Ptr)
    requires Inv(w) && Visitable(w, u) && Succeeds(u) && p in w.procs
    ensures p in Update(w, u).procs <==> w.procs[p].active
    ensures p in Update(w, u).procs ==>
        Update(w, u).procs[p].pid == w.procs[p].pid && Update(w, u).procs[p].stat == w.procs[p].stat
  {
    BeforeScanIs(w, u);
    ScanAllKeeps(BeforeScan(w, u), u.scans.value);
    assert p < w.next;
    hide Inv, Enumerates, BeforeScan, ScanAll, SameConns;
  }

  // After a successful update the listed processes are live and active, each counts its connections, all of
  // those are live, and no process is listed twice unless a pid is.
  lemma UpdateListsLive(w: World, u: Input)
    requires Inv(w) && Visitable(w, u) && Succeeds(u)
    ensures ListedOk(Update(w, u))
    ensures PidsDiffer(u.scans.value) ==> ListedDiffer(Update(w, u))
  {
    BeforeScanIs(w, u);
    hide Inv, Enumerates, BeforeScan, PidsDiffer;
    ScanAllKeeps(BeforeScan(w, u), u.scans.value);
    if PidsDiffer(u.scans.value) {
      ScanAllListsOnce(BeforeScan(w, u), u.scans.value);
    }
  }

  // ---- Pointers from connections to processes -------------------------------------------------------------

  ghost predicate NoDangling(w: World) {
    forall c | c in w.conns && w.conns[c].proc.Some? :: w.conns[c].proc.value in w.procs
  }

  // The pid that the scan of this update gives to a connection with the inode, if any.
  ghost function ScannedPid(w: World, u: Input, inode: nat): Option<nat>
    requires Succeeds(u)
  {
    AssignedPid(u.scans.value, ActivePids(w), MarkedInodes(w) + NamedBy(u.tcp, u.udp), inode)
  }

  // A connection that lives on has nothing to fear: it points to no process, to one that was active, or
  // the scan finds its process again.
  ghost predicate Secure(w: World, u: Input, c: Ptr)
    requires Succeeds(u) && c in w.conns
  {
    w.conns[c].proc.None? || Running(w, w.conns[c].proc) || ScannedPid(w, u, w.conns[c].inode).Some?
  }

  // What a successful update makes of the pointer of each connection.
  lemma PointerAfter(w: World, u: Input, c: Ptr)
    requires Inv(w) && Visitable(w, u) && Succeeds(u)
    ensures c in Update(w, u).conns <==> c in BeforeScan(w, u).conns
    ensures c in BeforeScan(w, u).conns ==>
              var pid := ScannedPid(w, u, BeforeScan(w, u).conns[c].inode);
              if pid.Some? then RunsAs(Update(w, u), Update(w, u).conns[c].proc, pid.value)
              else Update(w, u).conns[c].proc == BeforeScan(w, u).conns[c].proc
  {
    var b := BeforeScan(w, u);
    BeforeScanIs(w, u);
    ScanAllKeeps(b, u.scans.value);
    UpdateNames(w, u.order, u.tcp, u.udp);
    assert b.conns == UpdateConns(w, u.order, u.tcp, u.udp).conns;
    assert b.procTable.Keys == ActivePids(w);
    assert LiveInodes(b) == MarkedInodes(w) + NamedBy(u.tcp, u.udp);
    hide Inv, Enumerates, BeforeScan, UpdateConns, NamedBy, ScanAll;
    if c in b.conns {
      ScanAllAssigns(b, u.scans.value, c);
    }
  }

  // Before the scan, a connection is one that had been marked, with the pointer it had, or a new one without.
  lemma ConnBeforeScan(w: World, u: Input, c: Ptr)
    requires Inv(w) && Visitable(w, u)
    ensures c in w.conns ==> (c in BeforeScan(w, u).conns <==> w.conns[c].refsActive == 3)
    ensures c in w.conns && c in BeforeScan(w, u).conns ==>
              BeforeScan(w, u).conns[c].proc == w.conns[c].proc && BeforeScan(w, u).conns[c].inode == w.conns[c].inode
    ensures c !in w.conns && c in BeforeScan(w, u).conns ==> BeforeScan(w, u).conns[c].proc == None
  {
    BeforeScanIs(w, u);
    var v, k := UpdateConns(w, u.order, u.tcp, u.udp), Collected(w);
    assert BeforeScan(w, u).conns == v.conns;
    assert c in w.conns ==> c < w.next && k.next == w.next;
    hide Inv, Enumerates, BeforeScan, UpdateConns;
  }

  // A successful update leaves a dangling pointer exactly when some marked connection is not secure.
  lemma DanglingIff(w: World, u: Input)
    requires Inv(w) && NoDangling(w) && Visitable(w, u) && Succeeds(u)
    ensures NoDangling(Update(w, u)) <==> forall c | c in w.conns && w.conns[c].refsActive == 3 :: Secure(w, u, c)
  {
    var v, b := Update(w, u), BeforeScan(w, u);
    forall c | c in v.conns && v.conns[c].proc.Some? && v.conns[c].proc.value !in v.procs
      ensures c in w.conns && w.conns[c].refsActive == 3 && !Secure(w, u, c)
    {
      PointerAfter(w, u, c);
      ConnBeforeScan(w, u, c);
      hide Inv, Visitable, Update, BeforeScan, ScannedPid, NoDangling;
      UpdateFreesInactive(w, u, v.conns[c].proc.value);
    }
    forall c | c in w.conns && w.conns[c].refsActive == 3 && !Secure(w, u, c)
      ensures c in v.conns && v.conns[c].proc.Some? && v.conns[c].proc.value !in v.procs
    {
      PointerAfter(w, u, c);
      ConnBeforeScan(w, u, c);
      hide Inv, Visitable, Update, BeforeScan, ScannedPid;
      UpdateFreesInactive(w, u, v.conns[c].proc.value);
    }
    hide Inv, Visitable, Update, BeforeScan, ScannedPid;
  }
}
