/**
 The tables of connections and processes, updated in place.  No method can read through a pointer that is
 not a key of `conns` or `procs`, so none uses freed memory.
 */
module Monitor {
  import opened Wrappers
  import opened Lifecycle
  import opened LifecycleSweeps
  import opened LifecycleScan
  import opened LifecycleListing
  import R = LifecycleRuns
  import T = LifecycleTheorems

  lemma NextProcIsLive(w: World, order: seq<nat>, i: nat)
    requires Inv(w) && Enumerates(order, w.procTable.Keys) && i < |order|
    ensures order[i] in Lifecycle.SweepProcs(w, order[..i]).procTable
    ensures Lifecycle.SweepProcs(w, order[..i]).procTable[order[i]] in Lifecycle.SweepProcs(w, order[..i]).procs
  {
    SweepProcsPrefix(w, order[..i]);
    hide ConnInv, Lifecycle.SweepProcs;
  }

  lemma RowCases(w: World, row: Row)
    requires ConnInv(w)
    ensures !Marks(row) ==> ReadRow(w, row) == w
    ensures Marks(row) && FindInode(w, row.inode).Some? ==>
              FindInode(w, row.inode).value in w.conns && ReadRow(w, row) == Mark(w, FindInode(w, row.inode).value)
    ensures Marks(row) && FindInode(w, row.inode).None? ==>
              ReadRow(w, row) == Create(w, Conn(row.inode, row.tuple, None, 3, 0, 0, NO_TRAFFIC))
  {
    if Marks(row) {
      FindIsLive(w, row.inode);
    }
    hide ConnInv, FindInode;
  }

  lemma RowKeepsTables(w: World, row: Row)
    requires Inv(w)
    ensures Inv(ReadRow(w, row))
  {
    hide ConnInv, ReadRow;
    RowKeepsInv(w, row);
  }

  lemma NextIsFree(w: World)
    requires Inv(w)
    ensures w.next !in w.procs
  {
    hide ConnInv;
  }

  // Destroying the table comes to an entry while its connection is still there.
  lemma StillThere(w: World, done: set<Entry>, e: Entry, v: World)
    requires ConnInv(w) && e in w.table && e !in done && PartlyFreed(w, done, v)
    ensures e.conn in v.conns
  {
    VisitsGrow(w, done, e);
  }

  class Monitor {
    var conns: map<Ptr, Conn>
    var table: set<Entry>
    var procs: map<Ptr, Proc>
    var procTable: map<nat, Ptr>
    var listed: seq<Ptr>
    var next: Ptr

    ghost function Value(): World
      reads this
    {
      World(conns, table, procs, procTable, listed, next, false)
    }

    ghost predicate Valid()
      reads this
    {
      Inv(Value())
    }

    constructor ()
      ensures Valid() && Value() == EMPTY_WORLD
    {
      conns, table, procs, procTable, listed, next := map[], {}, map[], map[], [], 0;
    }

    // remove_inactives_conns, and the removal of the entry it asks for, in a sweep of w that has visited the
    // entries in `done`: afterwards a connection is gone exactly if it was not marked and both of its entries have
    // been visited, and every other count has gone down by one for each visit.
    method RemoveInactiveConn(e: Entry, ghost w: World, ghost done: set<Entry>)
      requires ConnInv(w) && e in w.table && e !in done && Partial(w, done, Value())
      modifies `conns, `table
      ensures Partial(w, done + {e}, Value())
      ensures Value() == SweepEntry(old(Value()), e)
    {
      hide Partial, ConnInv, RefsAfter, Visited;
      ghost var v := Value();
      SweepVisits(w, done, e, v);
      var refs := conns[e.conn].refsActive;
      conns := conns[e.conn := conns[e.conn].(refsActive := (refs + 255) % 256)];
      if refs == 1 {
        table := table - {e};
      } else if refs == 0 {
        conns := conns - {e.conn};
        table := table - {e};
      }
      assert Value() == SweepEntry(v, e);
      hide SweepEntry;
      PartialStep(w, done, e, v);
    }

    // The first half of connection_update: marked connections stay, the others are freed.
    method SweepConns(order: seq<Entry>)
      requires Valid() && Enumerates(order, table)
      modifies `conns, `table
      ensures Valid() && Value() == Collected(old(Value())) == Lifecycle.SweepConns(old(Value()), order)
    {
      ghost var w := Value();
      hide Partial, Indexed, Counted, InodesDiffer, SweepEntry, Collected, Lifecycle.SweepConns;
      NothingVisited(w);
      for i := 0 to |order|
        invariant Partial(w, SetOf(order[..i]), Value())
      {
        assert order[i] in w.table && order[i] !in order[..i];
        assert SetOf(order[..i + 1]) == SetOf(order[..i]) + {order[i]};
        hide ProcInv, Enumerates;
        RemoveInactiveConn(order[i], w, SetOf(order[..i]));
      }
      assert order[..|order|] == order && SetOf(order) == w.table;
      AllVisited(w, Value());
      CollectionIsExact(w, order);
      hide ConnInv, Enumerates;
      assert ProcInv(w);
      assert Value().procs == w.procs && Value().procTable == w.procTable;
    }

    // connection_get_by_inode
    method GetByInode(inode: nat) returns (r: Option<Ptr>)
      requires Valid()
      ensures r == FindInode(Value(), inode)
      ensures r.Some? ==> r.value in conns && conns[r.value].inode == inode
    {
      FindIsLive(Value(), inode);
      if e :| e in table && e.ByInode? && e.inode == inode {
        FindByInode(Value(), inode, e.conn);
        return Some(e.conn);
      }
      return None;
    }

    // connection_get_by_tuple: of several connections with one tuple, any of them.
    method GetByTuple(tuple: Tuple) returns (r: Option<Ptr>)
      requires Valid()
      ensures r.Some? <==> FindTuple(Value(), tuple).Some?
      ensures r.Some? ==> ByTuple(tuple, r.value) in table && r.value in conns && conns[r.value].tuple == tuple
    {
      if e :| e in table && e.ByTuple? && e.tuple == tuple {
        assert e == ByTuple(tuple, e.conn);
        return Some(e.conn);
      }
      return None;
    }

    // MARK_ACTIVE_CON
    method MarkActive(c: Ptr)
      requires c in conns
      modifies `conns
      ensures Value() == Mark(old(Value()), c)
    {
      conns := conns[c := conns[c].(refsActive := 3)];
    }

    // create_new_conn and connection_insert: two entries for the new connection.
    method CreateConn(inode: nat, tuple: Tuple)
      modifies `conns, `table, `next
      ensures Value() == Create(old(Value()), Conn(inode, tuple, None, 3, 0, 0, NO_TRAFFIC))
    {
      conns := conns[next := Conn(inode, tuple, None, 3, 0, 0, NO_TRAFFIC)];
      table := table + {ByInode(inode, next), ByTuple(tuple, next)};
      next := next + 1;
    }

    // One row of /proc/net: ignore it, mark the connection it names, or create that connection.
    method UpdateFromRow(row: Row)
      requires Valid() && !row.Malformed?
      modifies `conns, `table, `next
      ensures Valid() && Value() == ReadRow(old(Value()), row)
    {
      ghost var w := Value();
      RowCases(w, row);
      if row.state != TCP_TIME_WAIT && row.state != TCP_LISTEN {
        var found := GetByInode(row.inode);
        hide Inv, ReadRow, FindInode;
        if found.Some? {
          MarkActive(found.value);
        } else {
          CreateConn(row.inode, row.tuple);
        }
      }
      hide *;
      RowKeepsTables(w, row);
    }

    // connection_update_
    method UpdateFromFile(file: File) returns (ok: bool)
      requires Valid()
      modifies `conns, `table, `next
      ensures Valid() && Value() == ReadFile(old(Value()), file) && ok == FileOk(file)
    {
      hide Inv, ReadRow;
      if file.Unreadable? {
        return false;
      }
      ghost var w := Value();
      var i := 0;
      while i < |file.rows|
        invariant 0 <= i <= |file.rows| && Valid()
        invariant forall j | 0 <= j < i :: !file.rows[j].Malformed?
        invariant ReadRows(Value(), file.rows[i..]) == ReadRows(w, file.rows)
      {
        assert file.rows[i..][0] == file.rows[i] && file.rows[i..][1..] == file.rows[i + 1..];
        if file.rows[i].Malformed? {
          return false;
        }
        UpdateFromRow(file.rows[i]);
        i := i + 1;
      }
      assert file.rows[i..] == [];
      return true;
    }

    // connection_update
    method ConnectionUpdate(order: seq<Entry>, tcp: Option<File>, udp: Option<File>) returns (ok: bool)
      requires Valid() && Enumerates(order, table)
      modifies `conns, `table, `next
      ensures Valid() && Value() == UpdateConns(old(Value()), order, tcp, udp) && ok == ConnsOk(tcp, udp)
    {
      hide Inv, Enumerates, ReadFile, FileOk, Collected;
      SweepConns(order);
      if tcp.Some? {
        ok := UpdateFromFile(tcp.value);
        if !ok {
          return false;
        }
      }
      if udp.Some? {
        ok := UpdateFromFile(udp.value);
        if !ok {
          return false;
        }
      }
      return true;
    }

    // remove_dead_proc for every process in the table
    method SweepProcs(order: seq<nat>)
      requires Valid() && Enumerates(order, procTable.Keys)
      modifies `procs, `procTable
      ensures Value() == ProcsCollected(old(Value())) == Lifecycle.SweepProcs(old(Value()), order)
      ensures Valid()
    {
      ghost var w := Value();
      for i := 0 to |order|
        invariant Value() == Lifecycle.SweepProcs(w, order[..i])
      {
        NextProcIsLive(w, order, i);
        assert order[..i + 1][..i] == order[..i];
        hide Inv, Enumerates;
        var pid := order[i];
        var p := procTable[pid];
        if !procs[p].active {
          procs, procTable := procs - {p}, procTable - {pid};
        } else {
          procs := procs[p := procs[p].(active := false)];
        }
      }
      assert order[..|order|] == order;
      ProcCollectionIsExact(w, order);
      assert SameConns(w, Value());
      SameConnsKeepsInv(w, Value());
      hide ConnInv, ProcInv, ProcsCollected, Enumerates, Lifecycle.SweepProcs;
    }

    // create_new_process and hashtable_set: a process of its own memory, active, with this pid and no connections;
    // nothing else changes, and the tables stay in order.
    method CreateNewProcess(pid: nat) returns (p: Ptr)
      requires Valid() && pid !in procTable
      modifies `procs, `procTable, `next
      ensures p !in old(procs) && FillingOk(Filling(Value(), Some(p)), pid) && procs[p].connections == []
      ensures SameConns(old(Value()), Value()) && KeepsProcs(old(Value()), Value())
      ensures OnlyTouches(old(Value()), Value(), Some(p))
      ensures Value() == CreateProc(old(Value()), pid) && p == old(next)
    {
      CreateProcKeepsInv(Value(), pid);
      NextIsFree(Value());
      hide Inv, SameConns, KeepsProcs, OnlyTouches, FillingOk;
      p := next;
      procs := procs[p := Proc(pid, true, [], 0, NO_TRAFFIC)];
      procTable := procTable[pid := p];
      next := next + 1;
    }

    method AttachTo(p: Ptr, c: Ptr)
      requires p in procs && c in conns
      modifies `conns, `procs
      ensures Value() == Attach(old(Value()), p, c)
    {
      conns := conns[c := conns[c].(proc := Some(p))];
      procs := procs[p := procs[p].(connections := procs[p].connections + [c])];
    }

    // One file descriptor of the process with this pid; `more` is false if the scan of it ends here.
    method ScanOneFd(s: Scan, fd: Option<nat>, proc: Option<Ptr>) returns (p: Option<Ptr>, more: bool)
      requires FillingOk(Filling(Value(), proc), s.pid)
      modifies `conns, `procs, `procTable, `next
      ensures (Filling(Value(), p), more) == ScanFd(Filling(old(Value()), proc), s, fd)
      ensures FillingOk(Filling(Value(), p), s.pid)
    {
      p, more := proc, true;
      ScanFdFills(Filling(Value(), proc), s, fd);
      if fd.None? {
        return;
      }
      var found := GetByInode(fd.value);
      if found.None? {
        return;
      }
      hide FindInode, FillsConns, FillsProcs, ConnInv, ProcInv;
      if p.None? {
        if !s.named {
          return p, false;
        }
        var q := CreateNewProcess(s.pid);
        p := Some(q);
      }
      hide FillingOk, CreateProc;
      AttachTo(p.value, found.value);
    }

    // The process that is known already is active again, with no connections yet.
    method StartOne(pid: nat) returns (proc: Option<Ptr>)
      requires Valid()
      modifies `procs
      ensures Filling(Value(), proc) == StartScan(old(Value()), pid)
    {
      proc := None;
      if pid in procTable {
        proc := Some(procTable[pid]);
        procs := procs[proc.value := procs[proc.value].(active := true, connections := [])];
      }
    }

    // The process that was filled is listed.
    method EndOne(proc: Option<Ptr>)
      requires proc.Some? ==> proc.value in procs
      modifies `procs, `listed
      ensures Value() == EndScan(Filling(old(Value()), proc))
    {
      if proc.Some? {
        procs := procs[proc.value := procs[proc.value].(totalConnections := |procs[proc.value].connections|)];
        listed := listed + [proc.value];
      }
    }

    // One process of /proc
    method ScanOne(s: Scan)
      requires Valid()
      modifies `conns, `procs, `procTable, `listed, `next
      ensures Valid() && Value() == ScanProcess(old(Value()), s)
    {
      if s.fds.None? {
        return;
      }
      ghost var w, f := Value(), StartScan(Value(), s.pid);
      var fds := s.fds.value;
      ScanStagesOf(w, s);
      hide *;
      ScanKeeps(w, s);
      StartKeepsInv(w, s.pid);
      var proc := StartOne(s.pid);
      var j, more := 0, true;
      while more && j < |fds|
        invariant 0 <= j <= |fds| && FillingOk(Filling(Value(), proc), s.pid)
        invariant ScanFds(f, s, fds) ==
                  if more then ScanFds(Filling(Value(), proc), s, fds[j..]) else Filling(Value(), proc)
        decreases |fds| - j, more
      {
        ScanFdsStep(Filling(Value(), proc), s, fds[j..]);
        assert fds[j..][0] == fds[j] && fds[j..][1..] == fds[j + 1..];
        proc, more := ScanOneFd(s, fds[j], proc);
        j := j + 1;
      }
      ScanFdsStep(Filling(Value(), proc), s, []);
      assert more ==> fds[j..] == [];
      FilledIsLive(Filling(Value(), proc), s.pid);
      EndOne(proc);
    }

    // processes_update
    method ProcessesUpdate(u: Input) returns (ok: bool)
      requires Valid() && T.Visitable(Value(), u)
      modifies this
      ensures Valid() && Value() == Update(old(Value()), u) && ok == Succeeds(u)
    {
      ghost var w := Value();
      T.BeforeScanIs(w, u);
      assert Enumerates(u.procOrder, procTable.Keys);
      hide Inv, ProcsCollected, Enumerates, UpdateConns, Lifecycle.SweepProcs, ScanProcess;
      ok := ConnectionUpdate(u.order, u.tcp, u.udp);
      if !ok || u.scans.None? {
        return false;
      }
      SweepProcs(u.procOrder);
      listed := [];
      var scans := u.scans.value;
      assert Value() == BeforeScan(w, u);
      var i := 0;
      while i < |scans|
        invariant 0 <= i <= |scans| && Valid()
        invariant ScanAll(Value(), scans[i..]) == ScanAll(BeforeScan(w, u), scans)
      {
        assert scans[i..][0] == scans[i] && scans[i..][1..] == scans[i + 1..];
        hide BeforeScan;
        ScanOne(scans[i]);
        i := i + 1;
      }
      assert scans[i..] == [];
      return true;
    }

    // statistics_add: a packet without a connection changes nothing.  The pointers of the connections with the
    // packet's tuple must not dangle, others may.
    method StatisticsAdd(pkt: Packet, viewConnections: bool) returns (counted: bool)
      requires Valid()
      requires forall c | ByTuple(pkt.tuple, c) in table && c in conns && conns[c].proc.Some? ::
          conns[c].proc.value in procs
      modifies `conns, `procs
      ensures (forall c :: ByTuple(pkt.tuple, c) !in old(table)) ==> !counted && Value() == old(Value())
      ensures (exists c :: ByTuple(pkt.tuple, c) in old(table)) ==>
                exists c :: ByTuple(pkt.tuple, c) in old(table) && c in old(conns)
                            && R.CountsPacket(old(Value()), Value(), pkt, viewConnections, c, counted)
                            && (Value(), counted) == CreditTo(old(Value()), pkt, viewConnections, c)
      ensures Valid() && R.OnlyTotals(old(Value()), Value()) && (old(T.NoDangling(Value())) ==> T.NoDangling(Value()))
    {
      ghost var w := Value();
      var found := GetByTuple(pkt.tuple);
      if found.None? {
        return false;
      }
      var c := found.value;
      CreditKeeps(w, pkt, viewConnections, c);
      R.CreditCounts(w, pkt, viewConnections, c);
      hide Inv, T.NoDangling, R.OnlyTotals, R.CountsPacket, FindTuple;
      if conns[c].proc.None? {
        assert (Value(), false) == CreditTo(w, pkt, viewConnections, c);
        return false;
      }
      CountFor(c, pkt, viewConnections);
      return true;
    }

    // The packet is counted for the connection's process and, if connections are shown, for the connection.
    method CountFor(c: Ptr, pkt: Packet, viewConnections: bool)
      requires c in conns && conns[c].proc.Some? && conns[c].proc.value in procs
      modifies `conns, `procs
      ensures (Value(), true) == CreditTo(old(Value()), pkt, viewConnections, c)
    {
      ghost var w, stat := Value(), conns[c].stat;
      var p := conns[c].proc.value;
      conns := conns[c := conns[c].(ifIndex := pkt.ifIndex)];
      if pkt.direction.Down? {
        procs := procs[p := procs[p].(stat := Traffic(procs[p].stat.rx + pkt.length, procs[p].stat.tx))];
        if viewConnections {
          conns := conns[c := conns[c].(stat := Traffic(conns[c].stat.rx + pkt.length, conns[c].stat.tx))];
        }
      } else {
        procs := procs[p := procs[p].(stat := Traffic(procs[p].stat.rx, procs[p].stat.tx + pkt.length))];
        if viewConnections {
          conns := conns[c := conns[c].(stat := Traffic(conns[c].stat.rx, conns[c].stat.tx + pkt.length))];
        }
      }
      assert procs == w.procs[p := w.procs[p].(stat := AddTraffic(w.procs[p].stat, pkt))];
      assert conns == w.conns[c := w.conns[c].(ifIndex := pkt.ifIndex,
                                               stat := if viewConnections then AddTraffic(stat, pkt) else stat)];
    }

    // conn_free for an entry of w that is being destroyed, when those in `done` have been: afterwards a connection
    // is freed exactly if both of its entries have come up.
    method ConnFree(e: Entry, ghost w: World, ghost done: set<Entry>)
      requires ConnInv(w) && e in w.table && e !in done && PartlyFreed(w, done, Value())
      modifies `conns
      ensures PartlyFreed(w, done + {e}, Value())
      ensures Value() == FreeEntry(old(Value()), e)
    {
      hide PartlyFreed, ConnInv;
      ghost var v := Value();
      StillThere(w, done, e, v);
      var refs := conns[e.conn].refsExit;
      conns := conns[e.conn := conns[e.conn].(refsExit := refs + 1)];
      if refs == 1 {
        conns := conns - {e.conn};
      }
      assert Value() == FreeEntry(v, e);
      hide FreeEntry;
      FreeStep(w, done, e, v);
    }

    // connection_free: conn_free for every entry
    method ConnectionFree(order: seq<Entry>)
      requires Valid() && Enumerates(order, table)
      modifies `conns
      ensures conns == map[] && Value() == FreeConns(old(Value()), order)
    {
      ghost var w := Value();
      hide PartlyFreed, Indexed, Counted, InodesDiffer, FreeEntry;
      NoneFreed(w);
      for i := 0 to |order|
        invariant PartlyFreed(w, SetOf(order[..i]), Value()) && Value() == FreeConns(w, order[..i])
      {
        assert order[i] in w.table && order[i] !in order[..i];
        assert SetOf(order[..i + 1]) == SetOf(order[..i]) + {order[i]} && order[..i + 1][..i] == order[..i];
        hide ProcInv, Enumerates;
        ConnFree(order[i], w, SetOf(order[..i]));
      }
      assert order[..|order|] == order;
      EveryConnIsFreedOnce(w, order);
    }
  }

  lemma ScanFdsStep(f: Filling, s: Scan, fds: seq<Option<nat>>)
    ensures ScanFds(f, s, fds) ==
            if fds == [] then f
            else if ScanFd(f, s, fds[0]).1 then ScanFds(ScanFd(f, s, fds[0]).0, s, fds[1..])
            else ScanFd(f, s, fds[0]).0
  {
    hide ScanFd;
  }

  lemma FilledIsLive(f: Filling, pid: nat)
    requires FillingOk(f, pid)
    ensures f.proc.Some? ==> f.proc.value in f.w.procs
  {
  }

  lemma CreditKeeps(w: World, pkt: Packet, viewConnections: bool, c: Ptr)
    requires Inv(w) && c in w.conns && (w.conns[c].proc.Some? ==> w.conns[c].proc.value in w.procs)
    ensures Inv(CreditTo(w, pkt, viewConnections, c).0) && R.OnlyTotals(w, CreditTo(w, pkt, viewConnections, c).0)
    ensures T.NoDangling(w) ==> T.NoDangling(CreditTo(w, pkt, viewConnections, c).0)
  {
    var v := CreditTo(w, pkt, viewConnections, c).0;
    assert R.OnlyTotals(w, v);
    R.TotalsKeepInv(w, v);
    hide Inv;
  }
}
