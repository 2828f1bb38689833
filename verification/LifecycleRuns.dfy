/** Runs: updates and captured packets, in any order, from the empty state. */
module LifecycleRuns {
  import opened Wrappers
  import opened Lifecycle
  import opened LifecycleSweeps
  import opened LifecycleScan
  import opened LifecycleTheorems

  // `found` is the connection that the lookup by tuple gives for a packet.
  datatype Event = Refresh(u: Input) | Arrive(pkt: Packet, viewConnections: bool, found: Option<Ptr>)

  ghost predicate Possible(w: World, e: Event) {
    match e
    case Refresh(u) => Visitable(w, u)
    case Arrive(pkt, _, found) =>
      && (found.Some? ==> ByTuple(pkt.tuple, found.value) in w.table)
      && (found.None? ==> forall c :: ByTuple(pkt.tuple, c) !in w.table)
  }

  ghost function StepBy(w: World, e: Event): World {
    match e
    case Refresh(u) => Update(w, u)
    case Arrive(pkt, viewConnections, found) =>
      if found.Some? then CreditTo(w, pkt, viewConnections, found.value).0 else w
  }

  ghost function After(w: World, run: seq<Event>): World {
    if run == [] then w else StepBy(After(w, run[..|run| - 1]), run[|run| - 1])
  }

  ghost predicate PossibleRun(w: World, run: seq<Event>) {
    run != [] ==> PossibleRun(w, run[..|run| - 1]) && Possible(After(w, run[..|run| - 1]), run[|run| - 1])
  }

  // ---- One packet ---------------------------------------------------------------------------------------------

  // A lookup can make statistics_add use freed memory exactly when some connection's pointer dangles.
  lemma FaultIffDangling(w: World)
    requires Inv(w)
    ensures NoDangling(w) <==>
        forall pkt: Packet, view, c | ByTuple(pkt.tuple, c) in w.table :: !CreditTo(w, pkt, view, c).0.fault
  {
    forall c | c in w.conns && w.conns[c].proc.Some? && w.conns[c].proc.value !in w.procs
      ensures exists pkt: Packet, view :: ByTuple(pkt.tuple, c) in w.table && CreditTo(w, pkt, view, c).0.fault
    {
      var pkt := Packet(w.conns[c].tuple, Down, 0, 0);
      assert TupleEntry(w, c) in w.table && CreditTo(w, pkt, false, c).0.fault;
    }
  }

  // The traffic t with a packet that goes down, or up, added to it.
  predicate Grown(t: Traffic, t': Traffic, pkt: Packet) {
    && (pkt.direction.Down? ==> t'.rx == t.rx + pkt.length && t'.tx == t.tx)
    && (pkt.direction.Up? ==> t'.rx == t.rx && t'.tx == t.tx + pkt.length)
  }

  // What statistics_add does with a packet for connection c.  Only with a process is it counted: for that process
  // and, if connections are shown, for the connection.  Nothing else changes.
  ghost predicate CountsPacket(w: World, v: World, pkt: Packet, view: bool, c: Ptr, counted: bool)
    requires c in w.conns
  {
    && (counted <==> w.conns[c].proc.Some?)
    && (!counted ==> v == w)
    && (counted ==>
        && v == w.(conns := v.conns, procs := v.procs)
        && ForConn(w.conns, v.conns, pkt, view, c) && ForProc(w.procs, v.procs, pkt, w.conns[c].proc.value))
  }

  ghost predicate ForConn(conns: map<Ptr, Conn>, conns': map<Ptr, Conn>, pkt: Packet, view: bool, c: Ptr)
    requires c in conns
  {
    && conns'.Keys == conns.Keys && (forall d | d in conns && d != c :: conns'[d] == conns[d])
    && conns'[c].ifIndex == pkt.ifIndex
    && (if view then Grown(conns[c].stat, conns'[c].stat, pkt) else conns'[c].stat == conns[c].stat)
    && conns'[c] == conns[c].(ifIndex := conns'[c].ifIndex, stat := conns'[c].stat)
  }

  ghost predicate ForProc(procs: map<Ptr, Proc>, procs': map<Ptr, Proc>, pkt: Packet, p: Ptr) {
    && p in procs && procs'.Keys == procs.Keys && (forall q | q in procs && q != p :: procs'[q] == procs[q])
    && Grown(procs[p].stat, procs'[p].stat, pkt) && procs'[p] == procs[p].(stat := procs'[p].stat)
  }

  lemma CreditCounts(w: World, pkt: Packet, view: bool, c: Ptr)
    requires c in w.conns && (w.conns[c].proc.Some? ==> w.conns[c].proc.value in w.procs)
    ensures CountsPacket(w, CreditTo(w, pkt, view, c).0, pkt, view, c, CreditTo(w, pkt, view, c).1)
  {
    var (v, counted) := CreditTo(w, pkt, view, c);
    if counted {
      assert ForConn(w.conns, v.conns, pkt, view, c);
      assert ForProc(w.procs, v.procs, pkt, w.conns[c].proc.value);
    }
  }

  // What a packet changes: totals and interfaces only.
  ghost predicate OnlyTotals(w: World, v: World) {
    && v == w.(conns := v.conns, procs := v.procs) && v.conns.Keys == w.conns.Keys && v.procs.Keys == w.procs.Keys
    && (forall c | c in w.conns :: v.conns[c] == w.conns[c].(stat := v.conns[c].stat, ifIndex := v.conns[c].ifIndex))
    && (forall p | p in w.procs :: v.procs[p] == w.procs[p].(stat := v.procs[p].stat))
  }

  lemma TotalsKeepInv(w: World, v: World)
    requires Inv(w) && OnlyTotals(w, v)
    ensures Inv(v) && LiveInodes(v) == LiveInodes(w) && MarkedInodes(v) == MarkedInodes(w)
  {
    hide Indexed, InodesDiffer;
    assert SameIdentities(w, v);
    IdentitiesKeep(w, v);
    hide SameIdentities;
    assert forall c | c in w.conns ::
        v.conns[c].inode == w.conns[c].inode && v.conns[c].refsActive == w.conns[c].refsActive;
  }

  lemma PacketKeeps(w: World, e: Event)
    requires Inv(w) && NoDangling(w) && e.Arrive? && Possible(w, e)
    ensures OnlyTotals(w, StepBy(w, e)) && NoDangling(StepBy(w, e))
  {
  }

  function Credited(procs: map<Ptr, Proc>, p: Ptr, pkt: Packet): map<Ptr, Proc>
    requires p in procs
  {
    procs[p := procs[p].(stat := if pkt.direction.Down? then Traffic(procs[p].stat.rx + pkt.length, procs[p].stat.tx)
                                 else Traffic(procs[p].stat.rx, procs[p].stat.tx + pkt.length))]
  }

  lemma OwnerAfter(w: World, u: Input, c: Ptr, pid: nat)
    requires Inv(w) && Visitable(w, u) && Succeeds(u) && c in Update(w, u).conns
    requires ScannedPid(w, u, Update(w, u).conns[c].inode) == Some(pid)
    ensures RunsAs(Update(w, u), Update(w, u).conns[c].proc, pid)
  {
    PointerAfter(w, u, c);
    BeforeScanIs(w, u);
    ScanAllKeeps(BeforeScan(w, u), u.scans.value);
    hide Inv, BeforeScan, Visitable, ScannedPid, KeepsProcs;
  }

  lemma CreditedTo(v: World, pkt: Packet, view: bool, c: Ptr, pid: nat)
    requires Inv(v) && c in v.conns && RunsAs(v, v.conns[c].proc, pid)
    ensures CreditTo(v, pkt, view, c).1 && pid in v.procTable && v.procTable[pid] in v.procs
    ensures CreditTo(v, pkt, view, c).0.procs == Credited(v.procs, v.procTable[pid], pkt)
  {
    hide ConnInv;
  }

  // A packet that comes after a successful update is counted for the process whose descriptors the update
  // has found the connection's inode among: that process and no other, in the packet's direction.
  lemma PacketGoesToOwner(w: World, u: Input, pkt: Packet, view: bool, c: Ptr, pid: nat)
    requires Inv(w) && Visitable(w, u) && Succeeds(u)
    requires ByTuple(pkt.tuple, c) in Update(w, u).table && c in Update(w, u).conns
    requires ScannedPid(w, u, Update(w, u).conns[c].inode) == Some(pid)
    ensures CreditTo(Update(w, u), pkt, view, c).1
    ensures pid in Update(w, u).procTable && Update(w, u).procTable[pid] in Update(w, u).procs
    ensures CreditTo(Update(w, u), pkt, view, c).0.procs ==
        Credited(Update(w, u).procs, Update(w, u).procTable[pid], pkt)
  {
    UpdateKeepsInv(w, u);
    OwnerAfter(w, u, c, pid);
    hide Update, Inv, Visitable, ScannedPid;
    CreditedTo(Update(w, u), pkt, view, c, pid);
  }

  // ---- Runs ---------------------------------------------------------------------------------------------------

  ghost predicate SecureStep(w: World, e: Event) {
    e.Refresh? && Succeeds(e.u) ==> forall c | c in w.conns && w.conns[c].refsActive == 3 :: Secure(w, e.u, c)
  }

  ghost predicate SecureRun(w: World, run: seq<Event>) {
    run != [] ==> SecureRun(w, run[..|run| - 1]) && SecureStep(After(w, run[..|run| - 1]), run[|run| - 1])
  }

  ghost predicate NeverDangles(w: World, run: seq<Event>) {
    NoDangling(After(w, run)) && (run != [] ==> NeverDangles(w, run[..|run| - 1]))
  }

  lemma StepKeepsInv(w: World, e: Event)
    requires Inv(w) && NoDangling(w) && Possible(w, e)
    ensures Inv(StepBy(w, e)) && (NoDangling(StepBy(w, e)) <==> SecureStep(w, e))
  {
    if e.Arrive? {
      PacketKeeps(w, e);
      TotalsKeepInv(w, StepBy(w, e));
      hide NoDangling;
    } else {
      UpdateKeepsInv(w, e.u);
      if Succeeds(e.u) {
        DanglingIff(w, e.u);
        hide NoDangling, Inv, Visitable, Update, Secure;
      } else {
        FailedUpdate(w, e.u);
        hide Inv, Visitable;
      }
    }
  }

  // An update that fails leaves every process as it was.
  lemma FailedUpdate(w: World, u: Input)
    requires Inv(w) && NoDangling(w) && Visitable(w, u) && !Succeeds(u)
    ensures Update(w, u).procs == w.procs && NoDangling(Update(w, u))
  {
    UpdateConnsKeepsInv(w, u.order, u.tcp, u.udp);
    hide UpdateConns, Inv, Visitable;
  }

  // ---- Faults -------------------------------------------------------------------------------------------------

  // A packet follows the pointer of the connection it finds.
  ghost predicate FollowsLive(w: World, e: Event) {
    e.Arrive? && e.found.Some? && e.found.value in w.conns && w.conns[e.found.value].proc.Some? ==>
      w.conns[e.found.value].proc.value in w.procs
  }

  ghost predicate FollowsLiveRun(w: World, run: seq<Event>) {
    run != [] ==> FollowsLiveRun(w, run[..|run| - 1]) && FollowsLive(After(w, run[..|run| - 1]), run[|run| - 1])
  }

  lemma PacketFaultsIff(w: World, e: Event)
    requires Inv(w) && e.Arrive? && Possible(w, e)
    ensures StepBy(w, e).fault <==> !FollowsLive(w, e)
    ensures !StepBy(w, e).fault ==> OnlyTotals(w, StepBy(w, e))
  {
  }

  lemma StepFaultsIff(w: World, e: Event)
    requires Inv(w) && Possible(w, e)
    ensures StepBy(w, e).fault <==> !FollowsLive(w, e)
    ensures !StepBy(w, e).fault ==> Inv(StepBy(w, e))
  {
    if e.Refresh? {
      UpdateKeepsInv(w, e.u);
      hide Update, ProcInv;
    } else {
      PacketFaultsIff(w, e);
      hide StepBy, FollowsLive, ConnInv;
      if !StepBy(w, e).fault {
        TotalsKeepInv(w, StepBy(w, e));
      }
    }
  }

  lemma {:induction false} SweepConnsFaults(w: World, order: seq<Entry>)
    requires w.fault
    ensures SweepConns(w, order).fault
  {
    if order != [] {
      SweepConnsFaults(w, order[..|order| - 1]);
    }
  }

  lemma {:induction false} ReadRowsFaults(w: World, rows: seq<Row>)
    requires w.fault
    ensures ReadRows(w, rows).fault
    decreases |rows|
  {
    if rows != [] && !rows[0].Malformed? {
      assert ReadRow(w, rows[0]).fault;
      hide ReadRow;
      ReadRowsFaults(ReadRow(w, rows[0]), rows[1..]);
    }
  }

  lemma {:induction false} SweepProcsFaults(w: World, order: seq<nat>)
    requires w.fault
    ensures SweepProcs(w, order).fault
  {
    if order != [] {
      SweepProcsFaults(w, order[..|order| - 1]);
    }
  }

  lemma {:induction false} ScanFdsFaults(f: Filling, s: Scan, fds: seq<Option<nat>>)
    requires f.w.fault
    ensures ScanFds(f, s, fds).w.fault
    decreases |fds|
  {
    if fds != [] {
      var (g, more) := ScanFd(f, s, fds[0]);
      assert g.w.fault;
      hide ScanFd;
      ScanFdsFaults(g, s, fds[1..]);
    }
  }

  lemma {:induction false} ScanAllFaults(w: World, scans: seq<Scan>)
    requires w.fault
    ensures ScanAll(w, scans).fault
    decreases |scans|
  {
    if scans != [] {
      var s := scans[0];
      if s.fds.Some? {
        ScanFdsFaults(StartScan(w, s.pid), s, s.fds.value);
      }
      assert ScanProcess(w, s).fault;
      hide ScanProcess;
      ScanAllFaults(ScanProcess(w, s), scans[1..]);
    }
  }

  // A fault is never forgotten.
  lemma FaultStays(w: World, e: Event)
    requires w.fault
    ensures StepBy(w, e).fault
  {
    if e.Refresh? {
      var u := e.u;
      SweepConnsFaults(w, u.order);
      var w1 := SweepConns(w, u.order);
      hide SweepConns;
      if u.tcp.Some? && u.tcp.value.Rows? {
        ReadRowsFaults(w1, u.tcp.value.rows);
      }
      var w2 := if u.tcp.Some? then ReadFile(w1, u.tcp.value) else w1;
      if u.udp.Some? && u.udp.value.Rows? {
        ReadRowsFaults(w2, u.udp.value.rows);
      }
      hide ReadRows;
      SweepProcsFaults(UpdateConns(w, u.order, u.tcp, u.udp), u.procOrder);
      if Succeeds(u) {
        ScanAllFaults(BeforeScan(w, u), u.scans.value);
      }
      hide SweepProcs, ScanAll;
    }
  }

  // Over any run, freed memory is used exactly if a packet follows a dangling pointer; until then the tables
  // are in order, pointers that dangle included.
  lemma {:induction false} RunFaultsIff(w: World, run: seq<Event>)
    requires Inv(w) && PossibleRun(w, run)
    ensures After(w, run).fault <==> !FollowsLiveRun(w, run)
    ensures !After(w, run).fault ==> Inv(After(w, run))
  {
    if run != [] {
      var before, e := run[..|run| - 1], run[|run| - 1];
      RunFaultsIff(w, before);
      var v := After(w, before);
      hide StepBy, FollowsLive, ConnInv, ProcInv, Possible;
      if v.fault {
        FaultStays(v, e);
      } else {
        StepFaultsIff(v, e);
      }
    }
  }

  // Over any run, no pointer ever dangles exactly when every connection that outlives an update is secure in
  // it; and then no step of the run has used freed memory.
  lemma {:induction false} RunDanglesIff(w: World, run: seq<Event>)
    requires Inv(w) && NoDangling(w) && PossibleRun(w, run)
    ensures NeverDangles(w, run) <==> SecureRun(w, run)
    ensures SecureRun(w, run) ==> Inv(After(w, run)) && !After(w, run).fault
  {
    if run != [] {
      var before := run[..|run| - 1];
      RunDanglesIff(w, before);
      if SecureRun(w, before) {
        StepKeepsInv(After(w, before), run[|run| - 1]);
      }
      hide NoDangling, StepBy, SecureStep, ConnInv, ProcInv;
    }
  }

  // The connections an update marks, if a process is known for them, are assigned again by its scan.
  ghost predicate AssignsMarked(w: World, e: Event) {
    e.Refresh? && Succeeds(e.u) ==>
      forall c | c in w.conns && w.conns[c].refsActive == 3 && w.conns[c].proc.Some?
                 && w.conns[c].inode in NamedBy(e.u.tcp, e.u.udp) ::
        ScannedPid(w, e.u, w.conns[c].inode).Some?
  }

  ghost predicate AssignsAlways(w: World, run: seq<Event>) {
    run != [] ==> AssignsAlways(w, run[..|run| - 1]) && AssignsMarked(After(w, run[..|run| - 1]), run[|run| - 1])
  }

  // The processes of the marked connections are active.
  ghost predicate MarkedRun(w: World) {
    forall c | c in w.conns && w.conns[c].refsActive == 3 && w.conns[c].proc.Some? :: Running(w, w.conns[c].proc)
  }

  lemma MarkedAreNamed(w: World, u: Input, c: Ptr)
    requires Inv(w) && Visitable(w, u)
    requires c in w.conns && c in Update(w, u).conns && Update(w, u).conns[c].refsActive == 3
    ensures Update(w, u).conns[c].inode in NamedBy(u.tcp, u.udp)
  {
    UpdateIsLastTwo(w, u);
    hide Update;
  }

  lemma SuccessKeepsMarkedRun(w: World, u: Input)
    requires Inv(w) && MarkedRun(w) && Visitable(w, u) && Succeeds(u) && AssignsMarked(w, Refresh(u))
    ensures MarkedRun(Update(w, u))
  {
    var v, b := Update(w, u), BeforeScan(w, u);
    BeforeScanIs(w, u);
    ScanAllKeeps(b, u.scans.value);
    hide Inv, BeforeScan, Visitable, ScannedPid;
    forall c | c in v.conns && v.conns[c].refsActive == 3 && v.conns[c].proc.Some?
      ensures Running(v, v.conns[c].proc)
    {
      assert ProcMayDiffer(b.conns[c], v.conns[c]);
      hide Update;
      PointerAfter(w, u, c);
      ConnBeforeScan(w, u, c);
      if c in w.conns {
        MarkedAreNamed(w, u, c);
      }
    }
  }

  lemma FailureKeepsMarkedRun(w: World, u: Input)
    requires Inv(w) && MarkedRun(w) && Visitable(w, u) && !Succeeds(u)
    ensures MarkedRun(Update(w, u))
  {
    UpdateConnsKeepsInv(w, u.order, u.tcp, u.udp);
    CollectedAreMarked(w);
    hide Inv, ConnInv, ProcInv, Visitable, UpdateConns, Collected, ConnsOk;
  }

  lemma CollectedAreMarked(w: World)
    ensures forall c | c in Collected(w).conns ::
        c in w.conns && Collected(w).conns[c].proc == w.conns[c].proc && w.conns[c].refsActive == 3
  {
  }

  lemma UpdateKeepsMarkedRun(w: World, u: Input)
    requires Inv(w) && MarkedRun(w) && Visitable(w, u) && AssignsMarked(w, Refresh(u))
    ensures MarkedRun(Update(w, u))
  {
    if Succeeds(u) {
      SuccessKeepsMarkedRun(w, u);
    } else {
      FailureKeepsMarkedRun(w, u);
    }
  }

  // The intended use: from the start, as long as every scan finds the processes of the connections its update
  // marks, no freed memory is ever used and no pointer dangles.
  lemma {:induction false} AssignedRunIsSafe(run: seq<Event>)
    requires PossibleRun(EMPTY_WORLD, run) && AssignsAlways(EMPTY_WORLD, run)
    ensures Inv(After(EMPTY_WORLD, run)) && NoDangling(After(EMPTY_WORLD, run)) && MarkedRun(After(EMPTY_WORLD, run))
  {
    if run != [] {
      var before, e := run[..|run| - 1], run[|run| - 1];
      AssignedRunIsSafe(before);
      var w := After(EMPTY_WORLD, before);
      hide ConnInv, ProcInv, Possible, SecureStep, Secure, AssignsMarked;
      StepKeepsInv(w, e);
      assert SecureStep(w, e) by {
        MarkedAreSecure(w, e);
      }
      if e.Refresh? {
        assert Visitable(w, e.u) by {
          ShowVisitable(w, e);
        }
        UpdateKeepsMarkedRun(w, e.u);
        hide NoDangling, MarkedRun, Update;
      } else {
        PacketKeeps(w, e);
        hide NoDangling, StepBy;
      }
    }
  }

  lemma ShowVisitable(w: World, e: Event)
    requires e.Refresh? && Possible(w, e)
    ensures Visitable(w, e.u)
  {
  }

  lemma MarkedAreSecure(w: World, e: Event)
    requires MarkedRun(w)
    ensures SecureStep(w, e)
  {
  }

  // ---- Which connections are live -----------------------------------------------------------------------------

  function LastNamed(run: seq<Event>): set<nat> {
    if run == [] then {}
    else
      var e := run[|run| - 1];
      if e.Refresh? then NamedBy(e.u.tcp, e.u.udp) else LastNamed(run[..|run| - 1])
  }

  function NamedBefore(run: seq<Event>): set<nat> {
    if run == [] then {}
    else if run[|run| - 1].Refresh? then LastNamed(run[..|run| - 1])
    else NamedBefore(run[..|run| - 1])
  }

  // However the tables were visited and whatever dangles, after any run that has not used freed memory there is
  // one connection for each inode that one of the last two updates has named, and no other.
  lemma {:induction false} LiveAreLastTwo(run: seq<Event>)
    requires PossibleRun(EMPTY_WORLD, run) && !After(EMPTY_WORLD, run).fault
    ensures MarkedInodes(After(EMPTY_WORLD, run)) == LastNamed(run)
    ensures LiveInodes(After(EMPTY_WORLD, run)) == LastNamed(run) + NamedBefore(run)
    ensures Inv(After(EMPTY_WORLD, run)) && InodesDiffer(After(EMPTY_WORLD, run))
  {
    RunFaultsIff(EMPTY_WORLD, run);
    if run != [] {
      var before, e := run[..|run| - 1], run[|run| - 1];
      var w := After(EMPTY_WORLD, before);
      RunFaultsIff(EMPTY_WORLD, before);
      LiveAreLastTwo(before);
      hide ConnInv, ProcInv, FollowsLiveRun, LiveInodes, MarkedInodes, Update;
      if e.Refresh? {
        UpdateIsLastTwo(w, e.u);
      } else {
        PacketFaultsIff(w, e);
        TotalsKeepInv(w, StepBy(w, e));
      }
    }
  }
}
