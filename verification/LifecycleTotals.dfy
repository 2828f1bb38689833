/** Totals: over any run, what is shown for a process or a connection is the traffic of the packets it was due. */
module LifecycleTotals {
  import opened Wrappers
  import opened Lifecycle
  import opened LifecycleSweeps
  import opened LifecycleScan
  import opened LifecycleTheorems
  import opened LifecycleRuns

  // The event is a packet for a connection that has process p now.
  predicate DueProc(w: World, e: Event, p: Ptr) {
    e.Arrive? && e.found.Some? && e.found.value in w.conns && w.conns[e.found.value].proc == Some(p)
  }

  // The event is a packet for connection c while that has some process and connections are shown.
  predicate DueConn(w: World, e: Event, c: Ptr) {
    e.Arrive? && e.viewConnections && e.found == Some(c) && c in w.conns && w.conns[c].proc.Some?
  }

  function Plus(t: Traffic, e: Event, due: bool): Traffic
    requires due ==> e.Arrive?
  {
    Traffic(t.rx + (if due && e.pkt.direction == Down then e.pkt.length else 0),
            t.tx + (if due && e.pkt.direction == Up then e.pkt.length else 0))
  }

  // The traffic of all packets of the run that were for process p when they came.
  ghost function ProcTraffic(run: seq<Event>, p: Ptr): Traffic {
    if run == [] then Traffic(0, 0)
    else
      var before, e := run[..|run| - 1], run[|run| - 1];
      Plus(ProcTraffic(before, p), e, DueProc(After(EMPTY_WORLD, before), e, p))
  }

  ghost function ConnTraffic(run: seq<Event>, c: Ptr): Traffic {
    if run == [] then Traffic(0, 0)
    else
      var before, e := run[..|run| - 1], run[|run| - 1];
      Plus(ConnTraffic(before, c), e, DueConn(After(EMPTY_WORLD, before), e, c))
  }

  // ---- One step -----------------------------------------------------------------------------------------------

  lemma Allocated(w: World)
    requires Inv(w)
    ensures forall p | p in w.procs :: p < w.next
    ensures forall c | c in w.conns :: c < w.next
  {
  }

  // A process after an update was there before, with the same totals, or is new.
  lemma UpdateKeepsProcTotals(w: World, u: Input, p: Ptr)
    requires Inv(w) && Visitable(w, u) && p in Update(w, u).procs
    ensures p in w.procs ==> Update(w, u).procs[p].stat == w.procs[p].stat
    ensures p !in w.procs ==> p >= w.next && Update(w, u).procs[p].stat == Traffic(0, 0)
  {
    if Succeeds(u) {
      if p in w.procs {
        UpdateFreesInactive(w, u, p);
      } else {
        BeforeScanIs(w, u);
        ScanAllKeeps(BeforeScan(w, u), u.scans.value);
        hide Inv, Visitable, BeforeScan, ScanAll, SameConns;
      }
    } else {
      UpdateConnsKeepsInv(w, u.order, u.tcp, u.udp);
      hide Inv, Visitable, UpdateConns;
    }
  }

  lemma ReadingKeepsConnTotals(w: World, u: Input, c: Ptr)
    requires Inv(w) && Visitable(w, u) && c in UpdateConns(w, u.order, u.tcp, u.udp).conns
    ensures c in w.conns ==> UpdateConns(w, u.order, u.tcp, u.udp).conns[c].stat == w.conns[c].stat
    ensures c !in w.conns ==> c >= w.next && UpdateConns(w, u.order, u.tcp, u.udp).conns[c].stat == Traffic(0, 0)
  {
    UpdateConnsKeepsInv(w, u.order, u.tcp, u.udp);
    Allocated(w);
    hide Inv, ConnInv, Visitable, UpdateConns;
  }

  lemma ScanKeepsConnTotals(w: World, u: Input, c: Ptr)
    requires Inv(w) && Visitable(w, u) && c in Update(w, u).conns
    ensures c in UpdateConns(w, u.order, u.tcp, u.udp).conns
    ensures UpdateConns(w, u.order, u.tcp, u.udp).conns[c].stat == Update(w, u).conns[c].stat
  {
    if Succeeds(u) {
      BeforeScanIs(w, u);
      assert BeforeScan(w, u).conns == UpdateConns(w, u.order, u.tcp, u.udp).conns;
      ScanAllKeeps(BeforeScan(w, u), u.scans.value);
      hide Inv, Visitable, BeforeScan, ScanAll, KeepsProcs, KeepsConns, UpdateConns;
    }
  }

  lemma UpdateKeepsConnTotals(w: World, u: Input, c: Ptr)
    requires Inv(w) && Visitable(w, u) && c in Update(w, u).conns
    ensures c in w.conns ==> Update(w, u).conns[c].stat == w.conns[c].stat
    ensures c !in w.conns ==> c >= w.next && Update(w, u).conns[c].stat == Traffic(0, 0)
  {
    hide Inv, Visitable, Update, UpdateConns;
    ScanKeepsConnTotals(w, u, c);
    ReadingKeepsConnTotals(w, u, c);
  }

  lemma UpdateNext(w: World, u: Input)
    requires Inv(w) && Visitable(w, u)
    ensures w.next <= Update(w, u).next
  {
    BeforeScanIs(w, u);
    UpdateConnsKeepsInv(w, u.order, u.tcp, u.udp);
    if Succeeds(u) {
      ScanAllKeeps(BeforeScan(w, u), u.scans.value);
    }
    hide Inv, Visitable, BeforeScan, ScanAll, UpdateConns;
  }

  // A step without a fault adds to each total what it is due.
  lemma StepAddsToProc(w: World, e: Event, p: Ptr)
    requires Inv(w) && Possible(w, e) && !StepBy(w, e).fault
    ensures w.next <= StepBy(w, e).next && (DueProc(w, e, p) ==> p in w.procs)
    ensures p in StepBy(w, e).procs && p in w.procs ==>
        StepBy(w, e).procs[p].stat == Plus(w.procs[p].stat, e, DueProc(w, e, p))
    ensures p in StepBy(w, e).procs && p !in w.procs ==>
        p >= w.next && StepBy(w, e).procs[p].stat == Traffic(0, 0)
  {
    if e.Refresh? {
      UpdateNext(w, e.u);
      hide Inv, Update;
      if p in Update(w, e.u).procs {
        UpdateKeepsProcTotals(w, e.u, p);
      }
    } else if e.found.Some? {
      ArriveCounts(w, e);
      hide Inv, Possible, StepBy, ForConn;
    }
  }

  lemma StepAddsToConn(w: World, e: Event, c: Ptr)
    requires Inv(w) && Possible(w, e) && !StepBy(w, e).fault
    ensures w.next <= StepBy(w, e).next && (DueConn(w, e, c) ==> c in w.conns)
    ensures c in StepBy(w, e).conns && c in w.conns ==>
        StepBy(w, e).conns[c].stat == Plus(w.conns[c].stat, e, DueConn(w, e, c))
    ensures c in StepBy(w, e).conns && c !in w.conns ==>
        c >= w.next && StepBy(w, e).conns[c].stat == Traffic(0, 0)
  {
    if e.Refresh? {
      UpdateNext(w, e.u);
      hide Inv, Update;
      if c in Update(w, e.u).conns {
        UpdateKeepsConnTotals(w, e.u, c);
      }
    } else if e.found.Some? {
      ArriveCounts(w, e);
      hide Inv, Possible, StepBy, ForProc;
    }
  }

  lemma ArriveCounts(w: World, e: Event)
    requires Inv(w) && Possible(w, e) && e.Arrive? && e.found.Some? && !StepBy(w, e).fault
    ensures e.found.value in w.conns
    ensures CountsPacket(w, StepBy(w, e), e.pkt, e.viewConnections, e.found.value,
                         w.conns[e.found.value].proc.Some?)
  {
    PacketFaultsIff(w, e);
    assert e.found.value in w.conns;
    hide Inv, CountsPacket, CreditTo, OnlyTotals;
    CreditCounts(w, e.pkt, e.viewConnections, e.found.value);
    CreditedIff(w, e.pkt, e.viewConnections, e.found.value);
  }

  lemma CreditedIff(w: World, pkt: Packet, view: bool, c: Ptr)
    requires c in w.conns
    ensures CreditTo(w, pkt, view, c).1 <==> w.conns[c].proc.Some?
  {
  }

  // ---- Runs ---------------------------------------------------------------------------------------------------

  // After any run that has not used freed memory, the totals of a live process are exactly the traffic of the
  // packets that came for a connection which had this process at that moment: none is lost and none counted twice,
  // whatever updates came in between and whoever the connection belonged to before or after.
  lemma {:induction false} ProcTotals(run: seq<Event>, p: Ptr)
    requires PossibleRun(EMPTY_WORLD, run) && !After(EMPTY_WORLD, run).fault
    ensures p in After(EMPTY_WORLD, run).procs ==> After(EMPTY_WORLD, run).procs[p].stat == ProcTraffic(run, p)
    ensures p >= After(EMPTY_WORLD, run).next ==> ProcTraffic(run, p) == Traffic(0, 0)
  {
    if run != [] {
      var before, e := run[..|run| - 1], run[|run| - 1];
      var w := After(EMPTY_WORLD, before);
      hide Possible, StepBy;
      if w.fault {
        FaultStays(w, e);
      }
      ProcTotals(before, p);
      RunFaultsIff(EMPTY_WORLD, before);
      Allocated(w);
      hide Inv, DueProc;
      StepAddsToProc(w, e, p);
    }
  }

  // And those of a live connection the traffic of the packets that came for it while connections were shown and it
  // had a process.
  lemma {:induction false} ConnTotals(run: seq<Event>, c: Ptr)
    requires PossibleRun(EMPTY_WORLD, run) && !After(EMPTY_WORLD, run).fault
    ensures c in After(EMPTY_WORLD, run).conns ==> After(EMPTY_WORLD, run).conns[c].stat == ConnTraffic(run, c)
    ensures c >= After(EMPTY_WORLD, run).next ==> ConnTraffic(run, c) == Traffic(0, 0)
  {
    if run != [] {
      var before, e := run[..|run| - 1], run[|run| - 1];
      var w := After(EMPTY_WORLD, before);
      hide Possible, StepBy;
      if w.fault {
        FaultStays(w, e);
      }
      ConnTotals(before, c);
      RunFaultsIff(EMPTY_WORLD, before);
      Allocated(w);
      hide Inv, DueConn;
      StepAddsToConn(w, e, c);
    }
  }
}
