/**
 Runs of the rate functions on all the structs at once: what any one of them has been through is a history of its
 own, and its counters are the ones of that history.
 */
module RateRuns {
  import opened Wrappers
  import opened Rate
  import opened RateTheorems

  // What the main loop calls: a packet is counted, or a tick passes, with the averages before it.
  datatype Call =
    | Receive(ns: NetStat, length: nat)
    | Send(ns: NetStat, length: nat)
    | Calc(processes: seq<Listed>, viewBytes: bool, viewConnections: bool)
    | Update(processes: seq<Listed>, viewConnections: bool)

  // `procs` are the structs that belong to processes; all others belong to connections.
  ghost predicate Sound(c: Call, all: set<NetStat>, procs: set<NetStat>) {
    match c
    case Receive(ns, _) => ns in all
    case Send(ns, _) => ns in all
    case Calc(processes, _, _) => WellListed(processes, all)
    case Update(processes, _) =>
      WellListed(processes, all) && ProcessesOf(processes) <= procs && ConnectionsOf(processes) !! procs
  }

  // What the call means for one struct.
  ghost function OpFor(c: Call, n: NetStat): seq<Op> {
    match c
    case Receive(ns, l) => if ns == n then [Received(l)] else []
    case Send(ns, l) => if ns == n then [Sent(l)] else []
    case Calc(_, _, _) => []
    case Update(processes, viewConnections) =>
      [if Shown(n, processes, viewConnections) then ListedTick else MissedTick]
  }

  // The history of one struct.
  ghost function History(calls: seq<Call>, n: NetStat): seq<Op> {
    if calls == [] then [] else History(calls[..|calls| - 1], n) + OpFor(calls[|calls| - 1], n)
  }

  // Everything but the averages.
  predicate SameCounts(s: Stat, t: Stat) {
    && s.samples == t.samples && s.lastRx == t.lastRx && s.lastTx == t.lastTx
    && s.totBpsRx == t.totBpsRx && s.totBpsTx == t.totBpsTx
  }

  // What a call makes of one struct.
  ghost function ValueAfter(c: Call, n: NetStat, s: Stat, idx: nat): Stat
    requires idx < SAMPLE_SPACE_SIZE == |s.samples|
  {
    match c
    case Receive(ns, l) => if ns == n then AddRx(s, idx, l) else s
    case Send(ns, l) => if ns == n then AddTx(s, idx, l) else s
    case Calc(processes, viewBytes, viewConnections) => Calculated(s, Shown(n, processes, viewConnections), viewBytes)
    case Update(processes, viewConnections) =>
      Ticked(s, NextIndex(idx), n in ProcessesOf(processes), viewConnections && n in ConnectionsOf(processes))
  }

  function IndexAfter(c: Call, idx: nat): nat {
    if c.Update? then NextIndex(idx) else idx
  }

  // A struct that has the counts of its history has the counts of the longer history after the call.
  lemma CallFollows(c: Call, n: NetStat, s: Stat, start: nat, ops: seq<Op>, all: set<NetStat>, procs: set<NetStat>)
    requires start < SAMPLE_SPACE_SIZE && |s.samples| == SAMPLE_SPACE_SIZE && Sound(c, all, procs)
    requires SameCounts(s, After(start, ops, n in procs).stat)
    ensures SameCounts(ValueAfter(c, n, s, After(start, ops, n in procs).idx),
                       After(start, ops + OpFor(c, n), n in procs).stat)
    ensures After(start, ops + OpFor(c, n), n in procs).idx == IndexAfter(c, After(start, ops, n in procs).idx)
  {
    var r := After(start, ops, n in procs);
    if OpFor(c, n) == [] {
      assert ops + OpFor(c, n) == ops;
    } else {
      AfterOneMore(start, ops, OpFor(c, n)[0], n in procs);
      assert ops + OpFor(c, n) == ops + [OpFor(c, n)[0]];
    }
    hide After, ProcessesOf, ConnectionsOf, Averaged;
    match c
    case Receive(_, l) => SameAdds(s, r.stat, r.idx, l);
    case Send(_, l) => SameAdds(s, r.stat, r.idx, l);
    case Calc(processes, viewBytes, viewConnections) =>
      SameCalc(s, r.stat, Shown(n, processes, viewConnections), viewBytes);
    case Update(processes, viewConnections) =>
      var asProcess, asConnection := n in ProcessesOf(processes), viewConnections && n in ConnectionsOf(processes);
      SameTick(s, r.stat, NextIndex(r.idx), asProcess, asConnection);
      hide Ticked, Tick, SameCounts;
  }

  lemma SameAdds(s: Stat, t: Stat, idx: nat, length: nat)
    requires idx < |s.samples| == |t.samples| && SameCounts(s, t)
    ensures SameCounts(AddRx(s, idx, length), AddRx(t, idx, length))
    ensures SameCounts(AddTx(s, idx, length), AddTx(t, idx, length))
  {
  }

  lemma SameCalc(s: Stat, t: Stat, shown: bool, viewBytes: bool)
    requires SameCounts(s, t)
    ensures SameCounts(Calculated(s, shown, viewBytes), t)
  {
  }

  lemma SameTick(s: Stat, t: Stat, idx: nat, asProcess: bool, asConnection: bool)
    requires idx < |s.samples| == |t.samples| && SameCounts(s, t)
    ensures asProcess || asConnection ==> SameCounts(Ticked(s, idx, asProcess, asConnection), Tick(t, idx, asProcess))
    ensures !asProcess && !asConnection ==> SameCounts(Ticked(s, idx, asProcess, asConnection), t)
  {
  }

  method Do(rates: Rates, c: Call, ghost all: set<NetStat>, ghost procs: set<NetStat>)
    requires Separate(all) && Sound(c, all, procs) && rates.idxCir < SAMPLE_SPACE_SIZE
    modifies rates, Memory(all)
    ensures rates.idxCir == IndexAfter(c, old(rates.idxCir))
    ensures forall n | n in all :: n.Value() == ValueAfter(c, n, old(n.Value()), old(rates.idxCir))
  {
    hide AddRx, AddTx, Ticked, Calculated, TickFields, CalcFields;
    match c {
      case Receive(ns, l) => rates.RateAddRx(ns, l);
      case Send(ns, l) => rates.RateAddTx(ns, l);
      case Calc(processes, viewBytes, viewConnections) => rates.RateCalc(processes, viewBytes, viewConnections, all);
      case Update(processes, viewConnections) => rates.RateUpdate(processes, viewConnections, all);
    }
  }

  // The four windows of a struct are the traffic of its history, and what missed ticks have left.
  ghost predicate WindowIs(s: Stat, ops: seq<Op>) {
    && Sum(s.samples, BpsRx) == InWindow(ops, BytesIn) + Stale(ops, BytesIn)
    && Sum(s.samples, BpsTx) == InWindow(ops, BytesOut) + Stale(ops, BytesOut)
    && Sum(s.samples, PpsRx) == InWindow(ops, PacketsIn) + Stale(ops, PacketsIn)
    && Sum(s.samples, PpsTx) == InWindow(ops, PacketsOut) + Stale(ops, PacketsOut)
  }

  // Over any run each struct's counters are those of its own history, and its windows too.
  method Run(rates: Rates, calls: seq<Call>, ghost all: set<NetStat>, ghost procs: set<NetStat>)
    requires Separate(all) && rates.idxCir < SAMPLE_SPACE_SIZE && forall c | c in calls :: Sound(c, all, procs)
    requires forall n | n in all :: SameCounts(n.Value(), FRESH_STAT)
    modifies rates, Memory(all)
    ensures rates.idxCir < SAMPLE_SPACE_SIZE
    ensures forall n | n in all ::
              && After(old(rates.idxCir), History(calls, n), n in procs).idx == rates.idxCir
              && SameCounts(n.Value(), After(old(rates.idxCir), History(calls, n), n in procs).stat)
    ensures forall n | n in all :: WindowIs(n.Value(), History(calls, n))
  {
    ghost var start := rates.idxCir;
    for i := 0 to |calls|
      invariant rates.idxCir < SAMPLE_SPACE_SIZE
      invariant forall n | n in all ::
                  && After(start, History(calls[..i], n), n in procs).idx == rates.idxCir
                  && SameCounts(n.Value(), After(start, History(calls[..i], n), n in procs).stat)
    {
      assert calls[..i + 1][..i] == calls[..i];
      hide After, SameCounts, ValueAfter, OpFor, Sound;
      forall n | n in all
        ensures SameCounts(ValueAfter(calls[i], n, n.Value(), rates.idxCir),
                           After(start, History(calls[..i + 1], n), n in procs).stat)
        ensures After(start, History(calls[..i + 1], n), n in procs).idx == IndexAfter(calls[i], rates.idxCir)
      {
        CallFollows(calls[i], n, n.Value(), start, History(calls[..i], n), all, procs);
      }
      Do(rates, calls[i], all, procs);
    }
    assert calls[..|calls|] == calls;
    forall n | n in all
      ensures WindowIs(n.Value(), History(calls, n))
    {
      WindowAndStale(start, History(calls, n), n in procs);
      hide Sum, InWindow, Stale, After;
    }
  }
}
