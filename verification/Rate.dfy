/**
 Traffic rates over a sliding window of five ticks.  Every net_stat keeps a ring of samples; all of
 them share one ring index, which a tick advances.
 */
module Rate {
  import opened Wrappers

  const SAMPLE_SPACE_SIZE: nat := 5

  // One position of the four sample rings.
  datatype Sample = Sample(ppsRx: nat, ppsTx: nat, bpsRx: nat, bpsTx: nat)

  const NO_SAMPLE: Sample := Sample(0, 0, 0, 0)

  // The value of a struct net_stat.
  datatype Stat = Stat(samples: seq<Sample>, avgBpsRx: nat, avgBpsTx: nat, avgPpsRx: nat, avgPpsTx: nat,
                       totBpsRx: nat, totBpsTx: nat, lastRx: nat, lastTx: nat)

  const FRESH_STAT: Stat := Stat([NO_SAMPLE, NO_SAMPLE, NO_SAMPLE, NO_SAMPLE, NO_SAMPLE], 0, 0, 0, 0, 0, 0, 0, 0)

  function AddRx(s: Stat, idx: nat, length: nat): Stat
    requires idx < |s.samples|
  {
    var p := s.samples[idx];
    s.(samples := s.samples[idx := p.(ppsRx := p.ppsRx + 1, bpsRx := p.bpsRx + length)],
       lastRx := s.lastRx + length, totBpsRx := s.totBpsRx + length)
  }

  function AddTx(s: Stat, idx: nat, length: nat): Stat
    requires idx < |s.samples|
  {
    var p := s.samples[idx];
    s.(samples := s.samples[idx := p.(ppsTx := p.ppsTx + 1, bpsTx := p.bpsTx + length)],
       lastTx := s.lastTx + length, totBpsTx := s.totBpsTx + length)
  }

  // A tick empties the sample the index has moved to; only processes restart their last-second counters.
  function Tick(s: Stat, idx: nat, isProcess: bool): Stat
    requires idx < |s.samples|
  {
    var t := s.(samples := s.samples[idx := NO_SAMPLE]);
    if isProcess then t.(lastRx := 0, lastTx := 0) else t
  }

  function NextIndex(idx: nat): nat {
    (idx + 1) % SAMPLE_SPACE_SIZE
  }

  function Sum(samples: seq<Sample>, field: Sample -> nat): nat {
    if samples == [] then 0 else Sum(samples[..|samples| - 1], field) + field(samples[|samples| - 1])
  }

  function BpsRx(p: Sample): nat { p.bpsRx }
  function BpsTx(p: Sample): nat { p.bpsTx }
  function PpsRx(p: Sample): nat { p.ppsRx }
  function PpsTx(p: Sample): nat { p.ppsTx }

  // m_round: the input is never negative.
  function MRound(x: real): nat
    requires x >= 0.0
  {
    (x + 0.5).Floor
  }

  function Average(sum: nat): nat {
    MRound(sum as real / 5.0)
  }

  function Averaged(s: Stat, viewBytes: bool): Stat {
    var bits := if viewBytes then 1 else 8;
    s.(avgBpsRx := Average(bits * Sum(s.samples, BpsRx)), avgBpsTx := Average(bits * Sum(s.samples, BpsTx)),
       avgPpsRx := Average(Sum(s.samples, PpsRx)), avgPpsTx := Average(Sum(s.samples, PpsTx)))
  }

  // The average is the one integer nearest to a fifth of the sum.
  lemma AverageIsNearest(sum: nat)
    ensures var a := Average(sum); -2 <= 5 * a - sum <= 2
    ensures forall b: int :: -2 <= 5 * b - sum <= 2 ==> b == Average(sum)
  {
    var x := sum as real / 5.0;
    var a := Average(sum);
    assert a as real <= x + 0.5 < a as real + 1.0;
  }

  lemma SumOfFive(s: seq<Sample>, field: Sample -> nat)
    requires |s| == SAMPLE_SPACE_SIZE
    ensures Sum(s, field) == field(s[0]) + field(s[1]) + field(s[2]) + field(s[3]) + field(s[4])
  {
    assert s[..4][..3] == s[..3] && s[..3][..2] == s[..2] && s[..2][..1] == s[..1] && s[..1][..0] == [];
    assert Sum(s[..1], field) == field(s[0]);
    assert Sum(s[..2], field) == Sum(s[..1], field) + field(s[1]);
    assert Sum(s[..3], field) == Sum(s[..2], field) + field(s[2]);
    assert Sum(s[..4], field) == Sum(s[..3], field) + field(s[3]);
  }

  // ---- The structs in place ----------------------------------------------------------------------------

  class NetStat {
    const samples: array<Sample>
    var avgBpsRx: nat
    var avgBpsTx: nat
    var avgPpsRx: nat
    var avgPpsTx: nat
    var totBpsRx: nat
    var totBpsTx: nat
    var lastRx: nat
    var lastTx: nat

    function Value(): Stat
      reads this, samples
    {
      Stat(samples[..], avgBpsRx, avgBpsTx, avgPpsRx, avgPpsTx, totBpsRx, totBpsTx, lastRx, lastTx)
    }

    ghost predicate Valid() {
      samples.Length == SAMPLE_SPACE_SIZE
    }

    constructor ()
      ensures Valid() && fresh(samples) && Value() == FRESH_STAT
    {
      samples := new Sample[SAMPLE_SPACE_SIZE](_ => NO_SAMPLE);
      avgBpsRx, avgBpsTx, avgPpsRx, avgPpsTx := 0, 0, 0, 0;
      totBpsRx, totBpsTx, lastRx, lastTx := 0, 0, 0, 0;
    }

    // rate_net_stat
    method RateNetStat(viewBytes: bool)
      requires Valid()
      modifies this
      ensures Value() == Averaged(old(Value()), viewBytes)
    {
      var sumBytesRx, sumBytesTx, sumPpsRx, sumPpsTx := 0, 0, 0, 0;
      for i := 0 to SAMPLE_SPACE_SIZE
        invariant sumBytesRx == Sum(samples[..i], BpsRx) && sumBytesTx == Sum(samples[..i], BpsTx)
        invariant sumPpsRx == Sum(samples[..i], PpsRx) && sumPpsTx == Sum(samples[..i], PpsTx)
      {
        assert samples[..i + 1][..i] == samples[..i];
        sumBytesRx := sumBytesRx + samples[i].bpsRx;
        sumBytesTx := sumBytesTx + samples[i].bpsTx;
        sumPpsRx := sumPpsRx + samples[i].ppsRx;
        sumPpsTx := sumPpsTx + samples[i].ppsTx;
      }
      assert samples[..SAMPLE_SPACE_SIZE] == samples[..];
      if !viewBytes {
        sumBytesRx := sumBytesRx * 8;
        sumBytesTx := sumBytesTx * 8;
      }
      avgBpsRx := MRound(sumBytesRx as real / 5.0);
      avgBpsTx := MRound(sumBytesTx as real / 5.0);
      avgPpsRx := MRound(sumPpsRx as real / 5.0);
      avgPpsTx := MRound(sumPpsTx as real / 5.0);
    }

    // The part of rate_update for one struct.
    method ClearSample(idx: nat, isProcess: bool)
      requires Valid() && idx < SAMPLE_SPACE_SIZE
      modifies this, samples
      ensures Value() == Tick(old(Value()), idx, isProcess)
    {
      samples[idx] := NO_SAMPLE;
      if isProcess {
        lastRx, lastTx := 0, 0;
      }
    }
  }

  // A listed process and its connections; a connection shared by two processes is in both lists.
  datatype Listed = Listed(process: NetStat, connections: seq<NetStat>)

  // All structs exist, and no two of them share memory.
  ghost predicate Separate(all: set<NetStat>) {
    forall a, b | a in all && b in all :: a.Valid() && (a != b ==> a.samples != b.samples)
  }

  ghost function Memory(all: set<NetStat>): set<object> {
    (set n: NetStat | n in all :: n as object) + (set n: NetStat | n in all :: n.samples as object)
  }

  class Rates {
    var idxCir: nat

    constructor ()
      ensures idxCir == 0
    {
      idxCir := 0;
    }

    method RateAddRx(ns: NetStat, length: nat)
      requires ns.Valid() && idxCir < SAMPLE_SPACE_SIZE
      modifies ns, ns.samples
      ensures ns.Value() == AddRx(old(ns.Value()), idxCir, length)
    {
      var p := ns.samples[idxCir];
      ns.samples[idxCir] := p.(ppsRx := p.ppsRx + 1, bpsRx := p.bpsRx + length);
      ns.lastRx := ns.lastRx + length;
      ns.totBpsRx := ns.totBpsRx + length;
    }

    method RateAddTx(ns: NetStat, length: nat)
      requires ns.Valid() && idxCir < SAMPLE_SPACE_SIZE
      modifies ns, ns.samples
      ensures ns.Value() == AddTx(old(ns.Value()), idxCir, length)
    {
      var p := ns.samples[idxCir];
      ns.samples[idxCir] := p.(ppsTx := p.ppsTx + 1, bpsTx := p.bpsTx + length);
      ns.lastTx := ns.lastTx + length;
      ns.totBpsTx := ns.totBpsTx + length;
    }

    // rate_update: the index moves on, and the sample it reaches is emptied in every listed process and,
    // if connections are shown, in their connections.
    method RateUpdate(processes: seq<Listed>, viewConnections: bool, ghost all: set<NetStat>)
      requires Separate(all) && WellListed(processes, all) && idxCir < SAMPLE_SPACE_SIZE
      modifies this, Memory(all)
      ensures idxCir == NextIndex(old(idxCir))
      ensures forall n | n in all ::
                n.Value() == Ticked(old(n.Value()), idxCir, n in ProcessesOf(processes),
                    viewConnections && n in ConnectionsOf(processes))
      ensures forall n | n in all ::
                TickFields(old(n.Value()), n.Value(), idxCir, n in ProcessesOf(processes),
                           viewConnections && n in ConnectionsOf(processes))
    {
      idxCir := (idxCir + 1) % SAMPLE_SPACE_SIZE;
      assert this !in Memory(all);
      for i := 0 to |processes|
        invariant idxCir == NextIndex(old(idxCir))
        invariant forall n | n in all ::
                    n.Value() == Ticked(old(n.Value()), idxCir, n in ProcessesOf(processes[..i]),
                                        viewConnections && n in ConnectionsOf(processes[..i]))
      {
        assert processes[..i + 1][..i] == processes[..i];
        assert processes[i] in processes;
        PrefixListed(processes, i + 1);
        hide Tick, Ticked;
        ghost var done, shown := ProcessesOf(processes[..i]), ConnectionsOf(processes[..i]);
        var p := processes[i];
        ClearListed(p, viewConnections, all);
        forall n | n in all
          ensures n.Value() == Ticked(old(n.Value()), idxCir, n in done || n == p.process,
                                      viewConnections && (n in shown || n in p.connections))
        {
          TickedTwice(old(n.Value()), idxCir, n in done, viewConnections && n in shown,
                      n == p.process, viewConnections && n in p.connections);
        }
      }
      assert processes[..|processes|] == processes;
      hide Ticked, TickFields;
      forall n | n in all
        ensures TickFields(old(n.Value()), n.Value(), idxCir, n in ProcessesOf(processes),
                           viewConnections && n in ConnectionsOf(processes))
      {
        TickedFields(old(n.Value()), idxCir, n in ProcessesOf(processes),
            viewConnections && n in ConnectionsOf(processes));
      }
    }

    method ClearListed(p: Listed, viewConnections: bool, ghost all: set<NetStat>)
      requires Separate(all) && p.process in all && (forall c | c in p.connections :: c in all)
      requires idxCir < SAMPLE_SPACE_SIZE
      requires p.process !in p.connections
      modifies Memory(all)
      ensures forall n | n in all ::
                n.Value() == Ticked(old(n.Value()), idxCir, n == p.process, viewConnections && n in p.connections)
    {
      p.process.ClearSample(idxCir, true);
      if viewConnections {
        ClearConnections(p.connections, all);
      }
    }

    method ClearConnections(connections: seq<NetStat>, ghost all: set<NetStat>)
      requires Separate(all) && (forall c | c in connections :: c in all) && idxCir < SAMPLE_SPACE_SIZE
      modifies Memory(all)
      ensures forall n | n in all :: n.Value() == Ticked(old(n.Value()), idxCir, false, n in connections)
    {
      for c := 0 to |connections|
        invariant forall n | n in all :: n.Value() == Ticked(old(n.Value()), idxCir, false, n in connections[..c])
      {
        assert connections[c] in connections;
        connections[c].ClearSample(idxCir, false);
      }
    }

    // rate_calc: the averages of every listed process and, if connections are shown, of their connections.
    method RateCalc(processes: seq<Listed>, viewBytes: bool, viewConnections: bool, ghost all: set<NetStat>)
      requires Separate(all) && WellListed(processes, all)
      modifies all
      ensures forall n | n in all ::
                n.Value() == Calculated(old(n.Value()), Shown(n, processes, viewConnections), viewBytes)
      ensures forall n | n in all ::
                CalcFields(old(n.Value()), n.Value(), Shown(n, processes, viewConnections), viewBytes)
    {
      for i := 0 to |processes|
        invariant forall n | n in all ::
                    n.Value() == Calculated(old(n.Value()), Shown(n, processes[..i], viewConnections), viewBytes)
      {
        assert processes[..i + 1][..i] == processes[..i];
        assert processes[i] in processes;
        hide Averaged, Calculated;
        var p := processes[i];
        CalcListed(p, viewBytes, viewConnections, all);
        forall n | n in all
          ensures n.Value() == Calculated(old(n.Value()), Shown(n, processes[..i + 1], viewConnections), viewBytes)
        {
          CalculatedTwice(old(n.Value()), Shown(n, processes[..i], viewConnections), ShownBy(n, p, viewConnections),
              viewBytes);
        }
      }
      assert processes[..|processes|] == processes;
      hide Averaged, Calculated, CalcFields;
      forall n | n in all
        ensures CalcFields(old(n.Value()), n.Value(), Shown(n, processes, viewConnections), viewBytes)
      {
        CalculatedFields(old(n.Value()), Shown(n, processes, viewConnections), viewBytes);
      }
    }

    method CalcListed(p: Listed, viewBytes: bool, viewConnections: bool, ghost all: set<NetStat>)
      requires Separate(all) && p.process in all && forall c | c in p.connections :: c in all
      modifies all
      ensures forall n | n in all :: n.Value() == Calculated(old(n.Value()), ShownBy(n, p, viewConnections), viewBytes)
    {
      p.process.RateNetStat(viewBytes);
      if viewConnections {
        CalcConnections(p.connections, viewBytes, all);
      }
    }

    method CalcConnections(connections: seq<NetStat>, viewBytes: bool, ghost all: set<NetStat>)
      requires Separate(all) && forall c | c in connections :: c in all
      modifies all
      ensures forall n | n in all :: n.Value() == Calculated(old(n.Value()), n in connections, viewBytes)
    {
      for c := 0 to |connections|
        invariant forall n | n in all :: n.Value() == Calculated(old(n.Value()), n in connections[..c], viewBytes)
      {
        assert connections[c] in connections;
        connections[c].RateNetStat(viewBytes);
      }
    }
  }

  // The averages are calculated for every listed process and, if connections are shown, for its connections.
  ghost predicate Shown(n: NetStat, processes: seq<Listed>, viewConnections: bool) {
    n in ProcessesOf(processes) || (viewConnections && n in ConnectionsOf(processes))
  }

  ghost predicate ShownBy(n: NetStat, p: Listed, viewConnections: bool) {
    n == p.process || (viewConnections && n in p.connections)
  }

  ghost function Calculated(s: Stat, shown: bool, viewBytes: bool): Stat {
    if shown then Averaged(s, viewBytes) else s
  }

  // The averages depend on the samples only, so calculating them twice is like calculating them once.
  lemma CalculatedTwice(s: Stat, shown: bool, shown': bool, viewBytes: bool)
    ensures Calculated(Calculated(s, shown, viewBytes), shown', viewBytes) == Calculated(s, shown || shown', viewBytes)
  {
  }

  // What a tick makes of a struct that is listed as a process, or as a connection, or not at all.
  function Ticked(s: Stat, idx: nat, asProcess: bool, asConnection: bool): Stat
    requires idx < |s.samples|
  {
    if asProcess then Tick(s, idx, true) else if asConnection then Tick(s, idx, false) else s
  }

  // What a tick does to a struct, field by field: the sample at the new index is empty if the struct is listed, the
  // last-second counters restart if it is listed as a process, and everything else is as it was.
  ghost predicate TickFields(s: Stat, t: Stat, idx: nat, asProcess: bool, asConnection: bool)
    requires idx < |s.samples| == |t.samples|
  {
    && t.samples[idx] == (if asProcess || asConnection then Sample(0, 0, 0, 0) else s.samples[idx])
    && (forall i | 0 <= i < |s.samples| && i != idx :: t.samples[i] == s.samples[i])
    && t.lastRx == (if asProcess then 0 else s.lastRx) && t.lastTx == (if asProcess then 0 else s.lastTx)
    && t.totBpsRx == s.totBpsRx && t.totBpsTx == s.totBpsTx
    && t.avgBpsRx == s.avgBpsRx && t.avgBpsTx == s.avgBpsTx && t.avgPpsRx == s.avgPpsRx && t.avgPpsTx == s.avgPpsTx
  }

  lemma TickedFields(s: Stat, idx: nat, asProcess: bool, asConnection: bool)
    requires idx < |s.samples|
    ensures |Ticked(s, idx, asProcess, asConnection).samples| == |s.samples|
    ensures TickFields(s, Ticked(s, idx, asProcess, asConnection), idx, asProcess, asConnection)
  {
  }

  // a is the integer nearest to a fifth of n.
  predicate NearestFifth(a: int, n: int) {
    -2 <= 5 * a - n <= 2
  }

  // What rate_calc does to a struct, field by field.
  ghost predicate CalcFields(s: Stat, t: Stat, shown: bool, viewBytes: bool)
    requires |s.samples| == SAMPLE_SPACE_SIZE
  {
    && t.samples == s.samples && t.lastRx == s.lastRx && t.lastTx == s.lastTx
    && t.totBpsRx == s.totBpsRx && t.totBpsTx == s.totBpsTx
    && (!shown ==> t == s)
    && (shown ==>
          var p, bits := s.samples, if viewBytes then 1 else 8;
          && NearestFifth(t.avgBpsRx, bits * (p[0].bpsRx + p[1].bpsRx + p[2].bpsRx + p[3].bpsRx + p[4].bpsRx))
          && NearestFifth(t.avgBpsTx, bits * (p[0].bpsTx + p[1].bpsTx + p[2].bpsTx + p[3].bpsTx + p[4].bpsTx))
          && NearestFifth(t.avgPpsRx, p[0].ppsRx + p[1].ppsRx + p[2].ppsRx + p[3].ppsRx + p[4].ppsRx)
          && NearestFifth(t.avgPpsTx, p[0].ppsTx + p[1].ppsTx + p[2].ppsTx + p[3].ppsTx + p[4].ppsTx))
  }

  lemma CalculatedFields(s: Stat, shown: bool, viewBytes: bool)
    requires |s.samples| == SAMPLE_SPACE_SIZE
    ensures CalcFields(s, Calculated(s, shown, viewBytes), shown, viewBytes)
  {
    var bits := if viewBytes then 1 else 8;
    SumOfFive(s.samples, BpsRx);
    SumOfFive(s.samples, BpsTx);
    SumOfFive(s.samples, PpsRx);
    SumOfFive(s.samples, PpsTx);
    hide Sum, Average;
    AverageIsNearest(bits * Sum(s.samples, BpsRx));
    AverageIsNearest(bits * Sum(s.samples, BpsTx));
    AverageIsNearest(Sum(s.samples, PpsRx));
    AverageIsNearest(Sum(s.samples, PpsTx));
  }

  // Being listed twice in the same role is like being listed once.
  lemma TickedTwice(s: Stat, idx: nat, asProcess: bool, asConnection: bool, asProcess': bool, asConnection': bool)
    requires idx < |s.samples| && !(asProcess && asConnection') && !(asProcess' && asConnection)
    ensures Ticked(Ticked(s, idx, asProcess, asConnection), idx, asProcess', asConnection')
         == Ticked(s, idx, asProcess || asProcess', asConnection || asConnection')
  {
  }

  ghost predicate WellListed(processes: seq<Listed>, all: set<NetStat>) {
    && (forall p | p in processes :: p.process in all && forall c | c in p.connections :: c in all)
    && ProcessesOf(processes) !! ConnectionsOf(processes)
  }

  ghost function ProcessesOf(processes: seq<Listed>): set<NetStat> {
    if processes == [] then {} else ProcessesOf(processes[..|processes| - 1]) + {processes[|processes| - 1].process}
  }

  ghost function ConnectionsOf(processes: seq<Listed>): set<NetStat> {
    if processes == [] then {}
    else ConnectionsOf(processes[..|processes| - 1]) + SetOf(processes[|processes| - 1].connections)
  }

  lemma {:induction false} PrefixListed(processes: seq<Listed>, i: nat)
    requires i <= |processes|
    ensures ProcessesOf(processes[..i]) <= ProcessesOf(processes)
    ensures ConnectionsOf(processes[..i]) <= ConnectionsOf(processes)
  {
    if i == |processes| {
      assert processes[..i] == processes;
    } else {
      var t := processes[..|processes| - 1];
      assert t[..i] == processes[..i];
      PrefixListed(t, i);
    }
  }
}
