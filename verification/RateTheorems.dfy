/** The ring of five samples against the plain history of the traffic. */
module RateTheorems {
  import opened Rate
  import opened Wrappers

  // What happens to one struct: traffic, a tick at which it is listed, or a tick at which it is not.
  datatype Op = Received(length: nat) | Sent(length: nat) | ListedTick | MissedTick

  // The struct and the shared index, after a run from an arbitrary index.
  datatype Ring = Ring(stat: Stat, idx: nat)

  // One more operation; the struct belongs to a process or to a connection.
  function Next(r: Ring, op: Op, isProcess: bool): (r': Ring)
    requires r.idx < SAMPLE_SPACE_SIZE == |r.stat.samples|
    ensures r'.idx < SAMPLE_SPACE_SIZE == |r'.stat.samples|
  {
    match op
    case Received(l) => r.(stat := AddRx(r.stat, r.idx, l))
    case Sent(l) => r.(stat := AddTx(r.stat, r.idx, l))
    case ListedTick => Ring(Tick(r.stat, NextIndex(r.idx), isProcess), NextIndex(r.idx))
    case MissedTick => r.(idx := NextIndex(r.idx))
  }

  function After(start: nat, ops: seq<Op>, isProcess: bool): (r: Ring)
    requires start < SAMPLE_SPACE_SIZE
    ensures r.idx < SAMPLE_SPACE_SIZE == |r.stat.samples|
  {
    if ops == [] then Ring(FRESH_STAT, start)
    else Next(After(start, ops[..|ops| - 1], isProcess), ops[|ops| - 1], isProcess)
  }

  lemma AfterOneMore(start: nat, ops: seq<Op>, op: Op, isProcess: bool)
    requires start < SAMPLE_SPACE_SIZE
    ensures After(start, ops + [op], isProcess) == Next(After(start, ops, isProcess), op, isProcess)
  {
    hide Next;
    assert (ops + [op])[..|ops|] == ops;
  }

  predicate IsTick(op: Op) {
    op.ListedTick? || op.MissedTick?
  }

  // The traffic of one kind in a stretch of the history.
  function Traffic(ops: seq<Op>, count: Op -> nat): nat {
    if ops == [] then 0 else Traffic(ops[..|ops| - 1], count) + count(ops[|ops| - 1])
  }

  function BytesIn(op: Op): nat { if op.Received? then op.length else 0 }
  function BytesOut(op: Op): nat { if op.Sent? then op.length else 0 }
  function PacketsIn(op: Op): nat { if op.Received? then 1 else 0 }
  function PacketsOut(op: Op): nat { if op.Sent? then 1 else 0 }

  // Where the period of the last tick begins.
  function PeriodStart(ops: seq<Op>): (k: nat)
    ensures k <= |ops|
    ensures k > 0 ==> IsTick(ops[k - 1])
    ensures forall i | k <= i < |ops| :: !IsTick(ops[i])
  {
    if ops == [] then 0
    else if IsTick(ops[|ops| - 1]) then |ops|
    else PeriodStart(ops[..|ops| - 1])
  }

  // The traffic of the current period (d = 0) or of the d-th one before it; 0 before the start.
  function InPeriod(ops: seq<Op>, d: nat, count: Op -> nat): nat
    decreases d
  {
    var k := PeriodStart(ops);
    if d == 0 then Traffic(ops[k..], count)
    else if k == 0 then 0
    else InPeriod(ops[..k - 1], d - 1, count)
  }

  // The tick that began the current period (d = 0) or the d-th one before it.
  function Opened(ops: seq<Op>, d: nat): (r: Option<Op>)
    ensures r.Some? ==> d < Ticks(ops)
    decreases d
  {
    TicksBefore(ops);
    var k := PeriodStart(ops);
    if k == 0 then None
    else if d == 0 then Some(ops[k - 1])
    else Opened(ops[..k - 1], d - 1)
  }

  function Ticks(ops: seq<Op>): nat {
    if ops == [] then 0 else Ticks(ops[..|ops| - 1]) + if IsTick(ops[|ops| - 1]) then 1 else 0
  }

  lemma {:induction false} TicksBefore(ops: seq<Op>)
    ensures Ticks(ops) == if PeriodStart(ops) == 0 then 0 else 1 + Ticks(ops[..PeriodStart(ops) - 1])
  {
    if ops != [] && !IsTick(ops[|ops| - 1]) {
      var before, k := ops[..|ops| - 1], PeriodStart(ops);
      TicksBefore(before);
      assert k > 0 ==> ops[..k - 1] == before[..k - 1];
    }
  }

  // What is left in the sample of a period from before it began: if the tick that began it missed the
  // struct, the traffic of five periods earlier, and whatever was left in the sample then.
  function Carry(ops: seq<Op>, d: nat, count: Op -> nat): nat
    decreases Ticks(ops) - d
  {
    if Opened(ops, d) == Some(MissedTick) then InPeriod(ops, d + 5, count) + Carry(ops, d + 5, count) else 0
  }

  // The traffic of the current and the four previous periods.
  function InWindow(ops: seq<Op>, count: Op -> nat): nat {
    InPeriod(ops, 0, count) + InPeriod(ops, 1, count) + InPeriod(ops, 2, count) + InPeriod(ops, 3, count)
    + InPeriod(ops, 4, count)
  }

  // What the ring has besides that.
  function Stale(ops: seq<Op>, count: Op -> nat): nat {
    Carry(ops, 0, count) + Carry(ops, 1, count) + Carry(ops, 2, count) + Carry(ops, 3, count) + Carry(ops, 4, count)
  }

  // The index d ticks before idx.
  function Back(idx: nat, d: nat): (i: nat)
    requires idx < SAMPLE_SPACE_SIZE && d < SAMPLE_SPACE_SIZE
    ensures i < SAMPLE_SPACE_SIZE
  {
    (idx + SAMPLE_SPACE_SIZE - d) % SAMPLE_SPACE_SIZE
  }

  // The sample d ticks before the current one.
  function SampleBack(r: Ring, d: nat): Sample
    requires r.idx < SAMPLE_SPACE_SIZE == |r.stat.samples| && d < SAMPLE_SPACE_SIZE
  {
    r.stat.samples[Back(r.idx, d)]
  }

  // What a period's sample holds of one kind: the period's own traffic, and what was left there before.
  function Held(ops: seq<Op>, d: nat, count: Op -> nat): nat {
    InPeriod(ops, d, count) + Carry(ops, d, count)
  }

  function HeldSample(ops: seq<Op>, d: nat): Sample {
    Sample(Held(ops, d, PacketsIn), Held(ops, d, PacketsOut), Held(ops, d, BytesIn), Held(ops, d, BytesOut))
  }

  lemma PeriodStartStep(ops: seq<Op>, op: Op)
    ensures PeriodStart(ops + [op]) == if IsTick(op) then |ops| + 1 else PeriodStart(ops)
  {
    assert (ops + [op])[..|ops|] == ops;
  }

  lemma TrafficStep(ops: seq<Op>, op: Op, count: Op -> nat)
    ensures Traffic(ops + [op], count) == Traffic(ops, count) + count(op)
  {
    assert (ops + [op])[..|ops|] == ops;
  }

  // How one more operation changes the traffic of a period.
  lemma {:induction false} PeriodStep(ops: seq<Op>, op: Op, d: nat, count: Op -> nat)
    requires IsTick(op) ==> count(op) == 0
    ensures InPeriod(ops + [op], d, count)
         == if IsTick(op) then (if d == 0 then 0 else InPeriod(ops, d - 1, count))
            else InPeriod(ops, d, count) + if d == 0 then count(op) else 0
  {
    var longer, k := ops + [op], PeriodStart(ops);
    PeriodStartStep(ops, op);
    hide PeriodStart;
    if IsTick(op) {
      assert longer[|longer|..] == [] && longer[..|ops|] == ops;
    } else if d == 0 {
      TrafficStep(ops[k..], op, count);
      hide Traffic;
      assert longer[k..] == ops[k..] + [op];
    } else {
      hide Traffic;
      assert k > 0 ==> longer[..k - 1] == ops[..k - 1];
    }
  }

  lemma OpenedStep(ops: seq<Op>, op: Op, d: nat)
    ensures Opened(ops + [op], d) ==
            if !IsTick(op) then Opened(ops, d) else if d == 0 then Some(op) else Opened(ops, d - 1)
    ensures Ticks(ops + [op]) == Ticks(ops) + if IsTick(op) then 1 else 0
  {
    var longer, k := ops + [op], PeriodStart(ops);
    assert longer[..|ops|] == ops;
    PeriodStartStep(ops, op);
    hide PeriodStart;
    assert !IsTick(op) && k > 0 ==> longer[..k - 1] == ops[..k - 1];
  }

  // How one more operation changes what is left in a sample from before its period.
  lemma {:induction false} CarryStep(ops: seq<Op>, op: Op, d: nat, count: Op -> nat)
    requires IsTick(op) ==> count(op) == 0
    ensures Carry(ops + [op], d, count)
         == if !IsTick(op) then Carry(ops, d, count)
            else if d > 0 then Carry(ops, d - 1, count)
            else if op.MissedTick? then Held(ops, 4, count) else 0
    decreases Ticks(ops) + 1 - d
  {
    OpenedStep(ops, op, d);
    PeriodStep(ops, op, d + 5, count);
    hide InPeriod, Opened, Ticks;
    if Opened(ops + [op], d) == Some(MissedTick) {
      CarryStep(ops, op, d + 5, count);
    }
  }

  // How one more operation changes what a sample holds.
  lemma HeldStep(ops: seq<Op>, op: Op, d: nat, count: Op -> nat)
    requires IsTick(op) ==> count(op) == 0
    ensures Held(ops + [op], d, count)
         == if !IsTick(op) then Held(ops, d, count) + (if d == 0 then count(op) else 0)
            else if d > 0 then Held(ops, d - 1, count)
            else if op.MissedTick? then Held(ops, 4, count) else 0
  {
    PeriodStep(ops, op, d, count);
    CarryStep(ops, op, d, count);
    hide InPeriod, Carry;
  }

  // What one operation makes of a sample, given the samples before it.
  function SampleAfter(op: Op, d: nat, same: Sample, earlier: Sample, fifth: Sample): Sample {
    if IsTick(op) then (if d > 0 then earlier else if op.MissedTick? then fifth else NO_SAMPLE)
    else if d > 0 then same
    else Sample(same.ppsRx + PacketsIn(op), same.ppsTx + PacketsOut(op),
                same.bpsRx + BytesIn(op), same.bpsTx + BytesOut(op))
  }

  lemma HeldSampleStep(ops: seq<Op>, op: Op, d: nat)
    ensures HeldSample(ops + [op], d)
         == SampleAfter(op, d, HeldSample(ops, d), if d > 0 then HeldSample(ops, d - 1) else NO_SAMPLE,
                        HeldSample(ops, 4))
  {
    hide Held;
    HeldStep(ops, op, d, PacketsIn);
    HeldStep(ops, op, d, PacketsOut);
    HeldStep(ops, op, d, BytesIn);
    HeldStep(ops, op, d, BytesOut);
  }

  lemma BackIndex(idx: nat, d: nat)
    requires idx < SAMPLE_SPACE_SIZE && d < SAMPLE_SPACE_SIZE
    ensures Back(idx, d) == idx <==> d == 0
    ensures Back(NextIndex(idx), d) == if d > 0 then Back(idx, d - 1) else NextIndex(idx)
    ensures Back(idx, 4) == NextIndex(idx)
  {
    if d > 0 {
      if idx == SAMPLE_SPACE_SIZE - 1 {
      } else if idx >= d {
      } else {
      }
    }
  }

  // How one operation changes the samples, counted backwards from the current one.
  lemma RingStep(r: Ring, op: Op, d: nat, isProcess: bool)
    requires r.idx < SAMPLE_SPACE_SIZE == |r.stat.samples| && d < SAMPLE_SPACE_SIZE
    ensures SampleBack(Next(r, op, isProcess), d)
         == SampleAfter(op, d, SampleBack(r, d), if d > 0 then SampleBack(r, d - 1) else NO_SAMPLE, SampleBack(r, 4))
  {
    BackIndex(r.idx, d);
    hide Back, NextIndex;
  }

  // After any history, each sample is the traffic of its period and what the missed ticks have left in it.
  lemma {:induction false} SamplesAreHeld(start: nat, ops: seq<Op>, d: nat, isProcess: bool)
    requires start < SAMPLE_SPACE_SIZE && d < SAMPLE_SPACE_SIZE
    ensures SampleBack(After(start, ops, isProcess), d) == HeldSample(ops, d)
    decreases |ops|
  {
    hide Next, HeldSample, SampleBack, After, SampleAfter, Back, NextIndex;
    if ops == [] {
      HeldAtStart(start, d, isProcess);
    } else {
      var before, op := ops[..|ops| - 1], ops[|ops| - 1];
      assert ops == before + [op];
      AfterOneMore(start, before, op, isProcess);
      RingStep(After(start, before, isProcess), op, d, isProcess);
      HeldSampleStep(before, op, d);
      if d > 0 {
        SamplesAreHeld(start, before, d - 1, isProcess);
      }
      SamplesAreHeld(start, before, d, isProcess);
      SamplesAreHeld(start, before, 4, isProcess);
    }
  }

  lemma HeldAtStart(start: nat, d: nat, isProcess: bool)
    requires start < SAMPLE_SPACE_SIZE && d < SAMPLE_SPACE_SIZE
    ensures SampleBack(After(start, [], isProcess), d) == HeldSample([], d)
  {
    assert FRESH_STAT.samples[Back(start, d)] == NO_SAMPLE;
  }

  // The ring adds up to the same as the samples from the current one backwards.
  lemma SumBackwards(r: Ring, field: Sample -> nat)
    requires r.idx < SAMPLE_SPACE_SIZE == |r.stat.samples|
    ensures Sum(r.stat.samples, field)
         == field(SampleBack(r, 0)) + field(SampleBack(r, 1)) + field(SampleBack(r, 2)) + field(SampleBack(r, 3))
            + field(SampleBack(r, 4))
  {
    SumOfFive(r.stat.samples, field);
    hide Sum;
    if r.idx == 0 {
    } else if r.idx == 1 {
    } else if r.idx == 2 {
    } else if r.idx == 3 {
    }
  }

  // After any history, the window of each kind is its traffic in the current and the four previous periods, and
  // what is stale.
  lemma WindowAndStale(start: nat, ops: seq<Op>, isProcess: bool)
    requires start < SAMPLE_SPACE_SIZE
    ensures Sum(After(start, ops, isProcess).stat.samples, BpsRx) == InWindow(ops, BytesIn) + Stale(ops, BytesIn)
    ensures Sum(After(start, ops, isProcess).stat.samples, BpsTx) == InWindow(ops, BytesOut) + Stale(ops, BytesOut)
    ensures Sum(After(start, ops, isProcess).stat.samples, PpsRx) == InWindow(ops, PacketsIn) + Stale(ops, PacketsIn)
    ensures Sum(After(start, ops, isProcess).stat.samples, PpsTx) == InWindow(ops, PacketsOut) + Stale(ops, PacketsOut)
  {
    hide Sum, InPeriod, Carry, After;
    var r := After(start, ops, isProcess);
    forall d: nat | d < SAMPLE_SPACE_SIZE
      ensures SampleBack(r, d) == HeldSample(ops, d)
    {
      SamplesAreHeld(start, ops, d, isProcess);
    }
    hide SampleBack;
    SumBackwards(r, BpsRx);
    SumBackwards(r, BpsTx);
    SumBackwards(r, PpsRx);
    SumBackwards(r, PpsTx);
  }

  // The traffic of five, ten, ... periods before period d, as far back as the ticks were missed, was none.
  ghost predicate NothingLeft(ops: seq<Op>, d: nat, count: Op -> nat)
    decreases Ticks(ops) - d
  {
    Opened(ops, d) == Some(MissedTick) ==> InPeriod(ops, d + 5, count) == 0 && NothingLeft(ops, d + 5, count)
  }

  lemma {:induction false} NoCarryIff(ops: seq<Op>, d: nat, count: Op -> nat)
    ensures Carry(ops, d, count) == 0 <==> NothingLeft(ops, d, count)
    decreases Ticks(ops) - d
  {
    hide InPeriod;
    if Opened(ops, d) == Some(MissedTick) {
      NoCarryIff(ops, d + 5, count);
    }
  }

  ghost predicate NothingStale(ops: seq<Op>, count: Op -> nat) {
    forall d: nat | d < SAMPLE_SPACE_SIZE :: NothingLeft(ops, d, count)
  }

  lemma NothingStaleIff(ops: seq<Op>, count: Op -> nat)
    ensures Stale(ops, count) == 0 <==> NothingStale(ops, count)
  {
    forall d: nat | d < SAMPLE_SPACE_SIZE
      ensures Carry(ops, d, count) == 0 <==> NothingLeft(ops, d, count)
    {
      NoCarryIff(ops, d, count);
    }
    hide Carry, NothingLeft;
    if Stale(ops, count) == 0 {
      assert NothingStale(ops, count);
    }
  }

  // After any history of a process or a connection, the window of each kind is exact if and only if no period in it
  // began with a missed tick that left traffic of an earlier period in its sample.
  lemma WindowIsExactIff(start: nat, ops: seq<Op>, isProcess: bool)
    requires start < SAMPLE_SPACE_SIZE
    ensures Sum(After(start, ops, isProcess).stat.samples, BpsRx) == InWindow(ops, BytesIn) <==>
        NothingStale(ops, BytesIn)
    ensures Sum(After(start, ops, isProcess).stat.samples, BpsTx) == InWindow(ops, BytesOut) <==>
        NothingStale(ops, BytesOut)
    ensures Sum(After(start, ops, isProcess).stat.samples, PpsRx) == InWindow(ops, PacketsIn) <==>
        NothingStale(ops, PacketsIn)
    ensures Sum(After(start, ops, isProcess).stat.samples, PpsTx) == InWindow(ops, PacketsOut) <==>
        NothingStale(ops, PacketsOut)
  {
    WindowAndStale(start, ops, isProcess);
    NothingStaleIff(ops, BytesIn);
    NothingStaleIff(ops, BytesOut);
    NothingStaleIff(ops, PacketsIn);
    NothingStaleIff(ops, PacketsOut);
    hide Sum, InWindow, Stale, NothingStale, After;
  }

  ghost predicate LastFiveListed(ops: seq<Op>) {
    forall d: nat | d < SAMPLE_SPACE_SIZE :: Opened(ops, d) != Some(MissedTick)
  }

  // Once the last five ticks have all listed the struct, the window is exact, whatever was missed before.
  lemma FiveListedTicksRepair(start: nat, ops: seq<Op>, isProcess: bool)
    requires start < SAMPLE_SPACE_SIZE && LastFiveListed(ops)
    ensures WindowExact(After(start, ops, isProcess).stat, ops)
  {
    WindowAndStale(start, ops, isProcess);
    hide Sum, InWindow, After, Opened;
    assert Stale(ops, BytesIn) == Stale(ops, BytesOut) == Stale(ops, PacketsIn) == Stale(ops, PacketsOut) == 0;
  }

  ghost predicate WindowExact(s: Stat, ops: seq<Op>) {
    && Sum(s.samples, BpsRx) == InWindow(ops, BytesIn) && Sum(s.samples, BpsTx) == InWindow(ops, BytesOut)
    && Sum(s.samples, PpsRx) == InWindow(ops, PacketsIn) && Sum(s.samples, PpsTx) == InWindow(ops, PacketsOut)
  }

  ghost predicate AlwaysListed(ops: seq<Op>) {
    forall i | 0 <= i < |ops| :: !ops[i].MissedTick?
  }

  lemma {:induction false} OpenedListed(ops: seq<Op>, d: nat)
    requires AlwaysListed(ops)
    ensures Opened(ops, d) != Some(MissedTick)
    decreases d
  {
    var k := PeriodStart(ops);
    if k > 0 && d > 0 {
      OpenedListed(ops[..k - 1], d - 1);
    }
  }

  // For a struct listed at every tick the samples add up to exactly the traffic of the current and the four previous
  // periods.
  lemma WindowIsExact(start: nat, ops: seq<Op>, isProcess: bool)
    requires start < SAMPLE_SPACE_SIZE && AlwaysListed(ops)
    ensures WindowExact(After(start, ops, isProcess).stat, ops)
  {
    forall d: nat | d < SAMPLE_SPACE_SIZE
      ensures Opened(ops, d) != Some(MissedTick)
    {
      OpenedListed(ops, d);
    }
    hide WindowExact, Opened;
    FiveListedTicksRepair(start, ops, isProcess);
  }

  // Traffic, and then n ticks that list the struct.
  function ThenTicks(length: nat, n: nat): seq<Op> {
    if n == 0 then [Received(length)] else ThenTicks(length, n - 1) + [ListedTick]
  }

  lemma {:induction false} TicksAgo(length: nat, n: nat, d: nat)
    ensures InPeriod(ThenTicks(length, n), d, BytesIn) == (if d == n then length else 0)
    decreases n
  {
    if n == 0 {
      NoHistory(d, BytesIn);
      hide InPeriod;
      assert [] + [Received(length)] == [Received(length)];
      PeriodStep([], Received(length), d, BytesIn);
    } else {
      hide InPeriod;
      PeriodStep(ThenTicks(length, n - 1), ListedTick, d, BytesIn);
      if d > 0 {
        TicksAgo(length, n - 1, d - 1);
      }
    }
  }

  lemma NoHistory(d: nat, count: Op -> nat)
    ensures InPeriod([], d, count) == 0
  {
  }

  lemma {:induction false} TicksList(length: nat, n: nat)
    ensures AlwaysListed(ThenTicks(length, n))
  {
    if n > 0 {
      TicksList(length, n - 1);
    }
  }

  lemma ByteLeaves(length: nat, d: nat)
    requires d < SAMPLE_SPACE_SIZE
    ensures InPeriod(ThenTicks(length, 4) + [MissedTick], d, BytesIn) == 0
    ensures InPeriod(ThenTicks(length, 4), d, BytesIn) == (if d == 4 then length else 0)
  {
    hide InPeriod, ThenTicks;
    TicksAgo(length, 4, d);
    PeriodStep(ThenTicks(length, 4), MissedTick, d, BytesIn);
    if d > 0 {
      TicksAgo(length, 4, d - 1);
    }
  }

  // A struct receives some bytes, is listed at four ticks and missed by the fifth: its window still shows the bytes,
  // although they are in none of the five periods any more.
  lemma MissedTickShowsOldTraffic(start: nat, length: nat, isProcess: bool)
    requires start < SAMPLE_SPACE_SIZE
    ensures Sum(After(start, ThenTicks(length, 4) + [MissedTick], isProcess).stat.samples, BpsRx) == length
    ensures InWindow(ThenTicks(length, 4) + [MissedTick], BytesIn) == 0
  {
    hide InPeriod, Sum, ThenTicks;
    var ops := ThenTicks(length, 4);
    TicksList(length, 4);
    WindowIsExact(start, ops, isProcess);
    MissedTickKeeps(start, ops, isProcess);
    hide After, AlwaysListed;
    ByteLeaves(length, 0);
    ByteLeaves(length, 1);
    ByteLeaves(length, 2);
    ByteLeaves(length, 3);
    ByteLeaves(length, 4);
  }

  lemma MissedTickKeeps(start: nat, ops: seq<Op>, isProcess: bool)
    requires start < SAMPLE_SPACE_SIZE
    ensures After(start, ops + [MissedTick], isProcess).stat == After(start, ops, isProcess).stat
  {
    assert (ops + [MissedTick])[..|ops|] == ops;
  }

  // Where the period of the last tick that listed the struct begins.
  function SinceListed(ops: seq<Op>): seq<Op> {
    if ops == [] || ops[|ops| - 1].ListedTick? then [] else SinceListed(ops[..|ops| - 1]) + [ops[|ops| - 1]]
  }

  // After any history the totals are all the traffic there has been; the last-second counters of a process are the
  // traffic since it was last listed, those of a connection are never restarted.
  lemma {:induction false} CountersAreExact(start: nat, ops: seq<Op>, isProcess: bool)
    requires start < SAMPLE_SPACE_SIZE
    ensures After(start, ops, isProcess).stat.totBpsRx == Traffic(ops, BytesIn)
    ensures After(start, ops, isProcess).stat.totBpsTx == Traffic(ops, BytesOut)
    ensures After(start, ops, isProcess).stat.lastRx == Traffic(if isProcess then SinceListed(ops) else ops, BytesIn)
    ensures After(start, ops, isProcess).stat.lastTx == Traffic(if isProcess then SinceListed(ops) else ops, BytesOut)
    decreases |ops|
  {
    if ops != [] {
      var before, op := ops[..|ops| - 1], ops[|ops| - 1];
      assert ops == before + [op];
      CountersAreExact(start, before, isProcess);
      if !op.ListedTick? {
        assert SinceListed(ops)[..|SinceListed(ops)| - 1] == SinceListed(before);
      }
    }
  }

  // For a process listed at every tick that is the current period, and so the current sample.
  lemma {:induction false} SinceListedIsPeriod(ops: seq<Op>)
    requires AlwaysListed(ops)
    ensures SinceListed(ops) == ops[PeriodStart(ops)..]
  {
    if ops != [] && !IsTick(ops[|ops| - 1]) {
      SinceListedIsPeriod(ops[..|ops| - 1]);
    }
  }

  lemma LastSecondIsCurrentSample(start: nat, ops: seq<Op>)
    requires start < SAMPLE_SPACE_SIZE && AlwaysListed(ops)
    ensures After(start, ops, true).stat.lastRx ==
        InPeriod(ops, 0, BytesIn) == SampleBack(After(start, ops, true), 0).bpsRx
    ensures After(start, ops, true).stat.lastTx ==
        InPeriod(ops, 0, BytesOut) == SampleBack(After(start, ops, true), 0).bpsTx
  {
    CountersAreExact(start, ops, true);
    SinceListedIsPeriod(ops);
    SamplesAreHeld(start, ops, 0, true);
    OpenedListed(ops, 0);
    hide SampleBack, After, Opened, SinceListed;
  }

  // What the averages show after any history: the nearest integer to a fifth of the window and what is stale in it,
  // in bits unless bytes are asked for.
  lemma AveragesAreNearest(start: nat, ops: seq<Op>, isProcess: bool, viewBytes: bool)
    requires start < SAMPLE_SPACE_SIZE
    ensures var s, bits := Averaged(After(start, ops, isProcess).stat, viewBytes), if viewBytes then 1 else 8;
            && -2 <= 5 * s.avgBpsRx - bits * (InWindow(ops, BytesIn) + Stale(ops, BytesIn)) <= 2
            && -2 <= 5 * s.avgBpsTx - bits * (InWindow(ops, BytesOut) + Stale(ops, BytesOut)) <= 2
            && -2 <= 5 * s.avgPpsRx - (InWindow(ops, PacketsIn) + Stale(ops, PacketsIn)) <= 2
            && -2 <= 5 * s.avgPpsTx - (InWindow(ops, PacketsOut) + Stale(ops, PacketsOut)) <= 2
    ensures AlwaysListed(ops) ==>
              Stale(ops, BytesIn) == Stale(ops, BytesOut) == Stale(ops, PacketsIn) == Stale(ops, PacketsOut) == 0
  {
    hide Average, InWindow, Sum, After, Stale;
    WindowAndStale(start, ops, isProcess);
    var bits := if viewBytes then 1 else 8;
    AverageIsNearest(bits * (InWindow(ops, BytesIn) + Stale(ops, BytesIn)));
    AverageIsNearest(bits * (InWindow(ops, BytesOut) + Stale(ops, BytesOut)));
    AverageIsNearest(InWindow(ops, PacketsIn) + Stale(ops, PacketsIn));
    AverageIsNearest(InWindow(ops, PacketsOut) + Stale(ops, PacketsOut));
    if AlwaysListed(ops) {
      WindowIsExact(start, ops, isProcess);
    }
  }
}
