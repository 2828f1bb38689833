/** What the fragment tracker guarantees over any run of packets. */
module FragmentTheorems {
  import opened Wrappers
  import opened Fragments

  // A packet, with the clock when it is stored and when the table is swept after it.
  datatype Event = Event(frame: Frame, now: int, sweep: int)

  ghost predicate ClockNeverZero(es: seq<Event>) {
    forall k | 0 <= k < |es| :: es[k].now != 0
  }

  ghost predicate AllFree(slots: seq<Slot>) {
    |slots| == MAX_REASSEMBLIES && forall i | 0 <= i < |slots| :: slots[i].ttl == 0
  }

  // The slots before event k.
  function SlotsAt(start: seq<Slot>, es: seq<Event>, k: nat): (r: seq<Slot>)
    requires k <= |es|
    ensures |r| == |start|
  {
    if k == 0 then start
    else Parse(SlotsAt(start, es, k - 1), es[k - 1].frame, es[k - 1].now, es[k - 1].sweep).0
  }

  // What parse_packet returns for event k.
  function Out(start: seq<Slot>, es: seq<Event>, k: nat): Option<Packet>
    requires k < |es|
  {
    Parse(SlotsAt(start, es, k), es[k].frame, es[k].now, es[k].sweep).1
  }

  function SlotOf(e: Event): Slot {
    Slot(e.now, e.frame.saddr, e.frame.daddr, e.frame.id, e.frame.source, e.frame.dest)
  }

  // Event m stored its ports in slot i, and until event k the slot was neither closed nor swept.
  ghost predicate StoredBy(start: seq<Slot>, es: seq<Event>, k: nat, i: nat, m: nat)
    requires k <= |es| && i < |start|
  {
    m < k && FirstFragment(es[m].frame) && forall j | m < j <= k :: SlotsAt(start, es, j)[i] == SlotOf(es[m])
  }

  // What one packet does to one slot.
  lemma SlotStep(slots: seq<Slot>, f: Frame, now: int, sweep: int, i: nat)
    requires i < |slots|
    ensures var s := Parse(slots, f, now, sweep).0[i];
            || s.ttl == 0
            || s == slots[i]
            || (FirstFragment(f) && s == Slot(now, f.saddr, f.daddr, f.id, f.source, f.dest))
  {
  }

  // Every open slot was stored by a first fragment.
  lemma {:induction false} Origin(start: seq<Slot>, es: seq<Event>, k: nat, i: nat) returns (m: nat)
    requires AllFree(start) && ClockNeverZero(es) && k <= |es| && i < |start|
    requires SlotsAt(start, es, k)[i].ttl != 0
    ensures StoredBy(start, es, k, i, m)
  {
    var e := es[k - 1];
    SlotStep(SlotsAt(start, es, k - 1), e.frame, e.now, e.sweep, i);
    if SlotsAt(start, es, k)[i] == SlotsAt(start, es, k - 1)[i] {
      m := Origin(start, es, k - 1, i);
    } else {
      m := k - 1;
    }
  }

  // An accepted later fragment gets the ports of an earlier first fragment of the same datagram, whose
  // slot was neither closed nor swept in between.
  lemma LaterFragmentPorts(start: seq<Slot>, es: seq<Event>, n: nat) returns (i: nat, m: nat)
    requires AllFree(start) && ClockNeverZero(es) && n < |es| && LaterFragment(es[n].frame)
    requires Out(start, es, n).Some?
    ensures i < |start| && StoredBy(start, es, n, i, m)
    ensures FrameKey(es[m].frame) == FrameKey(es[n].frame)
    ensures Out(start, es, n) == Tuple(es[n].frame, es[m].frame.source, es[m].frame.dest)
    ensures Describes(Out(start, es, n).value, es[n].frame, es[m].frame.source, es[m].frame.dest)
  {
    var slots := SlotsAt(start, es, n);
    i := FirstMatch(slots, FrameKey(es[n].frame), 0);
    m := Origin(start, es, n, i);
    assert SlotsAt(start, es, n)[i] == SlotOf(es[m]);
    hide Tuple, Describes;
    TupleFields(es[n].frame, es[m].frame.source, es[m].frame.dest);
  }

  // ---- In-order datagrams ----------------------------------------------------------------------------

  ghost predicate IsOpen(slots: seq<Slot>, k: Key) {
    exists i | 0 <= i < |slots| :: Matches(slots[i], k)
  }

  // A later fragment finds a slot exactly if its datagram is open.
  lemma AcceptedIffOpen(slots: seq<Slot>, f: Frame, now: int)
    requires LaterFragment(f)
    ensures GetFragment(slots, f, now).1.InSlot? <==> IsOpen(slots, FrameKey(f))
  {
  }

  // Only slot i is open for the key.
  ghost predicate OnlyOpenAt(slots: seq<Slot>, k: Key, i: nat) {
    i < |slots| && Matches(slots[i], k) && forall j | 0 <= j < |slots| && j != i :: !Matches(slots[j], k)
  }

  // No other first fragment of the key, and no last one.
  ghost predicate InTheMiddle(f: Frame, k: Key) {
    FrameKey(f) == k ==> !FirstFragment(f) && (LaterFragment(f) ==> MoreFragments(f.fragOff))
  }

  lemma StaysOpen(slots: seq<Slot>, f: Frame, now: int, sweep: int, k: Key, i: nat)
    requires OnlyOpenAt(slots, k, i) && InTheMiddle(f, k) && !Expired(slots[i], sweep)
    ensures OnlyOpenAt(Parse(slots, f, now, sweep).0, k, i) && Parse(slots, f, now, sweep).0[i] == slots[i]
  {
  }

  // The first fragment of event m opens a datagram of its own, in a table with a free slot, and none of
  // its slot's sweeps before event n comes three seconds or more after it.
  ghost predicate Undisturbed(start: seq<Slot>, es: seq<Event>, m: nat, n: nat)
    requires m < n < |es|
  {
    var slots, key := SlotsAt(start, es, m), FrameKey(es[m].frame);
    && FirstFragment(es[m].frame) && !IsOpen(slots, key) && FirstFree(slots, 0) < |slots|
    && (forall k | m < k < n :: InTheMiddle(es[k].frame, key))
    && (forall k | m <= k < n :: es[k].sweep - es[m].now < LIFETIME_FRAG)
  }

  lemma OpenedBy(start: seq<Slot>, es: seq<Event>, m: nat, n: nat)
    requires ClockNeverZero(es) && m < n < |es| && Undisturbed(start, es, m, n)
    ensures var i := FirstFree(SlotsAt(start, es, m), 0);
            && OnlyOpenAt(SlotsAt(start, es, m + 1), FrameKey(es[m].frame), i)
            && SlotsAt(start, es, m + 1)[i] == SlotOf(es[m])
    ensures Out(start, es, m) == Tuple(es[m].frame, es[m].frame.source, es[m].frame.dest)
  {
    assert es[m].sweep - es[m].now < LIFETIME_FRAG;
  }

  lemma {:induction false} StillOpen(start: seq<Slot>, es: seq<Event>, m: nat, n: nat, k: nat)
    requires ClockNeverZero(es) && m < k <= n < |es| && Undisturbed(start, es, m, n)
    ensures var i := FirstFree(SlotsAt(start, es, m), 0);
            OnlyOpenAt(SlotsAt(start, es, k), FrameKey(es[m].frame), i) && SlotsAt(start, es, k)[i] == SlotOf(es[m])
  {
    var i := FirstFree(SlotsAt(start, es, m), 0);
    if k == m + 1 {
      OpenedBy(start, es, m, n);
    } else {
      StillOpen(start, es, m, n, k - 1);
      hide Parse;
      StaysOpen(SlotsAt(start, es, k - 1), es[k - 1].frame, es[k - 1].now, es[k - 1].sweep, FrameKey(es[m].frame), i);
    }
  }

  // Every later fragment of such a datagram, the last one included, is given the first one's ports.
  lemma DatagramGetsItsPorts(start: seq<Slot>, es: seq<Event>, m: nat, n: nat)
    requires ClockNeverZero(es) && m < n < |es| && Undisturbed(start, es, m, n)
    requires LaterFragment(es[n].frame) && FrameKey(es[n].frame) == FrameKey(es[m].frame)
    ensures Out(start, es, m) == Tuple(es[m].frame, es[m].frame.source, es[m].frame.dest)
    ensures Out(start, es, n) == Tuple(es[n].frame, es[m].frame.source, es[m].frame.dest)
    ensures !es[n].frame.direction.OtherType? ==>
              && Out(start, es, n).Some?
              && Describes(Out(start, es, n).value, es[n].frame, es[m].frame.source, es[m].frame.dest)
  {
    TupleFields(es[n].frame, es[m].frame.source, es[m].frame.dest);
    hide Tuple, Describes;
    OpenedBy(start, es, m, n);
    StillOpen(start, es, m, n, n);
    assert FirstMatch(SlotsAt(start, es, n), FrameKey(es[n].frame), 0) == FirstFree(SlotsAt(start, es, m), 0);
  }

  // ---- The table as a map ------------------------------------------------------------------------------

  ghost predicate UniqueKeys(slots: seq<Slot>) {
    forall i, j | 0 <= i < j < |slots| && slots[i].ttl != 0 && slots[j].ttl != 0 :: KeyOf(slots[i]) != KeyOf(slots[j])
  }

  // The open slots by key; of two slots with one key the first counts, as in a search.
  function Abs(slots: seq<Slot>): map<Key, Slot> {
    if slots == [] then map[]
    else if slots[0].ttl != 0 then Abs(slots[1..])[KeyOf(slots[0]) := slots[0]]
    else Abs(slots[1..])
  }

  lemma {:induction false} AbsLookup(slots: seq<Slot>, k: Key)
    ensures k in Abs(slots) <==> FirstMatch(slots, k, 0) < |slots|
    ensures k in Abs(slots) ==> Abs(slots)[k] == slots[FirstMatch(slots, k, 0)]
  {
    if slots != [] {
      AbsLookup(slots[1..], k);
      FirstMatchTail(slots, k, 1);
    }
  }

  lemma {:induction false} FirstMatchTail(slots: seq<Slot>, k: Key, i: nat)
    requires 1 <= i <= |slots|
    ensures FirstMatch(slots, k, i) == FirstMatch(slots[1..], k, i - 1) + 1
    decreases |slots| - i
  {
    if i < |slots| {
      assert slots[1..][i - 1] == slots[i];
      if !Matches(slots[i], k) {
        FirstMatchTail(slots, k, i + 1);
      }
    }
  }

  lemma {:induction false} AbsSize(slots: seq<Slot>)
    requires UniqueKeys(slots)
    ensures |Abs(slots)| == OpenCount(slots)
  {
    if slots != [] {
      var rest := slots[1..];
      assert forall i | 0 <= i < |rest| :: rest[i] == slots[i + 1];
      AbsSize(rest);
      AbsLookup(rest, KeyOf(slots[0]));
    }
  }

  // What the tracker is meant to be: a map from (id, source, destination) with room for 32 datagrams.
  function MapGetFragment(m: map<Key, Slot>, f: Frame, now: int): (map<Key, Slot>, Option<Slot>) {
    var k := FrameKey(f);
    if FirstFragment(f) then
      if |m| == MAX_REASSEMBLIES then (m, None)
      else
        var s := Slot(now, f.saddr, f.daddr, f.id, f.source, f.dest);
        (m[k := s], Some(s))
    else if LaterFragment(f) && k in m then
      (if MoreFragments(f.fragOff) then m else m - {k}, Some(m[k]))
    else (m, None)
  }

  // A first fragment of a datagram that is open already, with a slot left to store it twice.
  ghost predicate Duplicates(slots: seq<Slot>, f: Frame) {
    FirstFragment(f) && IsOpen(slots, FrameKey(f)) && FirstFree(slots, 0) < |slots|
  }

  // Keys stay unique exactly as long as no datagram is opened twice.
  lemma UniqueKeysKeptIff(slots: seq<Slot>, f: Frame, now: int, sweep: int)
    requires UniqueKeys(slots) && now != 0
    ensures UniqueKeys(GetFragment(slots, f, now).0) <==> !Duplicates(slots, f)
    ensures !Duplicates(slots, f) ==> UniqueKeys(Parse(slots, f, now, sweep).0)
  {
    var after := GetFragment(slots, f, now).0;
    var free := FirstFree(slots, 0);
    if Duplicates(slots, f) {
      var i :| 0 <= i < |slots| && Matches(slots[i], FrameKey(f));
      assert after[i] == slots[i] && after[free].ttl != 0 && KeyOf(after[i]) == KeyOf(after[free]);
    } else {
      forall i, j | 0 <= i < j < |after| && after[i].ttl != 0 && after[j].ttl != 0
        ensures KeyOf(after[i]) != KeyOf(after[j])
      {
        assert FirstFragment(f) && free < |slots| ==>
            !Matches(slots[i], FrameKey(f)) && !Matches(slots[j], FrameKey(f));
      }
    }
  }

  // A first fragment answers with the slot it has filled, a later one with the slot it has found.
  function AnswerSlot(slots: seq<Slot>, f: Frame, now: int): seq<Slot> {
    if FirstFragment(f) then GetFragment(slots, f, now).0 else slots
  }

  // Then the table does what the map does.
  lemma RefinesMap(slots: seq<Slot>, f: Frame, now: int)
    requires |slots| == MAX_REASSEMBLIES && UniqueKeys(slots) && now != 0 && !Duplicates(slots, f)
    ensures Abs(GetFragment(slots, f, now).0) == MapGetFragment(Abs(slots), f, now).0
    ensures GetFragment(slots, f, now).1.InSlot? <==> MapGetFragment(Abs(slots), f, now).1.Some?
    ensures GetFragment(slots, f, now).1.InSlot? ==>
              MapGetFragment(Abs(slots), f, now).1 == Some(AnswerSlot(slots, f, now)[GetFragment(slots, f, now).1.i])
  {
    var after := GetFragment(slots, f, now).0;
    var m' := MapGetFragment(Abs(slots), f, now).0;
    forall k
      ensures k in Abs(after) <==> k in m'
      ensures k in m' ==> Abs(after)[k] == m'[k]
    {
      KeyAfter(slots, f, now, k);
    }
    AnswerAfter(slots, f, now);
    hide Abs, GetFragment, MapGetFragment, UniqueKeys, Duplicates, AnswerSlot;
  }

  lemma RoomLeft(slots: seq<Slot>)
    requires |slots| == MAX_REASSEMBLIES && UniqueKeys(slots)
    ensures |Abs(slots)| == MAX_REASSEMBLIES <==> FirstFree(slots, 0) == |slots|
  {
    AbsSize(slots);
    OpenCountBounds(slots);
  }

  lemma AnswerAfter(slots: seq<Slot>, f: Frame, now: int)
    requires |slots| == MAX_REASSEMBLIES && UniqueKeys(slots)
    ensures GetFragment(slots, f, now).1.InSlot? <==> MapGetFragment(Abs(slots), f, now).1.Some?
    ensures GetFragment(slots, f, now).1.InSlot? ==>
              MapGetFragment(Abs(slots), f, now).1 == Some(AnswerSlot(slots, f, now)[GetFragment(slots, f, now).1.i])
  {
    RoomLeft(slots);
    AbsLookup(slots, FrameKey(f));
    hide Abs, UniqueKeys;
  }

  // What one key finds after the packet.
  lemma KeyAfter(slots: seq<Slot>, f: Frame, now: int, k: Key)
    requires |slots| == MAX_REASSEMBLIES && UniqueKeys(slots) && now != 0 && !Duplicates(slots, f)
    ensures k in Abs(GetFragment(slots, f, now).0) <==> k in MapGetFragment(Abs(slots), f, now).0
    ensures k in MapGetFragment(Abs(slots), f, now).0 ==>
              Abs(GetFragment(slots, f, now).0)[k] == MapGetFragment(Abs(slots), f, now).0[k]
  {
    RoomLeft(slots);
    AbsLookup(slots, k);
    AbsLookup(GetFragment(slots, f, now).0, k);
    hide Abs;
    if k != FrameKey(f) {
      MatchAfterOther(slots, f, now, k);
    } else if FirstFragment(f) {
      if FirstFree(slots, 0) < |slots| {
        MatchAfterFirst(slots, f, now);
      }
    } else if LaterFragment(f) && !MoreFragments(f.fragOff) {
      MatchAfterLast(slots, f, now);
    }
  }

  // Which slot a key finds after the packet: a key of its own finds the same slot as before.
  lemma MatchAfterOther(slots: seq<Slot>, f: Frame, now: int, k: Key)
    requires now != 0 && k != FrameKey(f)
    ensures FirstMatch(GetFragment(slots, f, now).0, k, 0) == FirstMatch(slots, k, 0)
    ensures FirstMatch(slots, k, 0) < |slots| ==>
              GetFragment(slots, f, now).0[FirstMatch(slots, k, 0)] == slots[FirstMatch(slots, k, 0)]
  {
    var after := GetFragment(slots, f, now).0;
    assert forall i | 0 <= i < |slots| :: Matches(after[i], k) <==> Matches(slots[i], k);
  }

  lemma MatchAfterFirst(slots: seq<Slot>, f: Frame, now: int)
    requires now != 0 && FirstFragment(f) && !IsOpen(slots, FrameKey(f)) && FirstFree(slots, 0) < |slots|
    ensures FirstMatch(GetFragment(slots, f, now).0, FrameKey(f), 0) == FirstFree(slots, 0)
  {
    var after := GetFragment(slots, f, now).0;
    assert Matches(after[FirstFree(slots, 0)], FrameKey(f));
    assert forall i | 0 <= i < |slots| && i != FirstFree(slots, 0) ::
        after[i] == slots[i] && !Matches(slots[i], FrameKey(f));
  }

  lemma MatchAfterLast(slots: seq<Slot>, f: Frame, now: int)
    requires UniqueKeys(slots) && LaterFragment(f) && !MoreFragments(f.fragOff)
    ensures FirstMatch(GetFragment(slots, f, now).0, FrameKey(f), 0) == |slots|
  {
    var after, i := GetFragment(slots, f, now).0, FirstMatch(slots, FrameKey(f), 0);
    assert forall j | 0 <= j < |slots| && j != i :: after[j] == slots[j] && !Matches(slots[j], FrameKey(f));
  }

  // ---- Runs of the map -----------------------------------------------------------------------------------

  function MapSwept(m: map<Key, Slot>, now: int): map<Key, Slot> {
    map k | k in m && !Expired(m[k], now) :: m[k]
  }

  // The sweep forgets the expired datagrams and no other.
  lemma SweepRefinesMap(slots: seq<Slot>, now: int)
    requires UniqueKeys(slots)
    ensures Abs(Swept(slots, now)) == MapSwept(Abs(slots), now) && UniqueKeys(Swept(slots, now))
  {
    var after := Swept(slots, now);
    forall k
      ensures k in Abs(after) <==> k in MapSwept(Abs(slots), now)
      ensures k in Abs(after) ==> Abs(after)[k] == Abs(slots)[k]
    {
      AbsLookup(slots, k);
      AbsLookup(after, k);
      var i := FirstMatch(slots, k, 0);
      assert forall j | 0 <= j < |slots| :: Matches(after[j], k) ==> Matches(slots[j], k) && j == i;
      if i < |slots| && !Expired(slots[i], now) {
        assert Matches(after[i], k);
      }
    }
  }

  // parse_packet on the map.
  function MapParse(m: map<Key, Slot>, f: Frame, now: int, sweep: int): (map<Key, Slot>, Option<Packet>) {
    var (after, found) := MapGetFragment(m, f, now);
    var out :=
      if !FirstFragment(f) && !LaterFragment(f) then Tuple(f, f.source, f.dest)
      else if found.Some? then Tuple(f, found.value.sourcePort, found.value.destPort)
      else None;
    (MapSwept(after, sweep), out)
  }

  // A first fragment of a datagram that is open, with room left.
  predicate MapDuplicates(m: map<Key, Slot>, f: Frame) {
    FirstFragment(f) && FrameKey(f) in m && |m| < MAX_REASSEMBLIES
  }

  lemma DuplicatesOnMap(slots: seq<Slot>, f: Frame)
    requires |slots| == MAX_REASSEMBLIES && UniqueKeys(slots)
    ensures Duplicates(slots, f) <==> MapDuplicates(Abs(slots), f)
  {
    AbsSize(slots);
    OpenCountBounds(slots);
    AbsLookup(slots, FrameKey(f));
  }

  // The slot of a later fragment keeps its ports when it is freed.
  lemma PortsOfAnswer(slots: seq<Slot>, f: Frame, now: int)
    requires GetFragment(slots, f, now).1.InSlot?
    ensures var (after, frag) := GetFragment(slots, f, now);
            && after[frag.i].sourcePort == AnswerSlot(slots, f, now)[frag.i].sourcePort
            && after[frag.i].destPort == AnswerSlot(slots, f, now)[frag.i].destPort
  {
  }

  lemma NotFragmentIff(slots: seq<Slot>, f: Frame, now: int)
    ensures GetFragment(slots, f, now).1.NotFragment? <==> !FirstFragment(f) && !LaterFragment(f)
  {
  }

  // One packet: the same verdict, the same tuple and the same datagrams open after it.
  lemma ParseRefinesMap(slots: seq<Slot>, f: Frame, now: int, sweep: int)
    requires |slots| == MAX_REASSEMBLIES && UniqueKeys(slots) && now != 0 && !Duplicates(slots, f)
    ensures Abs(Parse(slots, f, now, sweep).0) == MapParse(Abs(slots), f, now, sweep).0
    ensures Parse(slots, f, now, sweep).1 == MapParse(Abs(slots), f, now, sweep).1
    ensures UniqueKeys(Parse(slots, f, now, sweep).0)
  {
    RefinesMap(slots, f, now);
    UniqueKeysKeptIff(slots, f, now, sweep);
    NotFragmentIff(slots, f, now);
    if GetFragment(slots, f, now).1.InSlot? {
      PortsOfAnswer(slots, f, now);
    }
    hide Abs, UniqueKeys, Swept, MapSwept, Duplicates, GetFragment, MapGetFragment, AnswerSlot, FirstFragment,
        LaterFragment, Tuple;
    SweepRefinesMap(GetFragment(slots, f, now).0, sweep);
  }

  function MapAt(es: seq<Event>, k: nat): map<Key, Slot>
    requires k <= |es|
  {
    if k == 0 then map[] else MapParse(MapAt(es, k - 1), es[k - 1].frame, es[k - 1].now, es[k - 1].sweep).0
  }

  function MapOut(es: seq<Event>, k: nat): Option<Packet>
    requires k < |es|
  {
    MapParse(MapAt(es, k), es[k].frame, es[k].now, es[k].sweep).1
  }

  // The map sees no datagram opened twice in the first n packets.
  ghost predicate NeverDuplicates(es: seq<Event>, n: nat)
    requires n <= |es|
  {
    n == 0 || (NeverDuplicates(es, n - 1) && !MapDuplicates(MapAt(es, n - 1), es[n - 1].frame))
  }

  lemma {:induction false} EmptyMap(slots: seq<Slot>)
    requires forall i | 0 <= i < |slots| :: slots[i].ttl == 0
    ensures Abs(slots) == map[]
  {
    if slots != [] {
      EmptyMap(slots[1..]);
    }
  }

  // Over any run from the empty table in which the map never sees a datagram opened twice, the table holds what the
  // map holds, expiry included.
  lemma {:induction false} RunRefinesMap(start: seq<Slot>, es: seq<Event>, n: nat)
    requires AllFree(start) && ClockNeverZero(es) && n <= |es|
    requires NeverDuplicates(es, n)
    ensures Abs(SlotsAt(start, es, n)) == MapAt(es, n) && UniqueKeys(SlotsAt(start, es, n))
  {
    if n == 0 {
      EmptyMap(start);
    } else {
      RunRefinesMap(start, es, n - 1);
      var slots := SlotsAt(start, es, n - 1);
      DuplicatesOnMap(slots, es[n - 1].frame);
      ParseRefinesMap(slots, es[n - 1].frame, es[n - 1].now, es[n - 1].sweep);
      hide Abs, UniqueKeys, Parse, MapParse, Duplicates, MapDuplicates;
    }
  }

  // And parse_packet answers what the map answers.
  lemma OutRefinesMap(start: seq<Slot>, es: seq<Event>, n: nat)
    requires AllFree(start) && ClockNeverZero(es) && n < |es|
    requires NeverDuplicates(es, n + 1)
    ensures Out(start, es, n) == MapOut(es, n)
  {
    RunRefinesMap(start, es, n);
    hide Abs, UniqueKeys, Parse, MapParse, Duplicates, MapDuplicates;
    DuplicatesOnMap(SlotsAt(start, es, n), es[n].frame);
    ParseRefinesMap(SlotsAt(start, es, n), es[n].frame, es[n].now, es[n].sweep);
  }
}
