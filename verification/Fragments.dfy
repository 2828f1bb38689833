/**
 The tracker of fragmented IPv4 packets.  Only the first fragment of a datagram carries the ports;
 the tracker remembers them for the later ones (fragmentation: section 3.2 of RFC 791).
 The functions give the new slots for one packet, the class does the same in place.
 */
module Fragments {
  import opened Wrappers
  import Bits

  const MAX_REASSEMBLIES: nat := 32
  const LIFETIME_FRAG: int := 3

  type U16 = x: int | 0 <= x < 0x1_0000

  // struct pkt_ip_fragment; the slot is free if ttl is 0, else ttl is when it was stored.
  datatype Slot = Slot(ttl: int, saddr: nat, daddr: nat, id: U16, sourcePort: U16, destPort: U16)

  datatype Direction = Outgoing | ToHost | OtherType

  // What parse_packet reads from one captured frame.  fragOff is the flags and offset word after ntohs.
  datatype Frame = Frame(direction: Direction, ifIndex: int, len: nat, protocol: nat, saddr: nat, daddr: nat, id: U16,
                         fragOff: U16, source: U16, dest: U16)

  // struct packet
  datatype Packet = Packet(ifIndex: int, upload: bool, localIp: nat, remoteIp: nat, protocol: nat, localPort: U16,
                           remotePort: U16, len: nat)

  datatype Key = Key(id: U16, saddr: nat, daddr: nat)

  function KeyOf(s: Slot): Key {
    Key(s.id, s.saddr, s.daddr)
  }

  function FrameKey(f: Frame): Key {
    Key(f.id, f.saddr, f.daddr)
  }

  // ---- The flags and offset word (section 3.1 of RFC 791) -----------------------------------------

  predicate DontFragment(fragOff: U16) {
    Bits.And(fragOff, 0x4000) != 0
  }

  predicate MoreFragments(fragOff: U16) {
    Bits.And(fragOff, 0x2000) != 0
  }

  function Offset(fragOff: U16): nat {
    Bits.And(fragOff, 0x1FFF)
  }

  lemma BitTest(x: nat, k: nat)
    ensures Bits.And(x, Bits.Shl(1, k)) != 0 <==> x / Bits.Pow2(k) % 2 == 1
  {
    Bits.AndHighMask(x, 1, k);
    Bits.ShrLowAreDivMod(x, k);
    var y := Bits.Shr(x, k);
    assert Bits.Pow2(1) == 2;
    Bits.AndLowMask(y, 1);
    Bits.ShlZero(Bits.And(y, 1), k);
  }

  lemma MaskTests(f: U16)
    ensures DontFragment(f) <==> f / 0x4000 % 2 == 1
    ensures MoreFragments(f) <==> f / 0x2000 % 2 == 1
    ensures Offset(f) == f % 0x2000
  {
    assert Bits.Pow2(5) == 32 && Bits.Pow2(9) == 512;
    assert Bits.Pow2(13) == 0x2000 && Bits.Pow2(14) == 0x4000;
    Bits.ShlIsMul(1, 13);
    Bits.ShlIsMul(1, 14);
    BitTest(f, 14);
    BitTest(f, 13);
    Bits.AndLowMask(f, 13);
  }

  // The masks take the word apart: a reserved bit, DF, MF and a 13-bit offset.
  lemma FlagFields(reserved: nat, df: nat, mf: nat, offset: nat, f: U16)
    requires reserved < 2 && df < 2 && mf < 2 && offset < 0x2000
    requires f == 0x8000 * reserved + 0x4000 * df + 0x2000 * mf + offset
    ensures (DontFragment(f) <==> df == 1) && (MoreFragments(f) <==> mf == 1) && Offset(f) == offset
  {
    hide DontFragment, MoreFragments, Offset;
    MaskTests(f);
    assert f / 0x4000 == 2 * reserved + df;
    assert f / 0x2000 == 4 * reserved + 2 * df + mf;
  }

  predicate FirstFragment(f: Frame) {
    !DontFragment(f.fragOff) && MoreFragments(f.fragOff) && Offset(f.fragOff) == 0
  }

  predicate LaterFragment(f: Frame) {
    !DontFragment(f.fragOff) && Offset(f.fragOff) != 0
  }

  // A first fragment has DF clear, MF set and offset 0, a later one DF clear and another offset; all else is
  // not a fragment to be looked up.
  lemma FragmentKinds(reserved: nat, df: nat, mf: nat, offset: nat, f: Frame)
    requires reserved < 2 && df < 2 && mf < 2 && offset < 0x2000
    requires f.fragOff == 0x8000 * reserved + 0x4000 * df + 0x2000 * mf + offset
    ensures FirstFragment(f) <==> df == 0 && mf == 1 && offset == 0
    ensures LaterFragment(f) <==> df == 0 && offset > 0
  {
    FlagFields(reserved, df, mf, offset, f.fragOff);
    hide DontFragment, MoreFragments, Offset;
  }

  // Frames and slots belong together by id, source and destination, and by nothing else.
  lemma KeyFields(f: Frame, s: Slot)
    ensures KeyOf(s) == FrameKey(f) <==> s.id == f.id && s.saddr == f.saddr && s.daddr == f.daddr
  {
  }

  // ---- One packet -----------------------------------------------------------------------------------

  // The first free slot from i on, or the number of slots.
  function FirstFree(slots: seq<Slot>, i: nat): (r: nat)
    requires i <= |slots|
    ensures i <= r <= |slots|
    ensures r < |slots| ==> slots[r].ttl == 0
    ensures forall j | i <= j < r :: slots[j].ttl != 0
    decreases |slots| - i
  {
    if i == |slots| || slots[i].ttl == 0 then i else FirstFree(slots, i + 1)
  }

  predicate Matches(s: Slot, k: Key) {
    s.ttl != 0 && KeyOf(s) == k
  }

  // The first open slot with the key from i on, or the number of slots.
  function FirstMatch(slots: seq<Slot>, k: Key, i: nat): (r: nat)
    requires i <= |slots|
    ensures i <= r <= |slots|
    ensures r < |slots| ==> Matches(slots[r], k)
    ensures forall j | i <= j < r :: !Matches(slots[j], k)
    decreases |slots| - i
  {
    if i == |slots| || Matches(slots[i], k) then i else FirstMatch(slots, k, i + 1)
  }

  datatype FragResult = NotFragment | NoSlot | InSlot(i: nat)

  // get_fragment: the slots after it, and which slot the packet belongs to.
  function GetFragment(slots: seq<Slot>, f: Frame, now: int): (r: (seq<Slot>, FragResult))
    ensures |r.0| == |slots| && (r.1.InSlot? ==> r.1.i < |slots|)
  {
    if FirstFragment(f) then
      var i := FirstFree(slots, 0);
      if i == |slots| then (slots, NoSlot)
      else (slots[i := Slot(now, f.saddr, f.daddr, f.id, f.source, f.dest)], InSlot(i))
    else if LaterFragment(f) then
      var i := FirstMatch(slots, FrameKey(f), 0);
      if i == |slots| then (slots, NoSlot)
      else if MoreFragments(f.fragOff) then (slots, InSlot(i))
      else (slots[i := slots[i].(ttl := 0)], InSlot(i))
    else (slots, NotFragment)
  }

  predicate Expired(s: Slot, now: int) {
    s.ttl != 0 && now - s.ttl >= LIFETIME_FRAG
  }

  // clear_frag
  function Swept(slots: seq<Slot>, now: int): (r: seq<Slot>)
    ensures |r| == |slots|
  {
    seq(|slots|, i requires 0 <= i < |slots| => if Expired(slots[i], now) then slots[i].(ttl := 0) else slots[i])
  }

  // A sweep closes exactly the slots that are three seconds old or older, and changes nothing else.
  lemma SweptFields(slots: seq<Slot>, now: int, i: nat)
    requires i < |slots|
    ensures Swept(slots, now)[i].ttl == if slots[i].ttl != 0 && now - slots[i].ttl >= 3 then 0 else slots[i].ttl
    ensures Swept(slots, now)[i].(ttl := 0) == slots[i].(ttl := 0)
  {
  }

  function Ntohs(x: U16): U16 {
    x % 0x100 * 0x100 + x / 0x100
  }

  function Tuple(f: Frame, source: U16, dest: U16): Option<Packet> {
    match f.direction
    case Outgoing => Some(Packet(f.ifIndex, true, f.saddr, f.daddr, f.protocol, Ntohs(source), Ntohs(dest), f.len))
    case ToHost => Some(Packet(f.ifIndex, false, f.daddr, f.saddr, f.protocol, Ntohs(dest), Ntohs(source), f.len))
    case OtherType => None
  }

  // parse_packet; the clock is read when a slot is stored and again for the sweep.
  function Parse(slots: seq<Slot>, f: Frame, now: int, sweep: int): (r: (seq<Slot>, Option<Packet>))
    ensures |r.0| == |slots|
  {
    var (after, frag) := GetFragment(slots, f, now);
    var out := match frag
      case NoSlot => None
      case NotFragment => Tuple(f, f.source, f.dest)
      case InSlot(i) => Tuple(f, after[i].sourcePort, after[i].destPort);
    (Swept(after, sweep), out)
  }

  // The two bytes of a port change places.
  predicate BytesSwapped(net: U16, host: U16) {
    net / 256 == host % 256 && net % 256 == host / 256
  }

  lemma PortBytes(high: nat, low: nat, net: U16, host: U16)
    requires high < 256 && low < 256 && net == 256 * high + low
    ensures BytesSwapped(net, host) <==> host == 256 * low + high
  {
    assert net / 256 == high && net % 256 == low;
    assert host == 256 * (host / 256) + host % 256;
  }

  // The packet says which end of the frame is local: the source of what goes out, the destination of what comes in.
  ghost predicate Describes(p: Packet, f: Frame, source: U16, dest: U16) {
    && p.protocol == f.protocol && p.ifIndex == f.ifIndex && p.len == f.len
    && (f.direction.Outgoing? ==>
          && p.upload && p.localIp == f.saddr && p.remoteIp == f.daddr
          && BytesSwapped(source, p.localPort) && BytesSwapped(dest, p.remotePort))
    && (f.direction.ToHost? ==>
          && !p.upload && p.localIp == f.daddr && p.remoteIp == f.saddr
          && BytesSwapped(dest, p.localPort) && BytesSwapped(source, p.remotePort))
  }

  // What parse_packet has to answer: nothing for other traffic, for a later fragment whose datagram is not open and
  // for a first one without a free slot; else a packet with the frame's own ports or those of the datagram.
  ghost predicate Answered(slots: seq<Slot>, f: Frame, out: Option<Packet>) {
    if f.direction.OtherType? then out == None
    else if LaterFragment(f) then
      var i := FirstMatch(slots, FrameKey(f), 0);
      if i == |slots| then out == None
      else out.Some? && Describes(out.value, f, slots[i].sourcePort, slots[i].destPort)
    else if FirstFragment(f) && forall i | 0 <= i < |slots| :: slots[i].ttl != 0 then out == None
    else out.Some? && Describes(out.value, f, f.source, f.dest)
  }

  lemma TupleFields(f: Frame, source: U16, dest: U16)
    ensures Tuple(f, source, dest).None? <==> f.direction.OtherType?
    ensures Tuple(f, source, dest).Some? ==> Describes(Tuple(f, source, dest).value, f, source, dest)
  {
  }

  lemma ParseAnswers(slots: seq<Slot>, f: Frame, now: int, sweep: int)
    ensures Answered(slots, f, Parse(slots, f, now, sweep).1)
  {
    var (after, frag) := GetFragment(slots, f, now);
    TupleFields(f, f.source, f.dest);
    if frag.InSlot? {
      TupleFields(f, after[frag.i].sourcePort, after[frag.i].destPort);
    }
    hide Tuple, Describes, Swept;
  }

  // A frame that goes out and one that answers it give one connection: the same ends, local and remote.
  lemma ReplyHasSameTuple(f: Frame, g: Frame, p: Packet, q: Packet)
    requires f.direction.Outgoing? && g.direction.ToHost? && g.protocol == f.protocol
    requires g.saddr == f.daddr && g.daddr == f.saddr && g.source == f.dest && g.dest == f.source
    requires Describes(p, f, f.source, f.dest) && Describes(q, g, g.source, g.dest)
    ensures q.localIp == p.localIp && q.remoteIp == p.remoteIp && q.protocol == p.protocol
    ensures q.localPort == p.localPort && q.remotePort == p.remotePort
  {
    SwapIsFunction(f.source, p.localPort, q.localPort);
    SwapIsFunction(f.dest, p.remotePort, q.remotePort);
  }

  lemma SwapIsFunction(net: U16, host: U16, host': U16)
    requires BytesSwapped(net, host) && BytesSwapped(net, host')
    ensures host == host'
  {
  }

  // ---- The table in place ---------------------------------------------------------------------------

  function OpenCount(slots: seq<Slot>): nat {
    if slots == [] then 0 else (if slots[0].ttl != 0 then 1 else 0) + OpenCount(slots[1..])
  }

  lemma {:induction false} OpenCountUpdate(slots: seq<Slot>, i: nat, s: Slot)
    requires i < |slots|
    ensures OpenCount(slots[i := s]) + (if slots[i].ttl != 0 then 1 else 0) ==
        OpenCount(slots) + (if s.ttl != 0 then 1 else 0)
  {
    if i == 0 {
      assert slots[0 := s][1..] == slots[1..];
    } else {
      assert slots[i := s][1..] == slots[1..][i - 1 := s];
      OpenCountUpdate(slots[1..], i - 1, s);
    }
  }

  lemma {:induction false} OpenCountBounds(slots: seq<Slot>)
    ensures OpenCount(slots) <= |slots|
    ensures OpenCount(slots) == |slots| <==> forall i | 0 <= i < |slots| :: slots[i].ttl != 0
    ensures OpenCount(slots) == 0 <==> forall i | 0 <= i < |slots| :: slots[i].ttl == 0
  {
    if slots != [] {
      OpenCountBounds(slots[1..]);
      assert forall i | 1 <= i < |slots| :: slots[i] == slots[1..][i - 1];
      assert forall i | 0 <= i < |slots[1..]| :: slots[1..][i] == slots[i + 1];
    }
  }

  class FragmentTable {
    var pktIpFrag: array<Slot>
    var countReassemblies: nat

    // The shadow counter is the number of open slots.
    ghost predicate Valid()
      reads this, pktIpFrag
    {
      pktIpFrag.Length == MAX_REASSEMBLIES && countReassemblies == OpenCount(pktIpFrag[..])
    }

    constructor ()
      ensures Valid() && fresh(pktIpFrag) && pktIpFrag.Length == 32 && forall i | 0 <= i < 32 :: pktIpFrag[i].ttl == 0
    {
      var a := new Slot[MAX_REASSEMBLIES](_ => Slot(0, 0, 0, 0, 0, 0));
      pktIpFrag := a;
      countReassemblies := 0;
      new;
      OpenCountBounds(pktIpFrag[..]);
    }

    // The index of the slot, or -1.  time() is never 0.
    method StoreFragment(f: Frame, now: int) returns (index: int)
      requires Valid() && now != 0
      modifies this`countReassemblies, pktIpFrag
      ensures Valid()
      ensures var free := FirstFree(old(pktIpFrag[..]), 0);
              if free == MAX_REASSEMBLIES then index == -1 && pktIpFrag[..] == old(pktIpFrag[..])
              else
                && index == free
                && pktIpFrag[..] == old(pktIpFrag[..])[free := Slot(now, f.saddr, f.daddr, f.id, f.source, f.dest)]
    {
      ghost var slots := pktIpFrag[..];
      OpenCountBounds(slots);
      if countReassemblies == MAX_REASSEMBLIES {
        return -1;
      }
      countReassemblies := countReassemblies + 1;
      var i := 0;
      while i < MAX_REASSEMBLIES
        invariant i <= MAX_REASSEMBLIES && pktIpFrag[..] == slots
        invariant FirstFree(slots, 0) == FirstFree(slots, i)
      {
        if pktIpFrag[i].ttl == 0 {
          pktIpFrag[i] := Slot(now, f.saddr, f.daddr, f.id, f.source, f.dest);
          OpenCountUpdate(slots, i, pktIpFrag[i]);
          return i;
        }
        i := i + 1;
      }
      // The counter was below 32, so a slot was free.
      assert false;
    }

    // The index of the slot, or -1.  The last fragment frees the slot, its ports stay readable.
    method SearchFragment(f: Frame) returns (index: int)
      requires Valid()
      modifies this`countReassemblies, pktIpFrag
      ensures Valid()
      ensures var i, slots := FirstMatch(old(pktIpFrag[..]), FrameKey(f), 0), old(pktIpFrag[..]);
              if i == MAX_REASSEMBLIES then index == -1 && pktIpFrag[..] == slots
              else
                && index == i
                && pktIpFrag[..] == if MoreFragments(f.fragOff) then slots else slots[i := slots[i].(ttl := 0)]
    {
      ghost var slots := pktIpFrag[..];
      var i := 0;
      while i < MAX_REASSEMBLIES
        invariant i <= MAX_REASSEMBLIES && pktIpFrag[..] == slots && countReassemblies == OpenCount(slots)
        invariant FirstMatch(slots, FrameKey(f), 0) == FirstMatch(slots, FrameKey(f), i)
      {
        var s := pktIpFrag[i];
        if s.ttl != 0 && f.id == s.id && f.saddr == s.saddr && f.daddr == s.daddr {
          if !MoreFragments(f.fragOff) {
            pktIpFrag[i] := pktIpFrag[i].(ttl := 0);
            OpenCountUpdate(slots, i, pktIpFrag[i]);
            DecReassemble();
          }
          return i;
        }
        i := i + 1;
      }
      return -1;
    }

    // DEC_REASSEMBLE never has to saturate: it is called when an open slot has been closed.
    method DecReassemble()
      requires countReassemblies > 0
      modifies this`countReassemblies
      ensures countReassemblies == old(countReassemblies) - 1
    {
      countReassemblies := countReassemblies - if countReassemblies != 0 then 1 else 0;
    }

    method GetFragmentInPlace(f: Frame, now: int) returns (r: FragResult)
      requires Valid() && now != 0
      modifies this`countReassemblies, pktIpFrag
      ensures Valid() && (pktIpFrag[..], r) == GetFragment(old(pktIpFrag[..]), f, now)
    {
      if DontFragment(f.fragOff) {
        return NotFragment;
      }
      if MoreFragments(f.fragOff) && Offset(f.fragOff) == 0 {
        var i := StoreFragment(f, now);
        return if i == -1 then NoSlot else InSlot(i);
      } else if Offset(f.fragOff) != 0 {
        var i := SearchFragment(f);
        return if i == -1 then NoSlot else InSlot(i);
      }
      return NotFragment;
    }

    // Stops as soon as no slot is open: no expired one is missed.
    method ClearFrag(now: int)
      requires Valid()
      modifies this`countReassemblies, pktIpFrag
      ensures Valid() && pktIpFrag[..] == Swept(old(pktIpFrag[..]), now)
      ensures forall i | 0 <= i < MAX_REASSEMBLIES :: pktIpFrag[i].ttl ==
                if old(pktIpFrag[i].ttl) != 0 && now - old(pktIpFrag[i].ttl) >= 3 then 0 else old(pktIpFrag[i].ttl)
    {
      ghost var slots := pktIpFrag[..];
      var i := 0;
      while countReassemblies > 0 && i < MAX_REASSEMBLIES
        invariant i <= MAX_REASSEMBLIES && Valid()
        invariant forall j | 0 <= j < MAX_REASSEMBLIES ::
                    pktIpFrag[j] == if j < i && Expired(slots[j], now) then slots[j].(ttl := 0) else slots[j]
        decreases MAX_REASSEMBLIES - i
      {
        if pktIpFrag[i].ttl != 0 && now - pktIpFrag[i].ttl >= LIFETIME_FRAG {
          ghost var before := pktIpFrag[..];
          OpenCountBounds(before);
          pktIpFrag[i] := pktIpFrag[i].(ttl := 0);
          OpenCountUpdate(before, i, pktIpFrag[i]);
          assert pktIpFrag[..] == before[i := pktIpFrag[i]];
          DecReassemble();
        }
        i := i + 1;
      }
      OpenCountBounds(pktIpFrag[..]);
      assert countReassemblies == 0 ==> forall j | 0 <= j < MAX_REASSEMBLIES :: pktIpFrag[..][j].ttl == 0;
    }

    // parse_packet after the headers have been read.
    method ParsePacket(f: Frame, now: int, sweep: int) returns (out: Option<Packet>)
      requires Valid() && now != 0
      modifies this`countReassemblies, pktIpFrag
      ensures Valid() && (pktIpFrag[..], out) == Parse(old(pktIpFrag[..]), f, now, sweep)
      ensures Answered(old(pktIpFrag[..]), f, out)
    {
      ParseAnswers(pktIpFrag[..], f, now, sweep);
      hide Answered;
      hide GetFragment, Swept;
      var idFrag := GetFragmentInPlace(f, now);
      match idFrag {
        case NoSlot => out := None;
        case NotFragment => out := Tuple(f, f.source, f.dest);
        case InSlot(i) => out := Tuple(f, pktIpFrag[i].sourcePort, pktIpFrag[i].destPort);
      }
      ClearFrag(sweep);
    }
  }
}
