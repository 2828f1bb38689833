/**
 The socket filter: classic BPF arrays against the labelled program they were assembled from.
 A program is a list of instructions over an accumulator; a load past the end of the packet
 rejects it, jumps only go forward.
 */
module PacketFilter {
  import opened Wrappers
  import Bits

  type U8 = x: int | 0 <= x < 0x100
  type U32 = x: int | 0 <= x < 0x1_0000_0000
  type Packet = seq<U8>

  // struct sock_filter { code, jt, jf, k }
  datatype Instr = Instr(code: int, jt: nat, jf: nat, k: U32)

  datatype Prog = Stop | Op(head: Instr, tail: Prog)

  const LDB := 0x30   // BPF_LD | BPF_B | BPF_ABS
  const LDH := 0x28   // BPF_LD | BPF_H | BPF_ABS
  const LDW := 0x20   // BPF_LD | BPF_W | BPF_ABS
  const AND := 0x54   // BPF_ALU | BPF_AND | BPF_K
  const JEQ := 0x15   // BPF_JMP | BPF_JEQ | BPF_K
  const RET := 0x06   // BPF_RET | BPF_K

  // How many bytes of the packet are kept; 0 drops it.
  type Verdict = U32

  // Big-endian load of 1, 2 or 4 bytes.
  function Load(p: Packet, at: nat, size: nat): Option<U32>
    requires size in {1, 2, 4}
  {
    if at + size > |p| then None
    else if size == 1 then Some(p[at])
    else if size == 2 then Some(p[at] as int * 0x100 + p[at + 1])
    else Some(p[at] as int * 0x100_0000 + p[at + 1] as int * 0x1_0000 + p[at + 2] as int * 0x100 + p[at + 3])
  }

  function Size(prog: Prog): nat {
    if prog.Stop? then 0 else 1 + Size(prog.tail)
  }

  function Skip(prog: Prog, n: nat): (r: Prog)
    ensures Size(r) <= Size(prog)
  {
    if n == 0 || prog.Stop? then prog else Skip(prog.tail, n - 1)
  }

  // Runs a program.  Running off its end, or a code this filter does not use, rejects.
  function Exec(prog: Prog, a: nat, p: Packet): Verdict
    decreases Size(prog)
  {
    match prog
    case Stop => 0
    case Op(i, rest) =>
      if i.code == RET then i.k
      else if i.code == AND then Exec(rest, Bits.And(a, i.k), p)
      else if i.code == JEQ then Exec(Skip(rest, if a == i.k then i.jt else i.jf), a, p)
      else if i.code == LDB || i.code == LDH || i.code == LDW then
        match Load(p, i.k, if i.code == LDB then 1 else if i.code == LDH then 2 else 4)
        case None => 0
        case Some(v) => Exec(rest, v, p)
      else 0
  }

  // ---- The arrays of filter_get ---------------------------------------------------------------

  function IpTcpUdp(): Prog {
    Op(Instr(0x30, 0, 0, 0x00000000), Op(Instr(0x54, 0, 0, 0x000000f0),
    Op(Instr(0x15, 0, 9, 0x00000040), Op(Instr(0x20, 0, 0, 0x0000000c),
    Op(Instr(0x54, 0, 0, 0xff000000), Op(Instr(0x15, 18, 0, 0x7f000000),
    Op(Instr(0x20, 0, 0, 0x00000010), Op(Instr(0x54, 0, 0, 0xff000000),
    Op(Instr(0x15, 15, 0, 0x7f000000), Op(Instr(0x30, 0, 0, 0x00000009),
    Op(Instr(0x15, 12, 0, 0x00000006), Op(Instr(0x15, 11, 0, 0x00000011),
    Op(Instr(0x28, 0, 0, 0x0000000c), Op(Instr(0x15, 0, 10, 0x00000800),
    Op(Instr(0x20, 0, 0, 0x0000001a), Op(Instr(0x54, 0, 0, 0xff000000),
    Op(Instr(0x15, 7, 0, 0x7f000000), Op(Instr(0x20, 0, 0, 0x0000001e),
    Op(Instr(0x54, 0, 0, 0xff000000), Op(Instr(0x15, 4, 0, 0x7f000000),
    Op(Instr(0x30, 0, 0, 0x00000017), Op(Instr(0x15, 1, 0, 0x00000006),
    Op(Instr(0x15, 0, 1, 0x00000011), Op(Instr(0x06, 0, 0, 0x00040000),
    Op(Instr(0x06, 0, 0, 0x00000000), Stop)))))))))))))))))))))))))
  }

  function IpTcp(): Prog {
    Op(Instr(0x30, 0, 0, 0x00000000), Op(Instr(0x54, 0, 0, 0x000000f0),
    Op(Instr(0x15, 0, 8, 0x00000040), Op(Instr(0x20, 0, 0, 0x0000000c),
    Op(Instr(0x54, 0, 0, 0xff000000), Op(Instr(0x15, 16, 0, 0x7f000000),
    Op(Instr(0x20, 0, 0, 0x00000010), Op(Instr(0x54, 0, 0, 0xff000000),
    Op(Instr(0x15, 13, 0, 0x7f000000), Op(Instr(0x30, 0, 0, 0x00000009),
    Op(Instr(0x15, 10, 0, 0x00000006), Op(Instr(0x28, 0, 0, 0x0000000c),
    Op(Instr(0x15, 0, 9, 0x00000800), Op(Instr(0x20, 0, 0, 0x0000001a),
    Op(Instr(0x54, 0, 0, 0xff000000), Op(Instr(0x15, 6, 0, 0x7f000000),
    Op(Instr(0x20, 0, 0, 0x0000001e), Op(Instr(0x54, 0, 0, 0xff000000),
    Op(Instr(0x15, 3, 0, 0x7f000000), Op(Instr(0x30, 0, 0, 0x00000017),
    Op(Instr(0x15, 0, 1, 0x00000006), Op(Instr(0x06, 0, 0, 0x00040000),
    Op(Instr(0x06, 0, 0, 0x00000000), Stop)))))))))))))))))))))))
  }

  function IpUdp(): Prog {
    Op(Instr(0x30, 0, 0, 0x00000000), Op(Instr(0x54, 0, 0, 0x000000f0),
    Op(Instr(0x15, 0, 8, 0x00000040), Op(Instr(0x20, 0, 0, 0x0000000c),
    Op(Instr(0x54, 0, 0, 0xff000000), Op(Instr(0x15, 16, 0, 0x7f000000),
    Op(Instr(0x20, 0, 0, 0x00000010), Op(Instr(0x54, 0, 0, 0xff000000),
    Op(Instr(0x15, 13, 0, 0x7f000000), Op(Instr(0x30, 0, 0, 0x00000009),
    Op(Instr(0x15, 10, 0, 0x00000011), Op(Instr(0x28, 0, 0, 0x0000000c),
    Op(Instr(0x15, 0, 9, 0x00000800), Op(Instr(0x20, 0, 0, 0x0000001a),
    Op(Instr(0x54, 0, 0, 0xff000000), Op(Instr(0x15, 6, 0, 0x7f000000),
    Op(Instr(0x20, 0, 0, 0x0000001e), Op(Instr(0x54, 0, 0, 0xff000000),
    Op(Instr(0x15, 3, 0, 0x7f000000), Op(Instr(0x30, 0, 0, 0x00000017),
    Op(Instr(0x15, 0, 1, 0x00000011), Op(Instr(0x06, 0, 0, 0x00040000),
    Op(Instr(0x06, 0, 0, 0x00000000), Stop)))))))))))))))))))))))
  }

  // What -D option the array was assembled with.
  datatype Define = NoDefine | DefineTcp | DefineUdp

  function Code(d: Define): Prog {
    match d
    case NoDefine => IpTcpUdp()
    case DefineTcp => IpTcp()
    case DefineUdp => IpUdp()
  }

  // flags_proto is a bit set of TCP (1) and UDP (2); any other value has no filter.
  function FilterGet(flagsProto: int): Option<Prog> {
    match flagsProto
    case 3 => Some(IpTcpUdp())
    case 1 => Some(IpTcp())
    case 2 => Some(IpUdp())
    case _ => None
  }

  // ---- The labelled source ----------------------------------------------------------------------

  datatype Label =
    | L0 | L1 | L2 | L3 | L4 | L5 | L6 | L7 | L8 | L9 | L10 | L11
    | L15 | L20 | L25 | L30 | L35 | L40 | L45 | L50 | L55 | L60 | L65 | Pass | Drop

  datatype Stmt =
    | Ld(size: nat, at: U32)
    | And(mask: U32)
    | Jeq(value: U32, yes: Label, no: Label)
    | Ret(verdict: U32)

  datatype Line = Line(name: Label, stmt: Stmt)
  datatype Lines = Nil | Cons(head: Line, tail: Lines)

  const P_TCP: U32 := 0x06
  const P_UDP: U32 := 0x11

  // First the test for an interface without link header, then the one for Ethernet.
  function Source(d: Define): Lines {
    TunTests(TunProto(d, EtherTests(EtherProto(d, Exits()))))
  }

  function TunTests(rest: Lines): Lines {
    Cons(Line(L0, Ld(1, 0)),
    Cons(Line(L1, And(0xf0)),
    Cons(Line(L2, Jeq(0x40, L3, L15)),
    TunHeader(rest))))
  }

  function TunHeader(rest: Lines): Lines {
    HeaderTests(L3, L4, L5, 12, L6, L7, L8, 16, L9, 9, rest)
  }

  // Drops the packet if its source or destination is in 127.0.0.0/8, then loads the protocol.
  function HeaderTests(la: Label, lb: Label, lc: Label, src: U32, ld: Label, le: Label, lf: Label, dst: U32,
                       lg: Label, proto: U32, rest: Lines): Lines {
    Cons(Line(la, Ld(4, src)),
    Cons(Line(lb, And(0xff000000)),
    Cons(Line(lc, Jeq(0x7f000000, Drop, ld)),
    Cons(Line(ld, Ld(4, dst)),
    Cons(Line(le, And(0xff000000)),
    Cons(Line(lf, Jeq(0x7f000000, Drop, lg)),
    Cons(Line(lg, Ld(1, proto)), rest)))))))
  }

  function TunProto(d: Define, rest: Lines): Lines {
    match d
    case NoDefine => Cons(Line(L10, Jeq(P_TCP, Pass, L11)), Cons(Line(L11, Jeq(P_UDP, Pass, L15)), rest))
    case DefineTcp => Cons(Line(L10, Jeq(P_TCP, Pass, L15)), rest)
    case DefineUdp => Cons(Line(L10, Jeq(P_UDP, Pass, L15)), rest)
  }

  function EtherTests(rest: Lines): Lines {
    Cons(Line(L15, Ld(2, 12)),
    Cons(Line(L20, Jeq(0x0800, L25, Drop)),
    EtherHeader(rest)))
  }

  function EtherHeader(rest: Lines): Lines {
    HeaderTests(L25, L30, L35, 26, L40, L45, L50, 30, L55, 23, rest)
  }

  function EtherProto(d: Define, rest: Lines): Lines {
    match d
    case NoDefine => Cons(Line(L60, Jeq(P_TCP, Pass, L65)), Cons(Line(L65, Jeq(P_UDP, Pass, Drop)), rest))
    case DefineTcp => Cons(Line(L60, Jeq(P_TCP, Pass, Drop)), rest)
    case DefineUdp => Cons(Line(L60, Jeq(P_UDP, Pass, Drop)), rest)
  }

  function Exits(): Lines {
    Cons(Line(Pass, Ret(262144)), Cons(Line(Drop, Ret(0)), Nil))
  }

  function Length(lines: Lines): nat {
    if lines.Nil? then 0 else 1 + Length(lines.tail)
  }

  // The lines from a label on; nothing if the label is not there.
  function From(lines: Lines, name: Label): (r: Lines)
    ensures Length(r) <= Length(lines)
  {
    if lines.Nil? || lines.head.name == name then lines else From(lines.tail, name)
  }

  // The meaning of the labelled source: a jump goes to its label, which must be further down.
  function Interpret(lines: Lines, a: nat, p: Packet): Verdict
    decreases Length(lines)
  {
    match lines
    case Nil => 0
    case Cons(line, rest) =>
      match line.stmt
      case Ret(v) => v
      case And(m) => Interpret(rest, Bits.And(a, m), p)
      case Jeq(v, yes, no) => Interpret(From(rest, if a == v then yes else no), a, p)
      case Ld(size, at) =>
        if size !in {1, 2, 4} then 0
        else
          match Load(p, at, size)
          case None => 0
          case Some(v) => Interpret(rest, v, p)
  }

  // ---- Assembling keeps the meaning --------------------------------------------------------------

  function LoadCode(size: nat): int {
    if size == 1 then LDB else if size == 2 then LDH else if size == 4 then LDW else -1
  }

  // A jump offset counts the lines skipped after the jump itself.
  function Offset(rest: Lines, name: Label): nat {
    if rest.Nil? || rest.head.name == name then 0 else 1 + Offset(rest.tail, name)
  }

  function Encode(stmt: Stmt, rest: Lines): Instr {
    match stmt
    case Ret(v) => Instr(RET, 0, 0, v)
    case And(m) => Instr(AND, 0, 0, m)
    case Jeq(v, yes, no) => Instr(JEQ, Offset(rest, yes), Offset(rest, no), v)
    case Ld(size, at) => Instr(LoadCode(size), 0, 0, at)
  }

  function Assemble(lines: Lines): Prog {
    match lines
    case Nil => Stop
    case Cons(line, rest) => Op(Encode(line.stmt, rest), Assemble(rest))
  }

  lemma {:induction false} SkipToLabel(lines: Lines, name: Label)
    ensures Skip(Assemble(lines), Offset(lines, name)) == Assemble(From(lines, name))
  {
    if lines.Cons? && lines.head.name != name {
      SkipToLabel(lines.tail, name);
    }
  }

  // The assembled program gives every packet, truncated ones included, the verdict of the labelled one.
  lemma {:induction false} AssembleCorrect(lines: Lines, a: nat, p: Packet)
    ensures Exec(Assemble(lines), a, p) == Interpret(lines, a, p)
    decreases Length(lines)
  {
    match lines
    case Nil =>
    case Cons(line, rest) =>
      match line.stmt
      case Ret(v) =>
      case And(m) => AssembleCorrect(rest, Bits.And(a, m), p);
      case Jeq(v, yes, no) =>
        var target := if a == v then yes else no;
        SkipToLabel(rest, target);
        AssembleCorrect(From(rest, target), a, p);
      case Ld(size, at) =>
        if size in {1, 2, 4} && Load(p, at, size).Some? {
          AssembleCorrect(rest, Load(p, at, size).value, p);
        }
  }

  // The tests are assembled from their end: every jump counts one line more than the next.
  lemma {:induction false} HeaderTestsAssembled(la: Label, lb: Label, lc: Label, src: U32, ld: Label, le: Label,
                                                lf: Label, dst: U32, lg: Label, proto: U32, rest: Lines)
    requires !ld.Drop? && !le.Drop? && !lf.Drop? && !lg.Drop?
    ensures Assemble(HeaderTests(la, lb, lc, src, ld, le, lf, dst, lg, proto, rest))
         == HeaderTestsCode(src, dst, proto, Offset(rest, Drop), Assemble(rest))
  {
    var drop := Offset(rest, Drop);
    var rf := Cons(Line(lf, Jeq(0x7f000000, Drop, lg)), Cons(Line(lg, Ld(1, proto)), rest));
    var rd := Cons(Line(ld, Ld(4, dst)), Cons(Line(le, And(0xff000000)), rf));
    var rc := Cons(Line(lc, Jeq(0x7f000000, Drop, ld)), rd);
    assert Assemble(rf) == Op(Instr(JEQ, 1 + drop, 0, 0x7f000000), Op(Instr(LDB, 0, 0, proto), Assemble(rest)));
    assert Assemble(rd) == Op(Instr(LDW, 0, 0, dst), Op(Instr(AND, 0, 0, 0xff000000), Assemble(rf)));
    assert Offset(rd, Drop) == 4 + drop by {
      assert Offset(rf, Drop) == 2 + drop;
    }
    assert Assemble(rc) == Op(Instr(JEQ, 4 + drop, 0, 0x7f000000), Assemble(rd));
  }

  // A label further down is one line further from a line in front.
  lemma {:induction false} NextLine(line: Line, rest: Lines, name: Label)
    requires line.name != name
    ensures Offset(Cons(line, rest), name) == 1 + Offset(rest, name)
    ensures From(Cons(line, rest), name) == From(rest, name)
  {
  }

  // The same for the three lines of an address test.
  lemma {:induction false} NextTest(l1: Line, l2: Line, l3: Line, rest: Lines, name: Label)
    requires l1.name != name && l2.name != name && l3.name != name
    ensures Offset(Cons(l1, Cons(l2, Cons(l3, rest))), name) == 3 + Offset(rest, name)
    ensures From(Cons(l1, Cons(l2, Cons(l3, rest))), name) == From(rest, name)
  {
    NextLine(l3, rest, name);
    NextLine(l2, Cons(l3, rest), name);
    NextLine(l1, Cons(l2, Cons(l3, rest)), name);
  }

  lemma {:induction false} HeaderTestsSkipped(la: Label, lb: Label, lc: Label, src: U32, ld: Label, le: Label,
                                              lf: Label, dst: U32, lg: Label, proto: U32, rest: Lines, name: Label)
    requires name != la && name != lb && name != lc && name != ld && name != le && name != lf && name != lg
    ensures Offset(HeaderTests(la, lb, lc, src, ld, le, lf, dst, lg, proto, rest), name) == 7 + Offset(rest, name)
    ensures From(HeaderTests(la, lb, lc, src, ld, le, lf, dst, lg, proto, rest), name) == From(rest, name)
  {
    hide Offset, From, HeaderTests;
    HeaderTestLines(la, lb, lc, src, ld, le, lf, dst, lg, proto, rest);
    var rg := Cons(Line(lg, Ld(1, proto)), rest);
    var rd := AddressTest(ld, le, lf, dst, lg, rg);
    NextLine(rg.head, rest, name);
    AddressTestSkipped(ld, le, lf, dst, lg, rg, name);
    AddressTestSkipped(la, lb, lc, src, ld, rd, name);
    hide AddressTest;
  }

  // The three lines that drop a packet by one of its addresses.
  function AddressTest(la: Label, lb: Label, lc: Label, at: U32, next: Label, rest: Lines): Lines {
    Cons(Line(la, Ld(4, at)), Cons(Line(lb, And(0xff000000)), Cons(Line(lc, Jeq(0x7f000000, Drop, next)), rest)))
  }

  lemma {:induction false} HeaderTestLines(la: Label, lb: Label, lc: Label, src: U32, ld: Label, le: Label, lf: Label,
                                           dst: U32, lg: Label, proto: U32, rest: Lines)
    ensures HeaderTests(la, lb, lc, src, ld, le, lf, dst, lg, proto, rest)
         == AddressTest(la, lb, lc, src, ld, AddressTest(ld, le, lf, dst, lg, Cons(Line(lg, Ld(1, proto)), rest)))
  {
  }

  lemma {:induction false} AddressTestSkipped(la: Label, lb: Label, lc: Label, at: U32, next: Label, rest: Lines,
                                              name: Label)
    requires name != la && name != lb && name != lc
    ensures Offset(AddressTest(la, lb, lc, at, next, rest), name) == 3 + Offset(rest, name)
    ensures From(AddressTest(la, lb, lc, at, next, rest), name) == From(rest, name)
  {
    hide Offset, From;
    NextTest(Line(la, Ld(4, at)), Line(lb, And(0xff000000)), Line(lc, Jeq(0x7f000000, Drop, next)), rest, name);
  }

  function HeaderTestsCode(src: U32, dst: U32, proto: U32, drop: nat, rest: Prog): Prog {
    Op(Instr(LDW, 0, 0, src), Op(Instr(AND, 0, 0, 0xff000000), Op(Instr(JEQ, 4 + drop, 0, 0x7f000000),
    Op(Instr(LDW, 0, 0, dst), Op(Instr(AND, 0, 0, 0xff000000), Op(Instr(JEQ, 1 + drop, 0, 0x7f000000),
    Op(Instr(LDB, 0, 0, proto), rest)))))))
  }

  lemma {:induction false} EtherTopAssembled(header: Lines)
    requires header.Cons? && header.head.name == L25
    ensures Assemble(Cons(Line(L15, Ld(2, 12)), Cons(Line(L20, Jeq(0x0800, L25, Drop)), header)))
         == Op(Instr(LDH, 0, 0, 12), Op(Instr(JEQ, 0, Offset(header, Drop), 0x0800), Assemble(header)))
  {
  }

  lemma {:induction false} TunTopAssembled(header: Lines)
    requires header.Cons? && header.head.name == L3
    ensures Assemble(Cons(Line(L0, Ld(1, 0)), Cons(Line(L1, And(0xf0)), Cons(Line(L2, Jeq(0x40, L3, L15)), header))))
         == Op(Instr(LDB, 0, 0, 0),
             Op(Instr(AND, 0, 0, 0xf0), Op(Instr(JEQ, 0, Offset(header, L15), 0x40), Assemble(header))))
  {
    assert Assemble(Cons(Line(L2, Jeq(0x40, L3, L15)), header)) ==
        Op(Instr(JEQ, 0, Offset(header, L15), 0x40), Assemble(header));
  }

  lemma {:induction false} EtherHeaderAssembled(rest: Lines, name: Label)
    requires name == Pass || name == Drop
    ensures EtherHeader(rest).Cons? && EtherHeader(rest).head.name == L25
    ensures Assemble(EtherHeader(rest)) == HeaderTestsCode(26, 30, 23, Offset(rest, Drop), Assemble(rest))
    ensures Offset(EtherHeader(rest), name) == 7 + Offset(rest, name)
    ensures From(EtherHeader(rest), name) == From(rest, name)
  {
    HeaderTestsAssembled(L25, L30, L35, 26, L40, L45, L50, 30, L55, 23, rest);
    HeaderTestsSkipped(L25, L30, L35, 26, L40, L45, L50, 30, L55, 23, rest, name);
  }

  lemma {:induction false} TunHeaderAssembled(rest: Lines)
    ensures TunHeader(rest).Cons? && TunHeader(rest).head.name == L3
    ensures Assemble(TunHeader(rest)) == HeaderTestsCode(12, 16, 9, Offset(rest, Drop), Assemble(rest))
    ensures Offset(TunHeader(rest), L15) == 7 + Offset(rest, L15) && From(TunHeader(rest), L15) == From(rest, L15)
  {
    HeaderTestsAssembled(L3, L4, L5, 12, L6, L7, L8, 16, L9, 9, rest);
    HeaderTestsSkipped(L3, L4, L5, 12, L6, L7, L8, 16, L9, 9, rest, L15);
  }

  lemma {:induction false} EtherTestsAssembled(rest: Lines)
    ensures Assemble(EtherTests(rest)) == EtherTestsCode(Offset(rest, Drop), Assemble(rest))
  {
    hide HeaderTests;
    EtherHeaderAssembled(rest, Drop);
    EtherTopAssembled(EtherHeader(rest));
  }

  lemma {:induction false} EtherTestsOffset(rest: Lines, name: Label)
    requires name == Pass || name == Drop
    ensures Offset(EtherTests(rest), name) == 9 + Offset(rest, name) && Offset(EtherTests(rest), L15) == 0
  {
    var header := EtherHeader(rest);
    EtherHeaderAssembled(rest, name);
    NextLine(Line(L20, Jeq(0x0800, L25, Drop)), header, name);
    NextLine(Line(L15, Ld(2, 12)), Cons(Line(L20, Jeq(0x0800, L25, Drop)), header), name);
  }

  function EtherTestsCode(drop: nat, rest: Prog): Prog {
    Op(Instr(LDH, 0, 0, 12), Op(Instr(JEQ, 0, 7 + drop, 0x0800), HeaderTestsCode(26, 30, 23, drop, rest)))
  }

  lemma {:induction false} TunTestsAssembled(rest: Lines)
    ensures Assemble(TunTests(rest)) == TunTestsCode(Offset(rest, L15), Offset(rest, Drop), Assemble(rest))
  {
    hide HeaderTests;
    TunHeaderAssembled(rest);
    TunTopAssembled(TunHeader(rest));
  }

  function TunTestsCode(ether: nat, drop: nat, rest: Prog): Prog {
    Op(Instr(LDB, 0, 0, 0), Op(Instr(AND, 0, 0, 0xf0), Op(Instr(JEQ, 0, 7 + ether, 0x40),
    HeaderTestsCode(12, 16, 9, drop, rest))))
  }

  function TunProtoCode(d: Define, pass: nat, rest: Prog): Prog {
    match d
    case NoDefine => Op(Instr(JEQ, 1 + pass, 0, P_TCP), Op(Instr(JEQ, pass, 0, P_UDP), rest))
    case DefineTcp => Op(Instr(JEQ, pass, 0, P_TCP), rest)
    case DefineUdp => Op(Instr(JEQ, pass, 0, P_UDP), rest)
  }

  lemma {:induction false} TunProtoAssembled(d: Define, rest: Lines, pass: nat, drop: nat)
    requires Offset(rest, L15) == 0 && Offset(rest, Pass) == pass && Offset(rest, Drop) == drop
    ensures Offset(TunProto(d, rest), L15) == if d.NoDefine? then 2 else 1
    ensures Offset(TunProto(d, rest), Drop) == drop + if d.NoDefine? then 2 else 1
    ensures Assemble(TunProto(d, rest)) == TunProtoCode(d, pass, Assemble(rest))
  {
  }

  function EtherProtoCode(d: Define, rest: Prog): Prog {
    match d
    case NoDefine => Op(Instr(JEQ, 1, 0, P_TCP), Op(Instr(JEQ, 0, 1, P_UDP), rest))
    case DefineTcp => Op(Instr(JEQ, 0, 1, P_TCP), rest)
    case DefineUdp => Op(Instr(JEQ, 0, 1, P_UDP), rest)
  }

  lemma {:induction false} EtherProtoAssembled(d: Define)
    ensures Offset(EtherProto(d, Exits()), Pass) == if d.NoDefine? then 2 else 1
    ensures Offset(EtherProto(d, Exits()), Drop) == if d.NoDefine? then 3 else 2
    ensures Assemble(EtherProto(d, Exits())) == EtherProtoCode(d, ExitsCode())
  {
    assert Offset(Exits(), Pass) == 0 && Offset(Exits(), Drop) == 1 && Assemble(Exits()) == ExitsCode();
  }

  function ExitsCode(): Prog {
    Op(Instr(RET, 0, 0, 262144), Op(Instr(RET, 0, 0, 0), Stop))
  }

  lemma {:induction false} ArrayPieces(d: Define)
    ensures var n := if d.NoDefine? then 1 else 0;
            Code(d) == TunTestsCode(1 + n, 12 + 2 * n,
                         TunProtoCode(d, 10 + n, EtherTestsCode(2 + n, EtherProtoCode(d, ExitsCode()))))
  {
  }

  lemma {:induction false} TestsAssembled(d: Define, lines: Lines, proto: Lines, code: Prog, n: nat, prog: Prog)
    requires Assemble(proto) == code
    requires n == (if d.NoDefine? then 1 else 0) && lines == TunTests(TunProto(d, EtherTests(proto)))
    requires Offset(proto, Pass) == 1 + n && Offset(proto, Drop) == 2 + n
    requires prog == TunTestsCode(1 + n, 12 + 2 * n, TunProtoCode(d, 10 + n, EtherTestsCode(2 + n, code)))
    ensures Assemble(lines) == prog
  {
    hide Offset, Assemble, EtherTests, TunTests, TunProto;
    EtherTestsAssembled(proto);
    EtherTestsOffset(proto, Pass);
    EtherTestsOffset(proto, Drop);
    TunProtoAssembled(d, EtherTests(proto), 10 + n, 11 + n);
    TunTestsAssembled(TunProto(d, EtherTests(proto)));
  }

  // Each array of filter_get is its define's source, instruction by instruction.
  lemma {:induction false} ArraysAreAssembled(d: Define)
    ensures Assemble(Source(d)) == Code(d)
  {
    hide Offset, Assemble, EtherTests, TunTests, TunProto, EtherProto, Code, TunTestsCode, EtherTestsCode,
        TunProtoCode, EtherProtoCode;
    EtherProtoAssembled(d);
    ArrayPieces(d);
    var n := if d.NoDefine? then 1 else 0;
    TestsAssembled(d, Source(d), EtherProto(d, Exits()), EtherProtoCode(d, ExitsCode()), n, Code(d));
  }

  // For every packet of any length the array and the labelled source give the same verdict.
  lemma {:induction false} FilterMatchesSource(d: Define, p: Packet)
    ensures Exec(Code(d), 0, p) == Interpret(Source(d), 0, p)
  {
    ArraysAreAssembled(d);
    AssembleCorrect(Source(d), 0, p);
  }

  // ---- What the filter accepts ---------------------------------------------------------------------

  const KEEP: U32 := 0x40000

  // The verdict of the array for a define.
  function Run(d: Define, p: Packet): Verdict {
    Exec(Code(d), 0, p)
  }

  predicate Wanted(d: Define, protocol: U8) {
    (protocol == P_TCP && !d.DefineUdp?) || (protocol == P_UDP && !d.DefineTcp?)
  }

  // Long enough for both addresses, and neither is in 127.0.0.0/8.
  predicate NotLoopback(p: Packet, src: nat, dst: nat) {
    src + 4 <= |p| && p[src] != 127 && dst + 4 <= |p| && p[dst] != 127
  }

  // An IPv4 packet behind an Ethernet header.
  predicate EtherAccepts(d: Define, p: Packet) {
    |p| >= 24 && p[12] == 8 && p[13] == 0 && NotLoopback(p, 26, 30) && Wanted(d, p[23])
  }

  // What starts like IPv4 is tried as a packet without link header first; if its protocol is not
  // wanted, or if it does not start like IPv4, it is tried as Ethernet.
  predicate Accepts(d: Define, p: Packet) {
    if |p| == 0 then false
    else if p[0] / 16 == 4 then NotLoopback(p, 12, 16) && (Wanted(d, p[9]) || EtherAccepts(d, p))
    else EtherAccepts(d, p)
  }

  lemma {:induction false} Pow2Of24()
    ensures Bits.Pow2(8) == 256 && Bits.Pow2(24) == 0x100_0000
  {
    assert Bits.Pow2(4) == 16;
    assert Bits.Pow2(8) == 256;
    assert Bits.Pow2(12) == 0x1000;
    assert Bits.Pow2(16) == 0x1_0000;
    assert Bits.Pow2(20) == 0x10_0000;
  }

  lemma {:induction false} HighByteMask(w: U32)
    ensures Bits.And(w, 0xff00_0000) == w / 0x100_0000 * 0x100_0000
  {
    Pow2Of24();
    Bits.MaskField(w, 24, 8);
    Bits.ShlIsMul(0xff, 24);
  }

  lemma {:induction false} LowNibbleMask(b: U8)
    ensures Bits.And(b, 0xf0) == b / 16 * 16
  {
    assert Bits.Pow2(4) == 16;
    Bits.MaskField(b, 4, 4);
    Bits.ShlIsMul(0xf, 4);
  }

  lemma {:induction false} LoopbackMask(p: Packet, at: nat)
    requires at + 4 <= |p|
    ensures Bits.And(Load(p, at, 4).value, 0xff00_0000) == 0x7f00_0000 <==> p[at] == 127
  {
    var w := Load(p, at, 4).value;
    HighByteMask(w);
    assert w / 0x100_0000 == p[at];
  }

  // One address test.  The value it leaves in the accumulator is overwritten by the next load.
  lemma {:induction false} AddressMeaning(la: Label, lb: Label, lc: Label, at: U32, rest: Lines, a: nat, p: Packet)
    requires rest.Cons? && rest.head.stmt.Ld? && From(rest, Drop) == Cons(Line(Drop, Ret(0)), Nil)
    ensures Interpret(Cons(Line(la, Ld(4, at)), Cons(Line(lb, And(0xff000000)),
                      Cons(Line(lc, Jeq(0x7f000000, Drop, rest.head.name)), rest))), a, p)
         == if at + 4 <= |p| && p[at] != 127 then Interpret(rest, 0, p) else 0
  {
    var rc := Cons(Line(lc, Jeq(0x7f000000, Drop, rest.head.name)), rest);
    if at + 4 <= |p| {
      LoopbackMask(p, at);
      var w := Bits.And(Load(p, at, 4).value, 0xff00_0000);
      assert Interpret(From(rest, Drop), w, p) == 0;
      assert Interpret(rc, w, p) == if p[at] == 127 then 0 else Interpret(rest, w, p);
      assert Interpret(rest, w, p) == Interpret(rest, 0, p);
    }
  }

  lemma {:induction false} HeaderMeaning(la: Label, lb: Label, lc: Label, src: U32, ld: Label, le: Label, lf: Label,
                                         dst: U32, lg: Label, proto: U32, rest: Lines, a: nat, p: Packet)
    requires !ld.Drop? && !le.Drop? && !lf.Drop? && !lg.Drop? && From(rest, Drop) == Cons(Line(Drop, Ret(0)), Nil)
    requires proto < src + 4
    ensures Interpret(HeaderTests(la, lb, lc, src, ld, le, lf, dst, lg, proto, rest), a, p)
         == if NotLoopback(p, src, dst) then Interpret(rest, p[proto], p) else 0
  {
    var rg := Cons(Line(lg, Ld(1, proto)), rest);
    var rf := Cons(Line(lf, Jeq(0x7f000000, Drop, lg)), rg);
    var rd := Cons(Line(ld, Ld(4, dst)), Cons(Line(le, And(0xff000000)), rf));
    assert From(rg, Drop) == From(rest, Drop);
    assert From(rd, Drop) == From(rf, Drop) == From(rest, Drop);
    AddressMeaning(la, lb, lc, src, rd, a, p);
    AddressMeaning(ld, le, lf, dst, rg, 0, p);
  }

  lemma {:induction false} EtherTopMeaning(header: Lines, a: nat, p: Packet)
    requires header.Cons? && header.head.name == L25 && From(header, Drop) == Cons(Line(Drop, Ret(0)), Nil)
    ensures Interpret(Cons(Line(L15, Ld(2, 12)), Cons(Line(L20, Jeq(0x0800, L25, Drop)), header)), a, p)
         == if |p| >= 14 && p[12] == 8 && p[13] == 0 then Interpret(header, 0x0800, p) else 0
  {
    if |p| >= 14 {
      var v := Load(p, 12, 2).value;
      assert v == 0x0800 <==> p[12] == 8 && p[13] == 0;
      assert Interpret(From(header, Drop), v, p) == 0;
      assert Interpret(Cons(Line(L20, Jeq(0x0800, L25, Drop)), header), v, p) ==
             if v == 0x0800 then Interpret(header, v, p) else 0;
    }
  }

  lemma {:induction false} EtherMeaning(d: Define, a: nat, p: Packet)
    ensures Interpret(EtherTests(EtherProto(d, Exits())), a, p) == if EtherAccepts(d, p) then KEEP else 0
    ensures From(EtherTests(EtherProto(d, Exits())), Pass) == Exits()
    ensures From(EtherTests(EtherProto(d, Exits())), Drop) == Cons(Line(Drop, Ret(0)), Nil)
  {
    var proto := EtherProto(d, Exits());
    var header := EtherHeader(proto);
    DropLine(d);
    EtherHeaderAssembled(proto, Drop);
    EtherHeaderAssembled(proto, Pass);
    assert From(Cons(Line(L20, Jeq(0x0800, L25, Drop)), header), Pass) == From(header, Pass);
    assert From(Cons(Line(L20, Jeq(0x0800, L25, Drop)), header), Drop) == From(header, Drop);
    EtherTopMeaning(header, a, p);
    HeaderMeaning(L25, L30, L35, 26, L40, L45, L50, 30, L55, 23, proto, 0x0800, p);
    if NotLoopback(p, 26, 30) {
      EtherProtoMeaning(d, p[23], p);
    }
  }

  lemma {:induction false} DropLine(d: Define)
    ensures From(EtherProto(d, Exits()), Drop) == Cons(Line(Drop, Ret(0)), Nil)
    ensures From(EtherProto(d, Exits()), Pass) == Exits()
  {
    assert From(Exits(), Drop) == Cons(Line(Drop, Ret(0)), Nil);
  }

  lemma {:induction false} EtherProtoMeaning(d: Define, a: U8, p: Packet)
    ensures Interpret(EtherProto(d, Exits()), a, p) == if Wanted(d, a) then KEEP else 0
  {
    assert From(Exits(), Drop) == Cons(Line(Drop, Ret(0)), Nil);
    assert Interpret(Exits(), a, p) == KEEP && Interpret(Cons(Line(Drop, Ret(0)), Nil), a, p) == 0;
  }

  // The first protocol test passes the packet or goes on with the Ethernet tests.
  lemma {:induction false} TunProtoMeaning(d: Define, ether: Lines, a: U8, p: Packet)
    requires ether.Cons? && ether.head.name == L15 && From(ether, Pass) == Exits()
    ensures Interpret(TunProto(d, ether), a, p) == if Wanted(d, a) then KEEP else Interpret(ether, a, p)
    ensures From(TunProto(d, ether), L15) == ether && From(TunProto(d, ether), Drop) == From(ether, Drop)
  {
    assert Interpret(Exits(), a, p) == KEEP;
    var udp := Cons(Line(L11, Jeq(P_UDP, Pass, L15)), ether);
    assert From(udp, Drop) == From(ether, Drop) && From(udp, L15) == ether;
  }

  lemma {:induction false} TunTopMeaning(header: Lines, p: Packet)
    requires header.Cons? && header.head.name == L3
    ensures Interpret(Cons(Line(L0, Ld(1, 0)), Cons(Line(L1, And(0xf0)),
                      Cons(Line(L2, Jeq(0x40, L3, L15)), header))), 0, p)
         == if |p| == 0 then 0
            else if p[0] / 16 == 4 then Interpret(header, Bits.And(p[0], 0xf0), p)
            else Interpret(From(header, L15), Bits.And(p[0], 0xf0), p)
  {
    if |p| > 0 {
      LowNibbleMask(p[0]);
      var r := Cons(Line(L2, Jeq(0x40, L3, L15)), header);
      var v := Bits.And(p[0], 0xf0);
      assert Interpret(r, v, p) == if v == 0x40 then Interpret(header, v, p) else Interpret(From(header, L15), v, p);
    }
  }

  // For every packet of any length, the array for a define keeps exactly the packets it is meant to keep.
  lemma {:induction false} FilterMeaning(d: Define, p: Packet)
    ensures Run(d, p) == if Accepts(d, p) then KEEP else 0
  {
    FilterMatchesSource(d, p);
    var ether := EtherTests(EtherProto(d, Exits()));
    EtherMeaning(d, if |p| > 0 then Bits.And(p[0], 0xf0) else 0, p);
    if NotLoopback(p, 12, 16) {
      EtherMeaning(d, p[9], p);
    }
    TunProtoMeaning(d, ether, if NotLoopback(p, 12, 16) then p[9] else 0, p);
    TunMeaning(d, ether, TunProto(d, ether), p);
  }

  // The tests for an interface without link header, in front of whatever handles the rest.
  lemma {:induction false} TunMeaning(d: Define, ether: Lines, proto: Lines, p: Packet)
    requires From(proto, L15) == ether && From(proto, Drop) == Cons(Line(Drop, Ret(0)), Nil)
    requires |p| > 0 ==> Interpret(ether, Bits.And(p[0], 0xf0), p) == if EtherAccepts(d, p) then KEEP else 0
    requires NotLoopback(p, 12, 16) ==>
               Interpret(proto, p[9], p) == if Wanted(d, p[9]) || EtherAccepts(d, p) then KEEP else 0
    ensures Interpret(TunTests(proto), 0, p) == if Accepts(d, p) then KEEP else 0
  {
    var header := TunHeader(proto);
    TunTopMeaning(header, p);
    TunHeaderAssembled(proto);
    if |p| > 0 {
      HeaderMeaning(L3, L4, L5, 12, L6, L7, L8, 16, L9, 9, proto, Bits.And(p[0], 0xf0), p);
    }
  }

  // The array for TCP and UDP keeps exactly what the TCP array or the UDP array keeps.
  lemma {:induction false} UnionOfFilters(p: Packet)
    ensures Run(NoDefine, p) != 0 <==> Run(DefineTcp, p) != 0 || Run(DefineUdp, p) != 0
    ensures Run(NoDefine, p) in {0, KEEP}
  {
    FilterMeaning(NoDefine, p);
    FilterMeaning(DefineTcp, p);
    FilterMeaning(DefineUdp, p);
  }

  function DefineOf(flagsProto: int): Define {
    if flagsProto == 1 then DefineTcp else if flagsProto == 2 then DefineUdp else NoDefine
  }

  // filter_get knows TCP, UDP and both; the filter it returns keeps exactly the packets of the
  // requested protocols.
  lemma {:induction false} FilterByFlags(flagsProto: int, p: Packet)
    ensures FilterGet(flagsProto).Some? <==> flagsProto in {1, 2, 3}
    ensures FilterGet(flagsProto).Some? ==>
              Exec(FilterGet(flagsProto).value, 0, p) == if Accepts(DefineOf(flagsProto), p) then KEEP else 0
  {
    hide Exec, Accepts;
    FilterMeaning(DefineOf(flagsProto), p);
  }
}
