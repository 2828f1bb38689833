/** The collection of connections: what it leaves does not depend on the order in which the table is visited. */
module LifecycleSweeps {
  import opened Wrappers
  import opened Lifecycle

  // Every live connection has exactly two entries, by its inode and by its tuple.
  ghost predicate Indexed(w: World) {
    && (forall c | c in w.conns :: c < w.next && InodeEntry(w, c) in w.table && TupleEntry(w, c) in w.table)
    && (forall e | e in w.table :: e.conn in w.conns && (e == InodeEntry(w, e.conn) || e == TupleEntry(w, e.conn)))
  }

  // Between updates refs_active is 3 (marked by the last update) or 1.
  ghost predicate Counted(w: World) {
    forall c | c in w.conns :: w.conns[c].refsActive in {1, 3} && w.conns[c].refsExit == 0
  }

  ghost predicate InodesDiffer(w: World) {
    forall c, d | c in w.conns && d in w.conns && w.conns[c].inode == w.conns[d].inode :: c == d
  }

  ghost predicate ConnInv(w: World) {
    !w.fault && Indexed(w) && Counted(w) && InodesDiffer(w)
  }

  // How often a sweep has visited connection c, once it has visited the entries in `done`.
  function Visits(w: World, c: Ptr, done: set<Entry>): nat
    requires c in w.conns
  {
    One(InodeEntry(w, c) in done) + One(TupleEntry(w, c) in done)
  }

  lemma VisitsGrow(w: World, done: set<Entry>, e: Entry)
    requires Indexed(w) && e in w.table && e !in done
    ensures e.conn in w.conns && Visits(w, e.conn, done) <= 1
    ensures forall c | c in w.conns :: Visits(w, c, done + {e}) == Visits(w, c, done) + One(c == e.conn)
  {
  }

  function RefsAfter(w: World, c: Ptr, done: set<Entry>): int
    requires c in w.conns
  {
    w.conns[c].refsActive - Visits(w, c, done)
  }

  predicate Gone(w: World, c: Ptr, done: set<Entry>)
    requires c in w.conns
  {
    w.conns[c].refsActive == 1 && Visits(w, c, done) == 2
  }

  // What a sweep that has visited the entries in `done` has made of w, whatever the order.
  ghost predicate ConnsLeft(w: World, done: set<Entry>, conns: map<Ptr, Conn>) {
    && (forall c :: c in conns <==> c in w.conns && !Gone(w, c, done))
    && (forall c | c in conns ::
        RefsAfter(w, c, done) >= 0 && conns[c] == w.conns[c].(refsActive := RefsAfter(w, c, done)))
  }

  ghost predicate EntriesLeft(w: World, done: set<Entry>, table: set<Entry>) {
    forall e :: e in table <==> e in w.table && !(e in done && e.conn in w.conns && w.conns[e.conn].refsActive == 1)
  }

  ghost predicate Partial(w: World, done: set<Entry>, v: World) {
    v == w.(conns := v.conns, table := v.table) && ConnsLeft(w, done, v.conns) && EntriesLeft(w, done, v.table)
  }

  // The entry e moves the count of its own connection, and nothing else.
  lemma OneVisit(w: World, done: set<Entry>, e: Entry)
    requires ConnInv(w) && e in w.table && e !in done
    ensures e.conn in w.conns && !Gone(w, e.conn, done) && w.conns[e.conn].refsActive in {1, 3}
    ensures 0 <= RefsAfter(w, e.conn, done) <= 3
    ensures RefsAfter(w, e.conn, done + {e}) == RefsAfter(w, e.conn, done) - 1
    ensures Gone(w, e.conn, done + {e}) <==> RefsAfter(w, e.conn, done) == 0
    ensures RefsAfter(w, e.conn, done) in {0, 1} <==> w.conns[e.conn].refsActive == 1
    ensures forall c | c in w.conns && c != e.conn :: RefsAfter(w, c, done + {e}) == RefsAfter(w, c, done)
    ensures forall c | c in w.conns && c != e.conn :: Gone(w, c, done + {e}) == Gone(w, c, done)
  {
    VisitsGrow(w, done, e);
    hide Visits, Indexed, InodesDiffer;
  }

  // A visit of e when the count of its connection is n.
  function Visited(v: World, e: Entry, n: nat): World
    requires e.conn in v.conns
  {
    if n == 0 then v.(conns := v.conns - {e.conn}, table := v.table - {e})
    else
      var counted := v.conns[e.conn := v.conns[e.conn].(refsActive := n - 1)];
      v.(conns := counted, table := if n == 1 then v.table - {e} else v.table)
  }

  // A sweep comes to an entry while its connection is there, with the visits so far taken off its count.
  lemma StillCounted(w: World, done: set<Entry>, e: Entry, v: World)
    requires ConnInv(w) && e in w.table && e !in done && Partial(w, done, v)
    ensures e.conn in w.conns && e.conn in v.conns
    ensures 0 <= RefsAfter(w, e.conn, done) == v.conns[e.conn].refsActive <= 3
  {
    OneVisit(w, done, e);
    hide Gone, RefsAfter, ConnInv, EntriesLeft;
  }

  lemma SweepVisits(w: World, done: set<Entry>, e: Entry, v: World)
    requires ConnInv(w) && e in w.table && e !in done && Partial(w, done, v)
    ensures e.conn in v.conns && 0 <= RefsAfter(w, e.conn, done) <= 3
    ensures SweepEntry(v, e) == Visited(v, e, RefsAfter(w, e.conn, done))
  {
    hide RefsAfter, ConnInv, Partial;
    StillCounted(w, done, e, v);
  }

  lemma EntriesStep(w: World, done: set<Entry>, e: Entry, v: World)
    requires ConnInv(w) && e in w.table && e !in done && Partial(w, done, v)
    ensures EntriesLeft(w, done + {e}, SweepEntry(v, e).table)
  {
    SweepVisits(w, done, e, v);
    OneVisit(w, done, e);
    hide Gone, RefsAfter, ConnInv, SweepEntry, ConnsLeft;
  }

  // The visit of e, seen from one connection.
  lemma ConnStep(w: World, done: set<Entry>, e: Entry, v: World, c: Ptr)
    requires ConnInv(w) && e in w.table && e !in done && Partial(w, done, v)
    ensures c in SweepEntry(v, e).conns <==> c in w.conns && !Gone(w, c, done + {e})
    ensures c in SweepEntry(v, e).conns ==> RefsAfter(w, c, done + {e}) >= 0
    ensures c in SweepEntry(v, e).conns ==>
              SweepEntry(v, e).conns[c] == w.conns[c].(refsActive := RefsAfter(w, c, done + {e}))
  {
    SweepVisits(w, done, e, v);
    OneVisit(w, done, e);
    hide Gone, RefsAfter, ConnInv, SweepEntry, EntriesLeft;
    if c == e.conn {
      assert v.conns[c] == w.conns[c].(refsActive := RefsAfter(w, c, done));
      hide ConnsLeft, Partial;
    } else {
      assert c in v.conns <==> c in SweepEntry(v, e).conns;
    }
  }

  lemma ConnsStep(w: World, done: set<Entry>, e: Entry, v: World)
    requires ConnInv(w) && e in w.table && e !in done && Partial(w, done, v)
    ensures ConnsLeft(w, done + {e}, SweepEntry(v, e).conns)
  {
    hide Gone, RefsAfter, ConnInv, SweepEntry, EntriesLeft;
    forall c
      ensures c in SweepEntry(v, e).conns <==> c in w.conns && !Gone(w, c, done + {e})
      ensures c in SweepEntry(v, e).conns ==> RefsAfter(w, c, done + {e}) >= 0
      ensures c in SweepEntry(v, e).conns ==>
                SweepEntry(v, e).conns[c] == w.conns[c].(refsActive := RefsAfter(w, c, done + {e}))
    {
      ConnStep(w, done, e, v, c);
    }
  }

  lemma PartialStep(w: World, done: set<Entry>, e: Entry, v: World)
    requires ConnInv(w) && e in w.table && e !in done && Partial(w, done, v)
    ensures Partial(w, done + {e}, SweepEntry(v, e))
  {
    hide ConnsLeft, EntriesLeft, ConnInv;
    SweepVisits(w, done, e, v);
    EntriesStep(w, done, e, v);
    ConnsStep(w, done, e, v);
    hide SweepEntry, RefsAfter;
  }

  lemma {:induction false} SweepPrefix(w: World, order: seq<Entry>)
    requires ConnInv(w) && (forall e | e in order :: e in w.table)
    requires forall i, j | 0 <= i < j < |order| :: order[i] != order[j]
    ensures Partial(w, SetOf(order), SweepConns(w, order))
  {
    hide ConnInv, SweepEntry;
    if order == [] {
      NothingVisited(w);
    } else {
      var before, e := order[..|order| - 1], order[|order| - 1];
      assert order == before + [e];
      hide Partial;
      SweepPrefix(w, before);
      assert e !in before;
      PartialStep(w, SetOf(before), e, SweepConns(w, before));
      assert SetOf(order) == SetOf(before) + {e};
    }
  }

  lemma NothingVisited(w: World)
    requires ConnInv(w)
    ensures Partial(w, {}, w) && SetOf<Entry>([]) == {}
  {
    hide Indexed;
  }

  // What a collection leaves: the connections that were marked, with refs_active 1.
  ghost function Collected(w: World): World {
    w.(conns := map c | c in w.conns && w.conns[c].refsActive == 3 :: w.conns[c].(refsActive := 1),
       table := set e | e in w.table && e.conn in w.conns && w.conns[e.conn].refsActive == 3)
  }

  lemma AllVisited(w: World, v: World)
    requires ConnInv(w) && Partial(w, w.table, v)
    ensures v == Collected(w)
  {
    assert v.conns == Collected(w).conns by {
      assert forall c | c in w.conns :: Visits(w, c, w.table) == 2 && w.conns[c].refsActive in {1, 3};
      hide Visits, Counted, Indexed, InodesDiffer, EntriesLeft;
    }
    assert v.table == Collected(w).table by {
      assert forall e | e in w.table :: e.conn in w.conns && w.conns[e.conn].refsActive in {1, 3};
      hide ConnsLeft, Indexed, Counted, InodesDiffer;
    }
    hide ConnsLeft, EntriesLeft, ConnInv;
  }

  lemma CollectedKeepsInv(w: World)
    requires ConnInv(w)
    ensures ConnInv(Collected(w))
  {
    var v := Collected(w);
    forall c | c in v.conns
      ensures c < v.next && InodeEntry(v, c) in v.table && TupleEntry(v, c) in v.table
    {
      assert InodeEntry(v, c) == InodeEntry(w, c) && TupleEntry(v, c) == TupleEntry(w, c);
    }
  }

  // A collection uses no freed memory, frees every unmarked connection once (freeing twice would be a
  // fault), and gives the same result in every order.
  lemma CollectionIsExact(w: World, order: seq<Entry>)
    requires ConnInv(w) && Enumerates(order, w.table)
    ensures SweepConns(w, order) == Collected(w)
    ensures ConnInv(Collected(w))
  {
    hide ConnInv, Partial, Collected;
    SweepPrefix(w, order);
    assert SetOf(order) == w.table;
    AllVisited(w, SweepConns(w, order));
    CollectedKeepsInv(w);
  }

  // Collecting twice with no mark in between frees everything; a mark in between saves the connection.
  lemma TwoCollections(w: World, order1: seq<Entry>, order2: seq<Entry>)
    requires ConnInv(w) && Enumerates(order1, w.table) && Enumerates(order2, Collected(w).table)
    ensures SweepConns(SweepConns(w, order1), order2).conns == map[]
    ensures SweepConns(SweepConns(w, order1), order2).table == {}
  {
    hide ConnInv, Enumerates;
    CollectionIsExact(w, order1);
    CollectionIsExact(Collected(w), order2);
  }

  predicate Marks(row: Row) {
    row.Row? && row.state != TCP_TIME_WAIT && row.state != TCP_LISTEN
  }

  lemma MarkSaves(w: World, order1: seq<Entry>, row: Row, order2: seq<Entry>, c: Ptr)
    requires ConnInv(w) && Enumerates(order1, w.table)
    requires c in w.conns && w.conns[c].refsActive == 3 && Marks(row) && row.inode == w.conns[c].inode
    requires Enumerates(order2, ReadRow(Collected(w), row).table)
    ensures c in SweepConns(ReadRow(SweepConns(w, order1), row), order2).conns
  {
    hide ConnInv, Enumerates;
    CollectionIsExact(w, order1);
    var v := Collected(w);
    FindByInode(v, row.inode, c);
    RowKeepsInv(v, row);
    hide FindInode;
    CollectionIsExact(ReadRow(v, row), order2);
  }

  // ---- Reading rows ---------------------------------------------------------------------------------------

  // A lookup by inode finds the one live connection with the inode, if there is one.
  lemma FindByInode(w: World, inode: nat, c: Ptr)
    requires ConnInv(w) && c in w.conns && w.conns[c].inode == inode
    ensures FindInode(w, inode) == Some(c)
  {
    assert InodeEntry(w, c) in w.table;
  }

  lemma FindIsLive(w: World, inode: nat)
    requires ConnInv(w)
    ensures FindInode(w, inode).Some? ==>
        FindInode(w, inode).value in w.conns && w.conns[FindInode(w, inode).value].inode == inode
    ensures FindInode(w, inode).None? ==> forall c | c in w.conns :: w.conns[c].inode != inode
  {
    if FindInode(w, inode).None? {
      forall c | c in w.conns
        ensures w.conns[c].inode != inode
      {
        assert InodeEntry(w, c) in w.table;
      }
    }
  }

  // What reading does to one connection that is there already: it may mark it.
  predicate MayMark(c: Conn, d: Conn) {
    (d == c || d == c.(refsActive := 3))
  }

  // What reading does to the connections that are there already, and what the new ones look like.
  ghost predicate KeepsConns(w: World, v: World) {
    && (forall c | c in w.conns :: c in v.conns && MayMark(w.conns[c], v.conns[c]))
    && (forall c | c in v.conns && c !in w.conns ::
        && c >= w.next && v.conns[c].proc == None && v.conns[c].refsActive == 3
        && v.conns[c].stat == NO_TRAFFIC && v.conns[c].ifIndex == 0)
    && w.next <= v.next && v.procs == w.procs && v.procTable == w.procTable && v.listed == w.listed
  }

  lemma KeepsConnsTwice(u: World, v: World, w: World)
    requires KeepsConns(u, v) && KeepsConns(v, w)
    ensures KeepsConns(u, w)
  {
  }

  // The same connections under the same inodes and tuples, whatever else has changed about them.
  ghost predicate SameIdentities(w: World, v: World) {
    && v.table == w.table && w.next <= v.next && v.conns.Keys == w.conns.Keys
    && forall c | c in w.conns :: v.conns[c].inode == w.conns[c].inode && v.conns[c].tuple == w.conns[c].tuple
  }

  lemma IdentitiesKeep(w: World, v: World)
    requires SameIdentities(w, v) && Indexed(w) && InodesDiffer(w)
    ensures Indexed(v) && InodesDiffer(v)
  {
    assert InodesDiffer(v) by {
      hide Indexed;
    }
    hide InodesDiffer;
    assert forall c | c in w.conns :: InodeEntry(v, c) == InodeEntry(w, c) && TupleEntry(v, c) == TupleEntry(w, c);
  }

  ghost function Mark(w: World, c: Ptr): World
    requires c in w.conns
  {
    w.(conns := w.conns[c := w.conns[c].(refsActive := 3)])
  }

  lemma MarkKeepsInv(w: World, c: Ptr)
    requires ConnInv(w) && c in w.conns
    ensures ConnInv(Mark(w, c)) && KeepsConns(w, Mark(w, c))
  {
    hide Indexed, InodesDiffer;
    assert SameIdentities(w, Mark(w, c));
    IdentitiesKeep(w, Mark(w, c));
    hide SameIdentities;
  }

  ghost function Create(w: World, c: Conn): World {
    w.(conns := w.conns[w.next := c], table := w.table + {ByInode(c.inode, w.next), ByTuple(c.tuple, w.next)},
       next := w.next + 1)
  }

  lemma CreateIndexes(w: World, c: Conn)
    requires Indexed(w)
    ensures Indexed(Create(w, c)) && w.next !in w.conns
  {
    var v := Create(w, c);
    assert forall d | d in w.conns :: InodeEntry(v, d) == InodeEntry(w, d) && TupleEntry(v, d) == TupleEntry(w, d);
  }

  lemma CreateDiffers(w: World, c: Conn)
    requires InodesDiffer(w) && forall d | d in w.conns :: w.conns[d].inode != c.inode
    ensures InodesDiffer(Create(w, c))
  {
    var v := Create(w, c);
    forall d, e | d in v.conns && e in v.conns && v.conns[d].inode == v.conns[e].inode
      ensures d == e
    {
      assert d != w.next ==> v.conns[d] == w.conns[d];
      assert e != w.next ==> v.conns[e] == w.conns[e];
    }
  }

  lemma CreateKeepsConns(w: World, c: Conn)
    requires w.next !in w.conns && (forall d | d in w.conns :: d < w.next)
    requires c.refsActive == 3 && c.proc == None && c.stat == NO_TRAFFIC && c.ifIndex == 0
    ensures KeepsConns(w, Create(w, c))
  {
  }

  lemma CreateKeepsInv(w: World, c: Conn)
    requires ConnInv(w) && c.refsActive == 3 && c.refsExit == 0 && c.proc == None
    requires c.stat == NO_TRAFFIC && c.ifIndex == 0
    requires forall d | d in w.conns :: w.conns[d].inode != c.inode
    ensures ConnInv(Create(w, c)) && KeepsConns(w, Create(w, c))
  {
    CreateIndexes(w, c);
    assert forall d | d in w.conns :: d < w.next;
    hide Indexed, InodesDiffer, KeepsConns;
    CreateDiffers(w, c);
    CreateKeepsConns(w, c);
  }

  lemma RowKeepsInv(w: World, row: Row)
    requires ConnInv(w)
    ensures ConnInv(ReadRow(w, row)) && KeepsConns(w, ReadRow(w, row))
  {
    hide ConnInv, FindInode, KeepsConns;
    if !Marks(row) {
      KeepsItself(w);
    } else {
      FindIsLive(w, row.inode);
      var found := FindInode(w, row.inode);
      if found.Some? {
        MarkKeepsInv(w, found.value);
      } else {
        CreateKeepsInv(w, Conn(row.inode, row.tuple, None, 3, 0, 0, NO_TRAFFIC));
      }
    }
  }

  // A row marks the one connection with its inode, if there is one, and leaves every other as it was.
  lemma RowMarksOne(w: World, row: Row, c: Ptr)
    requires ConnInv(w) && c in w.conns
    ensures c in ReadRow(w, row).conns
    ensures ReadRow(w, row).conns[c] ==
            if Marks(row) && w.conns[c].inode == row.inode then w.conns[c].(refsActive := 3) else w.conns[c]
  {
    hide FindInode;
    if Marks(row) {
      FindIsLive(w, row.inode);
      if w.conns[c].inode == row.inode {
        FindByInode(w, row.inode, c);
      }
      assert c < w.next;
    }
  }

  lemma {:induction false} RowsKeepInv(w: World, rows: seq<Row>)
    requires ConnInv(w)
    ensures ConnInv(ReadRows(w, rows)) && KeepsConns(w, ReadRows(w, rows))
    decreases |rows|
  {
    if rows != [] && !rows[0].Malformed? {
      hide ConnInv, ReadRow;
      var v := ReadRow(w, rows[0]);
      RowKeepsInv(w, rows[0]);
      RowsKeepInv(v, rows[1..]);
      KeepsConnsTwice(w, v, ReadRows(v, rows[1..]));
      hide KeepsConns;
    } else {
      hide ConnInv;
    }
  }

  lemma FileKeepsInv(w: World, file: File)
    requires ConnInv(w)
    ensures ConnInv(ReadFile(w, file)) && KeepsConns(w, ReadFile(w, file))
  {
    hide ConnInv, ReadRows;
    if file.Rows? {
      RowsKeepInv(w, file.rows);
    }
  }

  // connection_update, whether it succeeds or not: two entries for each connection again, refs_active 1
  // or 3, and exactly the connections marked before are still there.
  lemma UpdateConnsKeepsInv(w: World, order: seq<Entry>, tcp: Option<File>, udp: Option<File>)
    requires ConnInv(w) && Enumerates(order, w.table)
    ensures ConnInv(UpdateConns(w, order, tcp, udp)) && KeepsConns(Collected(w), UpdateConns(w, order, tcp, udp))
  {
    hide ConnInv, Enumerates, ReadFile, KeepsConns;
    CollectionIsExact(w, order);
    var w1 := Collected(w);
    KeepsItself(w1);
    var w2 := if tcp.Some? then ReadFile(w1, tcp.value) else w1;
    if tcp.Some? {
      FileKeepsInv(w1, tcp.value);
    }
    if udp.Some? {
      FileKeepsInv(w2, udp.value);
      KeepsConnsTwice(w1, w2, ReadFile(w2, udp.value));
    }
  }

  lemma KeepsItself(w: World)
    ensures KeepsConns(w, w)
  {
  }

  // ---- Which connections an update leaves -------------------------------------------------------------------

  ghost function LiveInodes(w: World): set<nat> {
    set c | c in w.conns :: w.conns[c].inode
  }

  ghost function MarkedInodes(w: World): set<nat> {
    set c | c in w.conns && w.conns[c].refsActive == 3 :: w.conns[c].inode
  }

  // The inodes that the rows name, up to the first malformed one.
  function Named(rows: seq<Row>): set<nat>
    decreases |rows|
  {
    if rows == [] || rows[0].Malformed? then {} else (if Marks(rows[0]) then {rows[0].inode} else {}) + Named(rows[1..])
  }

  function NamedIn(file: Option<File>): set<nat> {
    if file.Some? && file.value.Rows? then Named(file.value.rows) else {}
  }

  // A protocol that cannot be read to the end hides the next one.
  function NamedBy(tcp: Option<File>, udp: Option<File>): set<nat> {
    NamedIn(tcp) + if tcp.Some? && !FileOk(tcp.value) then {} else NamedIn(udp)
  }

  ghost predicate Names(w: World, v: World, inodes: set<nat>) {
    LiveInodes(v) == LiveInodes(w) + inodes && MarkedInodes(v) == MarkedInodes(w) + inodes
  }

  lemma MarkNames(w: World, c: Ptr)
    requires ConnInv(w) && c in w.conns
    ensures Names(w, Mark(w, c), {w.conns[c].inode})
  {
    var v := Mark(w, c);
    hide ConnInv;
    assert forall d | d in w.conns :: v.conns[d].inode == w.conns[d].inode;
    assert LiveInodes(v) == LiveInodes(w) + {w.conns[c].inode} by {
      assert v.conns[c].inode in LiveInodes(v);
      hide MarkedInodes;
    }
    assert MarkedInodes(v) == MarkedInodes(w) + {w.conns[c].inode} by {
      hide LiveInodes;
      assert v.conns[c].inode in MarkedInodes(v);
      assert forall d | d in w.conns && w.conns[d].refsActive == 3 :: v.conns[d].refsActive == 3;
    }
    hide LiveInodes, MarkedInodes;
  }

  lemma CreateNames(w: World, c: Conn)
    requires ConnInv(w) && c.refsActive == 3
    ensures Names(w, Create(w, c), {c.inode})
  {
    var v := Create(w, c);
    assert w.next !in w.conns;
    assert forall d | d in w.conns :: v.conns[d] == w.conns[d];
    assert v.conns[w.next].inode in MarkedInodes(v) && v.conns[w.next].inode in LiveInodes(v);
    assert MarkedInodes(v) == MarkedInodes(w) + {c.inode};
    assert LiveInodes(v) == LiveInodes(w) + {c.inode};
  }

  lemma RowNames(w: World, row: Row)
    requires ConnInv(w)
    ensures Names(w, ReadRow(w, row), if Marks(row) then {row.inode} else {})
  {
    hide ConnInv, FindInode, LiveInodes, MarkedInodes;
    if Marks(row) {
      FindIsLive(w, row.inode);
      var found := FindInode(w, row.inode);
      if found.Some? {
        MarkNames(w, found.value);
      } else {
        CreateNames(w, Conn(row.inode, row.tuple, None, 3, 0, 0, NO_TRAFFIC));
      }
    }
  }

  // Only sockets in TIME_WAIT, 6, and listening ones, 10, are passed over: any other row leaves its inode marked.
  lemma RowIsCounted(w: World, row: Row)
    requires ConnInv(w) && row.Row?
    ensures row.state == 6 || row.state == 10 ==> ReadRow(w, row) == w
    ensures row.state != 6 && row.state != 10 ==> row.inode in MarkedInodes(ReadRow(w, row))
  {
    RowNames(w, row);
    hide MarkedInodes, LiveInodes, FindInode, ConnInv;
  }

  lemma {:induction false} RowsName(w: World, rows: seq<Row>)
    requires ConnInv(w)
    ensures Names(w, ReadRows(w, rows), Named(rows))
    decreases |rows|
  {
    hide ConnInv, ReadRow, LiveInodes, MarkedInodes;
    if rows != [] && !rows[0].Malformed? {
      RowNames(w, rows[0]);
      RowKeepsInv(w, rows[0]);
      RowsName(ReadRow(w, rows[0]), rows[1..]);
    }
  }

  lemma FileNames(w: World, file: File)
    requires ConnInv(w)
    ensures ConnInv(ReadFile(w, file)) && Names(w, ReadFile(w, file), NamedIn(Some(file)))
  {
    hide ConnInv, LiveInodes, MarkedInodes, Named;
    FileKeepsInv(w, file);
    if file.Rows? {
      RowsName(w, file.rows);
    }
  }

  lemma CollectedNames(w: World)
    requires ConnInv(w)
    ensures LiveInodes(Collected(w)) == MarkedInodes(w) && MarkedInodes(Collected(w)) == {}
  {
    var v := Collected(w);
    assert forall c | c in v.conns :: v.conns[c].inode == w.conns[c].inode && v.conns[c].refsActive == 1;
    assert forall c | c in w.conns && w.conns[c].refsActive == 3 :: c in v.conns && v.conns[c].inode in LiveInodes(v);
  }

  // The marked connections are the ones just named, and the live ones are those and the ones marked before.
  lemma UpdateNames(w: World, order: seq<Entry>, tcp: Option<File>, udp: Option<File>)
    requires ConnInv(w) && Enumerates(order, w.table)
    ensures MarkedInodes(UpdateConns(w, order, tcp, udp)) == NamedBy(tcp, udp)
    ensures LiveInodes(UpdateConns(w, order, tcp, udp)) == MarkedInodes(w) + NamedBy(tcp, udp)
  {
    hide ConnInv, Enumerates, LiveInodes, MarkedInodes, ReadFile;
    CollectionIsExact(w, order);
    var w1 := Collected(w);
    CollectedNames(w);
    if tcp.Some? {
      FileNames(w1, tcp.value);
    }
    var w2 := if tcp.Some? then ReadFile(w1, tcp.value) else w1;
    if udp.Some? {
      FileNames(w2, udp.value);
    }
    hide Named, FileOk;
  }

  // ---- connection_free ------------------------------------------------------------------------------------

  ghost predicate PartlyFreed(w: World, done: set<Entry>, v: World) {
    && v == w.(conns := v.conns)
    && (forall c :: c in v.conns <==> c in w.conns && Visits(w, c, done) < 2)
    && (forall c | c in v.conns :: v.conns[c] == w.conns[c].(refsExit := Visits(w, c, done)))
  }

  // The visit of e by conn_free, seen from one connection.
  lemma FreeOne(w: World, done: set<Entry>, e: Entry, v: World, c: Ptr)
    requires ConnInv(w) && e in w.table && e !in done && PartlyFreed(w, done, v)
    ensures c in FreeEntry(v, e).conns <==> c in w.conns && Visits(w, c, done + {e}) < 2
    ensures c in FreeEntry(v, e).conns ==> FreeEntry(v, e).conns[c] == w.conns[c].(refsExit := Visits(w, c, done + {e}))
  {
    VisitsGrow(w, done, e);
    hide Visits, ConnInv, Indexed;
    assert e.conn in v.conns && v.conns[e.conn].refsExit == Visits(w, e.conn, done);
    if c == e.conn {
      assert v.conns[c] == w.conns[c].(refsExit := Visits(w, c, done));
      hide PartlyFreed;
    } else {
      assert c in v.conns <==> c in FreeEntry(v, e).conns;
    }
  }

  lemma FreeStep(w: World, done: set<Entry>, e: Entry, v: World)
    requires ConnInv(w) && e in w.table && e !in done && PartlyFreed(w, done, v)
    ensures PartlyFreed(w, done + {e}, FreeEntry(v, e))
  {
    assert e.conn in v.conns by {
      VisitsGrow(w, done, e);
    }
    assert FreeEntry(v, e) == v.(conns := FreeEntry(v, e).conns);
    hide ConnInv, FreeEntry, Visits;
    forall c
      ensures c in FreeEntry(v, e).conns <==> c in w.conns && Visits(w, c, done + {e}) < 2
      ensures c in FreeEntry(v, e).conns ==>
          FreeEntry(v, e).conns[c] == w.conns[c].(refsExit := Visits(w, c, done + {e}))
    {
      FreeOne(w, done, e, v, c);
    }
  }

  lemma NoneFreed(w: World)
    requires ConnInv(w)
    ensures PartlyFreed(w, {}, w) && SetOf<Entry>([]) == {}
  {
    hide Indexed;
  }

  lemma {:induction false} FreePrefix(w: World, order: seq<Entry>)
    requires ConnInv(w) && (forall e | e in order :: e in w.table)
    requires forall i, j | 0 <= i < j < |order| :: order[i] != order[j]
    ensures PartlyFreed(w, SetOf(order), FreeConns(w, order))
  {
    hide ConnInv, FreeEntry, PartlyFreed;
    if order == [] {
      NoneFreed(w);
    } else {
      var before, e := order[..|order| - 1], order[|order| - 1];
      assert order == before + [e];
      FreePrefix(w, before);
      assert e !in before;
      FreeStep(w, SetOf(before), e, FreeConns(w, before));
      assert SetOf(order) == SetOf(before) + {e};
    }
  }

  // Destroying the table frees every connection once, whichever of its two entries comes first, and
  // uses none of them after it is freed.
  lemma EveryConnIsFreedOnce(w: World, order: seq<Entry>)
    requires ConnInv(w) && Enumerates(order, w.table)
    ensures FreeConns(w, order) == w.(conns := map[])
  {
    FreePrefix(w, order);
    assert SetOf(order) == w.table;
    assert forall c | c in w.conns :: Visits(w, c, w.table) == 2;
    hide ConnInv;
    assert FreeConns(w, order).conns == map[];
  }
}
