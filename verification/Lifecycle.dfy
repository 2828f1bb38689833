/**
 Connections and processes: two sets of allocated objects that point at each other, each collected by
 a grace scheme of its own.  A pointer is the number of an allocation and is never used again, so a
 pointer that is not a key of its map points to freed memory; reading through one sets `fault`.
 */
module Lifecycle {
  import opened Wrappers

  type Ptr = nat
  type Tuple = nat

  // The totals of a struct net_stat; the module Rate has the whole of it.
  datatype Traffic = Traffic(rx: nat, tx: nat)

  const NO_TRAFFIC := Traffic(0, 0)

  // connection_t
  datatype Conn = Conn(inode: nat, tuple: Tuple, proc: Option<Ptr>, refsActive: nat, refsExit: nat, ifIndex: int,
                       stat: Traffic)

  // process_t; `connections` is its vector, which keeps old pointers while the process is not listed.
  datatype Proc = Proc(pid: nat, active: bool, connections: seq<Ptr>, totalConnections: nat, stat: Traffic)

  // An entry of ht_connections.  A lookup by inode never takes an entry by tuple for one by inode.
  datatype Entry = ByInode(inode: nat, conn: Ptr) | ByTuple(tuple: Tuple, conn: Ptr)

  datatype World = World(
    conns: map<Ptr, Conn>,        // the live connections
    table: set<Entry>,            // ht_connections
    procs: map<Ptr, Proc>,        // the live processes
    procTable: map<nat, Ptr>,     // ht_process, by pid
    listed: seq<Ptr>,             // procs->proc[0..total)
    next: Ptr,                    // the next allocation
    fault: bool)                  // memory was used after it was freed

  const TCP_TIME_WAIT := 6
  const TCP_LISTEN := 10

  function InodeEntry(w: World, c: Ptr): Entry
    requires c in w.conns
  {
    ByInode(w.conns[c].inode, c)
  }

  function TupleEntry(w: World, c: Ptr): Entry
    requires c in w.conns
  {
    ByTuple(w.conns[c].tuple, c)
  }

  ghost predicate Enumerates<T(!new)>(order: seq<T>, s: set<T>) {
    && (forall i, j | 0 <= i < j < |order| :: order[i] != order[j])
    && (forall x :: x in order <==> x in s)
  }

  // ---- Collecting connections -------------------------------------------------------------------------

  // remove_inactives_conns for one entry; refs_active is a uint8_t and wraps around.
  function SweepEntry(w: World, e: Entry): World {
    if e.conn !in w.conns then w.(fault := true)
    else
      var c := w.conns[e.conn];
      var counted := w.conns[e.conn := c.(refsActive := (c.refsActive + 255) % 256)];
      if c.refsActive == 1 then w.(conns := counted, table := w.table - {e})
      else if c.refsActive == 0 then w.(conns := w.conns - {e.conn}, table := w.table - {e})
      else w.(conns := counted)
  }

  // hashtable_foreach_remove, in the order in which it visits the entries.
  function SweepConns(w: World, order: seq<Entry>): World {
    if order == [] then w else SweepEntry(SweepConns(w, order[..|order| - 1]), order[|order| - 1])
  }

  // ---- Reading /proc/net ------------------------------------------------------------------------------

  datatype Row = Malformed | Row(state: nat, inode: nat, tuple: Tuple)

  datatype File = Unreadable | Rows(rows: seq<Row>)

  // connection_get_by_inode
  ghost function FindInode(w: World, inode: nat): (r: Option<Ptr>)
    ensures r.Some? ==> ByInode(inode, r.value) in w.table
    ensures r.None? ==> forall c :: ByInode(inode, c) !in w.table
  {
    if exists c :: ByInode(inode, c) in w.table then
      var c :| ByInode(inode, c) in w.table;
      Some(c)
    else None
  }

  // connection_get_by_tuple
  ghost function FindTuple(w: World, tuple: Tuple): (r: Option<Ptr>)
    ensures r.Some? ==> ByTuple(tuple, r.value) in w.table
    ensures r.None? ==> forall c :: ByTuple(tuple, c) !in w.table
  {
    if exists c :: ByTuple(tuple, c) in w.table then
      var c :| ByTuple(tuple, c) in w.table;
      Some(c)
    else None
  }

  // One row: ignore it, mark the connection it names, or create that connection.
  ghost function ReadRow(w: World, row: Row): World {
    if row.Malformed? || row.state == TCP_TIME_WAIT || row.state == TCP_LISTEN then w
    else
      var found := FindInode(w, row.inode);
      if found.Some? then
        if found.value !in w.conns then w.(fault := true)
        else w.(conns := w.conns[found.value := w.conns[found.value].(refsActive := 3)])
      else
        w.(conns := w.conns[w.next := Conn(row.inode, row.tuple, None, 3, 0, 0, NO_TRAFFIC)],
           table := w.table + {ByInode(row.inode, w.next), ByTuple(row.tuple, w.next)},
          next := w.next + 1)
  }

  // The rows up to the first malformed one.
  ghost function ReadRows(w: World, rows: seq<Row>): World
    decreases |rows|
  {
    if rows == [] || rows[0].Malformed? then w else ReadRows(ReadRow(w, rows[0]), rows[1..])
  }

  predicate WellFormed(rows: seq<Row>) {
    forall i | 0 <= i < |rows| :: !rows[i].Malformed?
  }

  ghost function ReadFile(w: World, file: File): World {
    if file.Unreadable? then w else ReadRows(w, file.rows)
  }

  predicate FileOk(file: File) {
    file.Rows? && WellFormed(file.rows)
  }

  // connection_update; None is a protocol that is not asked for.
  ghost function UpdateConns(w: World, order: seq<Entry>, tcp: Option<File>, udp: Option<File>): World {
    var w1 := SweepConns(w, order);
    var w2 := if tcp.Some? then ReadFile(w1, tcp.value) else w1;
    if udp.Some? && (tcp.Some? ==> FileOk(tcp.value)) then ReadFile(w2, udp.value) else w2
  }

  predicate ConnsOk(tcp: Option<File>, udp: Option<File>) {
    (tcp.Some? ==> FileOk(tcp.value)) && (udp.Some? ==> FileOk(udp.value))
  }

  // ---- Collecting processes ---------------------------------------------------------------------------

  // remove_dead_proc for one process.
  function SweepProc(w: World, pid: nat): World {
    if pid !in w.procTable then w
    else
      var p := w.procTable[pid];
      if p !in w.procs then w.(fault := true)
      else if !w.procs[p].active then w.(procs := w.procs - {p}, procTable := w.procTable - {pid})
      else w.(procs := w.procs[p := w.procs[p].(active := false)])
  }

  function SweepProcs(w: World, order: seq<nat>): World {
    if order == [] then w else SweepProc(SweepProcs(w, order[..|order| - 1]), order[|order| - 1])
  }

  // ---- Scanning the file descriptors --------------------------------------------------------------------

  // One process of /proc: its open files (None if they cannot be read), each a socket inode or not, and
  // whether its name can be read.
  datatype Scan = Scan(pid: nat, fds: Option<seq<Option<nat>>>, named: bool)

  // The process a scan fills, if there is one yet.
  datatype Filling = Filling(w: World, proc: Option<Ptr>)

  // create_new_process and its entry in ht_process
  function CreateProc(w: World, pid: nat): World {
    w.(procs := w.procs[w.next := Proc(pid, true, [], 0, NO_TRAFFIC)], procTable := w.procTable[pid := w.next],
       next := w.next + 1)
  }

  // The connection points to the process and is pushed on its vector.
  function Attach(w: World, p: Ptr, c: Ptr): World {
    if p !in w.procs || c !in w.conns then w.(fault := true)
    else w.(conns := w.conns[c := w.conns[c].(proc := Some(p))],
            procs := w.procs[p := w.procs[p].(connections := w.procs[p].connections + [c])])
  }

  // One file descriptor.  Without a process to put the connection in, one is created; that fails if the
  // name cannot be read, and the scan of this process ends there.
  ghost function ScanFd(f: Filling, s: Scan, fd: Option<nat>): (Filling, bool) {
    var found := if fd.Some? then FindInode(f.w, fd.value) else None;
    if found.None? then (f, true)
    else if f.proc.Some? then (Filling(Attach(f.w, f.proc.value, found.value), f.proc), true)
    else if !s.named then (f, false)
    else (Filling(Attach(CreateProc(f.w, s.pid), f.w.next, found.value), Some(f.w.next)), true)
  }

  ghost function ScanFds(f: Filling, s: Scan, fds: seq<Option<nat>>): Filling
    decreases |fds|
  {
    if fds == [] then f
    else
      var (g, more) := ScanFd(f, s, fds[0]);
      if more then ScanFds(g, s, fds[1..]) else g
  }

  // The process that is known already is active again, with no connections yet.
  function StartScan(w: World, pid: nat): Filling {
    if pid !in w.procTable then Filling(w, None)
    else
      var p := w.procTable[pid];
      if p !in w.procs then Filling(w.(fault := true), Some(p))
      else Filling(w.(procs := w.procs[p := w.procs[p].(active := true, connections := [])]), Some(p))
  }

  function EndScan(f: Filling): World {
    if f.proc.None? then f.w
    else
      var p := f.proc.value;
      if p !in f.w.procs then f.w.(fault := true)
      else f.w.(procs := f.w.procs[p := f.w.procs[p].(totalConnections := |f.w.procs[p].connections|)],
                    listed := f.w.listed + [p])
  }

  ghost function ScanProcess(w: World, s: Scan): World {
    if s.fds.None? then w else EndScan(ScanFds(StartScan(w, s.pid), s, s.fds.value))
  }

  ghost function ScanAll(w: World, scans: seq<Scan>): World
    decreases |scans|
  {
    if scans == [] then w else ScanAll(ScanProcess(w, scans[0]), scans[1..])
  }

  // ---- processes_update -----------------------------------------------------------------------------------

  // What one update reads, and the orders in which the two tables are swept.
  datatype Input = Input(order: seq<Entry>, tcp: Option<File>, udp: Option<File>, procOrder: seq<nat>,
                         scans: Option<seq<Scan>>)

  predicate Succeeds(u: Input) {
    ConnsOk(u.tcp, u.udp) && u.scans.Some?
  }

  // The state in which the file descriptors are scanned.
  ghost function BeforeScan(w: World, u: Input): World {
    SweepProcs(UpdateConns(w, u.order, u.tcp, u.udp), u.procOrder).(listed := [])
  }

  ghost function Update(w: World, u: Input): World {
    if !Succeeds(u) then UpdateConns(w, u.order, u.tcp, u.udp)
    else ScanAll(BeforeScan(w, u), u.scans.value)
  }

  // ---- Between updates, and at the end --------------------------------------------------------------------

  datatype Direction = Down | Up

  datatype Packet = Packet(tuple: Tuple, direction: Direction, length: nat, ifIndex: int)

  function AddTraffic(t: Traffic, pkt: Packet): Traffic {
    if pkt.direction.Down? then t.(rx := t.rx + pkt.length) else t.(tx := t.tx + pkt.length)
  }

  // statistics_add once the lookup by tuple has found connection c; the flag is what it returns.
  function CreditTo(w: World, pkt: Packet, viewConnections: bool, c: Ptr): (World, bool) {
    if c !in w.conns then (w.(fault := true), false)
    else if w.conns[c].proc.None? then (w, false)
    else
      var p := w.conns[c].proc.value;
      if p !in w.procs then (w.(fault := true), true)
      else
        var stat := w.conns[c].stat;
        var counted := if viewConnections then AddTraffic(stat, pkt) else stat;
        (w.(conns := w.conns[c := w.conns[c].(ifIndex := pkt.ifIndex, stat := counted)],
            procs := w.procs[p := w.procs[p].(stat := AddTraffic(w.procs[p].stat, pkt))]), true)
  }

  // conn_free for one entry of the table that is being destroyed.
  function FreeEntry(w: World, e: Entry): World {
    if e.conn !in w.conns then w.(fault := true)
    else
      var c := w.conns[e.conn];
      if c.refsExit == 1 then w.(conns := w.conns - {e.conn})
      else w.(conns := w.conns[e.conn := c.(refsExit := c.refsExit + 1)])
  }

  // connection_free
  function FreeConns(w: World, order: seq<Entry>): World {
    if order == [] then w else FreeEntry(FreeConns(w, order[..|order| - 1]), order[|order| - 1])
  }

  const EMPTY_WORLD := World(map[], {}, map[], map[], [], 0, false)
}
