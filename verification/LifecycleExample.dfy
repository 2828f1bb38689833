/** One way to a dangling pointer: a connection stays listed while its process cannot be scanned. */
module LifecycleExample {
  import opened Wrappers
  import opened Lifecycle
  import opened LifecycleSweeps
  import opened LifecycleScan
  import opened LifecycleTheorems
  import opened LifecycleRuns

  const ROWS := Some(Rows([Row(1, 7, 0)]))

  // The first update sees the socket among the descriptors of process 1.
  const SEEN := Input([], ROWS, None, [], Some([Scan(1, Some([Some(7)]), true)]))

  // The next ones cannot read that directory any more.
  const UNSEEN := Input([ByInode(7, 0), ByTuple(0, 0)], ROWS, None, [1], Some([Scan(1, None, true)]))

  function OneConnection(refsActive: nat, active: bool, listed: seq<Ptr>): World {
    World(map[0 := Conn(7, 0, Some(1), refsActive, 0, 0, NO_TRAFFIC)], {ByInode(7, 0), ByTuple(0, 0)},
          map[1 := Proc(1, active, [0], 1, NO_TRAFFIC)], map[1 := 1], listed, 2, false)
  }

  lemma OneRow(w: World)
    ensures ReadFile(w, ROWS.value) == ReadRow(w, Row(1, 7, 0))
  {
    hide ReadRow;
    assert ReadRows(ReadRow(w, Row(1, 7, 0)), [Row(1, 7, 0)][1..]) == ReadRow(w, Row(1, 7, 0));
  }

  lemma OneScan(w: World, s: Scan)
    ensures ScanAll(w, [s]) == ScanProcess(w, s)
  {
    hide ScanProcess;
    assert ScanAll(ScanProcess(w, s), [s][1..]) == ScanProcess(w, s);
  }

  lemma OneFd(f: Filling, s: Scan, fd: Option<nat>, g: Filling)
    requires ScanFd(f, s, fd) == (g, true)
    ensures ScanFds(f, s, [fd]) == g
  {
    hide ScanFd;
    var fds := [fd];
    assert fds[0] == fd && fds[1..] == [];
    assert ScanFds(g, s, []) == g;
    assert ScanFds(f, s, fds) == ScanFds(g, s, fds[1..]);
  }

  const JUST_READ :=
    World(map[0 := Conn(7, 0, None, 3, 0, 0, NO_TRAFFIC)], {ByInode(7, 0), ByTuple(0, 0)}, map[], map[], [], 1, false)

  lemma FirstScan()
    ensures ScanProcess(JUST_READ, Scan(1, Some([Some(7)]), true)) == OneConnection(3, true, [1])
  {
    var v, s := JUST_READ, Scan(1, Some([Some(7)]), true);
    FindByInode(v, 7, 0);
    hide FindInode, ConnInv;
    var f, g := Filling(v, None), Filling(Attach(CreateProc(v, 1), 1, 0), Some(1));
    assert ScanFd(f, s, Some(7)) == (g, true);
    hide ScanFd;
    OneFd(f, s, Some(7), g);
    var w := OneConnection(3, true, [1]);
    var none: seq<Ptr> := [];
    assert none + [0] == [0];
    assert g.w.procs == map[1 := Proc(1, true, [0], 0, NO_TRAFFIC)];
    assert EndScan(g).conns == w.conns && EndScan(g).procs == w.procs && EndScan(g).procTable == w.procTable;
  }

  lemma FirstUpdate()
    ensures Visitable(EMPTY_WORLD, SEEN) && Update(EMPTY_WORLD, SEEN) == OneConnection(3, true, [1])
  {
    OneRow(EMPTY_WORLD);
    assert ReadRow(EMPTY_WORLD, Row(1, 7, 0)) == JUST_READ;
    hide ReadFile, ReadRow, ScanProcess, FindInode;
    assert BeforeScan(EMPTY_WORLD, SEEN) == JUST_READ;
    hide BeforeScan;
    OneScan(JUST_READ, Scan(1, Some([Some(7)]), true));
    FirstScan();
  }

  lemma SecondConns()
    ensures Enumerates(UNSEEN.order, OneConnection(3, true, [1]).table)
    ensures UpdateConns(OneConnection(3, true, [1]), UNSEEN.order, ROWS, None) == OneConnection(3, true, [1])
  {
    FirstCollection();
    MarkedAgain();
    hide SweepConns, Collected, ReadFile, OneConnection, Enumerates;
  }

  lemma MarkedAgain()
    ensures ReadFile(OneConnection(1, true, [1]), ROWS.value) == OneConnection(3, true, [1])
  {
    var v := OneConnection(1, true, [1]);
    OneRow(v);
    FindByInode(v, 7, 0);
    hide ReadFile, FindInode, ConnInv;
  }

  lemma FirstCollection()
    ensures Enumerates(UNSEEN.order, OneConnection(3, true, [1]).table)
    ensures SweepConns(OneConnection(3, true, [1]), UNSEEN.order) == OneConnection(1, true, [1])
  {
    var w := OneConnection(3, true, [1]);
    OneIsInOrder();
    hide SweepConns, ConnInv, Enumerates;
    CollectionIsExact(w, UNSEEN.order);
    OneCollected();
    hide Collected, OneConnection;
  }

  lemma OneIsInOrder()
    ensures ConnInv(OneConnection(3, true, [1])) && Enumerates(UNSEEN.order, OneConnection(3, true, [1]).table)
  {
  }

  lemma OneCollected()
    ensures Collected(OneConnection(3, true, [1])) == OneConnection(1, true, [1])
  {
    assert Collected(OneConnection(3, true, [1])).conns == OneConnection(1, true, [1]).conns;
  }

  lemma SecondBeforeScan()
    ensures Visitable(OneConnection(3, true, [1]), UNSEEN)
    ensures BeforeScan(OneConnection(3, true, [1]), UNSEEN) == OneConnection(3, false, [])
  {
    hide UpdateConns, SweepProcs;
    SecondConns();
    SecondProcs();
    hide Enumerates;
  }

  lemma SecondProcs()
    ensures Enumerates(UNSEEN.procOrder, OneConnection(3, true, [1]).procTable.Keys)
    ensures SweepProcs(OneConnection(3, true, [1]), UNSEEN.procOrder) == OneConnection(3, false, [1])
  {
    var w := OneConnection(3, true, [1]);
    hide SweepProcs;
    ProcCollectionIsExact(w, UNSEEN.procOrder);
    assert ActivePids(w) == {1};
    hide ActivePids, Enumerates;
    assert ProcsCollected(w) == OneConnection(3, false, [1]);
  }

  lemma SecondUpdate()
    ensures Visitable(OneConnection(3, true, [1]), UNSEEN)
    ensures Update(OneConnection(3, true, [1]), UNSEEN) == OneConnection(3, false, [])
  {
    SecondBeforeScan();
    hide BeforeScan;
    OneScan(OneConnection(3, false, []), Scan(1, None, true));
  }

  lemma ThirdIsPossible()
    ensures Inv(OneConnection(3, false, [])) && Visitable(OneConnection(3, false, []), UNSEEN)
    ensures NoDangling(OneConnection(3, false, []))
  {
  }

  lemma ThirdUpdate()
    ensures Visitable(OneConnection(3, false, []), UNSEEN)
    ensures !NoDangling(Update(OneConnection(3, false, []), UNSEEN))
  {
    var w := OneConnection(3, false, []);
    ThirdIsPossible();
    assert !Secure(w, UNSEEN, 0);
    hide Update, Inv, Visitable, NoDangling, Secure;
    DanglingIff(w, UNSEEN);
  }

  // Listed and marked in all three updates, the connection ends up with a pointer to a process that the third
  // has freed.
  lemma UnscannedProcessDangles()
    ensures PossibleRun(EMPTY_WORLD, [Refresh(SEEN), Refresh(UNSEEN), Refresh(UNSEEN)])
    ensures !NoDangling(After(EMPTY_WORLD, [Refresh(SEEN), Refresh(UNSEEN), Refresh(UNSEEN)]))
  {
    hide Update, NoDangling, Visitable, OneConnection, SEEN, UNSEEN;
    FirstUpdate();
    SecondUpdate();
    ThirdUpdate();
    var run1, run2 := [Refresh(SEEN)], [Refresh(SEEN), Refresh(UNSEEN)];
    var run := [Refresh(SEEN), Refresh(UNSEEN), Refresh(UNSEEN)];
    assert run1[..0] == [] && run2[..1] == run1 && run[..2] == run2;
    assert PossibleRun(EMPTY_WORLD, run1) && After(EMPTY_WORLD, run1) == OneConnection(3, true, [1]);
    assert PossibleRun(EMPTY_WORLD, run2) && After(EMPTY_WORLD, run2) == OneConnection(3, false, []);
  }
}
