/**
 * Two runs in which the graph and the log part: an update that addresses an edge by its place in
 * a list that was not filled in timestamp order, and an insert that meets a vertex of another one.
 */
module Clashes {
  import opened Wrappers
  import opened VersionManager
  import opened Frontier
  import opened Records
  import opened Commits
  import opened Agreement
  import opened Snapshots

  // ------------------------------------------------------------------------------------
  // Building a run
  // ------------------------------------------------------------------------------------

  /** A run in which the graph and the log stay together ends here. */
  ghost predicate Ends(w: World, s: Sys) { exists run :: FineRun(w, run) && run[|run| - 1] == s }

  /** Holds at the start and is kept by every fine step. */
  ghost predicate Kept(w: World, p: Sys -> bool) {
    && (forall s | SInit(w, s) && InWindow(w.c, s.vm) :: p(s))
    && (forall s, s' | p(s) && FineNext(w, s, s') && InWindow(w.c, s'.vm) :: p(s'))
  }

  /** Everything that is kept holds here. */
  ghost predicate Reached(w: World, s: Sys) { forall p: Sys -> bool | Kept(w, p) :: p(s) }

  lemma Start(w: World, s: Sys)
    requires SInit(w, s) && InWindow(w.c, s.vm)
    ensures Reached(w, s)
  {
  }

  lemma Extended(w: World, run: seq<Sys>, s: Sys)
    requires SRun(w, run) && SNext(w, run[|run| - 1], s) && InWindow(w.c, s.vm)
    ensures SRun(w, run + [s])
    ensures FineRun(w, run) && FineNext(w, run[|run| - 1], s) ==> FineRun(w, run + [s])
  {
    var more := run + [s];
    forall k: nat | k + 1 < |more| ensures StepAt(w, more, k) {
      assert k + 1 < |run| ==> StepAt(w, run, k);
    }
    if FineRun(w, run) && FineNext(w, run[|run| - 1], s) {
      forall k: nat | k + 1 < |more| ensures FineAt(w, more, k) {
        assert k + 1 < |run| ==> FineAt(w, run, k);
      }
    }
  }

  lemma EndsNext(w: World, s: Sys, s': Sys)
    requires Ends(w, s) && FineNext(w, s, s') && InWindow(w.c, s'.vm)
    ensures Ends(w, s')
  {
    var run :| FineRun(w, run) && run[|run| - 1] == s;
    Extended(w, run, s');
    assert (run + [s'])[|run + [s']| - 1] == s';
  }

  lemma ReachedEnds(w: World, s: Sys)
    requires Reached(w, s)
    ensures Ends(w, s)
  {
    var p: Sys -> bool := t => Ends(w, t);
    forall t | SInit(w, t) && InWindow(w.c, t.vm) ensures p(t) { assert FineRun(w, [t]) && [t][0] == t; }
    forall t, t' | p(t) && FineNext(w, t, t') && InWindow(w.c, t'.vm) ensures p(t') { EndsNext(w, t, t'); }
    assert Kept(w, p);
    assert p(s);
  }

  lemma Go(w: World, s: Sys, i: nat, x: SAct)
    requires Reached(w, s) && SysShaped(w, s) && SEnabled(w, s, i, x) && Fine(w, s, i, x)
    requires InWindow(w.c, SExec(w, s, i, x).vm)
    ensures Reached(w, SExec(w, s, i, x))
  {
    var s' := SExec(w, s, i, x);
    assert FineNext(w, s, s');
    forall p: Sys -> bool | Kept(w, p) ensures p(s') { assert p(s); }
  }

  lemma ReachedInv(w: World, s: Sys)
    requires Reached(w, s) && w.c.sessions <= w.c.threads + 1
    ensures SysInv(w, s) && InWindow(w.c, s.vm)
  {
    ReachedEnds(w, s);
    var run :| FineRun(w, run) && run[|run| - 1] == s;
    RunKeepsInv(w, run, |run| - 1);
  }

  lemma OneStepMore(w: World, s: Sys, s': Sys) returns (run: seq<Sys>)
    requires Reached(w, s) && SNext(w, s, s') && InWindow(w.c, s'.vm)
    ensures SRun(w, run) && run[|run| - 1] == s'
  {
    ReachedEnds(w, s);
    var r :| FineRun(w, r) && r[|r| - 1] == s;
    Extended(w, r, s');
    run := r + [s'];
  }

  /** The last step parts the graph from the log. */
  lemma GoWrong(w: World, s: Sys, i: nat, x: SAct) returns (run: seq<Sys>)
    requires Reached(w, s) && SysShaped(w, s) && SEnabled(w, s, i, x) && !Fine(w, s, i, x)
    requires w.c.sessions <= w.c.threads + 1 && InWindow(w.c, SExec(w, s, i, x).vm)
    ensures SRun(w, run) && run[|run| - 1] == SExec(w, s, i, x) && !Together(w, run[|run| - 1])
  {
    ReachedInv(w, s);
    StepBreaks(w, s, i, x);
    run := OneStepMore(w, s, SExec(w, s, i, x));
  }

  // ------------------------------------------------------------------------------------
  // Two sessions
  // ------------------------------------------------------------------------------------

  function Two(): (c: Config) { Config(2, 2, 2) }

  /** The manager with clocks and sessions as given, nothing finished ahead. */
  function Vms(write: nat, read: nat, pending: int, claimed: bool, p: Pc, q: Pc): (s: State) {
    State(write, read, pending, claimed, [false, false], [p, q])
  }

  /** A protocol step that touches neither the graph nor a session's work. */
  lemma Quiet(w: World, s: Sys, i: nat, a: Act, vm: State)
    requires Reached(w, s) && SysShaped(w, s) && Enabled(w.c, s.vm, i, a) && Exec(w.c, s.vm, i, a) == vm
    requires !a.Take? && !a.Publish? && !a.Revert? && InWindow(w.c, vm)
    ensures Reached(w, s.(vm := vm))
  {
    assert s.work[i := s.work[i]] == s.work;
    assert SExec(w, s, i, Vm(a)) == s.(vm := vm);
    Go(w, s, i, Vm(a));
  }

  lemma TakeInsert(w: World, s: Sys, i: nat, vm: State)
    requires Reached(w, s) && SysShaped(w, s) && i < w.c.sessions && s.vm.pcs[i] == Granted(true)
    requires vm == s.vm.(pcs := s.vm.pcs[i := Inserting(s.vm.write)], write := s.vm.write + 1) && InWindow(w.c, vm)
    ensures Reached(w, s.(vm := vm, work := s.work[i := Building([])]))
  {
    assert SExec(w, s, i, Vm(Take)) == s.(vm := vm, work := s.work[i := Building([])]);
    Go(w, s, i, Vm(Take));
  }

  lemma TakeUpdate(w: World, s: Sys, i: nat, vm: State)
    requires Reached(w, s) && SysShaped(w, s) && i < w.c.sessions && s.vm.pcs[i] == Drained
    requires vm == s.vm.(pcs := s.vm.pcs[i := Updating(s.vm.write)], write := s.vm.write + 1) && InWindow(w.c, vm)
    ensures Reached(w, s.(vm := vm, work := s.work[i := Modifying(s.graph, [])]))
  {
    assert SExec(w, s, i, Vm(Take)) == s.(vm := vm, work := s.work[i := Modifying(s.graph, [])]);
    Go(w, s, i, Vm(Take));
  }

  lemma WriteOne(w: World, s: Sys, i: nat, r: Record)
    requires Reached(w, s) && SysShaped(w, s) && i < w.c.sessions && InWindow(w.c, s.vm)
    requires s.vm.pcs[i].Inserting? && s.work[i].Building? && Writable(s.graph, s.vm.pcs[i].ts, s.work[i].log, r)
    ensures Reached(w, s.(work := s.work[i := Building(s.work[i].log + [r])]))
  {
    Go(w, s, i, Write(r));
  }

  lemma AppendLog(w: World, s: Sys, i: nat)
    requires Reached(w, s) && SysShaped(w, s) && i < w.c.sessions && InWindow(w.c, s.vm)
    requires s.vm.pcs[i].Inserting? && s.work[i].Building? && s.work[i].log != []
    ensures var ts := s.vm.pcs[i].ts;
      Reached(w, s.(work := s.work[i := Applying(false)], wal := s.wal[ts := Inserts(s.work[i].log)],
        applied := s.applied[ts := 0]))
  {
    Go(w, s, i, SAct.Append);
  }

  lemma PushNext(w: World, s: Sys, i: nat)
    requires Reached(w, s) && SysShaped(w, s) && i < w.c.sessions && InWindow(w.c, s.vm)
    requires s.vm.pcs[i].Inserting? && s.work[i] == Applying(false) && NewVertex(s, s.vm.pcs[i].ts)
    requires var ts := s.vm.pcs[i].ts;
      s.wal[ts].log[s.applied[ts]].InsertEdge? && Ingestible(s.graph, s.wal[ts].log[s.applied[ts]], ts)
    ensures var ts := s.vm.pcs[i].ts;
      var n := s.applied[ts];
      Reached(w, s.(layout := PlaceIn(s.layout, ts, n, s.wal[ts].log[n]), work := s.work[i := Applying(true)]))
  {
    Go(w, s, i, PushIn);
  }

  lemma IngestNext(w: World, s: Sys, i: nat)
    requires Reached(w, s) && SysShaped(w, s) && i < w.c.sessions && InWindow(w.c, s.vm)
    requires s.vm.pcs[i].Inserting? && s.work[i].Applying? && NewVertex(s, s.vm.pcs[i].ts)
    requires var ts := s.vm.pcs[i].ts;
      && s.work[i].pushed == s.wal[ts].log[s.applied[ts]].InsertEdge?
      && Ingestible(s.graph, s.wal[ts].log[s.applied[ts]], ts)
    ensures var ts := s.vm.pcs[i].ts;
      var n := s.applied[ts];
      var r := s.wal[ts].log[n];
      Reached(w, s.(graph := s.graph[KeyOfRecord(r, ts, n) := Item(ContentOf(r), ts)],
                    layout := PlaceRest(s.layout, ts, n, r), applied := s.applied[ts := n + 1],
                    work := s.work[i := Applying(false)]))
  {
    Go(w, s, i, Ingest);
  }

  lemma PublishInsert(w: World, s: Sys, i: nat, vm: State)
    requires Reached(w, s) && SysShaped(w, s) && i < w.c.sessions && s.vm.pcs[i].Inserting? && s.work[i].Applying?
    requires var ts := s.vm.pcs[i].ts;
      ts in s.wal && s.wal[ts].Inserts? && ts in s.applied && s.applied[ts] == |s.wal[ts].log|
    requires Exec(w.c, s.vm, i, Publish) == vm && InWindow(w.c, vm)
    ensures Reached(w, s.(vm := vm, work := s.work[i := NoWork]))
  {
    assert SExec(w, s, i, Vm(Publish)) == s.(vm := vm, work := s.work[i := NoWork]);
    Go(w, s, i, Vm(Publish));
  }

  // Several steps at once, for two sessions and a ring without set bits.

  /** An idle session gets an insert timestamp. */
  lemma OpenInsert(w: World, s: Sys, i: nat, s': Sys)
    requires Reached(w, s) && SysShaped(w, s) && i < w.c.sessions && s.vm.pcs[i] == Idle && 0 <= s.vm.pending
    requires s.vm.write < s.vm.read + w.c.ring + 2
    requires s' == s.(vm := s'.vm, work := s.work[i := Building([])])
    requires s'.vm == s.vm.(pcs := s.vm.pcs[i := Inserting(s.vm.write)], write := s.vm.write + 1,
        pending := s.vm.pending + 1)
    ensures Reached(w, s')
  {
    var vm := s.vm.(pcs := s.vm.pcs[i := Granted(true)], pending := s.vm.pending + 1);
    Quiet(w, s, i, FetchAdd(true), vm);
    assert vm.pcs[i := Inserting(vm.write)] == s.vm.pcs[i := Inserting(s.vm.write)];
    TakeInsert(w, s.(vm := vm), i, s'.vm);
  }

  /** A session writes one record more and logs its transaction. */
  lemma WriteAndLog(w: World, s: Sys, i: nat, r: Record, s': Sys)
    requires Reached(w, s) && SysShaped(w, s) && i < w.c.sessions && InWindow(w.c, s.vm)
    requires s.vm.pcs[i].Inserting? && s.work[i].Building? && Writable(s.graph, s.vm.pcs[i].ts, s.work[i].log, r)
    requires var ts := s.vm.pcs[i].ts;
      s' == s.(work := s.work[i := Applying(false)], wal := s.wal[ts := Inserts(s.work[i].log + [r])],
        applied := s.applied[ts := 0])
    ensures Reached(w, s')
  {
    WriteOne(w, s, i, r);
    var a := s.(work := s.work[i := Building(s.work[i].log + [r])]);
    AppendLog(w, a, i);
    assert a.work[i := Applying(false)] == s.work[i := Applying(false)];
  }

  /** A session ingests one record of its log. */
  lemma IngestOne(w: World, s: Sys, i: nat, ts: nat, n: nat, r: Record, s': Sys)
    requires Reached(w, s) && SysShaped(w, s) && i < w.c.sessions && InWindow(w.c, s.vm)
    requires s.vm.pcs[i] == Inserting(ts) && s.work[i] == Applying(false) && ts in s.wal && s.wal[ts].Inserts?
    requires n < |s.wal[ts].log| && s.wal[ts].log[n] == r && ts in s.applied && s.applied[ts] == n
    requires Ingestible(s.graph, r, ts) && (r.InsertVertex? ==> V(r.v) !in s.graph)
    requires s' == s.(graph := s'.graph, layout := s'.layout, applied := s'.applied)
    requires s'.graph == s.graph[KeyOfRecord(r, ts, n) := Item(ContentOf(r), ts)]
    requires s'.layout == Place(s.layout, ts, n, r) && s'.applied == s.applied[ts := n + 1]
    ensures Reached(w, s')
  {
    var a := s;
    if r.InsertEdge? {
      PushNext(w, s, i);
      a := s.(layout := PlaceIn(s.layout, ts, n, r), work := s.work[i := Applying(true)]);
    }
    IngestNext(w, a, i);
    assert a.work[i := Applying(false)] == s.work;
  }

  /** A session whose records are all in the graph gives the next timestamp back. */
  lemma CloseInsert(w: World, s: Sys, i: nat, s': Sys)
    requires Reached(w, s) && SysShaped(w, s) && i < w.c.sessions && s.vm.pcs[i] == Inserting(s.vm.read + 1)
    requires s.work[i].Applying?
    requires var ts := s.vm.read + 1;
      ts in s.wal && s.wal[ts].Inserts? && ts in s.applied && s.applied[ts] == |s.wal[ts].log|
    requires w.c == Two() && s.vm.bits == [false, false] && InWindow(w.c, s.vm)
    requires s' == s.(vm := s'.vm, work := s.work[i := NoWork])
    requires s'.vm == s.vm.(pcs := s.vm.pcs[i := Idle], read := s.vm.read + 1, pending := s.vm.pending - 1)
    ensures Reached(w, s')
  {
    var vm := s.vm.(pcs := s.vm.pcs[i := Published], read := s.vm.read + 1);
    PublishInsert(w, s, i, vm);
    assert vm.pcs[i := Idle] == s.vm.pcs[i := Idle];
    Quiet(w, s.(vm := vm, work := s.work[i := NoWork]), i, Leave, s'.vm);
  }

  /** With everybody idle, a session gets the update timestamp. */
  lemma OpenUpdate(w: World, s: Sys, i: nat, s': Sys)
    requires Reached(w, s) && SysShaped(w, s) && i < w.c.sessions && s.vm.pcs[i] == Idle && s.vm.pending == 0
    requires !s.vm.claimed
    requires s.vm.write < s.vm.read + w.c.ring + 2
    requires s' == s.(vm := s'.vm, work := s.work[i := Modifying(s.graph, [])])
    requires s'.vm == s.vm.(pcs := s.vm.pcs[i := Updating(s.vm.write)], write := s.vm.write + 1,
                            pending := 0 - w.c.threads, claimed := true)
    ensures Reached(w, s')
  {
    var a := s.vm.(pcs := s.vm.pcs[i := Claimed], claimed := true);
    Quiet(w, s, i, Claim, a);
    var b := a.(pcs := a.pcs[i := Drained], pending := 0 - w.c.threads);
    Quiet(w, s.(vm := a), i, Subtract, b);
    assert b.pcs[i := Updating(b.write)] == s.vm.pcs[i := Updating(s.vm.write)];
    TakeUpdate(w, s.(vm := b), i, s'.vm);
  }

  // ------------------------------------------------------------------------------------
  // A list filled out of order
  // ------------------------------------------------------------------------------------

  const A := VKey(0, 1)
  const B := VKey(0, 2)
  const C := VKey(0, 3)

  /** Any graph with these three vertices and no slots for edges between them. */
  ghost predicate Bare(g: Graph, m: Layout) {
    && NothingAfter(g, 0) && Sees(g, 0, A) && Sees(g, 0, B) && Sees(g, 0, C)
    && ListOf(m, Out(A, 0, 0)) == [] && ListOf(m, In(B, 0, 0)) == [] && ListOf(m, In(C, 0, 0)) == []
  }

  function From(g: Graph, m: Layout): (w: World) { World(Two(), 0, Visible(g, 0), m) }

  function Begin(g: Graph, m: Layout): (s: Sys) {
    Sys(Vms(1, 0, 0, false, Idle, Idle), g, m, map[], map[], [NoWork, NoWork], 0)
  }

  lemma BeginReached(g: Graph, m: Layout)
    requires NothingAfter(g, 0)
    ensures Reached(From(g, m), Begin(g, m))
  {
    Start(From(g, m), Begin(g, m));
  }

  function OneOpen(g: Graph, m: Layout): (s: Sys) {
    Sys(Vms(2, 0, 1, false, Inserting(1), Idle), g, m, map[], map[], [Building([]), NoWork], 0)
  }

  lemma OneOpenReached(g: Graph, m: Layout)
    requires NothingAfter(g, 0)
    ensures Reached(From(g, m), OneOpen(g, m))
  {
    BeginReached(g, m);
    OpenInsert(From(g, m), Begin(g, m), 0, OneOpen(g, m));
  }

  /** Both sessions hold an insert timestamp. */
  function BothOpen(g: Graph, m: Layout): (s: Sys) {
    Sys(Vms(3, 0, 2, false, Inserting(1), Inserting(2)), g, m, map[], map[], [Building([]), Building([])], 0)
  }

  lemma BothOpenReached(g: Graph, m: Layout)
    requires NothingAfter(g, 0)
    ensures Reached(From(g, m), BothOpen(g, m))
  {
    OneOpenReached(g, m);
    OpenInsert(From(g, m), OneOpen(g, m), 1, BothOpen(g, m));
  }

  /** From A to B at 1, from A to C at 2. */
  const EDGE1 := InsertEdge(A, B, 0, [])
  const EDGE2 := InsertEdge(A, C, 0, [])

  function OneLogged(g: Graph, m: Layout): (s: Sys) {
    BothOpen(g, m).(wal := map[1 := Inserts([EDGE1])], applied := map[1 := 0], work := [Applying(false), Building([])])
  }

  lemma OneLoggedReached(g: Graph, m: Layout)
    requires Bare(g, m)
    ensures Reached(From(g, m), OneLogged(g, m))
  {
    BothOpenReached(g, m);
    assert [] + [EDGE1] == [EDGE1];
    WriteAndLog(From(g, m), BothOpen(g, m), 0, EDGE1, OneLogged(g, m));
  }

  function Logs(): (wal: map<nat, Entry>) { map[1 := Inserts([EDGE1]), 2 := Inserts([EDGE2])] }

  function BothLogged(g: Graph, m: Layout): (s: Sys) {
    BothOpen(g, m).(wal := Logs(), applied := map[1 := 0, 2 := 0], work := [Applying(false), Applying(false)])
  }

  lemma BothLoggedReached(g: Graph, m: Layout)
    requires Bare(g, m)
    ensures Reached(From(g, m), BothLogged(g, m))
  {
    OneLoggedReached(g, m);
    assert [] + [EDGE2] == [EDGE2];
    WriteAndLog(From(g, m), OneLogged(g, m), 1, EDGE2, BothLogged(g, m));
  }

  const E1 := E(1, 0)
  const E2 := E(2, 0)

  function Later(g: Graph): (r: Graph) { g[E2 := Item(ContentOf(EDGE2), 2)] }

  function Both(g: Graph): (r: Graph) { Later(g)[E1 := Item(ContentOf(EDGE1), 1)] }

  /** The insert with the later timestamp came first. */
  function Swapped(m: Layout): (r: Layout) { Place(Place(m, 2, 0, EDGE2), 1, 0, EDGE1) }

  function OneIngested(g: Graph, m: Layout): (s: Sys) {
    BothLogged(g, m).(graph := Later(g), layout := Place(m, 2, 0, EDGE2), applied := map[1 := 0, 2 := 1])
  }

  lemma OneIngestedReached(g: Graph, m: Layout)
    requires Bare(g, m)
    ensures Reached(From(g, m), OneIngested(g, m))
  {
    BothLoggedReached(g, m);
    assert OneIngested(g, m).applied == BothLogged(g, m).applied[2 := 1];
    IngestOne(From(g, m), BothLogged(g, m), 1, 2, 0, EDGE2, OneIngested(g, m));
  }

  function BothIngested(g: Graph, m: Layout): (s: Sys) {
    BothLogged(g, m).(graph := Both(g), layout := Swapped(m), applied := map[1 := 1, 2 := 1])
  }

  lemma BothIngestedReached(g: Graph, m: Layout)
    requires Bare(g, m)
    ensures Reached(From(g, m), BothIngested(g, m))
  {
    OneIngestedReached(g, m);
    assert BothIngested(g, m).applied == OneIngested(g, m).applied[1 := 1];
    IngestOne(From(g, m), OneIngested(g, m), 0, 1, 0, EDGE1, BothIngested(g, m));
  }

  function OneClosed(g: Graph, m: Layout): (s: Sys) {
    BothIngested(g, m).(vm := Vms(3, 1, 1, false, Idle, Inserting(2)), work := [NoWork, Applying(false)])
  }

  lemma OneClosedReached(g: Graph, m: Layout)
    requires Bare(g, m)
    ensures Reached(From(g, m), OneClosed(g, m))
  {
    BothIngestedReached(g, m);
    CloseInsert(From(g, m), BothIngested(g, m), 0, OneClosed(g, m));
  }

  function BothClosed(g: Graph, m: Layout): (s: Sys) {
    BothIngested(g, m).(vm := Vms(3, 2, 0, false, Idle, Idle), work := [NoWork, NoWork])
  }

  lemma BothClosedReached(g: Graph, m: Layout)
    requires Bare(g, m)
    ensures Reached(From(g, m), BothClosed(g, m))
  {
    OneClosedReached(g, m);
    CloseInsert(From(g, m), OneClosed(g, m), 1, BothClosed(g, m));
  }

  /** The first session updates. */
  function Alone(g: Graph, m: Layout): (s: Sys) {
    BothClosed(g, m).(vm := Vms(4, 2, -2, true, Updating(3), Idle), work := [Modifying(Both(g), []), NoWork])
  }

  lemma AloneReached(g: Graph, m: Layout)
    requires Bare(g, m)
    ensures Reached(From(g, m), Alone(g, m))
  {
    BothClosedReached(g, m);
    OpenUpdate(From(g, m), BothClosed(g, m), 0, Alone(g, m));
  }

  /** The edge from A to B, which is at place 1 of A's list and at place 0 of B's. */
  const REMOVAL := RemoveEdge(A, B, 0, 1, 0)

  function LogOrder(m: Layout): (r: Layout) { Place(Place(m, 1, 0, EDGE1), 2, 0, EDGE2) }

  lemma ListsAre(g: Graph, m: Layout)
    requires Bare(g, m)
    ensures OutList(Swapped(m), REMOVAL) == [Slot(2, 0, E2), Slot(1, 0, E1)]
    ensures InList(Swapped(m), REMOVAL) == [Slot(1, 0, E1)]
    ensures OutList(LogOrder(m), REMOVAL) == [Slot(1, 0, E1), Slot(2, 0, E2)]
    ensures InList(LogOrder(m), REMOVAL) == [Slot(1, 0, E1)]
  {
  }

  lemma LogOrderIs(g: Graph, m: Layout)
    ensures Lay(From(g, m), Logs(), 2) == LogOrder(m)
  {
    var w := From(g, m);
    assert Lay(w, Logs(), 0) == m;
    assert LayLog(m, 1, [EDGE1], 0) == m;
    assert Lay(w, Logs(), 1) == Place(m, 1, 0, EDGE1);
    assert LayLog(Lay(w, Logs(), 1), 2, [EDGE2], 0) == Lay(w, Logs(), 1);
  }

  /** Both edges are there, with both slots. */
  ghost predicate Edges(v: View) {
    BothEnds(v, A, B) && E1 in v && v[E1] == ContentOf(EDGE1) && E2 in v && v[E2] == ContentOf(EDGE2)
  }

  lemma EdgesSeen(g: Graph)
    requires Sees(g, 0, A) && Sees(g, 0, B)
    ensures Edges(Visible(Both(g), 3))
  {
  }

  /** What the update removes, and what recovery would remove instead. */
  lemma RemovalDiffers(g: Graph, m: Layout, v: View)
    requires Bare(g, m) && Edges(v)
    ensures Effect(v, Swapped(m), 3, 0, REMOVAL) == Some(v - {E1})
    ensures Effect(v, LogOrder(m), 3, 0, REMOVAL) == Some(Kill(Kill(v, E2, Outgoing), E1, Incoming))
    ensures !Alike(v, Swapped(m), LogOrder(m), REMOVAL)
  {
    ListsAre(g, m);
    assert Kill(Kill(v, E1, Outgoing), E1, Incoming) == v - {E1};
    assert Target(v, OutList(Swapped(m), REMOVAL), 1, Outgoing) == Some(Some(E1));
    assert Target(v, OutList(LogOrder(m), REMOVAL), 1, Outgoing) == Some(Some(E2));
  }

  lemma RemovalIsEnabled(g: Graph, m: Layout)
    requires Bare(g, m)
    ensures SEnabled(From(g, m), Alone(g, m), 0, Alter(REMOVAL)) && !Fine(From(g, m), Alone(g, m), 0, Alter(REMOVAL))
  {
    EdgesSeen(g);
    RemovalDiffers(g, m, Visible(Both(g), 3));
    LogOrderIs(g, m);
    assert LayChanges(LogOrder(m), 3, [], 0) == LogOrder(m);
  }

  /** Replayed, the removal takes the outgoing slot of the other edge. */
  lemma RemovalReplayed(g: Graph, m: Layout)
    requires Bare(g, m)
    ensures var u := RunChanges(Visible(Both(g), 3), Lay(From(g, m), Logs(), 2), 3, [REMOVAL], 1);
      u.Some? && Shown(u.value, E1, Outgoing).Some? && Shown(u.value, E2, Outgoing).None?
  {
    var v := Visible(Both(g), 3);
    EdgesSeen(g);
    RemovalDiffers(g, m, v);
    LogOrderIs(g, m);
    assert RunChanges(v, LogOrder(m), 3, [REMOVAL], 0) == Some(v)
      && LayChanges(LogOrder(m), 3, [REMOVAL], 0) == LogOrder(m);
    KilledShows(v, E2, E1, E1, Outgoing);
    KilledShows(v, E2, E1, E2, Outgoing);
  }

  lemma RemovalLive(g: Graph, m: Layout)
    requires Bare(g, m)
    ensures SEnabled(From(g, m), Alone(g, m), 0, Alter(REMOVAL))
    ensures var s := SExec(From(g, m), Alone(g, m), 0, Alter(REMOVAL));
      s.vm == Alone(g, m).vm && s.wal == Logs() && E1 !in s.graph && E2 in s.graph
  {
    RemovalIsEnabled(g, m);
    EdgesSeen(g);
    RemovalDiffers(g, m, Visible(Both(g), 3));
    AlterIs(From(g, m), Alone(g, m), 0, REMOVAL);
  }

  /**
   * Inserts 1 and 2 add edges from the same vertex, 2 is ingested first; an update then removes the
   * edge of 1 by its offset: the log, replayed, takes the outgoing slot of 2 instead.
   */
  lemma OutOfOrderRun(g: Graph, m: Layout) returns (run: seq<Sys>)
    requires Bare(g, m)
    ensures SRun(From(g, m), run) && !Together(From(g, m), run[|run| - 1])
    ensures var s := run[|run| - 1];
      && E1 !in s.graph && E2 in s.graph && s.wal == Logs()
      && var u := RunChanges(Visible(Both(g), 3), Lay(From(g, m), s.wal, 2), 3, [REMOVAL], 1);
         u.Some? && Shown(u.value, E1, Outgoing).Some? && Shown(u.value, E2, Outgoing).None?
  {
    AloneReached(g, m);
    RemovalIsEnabled(g, m);
    RemovalLive(g, m);
    run := GoWrong(From(g, m), Alone(g, m), 0, Alter(REMOVAL));
    RemovalReplayed(g, m);
  }

  // ------------------------------------------------------------------------------------
  // The same oid twice
  // ------------------------------------------------------------------------------------

  const X := VKey(0, 8)
  const Y := VKey(0, 9)
  const NEWX := InsertVertex(X, [])
  const NEWY := InsertVertex(Y, [])

  /** Any graph without these two vertices. */
  ghost predicate Lacks(g: Graph) { NothingAfter(g, 0) && V(X) !in g && V(Y) !in g }

  function FirstLogged(g: Graph, m: Layout): (s: Sys) {
    BothOpen(g, m).(wal := map[1 := Inserts([NEWY])], applied := map[1 := 0], work := [Applying(false), Building([])])
  }

  lemma FirstLoggedReached(g: Graph, m: Layout)
    requires Lacks(g)
    ensures Reached(From(g, m), FirstLogged(g, m))
  {
    BothOpenReached(g, m);
    assert [] + [NEWY] == [NEWY];
    WriteAndLog(From(g, m), BothOpen(g, m), 0, NEWY, FirstLogged(g, m));
  }

  function SecondWrites(g: Graph,
                        m: Layout): (s: Sys) { FirstLogged(g, m).(work := [Applying(false), Building([NEWX])]) }

  lemma SecondWritesReached(g: Graph, m: Layout)
    requires Lacks(g)
    ensures Reached(From(g, m), SecondWrites(g, m))
  {
    FirstLoggedReached(g, m);
    assert [] + [NEWX] == [NEWX];
    WriteOne(From(g, m), FirstLogged(g, m), 1, NEWX);
    assert FirstLogged(g, m).work[1 := Building([] + [NEWX])] == SecondWrites(g, m).work;
  }

  function TwoLogs(): (wal: map<nat, Entry>) { map[1 := Inserts([NEWY]), 2 := Inserts([NEWX, NEWY])] }

  function SecondLogged(g: Graph, m: Layout): (s: Sys) {
    BothOpen(g, m).(wal := TwoLogs(), applied := map[1 := 0, 2 := 0], work := [Applying(false), Applying(false)])
  }

  lemma SecondLoggedReached(g: Graph, m: Layout)
    requires Lacks(g)
    ensures Reached(From(g, m), SecondLogged(g, m))
  {
    SecondWritesReached(g, m);
    assert [NEWX] + [NEWY] == [NEWX, NEWY];
    assert !Makes([NEWX], 1, Y);
    WriteAndLog(From(g, m), SecondWrites(g, m), 1, NEWY, SecondLogged(g, m));
  }

  function FirstIngested(g: Graph, m: Layout): (s: Sys) {
    SecondLogged(g, m).(graph := g[V(Y) := Item(Vertex([]), 1)], layout := Place(m, 1, 0, NEWY),
      applied := map[1 := 1, 2 := 0])
  }

  lemma FirstIngestedReached(g: Graph, m: Layout)
    requires Lacks(g)
    ensures Reached(From(g, m), FirstIngested(g, m))
  {
    SecondLoggedReached(g, m);
    assert FirstIngested(g, m).applied == SecondLogged(g, m).applied[1 := 1];
    IngestOne(From(g, m), SecondLogged(g, m), 0, 1, 0, NEWY, FirstIngested(g, m));
  }

  /** The second session has ingested its first record and comes to the oid of the first. */
  function HalfWay(g: Graph, m: Layout): (s: Sys) {
    SecondLogged(g, m).(graph := g[V(Y) := Item(Vertex([]), 1)][V(X) := Item(Vertex([]), 2)],
                        layout := Place(Place(m, 1, 0, NEWY), 2, 0, NEWX), applied := map[1 := 1, 2 := 1])
  }

  lemma HalfWayReached(g: Graph, m: Layout)
    requires Lacks(g)
    ensures Reached(From(g, m), HalfWay(g, m))
  {
    FirstIngestedReached(g, m);
    assert HalfWay(g, m).applied == FirstIngested(g, m).applied[2 := 1];
    IngestOne(From(g, m), FirstIngested(g, m), 1, 2, 0, NEWX, HalfWay(g, m));
  }

  lemma SecondGivesUp(g: Graph, m: Layout)
    requires Lacks(g)
    ensures SEnabled(From(g, m), HalfWay(g, m), 1, Vm(Publish)) && !Fine(From(g, m), HalfWay(g, m), 1, Vm(Publish))
    ensures var s := SExec(From(g, m), HalfWay(g, m), 1, Vm(Publish));
      && s.graph == HalfWay(g, m).graph && s.wal == TwoLogs() && s.applied == map[1 := 1, 2 := 1]
      && s.vm == State(3, 0, 2, false, [true, false], [Inserting(1), Published])
  {
    var s := HalfWay(g, m);
    assert s.wal[2].log[1] == NEWY && Sees(s.graph, 2, Y);
  }

  /** Recovery throws at the second log. */
  lemma SecondIsNotReplayed(g: Graph, m: Layout)
    requires Lacks(g)
    ensures ReplayTo(From(g, m), TwoLogs(), 2).None?
  {
    var w, v := From(g, m), Visible(g, 0);
    assert ReplayTo(w, TwoLogs(), 0) == Some(v);
    assert ReplayLog(v, [NEWY], 1, 0) == Some(v);
    var u := v[V(Y) := Vertex([])];
    assert ReplayTo(w, TwoLogs(), 1) == Some(u);
    assert ReplayLog(u, [NEWX, NEWY], 2, 0) == Some(u);
    assert ReplayLog(u, [NEWX, NEWY], 2, 1) == Some(u[V(X) := Vertex([])]);
  }

  /**
   * Two inserts log the same new oid; the second throws half-way and its timestamp is released:
   * half of its log is in the graph for good, and the log cannot be replayed.
   */
  lemma SameOidRun(g: Graph, m: Layout) returns (run: seq<Sys>)
    requires Lacks(g)
    ensures SRun(From(g, m), run) && !Together(From(g, m), run[|run| - 1])
    ensures var s := run[|run| - 1];
      && Finished(s.vm, 2) && s.wal == TwoLogs() && s.applied == map[1 := 1, 2 := 1]
      && V(X) in s.graph && s.graph[V(X)].birth == 2 && V(Y) in s.graph && s.graph[V(Y)].birth == 1
      && ReplayTo(From(g, m), s.wal, 2).None?
  {
    HalfWayReached(g, m);
    SecondGivesUp(g, m);
    run := GoWrong(From(g, m), HalfWay(g, m), 1, Vm(Publish));
    SecondIsNotReplayed(g, m);
  }

  // ------------------------------------------------------------------------------------
  // An abort that loses an edge
  // ------------------------------------------------------------------------------------

  const E0 := E(0, 0)

  /** Any graph with an edge from B to A and no edge with a single slot. */
  ghost predicate Linked(g: Graph, m: Layout) {
    && NothingAfter(g, 0) && Sees(g, 0, A) && Sees(g, 0, B) && Lid(m, A).Some?
    && E0 in g && g[E0].content == Link(B, A, 0, Some([]), Some([]))
    && forall k | k in g :: !Torn(g[k].content)
  }

  function Opened(g: Graph, m: Layout): (s: Sys) {
    Begin(g, m).(vm := Vms(2, 0, -2, true, Updating(1), Idle), work := [Modifying(g, []), NoWork])
  }

  lemma OpenedReached(g: Graph, m: Layout)
    requires NothingAfter(g, 0)
    ensures Reached(From(g, m), Opened(g, m))
  {
    BeginReached(g, m);
    OpenUpdate(From(g, m), Begin(g, m), 0, Opened(g, m));
  }

  lemma RemovalIsPossible(g: Graph, m: Layout)
    requires Linked(g, m)
    ensures Effect(Visible(g, 1), m, 1, 0, RemoveVertex(A)).Some?
  {
    var v := Visible(g, 1);
    forall k | k in Victims(v, m, A) ensures !Torn(v[k]) { assert k in g; }
  }

  lemma RemovedReached(g: Graph, m: Layout) returns (s: Sys)
    requires Linked(g, m)
    ensures Reached(From(g, m), s) && SysShaped(From(g, m), s)
    ensures s.vm == Opened(g, m).vm && s.wal == map[] && s.work == [Modifying(g, [RemoveVertex(A)]), NoWork]
  {
    var w, a, x := From(g, m), Opened(g, m), Alter(RemoveVertex(A));
    OpenedReached(g, m);
    RemovalIsPossible(g, m);
    assert Lay(w, a.wal, 0) == m && LayChanges(m, 1, [], 0) == m;
    assert Fine(w, a, 0, x);
    AlterIs(w, a, 0, RemoveVertex(A));
    Go(w, a, 0, x);
    s := SExec(w, a, 0, x);
    assert [] + [RemoveVertex(A)] == [RemoveVertex(A)];
    assert s.work == a.work[0 := Modifying(g, [RemoveVertex(A)])];
  }

  /**
   * An update removes a vertex and aborts; the edges into it from its own label were not recorded
   * and are gone, without anything in the log: replay shows the edge, the graph does not.
   */
  lemma LossyAbortRun(g: Graph, m: Layout) returns (run: seq<Sys>)
    requires Linked(g, m)
    ensures SRun(From(g, m), run) && !Together(From(g, m), run[|run| - 1])
    ensures var s := run[|run| - 1];
      && s.wal == map[] && s.graph == g - {E0}
      && ReplayTo(From(g, m), s.wal, 0).Some? && E0 in ReplayTo(From(g, m), s.wal, 0).value
  {
    var w := From(g, m);
    var s := RemovedReached(g, m);
    var to := g - {E0};
    assert E0 in Visible(g, 1) && E0 !in Visible(to, 1);
    run := GoWrong(w, s, 0, RollBack(to));
  }
}
