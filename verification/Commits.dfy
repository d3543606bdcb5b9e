/**
 * Transactions on top of the timestamp protocol: insert transactions build a log, append it and
 * apply it record by record next to each other, or give up half-way; an update transaction changes
 * the graph record by record while it is alone; readers see what was born at or before their snapshot.
 */
module Commits {
  import opened Wrappers
  import opened VersionManager
  import opened Exclusion
  import opened Frontier
  import opened Records

  datatype Item = Item(content: Content, birth: nat)

  type Graph = map<ItemKey, Item>

  /** What the log holds for a timestamp. */
  datatype Entry = Inserts(log: seq<Record>) | Update(changes: seq<Change>)

  datatype Work =
    | NoWork
    | Building(log: seq<Record>)                     // insert: arc_ grows
    | Applying(pushed: bool)                         // insert: logged, being ingested; an incoming slot is in place
    | Modifying(was: Graph, changes: seq<Change>)    // update: changing the graph in place, arc_ grows
    | Settled                                        // update: committed or rolled back, not yet released

  datatype Sys = Sys(
    vm: State,
    graph: Graph,
    layout: Layout,                // the rows and adjacency lists, slot by slot
    wal: map<nat, Entry>,
    applied: map<nat, nat>,        // how many records of a logged insert are in the graph
    work: seq<Work>,
    barrier: nat)                  // the last timestamp at which an updater was alone

  /** Fixed over a run: where the clock started, what the graph showed then and how its lists were filled. */
  datatype World = World(c: Config, from: nat, base: View, lists: Layout)

  function KeyAt(log: seq<Record>, t: nat, p: nat): (k: ItemKey)
    requires p < |log|
  {
    KeyOfRecord(log[p], t, p)
  }

  /** What a reader with snapshot `r` sees. */
  function Visible(g: Graph, r: nat): (v: View) {
    map k | k in g && g[k].birth <= r :: g[k].content
  }

  // ------------------------------------------------------------------------------------
  // Replay in timestamp order
  // ------------------------------------------------------------------------------------

  /** A new vertex is not there yet, the ends of a new edge are. */
  predicate Fits(u: View, r: Record) {
    match r
    case InsertVertex(v, _) => V(v) !in u
    case InsertEdge(src, dst, _, _) => V(src) in u && V(dst) in u
  }

  /** The first `n` records on top of `v`; None when ingestion would fail. */
  function ReplayLog(v: View, log: seq<Record>, t: nat, n: nat): (r: Option<View>)
    requires n <= |log|
  {
    if n == 0 then Some(v) else
      match ReplayLog(v, log, t, n - 1)
      case None => None
      case Some(u) =>
        if Fits(u, log[n - 1]) then Some(u[KeyAt(log, t, n - 1) := ContentOf(log[n - 1])]) else None
  }

  /** The lists after the first `n` records of an insert, or of an update. */
  function LayLog(m: Layout, t: nat, log: seq<Record>, n: nat): (r: Layout)
    requires n <= |log|
  {
    if n == 0 then m else Place(LayLog(m, t, log, n - 1), t, n - 1, log[n - 1])
  }

  function LayChanges(m: Layout, t: nat, cs: seq<Change>, n: nat): (r: Layout)
    requires n <= |cs|
  {
    if n == 0 then m else PlaceChange(LayChanges(m, t, cs, n - 1), t, n - 1, cs[n - 1])
  }

  /** The lists as the log fills them, in timestamp order. */
  function Lay(w: World, wal: map<nat, Entry>, r: nat): (m: Layout)
    requires w.from <= r
  {
    if r == w.from then w.lists
    else
      var m := Lay(w, wal, r - 1);
      if r !in wal then m
      else match wal[r]
        case Inserts(log) => LayLog(m, r, log, |log|)
        case Update(cs) => LayChanges(m, r, cs, |cs|)
  }

  /** The first `n` records of an update on top of `v`; None when ingestion would fail. */
  function RunChanges(v: View, m: Layout, t: nat, cs: seq<Change>, n: nat): (r: Option<View>)
    requires n <= |cs|
  {
    if n == 0 then Some(v) else
      match RunChanges(v, m, t, cs, n - 1)
      case None => None
      case Some(u) => Effect(u, LayChanges(m, t, cs, n - 1), t, n - 1, cs[n - 1])
  }

  /** The graph that recovery builds from the log up to and including timestamp `r`. */
  function ReplayTo(w: World, wal: map<nat, Entry>, r: nat): (v: Option<View>)
    requires w.from <= r
  {
    if r == w.from then Some(w.base) else
      match ReplayTo(w, wal, r - 1)
      case None => None
      case Some(v) =>
        if r !in wal then Some(v)
        else match wal[r]
          case Inserts(log) => ReplayLog(v, log, r, |log|)
          case Update(cs) => RunChanges(v, Lay(w, wal, r - 1), r, cs, |cs|)
  }

  lemma {:induction false} ReplayLocal(w: World, wal: map<nat, Entry>, wal': map<nat, Entry>, r: nat)
    requires w.from <= r
    requires forall t | w.from < t <= r :: (t in wal <==> t in wal') && (t in wal ==> wal[t] == wal'[t])
    ensures ReplayTo(w, wal, r) == ReplayTo(w, wal', r) && Lay(w, wal, r) == Lay(w, wal', r)
  {
    if r > w.from { ReplayLocal(w, wal, wal', r - 1); }
  }

  /** One record more. */
  lemma {:induction false} ChangesPrefix(v: View, m: Layout, t: nat, cs: seq<Change>, c: Change, n: nat)
    requires n <= |cs|
    ensures RunChanges(v, m, t, cs + [c], n) == RunChanges(v, m, t, cs, n)
    ensures LayChanges(m, t, cs + [c], n) == LayChanges(m, t, cs, n)
  {
    if n > 0 { ChangesPrefix(v, m, t, cs, c, n - 1); }
  }

  // ------------------------------------------------------------------------------------
  // Steps
  // ------------------------------------------------------------------------------------

  datatype SAct =
    | Vm(a: Act)
    | Write(rec: Record)           // AddVertex / AddEdge of an insert transaction
    | Append                       // logger_.append of an insert transaction
    | PushIn                       // IngestWal puts the incoming slot of an edge in place
    | Ingest                       // the rest of one record of IngestWal
    | Alter(change: Change)        // an update transaction changes the graph in place
    | Commit                       // an update transaction logs its records and finishes
    | RollBack(to: Graph)          // an update transaction has run its undo records; the slots stay

  predicate SysShaped(w: World, s: Sys) {
    WellShaped(w.c, s.vm) && |s.work| == w.c.sessions
  }

  predicate Sees(g: Graph, t: nat, v: VKey) { V(v) in g && g[V(v)].birth <= t }

  /**
   * Ingesting an insert record does not throw: the oid is not visible at `t`, or the two endpoints
   * are.  An oid that is there, but of a later timestamp, is overwritten.
   */
  predicate Ingestible(g: Graph, r: Record, t: nat) {
    match r
    case InsertVertex(v, _) => !Sees(g, t, v)
    case InsertEdge(src, dst, _, _) => Sees(g, t, src) && Sees(g, t, dst)
  }

  /** The log makes that vertex among its first `n` records. */
  predicate Makes(log: seq<Record>, n: nat, v: VKey)
    requires n <= |log|
  {
    exists q :: 0 <= q < n && log[q] == InsertVertex(v, log[q].props)
  }

  predicate EndKnown(g: Graph, t: nat, log: seq<Record>, n: nat, e: VKey)
    requires n <= |log|
  {
    Sees(g, t, e) || Makes(log, n, e)
  }

  /** What AddVertex and AddEdge of an insert transaction let into its log. */
  predicate Writable(g: Graph, t: nat, log: seq<Record>, r: Record) {
    match r
    case InsertVertex(v, _) => !EndKnown(g, t, log, |log|, v)
    case InsertEdge(src, dst, _, _) => EndKnown(g, t, log, |log|, src) && EndKnown(g, t, log, |log|, dst)
  }

  /** The graph that shows `v`: births are kept, what is new is born at `t`. */
  function Restamp(g: Graph, v: View, t: nat): (r: Graph) {
    map k | k in v :: Item(v[k], if k in g then g[k].birth else t)
  }

  /** No item of `g` comes from after `t`. */
  ghost predicate NothingAfter(g: Graph, t: int) {
    forall k :: k in g ==> g[k].birth <= t && (k.E? ==> k.ts <= t)
  }

  ghost predicate SEnabled(w: World, s: Sys, i: nat, x: SAct)
    requires SysShaped(w, s)
  {
    i < w.c.sessions &&
    var pc := s.vm.pcs[i];
    match x
    case Vm(a) =>
      && Enabled(w.c, s.vm, i, a)
      && (a.Publish? && pc.Inserting? ==>
            || s.work[i].Building?                                   // nothing to log, or aborted
            || (s.work[i].Applying? && pc.ts in s.wal && s.wal[pc.ts].Inserts? && pc.ts in s.applied
                && (s.applied[pc.ts] == |s.wal[pc.ts].log|
                    || (s.applied[pc.ts] < |s.wal[pc.ts].log|        // ingestion threw; the destructor releases
                        && !Ingestible(s.graph, s.wal[pc.ts].log[s.applied[pc.ts]], pc.ts)))))
      && (a.Publish? && pc.Updating? ==> s.work[i].Settled?)
      && (a.Revert? ==> s.work[i].Modifying? && s.work[i].changes == [] && s.graph == s.work[i].was)
    case Write(rec) => pc.Inserting? && s.work[i].Building? && Writable(s.graph, pc.ts, s.work[i].log, rec)
    case Append => pc.Inserting? && s.work[i].Building? && s.work[i].log != []
    case PushIn =>
      && pc.Inserting? && s.work[i] == Applying(false) && pc.ts in s.wal && s.wal[pc.ts].Inserts?
      && pc.ts in s.applied && s.applied[pc.ts] < |s.wal[pc.ts].log|
      && s.wal[pc.ts].log[s.applied[pc.ts]].InsertEdge?
      && Ingestible(s.graph, s.wal[pc.ts].log[s.applied[pc.ts]], pc.ts)
    case Ingest =>
      && pc.Inserting? && s.work[i].Applying? && pc.ts in s.wal && s.wal[pc.ts].Inserts?
      && pc.ts in s.applied && s.applied[pc.ts] < |s.wal[pc.ts].log|
      && s.work[i].pushed == s.wal[pc.ts].log[s.applied[pc.ts]].InsertEdge?
      && Ingestible(s.graph, s.wal[pc.ts].log[s.applied[pc.ts]], pc.ts)
    case Alter(c) =>
      && pc.Updating? && s.work[i].Modifying?
      && Effect(Visible(s.graph, pc.ts), s.layout, pc.ts, |s.work[i].changes|, c).Some?
    case Commit => pc.Updating? && s.work[i].Modifying? && s.work[i].changes != []
    case RollBack(to) => pc.Updating? && s.work[i].Modifying? && NothingAfter(to, pc.ts)
  }

  ghost function SExec(w: World, s: Sys, i: nat, x: SAct): (s': Sys)
    requires SysShaped(w, s) && SEnabled(w, s, i, x)
    ensures SysShaped(w, s')
  {
    var pc := s.vm.pcs[i];
    match x
    case Vm(a) =>
      var vm' := Exec(w.c, s.vm, i, a);
      var job :=
        if a.Take? && vm'.pcs[i].Inserting? then Building([])
        else if a.Take? && vm'.pcs[i].Updating? then Modifying(s.graph, [])
        else if a.Publish? || a.Revert? then NoWork
        else s.work[i];
      var barrier' := if pc.Updating? && (a.Publish? || a.Revert?) then vm'.read else s.barrier;
      s.(vm := vm', work := s.work[i := job], barrier := barrier')
    case Write(rec) => s.(work := s.work[i := Building(s.work[i].log + [rec])])
    case Append =>
      s.(work := s.work[i := Applying(false)], wal := s.wal[pc.ts := Inserts(s.work[i].log)],
         applied := s.applied[pc.ts := 0])
    case PushIn =>
      var n := s.applied[pc.ts];
      s.(layout := PlaceIn(s.layout, pc.ts, n, s.wal[pc.ts].log[n]), work := s.work[i := Applying(true)])
    case Ingest =>
      var n := s.applied[pc.ts];
      var log := s.wal[pc.ts].log;
      s.(graph := s.graph[KeyAt(log, pc.ts, n) := Item(ContentOf(log[n]), pc.ts)],
         layout := PlaceRest(s.layout, pc.ts, n, log[n]), applied := s.applied[pc.ts := n + 1],
         work := s.work[i := Applying(false)])
    case Alter(c) =>
      var n := |s.work[i].changes|;
      var v := Effect(Visible(s.graph, pc.ts), s.layout, pc.ts, n, c).value;
      s.(graph := Restamp(s.graph, v, pc.ts), layout := PlaceChange(s.layout, pc.ts, n, c),
         work := s.work[i := Modifying(s.work[i].was, s.work[i].changes + [c])])
    case Commit => s.(work := s.work[i := Settled], wal := s.wal[pc.ts := Update(s.work[i].changes)])
    case RollBack(to) => s.(work := s.work[i := Settled], graph := to)
  }

  ghost predicate SNext(w: World, s: Sys, s': Sys) {
    SysShaped(w, s) && exists i: nat, x: SAct :: SEnabled(w, s, i, x) && s' == SExec(w, s, i, x)
  }

  ghost predicate SInit(w: World, s: Sys) {
    && SysShaped(w, s) && Init(w.c, s.vm) && s.vm.read == w.from == s.barrier
    && s.wal == map[] && s.applied == map[] && NothingAfter(s.graph, w.from)
    && Visible(s.graph, w.from) == w.base && s.layout == w.lists
    && forall i | 0 <= i < w.c.sessions :: s.work[i] == NoWork
  }

  ghost predicate StepAt(w: World, run: seq<Sys>, k: nat)
    requires k + 1 < |run|
  {
    SNext(w, run[k], run[k + 1])
  }

  /** A run without compaction, in which the clocks never outgrow the ring. */
  ghost predicate SRun(w: World, run: seq<Sys>) {
    && 0 < |run| && SInit(w, run[0])
    && (forall k: nat | k + 1 < |run| :: StepAt(w, run, k))
    && (forall k | 0 <= k < |run| :: InWindow(w.c, run[k].vm))
  }

  // ------------------------------------------------------------------------------------
  // The invariant
  // ------------------------------------------------------------------------------------

  /** The records of timestamp `t` that are in the graph. */
  ghost function LogAt(s: Sys, t: nat): (log: seq<Record>) {
    if t in s.wal && s.wal[t].Inserts? && t in s.applied && s.applied[t] <= |s.wal[t].log|
    then s.wal[t].log[..s.applied[t]] else []
  }

  /** Both endpoints of an edge record exist before `t` or come earlier in the same log. */
  ghost predicate Grounded(g: Graph, log: seq<Record>, t: nat, p: nat)
    requires p < |log|
  {
    log[p].InsertEdge? ==>
      EndBefore(g, log, t, p, log[p].src) && EndBefore(g, log, t, p, log[p].dst)
  }

  ghost predicate EndBefore(g: Graph, log: seq<Record>, t: nat, p: nat, e: VKey)
    requires p <= |log|
  {
    V(e) in g && (g[V(e)].birth < t || exists q :: 0 <= q < p && KeyAt(log, t, q) == V(e))
  }

  /** The items born at `t` are exactly the ones the records of `log` make. */
  ghost predicate BornFrom(g: Graph, log: seq<Record>, t: nat) {
    && (forall k | k in g && g[k].birth == t :: exists p :: 0 <= p < |log| && k == KeyAt(log, t, p))
    && (forall p | 0 <= p < |log| :: KeyAt(log, t, p) in g && g[KeyAt(log, t, p)] == Item(ContentOf(log[p]), t))
    && (forall p, q | 0 <= p < q < |log| :: KeyAt(log, t, p) != KeyAt(log, t, q))
    && (forall p | 0 <= p < |log| :: Grounded(g, log, t, p))
  }

  predicate Agrees(p: Pc, j: Work) {
    && (p.Inserting? <==> j.Building? || j.Applying?)
    && (p.Updating? <==> j.Modifying? || j.Settled?)
  }

  /** A session's work matches its place in the protocol and its entry in the log. */
  predicate JobOk(p: Pc, j: Work, wal: map<nat, Entry>) {
    && Agrees(p, j)
    && (j.Building? || j.Modifying? ==> p.ts !in wal)
    && (j.Applying? ==> p.ts in wal && wal[p.ts].Inserts?)
    && (j.Settled? && p.ts in wal ==> wal[p.ts].Update?)
  }

  ghost predicate JobInv(w: World, s: Sys)
    requires SysShaped(w, s)
  {
    forall i | 0 <= i < w.c.sessions :: JobOk(s.vm.pcs[i], s.work[i], s.wal)
  }

  /** Every edge an insert transaction logged joins vertices it saw or makes earlier. */
  ghost predicate LogGrounded(g: Graph, t: nat, log: seq<Record>) {
    forall p | 0 <= p < |log| && log[p].InsertEdge? ::
      EndKnown(g, t, log, p, log[p].src) && EndKnown(g, t, log, p, log[p].dst)
  }

  ghost predicate GroundOne(p: Pc, j: Work, g: Graph, wal: map<nat, Entry>) {
    && (p.Inserting? && j.Building? ==> LogGrounded(g, p.ts, j.log))
    && (p.Inserting? && j.Applying? && p.ts in wal && wal[p.ts].Inserts? ==> LogGrounded(g, p.ts, wal[p.ts].log))
  }

  ghost predicate GroundInv(w: World, s: Sys)
    requires SysShaped(w, s)
  {
    forall i | 0 <= i < w.c.sessions :: GroundOne(s.vm.pcs[i], s.work[i], s.graph, s.wal)
  }

  /** A released insert is in the graph as a whole. */
  ghost predicate Whole(s: Sys) {
    forall t | t in s.wal && s.wal[t].Inserts? && t in s.applied && Finished(s.vm, t) :: s.applied[t] == |s.wal[t].log|
  }

  /** Logged timestamps were handed out. */
  ghost predicate LogInv(w: World, s: Sys)
    requires SysShaped(w, s)
  {
    && (forall t | t in s.wal :: w.from < t < s.vm.write)
    && (forall t | t in s.wal && s.wal[t].Inserts? :: t in s.applied && s.applied[t] <= |s.wal[t].log|)
    && (forall t | t in s.wal && s.wal[t].Update? && Finished(s.vm, t) :: t <= s.barrier)
  }

  ghost predicate BarrierInv(w: World, s: Sys)
    requires SysShaped(w, s)
  {
    && w.from <= s.barrier <= s.vm.read
    && (forall i | 0 <= i < w.c.sessions :: s.vm.pcs[i].Reading? ==> s.barrier <= s.vm.pcs[i].ts)
  }

  ghost predicate Updater(s: Sys, u: nat) { u < |s.vm.pcs| && s.vm.pcs[u].Updating? }

  /** With no update transaction open: the graph, birth by birth. */
  ghost predicate CalmInv(w: World, s: Sys)
    requires SysShaped(w, s) && w.from <= s.barrier
  {
    && NothingAfter(s.graph, s.vm.write - 1)
    && (forall k | k in s.graph && k.E? :: k.ts <= s.barrier || s.graph[k].birth == k.ts)
    && (forall t: nat | s.barrier < t :: BornFrom(s.graph, LogAt(s, t), t))
    && ReplayTo(w, s.wal, s.barrier) == Some(Visible(s.graph, s.barrier))
  }

  /** The graph shows what recovery would make of the log and of the records so far, were they logged now. */
  ghost predicate Open(w: World, wal: map<nat, Entry>, g: Graph, j: Work, ts: nat)
    requires w.from < ts && j.Modifying?
  {
    && NothingAfter(g, ts) && NothingAfter(j.was, ts - 1)
    && ReplayTo(w, wal, ts - 1) == Some(Visible(j.was, ts - 1))
    && RunChanges(Visible(j.was, ts - 1), Lay(w, wal, ts - 1), ts, j.changes, |j.changes|) == Some(Visible(g, ts))
  }

  /** While `u` updates: what the log says up to its timestamp, and its own records on top. */
  ghost predicate BusyInv(w: World, s: Sys, u: nat)
    requires SysShaped(w, s) && w.from <= s.barrier && u < w.c.sessions && s.vm.pcs[u].Updating?
    requires w.from < s.vm.pcs[u].ts
  {
    var ts := s.vm.pcs[u].ts;
    && NothingAfter(s.graph, ts)
    && (s.work[u].Modifying? ==> Open(w, s.wal, s.graph, s.work[u], ts))
    && (s.work[u].Settled? ==> ReplayTo(w, s.wal, ts) == Some(Visible(s.graph, ts)))
  }

  ghost predicate CoreInv(w: World, s: Sys) {
    && SysShaped(w, s) && FrontierInv(w.c, s.vm) && JobInv(w, s) && LogInv(w, s) && BarrierInv(w, s)
    && GroundInv(w, s)
  }

  /**
   * No insert is in part of the graph for good, and what is in the graph is what the log says:
   * birth by birth, and for an update transaction record by record.
   */
  ghost predicate Good(w: World, s: Sys)
    requires SysShaped(w, s) && w.from <= s.barrier
  {
    && Whole(s)
    && ((forall u: nat :: !Updater(s, u)) ==> CalmInv(w, s))
    && (forall u: nat | Updater(s, u) :: w.from < s.vm.pcs[u].ts && BusyInv(w, s, u))
  }

  ghost predicate SysInv(w: World, s: Sys) { CoreInv(w, s) && Good(w, s) }

  // ------------------------------------------------------------------------------------
  // Steps that keep the graph and the log together
  // ------------------------------------------------------------------------------------

  /** The next record to ingest is not a vertex that is already there. */
  predicate NewVertex(s: Sys, t: nat) {
    t in s.wal && s.wal[t].Inserts? && t in s.applied && s.applied[t] < |s.wal[t].log| &&
    (s.wal[t].log[s.applied[t]].InsertVertex? ==> V(s.wal[t].log[s.applied[t]].v) !in s.graph)
  }

  /** The session gives its timestamp back with records left to ingest. */
  predicate GivesUp(s: Sys, i: nat, x: SAct)
    requires i < |s.vm.pcs| && i < |s.work|
  {
    && x == Vm(Publish) && s.vm.pcs[i].Inserting? && s.work[i].Applying?
    && s.vm.pcs[i].ts in s.wal && s.wal[s.vm.pcs[i].ts].Inserts? && s.vm.pcs[i].ts in s.applied
    && s.applied[s.vm.pcs[i].ts] < |s.wal[s.vm.pcs[i].ts].log|
  }

  /** The change addresses the same items in the lists `m` and in the lists in log order. */
  ghost predicate FineChange(w: World, wal: map<nat, Entry>, g: Graph, m: Layout, j: Work, ts: nat, c: Change)
    requires w.from < ts && j.Modifying?
  {
    Alike(Visible(g, ts), m, LayChanges(Lay(w, wal, ts - 1), ts, j.changes, |j.changes|), c)
  }

  /** The undo records have brought back what the update transaction began on. */
  predicate BringsBack(j: Work, to: Graph, ts: nat)
    requires j.Modifying?
  {
    Visible(to, ts) == Visible(j.was, ts)
  }

  /**
   * A session that ingests, or gives up ingesting, has a new vertex before it, or an edge; a change
   * addresses the same items in the lists as they are and in the lists in log order; and an abort
   * brings back what was there.
   */
  ghost predicate Fine(w: World, s: Sys, i: nat, x: SAct)
    requires SysShaped(w, s) && i < w.c.sessions
  {
    && (x.Ingest? || GivesUp(s, i, x) ==> s.vm.pcs[i].Inserting? && NewVertex(s, s.vm.pcs[i].ts))
    && (x.Alter? && s.vm.pcs[i].Updating? && w.from < s.vm.pcs[i].ts && s.work[i].Modifying? ==>
          FineChange(w, s.wal, s.graph, s.layout, s.work[i], s.vm.pcs[i].ts, x.change))
    && (x.RollBack? && s.vm.pcs[i].Updating? && s.work[i].Modifying? ==> BringsBack(s.work[i], x.to, s.vm.pcs[i].ts))
  }

  // ------------------------------------------------------------------------------------
  // A snapshot is a prefix of the log
  // ------------------------------------------------------------------------------------

  /** The part of `g` older than `t`, and the first `n` records of `log`. */
  ghost function Partly(g: Graph, log: seq<Record>, t: nat, n: nat): (v: View)
    requires n <= |log|
  {
    map k | k in g && (g[k].birth < t || exists p :: 0 <= p < n && KeyAt(log, t, p) == k) :: g[k].content
  }

  lemma BornAt(g: Graph, log: seq<Record>, t: nat, p: nat)
    requires BornFrom(g, log, t) && p < |log|
    ensures KeyAt(log, t, p) in g && g[KeyAt(log, t, p)].content == ContentOf(log[p])
  {
  }

  lemma ReplayNext(g: Graph, log: seq<Record>, t: nat, n: nat)
    requires 0 < t && 0 < n <= |log| && BornFrom(g, log, t)
    requires ReplayLog(Visible(g, t - 1), log, t, n - 1) == Some(Partly(g, log, t, n - 1))
    ensures ReplayLog(Visible(g, t - 1), log, t, n) == Some(Partly(g, log, t, n))
  {
    RecordFits(g, log, t, n - 1);
    BornAt(g, log, t, n - 1);
    PartlyGrows(g, log, t, n);
    ReplayOne(Visible(g, t - 1), log, t, n, Partly(g, log, t, n - 1));
  }

  lemma ReplayPrefix(g: Graph, log: seq<Record>, t: nat, n: nat)
    requires 0 < t && n <= |log| && BornFrom(g, log, t)
    ensures ReplayLog(Visible(g, t - 1), log, t, n) == Some(Partly(g, log, t, n))
  {
    PartlyNone(g, log, t);
    for p := 0 to n
      invariant ReplayLog(Visible(g, t - 1), log, t, p) == Some(Partly(g, log, t, p))
    {
      ReplayNext(g, log, t, p + 1);
    }
  }

  lemma PartlyNone(g: Graph, log: seq<Record>, t: nat)
    requires 0 < t
    ensures Partly(g, log, t, 0) == Visible(g, t - 1)
  {
  }

  lemma ReplayOne(v: View, log: seq<Record>, t: nat, n: nat, u: View)
    requires 0 < n <= |log| && ReplayLog(v, log, t, n - 1) == Some(u)
    requires Fits(u, log[n - 1])
    ensures ReplayLog(v, log, t, n) == Some(u[KeyAt(log, t, n - 1) := ContentOf(log[n - 1])])
  {
  }

  /** The next record is acceptable to replay: a new oid, or two endpoints already there. */
  lemma RecordFits(g: Graph, log: seq<Record>, t: nat, p: nat)
    requires p < |log| && BornFrom(g, log, t)
    ensures Fits(Partly(g, log, t, p), log[p])
  {
    var u := Partly(g, log, t, p);
    var k := KeyAt(log, t, p);
    assert Grounded(g, log, t, p);
    assert g[k].birth == t;
    assert k !in u;
  }

  lemma PartlyGrows(g: Graph, log: seq<Record>, t: nat, n: nat)
    requires 0 < n <= |log| && KeyAt(log, t, n - 1) in g
    requires g[KeyAt(log, t, n - 1)].content == ContentOf(log[n - 1])
    ensures Partly(g, log, t, n) ==
            Partly(g, log, t, n - 1)[KeyAt(log, t, n - 1) := ContentOf(log[n - 1])]
  {
    var u, v, k := Partly(g, log, t, n - 1), Partly(g, log, t, n), KeyAt(log, t, n - 1);
    forall j ensures j in v <==> j in u || j == k {
      if j in v && j != k && !(g[j].birth < t) {
        var p :| 0 <= p < n && KeyAt(log, t, p) == j;
        assert p < n - 1;
      }
    }
  }

  lemma ReplayWhole(g: Graph, log: seq<Record>, t: nat)
    requires 0 < t && BornFrom(g, log, t)
    ensures ReplayLog(Visible(g, t - 1), log, t, |log|) == Some(Visible(g, t))
  {
    ReplayPrefix(g, log, t, |log|);
    assert Partly(g, log, t, |log|) == Visible(g, t);
  }

  /** Everything published since the last barrier shows up exactly as the log says. */
  lemma PrefixOfLog(w: World, s: Sys, r: nat)
    requires SysInv(w, s) && (forall u: nat :: !Updater(s, u)) && s.barrier <= r <= s.vm.read
    ensures ReplayTo(w, s.wal, r) == Some(Visible(s.graph, r))
  {
    for t := s.barrier to r
      invariant ReplayTo(w, s.wal, t) == Some(Visible(s.graph, t))
    {
      PrefixNext(w, s, t + 1);
    }
  }

  lemma PrefixNext(w: World, s: Sys, r: nat)
    requires SysInv(w, s) && (forall u: nat :: !Updater(s, u)) && s.barrier < r <= s.vm.read
    requires ReplayTo(w, s.wal, r - 1) == Some(Visible(s.graph, r - 1))
    ensures ReplayTo(w, s.wal, r) == Some(Visible(s.graph, r))
  {
    assert Finished(s.vm, r);
    var log := LogAt(s, r);
    assert BornFrom(s.graph, log, r);
    ReplayWhole(s.graph, log, r);
    assert r in s.wal ==> s.wal[r].Inserts? && log == s.wal[r].log;
  }

  // ------------------------------------------------------------------------------------
  // Every step keeps the invariant
  // ------------------------------------------------------------------------------------

  lemma SysInit(w: World, s: Sys)
    requires SInit(w, s)
    ensures SysInv(w, s)
  {
    FrontierInit(w.c, s.vm);
    forall t: nat | s.barrier < t ensures BornFrom(s.graph, LogAt(s, t), t) { }
  }

  /** A held timestamp is past read_ts_, and belongs to one session. */
  lemma HeldPastRead(c: Config, s: State, i: nat)
    requires FrontierInv(c, s) && i < c.sessions && (s.pcs[i].Inserting? || s.pcs[i].Updating?)
    ensures s.read < s.pcs[i].ts < s.write && Held(s, s.pcs[i].ts) && !Finished(s, s.pcs[i].ts)
  {
    assert HoldsTs(s.pcs[i], s.pcs[i].ts);
    assert Held(s, s.pcs[i].ts) && !Finished(s, s.pcs[i].ts);
  }

  /** How a protocol step moves Held and Finished. */
  lemma VmFinished(c: Config, s: State, i: nat, a: Act)
    requires FrontierInv(c, s) && Enabled(c, s, i, a)
    requires c.sessions <= c.threads + 1 && InWindow(c, s)
    ensures var s' := Exec(c, s, i, a);
      && FrontierInv(c, s') && s.read <= s'.read
      && (a.Publish? ==> forall t: nat :: Finished(s', t) <==> Finished(s, t) || t == s.pcs[i].ts)
      && (!a.Publish? ==> forall t: nat :: Finished(s', t) <==> Finished(s, t))
  {
    var s' := Exec(c, s, i, a);
    FrontierInvStep(c, s, i, a);
    FrontierStep(c, s, i, a);
    if a.Publish? {
      ReleaseHolders(c, s, s', i);
    } else if a.Revert? {
      RevertStep(c, s, i);
      var mid := s.(pcs := s.pcs[i := Leaving]);
      ReleaseHolders(c, s, mid, i);
      HeldPastRead(c, s, i);
      forall t: nat ensures Finished(s', t) <==> Finished(s, t) {
        assert Finished(mid, t) <==> Finished(s, t) || t == s.pcs[i].ts;
        assert Held(s', t) <==> Held(mid, t);
      }
    } else if a.Take? && s.pcs[i] != Granted(false) {
      TakeHolders(s, s', i);
    } else {
      SameHolders(s, s', i);
    }
  }

  /** One session's work after a protocol step of session i. */
  lemma JobOfOne(w: World, s: Sys, i: nat, a: Act, j: nat)
    requires SysShaped(w, s) && SEnabled(w, s, i, Vm(a)) && j < w.c.sessions
    requires JobOk(s.vm.pcs[j], s.work[j], s.wal) && s.vm.write !in s.wal
    ensures var s' := SExec(w, s, i, Vm(a)); JobOk(s'.vm.pcs[j], s'.work[j], s'.wal)
  {
  }

  lemma JobVmStep(w: World, s: Sys, i: nat, a: Act)
    requires CoreInv(w, s) && SEnabled(w, s, i, Vm(a))
    ensures JobInv(w, SExec(w, s, i, Vm(a)))
  {
    forall j | 0 <= j < w.c.sessions
      ensures var s' := SExec(w, s, i, Vm(a)); JobOk(s'.vm.pcs[j], s'.work[j], s'.wal)
    {
      assert JobOk(s.vm.pcs[j], s.work[j], s.wal);
      JobOfOne(w, s, i, a, j);
    }
  }

  /** A published update is not past the barrier. */
  lemma LogPublish(w: World, s: Sys, i: nat)
    requires CoreInv(w, s) && SEnabled(w, s, i, Vm(Publish))
    requires w.c.sessions <= w.c.threads + 1 && InWindow(w.c, s.vm)
    ensures LogInv(w, SExec(w, s, i, Vm(Publish)))
  {
    var s' := SExec(w, s, i, Vm(Publish));
    VmFinished(w.c, s.vm, i, Publish);
    var ts := s.vm.pcs[i].ts;
    assert JobOk(s.vm.pcs[i], s.work[i], s.wal);
    if s.vm.pcs[i].Updating? {
      PublishUpdate(w.c, s.vm, i);
    }
    forall t | t in s.wal && s.wal[t].Update? && Finished(s'.vm, t) ensures t <= s'.barrier {
      assert Finished(s.vm, t) || t == ts;
    }
  }

  lemma LogVmStep(w: World, s: Sys, i: nat, a: Act)
    requires CoreInv(w, s) && SEnabled(w, s, i, Vm(a))
    requires w.c.sessions <= w.c.threads + 1 && InWindow(w.c, s.vm)
    ensures LogInv(w, SExec(w, s, i, Vm(a)))
  {
    if a.Publish? {
      LogPublish(w, s, i);
    } else {
      VmFinished(w.c, s.vm, i, a);
      if a.Revert? { RevertUnlogged(w, s, i); }
      LogFrame(w, s, SExec(w, s, i, Vm(a)));
    }
  }

  /** The timestamp handed back was never logged. */
  lemma RevertUnlogged(w: World, s: Sys, i: nat)
    requires CoreInv(w, s) && SEnabled(w, s, i, Vm(Revert))
    ensures var s' := SExec(w, s, i, Vm(Revert)); s.barrier <= s'.barrier && forall t | t in s.wal :: t < s'.vm.write
  {
    RevertStep(w.c, s.vm, i);
    assert JobOk(s.vm.pcs[i], s.work[i], s.wal);
  }

  /** Between publications the log stays as it is and nothing becomes finished. */
  lemma LogFrame(w: World, s: Sys, s': Sys)
    requires SysShaped(w, s) && SysShaped(w, s') && LogInv(w, s)
    requires s'.wal == s.wal && s'.applied == s.applied && s.barrier <= s'.barrier
    requires forall t: nat :: Finished(s'.vm, t) <==> Finished(s.vm, t)
    requires forall t | t in s.wal :: t < s'.vm.write
    ensures LogInv(w, s')
  {
  }

  lemma BarrierVmStep(w: World, s: Sys, i: nat, a: Act)
    requires CoreInv(w, s) && SEnabled(w, s, i, Vm(a))
    requires w.c.sessions <= w.c.threads + 1 && InWindow(w.c, s.vm)
    ensures BarrierInv(w, SExec(w, s, i, Vm(a)))
  {
    var s' := SExec(w, s, i, Vm(a));
    FrontierStep(w.c, s.vm, i, a);
    if s.vm.pcs[i].Updating? {
      assert IsAlone(s.vm.pcs[i]);
      forall j | 0 <= j < w.c.sessions ensures !s'.vm.pcs[j].Reading? {
        assert !IsGranted(s.vm.pcs[j]);
      }
    }
  }

  // The steps that are not the protocol's own.

  lemma OneHolder(c: Config, s: State, i: nat, j: nat)
    requires FrontierInv(c, s) && i < c.sessions && j < c.sessions && i != j
    requires s.pcs[i].Inserting? || s.pcs[i].Updating?
    requires s.pcs[j].Inserting? || s.pcs[j].Updating?
    ensures s.pcs[i].ts != s.pcs[j].ts
  {
    assert HoldsTs(s.pcs[i], s.pcs[i].ts) && HoldsTs(s.pcs[j], s.pcs[j].ts);
  }

  lemma JobOwnStep(w: World, s: Sys, i: nat, x: SAct)
    requires CoreInv(w, s) && SEnabled(w, s, i, x) && !x.Vm?
    ensures JobInv(w, SExec(w, s, i, x))
  {
    var s' := SExec(w, s, i, x);
    assert JobOk(s.vm.pcs[i], s.work[i], s.wal);
    forall j | 0 <= j < w.c.sessions
      ensures JobOk(s'.vm.pcs[j], s'.work[j], s'.wal)
    {
      assert JobOk(s.vm.pcs[j], s.work[j], s.wal);
      if j != i && (s.vm.pcs[j].Inserting? || s.vm.pcs[j].Updating?) {
        OneHolder(w.c, s.vm, i, j);
      }
    }
  }

  /** Only the entry of a timestamp that is still held changes. */
  lemma LogChanged(w: World, s: Sys, s': Sys, t: nat)
    requires SysShaped(w, s) && SysShaped(w, s') && LogInv(w, s) && s'.vm == s.vm && s'.barrier == s.barrier
    requires forall k: nat | k != t && k in s'.wal ::
      k in s.wal && s'.wal[k] == s.wal[k] && (k in s.applied ==> k in s'.applied && s'.applied[k] == s.applied[k])
    requires t in s'.wal ==> w.from < t < s.vm.write && !Finished(s.vm, t)
    requires t in s'.wal && s'.wal[t].Inserts? ==> t in s'.applied && s'.applied[t] <= |s'.wal[t].log|
    ensures LogInv(w, s')
  {
  }

  lemma LogOwnStep(w: World, s: Sys, i: nat, x: SAct)
    requires CoreInv(w, s) && SEnabled(w, s, i, x) && !x.Vm?
    ensures LogInv(w, SExec(w, s, i, x))
  {
    assert JobOk(s.vm.pcs[i], s.work[i], s.wal);
    HeldPastRead(w.c, s.vm, i);
    LogChanged(w, s, SExec(w, s, i, x), s.vm.pcs[i].ts);
  }

  lemma ClockOwnStep(w: World, s: Sys, i: nat, x: SAct)
    requires CoreInv(w, s) && SEnabled(w, s, i, x) && !x.Vm?
    ensures var s' := SExec(w, s, i, x); FrontierInv(w.c, s'.vm) && BarrierInv(w, s')
  {
  }

  lemma CoreOwnStep(w: World, s: Sys, i: nat, x: SAct)
    requires CoreInv(w, s) && SEnabled(w, s, i, x) && !x.Vm?
    ensures var s' := SExec(w, s, i, x); FrontierInv(w.c, s'.vm) && JobInv(w, s') && LogInv(w, s') && BarrierInv(w, s')
  {
    JobOwnStep(w, s, i, x);
    LogOwnStep(w, s, i, x);
    ClockOwnStep(w, s, i, x);
  }

  // Edges stay grounded: vertices do not go, and are not born later, while an insert is open.

  ghost predicate Persists(g: Graph, g': Graph) {
    forall v | V(v) in g :: V(v) in g' && g'[V(v)].birth <= g[V(v)].birth
  }

  lemma GroundedPersists(g: Graph, g': Graph, t: nat, log: seq<Record>)
    requires LogGrounded(g, t, log) && Persists(g, g')
    ensures LogGrounded(g', t, log)
  {
  }

  lemma GroundedWrite(g: Graph, t: nat, log: seq<Record>, r: Record)
    requires LogGrounded(g, t, log) && Writable(g, t, log, r)
    ensures LogGrounded(g, t, log + [r])
  {
    var more := log + [r];
    forall p, e | 0 <= p <= |log| && EndKnown(g, t, log, p, e) ensures EndKnown(g, t, more, p, e) {
      if !Sees(g, t, e) {
        var q :| 0 <= q < p && log[q] == InsertVertex(e, log[q].props);
        assert more[q] == log[q];
      }
    }
  }

  /** While an update transaction is open, no insert is. */
  lemma NoInserter(w: World, s: Sys, u: nat, i: nat)
    requires CoreInv(w, s) && u < w.c.sessions && s.vm.pcs[u].Updating? && i < w.c.sessions
    ensures !s.vm.pcs[i].Inserting?
  {
    assert IsAlone(s.vm.pcs[u]);
    assert i != u ==> !IsGranted(s.vm.pcs[i]);
  }

  lemma IngestPersists(w: World, s: Sys, i: nat)
    requires CoreInv(w, s) && SEnabled(w, s, i, Ingest)
    ensures Persists(s.graph, SExec(w, s, i, Ingest).graph)
  {
  }

  lemma GroundOther(w: World, s: Sys, i: nat, x: SAct, j: nat)
    requires CoreInv(w, s) && SEnabled(w, s, i, x) && j < w.c.sessions && j != i && !x.Alter? && !x.RollBack?
    requires !x.Commit?
    ensures var s' := SExec(w, s, i, x); GroundOne(s'.vm.pcs[j], s'.work[j], s'.graph, s'.wal)
  {
    var s' := SExec(w, s, i, x);
    assert GroundOne(s.vm.pcs[j], s.work[j], s.graph, s.wal) && JobOk(s.vm.pcs[j], s.work[j], s.wal);
    OtherKept(w, s, i, x, j);
    GroundKept(s.vm.pcs[j], s.work[j], s.graph, s.wal, s'.graph, s'.wal);
  }

  /** What another session's step leaves of a session with an open insert. */
  lemma OtherKept(w: World, s: Sys, i: nat, x: SAct, j: nat)
    requires CoreInv(w, s) && SEnabled(w, s, i, x) && j < w.c.sessions && j != i && !x.Alter? && !x.RollBack?
    requires !x.Commit?
    ensures var s' := SExec(w, s, i, x);
      && s'.vm.pcs[j] == s.vm.pcs[j] && s'.work[j] == s.work[j] && Persists(s.graph, s'.graph)
      && (s.vm.pcs[j].Inserting? && s.vm.pcs[j].ts in s.wal ==>
            s.vm.pcs[j].ts in s'.wal && s'.wal[s.vm.pcs[j].ts] == s.wal[s.vm.pcs[j].ts])
  {
    if x.Ingest? { IngestPersists(w, s, i); }
    if x.Append? && s.vm.pcs[j].Inserting? { OneHolder(w.c, s.vm, i, j); }
  }

  lemma GroundKept(p: Pc, j: Work, g: Graph, wal: map<nat, Entry>, g': Graph, wal': map<nat, Entry>)
    requires GroundOne(p, j, g, wal) && JobOk(p, j, wal) && Persists(g, g')
    requires p.Inserting? && p.ts in wal ==> p.ts in wal' && wal'[p.ts] == wal[p.ts]
    ensures GroundOne(p, j, g', wal')
  {
    if p.Inserting? { GroundedPersists(g, g', p.ts, if j.Building? then j.log else wal[p.ts].log); }
  }

  lemma GroundIngest(w: World, s: Sys, i: nat)
    requires CoreInv(w, s) && SEnabled(w, s, i, Ingest)
    ensures var s' := SExec(w, s, i, Ingest); GroundOne(s'.vm.pcs[i], s'.work[i], s'.graph, s'.wal)
  {
    var pc := s.vm.pcs[i];
    assert GroundOne(pc, s.work[i], s.graph, s.wal) && JobOk(pc, s.work[i], s.wal);
    IngestPersists(w, s, i);
    GroundedPersists(s.graph, SExec(w, s, i, Ingest).graph, pc.ts, s.wal[pc.ts].log);
  }

  lemma GroundOwn(w: World, s: Sys, i: nat, x: SAct)
    requires CoreInv(w, s) && SEnabled(w, s, i, x) && !x.Alter? && !x.RollBack? && !x.Commit?
    ensures var s' := SExec(w, s, i, x); GroundOne(s'.vm.pcs[i], s'.work[i], s'.graph, s'.wal)
  {
    if x.Ingest? {
      GroundIngest(w, s, i);
    } else {
      var pc := s.vm.pcs[i];
      assert GroundOne(pc, s.work[i], s.graph, s.wal) && JobOk(pc, s.work[i], s.wal);
      if x.Write? { GroundedWrite(s.graph, pc.ts, s.work[i].log, x.rec); }
    }
  }

  lemma GroundStep(w: World, s: Sys, i: nat, x: SAct)
    requires CoreInv(w, s) && SEnabled(w, s, i, x)
    ensures GroundInv(w, SExec(w, s, i, x))
  {
    var s' := SExec(w, s, i, x);
    forall j | 0 <= j < w.c.sessions ensures GroundOne(s'.vm.pcs[j], s'.work[j], s'.graph, s'.wal) {
      if x.Alter? || x.RollBack? || x.Commit? {
        NoInserter(w, s, i, j);
      } else if j == i {
        GroundOwn(w, s, i, x);
      } else {
        GroundOther(w, s, i, x, j);
      }
    }
  }

  lemma CoreStep(w: World, s: Sys, i: nat, x: SAct)
    requires CoreInv(w, s) && SEnabled(w, s, i, x)
    requires w.c.sessions <= w.c.threads + 1 && InWindow(w.c, s.vm)
    ensures CoreInv(w, SExec(w, s, i, x))
  {
    GroundStep(w, s, i, x);
    if x.Vm? {
      FrontierInvStep(w.c, s.vm, i, x.a);
      JobVmStep(w, s, i, x.a);
      LogVmStep(w, s, i, x.a);
      BarrierVmStep(w, s, i, x.a);
    } else {
      CoreOwnStep(w, s, i, x);
    }
  }
}
